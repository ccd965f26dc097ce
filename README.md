# Click pipeline and link bookkeeping of the shorter URL shortener, in Dafny

This project models the core of a Go URL shortener. A redirect looks up a
short link, counts the click in Postgres and emits a click event. The
event is written to Kafka with a bounded retry loop. A consumer worker
decodes it, enriches it with geolocation and user-agent data, and appends
the enriched row to an analytics table. Around that pipeline sit the link
repository, the alias generator, the creation request's validation rules,
and the three HTTP handlers: redirect, create and stats.

Each collaborator the code cannot see is an input to the model:

- Kafka's writer and reader, Postgres calls and the geolocation HTTP client
  are abstract outcomes (`Option<Error>`, `Result<…>`, or a function such
  as `Producer.Broker` from attempt number to answer).
- JSON encoding and decoding, the validator's URL check
  (`url.ParseRequestURI`), `crypto/rand` and the user-agent library are
  parameters. They are `Option` values, `string -> bool`, `nat -> Draw`
  and `string -> AgentInfo`.
- `time.Now()` is a `Time` input. So is the created_at value the database
  stamps a new row with. The source does not show how that column is filled.

Modules follow the source files:

- `common.dfy` (`Common`): shared types and helpers.
- `events.dfy` (`Events`): the records from `internal/events`,
  `internal/enricher/enricher.go`, `internal/model` and `internal/dto`.
- `producer.dfy` (`Producer`).
- `consumer.dfy` (`Consumer`).
- `enrichment.dfy` (`Enrichment`).
- `analytics.dfy` (`Analytics`).
- `links.dfy` (`Links`).
- `requests.dfy` (`Requests`).
- `alias.dfy` (`Alias`).
- `redirect.dfy`, `shorter.dfy` and `stats.dfy`: the three handlers.

Code that works step by step is imperative here:

- The producer's retry loop, the worker loop and the alias generator's
  buffer fill are methods with loops.
- Each of those methods is proved equal to a specification function
  (`Producer.SendClickSpec`, `Consumer.Run`, `Alias.Generated`).
- The lemmas state the source's promises about those functions.
- The two repositories are classes. `Links.LinkStore` holds the
  short_links table as a `map` keyed by alias. `Analytics.AnalyticsStore`
  holds enriched_clicks as an append-only `seq`.

Four behaviours of the code that the model keeps as written:

- Messages carry no key. They are not keyed by alias.
- When all three writes fail transiently, the send returns nil. It does
  not report a failure. See Findings.
- `GetStats` returns empty histograms and zero unique IPs. It does not
  aggregate anything.
- The enricher never fails. Its geolocation failures leave country and
  city absent.

## Model

| member | source | states |
|---|---|---|
| `Producer.Deliver` | internal/producer/kafka_producer.go:45-57 | the retry loop makes at most 3 attempts and at least one; an error it returns is always a non-transient write error |
| `Producer.FirstDecisiveAttemptEndsLoop` | internal/producer/kafka_producer.go:47-56 | after transient failures only, an accepted write ends the loop with nil, and a non-transient error is returned as it is; either way no further attempt is made |
| `Producer.AllTransientReportsSuccess` | internal/producer/kafka_producer.go:45-61 | when all 3 attempts fail with UnknownTopicOrPartition or DeadlineExceeded, the send returns nil after exactly 3 attempts |
| `Producer.IsTransient` | internal/producer/kafka_producer.go:48 | UnknownTopicOrPartition and DeadlineExceeded are retried; every other write error is not |
| `Producer.SendClickSpec` | internal/producer/kafka_producer.go:35-61 | a serialisation failure is reported exactly when the event does not serialise, and then no write is attempted; otherwise 1 to 3 writes are made, and any error reported is a non-transient write error |
| `Producer.DeadlineExceededForeverIsReportedSent` | internal/producer/kafka_producer.go:45-61 | for any serialised event, a broker that answers DeadlineExceeded to every attempt makes the send report success after 3 attempts, although nothing was written |
| `Producer.IntendedDeliver` | internal/producer/kafka_producer.go:45-57 | corrected loop: still at most 3 attempts from any starting attempt |
| `Producer.IntendedExhaustion` | internal/producer/kafka_producer.go:45-61 | with the corrected loop, three transient failures end the send after 3 attempts with the third failure reported as the error |
| `Producer.IntendedReportsLoss` | internal/producer/kafka_producer.go:45-61 | with the corrected loop, a send returns nil exactly when some attempt was accepted after transient failures only |
| `Producer.SendClick` | internal/producer/kafka_producer.go:34-61 | a serialisation failure is returned before any write; otherwise the error and the number of writes are those of the retry loop; each written message has no key, the serialised event as value and the event timestamp as time; a returned write error is logged with the alias, otherwise "sent" is logged |
| `Enrichment.Parse` | internal/enricher/device_parser.go:11-24 | device is "mobile" exactly when the library sees a mobile agent and "desktop" otherwise; OS and browser are the library's |
| `Enrichment.Enrich` | internal/enricher/ipgeo_enricher.go:22-55 | never an error; alias, IP and timestamp copied; country and city both present or both absent, present exactly for a non-empty IP whose lookup succeeds, and then taken from the answer; referer absent when empty, otherwise unchanged; device, OS and browser are the parser's output for the task's user agent |
| `Enrichment.EmptyIpIgnoresGeo` | internal/enricher/ipgeo_enricher.go:26-34 | for an empty IP the geolocation service's answer does not matter, and country and city stay absent |
| `Consumer.Step` | internal/consumer/kafka_consumer.go:79-104 | one pass of the loop: a stopped worker does nothing; a running one stops exactly on a read error, hands Save the record of a read that decodes and enriches, stores it and adds one to the counter only when the save succeeds, and logs at most one line |
| `Consumer.Run` | internal/consumer/kafka_consumer.go:77-106 | the processed counter equals the number of stored records; no more Save calls than reads, and no more stored records than Save calls |
| `Consumer.RunMatchesReference` | internal/consumer/kafka_consumer.go:77-106 | the worker stores, in read order, exactly the records of the messages read before the first read error that decode, enrich and save; it calls Save once per message that decodes and enriches; it stops exactly when a read fails |
| `Consumer.FailedStageSkips` | internal/consumer/kafka_consumer.go:87-102 | a decode, enrichment or save failure stores nothing, leaves the counter unchanged, logs one line and moves on; a decode or enrichment failure makes no Save call |
| `Consumer.CommittedStepCountsOne` | internal/consumer/kafka_consumer.go:99-104 | a message that decodes, enriches and saves adds its record and exactly one to the counter |
| `Consumer.ReadFailureStops` | internal/consumer/kafka_consumer.go:79-85 | a read error ends the worker with nothing stored, and it is logged only while the context is live |
| `Consumer.IpGeoNeverDropsAtEnrichment` | internal/consumer/kafka_consumer.go:93-97 | with the IP-and-geo enricher, no message is ever dropped at the enrichment stage |
| `Consumer.Worker` | internal/consumer/kafka_consumer.go:75-107 | the worker loop appends exactly `Run`'s stored records to the sink, and its counter, log and Save calls are `Run`'s |
| `Analytics.AnalyticsStore.Save` | internal/repository/analytics_repository.go:34-54 | a successful insert appends exactly the record, all nine fields, with no deduplication; a failed one changes nothing and is reported as the error |
| `Analytics.SaveTwice` | internal/repository/analytics_repository.go:34-51 | two successful saves of the same record add two rows and two more copies of that record: the insert does no deduplication |
| `Analytics.GetStats` | internal/repository/analytics_repository.go:56-85 | a failed query gives the error and no stats; otherwise stats for the requested alias, with empty by-country, by-device and by-browser maps, zero unique IPs and the driver's row count as total; the query steps through the alias's rows, but no column of them reaches the result, no row is changed, and the total is the driver's opaque count |
| `Links.Inserted` | internal/repository/link_repository.go:28-39 | an insert adds exactly the new alias's row, with the link's URL and expiry and the defaults for created-at and click count, and leaves every other row as it was |
| `Links.Lookup` | internal/repository/link_repository.go:42-62 | a link exactly when the alias is stored, with that row's URL, expiry and click count, and a zero created-at because that column is not selected |
| `Links.Bumped` | internal/repository/link_repository.go:64-72 | one increment raises the alias's click count by exactly 1 and changes no other row or field; an unknown alias changes nothing |
| `Links.BumpedTimesAddsN` | internal/repository/link_repository.go:64-71 | N increments add exactly N to that alias's count and leave every other row as it was |
| `Links.CreateThenGet` | internal/repository/link_repository.go:27-62 | reading a link back after creating it gives the same alias, URL and expiry, with the column default as click count; other aliases read as before |
| `Links.LinkStore.Create` | internal/repository/link_repository.go:27-40 | a successful insert stores alias, URL and expiry, with the row's created-at and click count taken from the defaults; a database error or an alias already present changes nothing and is reported |
| `Links.LinkStore.GetByAlias` | internal/repository/link_repository.go:42-62 | a failed query is an error; otherwise the result is `Lookup`, so no matching row gives no link and no error |
| `Links.LinkStore.IncClickCount` | internal/repository/link_repository.go:64-72 | on success the table becomes `Bumped`; on failure it is unchanged and the error is returned |
| `Requests.ValidCustomAlias` | internal/dto/shorter_request.go:5 | the empty alias passes; any alias that passes is alphanumeric and at most 100 characters long |
| `Requests.ValidRequest` | internal/dto/shorter_request.go:4-6 | a request that passes has a non-empty original URL that parses, and a custom alias of at most 100 characters |
| `Requests.ValidationRejects` | internal/dto/shorter_request.go:4-6 | an empty or unparsable original URL is rejected; so is a non-empty custom alias shorter than 3, longer than 100, or with a character that is not an ASCII letter or digit; the expiry plays no part |
| `Requests.ValidationAccepts` | internal/dto/shorter_request.go:4-5 | a parsable URL passes with an empty custom alias, because of omitempty, and with an alphanumeric one of 3 to 100 characters |
| `Alias.AlphabetIsAlphanumeric` | internal/utils/generator.go:8 | the alphabet has 62 characters, all ASCII letters or digits |
| `Alias.Generated` | internal/utils/generator.go:10-22 | the requested length exactly when every draw succeeds, each character being the alphabet letter drawn for it; the empty string as soon as a draw fails |
| `Alias.GenerateRandomAlias` | internal/utils/generator.go:10-22 | the buffer-filling loop returns `Generated`'s alias, and its error result is never set, even when a draw fails |
| `Alias.GeneratedAliasPassesCustomRule` | internal/utils/generator.go:8-21 | a generated 6-character alias satisfies the custom-alias rule, and so does the empty alias a failed draw produces |
| `Redirect.ClientIp` | internal/handler/redirect_handler.go:62-65 | X-Forwarded-For when it is non-empty, otherwise the remote address |
| `Redirect.Handle` | internal/handler/redirect_handler.go:34-89 | an empty alias gets 400, a lookup error 500 and an unknown alias 404, all with no increment, no event and the error counter bumped; a stored alias gets a 302 to its URL, whatever its expiry, one increment unless that fails, and an event with the alias, the clock reading, the client IP, the user agent and the referer |
| `StatsHandler.Handle` | internal/handler/stats_handler.go:24-45 | an empty alias gets 400 whatever the repository would answer; a repository error gets 500; no stats gets 404; otherwise 200 with the stats |
| `StatsHandler.PostgresNeverNotFound` | internal/handler/stats_handler.go:38-41 | with the Postgres repository a request with an alias gets 200 or 500, never 404, and a 200 carries that alias's stats |
| `ShorterHandler.ChosenAlias` | internal/handler/shorter_handler.go:79-89 | a non-empty custom alias is used as it is; otherwise the alias is non-empty exactly when all 6 draws succeed, and then has 6 characters |
| `ShorterHandler.ExpiryAt` | internal/handler/shorter_handler.go:110-111 | the expiry lies within the 64-bit nanosecond range of now, and differs from now plus expires_in seconds by a multiple of 2^64 ns |
| `ShorterHandler.RequestedExpiry` | internal/handler/shorter_handler.go:109-113 | an expiry is set exactly when expires_in is given |
| `ShorterHandler.ExpiryExactInRange` | internal/handler/shorter_handler.go:110-111 | within the 64-bit nanosecond range, the expiry is now plus expires_in seconds |
| `ShorterHandler.ExpiryWrapsForHugeExpiresIn` | internal/handler/shorter_handler.go:110-111 | expires_in = 9223372037 overflows the duration and gives an expiry before now |
| `ShorterHandler.ShortUrl` | internal/handler/shorter_handler.go:123-125 | the short URL starts with the host and a colon, ends with a slash and the alias, and has only the port's text between them |
| `ShorterHandler.ShortUrlPortRoundTrip` | internal/handler/shorter_handler.go:123-125 | the text between the colon and the last slash is the port's decimal text, and it reads back as the port |
| `ShorterHandler.ChosenAliasPassesCustomRule` | internal/handler/shorter_handler.go:80-89 | the alias the handler goes on with satisfies the custom-alias rule; with no custom alias it is the generated 6-character one, or the empty string after a failed draw |
| `ShorterHandler.Handle` | internal/handler/shorter_handler.go:54-134 | a body that does not decode gets 400 and a failed validation 422, storing nothing; a failed lookup aborts; an alias in use gets 409 and Create is not called, even for a generated alias; a failed Create gets 500; success stores the link and gets 201 with host:port/alias and an expiry present exactly when expires_in was given |
| `Common.Wrap64` | internal/handler/shorter_handler.go:110 | a result congruent to the exact product modulo 2^64, equal to it when it fits in 64 bits |
| `Common.Decimal` | internal/handler/shorter_handler.go:123 | `fmt.Sprint` of the port: a non-negative port gives a non-empty run of digits with no leading zero (0 itself is exactly "0") that reads back as the port; a negative one gives a minus sign followed by a non-empty run of digits with no leading zero that reads back as its magnitude |
| `Common.DigitsRoundTrip` | internal/handler/shorter_handler.go:123 | the decimal digits of the port read back as the port |

## Findings

| source | as written | input that shows it | evidently intended | confidence | as-written member | corrected member |
|---|---|---|---|---|---|---|
| internal/producer/kafka_producer.go:45-61 | after three transient write errors the loop ends, and SendClick logs "click event send to kafka" and returns nil | a broker that answers DeadlineExceeded to every attempt | exhausting the retries returns the last error, so the caller logs the lost event | high (not executed) | `Producer.DeadlineExceededForeverIsReportedSent` | `Producer.IntendedReportsLoss` |

`Producer.SendClick` keeps the behaviour as written. The redirect handler
only logs the send's error, and the model returns the event as a value
instead of sending it, so no other member depends on which loop is used.

## Left out

- Concurrency: `KafkaConsumer.Start` is not modelled. It fans out 3
  workers, uses a WaitGroup, cancels them and closes the reader. The model
  runs one worker sequentially.
- Concurrency: the detached goroutine that publishes the click event is
  not modelled. `Redirect.Handle` returns the event as a value.
- Concurrency: races between handlers are not modelled. An example is the
  gap between the alias lookup and Create in the creation handler.
- Timeouts and sleeps are not modelled: the 250 ms retry pause, the 10 s
  write and HTTP timeouts, the 5 s publish context and the 30 s shutdown.
- The geolocation HTTP client in internal/enricher/geo.go is the
  `Enrichment.GeoService` parameter. Any failure there is `None`.
- The user-agent library is the `Enrichment.UserAgentLibrary` parameter.
  Only the mobile/desktop choice is visible in the source.
- JSON encoding and decoding are not modelled. The producer takes the
  serialised bytes or a serialisation failure as input. The consumer and
  the creation handler take the decoded value or a decode failure.
- Validator internals and `url.ParseRequestURI` are not modelled. The URL
  check is the `Requests.UriCheck` parameter.
- Metrics: the enrichment timer is not modelled. The redirect counters
  are the `Redirect.Metric` output. The processed counter is the worker's
  `processed` output.
- Logging: only the producer's and the worker's log lines are modelled.
  Error replies carry a status but no JSON error message.
- Time: RFC3339 formatting of expires_at is not modelled. The response
  carries the expiry instant, and `None` stands for the omitted field.
- Time: `Time.Add`'s saturation near the ends of its range is not
  modelled. The wrapped duration is added exactly.
- Wiring and configuration are not part of this model: internal/app/app.go,
  cmd/api/main.go, internal/server/server.go, internal/config/config.go and
  internal/logger/logger.go. The server host and port are parameters of
  `ShorterHandler.Handle`.
- The table schema is not in the source. Three parts of it are
  assumptions: alias is the unique key of short_links, click_count's
  default is the store's `initialClickCount`, and created_at's default is
  the `createdAt` input of `Create`.
- Stats aggregation is not modelled, because the code does not do it.
  `TotalClicks` is the driver-reported count, passed in as `rowsAffected`.
- `Redirect.Handle`: the 302's location is the stored URL as handed to
  `http.Redirect`. Go then percent-escapes non-ASCII bytes in the Location
  header and cleans the path of a URL without a scheme (`/a/../b` becomes
  `/b`). Neither rewrite is modelled.
- `Links.CreateThenGet`: expires_at reads back exactly as stored. Postgres
  timestamps keep whole microseconds, so the real read-back is the expiry
  truncated to the column's resolution. The model keeps the nanosecond
  instant.
- `Links.LinkStore.GetByAlias`: on a database error other than "no rows",
  Go returns a partly filled link together with the error. The model
  returns only the error, which is all the callers look at.
- `Consumer.Worker`: the source loops until a read fails. The model
  covers a finite sequence of reads, so a sequence with no read error
  stands for the part of the run seen so far.
- `Alias.GenerateRandomAlias`: the length is a `nat`. A negative length
  would panic in Go, and the only caller passes 6.
- `ShorterHandler.Handle`: the branch that calls `logger.Fatal` after a
  generator error is an assertion that the error is never set. The branch
  after a failed lookup ends in `Aborted`. The 500 replies written after
  `Fatal` are not modelled, because the process has already ended.
