/** The creation handler: decode, validate, pick an alias, refuse one in
    use, store the link and answer with its short URL. */
module ShorterHandler {
  import opened Common
  import opened Events
  import opened Requests
  import Alias
  import Links

  /** A reply with status and, for a 201, the body; or the process ending
      in `logger.Fatal`, which this handler calls when the alias lookup
      fails. */
  datatype Reply = Respond(status: int, body: Option<ShorterResponse>) | Aborted

  /** Length of the alias generated when none is requested. */
  const GeneratedAliasLength: nat := 6

  const NanosPerSecond: int := 1_000_000_000

  /** The alias the handler goes on with: the custom one, or a generated
      one when the custom one is empty. */
  function ChosenAlias(req: ShorterRequest, source: Alias.RandomSource): (a: string)
    ensures req.customAlias != "" ==> a == req.customAlias
    ensures req.customAlias == "" ==> (a != "" <==> Alias.AllDrawn(source, GeneratedAliasLength))
    ensures req.customAlias == "" && a != "" ==> |a| == GeneratedAliasLength
  {
    if req.customAlias != "" then req.customAlias else Alias.Generated(GeneratedAliasLength, source)
  }

  /** `now + time.Duration(expiresIn) * time.Second`: the duration is a
      64-bit nanosecond count and wraps on overflow. */
  function ExpiryAt(now: Time, expiresIn: Int64): (e: Time)
    ensures MinInt64 <= e - now <= MaxInt64
    ensures (e - now - expiresIn * NanosPerSecond) % Int64Modulus == 0
  {
    now + Wrap64(expiresIn * NanosPerSecond)
  }

  /** The expiry of the new link: set only when `expires_in` is given. */
  function RequestedExpiry(req: ShorterRequest, now: Time): (e: Option<Time>)
    ensures e.Some? <==> req.expiresIn.Some?
  {
    if req.expiresIn.Some? then Some(ExpiryAt(now, req.expiresIn.value)) else None
  }

  /** host:port/alias, the port in decimal. */
  function ShortUrl(host: string, port: int, alias: string): (u: string)
    ensures |u| == |host| + |Decimal(port)| + |alias| + 2
    ensures u[..|host| + 1] == host + ":"
    ensures u[|u| - |alias| - 1..] == "/" + alias
  {
    var head, tail := host + ":", "/" + alias;
    var u := head + Decimal(port) + tail;
    assert u[..|head|] == head;
    assert u[|u| - |tail|..] == tail;
    u
  }

  /** Within about 292 years either way the expiry is exactly `expiresIn`
      seconds after `now`. */
  lemma ExpiryExactInRange(now: Time, expiresIn: Int64)
    requires -(MaxInt64 / NanosPerSecond) <= expiresIn <= MaxInt64 / NanosPerSecond
    ensures ExpiryAt(now, expiresIn) == now + expiresIn * NanosPerSecond
  {
  }

  /** Beyond that range the duration wraps: 9223372037 seconds ahead gives
      an expiry before `now`. */
  lemma ExpiryWrapsForHugeExpiresIn(now: Time)
    ensures ExpiryAt(now, 9223372037) < now
  {
  }

  /** What sits between the colon and the last slash of a short URL is the
      port's decimal text, which reads back as the port. */
  lemma ShortUrlPortRoundTrip(host: string, port: nat, alias: string)
    ensures var u := ShortUrl(host, port, alias);
            u[|host| + 1..|u| - |alias| - 1] == Decimal(port) &&
            DigitsValue(u[|host| + 1..|u| - |alias| - 1]) == port
  {
    var head, tail := host + ":", "/" + alias;
    var u := ShortUrl(host, port, alias);
    assert u == head + Decimal(port) + tail;
    assert u[|head|..|u| - |tail|] == Decimal(port);
  }

  /** Every alias the handler goes on with passes the custom-alias rule:
      a validated custom alias by validation, a generated one by
      construction. A failed draw yields the empty alias, which is stored as
      it is. */
  lemma ChosenAliasPassesCustomRule(req: ShorterRequest, parsesAsUri: UriCheck, source: Alias.RandomSource)
    requires ValidRequest(req, parsesAsUri)
    ensures ValidCustomAlias(ChosenAlias(req, source))
    ensures req.customAlias == "" && Alias.AllDrawn(source, GeneratedAliasLength) ==>
              |ChosenAlias(req, source)| == GeneratedAliasLength
    ensures req.customAlias == "" && !Alias.AllDrawn(source, GeneratedAliasLength) ==>
              ChosenAlias(req, source) == ""
  {
    if req.customAlias == "" {
      Alias.GeneratedAliasPassesCustomRule(source);
    }
  }

  /** Handle one creation request. `body` is the decoded JSON (`None` when
      it does not decode), `parsesAsUri` the registered URL check, `source`
      the random reader, `lookup` and `create` the outcomes of the two
      database calls, `now` the handler's clock reading and `createdAt` the
      instant the database stamps on the row. */
  method Handle(store: Links.LinkStore, body: Option<ShorterRequest>, parsesAsUri: UriCheck,
                source: Alias.RandomSource, lookup: Option<Error>, now: Time, createdAt: Time,
                create: Option<Error>, host: string, port: int)
    returns (reply: Reply)
    modifies store
    ensures body.None? ==> reply == Respond(StatusBadRequest, None) && store.table == old(store.table)
    ensures body.Some? && !ValidRequest(body.value, parsesAsUri) ==>
              reply == Respond(StatusUnprocessableEntity, None) && store.table == old(store.table)
    ensures body.Some? && ValidRequest(body.value, parsesAsUri) && lookup.Some? ==>
              reply == Aborted && store.table == old(store.table)
    ensures body.Some? && ValidRequest(body.value, parsesAsUri) && lookup.None? &&
            ChosenAlias(body.value, source) in old(store.table) ==>
              reply == Respond(StatusConflict, None) && store.table == old(store.table)
    ensures body.Some? && ValidRequest(body.value, parsesAsUri) && lookup.None? &&
            ChosenAlias(body.value, source) !in old(store.table) && create.Some? ==>
              reply == Respond(StatusInternalServerError, None) && store.table == old(store.table)
    ensures body.Some? && ValidRequest(body.value, parsesAsUri) && lookup.None? &&
            ChosenAlias(body.value, source) !in old(store.table) && create.None? ==>
              var alias := ChosenAlias(body.value, source);
              var expiry := RequestedExpiry(body.value, now);
              && reply == Respond(StatusCreated, Some(ShorterResponse(ShortUrl(host, port, alias), expiry)))
              && store.table == Links.Inserted(old(store.table),
                                               Link(alias, body.value.originalUrl, ZeroTime, expiry, 0),
                                               createdAt, store.initialClickCount)
  {
    if body.None? {
      return Respond(StatusBadRequest, None);
    }
    var req := body.value;
    if !ValidRequest(req, parsesAsUri) {
      return Respond(StatusUnprocessableEntity, None);
    }
    var alias := req.customAlias;
    if alias == "" {
      var generated, err := Alias.GenerateRandomAlias(GeneratedAliasLength, source);
      // the generator never reports an error, so its fatal branch is dead
      assert err.None?;
      alias := generated;
    }
    var existing := store.GetByAlias(alias, lookup);
    if existing.Err? {
      return Aborted;
    }
    if existing.value.Some? {
      return Respond(StatusConflict, None);
    }
    var expiry: Option<Time> := None;
    if req.expiresIn.Some? {
      expiry := Some(ExpiryAt(now, req.expiresIn.value));
    }
    var link := Link(alias, req.originalUrl, ZeroTime, expiry, 0);
    var err := store.Create(link, createdAt, create);
    if err.Some? {
      return Respond(StatusInternalServerError, None);
    }
    reply := Respond(StatusCreated, Some(ShorterResponse(ShortUrl(host, port, alias), expiry)));
  }
}
