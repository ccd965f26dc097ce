/** The statistics handler: early returns on the repository's answer. */
module StatsHandler {
  import opened Common
  import Analytics

  /** Status code and, for a 200, the statistics written as JSON. */
  datatype Reply = Reply(status: int, body: Option<Analytics.Stats>)

  /** The answer of a repository behind the `AnalyticsRepository`
      interface: stats, no stats, or an error. */
  type Fetched = Result<Option<Analytics.Stats>, Error>

  /** Handle one statistics request; `fetched` is what the repository
      answers, and it is not asked at all for an empty alias. */
  function Handle(alias: string, fetched: Fetched): (r: Reply)
    ensures alias == "" ==> r == Reply(StatusBadRequest, None)
    ensures alias != "" && fetched.Err? ==> r == Reply(StatusInternalServerError, None)
    ensures alias != "" && fetched == Ok(None) ==> r == Reply(StatusNotFound, None)
    ensures alias != "" && fetched.Ok? && fetched.value.Some? ==> r == Reply(StatusOK, fetched.value)
  {
    if alias == "" then Reply(StatusBadRequest, None)
    else if fetched.Err? then Reply(StatusInternalServerError, None)
    else if fetched.value.None? then Reply(StatusNotFound, None)
    else Reply(StatusOK, fetched.value)
  }

  /** The Postgres repository seen through the interface: a success always
      carries stats. */
  function FromPostgres(r: Result<Analytics.Stats, Error>): Fetched
  {
    if r.Ok? then Ok(Some(r.value)) else Err(r.error)
  }

  /** With the Postgres repository the 404 branch is unreachable: a request
      with an alias gets 200 with the stats of that very alias, or 500. */
  lemma PostgresNeverNotFound(alias: string, query: Option<Error>, rowsAffected: int)
    requires alias != ""
    ensures Handle(alias, FromPostgres(Analytics.GetStats(alias, query, rowsAffected))).status
              in {StatusOK, StatusInternalServerError}
    ensures query.None? ==>
              Handle(alias, FromPostgres(Analytics.GetStats(alias, query, rowsAffected))).body.value.alias == alias
  {
  }
}
