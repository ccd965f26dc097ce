/** The Postgres analytics repository: an append-only enriched_clicks table
    and a statistics query whose aggregation loop is still empty. Each
    database call's outcome is an input: `None` for success, `Some(e)` for
    the error the driver reports. */
module Analytics {
  import opened Common
  import opened Events

  /** The statistics read-model returned for one alias. */
  datatype Stats = Stats(
    alias: string,
    totalClicks: int,
    uniqueIps: int,
    byCountry: map<string, int>,
    byDevice: map<string, int>,
    byBrowser: map<string, int>)

  class AnalyticsStore {
    /** The rows of enriched_clicks, in insertion order. */
    var rows: seq<EnrichedClick>

    constructor (initial: seq<EnrichedClick>)
      ensures rows == initial
    {
      rows := initial;
    }

    /** INSERT of one record's nine columns; no uniqueness constraint, so a
        record already present is stored again. */
    method Save(click: EnrichedClick, exec: Option<Error>) returns (err: Option<Error>)
      modifies this
      ensures err == exec
      ensures exec.None? ==> rows == old(rows) + [click]
      ensures exec.Some? ==> rows == old(rows)
    {
      err := exec;
      if exec.None? {
        rows := rows + [click];
      }
    }
  }

  /** The statistics query as implemented. It selects the alias's rows
      and steps through them, but no column of any row reaches the result
      and no row is changed. On success the histograms are fresh empty maps
      because the row loop aggregates nothing, `uniqueIps` is never
      assigned, and the total is whatever count the driver reports
      (`rowsAffected`). */
  function GetStats(alias: string, query: Option<Error>, rowsAffected: int)
    : (r: Result<Stats, Error>)
    ensures query.Some? ==> r == Err(query.value)
    ensures query.None? ==> r.Ok? && r.value.alias == alias
    ensures query.None? ==> r.value.byCountry == map[] && r.value.byDevice == map[] &&
                            r.value.byBrowser == map[]
    ensures query.None? ==> r.value.uniqueIps == 0 && r.value.totalClicks == rowsAffected
  {
    if query.Some? then Err(query.value)
    else Ok(Stats(alias, rowsAffected, 0, map[], map[], map[]))
  }

  /** Number of occurrences of a record among the rows. */
  function Occurrences(rows: seq<EnrichedClick>, click: EnrichedClick): (n: nat)
    ensures n <= |rows|
  {
    multiset(rows)[click]
  }

  /** Two successful saves of the same record store it twice: there is
      no deduplication. */
  method SaveTwice(store: AnalyticsStore, click: EnrichedClick)
    modifies store
    ensures Occurrences(store.rows, click) == Occurrences(old(store.rows), click) + 2
    ensures |store.rows| == |old(store.rows)| + 2
  {
    var first := store.Save(click, None);
    var second := store.Save(click, None);
    assert store.rows == old(store.rows) + [click] + [click];
  }
}
