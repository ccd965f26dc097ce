/** The Postgres link repository: the short_links table as a map keyed by
    alias. Each database call's outcome is an input (`None` for success).
    The defaults of the click_count and created_at columns are not in the
    source: the store is built with the initial click count, and `Create`
    is told the instant the database stamps the row with. */
module Links {
  import opened Common
  import opened Events

  /** The columns of one short_links row, alias being the key. */
  datatype Row = Row(originalUrl: string, createdAt: Time, expiresAt: Option<Time>, clickCount: int)

  /** The table after inserting a link: alias, URL and expiry come from the
      link, created_at and click_count from the column defaults. */
  function Inserted(table: map<string, Row>, link: Link, createdAt: Time, initialClicks: int)
    : (t: map<string, Row>)
    ensures t.Keys == table.Keys + {link.alias}
    ensures t[link.alias].originalUrl == link.originalUrl && t[link.alias].expiresAt == link.expiresAt
    ensures t[link.alias].createdAt == createdAt && t[link.alias].clickCount == initialClicks
    ensures forall a :: a in table && a != link.alias ==> t[a] == table[a]
  {
    table[link.alias := Row(link.originalUrl, createdAt, link.expiresAt, initialClicks)]
  }

  /** SELECT alias, original_url, expires_at, click_count: created_at is not
      read, so the returned link keeps Go's zero time. */
  function Lookup(table: map<string, Row>, alias: string): (r: Option<Link>)
    ensures r.Some? <==> alias in table
    ensures r.Some? ==> r.value.alias == alias && r.value.createdAt == ZeroTime
    ensures r.Some? ==> r.value.originalUrl == table[alias].originalUrl &&
                        r.value.expiresAt == table[alias].expiresAt &&
                        r.value.clickCount == table[alias].clickCount
  {
    if alias in table then
      var row := table[alias];
      Some(Link(alias, row.originalUrl, ZeroTime, row.expiresAt, row.clickCount))
    else None
  }

  /** UPDATE ... SET click_count = click_count + 1 WHERE alias = $1. */
  function Bumped(table: map<string, Row>, alias: string): (t: map<string, Row>)
    ensures t.Keys == table.Keys
    ensures forall a :: a in table && a != alias ==> t[a] == table[a]
    ensures alias in table ==>
              t[alias] == table[alias].(clickCount := table[alias].clickCount + 1)
  {
    if alias in table then
      table[alias := table[alias].(clickCount := table[alias].clickCount + 1)]
    else table
  }

  /** The table after `n` successful increments of one alias. */
  function BumpedTimes(table: map<string, Row>, alias: string, n: nat): map<string, Row>
    decreases n
  {
    if n == 0 then table else Bumped(BumpedTimes(table, alias, n - 1), alias)
  }

  /** N increments add exactly N to that alias's count and touch nothing
      else; for an unknown alias they change nothing. */
  lemma {:induction false} BumpedTimesAddsN(table: map<string, Row>, alias: string, n: nat)
    ensures BumpedTimes(table, alias, n).Keys == table.Keys
    ensures forall a :: a in table && a != alias ==> BumpedTimes(table, alias, n)[a] == table[a]
    ensures alias in table ==>
              BumpedTimes(table, alias, n)[alias] ==
              table[alias].(clickCount := table[alias].clickCount + n)
    decreases n
  {
    if n > 0 {
      BumpedTimesAddsN(table, alias, n - 1);
    }
  }

  /** A link read back after its creation has the alias, URL and expiry it
      was created with; every other alias reads as before. */
  lemma CreateThenGet(table: map<string, Row>, link: Link, createdAt: Time, initialClicks: int)
    ensures Lookup(Inserted(table, link, createdAt, initialClicks), link.alias) ==
              Some(Link(link.alias, link.originalUrl, ZeroTime, link.expiresAt, initialClicks))
    ensures forall a :: a != link.alias ==>
              Lookup(Inserted(table, link, createdAt, initialClicks), a) == Lookup(table, a)
  {
  }

  class LinkStore {
    /** The short_links table. */
    var table: map<string, Row>
    /** Default of the click_count column. */
    const initialClickCount: int

    constructor (initialClickCount: int)
      ensures table == map[] && this.initialClickCount == initialClickCount
    {
      table := map[];
      this.initialClickCount := initialClickCount;
    }

    /** INSERT of alias, original URL and expiry; the link's own createdAt
        and clickCount are not written. Alias is the table's unique key, so
        inserting an alias already present is rejected. */
    method Create(link: Link, createdAt: Time, exec: Option<Error>) returns (err: Option<Error>)
      modifies this
      ensures err == if exec.Some? then exec
                     else if link.alias in old(table) then Some(DuplicateKey)
                     else None
      ensures err.None? ==> table == Inserted(old(table), link, createdAt, initialClickCount)
      ensures err.Some? ==> table == old(table)
    {
      if exec.Some? {
        err := exec;
      } else if link.alias in table {
        err := Some(DuplicateKey);
      } else {
        err := None;
        table := Inserted(table, link, createdAt, initialClickCount);
      }
    }

    /** Look a link up by alias: no matching row is `Ok(None)`, not an
        error. */
    method GetByAlias(alias: string, query: Option<Error>) returns (r: Result<Option<Link>, Error>)
      ensures query.Some? ==> r == Err(query.value)
      ensures query.None? ==> r == Ok(Lookup(table, alias))
    {
      if query.Some? {
        r := Err(query.value);
      } else {
        r := Ok(Lookup(table, alias));
      }
    }

    /** One atomic increment of the alias's click count; an unknown alias
        matches no row and is a successful no-op. */
    method IncClickCount(alias: string, exec: Option<Error>) returns (err: Option<Error>)
      modifies this
      ensures err == exec
      ensures exec.None? ==> table == Bumped(old(table), alias)
      ensures exec.Some? ==> table == old(table)
    {
      err := exec;
      if exec.None? {
        table := Bumped(table, alias);
      }
    }
  }
}
