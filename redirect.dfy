/** The redirect handler: look the alias up, count the click, emit a click
    event and redirect. The event is returned as a value instead of being
    handed to a detached publishing goroutine. */
module Redirect {
  import opened Common
  import opened Events
  import Links

  /** What the handler reads from the request: the path alias and three
      headers, plus the peer address. */
  datatype RedirectRequest = RedirectRequest(
    alias: string,
    forwardedFor: string,
    remoteAddr: string,
    userAgent: string,
    referer: string)

  /** Status code and, for a redirect, the URL handed to `http.Redirect`,
      which may escape or clean it before it becomes the Location header. */
  datatype Reply = Reply(status: int, location: Option<string>)

  /** Which Prometheus counter the request bumps. */
  datatype Metric = RedirectErrorCounted | RedirectCounted(alias: string)

  /** The client address: X-Forwarded-For when it is set, the peer address
      otherwise. */
  function ClientIp(forwardedFor: string, remoteAddr: string): (ip: string)
    ensures forwardedFor != "" ==> ip == forwardedFor
    ensures forwardedFor == "" ==> ip == remoteAddr
  {
    if forwardedFor != "" then forwardedFor else remoteAddr
  }

  /** Handle one redirect. `lookup` and `increment` are the outcomes of the
      two database calls, `now` the clock reading. The link's expiry is
      never looked at. */
  method Handle(store: Links.LinkStore, req: RedirectRequest, lookup: Option<Error>,
                increment: Option<Error>, now: Time)
    returns (reply: Reply, event: Option<ClickEvent>, metric: Metric)
    modifies store
    ensures req.alias == "" ==>
              reply == Reply(StatusBadRequest, None) && event.None? &&
              metric == RedirectErrorCounted && store.table == old(store.table)
    ensures req.alias != "" && lookup.Some? ==>
              reply == Reply(StatusInternalServerError, None) && event.None? &&
              metric == RedirectErrorCounted && store.table == old(store.table)
    ensures req.alias != "" && lookup.None? && req.alias !in old(store.table) ==>
              reply == Reply(StatusNotFound, None) && event.None? &&
              metric == RedirectErrorCounted && store.table == old(store.table)
    ensures req.alias != "" && lookup.None? && req.alias in old(store.table) ==>
              reply == Reply(StatusFound, Some(old(store.table)[req.alias].originalUrl)) &&
              metric == RedirectCounted(req.alias) &&
              event == Some(ClickEvent(req.alias, now, ClientIp(req.forwardedFor, req.remoteAddr),
                                       req.userAgent, req.referer))
    ensures req.alias != "" && lookup.None? && req.alias in old(store.table) && increment.None? ==>
              store.table == Links.Bumped(old(store.table), req.alias)
    ensures req.alias != "" && lookup.None? && req.alias in old(store.table) && increment.Some? ==>
              store.table == old(store.table)
  {
    if req.alias == "" {
      return Reply(StatusBadRequest, None), None, RedirectErrorCounted;
    }
    var found := store.GetByAlias(req.alias, lookup);
    if found.Err? {
      return Reply(StatusInternalServerError, None), None, RedirectErrorCounted;
    }
    if found.value.None? {
      return Reply(StatusNotFound, None), None, RedirectErrorCounted;
    }
    var link := found.value.value;
    // a failed increment is only logged
    var _ := store.IncClickCount(req.alias, increment);
    metric := RedirectCounted(req.alias);
    var ip := ClientIp(req.forwardedFor, req.remoteAddr);
    event := Some(ClickEvent(req.alias, now, ip, req.userAgent, req.referer));
    reply := Reply(StatusFound, Some(link.originalUrl));
  }
}
