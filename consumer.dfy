/** One consumer worker: it reads messages one at a time, decodes, enriches
    and saves each, counting the saved ones. Every stage's outcome is part of
    the abstract read result; the pool of workers, its cancellation and the
    reader's closing are not modelled. */
module Consumer {
  import opened Common
  import opened Events
  import Enrichment
  import Analytics

  /** One `ReadMessage` call as the worker sees it: either a read error,
      with whether the worker's context was still live, or a message with
      the outcome of each later stage (decoding, enrichment, saving). */
  datatype ReadResult =
    | ReadFailed(contextAlive: bool)
    | Delivered(decoded: Option<ClickTask>, enrichment: Result<EnrichedClick, Error>, save: Option<Error>)

  /** The lines the worker logs. */
  datatype LogEntry =
    | ReadErrorLogged
    | DecodeFailed
    | EnrichFailed(alias: string)
    | SaveFailed
    | ClickSaved(alias: string)

  /** What the worker has done so far: records handed to `Save`, records
      stored, increments of the processed counter, log lines, and whether
      it has returned. */
  datatype Trace = Trace(
    attempted: seq<EnrichedClick>,
    saved: seq<EnrichedClick>,
    processed: nat,
    log: seq<LogEntry>,
    stopped: bool)

  const Idle: Trace := Trace([], [], 0, [], false)

  /** The loop body for one read. A stopped worker reads nothing more; a
      running one stops exactly on a read error, hands `Save` the record of
      a read that decodes and enriches, stores and counts it only when the
      save succeeds, and logs at most one line. */
  function Step(t: Trace, r: ReadResult): (s: Trace)
    ensures t.stopped ==> s == t
    ensures !t.stopped ==> (s.stopped <==> r.ReadFailed?)
    ensures !t.stopped ==> s.attempted == t.attempted + SaveCall(r) && s.saved == t.saved + Commit(r)
    ensures s.processed == t.processed + |s.saved| - |t.saved|
    ensures |t.log| <= |s.log| <= |t.log| + 1
  {
    if t.stopped then t
    else match r
      case ReadFailed(alive) =>
        t.(log := t.log + (if alive then [ReadErrorLogged] else []), stopped := true)
      case Delivered(decoded, enrichment, save) =>
        if decoded.None? then t.(log := t.log + [DecodeFailed])
        else if enrichment.Err? then t.(log := t.log + [EnrichFailed(decoded.value.alias)])
        else if save.Some? then
          t.(attempted := t.attempted + [enrichment.value], log := t.log + [SaveFailed])
        else
          Trace(t.attempted + [enrichment.value], t.saved + [enrichment.value],
                t.processed + 1, t.log + [ClickSaved(decoded.value.alias)], false)
  }

  /** The worker after the given reads, in order. The counter equals the
      number of stored records, every stored record went through one `Save`
      call, and no read causes more than one call. */
  function Run(results: seq<ReadResult>): (t: Trace)
    ensures t.processed == |t.saved|
    ensures |t.saved| <= |t.attempted| <= |results|
    decreases |results|
  {
    if results == [] then Idle else Step(Run(results[..|results| - 1]), results[|results| - 1])
  }

  /** Reference definitions, read front to back. */

  /** Number of results before the first read error. */
  function FirstFailure(results: seq<ReadResult>): (n: nat)
    ensures n <= |results|
    ensures forall i :: 0 <= i < n ==> results[i].Delivered?
    ensures n < |results| ==> results[n].ReadFailed?
    decreases |results|
  {
    if results == [] || results[0].ReadFailed? then 0 else 1 + FirstFailure(results[1..])
  }

  /** The record a read hands to `Save`, if it decodes and enriches. */
  function SaveCall(r: ReadResult): seq<EnrichedClick>
  {
    if r.Delivered? && r.decoded.Some? && r.enrichment.Ok? then [r.enrichment.value] else []
  }

  /** The record a read stores, if it gets through all three stages. */
  function Commit(r: ReadResult): seq<EnrichedClick>
  {
    if r.Delivered? && r.save.None? then SaveCall(r) else []
  }

  function SaveCalls(results: seq<ReadResult>): seq<EnrichedClick>
    decreases |results|
  {
    if results == [] then [] else SaveCall(results[0]) + SaveCalls(results[1..])
  }

  function Commits(results: seq<ReadResult>): seq<EnrichedClick>
    decreases |results|
  {
    if results == [] then [] else Commit(results[0]) + Commits(results[1..])
  }

  lemma {:induction false} SaveCallsAppend(results: seq<ReadResult>, r: ReadResult)
    ensures SaveCalls(results + [r]) == SaveCalls(results) + SaveCall(r)
    decreases |results|
  {
    if results == [] {
      assert [r][1..] == [];
    } else {
      assert (results + [r])[1..] == results[1..] + [r];
      SaveCallsAppend(results[1..], r);
    }
  }

  lemma {:induction false} CommitsAppend(results: seq<ReadResult>, r: ReadResult)
    ensures Commits(results + [r]) == Commits(results) + Commit(r)
    decreases |results|
  {
    if results == [] {
      assert [r][1..] == [];
    } else {
      assert (results + [r])[1..] == results[1..] + [r];
      CommitsAppend(results[1..], r);
    }
  }

  lemma {:induction false} FirstFailureAppend(results: seq<ReadResult>, r: ReadResult)
    ensures FirstFailure(results) < |results| ==> FirstFailure(results + [r]) == FirstFailure(results)
    ensures FirstFailure(results) == |results| && r.ReadFailed? ==> FirstFailure(results + [r]) == |results|
    ensures FirstFailure(results) == |results| && r.Delivered? ==> FirstFailure(results + [r]) == |results| + 1
    decreases |results|
  {
    if results != [] {
      assert (results + [r])[1..] == results[1..] + [r];
      FirstFailureAppend(results[1..], r);
    }
  }

  /** The worker stores, in read order, exactly the records of the messages
      read before the first read error that decode, enrich and save; it
      calls `Save` once for each of those messages that decodes and
      enriches, and it has returned iff a read error occurred. */
  lemma {:induction false} RunMatchesReference(results: seq<ReadResult>)
    ensures Run(results).saved == Commits(results[..FirstFailure(results)])
    ensures Run(results).attempted == SaveCalls(results[..FirstFailure(results)])
    ensures Run(results).stopped <==> FirstFailure(results) < |results|
    decreases |results|
  {
    if results != [] {
      var init, last := results[..|results| - 1], results[|results| - 1];
      assert results == init + [last];
      RunMatchesReference(init);
      FirstFailureAppend(init, last);
      var n := FirstFailure(init);
      if n == |init| && last.Delivered? {
        assert results[..FirstFailure(results)] == init[..n] + [last];
        SaveCallsAppend(init[..n], last);
        CommitsAppend(init[..n], last);
      } else {
        assert results[..FirstFailure(results)] == init[..n];
      }
    }
  }

  /** A read that fails at decoding, enrichment or saving is skipped: no
      record stored, counter unchanged, one error logged, the loop goes on. */
  lemma FailedStageSkips(t: Trace, r: ReadResult)
    requires !t.stopped && r.Delivered?
    requires r.decoded.None? || r.enrichment.Err? || r.save.Some?
    ensures Step(t, r).saved == t.saved && Step(t, r).processed == t.processed
    ensures !Step(t, r).stopped && |Step(t, r).log| == |t.log| + 1
    ensures r.decoded.None? || r.enrichment.Err? ==> Step(t, r).attempted == t.attempted
  {
  }

  /** A message that decodes, enriches and saves adds its record and exactly
      one to the counter. */
  lemma CommittedStepCountsOne(t: Trace, r: ReadResult)
    requires !t.stopped && r.Delivered? && r.decoded.Some? && r.enrichment.Ok? && r.save.None?
    ensures Step(t, r).saved == t.saved + [r.enrichment.value]
    ensures Step(t, r).processed == t.processed + 1
  {
  }

  /** A read error ends the worker; it is logged only while the context is
      live. */
  lemma ReadFailureStops(t: Trace, r: ReadResult)
    requires !t.stopped && r.ReadFailed?
    ensures Step(t, r).stopped && Step(t, r).saved == t.saved && Step(t, r).processed == t.processed
    ensures Step(t, r).log == t.log + (if r.contextAlive then [ReadErrorLogged] else [])
  {
  }

  /** Once the worker has returned, later results change nothing. */
  lemma {:induction false} RunStaysStopped(results: seq<ReadResult>, k: nat)
    requires k <= |results| && Run(results[..k]).stopped
    ensures Run(results) == Run(results[..k])
    decreases |results| - k
  {
    if k < |results| {
      assert results[..k + 1][..k] == results[..k];
      RunStaysStopped(results, k + 1);
    } else {
      assert results[..k] == results;
    }
  }

  /** With the IP-and-geo enricher in place every enrichment succeeds, so
      messages are lost only at decoding or saving. */
  predicate EnrichedByIpGeo(results: seq<ReadResult>, geo: Enrichment.GeoService,
                            library: Enrichment.UserAgentLibrary)
  {
    forall i :: 0 <= i < |results| && results[i].Delivered? && results[i].decoded.Some? ==>
      results[i].enrichment == Enrichment.Enrich(results[i].decoded.value, geo, library)
  }

  lemma {:induction false} IpGeoNeverDropsAtEnrichment(results: seq<ReadResult>,
      geo: Enrichment.GeoService, library: Enrichment.UserAgentLibrary)
    requires EnrichedByIpGeo(results, geo, library)
    ensures forall e :: e in Run(results).log ==> !e.EnrichFailed?
    decreases |results|
  {
    if results != [] {
      var init := results[..|results| - 1];
      assert EnrichedByIpGeo(init, geo, library) by {
        forall i | 0 <= i < |init| && init[i].Delivered? && init[i].decoded.Some?
          ensures init[i].enrichment == Enrichment.Enrich(init[i].decoded.value, geo, library)
        {
          assert init[i] == results[i];
        }
      }
      IpGeoNeverDropsAtEnrichment(init, geo, library);
    }
  }

  /** The worker loop over a finite run of results: it returns at the first
      read error and otherwise handles every read. */
  method Worker(sink: Analytics.AnalyticsStore, results: seq<ReadResult>)
    returns (processed: nat, log: seq<LogEntry>, ghost saveCalls: seq<EnrichedClick>)
    modifies sink
    ensures sink.rows == old(sink.rows) + Run(results).saved
    ensures processed == Run(results).processed && log == Run(results).log
    ensures saveCalls == Run(results).attempted
  {
    processed, log, saveCalls := 0, [], [];
    var i := 0;
    while i < |results|
      invariant 0 <= i <= |results|
      invariant !Run(results[..i]).stopped
      invariant sink.rows == old(sink.rows) + Run(results[..i]).saved
      invariant processed == Run(results[..i]).processed && log == Run(results[..i]).log
      invariant saveCalls == Run(results[..i]).attempted
    {
      assert results[..i + 1][..i] == results[..i];
      match results[i]
      case ReadFailed(alive) =>
        if alive {
          log := log + [ReadErrorLogged];
        }
        RunStaysStopped(results, i + 1);
        return;
      case Delivered(decoded, enrichment, save) =>
        if decoded.None? {
          log := log + [DecodeFailed];
          i := i + 1;
          continue;
        }
        if enrichment.Err? {
          log := log + [EnrichFailed(decoded.value.alias)];
          i := i + 1;
          continue;
        }
        saveCalls := saveCalls + [enrichment.value];
        var err := sink.Save(enrichment.value, save);
        if err.Some? {
          log := log + [SaveFailed];
          i := i + 1;
          continue;
        }
        processed := processed + 1;
        log := log + [ClickSaved(decoded.value.alias)];
        i := i + 1;
    }
    assert results[..i] == results;
  }
}
