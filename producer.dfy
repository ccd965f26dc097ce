/** The Kafka producer: a click event is serialised once and written with a
    bounded number of attempts. The broker is abstracted as the answer it
    gives to each numbered attempt; the 250 ms pause between attempts is
    not modelled. */
module Producer {
  import opened Common
  import opened Events

  /** Number of write attempts `SendClick` makes at most. */
  const Retries: nat := 3

  /** The ways a `WriteMessages` call can fail. */
  datatype WriteError = UnknownTopicOrPartition | DeadlineExceeded | OtherWriteError(code: nat)

  /** The two errors the loop treats as transient and retries. */
  predicate IsTransient(e: WriteError)
    ensures IsTransient(e) <==> !e.OtherWriteError?
  {
    e.UnknownTopicOrPartition? || e.DeadlineExceeded?
  }

  datatype SendError = MarshalFailed | WriteRejected(cause: WriteError)

  type Bytes = seq<bv8>

  /** A broker message: no key, the serialised event as value, the event's
      timestamp as message time. */
  datatype Message = Message(key: Bytes, value: Bytes, time: Time)

  /** The broker's answer to attempt number `i` (from 0); `None` means the
      write was accepted. */
  type Broker = nat -> Option<WriteError>

  /** What a send reports to its caller and how many writes it attempted. */
  datatype Delivery = Delivery(err: Option<SendError>, attempts: nat)

  /** The one line a send logs. */
  datatype LogLine = NoLog | LoggedWriteFailure(alias: string) | LoggedSent(alias: string)

  predicate TransientAt(broker: Broker, i: nat)
  {
    broker(i).Some? && IsTransient(broker(i).value)
  }

  /** Attempt `n` is reached, every earlier attempt having failed transiently. */
  predicate ReachedAttempt(broker: Broker, n: nat)
  {
    n < Retries && forall i :: 0 <= i < n ==> TransientAt(broker, i)
  }

  /** The retry loop as written, from attempt `k` on. */
  function Deliver(broker: Broker, k: nat): (d: Delivery)
    requires k <= Retries
    ensures k + d.attempts <= Retries
    ensures k < Retries ==> 1 <= d.attempts
    ensures d.err.Some? ==> d.err.value.WriteRejected? && !IsTransient(d.err.value.cause)
    decreases Retries - k
  {
    if k == Retries then Delivery(None, 0)
    else match broker(k)
      case None => Delivery(None, 1)
      case Some(e) =>
        if IsTransient(e) then
          var rest := Deliver(broker, k + 1);
          Delivery(rest.err, rest.attempts + 1)
        else
          Delivery(Some(WriteRejected(e)), 1)
  }

  /** `SendClick` as written: a serialisation failure is returned before any
      write; otherwise the retry loop decides. */
  function SendClickSpec(marshalled: Option<Bytes>, broker: Broker): (d: Delivery)
    ensures d.attempts <= Retries
    ensures marshalled.None? <==> d.err == Some(MarshalFailed)
    ensures marshalled.None? <==> d.attempts == 0
    ensures marshalled.Some? && d.err.Some? ==>
              d.err.value.WriteRejected? && !IsTransient(d.err.value.cause)
  {
    if marshalled.None? then Delivery(Some(MarshalFailed), 0) else Deliver(broker, 0)
  }

  lemma {:induction false} DeliverFrom(broker: Broker, k: nat, n: nat)
    requires k <= n < Retries
    requires forall i :: k <= i < n ==> TransientAt(broker, i)
    ensures broker(n).None? ==> Deliver(broker, k) == Delivery(None, n - k + 1)
    ensures broker(n).Some? && !IsTransient(broker(n).value) ==>
              Deliver(broker, k) == Delivery(Some(WriteRejected(broker(n).value)), n - k + 1)
    decreases n - k
  {
    if k < n {
      assert TransientAt(broker, k);
      DeliverFrom(broker, k + 1, n);
    }
  }

  /** The first attempt that does not fail transiently ends the loop: an
      accepted write gives success, any other error is returned as it is,
      and no further attempt is made. */
  lemma FirstDecisiveAttemptEndsLoop(broker: Broker, n: nat)
    requires ReachedAttempt(broker, n)
    ensures broker(n).None? ==> Deliver(broker, 0) == Delivery(None, n + 1)
    ensures broker(n).Some? && !IsTransient(broker(n).value) ==>
              Deliver(broker, 0) == Delivery(Some(WriteRejected(broker(n).value)), n + 1)
  {
    DeliverFrom(broker, 0, n);
  }

  lemma {:induction false} ExhaustedFrom(broker: Broker, k: nat)
    requires k <= Retries
    requires forall i :: k <= i < Retries ==> TransientAt(broker, i)
    ensures Deliver(broker, k) == Delivery(None, Retries - k)
    decreases Retries - k
  {
    if k < Retries {
      assert TransientAt(broker, k);
      ExhaustedFrom(broker, k + 1);
    }
  }

  /** When all three attempts fail transiently the loop falls through and
      the send reports success although nothing was written. */
  lemma AllTransientReportsSuccess(broker: Broker)
    requires forall i :: 0 <= i < Retries ==> TransientAt(broker, i)
    ensures Deliver(broker, 0) == Delivery(None, Retries)
  {
    ExhaustedFrom(broker, 0);
  }

  /** A broker that always times out: the event is lost, yet the send
      returns no error. */
  lemma DeadlineExceededForeverIsReportedSent(payload: Bytes, broker: Broker)
    requires forall i :: broker(i) == Some(DeadlineExceeded)
    ensures SendClickSpec(Some(payload), broker) == Delivery(None, Retries)
  {
    AllTransientReportsSuccess(broker);
  }

  /** The retry loop as evidently intended: exhausting the attempts on
      transient errors reports the last of them. */
  function IntendedDeliver(broker: Broker, k: nat): (d: Delivery)
    requires k <= Retries
    ensures k + d.attempts <= Retries
    decreases Retries - k
  {
    if k == Retries then Delivery(None, 0)
    else match broker(k)
      case None => Delivery(None, 1)
      case Some(e) =>
        if IsTransient(e) && k + 1 < Retries then
          var rest := IntendedDeliver(broker, k + 1);
          Delivery(rest.err, rest.attempts + 1)
        else
          Delivery(Some(WriteRejected(e)), 1)
  }

  lemma {:induction false} IntendedFrom(broker: Broker, k: nat)
    requires k < Retries
    ensures IntendedDeliver(broker, k).err.None? <==>
              exists n :: k <= n < Retries && broker(n).None? &&
                          forall i :: k <= i < n ==> TransientAt(broker, i)
    decreases Retries - k
  {
    if broker(k).Some? && IsTransient(broker(k).value) && k + 1 < Retries {
      IntendedFrom(broker, k + 1);
      if IntendedDeliver(broker, k).err.None? {
        var n :| k + 1 <= n < Retries && broker(n).None? &&
                 forall i :: k + 1 <= i < n ==> TransientAt(broker, i);
        assert forall i :: k <= i < n ==> TransientAt(broker, i);
      }
    } else if broker(k).Some? {
      forall n | k <= n < Retries
        ensures !(broker(n).None? && forall i :: k <= i < n ==> TransientAt(broker, i))
      {
        if n > k {
          assert !TransientAt(broker, k);
        }
      }
    } else {
      assert broker(k).None? && forall i: nat :: k <= i < k ==> TransientAt(broker, i);
    }
  }

  /** With the intended loop, a send reports success exactly when some
      attempt was accepted after transient failures only. */
  lemma IntendedReportsLoss(broker: Broker)
    ensures IntendedDeliver(broker, 0).err.None? <==>
              exists n :: ReachedAttempt(broker, n) && broker(n).None?
  {
    IntendedFrom(broker, 0);
  }

  /** With the intended loop, three transient failures end the send with
      the third of them as the reported error. */
  lemma IntendedExhaustion(broker: Broker)
    requires forall i :: 0 <= i < Retries ==> TransientAt(broker, i)
    ensures broker(Retries - 1).Some?
    ensures IntendedDeliver(broker, 0) == Delivery(Some(WriteRejected(broker(Retries - 1).value)), Retries)
  {
    assert TransientAt(broker, 0) && TransientAt(broker, 1) && TransientAt(broker, 2);
  }

  /** Serialise the event, then write it with at most `Retries` attempts.
      `written` lists the messages handed to the broker, one per attempt. */
  method SendClick(event: ClickEvent, marshalled: Option<Bytes>, broker: Broker)
    returns (err: Option<SendError>, written: seq<Message>, log: LogLine)
    ensures err == SendClickSpec(marshalled, broker).err
    ensures |written| == SendClickSpec(marshalled, broker).attempts
    ensures marshalled.None? ==> written == [] && log == NoLog
    ensures marshalled.Some? ==>
              forall m :: m in written ==> m == Message([], marshalled.value, event.timestamp)
    ensures marshalled.Some? ==>
              log == if err.Some? then LoggedWriteFailure(event.alias) else LoggedSent(event.alias)
  {
    if marshalled.None? {
      return Some(MarshalFailed), [], NoLog;
    }
    var msg := Message([], marshalled.value, event.timestamp);
    written := [];
    var attempt := 0;
    while attempt < Retries
      invariant 0 <= attempt <= Retries
      invariant |written| == attempt
      invariant forall m :: m in written ==> m == msg
      invariant Deliver(broker, 0).err == Deliver(broker, attempt).err
      invariant Deliver(broker, 0).attempts == attempt + Deliver(broker, attempt).attempts
    {
      var outcome := broker(attempt);
      written := written + [msg];
      if outcome.Some? && IsTransient(outcome.value) {
        attempt := attempt + 1;
        continue;
      }
      if outcome.Some? {
        return Some(WriteRejected(outcome.value)), written, LoggedWriteFailure(event.alias);
      }
      break;
    }
    return None, written, LoggedSent(event.alias);
  }
}
