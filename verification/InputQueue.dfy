/**
  The bounded input queue of one pane and the worker that writes it to the terminal.
  The worker drops the lock while it writes, so a message may be in flight, neither
  queued nor written, when anything else happens.
 */
module InputQueue {
  import opened Bytes

  const INPUT_BYTE_LIMIT: nat := 4 * 1024 * 1024
  const INPUT_MESSAGE_LIMIT: nat := 256

  datatype Verdict = Accepted | WriterFailed | Closed | Full

  /** The queue without its counters, with a record of what was accepted and what was written. */
  datatype Input = Input(
    queue: seq<seq<byte>>,
    inFlight: Option<seq<byte>>,
    stopped: bool,
    closed: bool,
    failed: bool,
    accepted: seq<seq<byte>>,
    written: seq<byte>)

  const EMPTY_INPUT := Input([], None, false, false, false, [], [])

  function InFlight(s: Input): seq<byte> {
    if s.inFlight.Some? then s.inFlight.value else []
  }

  /** Bytes and messages accepted and not yet written or dropped. */
  function PendingBytes(s: Input): nat {
    |Concat(s.queue)| + |InFlight(s)|
  }

  function PendingMessages(s: Input): nat {
    |s.queue| + if s.inFlight.Some? then 1 else 0
  }

  function Judge(s: Input, data: seq<byte>): Verdict {
    if s.failed then WriterFailed
    else if s.closed then Closed
    else if data == [] then Accepted
    else if PendingMessages(s) >= INPUT_MESSAGE_LIMIT || PendingBytes(s) + |data| > INPUT_BYTE_LIMIT then Full
    else Accepted
  }

  function Enqueued(s: Input, data: seq<byte>): Input {
    if Judge(s, data).Accepted? && data != []
    then s.(queue := s.queue + [data], accepted := s.accepted + [data])
    else s
  }

  function ClosedDown(s: Input): Input {
    s.(closed := true, queue := [])
  }

  /** The worker takes the lock and looks for work. */
  function Taken(s: Input): Input {
    if s.stopped || s.inFlight.Some? then s
    else if s.closed || s.failed then s.(stopped := true)
    else if s.queue == [] then s
    else s.(inFlight := Some(s.queue[0]), queue := s.queue[1..])
  }

  /** The write of the message in flight ended; on failure some of its bytes may have gone out. */
  function Finished(s: Input, ok: bool, sent: nat): Input {
    if s.inFlight.None? then s
    else
      var data := s.inFlight.value;
      if ok then s.(inFlight := None, written := s.written + data)
      else s.(inFlight := None, written := s.written + data[..Min(sent, |data|)],
              queue := [], failed := true, stopped := true)
  }

  // --------------------------------------------------------------- the queue

  class InputQueue {
    var queue: seq<seq<byte>>
    var pendingBytes: nat
    var pendingMessages: nat
    var closed: bool
    var failed: bool
    var inFlight: Option<seq<byte>>
    var stopped: bool
    ghost var accepted: seq<seq<byte>>
    ghost var written: seq<byte>

    ghost function State(): Input
      reads this
    {
      Input(queue, inFlight, stopped, closed, failed, accepted, written)
    }

    /** The counters are what is queued plus what is in flight. */
    ghost predicate Valid()
      reads this
    {
      && pendingBytes == PendingBytes(State()) <= INPUT_BYTE_LIMIT
      && pendingMessages == PendingMessages(State()) <= INPUT_MESSAGE_LIMIT
    }

    constructor ()
      ensures Valid() && State() == EMPTY_INPUT
    {
      queue, pendingBytes, pendingMessages := [], 0, 0;
      closed, failed, inFlight, stopped := false, false, None, false;
      accepted, written := [], [];
    }

    method Enqueue(data: seq<byte>) returns (v: Verdict)
      requires Valid()
      modifies this
      ensures Valid()
      ensures v == Judge(old(State()), data)
      ensures State() == Enqueued(old(State()), data)
    {
      if failed {
        return WriterFailed;
      }
      if closed {
        return Closed;
      }
      if data == [] {
        return Accepted;
      }
      if |data| > INPUT_BYTE_LIMIT
         || pendingMessages >= INPUT_MESSAGE_LIMIT
         || Min(pendingBytes + |data|, USIZE_MAX) > INPUT_BYTE_LIMIT
      {
        return Full;
      }
      ConcatSnoc(queue, data);
      queue := queue + [data];
      pendingBytes := pendingBytes + |data|;
      pendingMessages := pendingMessages + 1;
      accepted := accepted + [data];
      v := Accepted;
    }

    method Close()
      requires Valid()
      modifies this
      ensures Valid() && State() == ClosedDown(old(State()))
    {
      closed := true;
      var queued := SumLengths(queue);
      pendingBytes := pendingBytes - queued;
      pendingMessages := pendingMessages - |queue|;
      queue := [];
    }

    /** One turn of the worker at the lock. */
    method TakeNext()
      requires Valid()
      modifies this
      ensures Valid() && State() == Taken(old(State()))
    {
      if stopped || inFlight.Some? {
        return;
      }
      if closed || failed {
        stopped := true;
      } else if queue != [] {
        inFlight := Some(queue[0]);
        queue := queue[1..];
      }
    }

    /** The worker comes back from a write. */
    method FinishWrite(ok: bool, sent: nat)
      requires Valid()
      modifies this
      ensures Valid() && State() == Finished(old(State()), ok, sent)
    {
      if inFlight.None? {
        return;
      }
      var data := inFlight.value;
      inFlight := None;
      pendingBytes := pendingBytes - |data|;
      pendingMessages := pendingMessages - 1;
      if ok {
        written := written + data;
      } else {
        written := written + data[..Min(sent, |data|)];
        var queued := SumLengths(queue);
        pendingBytes := pendingBytes - queued;
        pendingMessages := pendingMessages - |queue|;
        queue := [];
        failed := true;
        stopped := true;
      }
    }
  }

  method SumLengths(queue: seq<seq<byte>>) returns (total: nat)
    ensures total == |Concat(queue)|
  {
    total := 0;
    var i := 0;
    while i < |queue|
      invariant 0 <= i <= |queue|
      invariant total == |Concat(queue[..i])|
    {
      assert queue[..i + 1] == queue[..i] + [queue[i]];
      ConcatSnoc(queue[..i], queue[i]);
      total := total + |queue[i]|;
      i := i + 1;
    }
    assert queue[..i] == queue;
  }

  // -------------------------------------------------------------- whole runs

  datatype Label = Enqueue(data: seq<byte>) | Close | Take | Finish(ok: bool, sent: nat)

  function Step(s: Input, l: Label): Input {
    match l
    case Enqueue(data) => Enqueued(s, data)
    case Close => ClosedDown(s)
    case Take => Taken(s)
    case Finish(ok, sent) => Finished(s, ok, sent)
  }

  function Run(labels: seq<Label>): Input {
    if labels == [] then EMPTY_INPUT else Step(Run(labels[..|labels| - 1]), labels[|labels| - 1])
  }

  /** What is written, in flight and queued, laid end to end. */
  function Accounted(s: Input): seq<byte> {
    s.written + InFlight(s) + Concat(s.queue)
  }

  ghost predicate Inv(s: Input) {
    && PendingBytes(s) <= INPUT_BYTE_LIMIT
    && PendingMessages(s) <= INPUT_MESSAGE_LIMIT
    && Accounted(s) <= Concat(s.accepted)
    && (!s.closed && !s.failed ==> Accounted(s) == Concat(s.accepted))
    && (s.closed || s.failed ==> s.queue == [])
    && (s.failed ==> s.inFlight.None? && s.stopped)
  }

  lemma EnqueueKeeps(s: Input, data: seq<byte>)
    requires Inv(s)
    ensures Inv(Enqueued(s, data))
  {
    ConcatSnoc(s.queue, data);
    ConcatSnoc(s.accepted, data);
    hide Concat;
    assert s.written + InFlight(s) + (Concat(s.queue) + data) == Accounted(s) + data;
  }

  lemma StepKeeps(s: Input, l: Label)
    requires Inv(s)
    ensures Inv(Step(s, l))
  {
    match l
    case Enqueue(data) => EnqueueKeeps(s, data);
    case Close =>
    case Take =>
      if s.queue != [] {
        assert s.written + s.queue[0] + Concat(s.queue[1..]) == s.written + (s.queue[0] + Concat(s.queue[1..]));
      }
    case Finish(ok, sent) =>
  }

  lemma {:induction false} RunInv(labels: seq<Label>)
    ensures Inv(Run(labels))
  {
    if labels != [] {
      RunInv(labels[..|labels| - 1]);
      StepKeeps(Run(labels[..|labels| - 1]), labels[|labels| - 1]);
    }
  }

  /**
    Under every interleaving of callers, worker and close: what is pending stays within
    the limits, and what was written is a prefix of what was accepted, in order; all of
    it, once an open and healthy queue has nothing left.
   */
  lemma WrittenInOrder(labels: seq<Label>)
    ensures var s := Run(labels);
            && PendingBytes(s) <= INPUT_BYTE_LIMIT && PendingMessages(s) <= INPUT_MESSAGE_LIMIT
            && s.written <= Concat(s.accepted)
            && (!s.closed && !s.failed && s.queue == [] && s.inFlight.None? ==> s.written == Concat(s.accepted))
  {
    RunInv(labels);
  }

  /**
    Input is taken in exactly if the queue is open and healthy and it is empty, or there are
    fewer than 256 messages and it fits into 4 MiB with all that is queued or being written;
    and then it stands last.
   */
  lemma AcceptedExactly(s: Input, data: seq<byte>)
    ensures Judge(s, data) == Accepted <==>
              && !s.failed && !s.closed
              && (data != [] ==>
                  && |s.queue| + (if s.inFlight.Some? then 1 else 0) < 256
                  && |Concat(s.queue)| + (if s.inFlight.Some? then |s.inFlight.value| else 0) + |data| <= 4194304)
    ensures Judge(s, data) == Accepted && data != [] ==>
              Enqueued(s, data) == s.(queue := s.queue + [data], accepted := s.accepted + [data])
    ensures Judge(s, data) != Accepted || data == [] ==> Enqueued(s, data) == s
    ensures Judge(s, data) == WriterFailed <==> s.failed
    ensures Judge(s, data) == Closed <==> !s.failed && s.closed
  {
    hide Concat;
  }

  /** The worker takes the oldest message of an open and healthy queue, and a write that succeeds is all of it. */
  lemma WorkerTakesOldest(s: Input)
    requires !s.stopped && s.inFlight.None? && !s.closed && !s.failed && s.queue != []
    ensures Taken(s) == s.(inFlight := Some(s.queue[0]), queue := s.queue[1..])
    ensures Finished(Taken(s), true, 0).written == s.written + s.queue[0]
    ensures Finished(Taken(s), true, 0).queue == s.queue[1..] && Finished(Taken(s), true, 0).inFlight.None?
  {
  }

  /** Once closed or failed, a queue never accepts anything again. */
  lemma {:induction false} NothingAcceptedAfterEnd(labels: seq<Label>, k: nat)
    requires k <= |labels| && (Run(labels[..k]).closed || Run(labels[..k]).failed)
    ensures Run(labels).closed || Run(labels).failed
    ensures Run(labels).accepted == Run(labels[..k]).accepted
  {
    if k == |labels| {
      assert labels[..k] == labels;
    } else {
      assert labels[..|labels| - 1][..k] == labels[..k];
      NothingAcceptedAfterEnd(labels[..|labels| - 1], k);
    }
  }
}
