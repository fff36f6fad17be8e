/** When a client is kept and when it is cut, told by its writer and the length of its queue alone. */
module ClientCuts {
  import opened AttachedClients

  /** Whether an operation offers a frame to the client. */
  predicate IsOffer<F>(op: Op<F>, id: nat) {
    op.Broadcast? || (op.SendTo? && op.id == id)
  }

  /**
    What becomes of a frame offered to an attached client: with a writer there and fewer than
    256 frames queued it is queued last and the client stays; with 256 queued the client is
    cut and its socket shut; without a writer it is cut.
   */
  lemma OfferExactly<F>(s: Solo<F>, id: nat, op: Op<F>)
    requires s.attached && IsOffer(op, id)
    ensures var t := SoloStep(s, id, op);
            && (s.ch.reading && |s.ch.queue| < 256 ==>
                t == Solo(true, s.owed && !op.Broadcast?, s.ch.(queue := s.ch.queue + [op.f])))
            && (s.ch.reading && |s.ch.queue| >= 256 ==> t == Solo(false, false, s.ch.(hungUp := true)))
            && (!s.ch.reading ==> t == Solo(false, false, s.ch))
  {
  }

  /** The writer of a client takes what was queued first, and nothing but its own steps does. */
  lemma WriterTakesFirst<F>(s: Solo<F>, id: nat, op: Op<F>)
    requires !IsOffer(op, id)
    ensures var t := SoloStep(s, id, op);
            && (op == WriterTake(id) && s.ch.reading && |s.ch.queue| > 0 ==>
                t.ch == s.ch.(queue := s.ch.queue[1..], taken := s.ch.taken + [s.ch.queue[0]]))
            && (op == WriterEnd(id) ==> t.ch == s.ch.(reading := false))
            && (op != WriterTake(id) && op != WriterEnd(id) ==> t.ch == s.ch)
            && (t.attached <==> s.attached && op != Disconnect(id))
  {
  }

  ghost predicate OverflowsAt<F>(id: nat, ops: seq<Op<F>>, k: nat) {
    k < |ops| && IsOffer(ops[k], id) && |SoloRun(id, ops[..k]).ch.queue| == 256
  }

  /**
    Over every run: a client that did not leave and whose writer did not end is cut off
    exactly if it was offered a frame while 256 were queued, and then its socket was shut.
   */
  lemma {:induction false} CutExactly<F>(id: nat, ops: seq<Op<F>>)
    requires forall i :: 0 <= i < |ops| ==> ops[i] != Disconnect(id) && ops[i] != WriterEnd(id)
    ensures !SoloRun(id, ops).attached <==> exists k :: OverflowsAt(id, ops, k)
    ensures SoloRun(id, ops).ch.hungUp <==> !SoloRun(id, ops).attached
    ensures SoloRun(id, ops).ch.reading
  {
    hide SoloStep;
    if ops != [] {
      var init, last := ops[..|ops| - 1], ops[|ops| - 1];
      var s := SoloRun(id, init);
      CutExactly(id, init);
      NothingSkipped(id, init);
      assert forall k: nat :: k < |init| ==> ops[..k] == init[..k];
      assert OverflowsAt(id, ops, |ops| - 1) <==> IsOffer(last, id) && |s.ch.queue| == 256;
      assert forall k: nat :: k < |init| ==> (OverflowsAt(id, ops, k) <==> OverflowsAt(id, init, k));
      if IsOffer(last, id) && s.attached {
        OfferExactly(s, id, last);
      } else {
        CutStays(s, id, last);
      }
    }
  }

  lemma CutStays<F>(s: Solo<F>, id: nat, op: Op<F>)
    requires !s.attached || !IsOffer(op, id)
    requires op != Disconnect(id) && op != WriterEnd(id)
    ensures var t := SoloStep(s, id, op);
            t.attached == s.attached && t.ch.hungUp == s.ch.hungUp && t.ch.reading == s.ch.reading
  {
  }
}
