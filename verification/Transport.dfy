/** How the reading half of a stream may behave: every read is one step of a script. */
module Transport {

  /** At most so many bytes at once, an interruption, or a failure that ends the stream. */
  datatype ReadStep = Deliver(most: nat) | Interrupt | Break

  ghost predicate NeverBreaks(script: seq<ReadStep>) {
    forall i :: 0 <= i < |script| ==> !script[i].Break?
  }
}
