/**
  Reading a plugin's output line by line under a cap. The buffered reader shows as much
  of the stream at a time as its script says, so a statement over every script covers
  every way the stream can arrive.
 */
module LineReader {
  import opened Bytes
  import opened Splitting
  import opened Transport

  const MAX_LINE_BYTES: nat := 64 * 1024
  const NEWLINE: byte := 10
  const CARRIAGE_RETURN: byte := 13

  datatype Pulled = Line(text: seq<byte>) | TooLong(length: nat) | NotUtf8 | Eof | Failed

  datatype Filled = Available(bytes: seq<byte>) | Interrupted | Broken

  class BufferedReader {
    var pending: seq<byte>
    var script: seq<ReadStep>

    constructor (bytes: seq<byte>, steps: seq<ReadStep>)
      ensures pending == bytes && script == steps
    {
      pending, script := bytes, steps;
    }

    /** Shows some of what is left without taking it; nothing only at the end. */
    method FillBuf() returns (r: Filled)
      modifies this`script
      ensures script == if old(script) == [] then [] else old(script)[1..]
      ensures r.Available? ==> r.bytes <= pending && (r.bytes == [] <==> pending == [])
      ensures r.Broken? ==> old(script) != [] && old(script)[0].Break?
      ensures r.Interrupted? ==> old(script) != []
    {
      if script == [] {
        return Available(pending);
      }
      var step := script[0];
      script := script[1..];
      match step
      case Deliver(most) => r := Available(pending[..Min(|pending|, Max(most, 1))]);
      case Interrupt => r := Interrupted;
      case Break => r := Broken;
    }

    method Consume(n: nat)
      requires n <= |pending|
      modifies this`pending
      ensures pending == old(pending)[n..]
    {
      pending := pending[n..];
    }
  }

  /** Where the first newline is, or the length. */
  function LineEnd(s: seq<byte>): (k: nat)
    ensures k <= |s| && Unbroken(s, k)
    ensures k < |s| ==> s[k] == NEWLINE
  {
    if s == [] || s[0] == NEWLINE then 0 else 1 + LineEnd(s[1..])
  }

  /** No newline among the first `k` bytes. */
  predicate Unbroken(s: seq<byte>, k: nat)
    requires k <= |s|
  {
    forall i :: 0 <= i < k ==> s[i] != NEWLINE
  }

  lemma LineEndUnique(s: seq<byte>, k: nat)
    requires k <= |s| && Unbroken(s, k) && (k < |s| ==> s[k] == NEWLINE)
    ensures LineEnd(s) == k
  {
  }

  /** How many bytes the next line spans, its newline included. */
  function Span(s: seq<byte>): (n: nat)
    ensures n <= |s|
  {
    if LineEnd(s) < |s| then LineEnd(s) + 1 else |s|
  }

  datatype Capped = Spanned(seen: nat, terminated: bool, kept: seq<byte>) | Unreadable

  /** Takes one line off the reader, keeping no more of it than the cap. */
  method ReadCapped(reader: BufferedReader) returns (r: Capped)
    modifies reader
    ensures NeverBreaks(old(reader.script)) ==> r.Spanned? && NeverBreaks(reader.script)
    ensures r.Spanned? ==>
              var s := old(reader.pending);
              && r.seen == Span(s)
              && r.terminated == (LineEnd(s) < |s|)
              && r.kept == Cap(s[..LineEnd(s)])
              && reader.pending == s[Span(s)..]
  {
    hide LineEnd, Cap, Unbroken;
    var seen: nat := 0;
    var buf: seq<byte> := [];
    ghost var whole := reader.pending;
    CapEmpty();
    NothingSeen(whole);
    while true
      invariant seen <= |whole| && reader.pending == whole[seen..]
      invariant Unbroken(whole, seen) && buf == Cap(whole[..seen])
      invariant NeverBreaks(old(reader.script)) ==> NeverBreaks(reader.script)
      decreases |reader.script| + |reader.pending|
    {
      var filled := reader.FillBuf();
      if filled.Broken? {
        return Unreadable;
      }
      if filled.Available? {
        var available := filled.bytes;
        if available == [] {
          LineEndUnique(whole, seen);
          return Spanned(seen, false, buf);
        }
        var take := LineEnd(available);
        AdvanceKept(whole, seen, available, take);
        AdvanceEnd(whole, seen, available, take);
        var terminated := take < |available|;
        var room := Max(MAX_LINE_BYTES - |buf|, 0);
        buf := buf + available[..Min(take, room)];
        reader.Consume(if terminated then take + 1 else take);
        seen := seen + if terminated then take + 1 else take;
        if terminated {
          return Spanned(seen, true, buf);
        }
      }
    }
  }

  function Cap(line: seq<byte>): seq<byte> {
    line[..Min(|line|, MAX_LINE_BYTES)]
  }

  lemma NothingSeen(s: seq<byte>)
    ensures Unbroken(s, 0)
  {
  }

  lemma CapEmpty()
    ensures Cap([]) == []
  {
  }

  lemma CapAppend(line: seq<byte>, available: seq<byte>, take: nat)
    requires take <= |available|
    ensures Cap(line) + available[..Min(take, Max(MAX_LINE_BYTES - |Cap(line)|, 0))] == Cap(line + available[..take])
  {
  }

  /** One look at the reader, after `seen` bytes of the line: what is kept. */
  lemma AdvanceKept(whole: seq<byte>, seen: nat, available: seq<byte>, take: nat)
    requires seen <= |whole| && available <= whole[seen..] && take <= |available|
    ensures var kept := Cap(whole[..seen]);
            kept + available[..Min(take, Max(MAX_LINE_BYTES - |kept|, 0))] == Cap(whole[..seen + take])
  {
    hide Cap;
    CapAppend(whole[..seen], available, take);
    assert whole[..seen + take] == whole[..seen] + available[..take];
  }

  /** And where the line ends. */
  lemma AdvanceEnd(whole: seq<byte>, seen: nat, available: seq<byte>, take: nat)
    requires seen <= |whole| && Unbroken(whole, seen) && available <= whole[seen..]
    requires take <= |available| && Unbroken(available, take)
    ensures Unbroken(whole, seen + take)
    ensures take < |available| && available[take] == NEWLINE ==> LineEnd(whole) == seen + take
  {
    hide LineEnd;
    forall i | seen <= i < seen + take
      ensures whole[i] != NEWLINE
    {
      assert whole[i] == whole[seen..][i - seen] == available[i - seen];
    }
    if take < |available| && available[take] == NEWLINE {
      assert whole[seen + take] == whole[seen..][take] == available[take];
      LineEndUnique(whole, seen + take);
    }
  }

  // ------------------------------------------------------------ one line's answer

  function WithoutReturn(line: seq<byte>): seq<byte> {
    if line != [] && line[|line| - 1] == CARRIAGE_RETURN then line[..|line| - 1] else line
  }

  /** What a line with these bytes is reported as. */
  function Reported(line: seq<byte>, isUtf8: seq<byte> -> bool): Pulled {
    if |line| > MAX_LINE_BYTES then TooLong(|line|)
    else if isUtf8(WithoutReturn(line)) then Line(WithoutReturn(line))
    else NotUtf8
  }

  method PullLine(reader: BufferedReader, isUtf8: seq<byte> -> bool) returns (r: Pulled)
    modifies reader
    ensures NeverBreaks(old(reader.script)) ==> !r.Failed? && NeverBreaks(reader.script)
    ensures !r.Failed? ==>
              var s := old(reader.pending);
              && reader.pending == s[Span(s)..]
              && r == if s == [] then Eof else Reported(s[..LineEnd(s)], isUtf8)
  {
    var capped := ReadCapped(reader);
    if capped.Unreadable? {
      return Failed;
    }
    if capped.seen == 0 {
      return Eof;
    }
    var length := capped.seen - if capped.terminated then 1 else 0;
    if length > MAX_LINE_BYTES {
      return TooLong(length);
    }
    assert capped.kept == old(reader.pending)[..length];
    var text := WithoutReturn(capped.kept);
    r := if isUtf8(text) then Line(text) else NotUtf8;
  }

  // ------------------------------------------------------------- whole streams

  /** Every part reported in order; an empty last part is the end, not a line. */
  function ReportAll(parts: seq<seq<byte>>, isUtf8: seq<byte> -> bool): seq<Pulled> {
    if parts == [] || parts == [[]] then []
    else [Reported(parts[0], isUtf8)] + ReportAll(parts[1..], isUtf8)
  }

  /** The lines of a stream: what lies between its newlines. */
  function Lines(stream: seq<byte>, isUtf8: seq<byte> -> bool): seq<Pulled> {
    ReportAll(Split(stream, NEWLINE), isUtf8)
  }

  lemma FirstLine(s: seq<byte>, e: nat)
    requires e < |s| && s[e] == NEWLINE && Unbroken(s, e)
    ensures Split(s, NEWLINE) == [s[..e]] + Split(s[e + 1..], NEWLINE)
  {
    hide Split;
    assert s == s[..e] + [NEWLINE] + s[e + 1..];
    SplitFirst(s[..e], s[e + 1..], NEWLINE);
  }

  lemma OnePart(s: seq<byte>, isUtf8: seq<byte> -> bool)
    requires s != []
    ensures ReportAll([s], isUtf8) == [Reported(s, isUtf8)]
  {
    assert [s][0] != [];
    assert [s][1..] == [];
  }

  lemma NextReported(s: seq<byte>, isUtf8: seq<byte> -> bool)
    requires s != []
    ensures Lines(s, isUtf8) == [Reported(s[..LineEnd(s)], isUtf8)] + Lines(s[Span(s)..], isUtf8)
  {
    hide Split, LineEnd, Reported;
    var e := LineEnd(s);
    if e == |s| {
      assert s[..e] == s;
      SplitNone(s, NEWLINE);
      OnePart(s, isUtf8);
      assert s[Span(s)..] == [];
      EmptyHasNoLines(isUtf8);
    } else {
      FirstLine(s, e);
      EmptyIsOnePart(s);
      assert Split(s, NEWLINE)[1..] == Split(s[e + 1..], NEWLINE);
    }
  }

  lemma EmptyHasNoLines(isUtf8: seq<byte> -> bool)
    ensures Lines([], isUtf8) == []
  {
  }

  lemma EmptyIsOnePart(s: seq<byte>)
    requires s != []
    ensures Split(s, NEWLINE) != [[]]
  {
    JoinSplit(s, NEWLINE);
  }

  /**
    Pulling until there is nothing left is splitting the stream at its newlines, however
    it arrives; a transport error stops it early, with nothing wrong reported.
   */
  method PullAll(reader: BufferedReader, isUtf8: seq<byte> -> bool) returns (lines: seq<Pulled>, ended: bool)
    modifies reader
    ensures lines <= Lines(old(reader.pending), isUtf8)
    ensures ended ==> lines == Lines(old(reader.pending), isUtf8)
    ensures NeverBreaks(old(reader.script)) ==> ended
  {
    hide Lines, Reported, LineEnd;
    lines := [];
    while true
      invariant Lines(old(reader.pending), isUtf8) == lines + Lines(reader.pending, isUtf8)
      invariant NeverBreaks(old(reader.script)) ==> NeverBreaks(reader.script)
      decreases |reader.pending|
    {
      ghost var s := reader.pending;
      var pulled := PullLine(reader, isUtf8);
      if pulled.Failed? {
        return lines, false;
      }
      if pulled.Eof? {
        if s == [] {
          EmptyHasNoLines(isUtf8);
        } else {
          ReportedIsNotEof(s[..LineEnd(s)], isUtf8);
        }
        return lines, true;
      }
      NextReported(s, isUtf8);
      assert lines + ([pulled] + Lines(reader.pending, isUtf8)) == lines + [pulled] + Lines(reader.pending, isUtf8);
      lines := lines + [pulled];
    }
  }

  lemma ReportedIsNotEof(line: seq<byte>, isUtf8: seq<byte> -> bool)
    ensures !Reported(line, isUtf8).Eof?
  {
  }

  /**
    For any lines without newlines in them, written out one per line, exactly those lines
    are reported: whole within the cap, by their exact length beyond it.
   */
  lemma WrittenLinesAreReported(lines: seq<seq<byte>>, isUtf8: seq<byte> -> bool)
    requires forall i :: 0 <= i < |lines| ==> NEWLINE !in lines[i]
    ensures var reports := Lines(Join(lines + [[]], NEWLINE), isUtf8);
            |reports| == |lines| && forall i :: 0 <= i < |lines| ==> reports[i] == Reported(lines[i], isUtf8)
  {
    hide Split, Join, Reported;
    SplitJoin(lines + [[]], NEWLINE);
    ReportAllOf(lines, isUtf8);
  }

  /**
    Told outright: what is behind the last newline is a line too unless it is empty; a line
    of at most 64 KiB that is text comes back byte for byte, without the one carriage return
    it may end in; a longer one is told by its length.
   */
  lemma LinesAreWhole(lines: seq<seq<byte>>, last: seq<byte>, isUtf8: seq<byte> -> bool, i: nat)
    requires (forall k :: 0 <= k < |lines| ==> NEWLINE !in lines[k]) && NEWLINE !in last
    requires i <= |lines| && (i == |lines| ==> last != [])
    ensures var reports := Lines(Join(lines + [last], NEWLINE), isUtf8);
            var line := if i < |lines| then lines[i] else last;
            && |reports| == |lines| + (if last == [] then 0 else 1)
            && (|line| > 65536 ==> reports[i] == TooLong(|line|))
            && (|line| <= 65536 && (line == [] || line[|line| - 1] != 13) ==>
                reports[i] == if isUtf8(line) then Line(line) else NotUtf8)
            && (|line| <= 65536 && line != [] && line[|line| - 1] == 13 ==>
                reports[i] == if isUtf8(line[..|line| - 1]) then Line(line[..|line| - 1]) else NotUtf8)
  {
    hide Split, Join;
    SplitJoin(lines + [last], NEWLINE);
    if last == [] {
      ReportAllOf(lines, isUtf8);
    } else {
      ReportTail(lines, last, isUtf8);
    }
  }

  lemma {:induction false} ReportTail(lines: seq<seq<byte>>, last: seq<byte>, isUtf8: seq<byte> -> bool)
    requires last != []
    ensures var reports := ReportAll(lines + [last], isUtf8);
            && |reports| == |lines| + 1 && reports[|lines|] == Reported(last, isUtf8)
            && forall i :: 0 <= i < |lines| ==> reports[i] == Reported(lines[i], isUtf8)
  {
    hide Reported;
    if lines == [] {
      assert lines + [last] == [last];
      OnePart(last, isUtf8);
    } else {
      assert (lines + [last])[1..] == lines[1..] + [last];
      assert (lines + [last])[1] == (lines[1..] + [last])[0];
      ReportTail(lines[1..], last, isUtf8);
    }
  }

  lemma {:induction false} ReportAllOf(lines: seq<seq<byte>>, isUtf8: seq<byte> -> bool)
    ensures var reports := ReportAll(lines + [[]], isUtf8);
            |reports| == |lines| && forall i :: 0 <= i < |lines| ==> reports[i] == Reported(lines[i], isUtf8)
  {
    hide Reported;
    if lines == [] {
      assert lines + [[]] == [[]];
    } else {
      assert (lines + [[]])[1..] == lines[1..] + [[]];
      ReportAllOf(lines[1..], isUtf8);
    }
  }
}
