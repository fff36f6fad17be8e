/**
  Length-prefixed framing on the daemon socket: a kind byte, a big-endian length
  and the payload. The sockets are objects that move as many bytes as their script
  says, so a statement over every script is a statement over every way the
  transport may split, shorten or interrupt a read or a write.
 */
module FrameCodec {
  import opened Bytes
  import opened Transport

  const MAX_FRAME_BYTES: nat := 4 * 1024 * 1024
  const COALESCE_FRAME_BYTES: nat := 4096
  const HEADER_BYTES: nat := 5

  datatype FrameKind = Control | Terminal

  datatype Frame = Frame(kind: FrameKind, payload: seq<byte>)

  predicate InLimit(f: Frame) {
    |f.payload| <= MAX_FRAME_BYTES
  }

  function KindByte(kind: FrameKind): byte {
    match kind
    case Control => 1
    case Terminal => 2
  }

  function KindOf(b: byte): Option<FrameKind> {
    if b == 1 then Some(Control) else if b == 2 then Some(Terminal) else None
  }

  /** The low `width` bytes of `n`, most significant first. */
  function BigEndian(n: nat, width: nat): (bs: seq<byte>)
    ensures |bs| == width
  {
    if width == 0 then [] else BigEndian(n / 0x100, width - 1) + [n % 0x100]
  }

  function FromBigEndian(bs: seq<byte>): nat {
    if bs == [] then 0 else FromBigEndian(bs[..|bs| - 1]) * 0x100 + bs[|bs| - 1]
  }

  lemma {:induction false} BigEndianRoundTrip(n: nat, width: nat)
    requires n < Pow256(width)
    ensures FromBigEndian(BigEndian(n, width)) == n
  {
    if width > 0 {
      BigEndianRoundTrip(n / 0x100, width - 1);
      var bs := BigEndian(n, width);
      assert bs[..width - 1] == BigEndian(n / 0x100, width - 1);
    }
  }

  lemma {:induction false} BigEndianInjective(bs: seq<byte>)
    ensures FromBigEndian(bs) < Pow256(|bs|)
    ensures BigEndian(FromBigEndian(bs), |bs|) == bs
  {
    if bs != [] {
      var init, last := bs[..|bs| - 1], bs[|bs| - 1];
      BigEndianInjective(init);
      var n := FromBigEndian(bs);
      assert n / 0x100 == FromBigEndian(init) && n % 0x100 == last;
      assert bs == init + [last];
    }
  }

  function Header(f: Frame): (h: seq<byte>)
    requires InLimit(f)
    ensures |h| == HEADER_BYTES
  {
    [KindByte(f.kind)] + BigEndian(|f.payload|, 4)
  }

  function Encode(f: Frame): seq<byte>
    requires InLimit(f)
  {
    Header(f) + f.payload
  }

  ghost predicate AllInLimit(fs: seq<Frame>) {
    forall i :: 0 <= i < |fs| ==> InLimit(fs[i])
  }

  function EncodeAll(fs: seq<Frame>): seq<byte>
    requires AllInLimit(fs)
  {
    if fs == [] then [] else Encode(fs[0]) + EncodeAll(fs[1..])
  }

  lemma {:induction false} EncodeAllAppend(a: seq<Frame>, b: seq<Frame>)
    requires AllInLimit(a) && AllInLimit(b)
    ensures AllInLimit(a + b)
    ensures EncodeAll(a + b) == EncodeAll(a) + EncodeAll(b)
  {
    hide Encode;
    if a == [] {
      assert a + b == b;
    } else {
      assert (a + b)[1..] == a[1..] + b;
      EncodeAllAppend(a[1..], b);
    }
  }

  // ---------------------------------------------------------------- reading

  /** What filling a buffer of a given size produced. */
  datatype Fill = Filled(data: seq<byte>) | AtEnd | Cut | Broken

  /** What reading one frame produced. */
  datatype ReadOutcome =
    | Got(frame: Frame)
    | CleanEnd
    | Truncated
    | BadKind(kindByte: byte)
    | Oversized(announced: nat)
    | Disconnected

  datatype ReadResult = Data(bytes: seq<byte>) | Interrupted | Failed

  /** The reading half of a socket: the bytes its peer sent before closing. */
  class ByteSource {
    var pending: seq<byte>
    var script: seq<ReadStep>

    constructor (bytes: seq<byte>, steps: seq<ReadStep>)
      ensures pending == bytes && script == steps
    {
      pending, script := bytes, steps;
    }

    /** At least one byte when one is left, never more than `room`. */
    method Read(room: nat) returns (r: ReadResult)
      requires room > 0
      modifies this
      ensures r.Data? ==> |r.bytes| <= room && old(pending) == r.bytes + pending
      ensures r.Data? && r.bytes == [] ==> old(pending) == []
      ensures !r.Data? ==> pending == old(pending) && |script| < |old(script)|
      ensures |script| <= |old(script)|
      ensures NeverBreaks(old(script)) ==> NeverBreaks(script) && !r.Failed?
    {
      var most := |pending|;
      if script != [] {
        var step := script[0];
        script := script[1..];
        match step {
          case Interrupt => return Interrupted;
          case Break => return Failed;
          case Deliver(m) => most := Max(m, 1);
        }
      }
      var n := Min(room, Min(most, |pending|));
      r := Data(pending[..n]);
      pending := pending[n..];
    }
  }

  /** What filling `want` bytes from a stream holding exactly `pending` must do. */
  function FillFrom(pending: seq<byte>, want: nat): (Fill, seq<byte>) {
    if want == 0 then (Filled([]), pending)
    else if pending == [] then (AtEnd, [])
    else if |pending| < want then (Cut, [])
    else (Filled(pending[..want]), pending[want..])
  }

  method ReadExactOrEof(src: ByteSource, want: nat) returns (r: Fill)
    modifies src
    ensures !r.Broken? ==> (r, src.pending) == FillFrom(old(src.pending), want)
    ensures NeverBreaks(old(src.script)) ==> NeverBreaks(src.script) && !r.Broken?
  {
    if want == 0 {
      return Filled([]);
    }
    var buf: seq<byte> := [];
    while |buf| < want
      invariant |buf| <= want
      invariant old(src.pending) == buf + src.pending
      invariant NeverBreaks(old(src.script)) ==> NeverBreaks(src.script)
      decreases |src.script| + |src.pending|
    {
      var got := src.Read(want - |buf|);
      match got {
        case Interrupted =>
        case Failed => return Broken;
        case Data(bytes) =>
          if bytes == [] {
            return if buf == [] then AtEnd else Cut;
          }
          buf := buf + bytes;
      }
    }
    r := Filled(buf);
  }

  /** What reading one frame off a stream holding exactly `stream` must do. */
  function ParseFrame(stream: seq<byte>): (ReadOutcome, seq<byte>) {
    var (header, rest) := FillFrom(stream, HEADER_BYTES);
    match header
    case AtEnd => (CleanEnd, rest)
    case Cut => (Truncated, rest)
    case Broken => (Disconnected, rest)
    case Filled(h) =>
      var kind := KindOf(h[0]);
      var len := FromBigEndian(h[1..5]);
      if kind.None? then (BadKind(h[0]), rest)
      else if len > MAX_FRAME_BYTES then (Oversized(len), rest)
      else
        var (body, after) := FillFrom(rest, len);
        if body.Filled? then (Got(Frame(kind.value, body.data)), after) else (Truncated, after)
  }

  method ReadFrame(src: ByteSource) returns (r: ReadOutcome)
    modifies src
    ensures r != Disconnected ==> (r, src.pending) == ParseFrame(old(src.pending))
    ensures NeverBreaks(old(src.script)) ==> NeverBreaks(src.script) && r != Disconnected
    ensures r.Got? ==> InLimit(r.frame) && |src.pending| < |old(src.pending)|
  {
    var header := ReadExactOrEof(src, HEADER_BYTES);
    match header {
      case AtEnd => return CleanEnd;
      case Cut => return Truncated;
      case Broken => return Disconnected;
      case Filled(h) =>
        var kind := KindOf(h[0]);
        if kind.None? {
          return BadKind(h[0]);
        }
        var len := FromBigEndian(h[1..5]);
        if len > MAX_FRAME_BYTES {
          return Oversized(len);
        }
        var body := ReadExactOrEof(src, len);
        match body {
          case Filled(data) => r := Got(Frame(kind.value, data));
          case Broken => r := Disconnected;
          case AtEnd => r := Truncated;
          case Cut => r := Truncated;
        }
    }
  }

  // ---------------------------------------------------------------- writing

  /** One decision of the transport about a write: accept at most this much. */
  datatype WriteStep = Accept(most: nat) | WriteInterrupt | WriteBreak

  /** A transport on which every write makes progress or is interrupted. */
  ghost predicate NeverStalls(script: seq<WriteStep>) {
    forall i :: 0 <= i < |script| ==> script[i].WriteInterrupt? || (script[i].Accept? && script[i].most > 0)
  }

  datatype WriteResult = Wrote(n: nat) | WriteInterrupted | WriteFailed

  /** The writing half of a socket. */
  class ByteSink {
    var written: seq<byte>
    var script: seq<WriteStep>

    constructor (steps: seq<WriteStep>)
      ensures written == [] && script == steps
    {
      written, script := [], steps;
    }

    /** Accept a prefix of the slices laid end to end; it may be empty. */
    method WriteVectored(bufs: seq<seq<byte>>) returns (r: WriteResult)
      modifies this
      ensures r.Wrote? ==> r.n <= |Concat(bufs)| && written == old(written) + Concat(bufs)[..r.n]
      ensures !r.Wrote? ==> written == old(written) && |script| < |old(script)|
      ensures |script| <= |old(script)|
      ensures NeverStalls(old(script)) ==>
                NeverStalls(script) && !r.WriteFailed? && (r.Wrote? && Concat(bufs) != [] ==> r.n > 0)
    {
      var all := Concat(bufs);
      var n := |all|;
      if script != [] {
        var step := script[0];
        script := script[1..];
        match step {
          case WriteInterrupt => return WriteInterrupted;
          case WriteBreak => return WriteFailed;
          case Accept(m) => n := Min(m, |all|);
        }
      }
      written := written + all[..n];
      r := Wrote(n);
    }
  }

  /** Drop the first `n` bytes, and with them every slice they used up. */
  method AdvanceSlices(bufs: seq<seq<byte>>, n: nat) returns (rest: seq<seq<byte>>)
    requires n <= |Concat(bufs)|
    ensures Concat(rest) == Concat(bufs)[n..]
    ensures rest != [] ==> Concat(rest) != []
  {
    var left := n;
    rest := bufs;
    while rest != [] && |rest[0]| <= left
      invariant 0 <= left <= |Concat(rest)|
      invariant Concat(rest)[left..] == Concat(bufs)[n..]
      decreases |rest|
    {
      ghost var whole := Concat(rest);
      left := left - |rest[0]|;
      rest := rest[1..];
      assert whole[left + (|whole| - |Concat(rest)|)..] == Concat(rest)[left..];
    }
    if rest != [] {
      ghost var whole := Concat(rest);
      var tail := rest[1..];
      rest := [rest[0][left..]] + tail;
      assert rest[1..] == tail;
      assert Concat(rest) == whole[left..];
    }
  }

  /** Whether the slices went out whole; if not, what was sent is a proper prefix of them. */
  method WriteAllVectored(out: ByteSink, slices: seq<seq<byte>>) returns (ok: bool)
    requires slices != [] ==> Concat(slices) != []
    modifies out
    ensures ok ==> out.written == old(out.written) + Concat(slices)
    ensures !ok ==> exists k :: 0 <= k < |Concat(slices)| && out.written == old(out.written) + Concat(slices)[..k]
    ensures NeverStalls(old(out.script)) ==> ok && NeverStalls(out.script)
  {
    var bufs := slices;
    ghost var all := Concat(slices);
    ghost var sent := 0;
    while bufs != []
      invariant 0 <= sent <= |all|
      invariant Concat(bufs) == all[sent..]
      invariant bufs != [] ==> Concat(bufs) != []
      invariant out.written == old(out.written) + all[..sent]
      invariant NeverStalls(old(out.script)) ==> NeverStalls(out.script)
      decreases |out.script| + |Concat(bufs)|
    {
      var got := out.WriteVectored(bufs);
      match got {
        case WriteInterrupted =>
        case WriteFailed => return false;
        case Wrote(n) =>
          if n == 0 {
            return false;
          }
          assert all[..sent] + all[sent..][..n] == all[..sent + n];
          bufs := AdvanceSlices(bufs, n);
          sent := sent + n;
      }
    }
    ok := true;
  }

  /** Nothing is written for a payload over the limit; otherwise the frame goes out whole or is cut short. */
  method WriteFrame(out: ByteSink, f: Frame) returns (ok: bool)
    modifies out
    ensures !InLimit(f) ==> !ok && out.written == old(out.written)
    ensures ok ==> InLimit(f) && out.written == old(out.written) + Encode(f)
    ensures InLimit(f) && !ok ==>
              exists k :: 0 <= k < |Encode(f)| && out.written == old(out.written) + Encode(f)[..k]
    ensures NeverStalls(old(out.script)) ==> ok == InLimit(f) && NeverStalls(out.script)
  {
    if |f.payload| > MAX_FRAME_BYTES {
      return false;
    }
    var header := Header(f);
    if |f.payload| <= COALESCE_FRAME_BYTES {
      ConcatOne(header + f.payload);
      assert Concat([header + f.payload]) == Encode(f);
      ok := WriteAllVectored(out, [header + f.payload]);
    } else {
      ConcatSnoc([header], f.payload);
      ConcatOne(header);
      assert [header] + [f.payload] == [header, f.payload];
      assert Concat([header, f.payload]) == Encode(f);
      ok := WriteAllVectored(out, [header, f.payload]);
    }
  }

  // ------------------------------------------------------------- round trips

  lemma ParseEncoded(f: Frame, rest: seq<byte>)
    requires InLimit(f)
    ensures ParseFrame(Encode(f) + rest) == (Got(f), rest)
  {
    var stream := Encode(f) + rest;
    assert stream[..HEADER_BYTES] == Header(f);
    assert stream[HEADER_BYTES..] == f.payload + rest;
    assert Header(f)[1..5] == BigEndian(|f.payload|, 4);
    Pow256Word();
    BigEndianRoundTrip(|f.payload|, 4);
    assert (f.payload + rest)[..|f.payload|] == f.payload;
    assert (f.payload + rest)[|f.payload|..] == rest;
  }

  /** A frame is read only where its own encoding stands: no two byte strings read as one frame. */
  lemma ParsedIsEncoded(stream: seq<byte>)
    requires ParseFrame(stream).0.Got?
    ensures InLimit(ParseFrame(stream).0.frame)
    ensures stream == Encode(ParseFrame(stream).0.frame) + ParseFrame(stream).1
  {
    var h := stream[..HEADER_BYTES];
    BigEndianInjective(h[1..5]);
    assert h == [h[0]] + h[1..5];
    assert stream == h + stream[HEADER_BYTES..];
  }

  /** A proper, non-empty part of a frame is never a frame and never a clean end. */
  lemma ParseCut(f: Frame, k: nat)
    requires InLimit(f) && 0 < k < |Encode(f)|
    ensures ParseFrame(Encode(f)[..k]).0 == Truncated
  {
    var stream := Encode(f)[..k];
    if k >= HEADER_BYTES {
      assert stream[..HEADER_BYTES] == Header(f);
      assert Header(f)[1..5] == BigEndian(|f.payload|, 4);
      Pow256Word();
      BigEndianRoundTrip(|f.payload|, 4);
    }
  }

  /** Every frame of a stream, and how the stream ended. */
  function ReadAll(stream: seq<byte>): (seq<Frame>, ReadOutcome)
    decreases |stream|
  {
    var (first, rest) := ParseFrame(stream);
    if first.Got? && |rest| < |stream| then
      var (more, end) := ReadAll(rest);
      ([first.frame] + more, end)
    else
      ([], first)
  }

  lemma ReadAllCons(f: Frame, rest: seq<byte>)
    requires InLimit(f)
    ensures ReadAll(Encode(f) + rest) == ([f] + ReadAll(rest).0, ReadAll(rest).1)
  {
    ParseEncoded(f, rest);
  }

  lemma ReadAllCut(f: Frame, k: nat)
    requires InLimit(f) && k < |Encode(f)|
    ensures ReadAll(Encode(f)[..k]) == ([], if k == 0 then CleanEnd else Truncated)
  {
    if k > 0 {
      ParseCut(f, k);
    }
  }

  /** How many frames lie whole within the first `k` bytes. */
  function WholeFrames(fs: seq<Frame>, k: nat): nat
    requires AllInLimit(fs)
  {
    if fs == [] || k < |Encode(fs[0])| then 0 else 1 + WholeFrames(fs[1..], k - |Encode(fs[0])|)
  }

  /** The cut position falls at or after the last whole frame and before the end of the next. */
  lemma {:induction false} WholeFramesBrackets(fs: seq<Frame>, k: nat)
    requires AllInLimit(fs) && k <= |EncodeAll(fs)|
    ensures WholeFrames(fs, k) <= |fs|
    ensures |EncodeAll(fs[..WholeFrames(fs, k)])| <= k
    ensures WholeFrames(fs, k) < |fs| ==> k < |EncodeAll(fs[..WholeFrames(fs, k) + 1])|
  {
    if fs != [] {
      var n := |Encode(fs[0])|;
      if k < n {
        assert fs[..1] == [fs[0]];
        assert EncodeAll([fs[0]]) == Encode(fs[0]) + EncodeAll([]);
      } else {
        WholeFramesBrackets(fs[1..], k - n);
        var j := WholeFrames(fs[1..], k - n);
        assert fs[..j + 1][1..] == fs[1..][..j];
        if j < |fs| - 1 {
          assert fs[..j + 2][1..] == fs[1..][..j + 1];
        }
      }
    }
  }

  /** Frames in front of anything are read first, and do not change how the rest reads. */
  lemma {:induction false} ReadAllPrefix(fs: seq<Frame>, tail: seq<byte>)
    requires AllInLimit(fs)
    ensures ReadAll(EncodeAll(fs) + tail).0 == fs + ReadAll(tail).0
    ensures ReadAll(EncodeAll(fs) + tail).1 == ReadAll(tail).1
  {
    hide ParseFrame;
    if fs == [] {
      assert EncodeAll(fs) + tail == tail;
    } else {
      var rest := EncodeAll(fs[1..]) + tail;
      assert EncodeAll(fs) + tail == Encode(fs[0]) + rest;
      ReadAllPrefix(fs[1..], tail);
      ReadAllCons(fs[0], rest);
      assert fs == [fs[0]] + fs[1..];
    }
  }

  /** The bytes of `j` whole frames and `extra` bytes of the next one are a cut of the whole stream. */
  lemma CutAfter(fs: seq<Frame>, j: nat, extra: nat)
    requires AllInLimit(fs) && j < |fs| && extra < |Encode(fs[j])|
    ensures var k := |EncodeAll(fs[..j])| + extra;
            && k <= |EncodeAll(fs)|
            && EncodeAll(fs[..j]) + Encode(fs[j])[..extra] == EncodeAll(fs)[..k]
            && WholeFrames(fs, k) == j
  {
    var head, f := EncodeAll(fs[..j]), Encode(fs[j]);
    var rest := EncodeAll(fs[j..][1..]);
    assert fs[..j] + fs[j..] == fs;
    EncodeAllAppend(fs[..j], fs[j..]);
    assert EncodeAll(fs) == head + (f + rest);
    assert (head + (f + rest))[..|head| + extra] == head + f[..extra];
    WholeFramesAt(fs, j, extra);
  }

  lemma {:induction false} WholeFramesAt(fs: seq<Frame>, j: nat, extra: nat)
    requires AllInLimit(fs) && j <= |fs|
    requires j < |fs| ==> extra < |Encode(fs[j])|
    ensures WholeFrames(fs, |EncodeAll(fs[..j])| + extra) == j
  {
    if j > 0 {
      assert fs[..j][1..] == fs[1..][..j - 1];
      WholeFramesAt(fs[1..], j - 1, extra);
    }
  }

  /**
    A stream cut anywhere reads back as exactly the frames that lie whole before the
    cut, and it ends cleanly if and only if the cut is a frame boundary.
   */
  lemma CutStream(fs: seq<Frame>, k: nat)
    requires AllInLimit(fs) && k <= |EncodeAll(fs)|
    ensures WholeFrames(fs, k) <= |fs|
    ensures ReadAll(EncodeAll(fs)[..k]).0 == fs[..WholeFrames(fs, k)]
    ensures ReadAll(EncodeAll(fs)[..k]).1 ==
            if k == |EncodeAll(fs[..WholeFrames(fs, k)])| then CleanEnd else Truncated
  {
    hide ParseFrame;
    WholeFramesBrackets(fs, k);
    var j := WholeFrames(fs, k);
    if j == |fs| {
      assert fs[..j] == fs;
      EncodeAllAppend(fs, []);
      assert fs + [] == fs;
      RoundTrip(fs);
      assert EncodeAll(fs)[..k] == EncodeAll(fs);
    } else {
      var extra := k - |EncodeAll(fs[..j])|;
      SentPrefix(fs, j);
      CutAfter(fs, j, extra);
      ReadAllPrefix(fs[..j], Encode(fs[j])[..extra]);
      ReadAllCut(fs[j], extra);
    }
  }

  /** What was framed is what is read, followed by a clean end. */
  lemma RoundTrip(fs: seq<Frame>)
    requires AllInLimit(fs)
    ensures ReadAll(EncodeAll(fs)).0 == fs
    ensures ReadAll(EncodeAll(fs)).1 == CleanEnd
  {
    ReadAllPrefix(fs, []);
    assert EncodeAll(fs) + [] == EncodeAll(fs);
  }

  /** The bytes of the first `sent` frames, and perhaps a proper part of the next. */
  ghost predicate CutIn(frames: seq<Frame>, sent: nat, written: seq<byte>)
    requires sent <= |frames| && AllInLimit(frames[..sent])
  {
    || written == EncodeAll(frames[..sent])
    || (sent < |frames| && InLimit(frames[sent]) &&
        exists k :: 0 < k < |Encode(frames[sent])| && written == EncodeAll(frames[..sent]) + Encode(frames[sent])[..k])
  }

  /** What a reader makes of such bytes: the frames sent, and a clean end exactly if no part follows. */
  lemma CutReads(frames: seq<Frame>, sent: nat, written: seq<byte>)
    requires sent <= |frames| && AllInLimit(frames[..sent]) && CutIn(frames, sent, written)
    ensures ReadAll(written).0 == frames[..sent]
    ensures ReadAll(written).1 == if written == EncodeAll(frames[..sent]) then CleanEnd else Truncated
  {
    hide ParseFrame, Encode, EncodeAll, ReadAll;
    if written == EncodeAll(frames[..sent]) {
      RoundTrip(frames[..sent]);
    } else {
      var k :| 0 < k < |Encode(frames[sent])| && written == EncodeAll(frames[..sent]) + Encode(frames[sent])[..k];
      ReadAllPrefix(frames[..sent], Encode(frames[sent])[..k]);
      ReadAllCut(frames[sent], k);
    }
  }

  /**
    The writer thread's loop: frames go out in order until one fails. A frame over the
    limit, or a transport that stalls or breaks, ends it; nothing else does.
   */
  method WriteQueued(out: ByteSink, frames: seq<Frame>) returns (sent: nat)
    requires out.written == []
    modifies out
    ensures sent <= |frames| && AllInLimit(frames[..sent])
    ensures CutIn(frames, sent, out.written)
    ensures NeverStalls(old(out.script)) ==>
              out.written == EncodeAll(frames[..sent]) && (sent == |frames| || !InLimit(frames[sent]))
  {
    hide Encode, EncodeAll;
    sent := 0;
    NoFrames();
    assert frames[..0] == [];
    while sent < |frames|
      invariant 0 <= sent <= |frames| && AllInLimit(frames[..sent])
      invariant out.written == EncodeAll(frames[..sent])
      invariant NeverStalls(old(out.script)) ==> NeverStalls(out.script)
    {
      ghost var before := out.written;
      var ok := WriteFrame(out, frames[sent]);
      if !ok {
        if InLimit(frames[sent]) {
          ghost var k :| 0 <= k < |Encode(frames[sent])| && out.written == before + Encode(frames[sent])[..k];
          assert k == 0 ==> out.written == before;
        }
        return;
      }
      SentPrefix(frames, sent);
      sent := sent + 1;
    }
  }

  lemma NoFrames()
    ensures EncodeAll([]) == []
  {
  }

  lemma SentPrefix(frames: seq<Frame>, sent: nat)
    requires sent < |frames| && AllInLimit(frames[..sent]) && InLimit(frames[sent])
    ensures AllInLimit(frames[..sent + 1])
    ensures EncodeAll(frames[..sent + 1]) == EncodeAll(frames[..sent]) + Encode(frames[sent])
  {
    assert frames[..sent + 1] == frames[..sent] + [frames[sent]];
    EncodeAllAppend(frames[..sent], [frames[sent]]);
    assert EncodeAll([frames[sent]]) == Encode(frames[sent]) + EncodeAll([]);
  }

  /**
    The reader's loop: every frame of the stream, however its reads were split; only the
    first ones when a read fails.
   */
  method ReadQueued(src: ByteSource) returns (received: seq<Frame>, end: ReadOutcome)
    modifies src
    ensures received <= ReadAll(old(src.pending)).0
    ensures end != Disconnected ==> received == ReadAll(old(src.pending)).0 && end == ReadAll(old(src.pending)).1
    ensures NeverBreaks(old(src.script)) ==> end != Disconnected
  {
    received := [];
    while true
      invariant NeverBreaks(old(src.script)) ==> NeverBreaks(src.script)
      invariant ReadAll(old(src.pending)).0 == received + ReadAll(src.pending).0
      invariant ReadAll(old(src.pending)).1 == ReadAll(src.pending).1
      decreases |src.pending|
    {
      ghost var before := src.pending;
      end := ReadFrame(src);
      if !end.Got? {
        assert end != Disconnected ==> ReadAll(before) == ([], end);
        return;
      }
      ReadAllStep(before);
      received := received + [end.frame];
    }
  }

  lemma ReadAllStep(stream: seq<byte>)
    requires ParseFrame(stream).0.Got?
    ensures ReadAll(stream).0 == [ParseFrame(stream).0.frame] + ReadAll(ParseFrame(stream).1).0
    ensures ReadAll(stream).1 == ReadAll(ParseFrame(stream).1).1
  {
    var (first, rest) := ParseFrame(stream);
    ParsedIsEncoded(stream);
    ReadAllCons(first.frame, rest);
  }

  lemma ReadAllEnds(stream: seq<byte>)
    requires !ParseFrame(stream).0.Got?
    ensures ReadAll(stream) == ([], ParseFrame(stream).0)
  {
    hide ParseFrame;
  }

  /**
    The two ends joined, for any frames and any behaviour of the two transports: the
    reader sees frames the writer got through, in order and from the first; all of them
    unless a read failed; every frame offered, and then a clean end, if all were within
    the limit and neither transport gave up.
   */
  method Transfer(frames: seq<Frame>, writeScript: seq<WriteStep>, readScript: seq<ReadStep>)
    returns (received: seq<Frame>, end: ReadOutcome, sent: nat)
    ensures sent <= |frames|
    ensures received <= frames[..sent]
    ensures end != Disconnected ==> received == frames[..sent] && (end == CleanEnd || end == Truncated)
    ensures NeverBreaks(readScript) ==> end != Disconnected
    ensures NeverStalls(writeScript) ==> sent == |frames| || !InLimit(frames[sent])
    ensures NeverStalls(writeScript) && NeverBreaks(readScript) ==> end == CleanEnd
  {
    hide ReadAll, EncodeAll, Encode;
    var out := new ByteSink(writeScript);
    sent := WriteQueued(out, frames);
    CutReads(frames, sent, out.written);
    var src := new ByteSource(out.written, readScript);
    received, end := ReadQueued(src);
  }
}
