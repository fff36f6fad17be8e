/** The command line a relaunched pane runs: the original command and approved resume arguments. */
module ResumeLine {
  import opened Bytes
  import opened Splitting

  const MAX_RESUME_ARGS: nat := 6
  const MAX_RESUME_ARG_LEN: nat := 256

  datatype Error =
    | NoStartupCommand
    | TooManyArgs(count: nat)
    | EmptyArg
    | ArgTooLong(bytes: nat)
    | UnsafeArg(arg: string)
    | NotApproved(arg: string)

  datatype Line = Built(line: string) | Rejected(error: Error)

  function Utf8Width(c: char): nat {
    if c as int < 0x80 then 1 else if c as int < 0x800 then 2 else if c as int < 0x1_0000 then 3 else 4
  }

  /** The length of a string in bytes of UTF-8. */
  function ByteLength(s: string): nat {
    if s == [] then 0 else ByteLength(s[..|s| - 1]) + Utf8Width(s[|s| - 1])
  }

  /** A character as bytes, by section 3 of RFC 3629. */
  function Utf8Char(c: char): seq<byte> {
    var n := c as int;
    if n < 0x80 then [n]
    else if n < 0x800 then [0xC0 + n / 0x40, 0x80 + n % 0x40]
    else if n < 0x1_0000 then [0xE0 + n / 0x1000, 0x80 + n / 0x40 % 0x40, 0x80 + n % 0x40]
    else [0xF0 + n / 0x4_0000, 0x80 + n / 0x1000 % 0x40, 0x80 + n / 0x40 % 0x40, 0x80 + n % 0x40]
  }

  function Utf8(s: string): seq<byte> {
    if s == [] then [] else Utf8(s[..|s| - 1]) + Utf8Char(s[|s| - 1])
  }

  /** The lengths that limits are about are those of the encoded text. */
  lemma {:induction false} LengthIsEncoded(s: string)
    ensures ByteLength(s) == |Utf8(s)|
  {
    if s != [] {
      LengthIsEncoded(s[..|s| - 1]);
    }
  }

  predicate IsSafe(c: char) {
    || 'a' <= c <= 'z' || 'A' <= c <= 'Z' || '0' <= c <= '9'
    || c in ['.', '_', '-', ':', '/', '=', '@', '+']
  }

  predicate AllSafe(s: string) {
    forall i :: 0 <= i < |s| ==> IsSafe(s[i])
  }

  /** The first argument and every option-like one must be on the plugin's list. */
  predicate NeedsApproval(index: nat, arg: string) {
    index == 0 || (arg != [] && (arg[0] == '-' || arg[0] == '/'))
  }

  predicate ArgAllowed(index: nat, arg: string, allowed: seq<string>) {
    && arg != [] && ByteLength(arg) <= MAX_RESUME_ARG_LEN
    && AllSafe(arg)
    && (NeedsApproval(index, arg) ==> arg in allowed)
  }

  predicate ArgsAllowed(args: seq<string>, allowed: seq<string>) {
    && |args| <= MAX_RESUME_ARGS
    && forall i :: 0 <= i < |args| ==> ArgAllowed(i, args[i], allowed)
  }

  /** Why an argument is refused. */
  function Fault(arg: string): Error {
    if arg == [] then EmptyArg
    else if ByteLength(arg) > MAX_RESUME_ARG_LEN then ArgTooLong(ByteLength(arg))
    else if !AllSafe(arg) then UnsafeArg(arg)
    else NotApproved(arg)
  }

  /** Where the first refused argument is, or how many there are. */
  function FirstBad(args: seq<string>, allowed: seq<string>, from: nat): (k: nat)
    requires from <= |args|
    ensures from <= k <= |args|
    ensures forall i :: from <= i < k ==> ArgAllowed(i, args[i], allowed)
    ensures k < |args| ==> !ArgAllowed(k, args[k], allowed)
    decreases |args| - from
  {
    if from == |args| || !ArgAllowed(from, args[from], allowed) then from
    else FirstBad(args, allowed, from + 1)
  }

  /** The command and its arguments separated by spaces, or the first thing wrong with them. */
  function LineFor(base: Option<string>, args: seq<string>, allowed: seq<string>): Line {
    if base.None? then Rejected(NoStartupCommand)
    else if |args| > MAX_RESUME_ARGS then Rejected(TooManyArgs(|args|))
    else
      var k := FirstBad(args, allowed, 0);
      if k < |args| then Rejected(Fault(args[k])) else Built(Join([base.value] + args, ' '))
  }

  method MeasureBytes(s: string) returns (n: nat)
    ensures n == ByteLength(s)
  {
    n := 0;
    for i := 0 to |s|
      invariant n == ByteLength(s[..i])
    {
      assert s[..i + 1][..i] == s[..i];
      n := n + Utf8Width(s[i]);
    }
    assert s[..|s|] == s;
  }

  lemma FaultAt(args: seq<string>, allowed: seq<string>, k: nat)
    requires k < |args| && !ArgAllowed(k, args[k], allowed)
    requires forall i :: 0 <= i < k ==> ArgAllowed(i, args[i], allowed)
    ensures FirstBad(args, allowed, 0) == k
  {
  }

  /** Builds the line word by word, checking each argument as it is appended. */
  method BuildResumeLine(base: Option<string>, args: seq<string>, allowed: seq<string>) returns (r: Line)
    ensures r == LineFor(base, args, allowed)
  {
    hide Join, ByteLength, FirstBad;
    if base.None? {
      return Rejected(NoStartupCommand);
    }
    if args == [] {
      assert [base.value] + args == [base.value];
      JoinFirst([base.value], ' ');
      return Built(base.value);
    }
    if |args| > MAX_RESUME_ARGS {
      return Rejected(TooManyArgs(|args|));
    }
    var line := base.value;
    JoinFirst([base.value], ' ');
    assert [base.value] + args[..0] == [base.value];
    var index := 0;
    while index < |args|
      invariant 0 <= index <= |args|
      invariant forall i :: 0 <= i < index ==> ArgAllowed(i, args[i], allowed)
      invariant line == Join([base.value] + args[..index], ' ')
    {
      var arg := args[index];
      if arg == [] {
        FaultAt(args, allowed, index);
        return Rejected(EmptyArg);
      }
      var bytes := MeasureBytes(arg);
      if bytes > MAX_RESUME_ARG_LEN {
        FaultAt(args, allowed, index);
        return Rejected(ArgTooLong(bytes));
      }
      if !AllSafe(arg) {
        FaultAt(args, allowed, index);
        return Rejected(UnsafeArg(arg));
      }
      if NeedsApproval(index, arg) && arg !in allowed {
        FaultAt(args, allowed, index);
        return Rejected(NotApproved(arg));
      }
      JoinSnoc([base.value] + args[..index], arg, ' ');
      assert [base.value] + args[..index] + [arg] == [base.value] + args[..index + 1];
      line := line + [' '] + arg;
      index := index + 1;
    }
    assert args[..index] == args;
    r := Built(line);
  }

  /** What follows the original command on a line. */
  function Words(base: string, line: string): (words: seq<string>)
    requires |base| <= |line|
  {
    if |line| == |base| then [] else Split(line[|base| + 1..], ' ')
  }

  /**
    A line is built exactly for an existing command and allowed arguments; it extends the
    command, and splitting the rest at its spaces gives back the arguments, unescaped and
    whole.
   */
  lemma LineHoldsArguments(base: Option<string>, args: seq<string>, allowed: seq<string>)
    ensures LineFor(base, args, allowed).Built? <==> base.Some? && ArgsAllowed(args, allowed)
    ensures ArgsAllowed(args, allowed) <==>
              |args| <= 6 && forall i :: 0 <= i < |args| ==> ArgAllowed(i, args[i], allowed)
    ensures LineFor(base, args, allowed).Built? ==>
              && base.value <= LineFor(base, args, allowed).line
              && Words(base.value, LineFor(base, args, allowed).line) == args
  {
    hide Split, Join, ByteLength;
    if base.Some? && ArgsAllowed(args, allowed) {
      forall i | 0 <= i < |args|
        ensures ' ' !in args[i]
      {
        assert ArgAllowed(i, args[i], allowed);
      }
      var line := Join([base.value] + args, ' ');
      if args == [] {
        assert [base.value] + args == [base.value];
        JoinFirst([base.value], ' ');
      } else {
        JoinFirst([base.value] + args, ' ');
        assert ([base.value] + args)[1..] == args;
        assert line[|base.value| + 1..] == Join(args, ' ');
        SplitJoin(args, ' ');
      }
    }
  }

  lemma JoinFirst(parts: seq<string>, sep: char)
    requires parts != []
    ensures Join(parts, sep) == if |parts| == 1 then parts[0] else parts[0] + [sep] + Join(parts[1..], sep)
  {
  }

  /** Letters, digits and eight signs, told by their code. */
  predicate IsLiteral(code: int) {
    || 48 <= code <= 57 || 65 <= code <= 90 || 97 <= code <= 122
    || code in {43, 45, 46, 47, 58, 61, 64, 95}
  }

  /**
    The rule for one argument, told by the codes of its characters and the bytes it encodes
    to: nothing a shell reads as more than itself, and on the plugin's list where it comes
    first or begins with a dash or a slash.
   */
  lemma ArgAllowedExactly(index: nat, arg: string, allowed: seq<string>)
    ensures ArgAllowed(index, arg, allowed) <==>
              && 1 <= |Utf8(arg)| <= 256
              && (forall i :: 0 <= i < |arg| ==> IsLiteral(arg[i] as int))
              && (index == 0 || arg[0] as int == 45 || arg[0] as int == 47 ==> arg in allowed)
  {
    LengthIsEncoded(arg);
    assert arg == [] <==> |Utf8(arg)| == 0;
    forall i | 0 <= i < |arg|
      ensures IsSafe(arg[i]) <==> IsLiteral(arg[i] as int)
    {
      SafeIsLiteral(arg[i]);
    }
  }

  lemma SafeIsLiteral(c: char)
    ensures IsSafe(c) <==> IsLiteral(c as int)
  {
  }

  /** Two different argument lists never give the same line. */
  lemma LineDeterminesArguments(base: string, a: seq<string>, b: seq<string>,
                                allowedA: seq<string>, allowedB: seq<string>)
    requires LineFor(Some(base), a, allowedA).Built?
    requires LineFor(Some(base), a, allowedA) == LineFor(Some(base), b, allowedB)
    ensures a == b
  {
    LineHoldsArguments(Some(base), a, allowedA);
    LineHoldsArguments(Some(base), b, allowedB);
  }
}
