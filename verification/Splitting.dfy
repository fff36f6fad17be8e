/** Splitting at a separator and joining with it, inverse to each other. */
module Splitting {

  function Split<T(==)>(s: seq<T>, sep: T): (parts: seq<seq<T>>)
    ensures |parts| > 0
  {
    if s == [] then [[]]
    else
      var rest := Split(s[1..], sep);
      if s[0] == sep then [[]] + rest else [[s[0]] + rest[0]] + rest[1..]
  }

  function Join<T>(parts: seq<seq<T>>, sep: T): seq<T> {
    if parts == [] then []
    else if |parts| == 1 then parts[0]
    else parts[0] + [sep] + Join(parts[1..], sep)
  }

  lemma {:induction false} JoinSplit<T>(s: seq<T>, sep: T)
    ensures Join(Split(s, sep), sep) == s
    ensures forall i :: 0 <= i < |Split(s, sep)| ==> sep !in Split(s, sep)[i]
  {
    if s != [] {
      JoinSplit(s[1..], sep);
      var rest := Split(s[1..], sep);
      if s[0] == sep {
        assert Split(s, sep)[1..] == rest;
      } else if |rest| > 1 {
        assert Split(s, sep)[1..] == rest[1..];
        assert [s[0]] + rest[0] + [sep] + Join(rest[1..], sep) == [s[0]] + (rest[0] + [sep] + Join(rest[1..], sep));
      }
    }
  }

  /** A part without separators in front of a string joins the string's first part. */
  lemma {:induction false} SplitPrefix<T>(part: seq<T>, s: seq<T>, sep: T)
    requires sep !in part
    ensures Split(part + s, sep) == [part + Split(s, sep)[0]] + Split(s, sep)[1..]
  {
    if part == [] {
      assert part + s == s;
      assert part + Split(s, sep)[0] == Split(s, sep)[0];
    } else {
      assert (part + s)[1..] == part[1..] + s;
      SplitPrefix(part[1..], s, sep);
      assert [part[0]] + (part[1..] + Split(s, sep)[0]) == part + Split(s, sep)[0];
    }
  }

  lemma SplitNone<T>(part: seq<T>, sep: T)
    requires sep !in part
    ensures Split(part, sep) == [part]
  {
    SplitPrefix(part, [], sep);
    assert part + [] == part;
  }

  lemma SplitFirst<T>(part: seq<T>, rest: seq<T>, sep: T)
    requires sep !in part
    ensures Split(part + [sep] + rest, sep) == [part] + Split(rest, sep)
  {
    var tail := [sep] + rest;
    assert tail[1..] == rest;
    assert part + [sep] + rest == part + tail;
    SplitPrefix(part, tail, sep);
    assert part + [] == part;
  }

  lemma {:induction false} SplitJoin<T>(parts: seq<seq<T>>, sep: T)
    requires parts != []
    requires forall i :: 0 <= i < |parts| ==> sep !in parts[i]
    ensures Split(Join(parts, sep), sep) == parts
  {
    hide Split;
    if |parts| == 1 {
      SplitNone(parts[0], sep);
    } else {
      SplitJoin(parts[1..], sep);
      SplitFirst(parts[0], Join(parts[1..], sep), sep);
    }
  }

  lemma {:induction false} JoinSnoc<T>(parts: seq<seq<T>>, last: seq<T>, sep: T)
    requires parts != []
    ensures Join(parts + [last], sep) == Join(parts, sep) + [sep] + last
  {
    if |parts| == 1 {
      assert (parts + [last])[1..] == [last];
    } else {
      assert (parts + [last])[1..] == parts[1..] + [last];
      JoinSnoc(parts[1..], last, sep);
      assert parts[0] + [sep] + (Join(parts[1..], sep) + [sep] + last)
          == parts[0] + [sep] + Join(parts[1..], sep) + [sep] + last;
    }
  }
}
