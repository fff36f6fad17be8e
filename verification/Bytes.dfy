/** Bytes, pane ids, optional values, and the few facts about sequences every component uses. */
module Bytes {

  type byte = b: int | 0 <= b < 256

  /** Pane ids are 32-bit numbers. */
  type PaneId = p: int | 0 <= p < 0x1_0000_0000

  const USIZE_MAX: nat := 0xFFFF_FFFF_FFFF_FFFF

  datatype Option<+T> = None | Some(value: T)

  function Min(a: int, b: int): int {
    if a <= b then a else b
  }

  function Max(a: int, b: int): int {
    if a <= b then b else a
  }

  function Pow256(width: nat): nat {
    if width == 0 then 1 else 0x100 * Pow256(width - 1)
  }

  lemma Pow256Word()
    ensures Pow256(4) == 0x1_0000_0000
  {
    assert Pow256(2) == 0x100 * (0x100 * Pow256(0));
  }

  /** The parts laid end to end. */
  function Concat<T>(parts: seq<seq<T>>): seq<T> {
    if parts == [] then [] else parts[0] + Concat(parts[1..])
  }

  lemma {:induction false} ConcatAppend<T>(a: seq<seq<T>>, b: seq<seq<T>>)
    ensures Concat(a + b) == Concat(a) + Concat(b)
  {
    if a == [] {
      assert a + b == b;
    } else {
      assert (a + b)[1..] == a[1..] + b;
      ConcatAppend(a[1..], b);
    }
  }

  lemma ConcatOne<T>(part: seq<T>)
    ensures Concat([part]) == part
  {
    assert Concat([part]) == part + Concat<T>([]);
  }

  lemma ConcatSnoc<T>(parts: seq<seq<T>>, last: seq<T>)
    ensures Concat(parts + [last]) == Concat(parts) + last
  {
    ConcatAppend(parts, [last]);
    ConcatOne(last);
  }

  lemma CancelPrefix<T>(a: seq<T>, x: seq<T>, y: seq<T>)
    requires a + x == a + y
    ensures x == y
  {
    assert x == (a + x)[|a|..];
    assert y == (a + y)[|a|..];
  }

  /** The sum of a weight over the values of a finite map. */
  ghost function Sum<K, V>(m: map<K, V>, weight: V -> nat): nat {
    if m == map[] then 0
    else
      var k :| k in m;
      weight(m[k]) + Sum(m - {k}, weight)
  }

  /** The sum does not depend on which key is counted first. */
  lemma {:induction false} SumRemove<K, V>(m: map<K, V>, weight: V -> nat, k: K)
    requires k in m
    ensures Sum(m, weight) == weight(m[k]) + Sum(m - {k}, weight)
    decreases |m|
  {
    var first :| first in m && Sum(m, weight) == weight(m[first]) + Sum(m - {first}, weight);
    if first != k {
      SumRemove(m - {first}, weight, k);
      SumRemove(m - {k}, weight, first);
      assert m - {first} - {k} == m - {k} - {first};
    }
  }

  lemma SumUpdate<K, V>(m: map<K, V>, weight: V -> nat, k: K, v: V)
    ensures k in m ==> Sum(m[k := v], weight) + weight(m[k]) == Sum(m, weight) + weight(v)
    ensures k !in m ==> Sum(m[k := v], weight) == Sum(m, weight) + weight(v)
  {
    SumRemove(m[k := v], weight, k);
    assert m[k := v] - {k} == m - {k};
    if k in m {
      SumRemove(m, weight, k);
    } else {
      assert m - {k} == m;
    }
  }
}
