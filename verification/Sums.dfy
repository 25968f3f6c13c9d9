/** Finite sums over sequences and over the values of a map. */
module Sums {
  ghost function Pick<T>(s: set<T>): (x: T)
    requires s != {}
    ensures x in s
  {
    var x :| x in s; x
  }

  /** The sum of the values of m. */
  ghost function SumOf<K>(m: map<K, int>): int
    decreases |m|
  {
    if m.Keys == {} then 0
    else
      var k := Pick(m.Keys);
      m[k] + SumOf(m - {k})
  }

  lemma {:induction false} SumOfMinus<K>(m: map<K, int>, k: K)
    requires k in m
    ensures SumOf(m) == m[k] + SumOf(m - {k})
    decreases |m|
  {
    var p := Pick(m.Keys);
    if p != k {
      SumOfMinus(m - {p}, k);
      SumOfMinus(m - {k}, p);
      MinusTwice(m, p, k);
    }
  }

  lemma MinusTwice<K, V>(m: map<K, V>, p: K, k: K)
    ensures m - {p} - {k} == m - {k} - {p}
  {}

  /** Storing v under k moves the sum by v minus what k held before (0 if k was absent). */
  lemma SumOfPut<K>(m: map<K, int>, k: K, v: int)
    ensures SumOf(m[k := v]) == SumOf(m) + v - (if k in m then m[k] else 0)
  {
    SumOfMinus(m[k := v], k);
    if k in m {
      SumOfMinus(m, k);
      assert m[k := v] - {k} == m - {k};
    } else {
      assert m[k := v] - {k} == m;
    }
  }

  lemma SumOfDrop<K>(m: map<K, int>, k: K)
    ensures SumOf(m - {k}) == SumOf(m) - (if k in m then m[k] else 0)
  {
    if k in m { SumOfMinus(m, k); } else { assert m - {k} == m; }
  }

  /** The sum of f over a sequence. */
  ghost function SumSeq<T>(s: seq<T>, f: T -> int): int {
    if s == [] then 0 else SumSeq(s[..|s| - 1], f) + f(s[|s| - 1])
  }

  lemma {:induction false} SumSeqConcat<T>(a: seq<T>, b: seq<T>, f: T -> int)
    ensures SumSeq(a + b, f) == SumSeq(a, f) + SumSeq(b, f)
  {
    if b == [] {
      assert a + b == a;
    } else {
      SumSeqConcat(a, b[..|b| - 1], f);
      assert (a + b)[..|a + b| - 1] == a + b[..|b| - 1];
    }
  }

  lemma SumSeqOne<T>(x: T, f: T -> int)
    ensures SumSeq([x], f) == f(x)
  {
    assert [x][..0] == [];
    assert SumSeq<T>([], f) == 0;
  }

  lemma SumSeqSnoc<T>(a: seq<T>, x: T, f: T -> int)
    ensures SumSeq(a + [x], f) == SumSeq(a, f) + f(x)
  {
    assert (a + [x])[..|a|] == a;
  }

  /** A sum does not depend on the order of its terms. */
  lemma {:induction false} SumSeqPermutes<T>(a: seq<T>, b: seq<T>, f: T -> int)
    requires multiset(a) == multiset(b)
    ensures SumSeq(a, f) == SumSeq(b, f)
    decreases |a|
  {
    assert |a| == |multiset(a)| && |b| == |multiset(b)|;
    if a != [] {
      var x := a[|a| - 1];
      assert x in multiset(b);
      var i :| 0 <= i < |b| && b[i] == x;
      assert a == a[..|a| - 1] + [x];
      assert b == b[..i] + [x] + b[i + 1..];
      assert multiset(a[..|a| - 1]) == multiset(a) - multiset{x};
      assert multiset(b[..i] + b[i + 1..]) == multiset(b) - multiset{x};
      SumSeqPermutes(a[..|a| - 1], b[..i] + b[i + 1..], f);
      SumSeqConcat(b[..i], b[i + 1..], f);
      SumSeqConcat(b[..i] + [x], b[i + 1..], f);
      SumSeqSnoc(b[..i], x, f);
    }
  }
}
