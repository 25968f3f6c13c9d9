/** The round-robin cursor over n peers: position n is behind the last one, and from there it starts over. */
module Rotation {
  /** The indices of the next k peers from position p. */
  function Picks(n: nat, p: nat, k: nat): seq<nat>
    requires 0 < n && p <= n
    decreases k
  {
    if k == 0 then []
    else
      var first := if p == n then 0 else p;
      [first] + Picks(n, first + 1, k - 1)
  }

  /** The position after k picks. */
  function After(n: nat, p: nat, k: nat): (q: nat)
    requires 0 < n && p <= n
    ensures q <= n
    decreases k
  {
    if k == 0 then p else After(n, (if p == n then 0 else p) + 1, k - 1)
  }

  /** One more pick is the one at the position reached, and moves past it. */
  lemma {:induction false} PicksMore(n: nat, p: nat, k: nat)
    requires 0 < n && p <= n
    ensures var q := After(n, p, k);
            var next := if q == n then 0 else q;
            Picks(n, p, k + 1) == Picks(n, p, k) + [next] && After(n, p, k + 1) == next + 1
    decreases k
  {
    var first := if p == n then 0 else p;
    if k > 0 {
      PicksMore(n, first + 1, k - 1);
      assert Picks(n, p, k + 1) == [first] + Picks(n, first + 1, k);
    } else {
      assert Picks(n, p, 1) == [first] + Picks(n, first + 1, 0);
    }
  }

  /** The i-th pick of a rotation that comes round at most once. */
  lemma {:induction false} PickAt(n: nat, p: nat, k: nat, i: nat)
    requires 0 < n && p <= n && i < k <= n
    ensures |Picks(n, p, k)| == k
    ensures var start := if p == n then 0 else p;
            Picks(n, p, k)[i] == if start + i < n then start + i else start + i - n
    decreases k
  {
    var first := if p == n then 0 else p;
    if i > 0 { PickAt(n, first + 1, k - 1, i - 1); } else { PicksLength(n, p, k); }
  }

  lemma {:induction false} PicksLength(n: nat, p: nat, k: nat)
    requires 0 < n && p <= n
    ensures |Picks(n, p, k)| == k && forall i :: 0 <= i < k ==> Picks(n, p, k)[i] < n
    decreases k
  {
    if k > 0 { PicksLength(n, (if p == n then 0 else p) + 1, k - 1); }
  }

  /** From any position, up to n picks are pairwise different, and n picks in a row meet every peer exactly once. */
  lemma RotationIsFair(n: nat, p: nat, k: nat)
    requires 0 < n && p <= n && k <= n
    ensures |Picks(n, p, k)| == k && (forall i :: 0 <= i < k ==> Picks(n, p, k)[i] < n)
    ensures forall i, j :: 0 <= i < j < k ==> Picks(n, p, k)[i] != Picks(n, p, k)[j]
    ensures k == n ==> forall x: nat :: x < n ==> x in Picks(n, p, k)
  {
    PicksLength(n, p, k);
    forall i | 0 <= i < k
      ensures var start := if p == n then 0 else p;
              Picks(n, p, k)[i] == if start + i < n then start + i else start + i - n
    {
      PickAt(n, p, k, i);
    }
    if k == n {
      var start := if p == n then 0 else p;
      forall x: nat | x < n ensures x in Picks(n, p, k) {
        var i := if x >= start then x - start else x - start + n;
        assert Picks(n, p, k)[i] == x;
      }
    }
  }
}
