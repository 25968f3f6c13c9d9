/** Ban ranges: the loop runs up from one 32-bit address to another, wrapping at 2^32. */
module Bans {
  import opened Words
  import opened Utility

  /** x is on the way up from `from` to `to`, ends included, counting modulo 2^32. */
  predicate Between(x: nat, from: nat, to: nat) { U32(x - from) <= U32(to - from) }

  /** x is an address of the interval, whose bounds are cut to 32 bits; it wraps at 2^32 if the lower is above the
      upper. */
  predicate Within(x: nat, from: nat, to: nat) {
    var low, high := from % 0x1_0000_0000, to % 0x1_0000_0000;
    x < 0x1_0000_0000 && if low <= high then low <= x <= high else x <= high || low <= x
  }

  lemma BetweenIsWithin(x: nat, from: nat, to: nat)
    requires x < 0x1_0000_0000
    ensures Between(x, U32(from), U32(to)) <==> Within(x, from, to)
  {
    Distance(x, U32(from));
    Distance(U32(to), U32(from));
  }

  /** The text is the dotted quad of an address of the interval. */
  ghost predicate Covers(from: nat, to: nat, text: string) { exists x: nat :: ReadsAs(text, x) && Within(x, from, to) }

  /** What a ban or its lifting goes over is the dotted quads of the interval, each byte in its place. */
  lemma TextsRead(from: nat, to: nat, text: string)
    ensures text in Texts(U32(from), U32(to)) <==> Covers(from, to, text)
  {
    hide ReadsAs, Long2Ip, Within, Between, U32;
    if text in Texts(U32(from), U32(to)) {
      var x: nat :| x < 0x1_0000_0000 && Between(x, U32(from), U32(to)) && text == Long2Ip(x);
      BetweenIsWithin(x, from, to);
      Long2IpReads(text, x);
    }
    if Covers(from, to, text) {
      var x: nat :| ReadsAs(text, x) && Within(x, from, to);
      Long2IpReads(text, x);
      BetweenIsWithin(x, from, to);
    }
  }

  lemma AllRead(from: nat, to: nat)
    ensures forall text :: text in Texts(U32(from), U32(to)) <==> Covers(from, to, text)
  {
    forall text ensures text in Texts(U32(from), U32(to)) <==> Covers(from, to, text) { TextsRead(from, to, text); }
  }

  /** An address is covered through its own dotted quad only. */
  lemma CoversOne(from: nat, to: nat, text: string, x: nat)
    requires ReadsAs(text, x)
    ensures Covers(from, to, text) <==> Within(x, from, to)
  {
    hide ReadsAs, Long2Ip, Within;
    Long2IpReads(text, x);
    if Covers(from, to, text) {
      var y: nat :| ReadsAs(text, y) && Within(y, from, to);
      Long2IpReads(text, y);
      Long2IpInjective(x, y);
    }
  }

  /** The texts of the addresses in the cyclic interval. */
  function Texts(from: nat, to: nat): set<string> {
    set x: nat | x < 0x1_0000_0000 && Between(x, from, to) :: Long2Ip(x)
  }

  /** Printing is injective, so an interval's texts hold exactly its addresses. */
  lemma TextsExact(x: nat, from: nat, to: nat)
    requires x < 0x1_0000_0000
    ensures Long2Ip(x) in Texts(from, to) <==> Between(x, from, to)
  {
    hide Long2Ip;
    forall y: nat | y < 0x1_0000_0000 && Long2Ip(x) == Long2Ip(y) ensures x == y { Long2IpInjective(x, y); }
  }

  /** Addresses differ by less than 2^32, so the wrap-around is at most one turn. */
  lemma Distance(x: nat, y: nat)
    requires x < 0x1_0000_0000 && y < 0x1_0000_0000
    ensures U32(x - y) == if x >= y then x - y else x - y + 0x1_0000_0000
  {}

  lemma OneUp(x: nat, from: nat, to: nat)
    requires x < 0x1_0000_0000 && from < 0x1_0000_0000 && to < 0x1_0000_0000 && from != to
    ensures U32(to - U32(from + 1)) == U32(to - from) - 1
    ensures Between(x, from, to) <==> x == from || Between(x, U32(from + 1), to)
  {
    var next := U32(from + 1);
    assert next == if from == 0xFFFF_FFFF then 0 else from + 1;
    Distance(x, from);
    Distance(to, from);
    Distance(x, next);
    Distance(to, next);
    hide U32;
  }

  lemma NextUp(from: nat, to: nat)
    requires from < 0x1_0000_0000 && to < 0x1_0000_0000
    ensures from != to ==> Texts(from, to) == {Long2Ip(from)} + Texts(U32(from + 1), to)
    ensures from == to ==> Texts(from, to) == {Long2Ip(from)}
    ensures from != to ==> U32(to - U32(from + 1)) == U32(to - from) - 1
    ensures 0 <= U32(from + 1) < 0x1_0000_0000
  {
    forall x: nat | x < 0x1_0000_0000
      ensures Between(x, from, to) <==> x == from || (from != to && Between(x, U32(from + 1), to))
    {
      if from != to { OneUp(x, from, to); } else { Distance(x, from); }
    }
    if from != to { OneUp(from, from, to); }
    hide Long2Ip, Between;
  }

  /** Banning a range bans its addresses and leaves all others as they were; lifting it with the same bounds lifts
      exactly those, and so restores a list that had none of them. */
  lemma BanRoundTrip(banned: set<string>, from: nat, to: nat, x: nat)
    requires x < 0x1_0000_0000
    ensures Long2Ip(x) in banned + Texts(from, to) <==> Long2Ip(x) in banned || Between(x, from, to)
    ensures Long2Ip(x) in banned + Texts(from, to) - Texts(from, to) <==> Long2Ip(x) in banned && !Between(x, from, to)
    ensures (forall y: nat :: y < 0x1_0000_0000 && Between(y, from, to) ==> Long2Ip(y) !in banned) <==>
            banned + Texts(from, to) - Texts(from, to) == banned
  {
    TextsExact(x, from, to);
    hide Long2Ip, Between;
    if banned + Texts(from, to) - Texts(from, to) == banned {
      forall y: nat | y < 0x1_0000_0000 && Between(y, from, to) ensures Long2Ip(y) !in banned {
        assert Long2Ip(y) in Texts(from, to);
      }
    }
  }
}
