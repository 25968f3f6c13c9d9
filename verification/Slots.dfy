/** One peer set on values: its iteration order, one entry of it, and a sweep of it. */
module Slots {
  import opened Options
  import opened Ledger
  import opened Tracker

  // ---------------------------------------------------------------- iteration order

  /** Iteration meets only what is in the set. */
  predicate Listed(m: PeerMap, order: seq<string>) { forall i :: 0 <= i < |order| ==> order[i] in m }

  lemma VisitsNothing(order: seq<string>, keys: set<string>)
    requires Visits(order, keys)
    ensures order == [] <==> keys == {}
  {
    if order != [] { assert order[0] in keys; }
  }

  function IndexOf(order: seq<string>, id: string): (i: nat)
    requires id in order
    ensures i < |order| && order[i] == id
  {
    if order[0] == id then 0 else 1 + IndexOf(order[1..], id)
  }

  lemma {:induction false} IndexUnique(order: seq<string>, i: nat)
    requires i < |order| && forall a, b :: 0 <= a < b < |order| ==> order[a] != order[b]
    ensures IndexOf(order, order[i]) == i
  {}

  lemma {:induction false} WithoutVisits(order: seq<string>, id: string, keys: set<string>)
    requires Visits(order, keys)
    ensures Visits(Without(order, id), keys - {id})
  {
    if order != [] {
      var n := |order| - 1;
      var x := order[n];
      assert order == order[..n] + [x];
      assert x !in order[..n];
      assert Visits(order[..n], keys - {x}) by {
        forall y ensures y in order[..n] <==> y in keys - {x} {}
      }
      WithoutVisits(order[..n], id, keys - {x});
      var rest := Without(order[..n], id);
      assert Visits(rest, keys - {x} - {id});
      assert x !in rest;
      if x == id { assert rest + [] == rest; }
    }
  }

  lemma SameSize<K, A, B>(m: map<K, A>, n: map<K, B>)
    requires m.Keys == n.Keys
    ensures |m| == |n|
  {
    assert |m| == |m.Keys| && |n| == |n.Keys|;
  }

  // ---------------------------------------------------------------- one entry

  function WithSet(t: TorrentV, s: Slot, m: PeerMap): TorrentV {
    match s
    case Seeders => t.(seeders := m)
    case Seeders6 => t.(seeders6 := m)
    case Leechers => t.(leechers := m)
    case Leechers6 => t.(leechers6 := m)
  }

  lemma StoreFound(m: PeerMap, id: string)
    ensures Store(m, id, Find(m, id)) == m
  {}

  /** Changing one entry of a column changes one set. */
  lemma PutIsWithSet(t: TorrentV, id: string, s: Slot, o: Option<PeerV>)
    ensures WithColumn(t, id, ColumnOf(t, id).Put(s, o)) == WithSet(t, s, Store(t.Get(s), id, o))
  {
    StoreFound(t.seeders, id);
    StoreFound(t.seeders6, id);
    StoreFound(t.leechers, id);
    StoreFound(t.leechers6, id);
    hide Store, Find;
  }

  // ---------------------------------------------------------------- a sweep, set by set

  /** A sweep of one peer set. */
  datatype SlotSwept = SlotSwept(peers: PeerMap, rows: seq<PeerRow>, gone: seq<PeerV>, changed: nat)

  function SlotStep(s: SlotSwept, id: string, mode: Mode, now: int, timeout: int): SlotSwept {
    if id in s.peers && Tracker.TimedOut(s.peers[id], now, timeout) then
      var p := s.peers[id];
      SlotSwept(s.peers - {id}, s.rows + (if mode.Public? then [] else [PeerRowOf(mode, p.(active := false))]),
                s.gone + [Expired(p, mode)], s.changed + 1)
    else s
  }

  lemma StepFromEmpty(s: SlotSwept, id: string, mode: Mode, now: int, timeout: int)
    ensures var one := SlotStep(SlotSwept(s.peers, [], [], 0), id, mode, now, timeout);
            SlotStep(s, id, mode, now, timeout)
            == SlotSwept(one.peers, s.rows + one.rows, s.gone + one.gone, s.changed + one.changed)
  {}

  function SweepSlot(m: PeerMap, ids: seq<string>, mode: Mode, now: int, timeout: int): SlotSwept {
    if ids == [] then SlotSwept(m, [], [], 0)
    else SlotStep(SweepSlot(m, ids[..|ids| - 1], mode, now, timeout), ids[|ids| - 1], mode, now, timeout)
  }

  /** The peers whose last update is at most `timeout` old. */
  function Heard(m: PeerMap, now: int, timeout: int): PeerMap {
    map id | id in m && now - m[id].lastUpdate <= timeout :: m[id]
  }

  /** The row of a peer that is made inactive, with the time of its last update. */
  function InactiveRow(mode: Mode, p: PeerV): PeerRow {
    PeerRow(if mode.Private? && p.user.Some? then p.user.value.id else 0, false, p.completed, p.totalDownloaded,
            p.totalUploaded, p.left, p.upSpeed, p.downSpeed, p.corrupt, p.timespent, p.client, p.peerID, p.torrentID,
            p.ip, Some(p.lastUpdate))
  }

  lemma InactiveRowIs(mode: Mode, p: PeerV)
    ensures PeerRowOf(mode, p.(active := false)) == InactiveRow(mode, p)
  {}

  lemma StepSpares(s: SlotSwept, id: string, mode: Mode, now: int, timeout: int)
    ensures var x := SlotStep(s, id, mode, now, timeout);
            && x.changed + |x.peers| == s.changed + |s.peers|
            && forall k :: (k in x.peers <==> k in s.peers && (k != id || now - s.peers[k].lastUpdate <= timeout))
                           && (k in x.peers ==> x.peers[k] == s.peers[k])
  {
    hide PeerRowOf, Expired;
    if id in s.peers { assert s.peers == (s.peers - {id})[id := s.peers[id]]; }
  }

  lemma {:induction false} SlotSpares(m: PeerMap, ids: seq<string>, mode: Mode, now: int, timeout: int)
    ensures var s := SweepSlot(m, ids, mode, now, timeout);
            && s.changed + |s.peers| == |m|
            && forall id :: (id in s.peers <==> id in m && (id !in ids || now - m[id].lastUpdate <= timeout))
                            && (id in s.peers ==> s.peers[id] == m[id])
  {
    if ids != [] {
      var n := |ids| - 1;
      SlotSpares(m, ids[..n], mode, now, timeout);
      assert ids == ids[..n] + [ids[n]];
      StepSpares(SweepSlot(m, ids[..n], mode, now, timeout), ids[n], mode, now, timeout);
      hide SlotStep;
    }
  }

  /** A sweep that visits the whole set leaves the peers that were heard, and returns how many there are fewer. */
  lemma SlotHeard(m: PeerMap, ids: seq<string>, mode: Mode, now: int, timeout: int)
    requires Visits(ids, m.Keys)
    ensures var s := SweepSlot(m, ids, mode, now, timeout);
            s.peers == Heard(m, now, timeout) && s.changed == |m| - |s.peers|
  {
    SlotSpares(m, ids, mode, now, timeout);
    hide SweepSlot;
  }

  predicate NoTwice(keys: seq<Key>) { forall i, j :: 0 <= i < j < |keys| ==> keys[i] != keys[j] }

  lemma Distinct(a: seq<Key>, b: seq<Key>)
    requires NoTwice(a) && NoTwice(b) && forall k :: k in a ==> k !in b
    ensures NoTwice(a + b)
  {
    forall i, j | 0 <= i < j < |a + b| ensures (a + b)[i] != (a + b)[j] {
      if i < |a| <= j { assert a[i] in a && b[j - |a|] in b; }
    }
  }

  function KeysIn(s: Slot, ids: seq<string>): seq<Key> { seq(|ids|, i requires 0 <= i < |ids| => Key(s, ids[i])) }

  /** The torrent after a sweep of one of its sets. */
  function OfSlot(t: TorrentV, s: Slot, x: SlotSwept): Swept {
    Swept(WithSet(t, s, x.peers).(departed := t.departed + x.gone), x.rows, x.changed)
  }

  function SlotSweep(t: TorrentV, s: Slot, ids: seq<string>, mode: Mode, now: int, timeout: int): Swept {
    OfSlot(t, s, SweepSlot(t.Get(s), ids, mode, now, timeout))
  }

  lemma InSlot(t: TorrentV, s: Slot, x: SlotSwept)
    ensures OfSlot(t, s, x).torrent.Get(s) == x.peers
  {}

  /** Erasing a peer from its set and erasing it from the torrent are the same. */
  lemma EraseIsEvict(t: TorrentV, s: Slot, x: SlotSwept, id: string, mode: Mode, rows: seq<PeerRow>)
    requires id in x.peers
    ensures var gone := x.gone + [Expired(x.peers[id], mode)];
            && id in OfSlot(t, s, x).torrent.Get(s)
            && OfSlot(t, s, SlotSwept(x.peers - {id}, rows, gone, x.changed + 1))
               == Swept(Evict(OfSlot(t, s, x).torrent, Key(s, id), mode), rows, x.changed + 1)
  {
    hide Expired, WithColumn, ColumnOf;
    PutIsWithSet(OfSlot(t, s, x).torrent, id, s, None);
  }

  lemma {:induction false} SlotSweepIs(t: TorrentV, s: Slot, ids: seq<string>, mode: Mode, now: int, timeout: int)
    ensures SweepPeers(t, KeysIn(s, ids), mode, now, timeout) == SlotSweep(t, s, ids, mode, now, timeout)
  {
    hide PeerRowOf, Expired, OfSlot, Evict;
    if ids == [] {
      NothingSwept(t, s);
    } else {
      var n := |ids| - 1;
      SlotSweepIs(t, s, ids[..n], mode, now, timeout);
      assert KeysIn(s, ids)[..n] == KeysIn(s, ids[..n]);
      var x := SweepSlot(t.Get(s), ids[..n], mode, now, timeout);
      InSlot(t, s, x);
      OfSlotParts(t, s, x);
      if ids[n] in x.peers {
        var p := x.peers[ids[n]];
        EraseIsEvict(t, s, x, ids[n], mode,
                     x.rows + if mode.Public? then [] else [PeerRowOf(mode, p.(active := false))]);
        if mode.Public? { assert x.rows + [] == x.rows; }
      }
    }
  }

  lemma OfSlotParts(t: TorrentV, s: Slot, x: SlotSwept)
    ensures OfSlot(t, s, x).rows == x.rows && OfSlot(t, s, x).changed == x.changed
  {}

  lemma NothingSwept(t: TorrentV, s: Slot)
    ensures OfSlot(t, s, SlotSwept(t.Get(s), [], [], 0)) == Swept(t, [], 0)
  {
    assert WithSet(t, s, t.Get(s)).(departed := t.departed + []) == t;
  }

  lemma {:induction false} SweepConcat(t: TorrentV, a: seq<Key>, b: seq<Key>, mode: Mode, now: int, timeout: int)
    ensures var x := SweepPeers(t, a, mode, now, timeout);
            var y := SweepPeers(x.torrent, b, mode, now, timeout);
            SweepPeers(t, a + b, mode, now, timeout) == Swept(y.torrent, x.rows + y.rows, x.changed + y.changed)
  {
    if b == [] {
      assert a + b == a;
    } else {
      SweepConcat(t, a, b[..|b| - 1], mode, now, timeout);
      assert (a + b)[..|a + b| - 1] == a + b[..|b| - 1];
      hide PeerRowOf, Evict, Stale;
    }
  }

  function PairSweep(t: TorrentV, s: Slot, o: seq<string>, u: Slot, o': seq<string>, mode: Mode, now: int,
                     timeout: int): Swept {
    var a := SlotSweep(t, s, o, mode, now, timeout);
    var b := SlotSweep(a.torrent, u, o', mode, now, timeout);
    Swept(b.torrent, a.rows + b.rows, a.changed + b.changed)
  }

  lemma PairSweepIs(t: TorrentV, s: Slot, o: seq<string>, u: Slot, o': seq<string>, mode: Mode, now: int, timeout: int)
    ensures SweepPeers(t, KeysIn(s, o) + KeysIn(u, o'), mode, now, timeout)
            == PairSweep(t, s, o, u, o', mode, now, timeout)
  {
    SweepConcat(t, KeysIn(s, o), KeysIn(u, o'), mode, now, timeout);
    SlotSweepIs(t, s, o, mode, now, timeout);
    SlotSweepIs(SlotSweep(t, s, o, mode, now, timeout).torrent, u, o', mode, now, timeout);
    hide SlotSweep, KeysIn;
  }

  /** All four sets, in the handler's order. */
  function FourSweep(t: TorrentV, o: seq<string>, o6: seq<string>, l: seq<string>, l6: seq<string>, mode: Mode,
                     now: int, timeout: int): Swept {
    var a := PairSweep(t, Seeders, o, Seeders6, o6, mode, now, timeout);
    var b := PairSweep(a.torrent, Leechers, l, Leechers6, l6, mode, now, timeout);
    Swept(b.torrent, a.rows + b.rows, a.changed + b.changed)
  }

  lemma FourIsTwoPairs(t: TorrentV, o: seq<string>, o6: seq<string>, l: seq<string>, l6: seq<string>, mode: Mode,
                       now: int, timeout: int)
    ensures var a := PairSweep(t, Seeders, o, Seeders6, o6, mode, now, timeout);
            var b := PairSweep(a.torrent, Leechers, l, Leechers6, l6, mode, now, timeout);
            FourSweep(t, o, o6, l, l6, mode, now, timeout)
            == Swept(b.torrent, a.rows + b.rows, a.changed + b.changed)
  {}

  /** The sweeps of the four sets, one after the other, are the sweep over all their keys. */
  lemma PlanSweep(t: TorrentV, o: seq<string>, o6: seq<string>, l: seq<string>, l6: seq<string>, mode: Mode,
                  now: int, timeout: int)
    ensures SweepPeers(t, KeysIn(Seeders, o) + KeysIn(Seeders6, o6) + KeysIn(Leechers, l) + KeysIn(Leechers6, l6),
                       mode, now, timeout)
            == FourSweep(t, o, o6, l, l6, mode, now, timeout)
  {
    var k, k6, m, m6 := KeysIn(Seeders, o), KeysIn(Seeders6, o6), KeysIn(Leechers, l), KeysIn(Leechers6, l6);
    assert k + k6 + m + m6 == (k + k6) + (m + m6);
    SweepConcat(t, k + k6, m + m6, mode, now, timeout);
    PairSweepIs(t, Seeders, o, Seeders6, o6, mode, now, timeout);
    PairSweepIs(PairSweep(t, Seeders, o, Seeders6, o6, mode, now, timeout).torrent, Leechers, l, Leechers6, l6, mode,
                now, timeout);
    hide PairSweep, KeysIn;
  }
}
