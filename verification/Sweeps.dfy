/** What a sweep of timed-out peers removes, and what it can never remove. */
module Sweeps {
  import opened Words
  import opened Options
  import opened Ledger
  import opened Tracker
  import opened Shape
  import opened Conservation
  import opened Commute
  import opened Slots

  // ---------------------------------------------------------------- one torrent

  lemma EvictGet(t: TorrentV, k: Key, mode: Mode, x: Key)
    requires k.id in t.Get(k.slot)
    ensures Find(Evict(t, k, mode).Get(x.slot), x.id) == if x == k then None else Find(t.Get(x.slot), x.id)
  {
    var c := ColumnOf(t, k.id).Put(k.slot, None);
    WithColumnGet(t, k.id, c, x.slot);
    ColumnGet(t, Key(x.slot, k.id));
    assert c.Get(x.slot) == if x.slot == k.slot then None else ColumnOf(t, k.id).Get(x.slot);
    hide WithColumn, ColumnOf;
  }

  lemma WithColumnGet(t: TorrentV, id: string, c: Column, s: Slot)
    ensures WithColumn(t, id, c).Get(s) == Store(t.Get(s), id, c.Get(s))
  {
    hide Store;
  }

  /** The keys of the timed-out peers, in the order they are visited. */
  function StaleKeys(t: TorrentV, keys: seq<Key>, now: int, timeout: int): seq<Key> {
    if keys == [] then []
    else
      var earlier := StaleKeys(t, keys[..|keys| - 1], now, timeout);
      var k := keys[|keys| - 1];
      if k.id in t.Get(k.slot) && now - t.Get(k.slot)[k.id].lastUpdate > timeout then earlier + [k] else earlier
  }

  function InactiveRows(t: TorrentV, keys: seq<Key>, mode: Mode): seq<PeerRow>
    requires forall i :: 0 <= i < |keys| ==> keys[i].id in t.Get(keys[i].slot)
  {
    seq(|keys|, i requires 0 <= i < |keys| => InactiveRow(mode, t.Get(keys[i].slot)[keys[i].id]))
  }

  lemma {:induction false} StaleKeysAre(t: TorrentV, keys: seq<Key>, now: int, timeout: int)
    ensures forall k :: k in StaleKeys(t, keys, now, timeout) <==> k in keys && Stale(t, k, now, timeout)
  {
    if keys != [] {
      StaleKeysAre(t, keys[..|keys| - 1], now, timeout);
      assert keys == keys[..|keys| - 1] + [keys[|keys| - 1]];
    }
  }

  lemma {:induction false} StaleOnce(t: TorrentV, keys: seq<Key>, now: int, timeout: int)
    requires NoTwice(keys)
    ensures NoTwice(StaleKeys(t, keys, now, timeout))
  {
    if keys != [] {
      var n := |keys| - 1;
      StaleOnce(t, keys[..n], now, timeout);
      StaleKeysAre(t, keys[..n], now, timeout);
      assert keys[n] !in keys[..n];
    }
  }

  /** s is t after the peers at `keys` were visited: those whose last update is more than `timeout` old are erased and
      no others, the rest are as they were, as many changed as were erased and, unless the tracker is public, each is
      recorded once as inactive. */
  ghost predicate Exact(t: TorrentV, keys: seq<Key>, mode: Mode, now: int, timeout: int, s: Swept) {
    var stale := StaleKeys(t, keys, now, timeout);
    && (forall k :: k in stale
                    <==> k in keys && k.id in t.Get(k.slot) && now - t.Get(k.slot)[k.id].lastUpdate > timeout)
    && (forall k: Key :: Find(s.torrent.Get(k.slot), k.id) == if k in stale then None else Find(t.Get(k.slot), k.id))
    && s.changed == |stale|
    && s.rows == if mode.Public? then [] else InactiveRows(t, stale, mode)
  }

  /** Visiting each peer at most once, the sweep is exact. */
  lemma {:induction false} SweepPeersExact(t: TorrentV, keys: seq<Key>, mode: Mode, now: int, timeout: int)
    requires forall i, j :: 0 <= i < j < |keys| ==> keys[i] != keys[j]
    ensures Exact(t, keys, mode, now, timeout, SweepPeers(t, keys, mode, now, timeout))
    ensures NoTwice(StaleKeys(t, keys, now, timeout))
  {
    StaleOnce(t, keys, now, timeout);
    hide Exact, Evict, Stale, PeerRowOf;
    if keys == [] {
      NothingVisited(t, mode, now, timeout);
    } else {
      var n := |keys| - 1;
      SweepPeersExact(t, keys[..n], mode, now, timeout);
      var s := SweepPeers(t, keys[..n], mode, now, timeout);
      if Stale(s.torrent, keys[n], now, timeout) {
        VisitErases(t, keys, mode, now, timeout, s);
      } else {
        VisitSpares(t, keys, mode, now, timeout, s);
      }
    }
  }

  lemma NothingVisited(t: TorrentV, mode: Mode, now: int, timeout: int)
    ensures Exact(t, [], mode, now, timeout, Swept(t, [], 0))
  {}

  lemma LastVisit(t: TorrentV, keys: seq<Key>, mode: Mode, now: int, timeout: int, s: Swept)
    requires keys != [] && keys[|keys| - 1] !in keys[..|keys| - 1]
             && Exact(t, keys[..|keys| - 1], mode, now, timeout, s)
    ensures var x := keys[|keys| - 1];
            Find(s.torrent.Get(x.slot), x.id) == Find(t.Get(x.slot), x.id)
            && (Stale(s.torrent, x, now, timeout) <==> Stale(t, x, now, timeout))
  {
    var x := keys[|keys| - 1];
    assert x !in StaleKeys(t, keys[..|keys| - 1], now, timeout);
    assert Find(s.torrent.Get(x.slot), x.id) == Find(t.Get(x.slot), x.id);
  }

  lemma VisitErases(t: TorrentV, keys: seq<Key>, mode: Mode, now: int, timeout: int, s: Swept)
    requires keys != [] && keys[|keys| - 1] !in keys[..|keys| - 1]
             && Exact(t, keys[..|keys| - 1], mode, now, timeout, s)
    requires Stale(s.torrent, keys[|keys| - 1], now, timeout)
    ensures var x := keys[|keys| - 1];
            var row := PeerRowOf(mode, s.torrent.Get(x.slot)[x.id].(active := false));
            Exact(t, keys, mode, now, timeout,
                  Swept(Evict(s.torrent, x, mode), if mode.Public? then s.rows else s.rows + [row], s.changed + 1))
  {
    hide PeerRowOf, Evict, Exact, Stale, Find;
    LastVisit(t, keys, mode, now, timeout, s);
    StaleIsIn(t, keys[|keys| - 1], now, timeout);
    StaleIsIn(s.torrent, keys[|keys| - 1], now, timeout);
    SameEntry(s.torrent, t, keys[|keys| - 1]);
    forall k: Key { EvictGet(s.torrent, keys[|keys| - 1], mode, k); }
    OneErased(t, keys, mode, now, timeout, s, Evict(s.torrent, keys[|keys| - 1], mode));
  }

  lemma StaleIsIn(t: TorrentV, x: Key, now: int, timeout: int)
    requires Stale(t, x, now, timeout)
    ensures x.id in t.Get(x.slot)
  {}

  lemma SameEntry(a: TorrentV, b: TorrentV, x: Key)
    requires Find(a.Get(x.slot), x.id) == Find(b.Get(x.slot), x.id) && x.id in b.Get(x.slot)
    ensures x.id in a.Get(x.slot) && a.Get(x.slot)[x.id] == b.Get(x.slot)[x.id]
  {}

  lemma OneErased(t: TorrentV, keys: seq<Key>, mode: Mode, now: int, timeout: int, s: Swept, t': TorrentV)
    requires keys != [] && keys[|keys| - 1] !in keys[..|keys| - 1]
             && Exact(t, keys[..|keys| - 1], mode, now, timeout, s)
    requires var x := keys[|keys| - 1];
             && Stale(t, x, now, timeout) && x.id in t.Get(x.slot)
             && forall k: Key :: Find(t'.Get(k.slot), k.id) == if k == x then None
                else Find(s.torrent.Get(k.slot), k.id)
    ensures var x := keys[|keys| - 1];
            var row := PeerRowOf(mode, t.Get(x.slot)[x.id].(active := false));
            Exact(t, keys, mode, now, timeout,
                  Swept(t', if mode.Public? then s.rows else s.rows + [row], s.changed + 1))
  {
    hide PeerRowOf, Find, InactiveRow, Stale, InactiveRows;
    var x := keys[|keys| - 1];
    InactiveRowIs(mode, t.Get(x.slot)[x.id]);
    StaleIsLate(t, x, now, timeout);
    StaleKeysAre(t, keys, now, timeout);
    forall k ensures Stale(t, k, now, timeout)
                     <==> k.id in t.Get(k.slot) && now - t.Get(k.slot)[k.id].lastUpdate > timeout
    {
      StaleIsLate(t, k, now, timeout);
    }
    RowsMore(t, StaleKeys(t, keys[..|keys| - 1], now, timeout), x, mode);
  }

  lemma StaleIsLate(t: TorrentV, k: Key, now: int, timeout: int)
    ensures Stale(t, k, now, timeout) <==> k.id in t.Get(k.slot) && now - t.Get(k.slot)[k.id].lastUpdate > timeout
  {}

  lemma RowsMore(t: TorrentV, keys: seq<Key>, x: Key, mode: Mode)
    requires forall k :: k in keys ==> k.id in t.Get(k.slot)
    requires x.id in t.Get(x.slot)
    ensures forall i :: 0 <= i < |keys| ==> keys[i].id in t.Get(keys[i].slot)
    ensures InactiveRows(t, keys + [x], mode) == InactiveRows(t, keys, mode) + [InactiveRow(mode, t.Get(x.slot)[x.id])]
  {
    hide InactiveRow;
    forall i | 0 <= i < |keys| ensures keys[i].id in t.Get(keys[i].slot) { assert keys[i] in keys; }
  }

  lemma VisitSpares(t: TorrentV, keys: seq<Key>, mode: Mode, now: int, timeout: int, s: Swept)
    requires keys != [] && keys[|keys| - 1] !in keys[..|keys| - 1]
             && Exact(t, keys[..|keys| - 1], mode, now, timeout, s)
    requires !Stale(s.torrent, keys[|keys| - 1], now, timeout)
    ensures Exact(t, keys, mode, now, timeout, s)
  {
    LastVisit(t, keys, mode, now, timeout, s);
    StaleKeysAre(t, keys, now, timeout);
  }

  // ---------------------------------------------------------------- all torrents

  /** One torrent's turn changes no other torrent. */
  lemma TurnIsLocal(w: World, turn: Turn, now: int, ih: string)
    requires turn.infoHash in w.torrents
    ensures var w' := SweepTorrent(w, turn, now);
            var s := SweepPeers(w.torrents[turn.infoHash], turn.keys, w.mode, now, w.timeout);
            && w'.mode == w.mode && w'.timeout == w.timeout
            && (ih != turn.infoHash ==>
                  (ih in w'.torrents <==> ih in w.torrents) && (ih in w.torrents ==> w'.torrents[ih] == w.torrents[ih]))
            && (ih == turn.infoHash ==>
                  (ih in w'.torrents <==> !(w.mode.Public? && Empty(s.torrent)))
                  && (ih in w'.torrents ==> w'.torrents[ih] == s.torrent))
  {
    hide SweepPeers, Empty, TorrentRowOf;
  }

  /** After the turns so far, a visited torrent is what its own sweep made of it, and any other is untouched. */
  lemma {:induction false} SweepEach(w: World, plan: seq<Turn>, now: int, ih: string)
    requires forall i, j :: 0 <= i < j < |plan| ==> plan[i].infoHash != plan[j].infoHash
    requires ih in w.torrents
    ensures var w' := Sweep(w, plan, now);
            && w'.mode == w.mode && w'.timeout == w.timeout
            && ((forall i :: 0 <= i < |plan| ==> plan[i].infoHash != ih) ==>
                  ih in w'.torrents && w'.torrents[ih] == w.torrents[ih])
            && (forall i :: 0 <= i < |plan| && plan[i].infoHash == ih ==>
                  var s := SweepPeers(w.torrents[ih], plan[i].keys, w.mode, now, w.timeout);
                  && (ih in w'.torrents <==> !(w.mode.Public? && Empty(s.torrent)))
                  && (ih in w'.torrents ==> w'.torrents[ih] == s.torrent))
  {
    hide SweepPeers, Empty, SweepTorrent;
    if plan != [] {
      var n := |plan| - 1;
      SweepEach(w, plan[..n], now, ih);
      var w1 := Sweep(w, plan[..n], now);
      if plan[n].infoHash in w1.torrents { TurnIsLocal(w1, plan[n], now, ih); }
    }
  }

  /** What a sweep leaves of a torrent: in each set, exactly the peers whose last update is at most `timeout` old. */
  ghost predicate LeftOf(t: TorrentV, t': TorrentV, now: int, timeout: int) {
    && t'.seeders == Heard(t.seeders, now, timeout) && t'.seeders6 == Heard(t.seeders6, now, timeout)
    && t'.leechers == Heard(t.leechers, now, timeout) && t'.leechers6 == Heard(t.leechers6, now, timeout)
    && t'.id == t.id && t'.free == t.free && t'.snatches == t.snatches && t'.balance == t.balance
  }

  /** What a sweep promises of one torrent: it stays with the peers that were heard, but for a public tracker's torrent
      without such a peer. */
  ghost predicate SweptRight(w: World, w': World, now: int, ih: string)
    requires ih in w.torrents
  {
    var t := w.torrents[ih];
    && (ih in w'.torrents <==>
          !w.mode.Public? || exists k: Key :: k.id in t.Get(k.slot)
                                              && now - t.Get(k.slot)[k.id].lastUpdate <= w.timeout)
    && (ih in w'.torrents ==> LeftOf(t, w'.torrents[ih], now, w.timeout))
  }

  lemma TurnErases(t: TorrentV, keys: seq<Key>, mode: Mode, now: int, timeout: int)
    requires VisitsPeers(keys, t)
    ensures LeftOf(t, SweepPeers(t, keys, mode, now, timeout).torrent, now, timeout)
  {
    SweepPeersExact(t, keys, mode, now, timeout);
    SweepKeepsFigures(t, keys, mode, now, timeout);
    var s := SweepPeers(t, keys, mode, now, timeout);
    SetLeft(t, keys, mode, now, timeout, s, Seeders);
    SetLeft(t, keys, mode, now, timeout, s, Seeders6);
    SetLeft(t, keys, mode, now, timeout, s, Leechers);
    SetLeft(t, keys, mode, now, timeout, s, Leechers6);
    hide Exact, Heard, SweepPeers;
  }

  lemma SetLeft(t: TorrentV, keys: seq<Key>, mode: Mode, now: int, timeout: int, s: Swept, u: Slot)
    requires VisitsPeers(keys, t) && Exact(t, keys, mode, now, timeout, s)
    ensures s.torrent.Get(u) == Heard(t.Get(u), now, timeout)
  {
    var m, m' := t.Get(u), s.torrent.Get(u);
    var stale := StaleKeys(t, keys, now, timeout);
    forall id ensures id in m' <==> id in m && now - m[id].lastUpdate <= timeout
              ensures id in m' ==> m'[id] == m[id]
    {
      var k := Key(u, id);
      assert Find(m', id) == if k in stale then None else Find(m, id);
      assert k in stale <==> k in keys && id in m && now - m[id].lastUpdate > timeout;
    }
  }

  lemma {:induction false} SweepKeepsFigures(t: TorrentV, keys: seq<Key>, mode: Mode, now: int, timeout: int)
    ensures var t' := SweepPeers(t, keys, mode, now, timeout).torrent;
            t'.id == t.id && t'.free == t.free && t'.snatches == t.snatches && t'.balance == t.balance
  {
    if keys != [] {
      SweepKeepsFigures(t, keys[..|keys| - 1], mode, now, timeout);
      hide PeerRowOf, Store, ColumnOf;
    }
  }

  lemma TurnIsRight(w: World, w': World, ih: string, t': TorrentV, now: int)
    requires ih in w.torrents && LeftOf(w.torrents[ih], t', now, w.timeout)
    requires ih in w'.torrents <==> !(w.mode.Public? && Empty(t'))
    requires ih in w'.torrents ==> w'.torrents[ih] == t'
    ensures SweptRight(w, w', now, ih)
  {
    NotEmpty(t');
    var t := w.torrents[ih];
    forall k: Key
      ensures k.id in t'.Get(k.slot) <==> k.id in t.Get(k.slot) && now - t.Get(k.slot)[k.id].lastUpdate <= w.timeout
    {}
    hide Empty, LeftOf;
  }

  // ---------------------------------------------------------------- the rows of a sweep

  /** What one torrent's turn records of its peers: each that timed out, once, as inactive. */
  function TurnPeerRows(w: World, turn: Turn, now: int): seq<PeerRow> {
    if w.mode.Public? || turn.infoHash !in w.torrents then []
    else
      var t := w.torrents[turn.infoHash];
      var stale := StaleKeys(t, turn.keys, now, w.timeout);
      StaleKeysAre(t, turn.keys, now, w.timeout);
      assert forall i :: 0 <= i < |stale| ==> stale[i] in stale;
      InactiveRows(t, stale, w.mode)
  }

  /** And of the torrent: once, as it is without them, if there were any. */
  function TurnTorrentRows(w: World, turn: Turn, now: int): seq<TorrentRow> {
    if w.mode.Public? || turn.infoHash !in w.torrents then []
    else
      var t := w.torrents[turn.infoHash];
      if StaleKeys(t, turn.keys, now, w.timeout) == [] then []
      else [TorrentRow(t.id, |Heard(t.seeders, now, w.timeout)| + |Heard(t.seeders6, now, w.timeout)|,
                       |Heard(t.leechers, now, w.timeout)| + |Heard(t.leechers6, now, w.timeout)|, t.snatches,
                       t.balance)]
  }

  function PlanPeerRows(w: World, plan: seq<Turn>, now: int): seq<PeerRow> {
    if plan == [] then [] else PlanPeerRows(w, plan[..|plan| - 1], now) + TurnPeerRows(w, plan[|plan| - 1], now)
  }

  function PlanTorrentRows(w: World, plan: seq<Turn>, now: int): seq<TorrentRow> {
    if plan == [] then [] else PlanTorrentRows(w, plan[..|plan| - 1], now) + TurnTorrentRows(w, plan[|plan| - 1], now)
  }

  lemma TurnRecords(w: World, turn: Turn, now: int)
    requires turn.infoHash in w.torrents && VisitsPeers(turn.keys, w.torrents[turn.infoHash])
    ensures SweepTorrent(w, turn, now).peerLog == w.peerLog + TurnPeerRows(w, turn, now)
    ensures SweepTorrent(w, turn, now).torrentLog == w.torrentLog + TurnTorrentRows(w, turn, now)
  {
    hide InactiveRows, Heard, Exact, LeftOf, TorrentRowOf, SweepPeers, Close;
    var t := w.torrents[turn.infoHash];
    var s := SweepPeers(t, turn.keys, w.mode, now, w.timeout);
    SweepPeersExact(t, turn.keys, w.mode, now, w.timeout);
    TurnErases(t, turn.keys, w.mode, now, w.timeout);
    RowLeft(t, s.torrent, now, w.timeout);
    SweptRows(t, turn.keys, w.mode, now, w.timeout, s);
    CloseLogs(w, turn.infoHash, s);
  }

  lemma CloseLogs(w: World, ih: string, s: Swept)
    requires ih in w.torrents
    ensures Close(w, ih, s).peerLog == w.peerLog + s.rows
    ensures Close(w, ih, s).torrentLog
         == w.torrentLog + if w.mode.Public? || s.changed == 0 then [] else [TorrentRowOf(s.torrent)]
  {
    hide Empty, TorrentRowOf;
  }

  lemma RowLeft(t: TorrentV, t': TorrentV, now: int, timeout: int)
    requires LeftOf(t, t', now, timeout)
    ensures TorrentRowOf(t')
         == TorrentRow(t.id, |Heard(t.seeders, now, timeout)| + |Heard(t.seeders6, now, timeout)|,
                       |Heard(t.leechers, now, timeout)| + |Heard(t.leechers6, now, timeout)|, t.snatches, t.balance)
  {
    hide Heard;
  }

  lemma SweptRows(t: TorrentV, keys: seq<Key>, mode: Mode, now: int, timeout: int, s: Swept)
    requires Exact(t, keys, mode, now, timeout, s)
    ensures var stale := StaleKeys(t, keys, now, timeout);
            && (forall i :: 0 <= i < |stale| ==> stale[i].id in t.Get(stale[i].slot))
            && s.rows == (if mode.Public? then [] else InactiveRows(t, stale, mode))
            && (s.changed > 0 <==> stale != [])
  {
    hide InactiveRow;
    var stale := StaleKeys(t, keys, now, timeout);
    forall i | 0 <= i < |stale| ensures stale[i].id in t.Get(stale[i].slot) { assert stale[i] in stale; }
  }

  lemma SameTurnRows(w: World, w': World, turn: Turn, now: int)
    requires w'.mode == w.mode && w'.timeout == w.timeout
    requires turn.infoHash in w.torrents && turn.infoHash in w'.torrents
    requires w'.torrents[turn.infoHash] == w.torrents[turn.infoHash]
    ensures TurnPeerRows(w', turn, now) == TurnPeerRows(w, turn, now)
    ensures TurnTorrentRows(w', turn, now) == TurnTorrentRows(w, turn, now)
  {
    hide Heard, InactiveRows;
  }

  /** The rows recorded are those of the turns, each as its torrent was before the sweep. */
  lemma {:induction false} SweepRecords(w: World, plan: seq<Turn>, now: int)
    requires forall i, j :: 0 <= i < j < |plan| ==> plan[i].infoHash != plan[j].infoHash
    requires forall i :: 0 <= i < |plan| ==>
      plan[i].infoHash in w.torrents && VisitsPeers(plan[i].keys, w.torrents[plan[i].infoHash])
    ensures Sweep(w, plan, now).peerLog == w.peerLog + PlanPeerRows(w, plan, now)
    ensures Sweep(w, plan, now).torrentLog == w.torrentLog + PlanTorrentRows(w, plan, now)
  {
    hide VisitsPeers, SweepTorrent, TurnPeerRows, TurnTorrentRows;
    if plan != [] {
      var n := |plan| - 1;
      var w1 := Sweep(w, plan[..n], now);
      SweepRecords(w, plan[..n], now);
      SweepEach(w, plan[..n], now, plan[n].infoHash);
      TurnRecords(w1, plan[n], now);
      SameTurnRows(w, w1, plan[n], now);
    }
  }

  /**
   * A sweep over all torrents erases exactly the peers whose last update is more than `timeout` old, wherever they
   * are, and leaves every other peer as it was; a public tracker keeps no torrent without peers, any other keeps all;
   * and each erased peer is recorded once as inactive, each torrent that lost one once, unless the tracker is public.
   */
  lemma SweepIsExact(w: World, plan: seq<Turn>, now: int)
    requires SweepPlan(w, plan)
    ensures forall ih :: ih in w.torrents ==> SweptRight(w, Sweep(w, plan, now), now, ih)
    ensures Sweep(w, plan, now).peerLog == w.peerLog + PlanPeerRows(w, plan, now)
    ensures Sweep(w, plan, now).torrentLog == w.torrentLog + PlanTorrentRows(w, plan, now)
  {
    SweepRecords(w, plan, now);
    hide SweptRight, Empty, VisitsPeers, LeftOf;
    forall ih | ih in w.torrents ensures SweptRight(w, Sweep(w, plan, now), now, ih) {
      var i :| 0 <= i < |plan| && plan[i].infoHash == ih;
      SweepEach(w, plan, now, ih);
      TurnErases(w.torrents[ih], plan[i].keys, w.mode, now, w.timeout);
      TurnIsRight(w, Sweep(w, plan, now), ih, SweepPeers(w.torrents[ih], plan[i].keys, w.mode, now, w.timeout).torrent,
                  now);
    }
  }

  lemma NotEmpty(t: TorrentV)
    ensures Empty(t) <==> forall k: Key :: k.id !in t.Get(k.slot)
  {
    if !Empty(t) {
      var s :| t.Get(s) != map[] by {
        assert t.Get(Seeders) == t.seeders && t.Get(Seeders6) == t.seeders6;
        assert t.Get(Leechers) == t.leechers && t.Get(Leechers6) == t.leechers6;
      }
      var id :| id in t.Get(s);
      assert Key(s, id).id in t.Get(Key(s, id).slot);
    } else {
      forall k: Key ensures k.id !in t.Get(k.slot) {}
    }
  }
}
