/** Run-long facts about membership: the torrent count of a public tracker, and leechers that keep announcing. */
module Liveness {
  import opened Words
  import opened Options
  import opened Ledger
  import opened Tracker
  import opened Shape
  import opened Conservation
  import opened Commute
  import opened Sweeps

  // ---------------------------------------------------------------- the torrent count

  predicate Counts(w: World) { w.stats.torrents == U64(|w.torrents|) }

  predicate PublicStep(s: Step) { s.DoAnnounce? || s.DoSweep? }

  lemma Sizes<K, V>(m: map<K, V>, k: K, v: V)
    ensures |m[k := v]| == if k in m then |m| else |m| + 1
    ensures |m - {k}| == if k in m then |m| - 1 else |m|
  {
    assert (m - {k}).Keys == m.Keys - {k} && m[k := v].Keys == m.Keys + {k};
    assert |m[k := v]| == |m[k := v].Keys| && |m - {k}| == |(m - {k}).Keys| && |m| == |m.Keys|;
  }

  lemma EnterCounts(w: World, r: Announcement)
    requires w.mode.Public? && Counts(w)
    ensures Enter(w, r).mode.Public? && Counts(Enter(w, r)) && r.infoHash in Enter(w, r).torrents
  {
    Sizes(w.torrents, r.infoHash, NewTorrent(U32(w.stats.torrents), 0));
    WrapPlus(|w.torrents|, 1);
    hide U64;
  }

  lemma BookCounts(w: World, r: Announcement, v: Visit)
    requires w.mode.Public? && Counts(w) && r.infoHash in w.torrents
    ensures Book(w, r, v).mode.Public? && Counts(Book(w, r, v))
  {
    hide TorrentAfter, U64;
    Sizes(w.torrents, r.infoHash, TorrentAfter(w.torrents[r.infoHash], r, v));
  }

  lemma AnnounceCounts(w: World, r: Announcement)
    requires w.mode.Public? && Counts(w)
    ensures Announce(w, r).mode.Public? && Counts(Announce(w, r))
  {
    hide Counts, Enter, Book, VisitOf, Refusal;
    EnterCounts(w, r);
    var e := Enter(w, r);
    BookCounts(e, r, VisitOf(e, e.torrents[r.infoHash], r));
  }

  lemma CloseCounts(w: World, ih: string, s: Swept)
    requires w.mode.Public? && Counts(w) && ih in w.torrents
    ensures Close(w, ih, s).mode.Public? && Counts(Close(w, ih, s))
  {
    Sizes(w.torrents, ih, s.torrent);
    Sizes(w.torrents[ih := s.torrent], ih, s.torrent);
    WrapPlus(|w.torrents|, -1);
    hide Empty, U64;
  }

  lemma {:induction false} SweepCounts(w: World, plan: seq<Turn>, now: int)
    requires w.mode.Public? && Counts(w)
    ensures Sweep(w, plan, now).mode.Public? && Counts(Sweep(w, plan, now))
  {
    if plan != [] {
      var turn := plan[|plan| - 1];
      var w1 := Sweep(w, plan[..|plan| - 1], now);
      SweepCounts(w, plan[..|plan| - 1], now);
      if turn.infoHash in w1.torrents {
        CloseCounts(w1, turn.infoHash, SweepPeers(w1.torrents[turn.infoHash], turn.keys, w1.mode, now, w1.timeout));
      }
    }
  }

  /** On a public tracker the torrent statistic is the size of the torrent map after every run. */
  lemma {:induction false} RunCounts(w: World, steps: seq<Step>)
    requires w.mode.Public? && Counts(w) && forall i :: 0 <= i < |steps| ==> PublicStep(steps[i])
    ensures Run(w, steps).mode.Public? && Counts(Run(w, steps))
  {
    if steps != [] {
      var w1 := Run(w, steps[..|steps| - 1]);
      RunCounts(w, steps[..|steps| - 1]);
      match steps[|steps| - 1]
      case DoAnnounce(r) => AnnounceCounts(w1, r);
      case DoSweep(plan, now) => SweepCounts(w1, plan, now);
    }
  }

  // ---------------------------------------------------------------- live leechers

  /** The announces of one leecher: its torrent, its peer id, its address family. */
  datatype Leecher = Leecher(infoHash: string, peerID: string, ipv6: bool) {
    function Key(): Key { Tracker.Key(if ipv6 then Leechers6 else Leechers, peerID) }

    predicate Sends(r: Announcement) { r.infoHash == infoHash && r.peerID == peerID }
  }

  /** When the leecher was last heard: its latest accepted announce of its own family, or `first`. */
  function LastHeard(w: World, steps: seq<Step>, x: Leecher, first: int): int {
    if steps == [] then first
    else
      var earlier := steps[..|steps| - 1];
      var s := steps[|steps| - 1];
      if s.DoAnnounce? && x.Sends(s.r) && s.r.ipv6 == x.ipv6 && Refusal(Run(w, earlier), s.r).None? then s.r.now
      else LastHeard(w, earlier, x, first)
  }

  /** Its announces say something is left and neither stop nor complete; every sweep comes within `timeout` of the
      last one; its torrent is not deleted. Nothing is asked of other peers and users. */
  predicate StaysInTouch(w: World, steps: seq<Step>, x: Leecher, first: int) {
    steps == [] ||
    var earlier := steps[..|steps| - 1];
    StaysInTouch(w, earlier, x, first) &&
    match steps[|steps| - 1]
    case DoAnnounce(r) => x.Sends(r) ==> !r.finished && r.event.Updating?
    case DoSweep(_, now) => now - LastHeard(w, earlier, x, first) <= w.timeout
    case DoDeleteTorrent(ih) => ih != x.infoHash
    case _ => true
  }

  predicate Present(w: World, ih: string, k: Key) { ih in w.torrents && k.id in w.torrents[ih].Get(k.slot) }

  function PeerAt(w: World, ih: string, k: Key): PeerV
    requires Present(w, ih, k)
  {
    w.torrents[ih].Get(k.slot)[k.id]
  }

  predicate Heard(w: World, x: Leecher, at: int) {
    Present(w, x.infoHash, x.Key()) && PeerAt(w, x.infoHash, x.Key()).lastUpdate == at
  }

  lemma OwnAnnounce(c: Column, r: Announcement, terms: Terms, newcomer: PeerV, ipv6: bool)
    requires terms.mode.Private? && !r.finished && r.event.Updating?
    requires c.Get(if ipv6 then Leechers6 else Leechers).Some?
    ensures var s := if ipv6 then Leechers6 else Leechers;
            var c' := Serve(c, r, terms, newcomer).column;
            && c'.Get(s).Some?
            && c'.Get(s).value.lastUpdate == if r.ipv6 == ipv6 then r.now else c.Get(s).value.lastUpdate
  {}

  lemma OwnVisit(w: World, r: Announcement, x: Leecher, at: int)
    requires w.mode.Private? && Heard(w, x, at) && x.Sends(r) && !r.finished && r.event.Updating?
    ensures var t := w.torrents[x.infoHash];
            var o := VisitOf(w, t, r).column.Get(x.Key().slot);
            o.Some? && o.value.lastUpdate == if r.ipv6 == x.ipv6 then r.now else at
  {
    var t := w.torrents[x.infoHash];
    ColumnGet(t, x.Key());
    OwnAnnounce(ColumnOf(t, r.peerID), r, TermsOf(w, t), NewPeer(r, Requester(w, r), t.id), x.ipv6);
  }

  lemma OwnAnnounceKeeps(w: World, r: Announcement, x: Leecher, at: int)
    requires w.mode.Private? && Heard(w, x, at) && x.Sends(r) && !r.finished && r.event.Updating?
    ensures Heard(Accept(w, r), x, if r.ipv6 == x.ipv6 then r.now else at)
  {
    var k := x.Key();
    var t := w.torrents[x.infoHash];
    OwnVisit(w, r, x, at);
    var v := VisitOf(w, t, r);
    hide VisitOf;
    BookTorrents(w, r, v);
    WithColumnGet(t, r.peerID, v.column, k.slot);
    assert TorrentAfter(t, r, v).Get(k.slot) == WithColumn(t, r.peerID, v.column).Get(k.slot);
    hide WithColumn, TorrentAfter, Book;
  }

  lemma OtherAnnounceKeeps(w: World, r: Announcement, x: Leecher, at: int)
    requires Heard(w, x, at) && !x.Sends(r)
    ensures Heard(Announce(w, r), x, at)
  {
    hide Announce;
    AnnounceIsLocal(w, r, x.infoHash, x.peerID);
    ColumnGet(w.torrents[x.infoHash], x.Key());
    ColumnGet(Announce(w, r).torrents[x.infoHash], x.Key());
    hide ColumnOf;
  }

  lemma AnnounceKeeps(w: World, r: Announcement, x: Leecher, at: int)
    requires w.mode.Private? && Heard(w, x, at)
    requires x.Sends(r) ==> !r.finished && r.event.Updating?
    ensures Heard(Announce(w, r), x, if x.Sends(r) && r.ipv6 == x.ipv6 && Refusal(w, r).None? then r.now else at)
  {
    hide Accept, Refusal;
    if !x.Sends(r) {
      OtherAnnounceKeeps(w, r, x, at);
    } else if Refusal(w, r).None? {
      OwnAnnounceKeeps(w, r, x, at);
    }
  }

  lemma {:induction false} SweepPeersKeeps(t: TorrentV, keys: seq<Key>, mode: Mode, now: int, timeout: int, k: Key)
    requires k.id in t.Get(k.slot) && !TimedOut(t.Get(k.slot)[k.id], now, timeout)
    ensures var t' := SweepPeers(t, keys, mode, now, timeout).torrent;
            k.id in t'.Get(k.slot) && t'.Get(k.slot)[k.id] == t.Get(k.slot)[k.id]
  {
    if keys != [] {
      var x := keys[|keys| - 1];
      var s := SweepPeers(t, keys[..|keys| - 1], mode, now, timeout);
      SweepPeersKeeps(t, keys[..|keys| - 1], mode, now, timeout, k);
      hide Evict, PeerRowOf;
      if Stale(s.torrent, x, now, timeout) {
        EvictGet(s.torrent, x, mode, k);
      }
    }
  }

  lemma {:induction false} SweepKeeps(w: World, plan: seq<Turn>, now: int, x: Leecher, at: int)
    requires w.mode.Private? && Heard(w, x, at) && now - at <= w.timeout
    ensures Heard(Sweep(w, plan, now), x, at)
    ensures Sweep(w, plan, now).mode.Private? && Sweep(w, plan, now).timeout == w.timeout
  {
    if plan != [] {
      var turn := plan[|plan| - 1];
      var w1 := Sweep(w, plan[..|plan| - 1], now);
      SweepKeeps(w, plan[..|plan| - 1], now, x, at);
      if turn.infoHash in w1.torrents {
        hide SweepTorrent, SweepPeers;
        TurnIsLocal(w1, turn, now, x.infoHash);
        if turn.infoHash == x.infoHash {
          SweepPeersKeeps(w1.torrents[x.infoHash], turn.keys, w1.mode, now, w1.timeout, x.Key());
        }
      }
    }
  }

  lemma BookSettings(w: World, r: Announcement, v: Visit)
    requires r.infoHash in w.torrents
    ensures Book(w, r, v).mode == w.mode && Book(w, r, v).timeout == w.timeout
  {
    hide TorrentAfter, PeerRowOf, TorrentRowOf, UpdateGauges, Added, Credited, UserRows;
  }

  lemma TakeSettings(w: World, s: Step)
    ensures Take(w, s).mode == w.mode && Take(w, s).timeout == w.timeout
  {
    hide Book, VisitOf, Whitelisted, Sweep;
    match s
    case DoAnnounce(r) =>
      if Refusal(w, r).None? {
        BookSettings(Enter(w, r), r, VisitOf(Enter(w, r), Enter(w, r).torrents[r.infoHash], r));
      }
    case DoSweep(plan, now) => SweepSettings(w, plan, now);
    case DoEdit(e) => EditIsLocal(w, e); hide Edited;
    case _ =>
  }

  lemma {:induction false} SweepSettings(w: World, plan: seq<Turn>, now: int)
    ensures Sweep(w, plan, now).mode == w.mode && Sweep(w, plan, now).timeout == w.timeout
  {
    if plan != [] {
      SweepSettings(w, plan[..|plan| - 1], now);
      hide SweepPeers;
    }
  }

  lemma {:induction false} RunSettings(w: World, steps: seq<Step>)
    ensures Run(w, steps).mode == w.mode && Run(w, steps).timeout == w.timeout
  {
    if steps != [] {
      RunSettings(w, steps[..|steps| - 1]);
      TakeSettings(Run(w, steps[..|steps| - 1]), steps[|steps| - 1]);
    }
  }

  lemma EditKeeps(w: World, s: Step, x: Leecher, at: int)
    requires Heard(w, x, at) && !s.DoAnnounce? && !s.DoSweep? && (s.DoDeleteTorrent? ==> s.infoHash != x.infoHash)
    ensures Heard(Take(w, s), x, at)
  {
    if s.DoEdit? { EditIsLocal(w, s.edit); }
    hide Edited;
  }

  lemma LastStep(w: World, steps: seq<Step>, x: Leecher, first: int)
    requires steps != [] && StaysInTouch(w, steps, x, first)
    ensures var earlier := steps[..|steps| - 1];
            var s := steps[|steps| - 1];
            var at := LastHeard(w, earlier, x, first);
            && StaysInTouch(w, earlier, x, first)
            && (s.DoAnnounce? && x.Sends(s.r) ==> !s.r.finished && s.r.event.Updating?)
            && (s.DoSweep? ==> s.now - at <= w.timeout)
            && (s.DoDeleteTorrent? ==> s.infoHash != x.infoHash)
            && LastHeard(w, steps, x, first)
               == if s.DoAnnounce? && x.Sends(s.r) && s.r.ipv6 == x.ipv6 && Refusal(Run(w, earlier), s.r).None?
                  then s.r.now else at
  {
    hide Run, Refusal;
  }

  /**
   * A leecher of a private tracker that keeps announcing stays in the leecher set of its family through any run,
   * with its last update the time it was last heard, whatever all other peers, users and administrators do.
   */
  lemma {:induction false} LiveLeecherStays(w: World, steps: seq<Step>, x: Leecher, first: int)
    requires w.mode.Private? && Heard(w, x, first) && StaysInTouch(w, steps, x, first)
    ensures Heard(Run(w, steps), x, LastHeard(w, steps, x, first))
  {
    if steps != [] {
      var earlier := steps[..|steps| - 1];
      var w1 := Run(w, earlier);
      LiveLeecherStays(w, earlier, x, first);
      RunSettings(w, earlier);
      var at := LastHeard(w, earlier, x, first);
      LastStep(w, steps, x, first);
      hide Refusal, StaysInTouch, LastHeard;
      var s := steps[|steps| - 1];
      if !s.DoAnnounce? && !s.DoSweep? {
        EditKeeps(w1, s, x, at);
        hide Take;
      } else {
        hide Announce, Sweep;
        if s.DoAnnounce? { AnnounceKeeps(w1, s.r, x, at); } else { SweepKeeps(w1, s.plan, s.now, x, at); }
      }
    }
  }
}
