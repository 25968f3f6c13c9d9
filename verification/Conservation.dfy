/**
 * Conservation over whole runs: what the global speed, the users' rows and the peers' rows say is the sum, over
 * every peer the tracker ever had, of what that peer contributed; and a torrent's balance is what its peers were worth.
 */
module Conservation {
  import opened Words
  import opened Options
  import opened Ledger
  import opened Tracker
  import opened Sums
  import opened Meters
  import opened Shape

  function UserWeight(k: Meter): UserRow -> int {
    (row: UserRow) =>
      match k
      case Down(uid) => if row.id == uid then row.downloaded else 0
      case Up(uid) => if row.id == uid then row.uploaded else 0
      case _ => 0
  }

  function PeerWeight(k: Meter): PeerRow -> int {
    (row: PeerRow) => if k.Time? && row.torrentID == k.torrentID && row.peerID == k.peerID then row.timespent else 0
  }

  /** What the outside sees: the rows recorded for a user, the seconds recorded for a peer, the global speed. */
  ghost function Reading(w: World, k: Meter): int {
    match k
    case Speed => w.stats.speed
    case Down(_) => SumSeq(w.userLog, UserWeight(k))
    case Up(_) => SumSeq(w.userLog, UserWeight(k))
    case Time(_, _) => SumSeq(w.peerLog, PeerWeight(k))
    case _ => 0
  }

  /** The meters that something outside the peers reads. */
  predicate IsRead(k: Meter) { k.Speed? || k.Down? || k.Up? || k.Time? }

  /** From w to w' the reading moved by what the sum over all peers moved by. */
  ghost predicate Agrees(w: World, w': World, k: Meter) {
    var reading := Reading(w', k) - Reading(w, k);
    var total := Total(w', k) - Total(w, k);
    if k.Speed? then Same64(reading, total) else IsRead(k) ==> reading == total
  }

  lemma AgreesTrans(w: World, w1: World, w2: World, k: Meter)
    requires Agrees(w, w1, k) && Agrees(w1, w2, k)
    ensures Agrees(w, w2, k)
  {}

  // ---------------------------------------------------------------- one announce

  lemma TimeMoves(p: PeerV, r: Announcement, mode: Mode, free: nat, k: Meter)
    requires k.Time?
    ensures var q := Refresh(p, r, mode, free);
            Measure(k, Finish(q, mode)) - Measure(k, p) == if mode.Public? then 0 else PeerWeight(k)(PeerRowOf(mode, q))
  {}

  lemma CreditMoves(p: PeerV, r: Announcement, mode: Mode, free: nat, k: Meter)
    requires k.Down? || k.Up?
    ensures var q := Refresh(p, r, mode, free);
            && q.user == p.user
            && Measure(k, Finish(q, mode)) - Measure(k, p)
               == if mode.Private? && q.user.Some? && q.user.value.id == k.uid
                  then U32(if k.Down? then q.downloaded else q.uploaded) else 0
  {}

  lemma SpeedMoves(p: PeerV, r: Announcement, mode: Mode, free: nat)
    ensures var q := Refresh(p, r, mode, free);
            && Measure(Speed, Finish(q, mode)) == Measure(Speed, q)
            && (!mode.Private? ==> Measure(Speed, q) == Measure(Speed, p))
  {}

  lemma SpeedSwaps(speed: int, dec: int, inc: int)
    ensures Same64(U64(U64(speed - dec) + inc), speed + inc - dec)
  {
    Same64Wraps(speed - dec);
    Same64Wraps(U64(speed - dec) + inc);
  }

  /** `recordUser` moves the whole credit of a settled user into its row. */
  lemma PayMoves(w: World, p: PeerV, k: Meter)
    requires Settled(w.users) && UserFits(p.user, w.mode, w.users) && (k.Down? || k.Up?)
    ensures SumSeq(Pay(w, p).userLog, UserWeight(k)) - SumSeq(w.userLog, UserWeight(k))
            == if p.user.Some? && p.user.value.id == k.uid then U32(if k.Down? then p.downloaded else p.uploaded) else 0
  {
    hide U32, U64, UserWeight, UserRows;
    if p.user.Some? {
      var u := Credited(w.users[p.user.value.handle], p.downloaded, p.uploaded);
      SumSeqConcat(w.userLog, UserRows(u), UserWeight(k));
      RowsWeigh(w.users[p.user.value.handle], p.downloaded, p.uploaded, k);
    }
  }

  lemma RowsWeigh(u: UserV, downloaded: nat, uploaded: nat, k: Meter)
    requires !HasChanged(u) && (k.Down? || k.Up?)
    ensures SumSeq(UserRows(Credited(u, downloaded, uploaded)), UserWeight(k))
            == if u.id == k.uid then U32(if k.Down? then downloaded else uploaded) else 0
  {
    var v := Credited(u, downloaded, uploaded);
    if HasChanged(v) { SumSeqOne(UserRow(v.id, v.downloaded, v.uploaded), UserWeight(k)); }
  }

  /** The sum over all peers sees only the torrents. */
  lemma TotalStep(w: World, w': World, ih: string, t: TorrentV, k: Meter)
    requires w'.torrents == w.torrents[ih := t] && w'.lost == w.lost
    ensures Total(w', k) == Total(w, k) + TorrentSum(t, k)
            - (if ih in w.torrents then TorrentSum(w.torrents[ih], k) else 0)
  {
    TotalPut(w, ih, t, k);
  }

  lemma BookTorrents(w: World, r: Announcement, v: Visit)
    requires r.infoHash in w.torrents
    ensures var w' := Book(w, r, v);
            && w'.torrents == w.torrents[r.infoHash := TorrentAfter(w.torrents[r.infoHash], r, v)]
            && w'.lost == w.lost && w'.mode == w.mode
            && w'.peerLog == (if w.mode.Public? then w.peerLog else w.peerLog + [PeerRowOf(w.mode, v.mid)])
            && w'.userLog == (if w.mode.Private? then Pay(w, v.mid).userLog else w.userLog)
  {
    hide TorrentAfter, UpdateGauges, PeerRowOf, TorrentRowOf, Credited, UserRows;
  }

  lemma BookSpeed(w: World, r: Announcement, v: Visit)
    requires r.infoHash in w.torrents
    ensures Book(w, r, v).stats.speed
            == if w.mode.Private? then U64(U64(w.stats.speed - Measure(Speed, v.before)) + Measure(Speed, v.mid))
               else w.stats.speed
  {}

  lemma NoDifference(x: int)
    ensures Same64(x, x)
  {}

  lemma BookReads(w: World, r: Announcement, v: Visit, k: Meter)
    requires r.infoHash in w.torrents && Settled(w.users) && UserFits(v.mid.user, w.mode, w.users)
             && VisitAgrees(w, v, k)
    ensures var moved := Reading(Book(w, r, v), k) - Reading(w, k);
            var measured := Measure(k, v.after) - Measure(k, v.before);
            if k.Speed? then Same64(moved, measured) else IsRead(k) ==> moved == measured
  {
    hide Book, Pay, Settled, PeerRowOf, TorrentAfter, U64, U32, UserWeight, PeerWeight, UserFits;
    NoDifference(0);
    BookTorrents(w, r, v);
    match k
    case Speed =>
      BookSpeed(w, r, v);
      SpeedSwaps(w.stats.speed, Measure(Speed, v.before), Measure(Speed, v.mid));
    case Time(_, _) => SumSeqSnoc(w.peerLog, PeerRowOf(w.mode, v.mid), PeerWeight(k));
    case Down(_) => PayMoves(w, v.mid, k);
    case Up(_) => PayMoves(w, v.mid, k);
    case _ =>
  }

  /** What a visit moves: its readings against its measures. */
  ghost predicate VisitAgrees(w: World, v: Visit, k: Meter) {
    var moved := Measure(k, v.after) - Measure(k, v.before);
    match k
    case Speed => Measure(k, v.after) == Measure(k, v.mid) && (!w.mode.Private? ==> moved == 0)
    case Down(uid) =>
      moved == if w.mode.Private? && v.mid.user.Some? && v.mid.user.value.id == uid then U32(v.mid.downloaded) else 0
    case Up(uid) =>
      moved == if w.mode.Private? && v.mid.user.Some? && v.mid.user.value.id == uid then U32(v.mid.uploaded) else 0
    case Time(_, _) => moved == if w.mode.Public? then 0 else PeerWeight(k)(PeerRowOf(w.mode, v.mid))
    case _ => true
  }

  lemma VisitMoves(w: World, t: TorrentV, r: Announcement, k: Meter)
    ensures VisitAgrees(w, VisitOf(w, t, r), k)
  {
    var adm := Admit(ColumnOf(t, r.peerID), r, NewPeer(r, Requester(w, r), t.id));
    var p := adm.Get(Target(adm, r)).value;
    var free := FreePercent(adm, r, TermsOf(w, t));
    match k
    case Speed => SpeedMoves(p, r, w.mode, free);
    case Down(_) => CreditMoves(p, r, w.mode, free, k);
    case Up(_) => CreditMoves(p, r, w.mode, free, k);
    case Time(_, _) => TimeMoves(p, r, w.mode, free, k);
    case _ =>
  }

  lemma BookAgrees(w: World, r: Announcement, v: Visit, k: Meter)
    requires r.infoHash in w.torrents && Settled(w.users) && UserFits(v.mid.user, w.mode, w.users)
    requires VisitAgrees(w, v, k)
    requires var t := w.torrents[r.infoHash];
             TorrentSum(TorrentAfter(t, r, v), k) == TorrentSum(t, k) + Measure(k, v.after) - Measure(k, v.before)
    ensures Agrees(w, Book(w, r, v), k)
  {
    hide Book, TorrentAfter, UserFits, Settled, Measure, TorrentSum, Total, Reading, VisitAgrees;
    var t' := TorrentAfter(w.torrents[r.infoHash], r, v);
    BookTorrents(w, r, v);
    BookReads(w, r, v, k);
    TotalStep(w, Book(w, r, v), r.infoHash, t', k);
  }

  lemma AcceptAgrees(w: World, r: Announcement, k: Meter)
    requires WorldFits(w) && RequestFits(r) && r.infoHash in w.torrents
    requires w.mode.Private? ==> Requester(w, r).Some?
    ensures Agrees(w, Accept(w, r), k)
  {
    var t := w.torrents[r.infoHash];
    VisitFits(w, t, r);
    VisitMoves(w, t, r, k);
    TorrentAfterSum(w, t, r, k);
    BookAgrees(w, r, VisitOf(w, t, r), k);
  }

  lemma AddAgrees(w: World, w': World, ih: string, t: TorrentV, k: Meter)
    requires ih !in w.torrents && Empty(t) && t.departed == []
    requires w'.torrents == w.torrents[ih := t] && w'.lost == w.lost
    requires w'.stats.speed == w.stats.speed && w'.userLog == w.userLog && w'.peerLog == w.peerLog
    ensures Agrees(w, w', k)
  {
    EmptySum(t, k);
    TotalStep(w, w', ih, t, k);
  }

  lemma AnnounceAgrees(w: World, r: Announcement, k: Meter)
    requires WorldFits(w) && RequestFits(r)
    ensures Agrees(w, Announce(w, r), k)
  {
    hide Agrees, WorldFits, Accept, Whitelisted, RequestFits;
    if Refusal(w, r).None? {
      EnterAgrees(w, r, k);
      EnterFits(w, r);
      AcceptAgrees(Enter(w, r), r, k);
      AgreesTrans(w, Enter(w, r), Announce(w, r), k);
    } else {
      SameAgrees(w, w, k);
    }
  }

  lemma EnterAgrees(w: World, r: Announcement, k: Meter)
    ensures Agrees(w, Enter(w, r), k)
  {
    hide Agrees;
    if w.mode.Public? && r.infoHash !in w.torrents {
      AddAgrees(w, Enter(w, r), r.infoHash, NewTorrent(U32(w.stats.torrents), 0), k);
    } else {
      SameAgrees(w, w, k);
    }
  }

  lemma EmptySum(t: TorrentV, k: Meter)
    requires Empty(t) && t.departed == []
    ensures TorrentSum(t, k) == 0
  {}

  // ---------------------------------------------------------------- sweep

  lemma EvictAgrees(t: TorrentV, key: Key, mode: Mode, k: Meter)
    requires key.id in t.Get(key.slot)
    ensures TorrentSum(Evict(t, key, mode), k) - TorrentSum(t, k)
            == if mode.Public? then 0 else PeerWeight(k)(PeerRowOf(mode, t.Get(key.slot)[key.id].(active := false)))
  {
    hide TorrentSum, Evict, Measure, PeerWeight, PeerRowOf;
    EvictSum(t, key, mode, k);
    ExpiredMeasures(t.Get(key.slot)[key.id], mode, k);
  }

  lemma ExpiredMeasures(p: PeerV, mode: Mode, k: Meter)
    ensures Measure(k, Expired(p, mode)) - Measure(k, p)
            == if mode.Public? then 0 else PeerWeight(k)(PeerRowOf(mode, p.(active := false)))
  {}

  lemma {:induction false} SweepPeersAgrees(t: TorrentV, keys: seq<Key>, mode: Mode, now: int, timeout: int, k: Meter)
    ensures var s := SweepPeers(t, keys, mode, now, timeout);
            TorrentSum(s.torrent, k) - TorrentSum(t, k) == SumSeq(s.rows, PeerWeight(k))
  {
    if keys != [] {
      var key := keys[|keys| - 1];
      var s := SweepPeers(t, keys[..|keys| - 1], mode, now, timeout);
      SweepPeersAgrees(t, keys[..|keys| - 1], mode, now, timeout, k);
      if Stale(s.torrent, key, now, timeout) {
        EvictAgrees(s.torrent, key, mode, k);
        SumSeqSnoc(s.rows, PeerRowOf(mode, s.torrent.Get(key.slot)[key.id].(active := false)), PeerWeight(k));
      }
    }
  }

  lemma {:induction false} SumSeqZero<T>(s: seq<T>, f: T -> int)
    requires forall x :: f(x) == 0
    ensures SumSeq(s, f) == 0
  {
    if s != [] { SumSeqZero(s[..|s| - 1], f); }
  }

  lemma SweptAgrees(w: World, ih: string, s: Swept, k: Meter)
    requires ih in w.torrents
    requires TorrentSum(s.torrent, k) - TorrentSum(w.torrents[ih], k) == SumSeq(s.rows, PeerWeight(k))
    ensures Agrees(w, w.(torrents := w.torrents[ih := s.torrent], peerLog := w.peerLog + s.rows), k)
  {
    hide TorrentSum, UserWeight;
    TotalStep(w, w.(torrents := w.torrents[ih := s.torrent], peerLog := w.peerLog + s.rows), ih, s.torrent, k);
    if k.Time? { SumSeqConcat(w.peerLog, s.rows, PeerWeight(k)); } else { SumSeqZero(s.rows, PeerWeight(k)); }
  }

  lemma DropAgrees(w: World, w': World, ih: string, k: Meter)
    requires ih in w.torrents && w'.torrents == w.torrents - {ih} && w'.lost == w.lost + [w.torrents[ih]]
    requires w'.stats.speed == w.stats.speed && w'.userLog == w.userLog && w'.peerLog == w.peerLog
    ensures Agrees(w, w', k)
  {
    hide Total, UserWeight, PeerWeight, SumSeq;
    TotalDrop(w, w', ih, k);
  }

  lemma SameAgrees(w: World, w': World, k: Meter)
    requires w'.torrents == w.torrents && w'.lost == w.lost
    requires w'.stats.speed == w.stats.speed && w'.userLog == w.userLog && w'.peerLog == w.peerLog
    ensures Agrees(w, w', k)
  {}

  lemma CloseAgrees(w: World, ih: string, s: Swept, k: Meter)
    requires ih in w.torrents
    requires TorrentSum(s.torrent, k) - TorrentSum(w.torrents[ih], k) == SumSeq(s.rows, PeerWeight(k))
    ensures Agrees(w, Close(w, ih, s), k)
  {
    hide Agrees, TorrentSum, SumSeq, PeerWeight, Drop, TorrentRowOf, Empty;
    SweptAgrees(w, ih, s, k);
    var w1 := w.(torrents := w.torrents[ih := s.torrent], peerLog := w.peerLog + s.rows);
    ClosedAgrees(w1, Close(w, ih, s), ih, k);
    AgreesTrans(w, w1, Close(w, ih, s), k);
  }

  lemma ClosedAgrees(w1: World, w': World, ih: string, k: Meter)
    requires ih in w1.torrents
    requires w' == Drop(w1, ih) || w' == w1.(torrentLog := w'.torrentLog)
    ensures Agrees(w1, w', k)
  {
    if w' == Drop(w1, ih) { DropAgrees(w1, w', ih, k); } else { SameAgrees(w1, w', k); }
  }

  lemma SweepTorrentAgrees(w: World, turn: Turn, now: int, k: Meter)
    requires turn.infoHash in w.torrents
    ensures Agrees(w, SweepTorrent(w, turn, now), k)
  {
    SweepPeersAgrees(w.torrents[turn.infoHash], turn.keys, w.mode, now, w.timeout, k);
    CloseAgrees(w, turn.infoHash, SweepPeers(w.torrents[turn.infoHash], turn.keys, w.mode, now, w.timeout), k);
  }

  lemma {:induction false} SweepAgrees(w: World, plan: seq<Turn>, now: int, k: Meter)
    ensures Agrees(w, Sweep(w, plan, now), k)
  {
    if plan != [] {
      var w1 := Sweep(w, plan[..|plan| - 1], now);
      SweepAgrees(w, plan[..|plan| - 1], now, k);
      if plan[|plan| - 1].infoHash in w1.torrents {
        SweepTorrentAgrees(w1, plan[|plan| - 1], now, k);
        AgreesTrans(w, w1, SweepTorrent(w1, plan[|plan| - 1], now), k);
      }
    }
  }

  // ---------------------------------------------------------------- runs

  lemma FreeAgrees(w: World, ih: string, free: nat, k: Meter)
    requires ih in w.torrents
    ensures Agrees(w, w.(torrents := w.torrents[ih := w.torrents[ih].(free := free)]), k)
  {
    var t := w.torrents[ih].(free := free);
    assert TorrentSum(t, k) == TorrentSum(w.torrents[ih], k);
    TotalStep(w, w.(torrents := w.torrents[ih := t]), ih, t, k);
  }

  lemma TakeAgrees(w: World, s: Step, k: Meter)
    requires WorldFits(w) && StepFits(s)
    ensures Agrees(w, Take(w, s), k)
  {
    hide Total, WorldFits, Reading;
    match s
    case DoAnnounce(r) => AnnounceAgrees(w, r, k);
    case DoSweep(plan, now) => SweepAgrees(w, plan, now, k);
    case DoAddTorrent(ih, id, free) =>
      if ih in w.torrents {
        FreeAgrees(w, ih, free, k);
      } else {
        AddAgrees(w, Take(w, s), ih, NewTorrent(id, free), k);
      }
    case DoSetFree(ih, free) => if ih in w.torrents { FreeAgrees(w, ih, free, k); }
    case DoDeleteTorrent(ih) =>
      if ih in w.torrents { DropAgrees(w, Take(w, s), ih, k); }
    case DoEdit(e) =>
      EditIsLocal(w, e);
      hide Edited;
      SameAgrees(w, Edited(w, e), k);
  }

  /**
   * Whatever the announces, stops, completions, sweeps and administrative edits of a run, and whichever sets and
   * torrents hold the peers, the rows recorded for a user and for a peer add up to what all peers contributed, and
   * the global speed is their speeds' sum modulo 2^64.
   */
  lemma {:induction false} RunAgrees(w: World, steps: seq<Step>, k: Meter)
    requires WorldFits(w) && forall i :: 0 <= i < |steps| ==> StepFits(steps[i])
    ensures Agrees(w, Run(w, steps), k)
  {
    if steps != [] {
      var before := Run(w, steps[..|steps| - 1]);
      RunFits(w, steps[..|steps| - 1]);
      RunAgrees(w, steps[..|steps| - 1], k);
      TakeAgrees(before, steps[|steps| - 1], k);
      AgreesTrans(w, before, Run(w, steps), k);
    }
  }
}
