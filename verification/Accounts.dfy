/** The balance of a torrent and the global speed, under the machine's word sizes. */
module Accounts {
  import opened Words
  import opened Options
  import opened Ledger
  import opened Tracker
  import opened Sums
  import opened Meters
  import opened Shape
  import opened Conservation

  // ---------------------------------------------------------------- balance

  /** A torrent's balance is its first balance plus what each peer it ever had is worth, modulo 2^64. */
  ghost predicate Balanced(t: TorrentV) { Same64(t.balance, t.balance0 + TorrentSum(t, Worth)) }

  ghost predicate AllBalanced(w: World) {
    && (forall ih :: ih in w.torrents ==> Balanced(w.torrents[ih]))
    && (forall i :: 0 <= i < |w.lost| ==> Balanced(w.lost[i]))
  }

  /** The announced corrupt counter enters the balance as an `unsigned long` but is kept as an `unsigned int`. */
  lemma CorruptSplits(kept: int, corrupt: int, down: int, up: int, total: int, totalUp: int, charged: int,
                      uploaded: int)
    requires down == U64(charged - total) && up == U64(uploaded - totalUp)
    ensures Same64(-U64(kept - corrupt) - down + up,
                   (U32(corrupt) + uploaded - charged) - (kept + totalUp - total) + (corrupt - U32(corrupt)))
  {
    Same64Wraps(kept - corrupt);
    Same64Wraps(charged - total);
    Same64Wraps(uploaded - totalUp);
    Same64Add(U64(kept - corrupt), kept - corrupt, down, charged - total);
    Same64Add(up, uploaded - totalUp, -(U64(kept - corrupt) + down), -(kept - corrupt + charged - total));
  }

  /** The balance moves with the peer's worth exactly when the announced corrupt counter fits 32 bits. */
  lemma WorthMoves(p: PeerV, r: Announcement, mode: Mode, free: nat)
    requires RequestFits(r)
    ensures var q := Refresh(p, r, mode, free);
            Same64(BalanceMove(p, q, r, mode), Measure(Worth, Finish(q, mode)) - Measure(Worth, p))
            <==> (mode.Private? ==> Word32(r.corrupt))
  {
    hide U64, Same64, Charged, Rate;
    var q := Refresh(p, r, mode, free);
    NoDifference(0);
    if mode.Private? {
      var moved := Measure(Worth, Finish(q, mode)) - Measure(Worth, p);
      var charged := Charged(r, free);
      CorruptSplits(p.corrupt, r.corrupt, q.downloaded, q.uploaded, p.totalDownloaded, p.totalUploaded, charged,
                    r.uploaded);
      assert moved == (U32(r.corrupt) + r.uploaded - charged) - (p.corrupt + p.totalUploaded - p.totalDownloaded);
      Excess(BalanceMove(p, q, r, mode), moved, r.corrupt);
    }
  }

  lemma Excess(x: int, y: int, corrupt: int)
    requires Word64(corrupt) && Same64(x, y + (corrupt - U32(corrupt)))
    ensures Same64(x, y) <==> Word32(corrupt)
  {}

  lemma BalanceStep(balance: int, base: int, sum: int, move: int, dsum: int)
    requires Same64(balance, base + sum) && Same64(move, dsum)
    ensures Same64(I64(balance + move), base + (sum + dsum))
  {
    Same64Wraps(balance + move);
  }

  lemma VisitWorth(w: World, t: TorrentV, r: Announcement)
    requires RequestFits(r)
    ensures var v := VisitOf(w, t, r);
            Same64(v.balance, Measure(Worth, v.after) - Measure(Worth, v.before))
            <==> (w.mode.Private? ==> Word32(r.corrupt))
  {
    var adm := Admit(ColumnOf(t, r.peerID), r, NewPeer(r, Requester(w, r), t.id));
    WorthMoves(VisitOf(w, t, r).before, r, w.mode, FreePercent(adm, r, TermsOf(w, t)));
  }

  lemma TorrentAfterBalanced(w: World, t: TorrentV, r: Announcement)
    requires RequestFits(r) && Balanced(t) && (w.mode.Private? ==> Word32(r.corrupt))
    ensures Balanced(TorrentAfter(t, r, VisitOf(w, t, r)))
  {
    hide TorrentSum, VisitOf, Measure;
    var v := VisitOf(w, t, r);
    TorrentAfterSum(w, t, r, Worth);
    VisitWorth(w, t, r);
    BalanceStep(t.balance, t.balance0, TorrentSum(t, Worth), v.balance,
                Measure(Worth, v.after) - Measure(Worth, v.before));
  }

  lemma NewTorrentBalanced(id: nat, free: nat)
    ensures Balanced(NewTorrent(id, free))
  {
    EmptySum(NewTorrent(id, free), Worth);
  }

  lemma EvictBalanced(t: TorrentV, key: Key, mode: Mode, now: int, timeout: int)
    requires Balanced(t) && Stale(t, key, now, timeout)
    ensures Balanced(Evict(t, key, mode))
  {
    EvictAgrees(t, key, mode, Worth);
    hide TorrentSum;
  }

  lemma {:induction false} SweepPeersBalanced(t: TorrentV, keys: seq<Key>, mode: Mode, now: int, timeout: int)
    requires Balanced(t)
    ensures Balanced(SweepPeers(t, keys, mode, now, timeout).torrent)
  {
    hide Balanced, Evict, Stale, PeerRowOf;
    if keys != [] {
      var key := keys[|keys| - 1];
      var s := SweepPeers(t, keys[..|keys| - 1], mode, now, timeout);
      SweepPeersBalanced(t, keys[..|keys| - 1], mode, now, timeout);
      if Stale(s.torrent, key, now, timeout) { EvictBalanced(s.torrent, key, mode, now, timeout); }
    }
  }

  lemma CloseBalanced(w: World, ih: string, s: Swept)
    requires AllBalanced(w) && ih in w.torrents && Balanced(s.torrent)
    ensures AllBalanced(Close(w, ih, s))
  {
    hide Balanced;
  }

  lemma {:induction false} SweepBalanced(w: World, plan: seq<Turn>, now: int)
    requires AllBalanced(w)
    ensures AllBalanced(Sweep(w, plan, now))
  {
    if plan != [] {
      var turn := plan[|plan| - 1];
      var w1 := Sweep(w, plan[..|plan| - 1], now);
      SweepBalanced(w, plan[..|plan| - 1], now);
      if turn.infoHash in w1.torrents {
        var s := SweepPeers(w1.torrents[turn.infoHash], turn.keys, w1.mode, now, w1.timeout);
        SweepPeersBalanced(w1.torrents[turn.infoHash], turn.keys, w1.mode, now, w1.timeout);
        CloseBalanced(w1, turn.infoHash, s);
      }
    }
  }

  predicate SmallCorrupt(s: Step) { s.DoAnnounce? ==> Word32(s.r.corrupt) }

  lemma BookBalanced(w: World, r: Announcement, v: Visit)
    requires AllBalanced(w) && r.infoHash in w.torrents && Balanced(TorrentAfter(w.torrents[r.infoHash], r, v))
    ensures AllBalanced(Book(w, r, v))
  {
    BookTorrents(w, r, v);
    OneBalanced(w, Book(w, r, v), r.infoHash, TorrentAfter(w.torrents[r.infoHash], r, v));
  }

  lemma AnnounceBalanced(w: World, r: Announcement)
    requires AllBalanced(w) && RequestFits(r) && Word32(r.corrupt)
    ensures AllBalanced(Announce(w, r))
  {
    if Refusal(w, r).None? {
      var e := Enter(w, r);
      var t := e.torrents[r.infoHash];
      NewTorrentBalanced(U32(w.stats.torrents), 0);
      if r.infoHash !in w.torrents { OneBalanced(w, e, r.infoHash, t); }
      TorrentAfterBalanced(e, t, r);
      BookBalanced(e, r, VisitOf(e, t, r));
    }
  }

  lemma OneBalanced(w: World, w': World, ih: string, t: TorrentV)
    requires AllBalanced(w) && Balanced(t) && w'.torrents == w.torrents[ih := t] && w'.lost == w.lost
    ensures AllBalanced(w')
  {}

  lemma FreeBalanced(t: TorrentV, free: nat)
    requires Balanced(t)
    ensures Balanced(t.(free := free))
  {}

  lemma TakeBalanced(w: World, s: Step)
    requires AllBalanced(w) && StepFits(s) && SmallCorrupt(s)
    ensures AllBalanced(Take(w, s))
  {
    hide Balanced;
    match s
    case DoAnnounce(r) => AnnounceBalanced(w, r);
    case DoSweep(plan, now) => SweepBalanced(w, plan, now);
    case DoAddTorrent(ih, id, free) =>
      NewTorrentBalanced(id, free);
      if ih in w.torrents { FreeBalanced(w.torrents[ih], free); }
    case DoSetFree(ih, free) => if ih in w.torrents { FreeBalanced(w.torrents[ih], free); }
    case DoDeleteTorrent(ih) =>
    case DoEdit(e) => EditIsLocal(w, e); hide Edited;
  }

  /** The balance law holds after every run of announces, stops, completions, sweeps and edits. */
  lemma {:induction false} RunBalanced(w: World, steps: seq<Step>)
    requires AllBalanced(w)
    requires forall i :: 0 <= i < |steps| ==> StepFits(steps[i]) && SmallCorrupt(steps[i])
    ensures AllBalanced(Run(w, steps))
  {
    if steps != [] {
      RunBalanced(w, steps[..|steps| - 1]);
      TakeBalanced(Run(w, steps[..|steps| - 1]), steps[|steps| - 1]);
    }
  }

  // ---------------------------------------------------------------- speed

  lemma {:induction false} SumOfNonNegative<K>(m: map<K, int>)
    requires forall k :: k in m ==> m[k] >= 0
    ensures SumOf(m) >= 0
    decreases |m|
  {
    if m.Keys != {} { SumOfNonNegative(m - {Pick(m.Keys)}); }
  }

  lemma PeerSpeeds(m: PeerMap)
    ensures PeerSum(m, Speed) >= 0
  {
    SumOfNonNegative(Weights(m, Speed));
  }

  lemma {:induction false} SeqSpeeds(s: seq<PeerV>)
    ensures SeqSum(s, Speed) >= 0
  {
    if s != [] { SeqSpeeds(s[..|s| - 1]); }
  }

  lemma TorrentSpeeds(t: TorrentV)
    ensures TorrentSum(t, Speed) >= 0
  {
    PeerSpeeds(t.seeders);
    PeerSpeeds(t.seeders6);
    PeerSpeeds(t.leechers);
    PeerSpeeds(t.leechers6);
    SeqSpeeds(t.departed);
  }

  lemma {:induction false} LostSpeeds(ts: seq<TorrentV>)
    ensures LostSum(ts, Speed) >= 0
  {
    if ts != [] {
      LostSpeeds(ts[..|ts| - 1]);
      TorrentSpeeds(ts[|ts| - 1]);
    }
  }

  lemma TorrentBelowTotal(w: World, ih: string)
    requires ih in w.torrents
    ensures TorrentSum(w.torrents[ih], Speed) <= Total(w, Speed)
  {
    var ws := TorrentWeights(w.torrents, Speed);
    forall x | x in ws ensures ws[x] >= 0 { TorrentSpeeds(w.torrents[x]); }
    SumOfDrop(ws, ih);
    SumOfNonNegative(ws - {ih});
    LostSpeeds(w.lost);
  }

  lemma ColumnBelowTorrent(t: TorrentV, id: string)
    ensures ColumnSum(ColumnOf(t, id), Speed) <= TorrentSum(t, Speed)
  {
    var c := Column(None, None, None, None);
    WithColumnSum(t, id, c, Speed);
    TorrentSpeeds(WithColumn(t, id, c));
  }

  lemma BeforeBelowColumn(c: Column, r: Announcement, terms: Terms, newcomer: PeerV)
    requires Measure(Speed, newcomer) == 0
    ensures Measure(Speed, Serve(c, r, terms, newcomer).before) <= ColumnSum(c, Speed)
  {
    AdmitSum(c, r, newcomer, Speed);
  }

  /** The speed an announce takes off the total is part of the sum over all peers. */
  lemma BeforeBelowTotal(w: World, r: Announcement)
    requires r.infoHash in w.torrents
    ensures Measure(Speed, VisitOf(w, w.torrents[r.infoHash], r).before) <= Total(w, Speed)
  {
    var t := w.torrents[r.infoHash];
    TorrentBelowTotal(w, r.infoHash);
    ColumnBelowTorrent(t, r.peerID);
    BeforeBelowColumn(ColumnOf(t, r.peerID), r, TermsOf(w, t), NewPeer(r, Requester(w, r), t.id));
  }

  lemma {:induction false} SpeedIsWord(w: World, steps: seq<Step>)
    requires Word64(w.stats.speed)
    ensures Word64(Run(w, steps).stats.speed)
  {
    if steps != [] {
      SpeedIsWord(w, steps[..|steps| - 1]);
      TakeSpeedIsWord(Run(w, steps[..|steps| - 1]), steps[|steps| - 1]);
    }
  }

  lemma TakeSpeedIsWord(w: World, s: Step)
    requires Word64(w.stats.speed)
    ensures Word64(Take(w, s).stats.speed)
  {
    match s
    case DoAnnounce(r) =>
      if Refusal(w, r).None? { BookSpeed(Enter(w, r), r, VisitOf(Enter(w, r), Enter(w, r).torrents[r.infoHash], r)); }
    case DoSweep(plan, now) => SweepSpeed(w, plan, now);
    case DoEdit(e) => EditIsLocal(w, e); hide Edited;
    case _ =>
  }

  lemma {:induction false} SweepSpeed(w: World, plan: seq<Turn>, now: int)
    ensures Sweep(w, plan, now).stats.speed == w.stats.speed
  {
    if plan != [] { SweepSpeed(w, plan[..|plan| - 1], now); }
  }

  /**
   * From a start without peers, the global speed is the sum of all peers' speeds modulo 2^64; and as long as that
   * sum fits 64 bits, the speed an announce takes off was put on before: the subtraction never wraps.
   */
  lemma SpeedNeverUnderflows(start: World, steps: seq<Step>, r: Announcement)
    requires WorldFits(start) && start.stats.speed == 0 && Total(start, Speed) == 0
    requires forall i :: 0 <= i < |steps| ==> StepFits(steps[i])
    ensures var w := Run(start, steps);
            && Same64(w.stats.speed, Total(w, Speed))
            && (r.infoHash in w.torrents && Total(w, Speed) < 0x1_0000_0000_0000_0000 ==>
                  w.stats.speed == Total(w, Speed)
                  && Measure(Speed, VisitOf(w, w.torrents[r.infoHash], r).before) <= w.stats.speed)
  {
    hide Total, TorrentSum, Run, VisitOf, WorldFits;
    var w := Run(start, steps);
    RunAgrees(start, steps, Speed);
    SpeedIsWord(start, steps);
    if r.infoHash in w.torrents && Total(w, Speed) < 0x1_0000_0000_0000_0000 {
      TorrentSpeeds(w.torrents[r.infoHash]);
      TorrentBelowTotal(w, r.infoHash);
      BeforeBelowTotal(w, r);
      Same64Eq(w.stats.speed, Total(w, Speed));
    }
  }
}
