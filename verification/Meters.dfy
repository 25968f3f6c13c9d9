/** What is summed over peers to state the conservation laws, and how the sums move. */
module Meters {
  import opened Words
  import opened Options
  import opened Ledger
  import opened Tracker
  import opened Sums

  /** Worth: what a peer moved its torrent's balance by; Speed: its share of the global speed; Down, Up: what its
      user with this id was credited; Time: the seconds its rows reported. The last three are what Down, Up and Time
      should say: how far the counters of a peer have come, and how long it has lived up to its last update. */
  datatype Meter =
    | Worth
    | Speed
    | Down(uid: nat)
    | Up(uid: nat)
    | Time(torrentID: nat, peerID: string)
    | Fetched(uid: nat)
    | Sent(uid: nat)
    | Lived(torrentID: nat, peerID: string)

  function Measure(k: Meter, p: PeerV): int {
    match k
    case Worth => p.corrupt + p.totalUploaded - p.totalDownloaded - p.birth.uploaded + p.birth.downloaded
    case Speed => U32(p.downSpeed + p.upSpeed) / 2
    case Down(uid) => if p.user.Some? && p.user.value.id == uid then p.paid.downloaded else 0
    case Up(uid) => if p.user.Some? && p.user.value.id == uid then p.paid.uploaded else 0
    case Time(tid, pid) => if p.torrentID == tid && p.peerID == pid then p.paid.time else 0
    case Fetched(uid) =>
      if p.user.Some? && p.user.value.id == uid then p.totalDownloaded - p.birth.downloaded else 0
    case Sent(uid) => if p.user.Some? && p.user.value.id == uid then p.totalUploaded - p.birth.uploaded else 0
    case Lived(tid, pid) => if p.torrentID == tid && p.peerID == pid then p.lastUpdate - p.birth.at else 0
  }

  ghost function Weights(m: PeerMap, k: Meter): map<string, int> { map id | id in m :: Measure(k, m[id]) }

  ghost function PeerSum(m: PeerMap, k: Meter): int { SumOf(Weights(m, k)) }

  ghost function OptSum(o: Option<PeerV>, k: Meter): int {
    match o
    case None => 0
    case Some(p) => Measure(k, p)
  }

  ghost function SeqSum(s: seq<PeerV>, k: Meter): int {
    if s == [] then 0 else SeqSum(s[..|s| - 1], k) + Measure(k, s[|s| - 1])
  }

  ghost function ColumnSum(c: Column, k: Meter): int {
    OptSum(c.seeder, k) + OptSum(c.seeder6, k) + OptSum(c.leecher, k) + OptSum(c.leecher6, k)
  }

  /** Over every peer the torrent ever had. */
  ghost function TorrentSum(t: TorrentV, k: Meter): int {
    PeerSum(t.seeders, k) + PeerSum(t.seeders6, k) + PeerSum(t.leechers, k) + PeerSum(t.leechers6, k)
    + SeqSum(t.departed, k)
  }

  ghost function TorrentWeights(ts: map<string, TorrentV>, k: Meter): map<string, int> {
    map ih | ih in ts :: TorrentSum(ts[ih], k)
  }

  ghost function LostSum(ts: seq<TorrentV>, k: Meter): int {
    if ts == [] then 0 else LostSum(ts[..|ts| - 1], k) + TorrentSum(ts[|ts| - 1], k)
  }

  /** Over every peer the tracker ever had. */
  ghost function Total(w: World, k: Meter): int { SumOf(TorrentWeights(w.torrents, k)) + LostSum(w.lost, k) }

  // ---------------------------------------------------------------- how the sums move

  lemma SeqSumSnoc(s: seq<PeerV>, p: PeerV, k: Meter)
    ensures SeqSum(s + [p], k) == SeqSum(s, k) + Measure(k, p)
  {
    assert (s + [p])[..|s|] == s;
  }

  lemma StoreSum(m: PeerMap, id: string, o: Option<PeerV>, k: Meter)
    ensures PeerSum(Store(m, id, o), k) == PeerSum(m, k) - OptSum(Find(m, id), k) + OptSum(o, k)
  {
    var w := Weights(m, k);
    match o
    case None =>
      assert Weights(m - {id}, k) == w - {id};
      SumOfDrop(w, id);
    case Some(p) =>
      assert Weights(m[id := p], k) == w[id := Measure(k, p)];
      SumOfPut(w, id, Measure(k, p));
  }

  lemma WithColumnSum(t: TorrentV, id: string, c: Column, k: Meter)
    ensures TorrentSum(WithColumn(t, id, c), k) == TorrentSum(t, k) - ColumnSum(ColumnOf(t, id), k) + ColumnSum(c, k)
  {
    StoreSum(t.seeders, id, c.seeder, k);
    StoreSum(t.seeders6, id, c.seeder6, k);
    StoreSum(t.leechers, id, c.leecher, k);
    StoreSum(t.leechers6, id, c.leecher6, k);
  }

  lemma PutSum(c: Column, s: Slot, o: Option<PeerV>, k: Meter)
    ensures ColumnSum(c.Put(s, o), k) == ColumnSum(c, k) - OptSum(c.Get(s), k) + OptSum(o, k)
  {}

  lemma TotalPut(w: World, ih: string, t: TorrentV, k: Meter)
    ensures Total(w.(torrents := w.torrents[ih := t]), k)
         == Total(w, k) + TorrentSum(t, k) - (if ih in w.torrents then TorrentSum(w.torrents[ih], k) else 0)
  {
    hide TorrentSum;
    assert TorrentWeights(w.torrents[ih := t], k) == TorrentWeights(w.torrents, k)[ih := TorrentSum(t, k)];
    SumOfPut(TorrentWeights(w.torrents, k), ih, TorrentSum(t, k));
  }

  /** Dropping a torrent from the map loses none of its peers' history. */
  lemma TotalDrop(w: World, w': World, ih: string, k: Meter)
    requires ih in w.torrents && w'.torrents == w.torrents - {ih} && w'.lost == w.lost + [w.torrents[ih]]
    ensures Total(w', k) == Total(w, k)
  {
    hide TorrentSum;
    assert TorrentWeights(w.torrents - {ih}, k) == TorrentWeights(w.torrents, k) - {ih};
    SumOfDrop(TorrentWeights(w.torrents, k), ih);
    LostSumSnoc(w.lost, w.torrents[ih], k);
  }

  lemma LostSumSnoc(ts: seq<TorrentV>, t: TorrentV, k: Meter)
    ensures LostSum(ts + [t], k) == LostSum(ts, k) + TorrentSum(t, k)
  {
    assert (ts + [t])[..|ts|] == ts;
  }

  // ---------------------------------------------------------------- one announce, one eviction

  lemma AdmitSum(c: Column, r: Announcement, newcomer: PeerV, k: Meter)
    requires Measure(k, newcomer) == 0
    ensures ColumnSum(Admit(c, r, newcomer), k) == ColumnSum(c, k)
  {
    hide Measure, ColumnSum;
    var p := FoundOr(c.Get(LeechSlot(r)), newcomer);
    CompletedSame(p, k);
    var c1 := AdmitLeecher(c, r, newcomer);
    PutSum(c, LeechSlot(r), Some(if r.event.Completed? then p.(completed := true) else p), k);
    PutSum(c1, SeedSlot(r), Some(newcomer), k);
  }

  lemma CompletedSame(p: PeerV, k: Meter)
    ensures Measure(k, p.(completed := true)) == Measure(k, p)
  {}

  lemma LeaveSum(c: Column, r: Announcement, k: Meter)
    ensures ColumnSum(Leave(c, r), k) + SeqSum(Gone(c, r), k) == ColumnSum(c, k)
  {
    if Gone(c, r) != [] { SeqSumSnoc([], Gone(c, r)[0], k); }
  }

  /** The sum over a column and over what left it moves by exactly what the announced peer moves by. */
  lemma ServeSum(c: Column, r: Announcement, terms: Terms, newcomer: PeerV, k: Meter)
    requires Measure(k, newcomer) == 0
    ensures var v := Serve(c, r, terms, newcomer);
            ColumnSum(v.column, k) + SeqSum(v.gone, k) == ColumnSum(c, k) + Measure(k, v.after) - Measure(k, v.before)
  {
    var adm := Admit(c, r, newcomer);
    var v := Serve(c, r, terms, newcomer);
    AdmitSum(c, r, newcomer, k);
    PutSum(adm, Target(adm, r), Some(v.after), k);
    LeaveSum(adm.Put(Target(adm, r), Some(v.after)), r, k);
  }

  lemma TorrentAfterSum(w: World, t: TorrentV, r: Announcement, k: Meter)
    ensures var v := VisitOf(w, t, r);
            TorrentSum(TorrentAfter(t, r, v), k) == TorrentSum(t, k) + Measure(k, v.after) - Measure(k, v.before)
  {
    var v := VisitOf(w, t, r);
    ServeSum(ColumnOf(t, r.peerID), r, TermsOf(w, t), NewPeer(r, Requester(w, r), t.id), k);
    WithColumnSum(t, r.peerID, v.column, k);
    if v.gone == [] { assert t.departed + v.gone == t.departed; } else {
      SeqSumSnoc(t.departed, v.gone[0], k);
      SeqSumSnoc([], v.gone[0], k);
      assert t.departed + v.gone == t.departed + [v.gone[0]];
    }
  }

  lemma EvictSum(t: TorrentV, key: Key, mode: Mode, k: Meter)
    requires key.id in t.Get(key.slot)
    ensures var p := t.Get(key.slot)[key.id];
            TorrentSum(Evict(t, key, mode), k) == TorrentSum(t, k) + Measure(k, Expired(p, mode)) - Measure(k, p)
  {
    var p := t.Get(key.slot)[key.id];
    var c := ColumnOf(t, key.id);
    PutSum(c, key.slot, None, k);
    WithColumnSum(t, key.id, c.Put(key.slot, None), k);
    SeqSumSnoc(t.departed, Expired(p, mode), k);
    assert c.Get(key.slot) == Some(p);
  }
}
