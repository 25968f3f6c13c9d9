/** The representation invariant of the peer sets, and that every step of the tracker keeps it. */
module Shape {
  import opened Words
  import opened Options
  import opened Ledger
  import opened Tracker
  import opened Utility
  import opened Bans

  predicate Word32(x: int) { 0 <= x < 0x1_0000_0000 }

  predicate Word64(x: int) { 0 <= x < 0x1_0000_0000_0000_0000 }

  /** A clock reading, a `long long`. */
  predicate Long(x: int) { -0x8000_0000_0000_0000 <= x < 0x8000_0000_0000_0000 }

  /** One peer's life so far: what its updates credited agrees modulo 2^32 with how far its counters moved since it
      was created, and the seconds its rows reported (plus the unread rest) with how long it has lived. */
  ghost predicate SessionFits(p: PeerV) {
    && Same32(p.paid.downloaded, p.totalDownloaded - p.birth.downloaded)
    && Same32(p.paid.uploaded, p.totalUploaded - p.birth.uploaded)
    && Same64(p.paid.time + p.timespent, p.lastUpdate - p.birth.at)
  }

  predicate UserFits(user: Option<UserRef>, mode: Mode, users: seq<UserV>) {
    && (mode.Private? ==> user.Some?)
    && (user.Some? ==> user.value.handle < |users| && users[user.value.handle].id == user.value.id)
  }

  /** The packed entry is the address the peer was created with, 4 or 16 bytes, and the low 16 bits of its port. */
  predicate PackedFits(p: PeerV, ipv6: bool) {
    |p.birth.address| == (if ipv6 then 16 else 4) && p.hexIPPort == IpPortEncode(p.birth.address, p.port)
  }

  /** An entry stored under `id` in set `s` of torrent `tid`. */
  ghost predicate PeerFits(p: PeerV, s: Slot, id: string, tid: nat, mode: Mode, users: seq<UserV>) {
    && p.peerID == id && p.torrentID == tid
    && PackedFits(p, s.IPv6())
    && UserFits(p.user, mode, users)
    && Word32(p.corrupt) && Word64(p.totalDownloaded) && Word64(p.totalUploaded)
    && p.timespent == 0 && Long(p.lastUpdate)
    && SessionFits(p)
  }

  ghost predicate OptFits(o: Option<PeerV>, s: Slot, id: string, tid: nat, mode: Mode, users: seq<UserV>) {
    o.Some? ==> PeerFits(o.value, s, id, tid, mode, users)
  }

  ghost predicate ColumnFits(c: Column, id: string, tid: nat, mode: Mode, users: seq<UserV>) {
    && OptFits(c.seeder, Seeders, id, tid, mode, users) && OptFits(c.seeder6, Seeders6, id, tid, mode, users)
    && OptFits(c.leecher, Leechers, id, tid, mode, users) && OptFits(c.leecher6, Leechers6, id, tid, mode, users)
  }

  ghost predicate TorrentFits(t: TorrentV, mode: Mode, users: seq<UserV>) {
    && (forall id :: ColumnFits(ColumnOf(t, id), id, t.id, mode, users))
    && (forall i :: 0 <= i < |t.departed| ==> SessionFits(t.departed[i]))
  }

  /** Between steps no user has pending credit: every `updateStats` of a user is followed by `recordUser`. */
  predicate Settled(users: seq<UserV>) {
    forall h :: 0 <= h < |users| ==> !HasChanged(users[h])
  }

  ghost predicate WorldFits(w: World) {
    && (forall ih :: ih in w.torrents ==> TorrentFits(w.torrents[ih], w.mode, w.users))
    && (forall k :: k in w.passkeys ==> w.passkeys[k] < |w.users|)
    && (forall i :: 0 <= i < |w.lost| ==> TorrentFits(w.lost[i], w.mode, w.users))
    && Settled(w.users)
  }

  /** What parsing, the clock and inet_pton guarantee of an announce: `unsigned long` counters, `long long` seconds and
      an address of 4 or 16 bytes. */
  predicate RequestFits(r: Announcement) {
    && Word64(r.downloaded) && Word64(r.uploaded) && Word64(r.corrupt) && Long(r.now) && Long(r.clock)
    && |r.address| == (if r.ipv6 then 16 else 4)
  }

  predicate UsersGrow(us: seq<UserV>, vs: seq<UserV>) {
    |us| <= |vs| && forall h :: 0 <= h < |us| ==> vs[h].id == us[h].id
  }

  lemma TorrentFitsGrow(t: TorrentV, mode: Mode, us: seq<UserV>, vs: seq<UserV>)
    requires TorrentFits(t, mode, us) && UsersGrow(us, vs)
    ensures TorrentFits(t, mode, vs)
  {
    forall id ensures ColumnFits(ColumnOf(t, id), id, t.id, mode, vs) {
      assert ColumnFits(ColumnOf(t, id), id, t.id, mode, us);
    }
  }

  /** Writing one column leaves every other column alone. */
  lemma ColumnOfOther(t: TorrentV, id: string, c: Column, other: string)
    ensures ColumnOf(WithColumn(t, id, c), other) == if other == id then c else ColumnOf(t, other)
  {}

  lemma WithColumnFits(t: TorrentV, id: string, c: Column, mode: Mode, users: seq<UserV>)
    requires TorrentFits(t, mode, users) && ColumnFits(c, id, t.id, mode, users)
    ensures TorrentFits(WithColumn(t, id, c), mode, users)
  {
    forall x ensures ColumnFits(ColumnOf(WithColumn(t, id, c), x), x, t.id, mode, users) {
      ColumnOfOther(t, id, c, x);
      assert ColumnFits(ColumnOf(t, x), x, t.id, mode, users);
    }
  }

  lemma PutFits(c: Column, s: Slot, o: Option<PeerV>, id: string, tid: nat, mode: Mode, users: seq<UserV>)
    requires ColumnFits(c, id, tid, mode, users)
    ensures OptFits(c.Get(s), s, id, tid, mode, users)
    ensures OptFits(o, s, id, tid, mode, users) ==> ColumnFits(c.Put(s, o), id, tid, mode, users)
  {}

  lemma AdmitFits(c: Column, r: Announcement, terms: Terms, newcomer: PeerV, users: seq<UserV>)
    requires ColumnFits(c, r.peerID, terms.torrentID, terms.mode, users)
    requires PeerFits(newcomer, LeechSlot(r), r.peerID, terms.torrentID, terms.mode, users)
    ensures ColumnFits(Admit(c, r, newcomer), r.peerID, terms.torrentID, terms.mode, users)
  {
    var c1 := AdmitLeecher(c, r, newcomer);
    PutFits(c, LeechSlot(r), c1.Get(LeechSlot(r)), r.peerID, terms.torrentID, terms.mode, users);
    PutFits(c1, SeedSlot(r), Some(newcomer), r.peerID, terms.torrentID, terms.mode, users);
  }

  lemma CreditTelescopes(paid: int, total: int, born: int, announced: int)
    requires Same32(paid, total - born)
    ensures Same32(paid + U32(U64(announced - total)), announced - born)
  {}

  lemma TimeTelescopes(paid: int, timespent: int, last: int, born: int, now: int)
    requires Same64(paid + timespent, last - born)
    ensures Same64(paid + U64(timespent + (now - last)), now - born)
  {}

  lemma SessionMoves(p: PeerV, q: PeerV)
    requires SessionFits(p) && q.birth == p.birth && q.paid == p.paid
    requires q.downloaded == U64(q.totalDownloaded - p.totalDownloaded)
    requires q.uploaded == U64(q.totalUploaded - p.totalUploaded)
    requires q.timespent == U64(p.timespent + (q.lastUpdate - p.lastUpdate))
    ensures SessionFits(Paying(Drained(q)))
  {
    CreditTelescopes(p.paid.downloaded, p.totalDownloaded, p.birth.downloaded, q.totalDownloaded);
    CreditTelescopes(p.paid.uploaded, p.totalUploaded, p.birth.uploaded, q.totalUploaded);
    TimeTelescopes(p.paid.time, p.timespent, p.lastUpdate, p.birth.at, q.lastUpdate);
  }

  lemma RefreshSession(p: PeerV, r: Announcement, free: nat, mode: Mode)
    requires SessionFits(p)
    ensures SessionFits(Finish(Refresh(p, r, mode, free), mode))
  {
    var q := if r.event.Stopped? then p.(active := false) else p;
    var downloaded := Charged(r, free);
    if mode.Private? { SessionMoves(q, UpdateStats(q, downloaded, r.uploaded, r.left, r.corrupt, r.now)); }
  }

  lemma RefreshFits(p: PeerV, r: Announcement, free: nat, s: Slot, id: string, tid: nat, mode: Mode, users: seq<UserV>)
    requires PeerFits(p, s, id, tid, mode, users) && RequestFits(r)
    ensures var q := Refresh(p, r, mode, free);
            && q.user == p.user && q.peerID == id && q.torrentID == tid
            && PeerFits(Finish(q, mode), s, id, tid, mode, users)
  {
    RefreshSession(p, r, free, mode);
    var z := Finish(Refresh(p, r, mode, free), mode);
    assert z.peerID == p.peerID && z.torrentID == p.torrentID && z.hexIPPort == p.hexIPPort && z.port == p.port;
    assert z.user == p.user && z.timespent == 0;
  }

  /** Fitting in, fitting out; and the stored peer has its time counter read out. */
  lemma ServeFits(c: Column, r: Announcement, terms: Terms, newcomer: PeerV, users: seq<UserV>)
    requires ColumnFits(c, r.peerID, terms.torrentID, terms.mode, users) && RequestFits(r)
    requires PeerFits(newcomer, LeechSlot(r), r.peerID, terms.torrentID, terms.mode, users)
    ensures var v := Serve(c, r, terms, newcomer);
            && ColumnFits(v.column, r.peerID, terms.torrentID, terms.mode, users)
            && UserFits(v.mid.user, terms.mode, users)
            && (exists s :: PeerFits(v.before, s, r.peerID, terms.torrentID, terms.mode, users))
            && v.mid.peerID == r.peerID && v.mid.torrentID == terms.torrentID
            && (forall i :: 0 <= i < |v.gone| ==> SessionFits(v.gone[i]))
  {
    var adm := Admit(c, r, newcomer);
    AdmitFits(c, r, terms, newcomer, users);
    var s := Target(adm, r);
    var v := Serve(c, r, terms, newcomer);
    PutFits(adm, s, Some(v.after), r.peerID, terms.torrentID, terms.mode, users);
    RefreshFits(v.before, r, FreePercent(adm, r, terms), s, r.peerID, terms.torrentID, terms.mode, users);
    var stored := adm.Put(s, Some(v.after));
    PutFits(stored, if r.finished then SeedSlot(r) else LeechSlot(r), None, r.peerID, terms.torrentID, terms.mode,
            users);
    PutFits(stored, if r.ipv6 then Leechers else Leechers6, None, r.peerID, terms.torrentID, terms.mode, users);
  }

  lemma NewPeerFits(w: World, r: Announcement, tid: nat)
    requires RequestFits(r) && (w.mode.Private? ==> Requester(w, r).Some?)
    ensures PeerFits(NewPeer(r, Requester(w, r), tid), LeechSlot(r), r.peerID, tid, w.mode, w.users)
  {}

  lemma VisitFits(w: World, t: TorrentV, r: Announcement)
    requires TorrentFits(t, w.mode, w.users) && RequestFits(r) && (w.mode.Private? ==> Requester(w, r).Some?)
    ensures var v := VisitOf(w, t, r);
            && TorrentFits(TorrentAfter(t, r, v), w.mode, w.users)
            && UserFits(v.mid.user, w.mode, w.users)
            && (exists s :: PeerFits(v.before, s, r.peerID, t.id, w.mode, w.users))
            && v.mid.peerID == r.peerID && v.mid.torrentID == t.id
  {
    var v := VisitOf(w, t, r);
    assert ColumnFits(ColumnOf(t, r.peerID), r.peerID, t.id, w.mode, w.users);
    NewPeerFits(w, r, t.id);
    ServeFits(ColumnOf(t, r.peerID), r, TermsOf(w, t), NewPeer(r, Requester(w, r), t.id), w.users);
    WithColumnFits(t, r.peerID, v.column, w.mode, w.users);
    ScalarsFit(WithColumn(t, r.peerID, v.column), TorrentAfter(t, r, v), w.mode, w.users);
  }

  lemma ScalarsFit(t: TorrentV, t': TorrentV, mode: Mode, users: seq<UserV>)
    requires TorrentFits(t, mode, users) && t'.id == t.id
    requires t'.seeders == t.seeders && t'.seeders6 == t.seeders6 && t'.leechers == t.leechers
             && t'.leechers6 == t.leechers6
    requires forall i :: 0 <= i < |t'.departed| ==> SessionFits(t'.departed[i])
    ensures TorrentFits(t', mode, users)
  {
    forall x ensures ColumnFits(ColumnOf(t', x), x, t.id, mode, users) {
      assert ColumnFits(ColumnOf(t, x), x, t.id, mode, users);
    }
  }

  /** A step that leaves every torrent as it was, or fitting, keeps the invariant. */
  lemma TorrentsFit(w: World, w': World)
    requires WorldFits(w) && w'.mode == w.mode && UsersGrow(w.users, w'.users) && Settled(w'.users)
    requires forall k :: k in w'.passkeys ==> w'.passkeys[k] < |w'.users|
    requires forall ih :: ih in w'.torrents ==>
      (ih in w.torrents && w'.torrents[ih] == w.torrents[ih]) || TorrentFits(w'.torrents[ih], w.mode, w.users)
    requires forall i :: 0 <= i < |w'.lost| ==>
      (i < |w.lost| && w'.lost[i] == w.lost[i]) || TorrentFits(w'.lost[i], w.mode, w.users)
    ensures WorldFits(w')
  {
    forall i | 0 <= i < |w'.lost| ensures TorrentFits(w'.lost[i], w.mode, w'.users) {
      TorrentFitsGrow(w'.lost[i], w.mode, w.users, w'.users);
    }
    forall ih | ih in w'.torrents ensures TorrentFits(w'.torrents[ih], w.mode, w'.users) {
      TorrentFitsGrow(w'.torrents[ih], w.mode, w.users, w'.users);
    }
  }

  lemma OneTorrentFits(w: World, w': World, ih: string, t: TorrentV)
    requires WorldFits(w) && w'.mode == w.mode && UsersGrow(w.users, w'.users) && Settled(w'.users)
    requires w'.passkeys == w.passkeys && w'.torrents == w.torrents[ih := t] && TorrentFits(t, w.mode, w.users)
    requires w'.lost == w.lost
    ensures WorldFits(w')
  {
    TorrentsFit(w, w');
  }

  lemma BookFits(w: World, r: Announcement, v: Visit)
    requires WorldFits(w) && r.infoHash in w.torrents && UserFits(v.mid.user, w.mode, w.users)
    requires TorrentFits(TorrentAfter(w.torrents[r.infoHash], r, v), w.mode, w.users)
    ensures WorldFits(Book(w, r, v)) && UsersGrow(w.users, Book(w, r, v).users)
  {
    var t' := TorrentAfter(w.torrents[r.infoHash], r, v);
    var w1 := w.(torrents := w.torrents[r.infoHash := t']);
    OneTorrentFits(w, w1, r.infoHash, t');
    PayFits(w1, v.mid);
    assert Book(w, r, v).torrents == w1.torrents;
    SameFits(if w.mode.Private? then Pay(w1, v.mid) else w1, Book(w, r, v));
  }

  lemma SameFits(w: World, w': World)
    requires WorldFits(w) && w'.mode == w.mode && w'.users == w.users && w'.passkeys == w.passkeys
    requires w'.torrents == w.torrents && w'.lost == w.lost
    ensures WorldFits(w')
  {}

  lemma PayFits(w: World, p: PeerV)
    requires WorldFits(w) && UserFits(p.user, w.mode, w.users)
    ensures WorldFits(Pay(w, p)) && UsersGrow(w.users, Pay(w, p).users)
  {
    TorrentsFit(w, Pay(w, p));
  }

  lemma AcceptFits(w: World, r: Announcement)
    requires WorldFits(w) && RequestFits(r) && r.infoHash in w.torrents
    requires w.mode.Private? ==> Requester(w, r).Some?
    ensures WorldFits(Accept(w, r)) && UsersGrow(w.users, Accept(w, r).users)
  {
    VisitFits(w, w.torrents[r.infoHash], r);
    BookFits(w, r, VisitOf(w, w.torrents[r.infoHash], r));
  }

  lemma NewTorrentFits(id: nat, free: nat, mode: Mode, users: seq<UserV>)
    ensures TorrentFits(NewTorrent(id, free), mode, users)
  {}

  lemma AnnounceFits(w: World, r: Announcement)
    requires WorldFits(w) && RequestFits(r)
    ensures WorldFits(Announce(w, r)) && UsersGrow(w.users, Announce(w, r).users)
  {
    hide WorldFits, Accept, Whitelisted;
    if Refusal(w, r).None? {
      EnterFits(w, r);
      AcceptFits(Enter(w, r), r);
    }
  }

  lemma EnterFits(w: World, r: Announcement)
    requires WorldFits(w)
    ensures WorldFits(Enter(w, r))
  {
    NewTorrentFits(U32(w.stats.torrents), 0, w.mode, w.users);
    hide TorrentFits, Settled, NewTorrent;
    TorrentsFit(w, Enter(w, r));
  }

  lemma EvictFits(t: TorrentV, k: Key, mode: Mode, users: seq<UserV>)
    requires TorrentFits(t, mode, users) && k.id in t.Get(k.slot)
    ensures TorrentFits(Evict(t, k, mode), mode, users)
  {
    var c := ColumnOf(t, k.id);
    assert ColumnFits(c, k.id, t.id, mode, users);
    PutFits(c, k.slot, None, k.id, t.id, mode, users);
    ColumnGet(t, k);
    EvictColumnFits(t, k.id, c.Put(k.slot, None), Expired(t.Get(k.slot)[k.id], mode), mode, users);
  }

  lemma ColumnGet(t: TorrentV, k: Key)
    ensures ColumnOf(t, k.id).Get(k.slot) == Find(t.Get(k.slot), k.id)
  {}

  lemma EvictColumnFits(t: TorrentV, id: string, c: Column, p: PeerV, mode: Mode, users: seq<UserV>)
    requires TorrentFits(t, mode, users) && ColumnFits(c, id, t.id, mode, users) && SessionFits(p)
    ensures TorrentFits(WithColumn(t, id, c).(departed := t.departed + [p]), mode, users)
  {
    WithColumnFits(t, id, c, mode, users);
    ScalarsFit(WithColumn(t, id, c), WithColumn(t, id, c).(departed := t.departed + [p]), mode, users);
  }

  lemma {:induction false} SweepPeersFits(t: TorrentV, keys: seq<Key>, mode: Mode, now: int, timeout: int,
                                          users: seq<UserV>)
    requires TorrentFits(t, mode, users)
    ensures TorrentFits(SweepPeers(t, keys, mode, now, timeout).torrent, mode, users)
  {
    if keys != [] {
      var s := SweepPeers(t, keys[..|keys| - 1], mode, now, timeout);
      SweepPeersFits(t, keys[..|keys| - 1], mode, now, timeout, users);
      if Stale(s.torrent, keys[|keys| - 1], now, timeout) { EvictFits(s.torrent, keys[|keys| - 1], mode, users); }
    }
  }

  lemma CloseFits(w: World, ih: string, s: Swept)
    requires WorldFits(w) && ih in w.torrents && TorrentFits(s.torrent, w.mode, w.users)
    ensures WorldFits(Close(w, ih, s)) && Close(w, ih, s).users == w.users
  {
    OneTorrentFits(w, w.(torrents := w.torrents[ih := s.torrent], peerLog := w.peerLog + s.rows), ih, s.torrent);
  }

  lemma SweepTorrentFits(w: World, turn: Turn, now: int)
    requires WorldFits(w) && turn.infoHash in w.torrents
    ensures WorldFits(SweepTorrent(w, turn, now)) && SweepTorrent(w, turn, now).users == w.users
  {
    SweepPeersFits(w.torrents[turn.infoHash], turn.keys, w.mode, now, w.timeout, w.users);
    CloseFits(w, turn.infoHash, SweepPeers(w.torrents[turn.infoHash], turn.keys, w.mode, now, w.timeout));
  }

  lemma {:induction false} SweepFits(w: World, plan: seq<Turn>, now: int)
    requires WorldFits(w)
    ensures WorldFits(Sweep(w, plan, now)) && Sweep(w, plan, now).users == w.users
  {
    if plan != [] {
      var w1 := Sweep(w, plan[..|plan| - 1], now);
      SweepFits(w, plan[..|plan| - 1], now);
      if plan[|plan| - 1].infoHash in w1.torrents { SweepTorrentFits(w1, plan[|plan| - 1], now); }
    }
  }

  predicate StepFits(s: Step) { s.DoAnnounce? ==> RequestFits(s.r) }

  lemma SetFreeFits(w: World, ih: string, free: nat)
    requires WorldFits(w)
    ensures WorldFits(SetFree(w, ih, free))
  {
    if ih in w.torrents {
      var t := w.torrents[ih].(free := free);
      ScalarsFit(w.torrents[ih], t, w.mode, w.users);
      OneTorrentFits(w, SetFree(w, ih, free), ih, t);
    }
  }

  lemma AddTorrentFits(w: World, ih: string, id: nat, free: nat)
    requires WorldFits(w)
    ensures WorldFits(AddTorrent(w, ih, id, free))
  {
    if ih in w.torrents { SetFreeFits(w, ih, free); } else {
      NewTorrentFits(id, free, w.mode, w.users);
      OneTorrentFits(w, AddTorrent(w, ih, id, free), ih, NewTorrent(id, free));
    }
  }

  lemma TakeFits(w: World, s: Step)
    requires WorldFits(w) && StepFits(s)
    ensures WorldFits(Take(w, s)) && UsersGrow(w.users, Take(w, s).users)
  {
    match s
    case DoAnnounce(r) => AnnounceFits(w, r);
    case DoSweep(plan, now) => SweepFits(w, plan, now);
    case DoAddTorrent(ih, id, free) => AddTorrentFits(w, ih, id, free);
    case DoSetFree(ih, free) => SetFreeFits(w, ih, free);
    case DoDeleteTorrent(ih) => DeleteTorrentFits(w, ih);
    case DoEdit(e) => EditFits(w, e); hide WorldFits, UsersGrow;
  }

  lemma DeleteTorrentFits(w: World, ih: string)
    requires WorldFits(w)
    ensures WorldFits(DeleteTorrent(w, ih)) && UsersGrow(w.users, DeleteTorrent(w, ih).users)
  {
    hide TorrentFits;
    TorrentsFit(w, DeleteTorrent(w, ih));
  }

  /** An edit may change users and passkeys, but no id and no pending credit. */
  lemma EditFits(w: World, e: Edit)
    requires WorldFits(w)
    ensures WorldFits(Edited(w, e)) && UsersGrow(w.users, Edited(w, e).users)
  {
    hide TorrentFits, Texts, Without, Long2Ip;
    EditIsLocal(w, e);
    TorrentsFit(w, Edited(w, e));
  }

  /** After any run, whatever the steps, every entry sits under its own peer id in its own torrent, with a packed
      address of the family of its set, and no user has pending credit. */
  lemma {:induction false} RunFits(w: World, steps: seq<Step>)
    requires WorldFits(w) && forall i :: 0 <= i < |steps| ==> StepFits(steps[i])
    ensures WorldFits(Run(w, steps))
  {
    if steps != [] {
      RunFits(w, steps[..|steps| - 1]);
      TakeFits(Run(w, steps[..|steps| - 1]), steps[|steps| - 1]);
    }
  }
}
