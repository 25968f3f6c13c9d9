/** The steps of an accepted announce, and the turns of a sweep, put together on values. */
module Pieces {
  import opened Words
  import opened Options
  import opened Ledger
  import opened Tracker
  import opened Slots
  import opened Sweeps

  lemma AdmittedLeecher(t: TorrentV, r: Announcement, newcomer: PeerV)
    ensures var c := ColumnOf(t, r.peerID);
            var s := LeechSlot(r);
            var q := FoundOr(c.Get(s), newcomer);
            var t1 := WithColumn(t, r.peerID, c.Put(s, Some(q)));
            && ColumnOf(t1, r.peerID).Get(s) == Some(q)
            && Snatched(WithColumn(t, r.peerID, Tracker.AdmitLeecher(c, r, newcomer)), r)
               == if !Leeching(r) then t else if !r.event.Completed? then t1
                  else WithColumn(t1, r.peerID, ColumnOf(t1, r.peerID).Put(s, Some(q.(completed := true)))).(
                         snatches := U32(t1.snatches + 1))
  {
    var c := ColumnOf(t, r.peerID);
    var q := FoundOr(c.Get(LeechSlot(r)), newcomer);
    Rewritten(t, r.peerID, c.Put(LeechSlot(r), Some(q)), c.Put(LeechSlot(r), Some(q.(completed := true))));
    hide ColumnOf, Store, U32;
  }

  /** The torrent after its peer before, in set s, moved on to mid and was recorded. */
  function Updated(t: TorrentV, r: Announcement, s: Slot, before: PeerV, mid: PeerV, mode: Mode): TorrentV {
    WithColumn(t, r.peerID, ColumnOf(t, r.peerID).Put(s, Some(Finish(mid, mode)))).(
      balance := I64(t.balance + BalanceMove(before, mid, r, mode)))
  }

  lemma UpdatedTwice(t: TorrentV, id: string, s: Slot, mid: PeerV, after: PeerV, balance: int)
    ensures var t1 := WithColumn(t, id, ColumnOf(t, id).Put(s, Some(mid)));
            var t2 := t1.(balance := I64(t1.balance + balance));
            WithColumn(t2, id, ColumnOf(t2, id).Put(s, Some(after)))
            == WithColumn(t, id, ColumnOf(t, id).Put(s, Some(after))).(balance := I64(t.balance + balance))
  {
    Rewritten(t, id, ColumnOf(t, id).Put(s, Some(mid)), ColumnOf(t, id).Put(s, Some(after)));
    hide Store, Find, I64;
  }

  /** What a peer's last deltas do to the users, and the rows that come of it. */
  datatype Payment = Payment(users: seq<UserV>, rows: seq<UserRow>)

  function PaymentOf(users: seq<UserV>, p: PeerV): Payment {
    if p.user.Some? && p.user.value.handle < |users| then
      var h := p.user.value.handle;
      var u := Credited(users[h], p.downloaded, p.uploaded);
      Payment(users[h := Reset(u)], UserRows(u))
    else Payment(users, [])
  }

  /** v is what the announce makes of the torrent t and the books b, and t' and b' are what they become. */
  ghost predicate Served(r: Announcement, terms: Terms, newcomer: PeerV, t: TorrentV, b: BooksV, v: Visit,
                         t': TorrentV, b': BooksV) {
    && v == Serve(ColumnOf(t, r.peerID), r, terms, newcomer)
    && t' == TorrentAfter(t, r, v)
    && b' == LeftBooks(MovedBooks(AddedBooks(b, Added(ColumnOf(t, r.peerID), r)), v.before, v.mid, terms.mode), r)
    && (terms.mode.Private? <==> v.mid.user.Some?)
  }

  function BooksOf(w: World): BooksV { BooksV(w.stats, w.users, w.userLog, w.peerLog) }

  /** A world with a torrent and the books replaced, and the torrent's row recorded. */
  function Rebooked(w: World, ih: string, t: TorrentV, b: BooksV): World {
    w.(torrents := w.torrents[ih := t], stats := b.stats, users := b.users, userLog := b.userLog, peerLog := b.peerLog,
       torrentLog := w.torrentLog + (if w.mode.Public? then [] else [TorrentRowOf(t)]), synced := w.synced + {ih})
  }

  lemma ServedBooks(w: World, r: Announcement, v: Visit, t': TorrentV, b': BooksV)
    requires r.infoHash in w.torrents
    requires var t := w.torrents[r.infoHash];
             Served(r, TermsOf(w, t), NewPeer(r, Requester(w, r), t.id), t, BooksOf(w), v, t', b')
    ensures v == VisitOf(w, w.torrents[r.infoHash], r)
    ensures Book(w, r, v) == Rebooked(w, r.infoHash, t', b')
    ensures b'.stats.peers < 0x1_0000_0000_0000_0000
  {
    hide TorrentAfter, Serve, NewPeer, PeerRowOf, TorrentRowOf, Added, U32, Credited, Reset, UserRows, Requester,
         ColumnOf;
  }

  lemma EnterIs(w: World, r: Announcement)
    ensures Requester(Tracker.Enter(w, r), r) == Requester(w, r)
    ensures Refusal(w, r).None? ==> r.infoHash in Tracker.Enter(w, r).torrents
  {
    hide Whitelisted;
  }

  function Closing(w: World, ih: string, changed: nat): World
    requires ih in w.torrents
  {
    if w.mode.Public? then if Empty(w.torrents[ih]) then Drop(w, ih) else w
    else if changed > 0 then w.(torrentLog := w.torrentLog + [TorrentRowOf(w.torrents[ih])])
    else w
  }

  lemma CloseIsClosing(w: World, ih: string, s: Swept)
    requires ih in w.torrents
    ensures Close(w, ih, s) == Closing(w.(torrents := w.torrents[ih := s.torrent], peerLog := w.peerLog + s.rows), ih,
                                       s.changed)
  {
    hide Empty, TorrentRowOf;
  }

  /** The plan so far goes over these torrents of w, each once and all its peers. */
  ghost predicate Planned(w: World, plan: seq<Turn>, done: set<string>) {
    && (forall i, j :: 0 <= i < j < |plan| ==> plan[i].infoHash != plan[j].infoHash)
    && (forall i :: 0 <= i < |plan| ==> plan[i].infoHash in done && plan[i].infoHash in w.torrents
                                        && VisitsPeers(plan[i].keys, w.torrents[plan[i].infoHash]))
    && (forall ih :: ih in done ==> exists i :: 0 <= i < |plan| && plan[i].infoHash == ih)
  }

  lemma PlanMore(w: World, plan: seq<Turn>, turn: Turn, done: set<string>)
    requires Planned(w, plan, done) && turn.infoHash !in done && turn.infoHash in w.torrents
    requires VisitsPeers(turn.keys, w.torrents[turn.infoHash])
    ensures Planned(w, plan + [turn], done + {turn.infoHash})
  {
    hide VisitsPeers;
    forall ih | ih in done + {turn.infoHash}
      ensures exists i :: 0 <= i < |plan + [turn]| && (plan + [turn])[i].infoHash == ih
    {
      if ih in done {
        var i :| 0 <= i < |plan| && plan[i].infoHash == ih;
        assert (plan + [turn])[i].infoHash == ih;
      } else {
        assert (plan + [turn])[|plan|].infoHash == ih;
      }
    }
  }

  lemma PlanNothing(w: World, now: int)
    ensures Midway(w, [], {}, now, w)
  {}

  lemma PlanDone(w: World, plan: seq<Turn>, now: int, w1: World)
    requires Midway(w, plan, w.torrents.Keys, now, w1)
    ensures SweepPlan(w, plan) && w1 == Sweep(w, plan, now)
  {
    hide VisitsPeers;
  }

  /** A torrent whose turn has not come is as it was. */
  lemma NotYet(w: World, plan: seq<Turn>, now: int, done: set<string>, ih: string)
    requires Planned(w, plan, done) && ih !in done && ih in w.torrents
    ensures ih in Sweep(w, plan, now).torrents && Sweep(w, plan, now).torrents[ih] == w.torrents[ih]
  {
    SweepEach(w, plan, now, ih);
    hide VisitsPeers, Sweep, SweepPeers;
  }

  /** The sweep of w has gone through the torrents in `done` by this plan and has made it w1. */
  ghost predicate Midway(w: World, plan: seq<Turn>, done: set<string>, now: int, w1: World) {
    Planned(w, plan, done) && w1 == Sweep(w, plan, now)
  }

  /** The keys fall into those done and those still to do. */
  predicate Divides<K>(keys: set<K>, done: set<K>, rest: set<K>) { done !! rest && done + rest == keys }

  lemma DividesAll<K>(keys: set<K>)
    ensures Divides(keys, {}, keys)
  {}

  lemma DividesMore<K>(keys: set<K>, done: set<K>, rest: set<K>, k: K)
    requires Divides(keys, done, rest) && k in rest
    ensures Divides(keys, done + {k}, rest - {k}) && k in keys && k !in done
  {}

  lemma DividesDone<K>(keys: set<K>, done: set<K>)
    requires Divides(keys, done, {})
    ensures done == keys
  {}

  lemma TurnTaken(w: World, plan: seq<Turn>, done: set<string>, now: int, w1: World, turn: Turn)
    requires Midway(w, plan, done, now, w1) && turn.infoHash !in done && turn.infoHash in w.torrents
    requires turn.infoHash in w1.torrents && VisitsPeers(turn.keys, w1.torrents[turn.infoHash])
    ensures Midway(w, plan + [turn], done + {turn.infoHash}, now, SweepTorrent(w1, turn, now))
  {
    NotYet(w, plan, now, done, turn.infoHash);
    PlanMore(w, plan, turn, done);
    SweepMore(w, plan, turn, now);
  }

  lemma SweepMore(w: World, plan: seq<Turn>, turn: Turn, now: int)
    requires turn.infoHash in Sweep(w, plan, now).torrents
    ensures Sweep(w, plan + [turn], now) == SweepTorrent(Sweep(w, plan, now), turn, now)
  {
    assert (plan + [turn])[..|plan|] == plan;
  }

  datatype BooksV = BooksV(stats: StatsV, users: seq<UserV>, userLog: seq<UserRow>, peerLog: seq<PeerRow>)

  function AddedBooks(b: BooksV, added: nat): BooksV { b.(stats := b.stats.(peers := U64(b.stats.peers + added))) }

  function MovedBooks(b: BooksV, before: PeerV, mid: PeerV, mode: Mode): BooksV {
    BooksV(if mode.Private? then UpdateGauges(b.stats, before, mid) else b.stats,
           PaymentOf(b.users, mid).users, b.userLog + PaymentOf(b.users, mid).rows,
           b.peerLog + if mode.Public? then [] else [PeerRowOf(mode, mid)])
  }

  function LeftBooks(b: BooksV, r: Announcement): BooksV {
    if r.event.Updating? then b else b.(stats := b.stats.(peers := U64(b.stats.peers - 1)))
  }

  lemma RefreshKeepsUser(p: PeerV, r: Announcement, mode: Mode, free: nat)
    ensures Refresh(p, r, mode, free).user == p.user
  {}

  function Removed(t: TorrentV, id: string, s: Slot): TorrentV {
    var c := ColumnOf(t, id);
    WithColumn(t, id, c.Put(s, None)).(departed := t.departed + if c.Get(s).Some? then [c.Get(s).value] else [])
  }

  function Left(t: TorrentV, r: Announcement): TorrentV {
    match r.event
    case Stopped => Removed(t, r.peerID, if r.finished then SeedSlot(r) else LeechSlot(r))
    case Completed => Removed(t, r.peerID, if r.ipv6 then Leechers else Leechers6)
    case Updating => t
  }

  /** A torrent with one column and what an announce moves replaced. */
  function Rebuilt(t: TorrentV, id: string, c: Column, snatches: nat, balance: int, departed: seq<PeerV>): TorrentV {
    WithColumn(t, id, c).(snatches := snatches, balance := balance, departed := departed)
  }

  lemma RebuiltParts(t: TorrentV, id: string, c: Column, snatches: nat, balance: int, departed: seq<PeerV>)
    ensures var x := Rebuilt(t, id, c, snatches, balance, departed);
            ColumnOf(x, id) == c && x.snatches == snatches && x.balance == balance && x.departed == departed
  {
    Rewritten(t, id, c, c);
    hide Store, Find;
  }

  lemma RebuiltTwice(t: TorrentV, id: string, c: Column, snatches: nat, balance: int, departed: seq<PeerV>,
                     c': Column, snatches': nat, balance': int, departed': seq<PeerV>)
    ensures var x := Rebuilt(t, id, c, snatches, balance, departed);
            Rebuilt(x, id, c', snatches', balance', departed') == Rebuilt(t, id, c', snatches', balance', departed')
  {
    Rewritten(t, id, c, c');
    hide Store, Find;
  }

  lemma PlainRebuilt(t: TorrentV, id: string, c: Column)
    ensures WithColumn(t, id, c) == Rebuilt(t, id, c, t.snatches, t.balance, t.departed)
  {
    hide Store;
  }

  /** The steps of an announce, one after the other, make the torrent what the whole announce makes it. */
  lemma ServedTorrent(t: TorrentV, r: Announcement, terms: Terms, newcomer: PeerV)
    ensures var c := ColumnOf(t, r.peerID);
            var v := Serve(c, r, terms, newcomer);
            var t2 := Admitted(t, r, newcomer);
            var adm := ColumnOf(t2, r.peerID);
            Left(Updated(t2, r, Target(adm, r), v.before, v.mid, terms.mode), r) == TorrentAfter(t, r, v)
  {
    hide WithColumn, ColumnOf, Store, Find, Tracker.AdmitLeecher, Tracker.AdmitSeeder, Refresh, Finish,
         BalanceMove, FreePercent, U32, I64;
    hide Rebuilt, Target;
    var id, c := r.peerID, ColumnOf(t, r.peerID);
    var v := Serve(c, r, terms, newcomer);
    var adm := Admit(c, r, newcomer);
    var c1 := Tracker.AdmitLeecher(c, r, newcomer);
    var stored := adm.Put(Target(adm, r), Some(v.after));
    var sn := if r.event.Completed? then U32(t.snatches + 1) else t.snatches;
    SnatchedIs(t, r, c1);
    RebuiltParts(t, id, c1, sn, t.balance, t.departed);
    var t1 := Rebuilt(t, id, c1, sn, t.balance, t.departed);
    PlainRebuilt(t1, id, adm);
    RebuiltTwice(t, id, c1, sn, t.balance, t.departed, adm, sn, t.balance, t.departed);
    RebuiltParts(t, id, adm, sn, t.balance, t.departed);
    UpdatedIs(t, r, adm, sn, Target(adm, r), v.before, v.mid, terms.mode);
    LeftIs(t, r, stored, sn, I64(t.balance + v.balance));
    AfterIs(t, r, v);
  }

  lemma ServedBy(t: TorrentV, r: Announcement, terms: Terms, newcomer: PeerV, free: nat, before: PeerV)
    requires var adm := ColumnOf(Admitted(t, r, newcomer), r.peerID);
             adm.Get(Target(adm, r)) == Some(before) && (terms.mode.Private? ==> free == FreePercent(adm, r, terms))
    ensures var v := Serve(ColumnOf(t, r.peerID), r, terms, newcomer);
            var t2 := Admitted(t, r, newcomer);
            && v.before == before && v.mid == Refresh(before, r, terms.mode, free)
            && Left(Updated(t2, r, Target(ColumnOf(t2, r.peerID), r), before, v.mid, terms.mode), r)
               == TorrentAfter(t, r, v)
  {
    ServedTorrent(t, r, terms, newcomer);
    AdmittedParts(t, r, newcomer);
    hide Admitted, Admit, Target, FreePercent, Updated, Left, TorrentAfter, ColumnOf, Finish, BalanceMove, WithLeecher;
  }

  lemma SnatchedIs(t: TorrentV, r: Announcement, c: Column)
    ensures Snatched(WithColumn(t, r.peerID, c), r)
         == Rebuilt(t, r.peerID, c, if r.event.Completed? then U32(t.snatches + 1) else t.snatches,
                    t.balance, t.departed)
  {
    hide Store, U32;
  }

  lemma UpdatedIs(t: TorrentV, r: Announcement, c: Column, snatches: nat, s: Slot, before: PeerV, mid: PeerV,
                  mode: Mode)
    ensures Updated(Rebuilt(t, r.peerID, c, snatches, t.balance, t.departed), r, s, before, mid, mode)
         == Rebuilt(t, r.peerID, c.Put(s, Some(Finish(mid, mode))), snatches,
                    I64(t.balance + BalanceMove(before, mid, r, mode)), t.departed)
  {
    Rewritten(t, r.peerID, c, c.Put(s, Some(Finish(mid, mode))));
    hide Store, Find, I64, BalanceMove, Finish;
  }

  lemma LeftIs(t: TorrentV, r: Announcement, c: Column, snatches: nat, balance: int)
    ensures Left(Rebuilt(t, r.peerID, c, snatches, balance, t.departed), r)
         == Rebuilt(t, r.peerID, Leave(c, r), snatches, balance, t.departed + Gone(c, r))
  {
    hide Removed, Rebuilt;
    match r.event
    case Stopped => RemovedIs(t, r.peerID, if r.finished then SeedSlot(r) else LeechSlot(r), c, snatches, balance);
    case Completed => RemovedIs(t, r.peerID, if r.ipv6 then Leechers else Leechers6, c, snatches, balance);
    case Updating => assert t.departed + [] == t.departed;
  }

  lemma RemovedIs(t: TorrentV, id: string, s: Slot, c: Column, snatches: nat, balance: int)
    ensures Removed(Rebuilt(t, id, c, snatches, balance, t.departed), id, s)
         == Rebuilt(t, id, c.Put(s, None), snatches, balance,
                    t.departed + if c.Get(s).Some? then [c.Get(s).value] else [])
  {
    Rewritten(t, id, c, c.Put(s, None));
    hide Store, Find;
  }

  lemma AfterIs(t: TorrentV, r: Announcement, v: Visit)
    ensures TorrentAfter(t, r, v)
         == Rebuilt(t, r.peerID, v.column, if r.event.Completed? then U32(t.snatches + 1) else t.snatches,
                    I64(t.balance + v.balance), t.departed + v.gone)
  {
    hide Store, U32, I64;
  }

  lemma StoreNone(m: PeerMap, id: string)
    ensures Store(m, id, None) == m - {id}
  {}

  function WithLeecher(t: TorrentV, r: Announcement, newcomer: PeerV): TorrentV {
    Snatched(WithColumn(t, r.peerID, Tracker.AdmitLeecher(ColumnOf(t, r.peerID), r, newcomer)), r)
  }

  /** The torrent once the announcing peer is in it. */
  function Admitted(t: TorrentV, r: Announcement, newcomer: PeerV): TorrentV {
    WithColumn(WithLeecher(t, r, newcomer), r.peerID, Admit(ColumnOf(t, r.peerID), r, newcomer))
  }

  lemma AdmittedParts(t: TorrentV, r: Announcement, newcomer: PeerV)
    ensures var t1 := WithLeecher(t, r, newcomer);
            var c1 := Tracker.AdmitLeecher(ColumnOf(t, r.peerID), r, newcomer);
            && ColumnOf(t1, r.peerID) == c1
            && Admitted(t, r, newcomer) == WithColumn(t1, r.peerID, Tracker.AdmitSeeder(c1, r, newcomer))
            && ColumnOf(Admitted(t, r, newcomer), r.peerID) == Admit(ColumnOf(t, r.peerID), r, newcomer)
            && ColumnOf(Admitted(t, r, newcomer), r.peerID) == Tracker.AdmitSeeder(c1, r, newcomer)
  {
    hide Store, Find, Tracker.AdmitLeecher, Tracker.AdmitSeeder, U32;
    var c1 := Tracker.AdmitLeecher(ColumnOf(t, r.peerID), r, newcomer);
    Rewritten(t, r.peerID, c1, c1);
    Rewritten(WithLeecher(t, r, newcomer), r.peerID, Tracker.AdmitSeeder(c1, r, newcomer), c1);
  }

  lemma AddedIs(c: Column, r: Announcement, newcomer: PeerV, b: BooksV)
    requires b.stats.peers < 0x1_0000_0000_0000_0000
    ensures var c1 := Tracker.AdmitLeecher(c, r, newcomer);
            var m := if AddsLeecher(c, r) then AddedBooks(b, 1) else b;
            AddedBooks(b, Added(c, r)) == if AddsSeeder(c1, r) then AddedBooks(m, 1) else m
  {}

  function Snatched(t: TorrentV, r: Announcement): TorrentV {
    if r.event.Completed? then t.(snatches := U32(t.snatches + 1)) else t
  }

  /** A column written twice holds what was written last. */
  lemma Rewritten(t: TorrentV, id: string, c: Column, c': Column)
    ensures ColumnOf(WithColumn(t, id, c), id) == c
    ensures WithColumn(WithColumn(t, id, c), id, c') == WithColumn(t, id, c')
    ensures WithColumn(t, id, ColumnOf(t, id)) == t
  {
    StoreTwice(t.seeders, id, c.seeder, c'.seeder);
    StoreTwice(t.seeders6, id, c.seeder6, c'.seeder6);
    StoreTwice(t.leechers, id, c.leecher, c'.leecher);
    StoreTwice(t.leechers6, id, c.leecher6, c'.leecher6);
    StoreFound(t.seeders, id);
    StoreFound(t.seeders6, id);
    StoreFound(t.leechers, id);
    StoreFound(t.leechers6, id);
    hide Store, Find;
  }

  lemma StoreTwice(m: PeerMap, id: string, o: Option<PeerV>, o': Option<PeerV>)
    ensures Find(Store(m, id, o), id) == o && Store(Store(m, id, o), id, o') == Store(m, id, o')
  {}
}
