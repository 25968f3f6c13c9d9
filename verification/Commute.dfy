/** Announces of different peers do not interfere: each touches its own column only, and two of them commute. */
module Commute {
  import opened Words
  import opened Options
  import opened Ledger
  import opened Tracker
  import opened Sums
  import opened Shape
  import opened Conservation
  import opened Meters

  /** Equal but for the order in which the history lists the erased peers. */
  ghost predicate SameTorrent(t: TorrentV, t': TorrentV) {
    t.(departed := []) == t'.(departed := [])
  }

  ghost predicate SameTorrents(ts: map<string, TorrentV>, ts': map<string, TorrentV>) {
    ts.Keys == ts'.Keys && forall ih :: ih in ts ==> SameTorrent(ts[ih], ts'[ih])
  }

  // ---------------------------------------------------------------- locality

  /** An announce changes only what is stored under its own peer id in its own torrent. */
  lemma AnnounceIsLocal(w: World, r: Announcement, ih: string, id: string)
    requires ih in w.torrents && (ih != r.infoHash || id != r.peerID)
    ensures ih in Announce(w, r).torrents && ColumnOf(Announce(w, r).torrents[ih], id) == ColumnOf(w.torrents[ih], id)
  {
    hide VisitOf, Book, ColumnOf, WithColumn;
    if Refusal(w, r).None? {
      var e := Enter(w, r);
      var t := e.torrents[r.infoHash];
      var v := VisitOf(e, t, r);
      BookTorrents(e, r, v);
      if id != r.peerID { AfterOther(t, r, v, id); }
    }
  }

  lemma AfterOther(t: TorrentV, r: Announcement, v: Visit, id: string)
    requires id != r.peerID
    ensures ColumnOf(TorrentAfter(t, r, v), id) == ColumnOf(t, id)
  {
    ColumnOfOther(t, r.peerID, v.column, id);
    hide I64, U32;
  }

  // ---------------------------------------------------------------- what an accepted private announce does

  /** The peer count after `added` insertions and, for a stopped or completed peer, one removal. */
  function Counted(n: nat, added: nat, r: Announcement): nat {
    if r.event.Updating? then U64(n + added) else U64(U64(n + added) - 1)
  }

  /** The statistics after a visit. */
  function Gauged(s: StatsV, r: Announcement, added: nat, v: Visit): StatsV {
    UpdateGauges(s.(peers := Counted(s.peers, added, r)), v.before, v.mid)
  }

  function Rows(w: World, p: PeerV): seq<UserRow> {
    if p.user.Some? && p.user.value.handle < |w.users| then
      UserRows(Credited(w.users[p.user.value.handle], p.downloaded, p.uploaded))
    else []
  }

  lemma PayKeepsUsers(w: World, p: PeerV)
    requires Settled(w.users)
    ensures Pay(w, p) == w.(userLog := w.userLog + Rows(w, p))
  {
    if p.user.Some? && p.user.value.handle < |w.users| {
      var h := p.user.value.handle;
      var u := w.users[h];
      assert !HasChanged(u);
      assert Reset(Credited(u, p.downloaded, p.uploaded)) == u;
      assert w.users[h := u] == w.users;
    } else {
      assert w.userLog + [] == w.userLog;
    }
  }

  /** With all users settled, an announce leaves them as they are: credit goes straight into rows. */
  lemma BookPrivate(w: World, r: Announcement, v: Visit)
    requires r.infoHash in w.torrents && w.mode.Private? && Settled(w.users)
    ensures var t := w.torrents[r.infoHash];
            Book(w, r, v) == w.(
              torrents := w.torrents[r.infoHash := TorrentAfter(t, r, v)],
              stats := Gauged(w.stats, r, Added(ColumnOf(t, r.peerID), r), v),
              peerLog := w.peerLog + [PeerRowOf(w.mode, v.mid)],
              torrentLog := w.torrentLog + [TorrentRowOf(TorrentAfter(t, r, v))],
              userLog := w.userLog + Rows(w, v.mid),
              synced := w.synced + {r.infoHash})
  {
    var t := w.torrents[r.infoHash];
    var w2 := w.(
      torrents := w.torrents[r.infoHash := TorrentAfter(t, r, v)],
      stats := Gauged(w.stats, r, Added(ColumnOf(t, r.peerID), r), v),
      peerLog := w.peerLog + [PeerRowOf(w.mode, v.mid)],
      torrentLog := w.torrentLog + [TorrentRowOf(TorrentAfter(t, r, v))],
      synced := w.synced + {r.infoHash});
    hide TorrentAfter, PeerRowOf, TorrentRowOf, UpdateGauges, Added, ColumnOf;
    PayKeepsUsers(w2, v.mid);
    assert Book(w, r, v) == Pay(w2, v.mid);
  }

  // ---------------------------------------------------------------- commuting

  lemma StoreCommutes(m: PeerMap, x: string, o: Option<PeerV>, y: string, p: Option<PeerV>)
    requires x != y
    ensures Store(Store(m, x, o), y, p) == Store(Store(m, y, p), x, o)
  {}

  lemma TorrentAfterCommutes(t: TorrentV, a: Announcement, va: Visit, b: Announcement, vb: Visit)
    requires a.peerID != b.peerID
    ensures SameTorrent(TorrentAfter(TorrentAfter(t, a, va), b, vb), TorrentAfter(TorrentAfter(t, b, vb), a, va))
  {
    StoreCommutes(t.seeders, a.peerID, va.column.seeder, b.peerID, vb.column.seeder);
    StoreCommutes(t.seeders6, a.peerID, va.column.seeder6, b.peerID, vb.column.seeder6);
    StoreCommutes(t.leechers, a.peerID, va.column.leecher, b.peerID, vb.column.leecher);
    StoreCommutes(t.leechers6, a.peerID, va.column.leecher6, b.peerID, vb.column.leecher6);
    WrapCommutes(t.balance, va.balance, vb.balance);
    hide Store;
  }

  lemma WrapCommutes(x: int, a: int, b: int)
    ensures I64(I64(x + a) + b) == I64(I64(x + b) + a)
    ensures U64(U64(x + a) + b) == U64(U64(x + b) + a)
  {
    WrapPlus(x + a, b);
    WrapPlus(x + b, a);
    SignedPlus(x + a, b);
    SignedPlus(x + b, a);
    hide U64;
  }

  lemma SignedPlus(x: int, a: int)
    ensures U64(I64(x) + a) == U64(x + a)
  {}

  lemma WrapPlus(x: int, a: int)
    ensures U64(U64(x) + a) == U64(x + a)
  {}

  lemma PeersCommute(n: nat, a: Announcement, na: nat, b: Announcement, nb: nat)
    ensures Counted(Counted(n, na, a), nb, b) == Counted(Counted(n, nb, b), na, a)
  {
    CountedIsSum(n, na, a);
    CountedIsSum(n, nb, b);
    CountedIsSum(Counted(n, na, a), nb, b);
    CountedIsSum(Counted(n, nb, b), na, a);
    hide Counted, U64, I64;
    WrapCommutes(n, if a.event.Updating? then na else na - 1, if b.event.Updating? then nb else nb - 1);
  }

  lemma CountedIsSum(n: nat, added: nat, r: Announcement)
    ensures Counted(n, added, r) == U64(n + if r.event.Updating? then added else added - 1)
  {
    WrapPlus(n + added, -1);
  }

  lemma SpeedCommutes(x: int, da: int, ia: int, db: int, ib: int)
    ensures U64(U64(U64(U64(x - da) + ia) - db) + ib) == U64(U64(U64(U64(x - db) + ib) - da) + ia)
  {
    hide U64;
    WrapPlus(x - da, ia);
    WrapPlus(x - da + ia, -db);
    WrapPlus(x - da + ia - db, ib);
    WrapPlus(x - db, ib);
    WrapPlus(x - db + ib, -da);
    WrapPlus(x - db + ib - da, ia);
  }

  lemma GaugedFields(s: StatsV, r: Announcement, added: nat, v: Visit)
    ensures Gauged(s, r, added, v) == StatsV(
              Counted(s.peers, added, r), s.torrents,
              U64(U64(s.speed - Measure(Speed, v.before)) + Measure(Speed, v.mid)),
              U64(s.transferred + U64(v.mid.downloaded + v.mid.uploaded) / 2))
  {}

  lemma GaugedCommutes(s: StatsV, a: Announcement, na: nat, va: Visit, b: Announcement, nb: nat, vb: Visit)
    ensures Gauged(Gauged(s, a, na, va), b, nb, vb) == Gauged(Gauged(s, b, nb, vb), a, na, va)
  {
    GaugedFields(s, a, na, va);
    GaugedFields(s, b, nb, vb);
    GaugedFields(Gauged(s, a, na, va), b, nb, vb);
    GaugedFields(Gauged(s, b, nb, vb), a, na, va);
    hide U64, I64, Counted, Gauged, Measure;
    PeersCommute(s.peers, a, na, b, nb);
    WrapCommutes(s.transferred, U64(va.mid.downloaded + va.mid.uploaded) / 2,
                 U64(vb.mid.downloaded + vb.mid.uploaded) / 2);
    SpeedCommutes(s.speed, Measure(Speed, va.before), Measure(Speed, va.mid), Measure(Speed, vb.before),
                  Measure(Speed, vb.mid));
  }

  /** What peer b finds does not depend on whether peer a announced first. */
  lemma VisitIgnoresOther(w: World, a: Announcement, va: Visit, b: Announcement)
    requires w.mode.Private? && Settled(w.users) && a.peerID != b.peerID
    requires a.infoHash in w.torrents && b.infoHash in w.torrents
    ensures var w' := Book(w, a, va);
            && VisitOf(w', w'.torrents[b.infoHash], b) == VisitOf(w, w.torrents[b.infoHash], b)
            && Added(ColumnOf(w'.torrents[b.infoHash], b.peerID), b)
               == Added(ColumnOf(w.torrents[b.infoHash], b.peerID), b)
            && Refusal(w', b) == Refusal(w, b)
            && Rows(w', VisitOf(w, w.torrents[b.infoHash], b).mid) == Rows(w, VisitOf(w, w.torrents[b.infoHash], b).mid)
  {
    hide Serve, UpdateGauges, Whitelisted;
    BookPrivate(w, a, va);
    ColumnOfOther(w.torrents[a.infoHash], a.peerID, va.column, b.peerID);
    var w' := Book(w, a, va);
    assert w'.torrents.Keys == w.torrents.Keys;
    assert ColumnOf(w'.torrents[b.infoHash], b.peerID) == ColumnOf(w.torrents[b.infoHash], b.peerID);
  }

  /** What is kept of two worlds that differ only in the order of rows and of history. */
  ghost predicate SameMemory(w: World, w': World) {
    && SameTorrents(w.torrents, w'.torrents)
    && w'.users == w.users && w'.passkeys == w.passkeys && w'.stats == w.stats
    && multiset(w'.userLog) == multiset(w.userLog)
    && multiset(w'.peerLog) == multiset(w.peerLog)
  }

  lemma BooksCommute(w: World, a: Announcement, va: Visit, b: Announcement, vb: Visit)
    requires w.mode.Private? && Settled(w.users) && a.peerID != b.peerID
    requires a.infoHash in w.torrents && b.infoHash in w.torrents
    requires Added(ColumnOf(Book(w, a, va).torrents[b.infoHash], b.peerID), b)
             == Added(ColumnOf(w.torrents[b.infoHash], b.peerID), b)
    requires Added(ColumnOf(Book(w, b, vb).torrents[a.infoHash], a.peerID), a)
             == Added(ColumnOf(w.torrents[a.infoHash], a.peerID), a)
    ensures SameMemory(Book(Book(w, a, va), b, vb), Book(Book(w, b, vb), a, va))
  {
    hide Book, Added, ColumnOf, PeerRowOf, TorrentRowOf, TorrentAfter, Gauged, Rows;
    var wa, wb := Book(w, a, va), Book(w, b, vb);
    BookPrivate(w, a, va);
    BookPrivate(w, b, vb);
    BookPrivate(wa, b, vb);
    BookPrivate(wb, a, va);
    GaugedCommutes(w.stats, a, Added(ColumnOf(w.torrents[a.infoHash], a.peerID), a), va,
                   b, Added(ColumnOf(w.torrents[b.infoHash], b.peerID), b), vb);
    TorrentsCommute(w, a, va, b, vb);
    RowsIgnoreLogs(wa, w, vb.mid);
    RowsIgnoreLogs(wb, w, va.mid);
    AppendCommutes(w.userLog, Rows(w, va.mid), Rows(w, vb.mid));
    AppendCommutes(w.peerLog, [PeerRowOf(w.mode, va.mid)], [PeerRowOf(w.mode, vb.mid)]);
  }

  lemma RowsIgnoreLogs(w: World, w': World, p: PeerV)
    requires w.users == w'.users
    ensures Rows(w, p) == Rows(w', p)
  {}

  lemma TorrentsCommute(w: World, a: Announcement, va: Visit, b: Announcement, vb: Visit)
    requires a.infoHash in w.torrents && b.infoHash in w.torrents && a.peerID != b.peerID
    ensures var ta := w.torrents[a.infoHash := TorrentAfter(w.torrents[a.infoHash], a, va)];
            var tb := w.torrents[b.infoHash := TorrentAfter(w.torrents[b.infoHash], b, vb)];
            SameTorrents(ta[b.infoHash := TorrentAfter(ta[b.infoHash], b, vb)],
                         tb[a.infoHash := TorrentAfter(tb[a.infoHash], a, va)])
  {
    if a.infoHash == b.infoHash { TorrentAfterCommutes(w.torrents[a.infoHash], a, va, b, vb); }
    hide TorrentAfter;
  }

  lemma AppendCommutes<T>(s: seq<T>, a: seq<T>, b: seq<T>)
    ensures multiset(s + a + b) == multiset(s + b + a)
  {}

  /**
   * On a private tracker two announces under different peer ids may come in either order, on the same torrent or not,
   * for the same user or not: each is refused or accepted as it would be alone, the same peer sets, balances, snatches,
   * statistics and user accounts result, and the same rows of users and peers are recorded. The torrents' rows are not
   * the same: the first of two rows of one torrent shows the announce that came first.
   */
  lemma AnnouncesCommute(w: World, a: Announcement, b: Announcement)
    requires WorldFits(w) && w.mode.Private? && a.peerID != b.peerID
    ensures Refusal(Announce(w, a), b) == Refusal(w, b) && Refusal(Announce(w, b), a) == Refusal(w, a)
    ensures SameMemory(Announce(Announce(w, a), b), Announce(Announce(w, b), a))
  {
    hide TorrentFits, Book;
    if Refusal(w, a).None? && Refusal(w, b).None? {
      var va := VisitOf(w, w.torrents[a.infoHash], a);
      var vb := VisitOf(w, w.torrents[b.infoHash], b);
      hide VisitOf;
      VisitIgnoresOther(w, a, va, b);
      VisitIgnoresOther(w, b, vb, a);
      BooksCommute(w, a, va, b, vb);
      hide Refusal, SameMemory, Added, ColumnOf;
      BookMode(w, a, va);
      BookMode(w, b, vb);
    } else if Refusal(w, a).None? {
      RefusalStays(w, a, b);
    } else if Refusal(w, b).None? {
      RefusalStays(w, b, a);
    }
  }

  lemma BookMode(w: World, a: Announcement, va: Visit)
    requires a.infoHash in w.torrents
    ensures Book(w, a, va).mode == w.mode && Book(w, a, va).torrents.Keys == w.torrents.Keys
  {
    BookTorrents(w, a, va);
  }

  lemma RefusalStays(w: World, a: Announcement, b: Announcement)
    requires w.mode.Private? && Settled(w.users) && a.infoHash in w.torrents && Refusal(w, a).None?
    ensures Refusal(Announce(w, a), b) == Refusal(w, b)
  {
    hide VisitOf, Whitelisted, Book, Gauged, TorrentAfter, Rows, Settled;
    var va := VisitOf(w, w.torrents[a.infoHash], a);
    BookPrivate(w, a, va);
    BookMode(w, a, va);
  }
}
