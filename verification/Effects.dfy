/** What an accepted announce costs, stores, records and counts: the columns of its rows and the fields of its peer,
    written out from the request, the entry it finds and the memory before. */
module Effects {
  import opened Words
  import opened Options
  import opened Ledger
  import opened Tracker
  import opened Utility
  import opened Shape
  import opened Conservation
  import opened Exactness
  import opened Placement
  import opened Access

  // ---------------------------------------------------------------- a first announce

  /** Whom a passkey stands for: on a private tracker its user, elsewhere nobody. */
  function Holder(w: World, passkey: string): Option<UserRef> {
    if w.mode.Private? && passkey in w.passkeys && w.passkeys[passkey] < |w.users| then
      Some(UserRef(w.passkeys[passkey], w.users[w.passkeys[passkey]].id))
    else None
  }

  /** The peer a first announce creates. */
  ghost predicate Newcomer(p: PeerV, w: World, r: Announcement, torrentID: nat) {
    && p.user == Holder(w, r.passkey) && p.torrentID == torrentID
    && p.peerID == r.peerID && p.ip == r.ip && p.port == r.port && p.client == r.client
    && p.totalDownloaded == r.downloaded && p.totalUploaded == r.uploaded && p.left == r.left
    && p.downloaded == 0 && p.uploaded == 0 && p.downSpeed == 0 && p.upSpeed == 0 && p.corrupt == 0
    && p.timespent == 0 && p.lastUpdate == r.clock && p.active && (p.completed <==> r.left == 0)
    && |p.hexIPPort| == |r.address| + 2 && p.hexIPPort[..|r.address|] == r.address
    && 256 * (p.hexIPPort[|r.address|] as nat) + p.hexIPPort[|r.address| + 1] as nat == r.port % 0x1_0000
    && p.birth == Birth(r.downloaded, r.uploaded, r.clock, r.address) && p.paid == Paid(0, 0, 0)
  }

  function NewcomerOf(w: World, r: Announcement): PeerV {
    NewPeer(r, Holder(w, r.passkey), Before(w, r.infoHash).id)
  }

  lemma NewcomerIs(w: World, r: Announcement)
    ensures Newcomer(NewcomerOf(w, r), w, r, Before(w, r.infoHash).id)
  {
    IpPortRoundTrip(r.address, r.port);
    hide Before;
  }

  /** The entry an accepted announce updates. */
  function EntryOf(w: World, r: Announcement): PeerV { Found(Before(w, r.infoHash), r, NewcomerOf(w, r)) }

  // ---------------------------------------------------------------- the price

  /** Who pays: the user of the peer that is already among the leechers of the family, else the one who asks. */
  function Payer(w: World, r: Announcement): Option<UserRef> {
    var t, id := Before(w, r.infoHash), r.peerID;
    if !r.ipv6 && id in t.leechers then t.leechers[id].user
    else if r.ipv6 && id in t.leechers6 then t.leechers6[id].user
    else Holder(w, r.passkey)
  }

  /** The payer has a token for the torrent. */
  predicate TokenFor(w: World, r: Announcement) {
    var u := Payer(w, r);
    u.Some? && u.value.handle < |w.users| && Before(w, r.infoHash).id in w.users[u.value.handle].tokens
  }

  /** The percentage taken off: nothing for a finished peer that goes on or stops, all of it under freeleech or with a
      token, and otherwise the torrent's discount. */
  function Percent(w: World, r: Announcement): nat {
    if r.finished && !r.event.Completed? then 0
    else if w.freeleech || TokenFor(w, r) then 100
    else Before(w, r.infoHash).free
  }

  /** The downloaded figure an announce is charged with. */
  function Charge(w: World, r: Announcement): nat { r.downloaded * (1 - Percent(w, r) / 100) % 0x1_0000_0000_0000_0000 }

  /** With a figure of 64 bits and a discount below 200 percent: nothing if the peer is not finished, or completes, and
      there is freeleech, a token or a discount of at least 100 percent, and the announced figure otherwise. */
  lemma ChargeIs(w: World, r: Announcement)
    requires Word64(r.downloaded) && Before(w, r.infoHash).free < 200
    ensures Charge(w, r) == if (!r.finished || r.event.Completed?)
                               && (w.freeleech || TokenFor(w, r) || Before(w, r.infoHash).free >= 100) then 0
                            else r.downloaded
  {
    hide Before, TokenFor;
    var n := Percent(w, r);
    if n < 100 { assert n / 100 == 0; } else { assert n / 100 == 1; }
  }

  lemma PercentIs(w: World, e: World, t: TorrentV, r: Announcement, newcomer: PeerV)
    requires t == Before(w, r.infoHash) && e.users == w.users && e.mode == w.mode && e.freeleech == w.freeleech
    requires newcomer.user == Holder(w, r.passkey)
    ensures FreePercent(Admit(ColumnOf(t, r.peerID), r, newcomer), r, TermsOf(e, t)) == Percent(w, r)
  {
    hide Before, Holder;
  }

  // ---------------------------------------------------------------- what the visit is

  /** The visit of an accepted announce, by the entry it finds and its price. */
  lemma VisitIsOf(w: World, r: Announcement)
    requires Refusal(w, r).None?
    ensures var p, v := EntryOf(w, r), Visited(w, r);
            && v.before == p && v.mid == Refresh(p, r, w.mode, Percent(w, r)) && v.after == Finish(v.mid, w.mode)
            && v.balance == BalanceMove(p, v.mid, r, w.mode)
  {
    EnterIsBefore(w, r);
    var e, t := Enter(w, r), Before(w, r.infoHash);
    var newcomer := NewcomerOf(w, r);
    assert NewPeer(r, Requester(e, r), t.id) == newcomer;
    FoundIs(t, r, TermsOf(e, t), newcomer);
    PercentIs(w, e, t, r, newcomer);
    hide Enter, Before, NewPeer, Refusal, NewcomerOf, Found, Admit, FreePercent, Percent, Refresh, Finish, Leave, Gone,
         BalanceMove, Target;
  }

  // ---------------------------------------------------------------- the entry

  /** z is what an announce charged with `charge` makes of the entry p. */
  ghost predicate Moves(p: PeerV, z: PeerV, r: Announcement, mode: Mode, charge: nat) {
    var down := (charge - p.totalDownloaded) % 0x1_0000_0000_0000_0000;
    var up := (r.uploaded - p.totalUploaded) % 0x1_0000_0000_0000_0000;
    var span := r.now - p.lastUpdate;
    match mode
    case Public => z == p.(active := p.active && !r.event.Stopped?)
    case Semi =>
      z == p.(active := p.active && !r.event.Stopped?, timespent := 0,
              paid := p.paid.(time := p.paid.time + p.timespent))
    case Private =>
      z == p.(active := p.active && !r.event.Stopped?, downloaded := down, uploaded := up,
              totalDownloaded := charge, totalUploaded := r.uploaded, left := r.left,
              downSpeed := if span > 0 then down / span % 0x1_0000_0000 else 0,
              upSpeed := if span > 0 then up / span % 0x1_0000_0000 else 0,
              corrupt := r.corrupt % 0x1_0000_0000, timespent := 0, lastUpdate := r.now,
              paid := Paid(p.paid.downloaded + down % 0x1_0000_0000, p.paid.uploaded + up % 0x1_0000_0000,
                           p.paid.time + (p.timespent + span) % 0x1_0000_0000_0000_0000))
  }

  lemma MovesIs(p: PeerV, r: Announcement, mode: Mode, free: nat)
    ensures Moves(p, Finish(Refresh(p, r, mode, free), mode), r, mode,
                  r.downloaded * (1 - free / 100) % 0x1_0000_0000_0000_0000)
  {}

  /** What the four sets of t' hold under one id, by what those of t did. */
  ghost predicate Rests(t: TorrentV, t': TorrentV, r: Announcement, z: PeerV, newcomer: PeerV) {
    var id := r.peerID;
    && (id in t'.seeders ==>
          if !r.ipv6 && r.finished && (id in t.seeders || (id !in t.leechers && !r.event.Completed?)) then
            t'.seeders[id] == z
          else id in t.seeders && t'.seeders[id] == t.seeders[id])
    && (id in t'.seeders6 ==>
          if r.ipv6 && r.finished && (id in t.seeders6 || id !in t.leechers) then t'.seeders6[id] == z
          else id in t.seeders6 && t'.seeders6[id] == t.seeders6[id])
    && (id in t'.leechers ==>
          if if r.ipv6 then r.finished && id !in t.seeders6 && id in t.leechers
             else !r.finished || (id !in t.seeders && (id in t.leechers || r.event.Completed?)) then
            t'.leechers[id] == z
          else if !r.ipv6 && r.event.Completed? then
            t'.leechers[id] == Marked(if id in t.leechers then t.leechers[id] else newcomer)
          else id in t.leechers && t'.leechers[id] == t.leechers[id])
    && (id in t'.leechers6 ==>
          if r.ipv6 && !r.finished then t'.leechers6[id] == z
          else if r.ipv6 && r.event.Completed? then
            t'.leechers6[id] == Marked(if id in t.leechers6 then t.leechers6[id] else newcomer)
          else id in t.leechers6 && t'.leechers6[id] == t.leechers6[id])
  }

  lemma RestsIs(t: TorrentV, r: Announcement, v: Visit, newcomer: PeerV)
    requires Holds(ColumnOf(t, r.peerID), v.column, r, v.after, newcomer)
    ensures Rests(t, TorrentAfter(t, r, v), r, v.after, newcomer)
  {
    FieldsAfter(t, r, v);
    hide TorrentAfter, Marked;
  }

  /**
   * What the four sets hold under the announcing peer's id after an accepted announce, as far as they hold something:
   * the updated entry is in one place, a completed peer is marked among the leechers of its family, and everything
   * else is as it was.
   */
  lemma Stored(w: World, r: Announcement) returns (z: PeerV)
    requires Refusal(w, r).None?
    ensures Moves(EntryOf(w, r), z, r, w.mode, Charge(w, r))
    ensures r.infoHash in Announce(w, r).torrents
    ensures Rests(Before(w, r.infoHash), Announce(w, r).torrents[r.infoHash], r, z, NewcomerOf(w, r))
  {
    hide Announce, Refusal, Enter, Before, TorrentAfter, NewcomerOf, EntryOf, Moves, Percent, Refresh, Finish, Visited,
         Rests, Holds, ColumnOf;
    TorrentIs(w, r);
    VisitIsOf(w, r);
    z := Visited(w, r).after;
    MovesIs(EntryOf(w, r), r, w.mode, Percent(w, r));
    VisitHolds(w, r);
    RestsIs(Before(w, r.infoHash), r, Visited(w, r), NewcomerOf(w, r));
  }

  lemma VisitHolds(w: World, r: Announcement)
    requires Refusal(w, r).None?
    ensures Holds(ColumnOf(Before(w, r.infoHash), r.peerID), Visited(w, r).column, r, Visited(w, r).after,
                  NewcomerOf(w, r))
  {
    EnterIsBefore(w, r);
    var e, t := Enter(w, r), Before(w, r.infoHash);
    assert NewPeer(r, Requester(e, r), t.id) == NewcomerOf(w, r);
    HoldsIs(ColumnOf(t, r.peerID), r, TermsOf(e, t), NewcomerOf(w, r));
    hide Serve, Enter, Before, Refusal, NewPeer, NewcomerOf, Holds, Requester, ColumnOf;
  }

  // ---------------------------------------------------------------- the rows

  /** The peer's row: the figures as announced and charged, speeds in bytes per second, and the seconds since the last
      update. The user is that of the entry, which need not be the one who asked. */
  function RowFor(p: PeerV, r: Announcement, mode: Mode, charge: nat): PeerRow {
    var down := (charge - p.totalDownloaded) % 0x1_0000_0000_0000_0000;
    var up := (r.uploaded - p.totalUploaded) % 0x1_0000_0000_0000_0000;
    var span := r.now - p.lastUpdate;
    var on := p.active && !r.event.Stopped?;
    if mode.Private? then
      PeerRow(if p.user.Some? then p.user.value.id else 0, on, p.completed, charge, r.uploaded, r.left,
              if span > 0 then up / span % 0x1_0000_0000 else 0, if span > 0 then down / span % 0x1_0000_0000 else 0,
              r.corrupt % 0x1_0000_0000, (p.timespent + span) % 0x1_0000_0000_0000_0000, p.client, p.peerID,
              p.torrentID, p.ip, if on then None else Some(r.now))
    else
      PeerRow(0, on, p.completed, p.totalDownloaded, p.totalUploaded, p.left, p.upSpeed, p.downSpeed, p.corrupt,
              p.timespent, p.client, p.peerID, p.torrentID, p.ip, if on then None else Some(p.lastUpdate))
  }

  lemma RowIs(p: PeerV, r: Announcement, mode: Mode, free: nat)
    ensures PeerRowOf(mode, Refresh(p, r, mode, free))
         == RowFor(p, r, mode, r.downloaded * (1 - free / 100) % 0x1_0000_0000_0000_0000)
  {}

  lemma BookRows(w: World, r: Announcement, v: Visit)
    requires r.infoHash in w.torrents
    ensures var w' := Book(w, r, v);
            && r.infoHash in w'.torrents
            && w'.peerLog == w.peerLog + (if w.mode.Public? then [] else [PeerRowOf(w.mode, v.mid)])
            && w'.torrentLog == w.torrentLog
                                + (if w.mode.Public? then [] else [TorrentRowOf(w'.torrents[r.infoHash])])
  {
    hide TorrentAfter, PeerRowOf, TorrentRowOf, UpdateGauges, Added, Credited, UserRows, ColumnOf;
  }

  /** An accepted announce records its peer and its torrent once, unless the tracker is public: the peer with the
      figures of this announce, and the torrent as it is afterwards,
        with one more snatch if the peer completed and a balance
      that moved by what the entry went up and down since its last update. */
  lemma Recorded(w: World, r: Announcement)
    requires Refusal(w, r).None?
    ensures r.infoHash in Announce(w, r).torrents
    ensures var w', p, t := Announce(w, r), EntryOf(w, r), Before(w, r.infoHash);
            var t' := w'.torrents[r.infoHash];
            && w'.peerLog == w.peerLog + (if w.mode.Public? then [] else [RowFor(p, r, w.mode, Charge(w, r))])
            && w'.torrentLog == w.torrentLog
                                + (if w.mode.Public? then []
                                   else [TorrentRow(t.id, |t'.seeders| + |t'.seeders6|, |t'.leechers| + |t'.leechers6|,
                                                    t'.snatches, t'.balance)])
            && t'.id == t.id && t'.free == t.free
            && t'.snatches == (if r.event.Completed? then (t.snatches + 1) % 0x1_0000_0000 else t.snatches)
            && -0x8000_0000_0000_0000 <= t'.balance < 0x8000_0000_0000_0000
            && (t'.balance - t.balance - if !w.mode.Private? then 0
                                         else (r.uploaded - p.totalUploaded) % 0x1_0000_0000_0000_0000
                                              - (Charge(w, r) - p.totalDownloaded) % 0x1_0000_0000_0000_0000
                                              - (p.corrupt - r.corrupt) % 0x1_0000_0000_0000_0000)
               % 0x1_0000_0000_0000_0000 == 0
  {
    hide Book, TorrentAfter, Enter, Refusal, Before, EntryOf, PeerRowOf, RowFor, I64, Percent, Refresh, Finish,
         BalanceMove,
         Announce, Visited;
    TorrentIs(w, r);
    AnnounceIs(w, r);
    EnterIsBefore(w, r);
    VisitIsOf(w, r);
    RowIs(EntryOf(w, r), r, w.mode, Percent(w, r));
    BookRows(Enter(w, r), r, Visited(w, r));
    BalanceIs(Before(w, r.infoHash), r, Visited(w, r), EntryOf(w, r), w.mode, Percent(w, r));
  }

  lemma BalanceIs(t: TorrentV, r: Announcement, v: Visit, p: PeerV, mode: Mode, free: nat)
    requires v.mid == Refresh(p, r, mode, free) && v.balance == BalanceMove(p, v.mid, r, mode)
    ensures var t' := TorrentAfter(t, r, v);
            var charge := r.downloaded * (1 - free / 100) % 0x1_0000_0000_0000_0000;
            && t'.id == t.id && t'.free == t.free
            && t'.snatches == (if r.event.Completed? then (t.snatches + 1) % 0x1_0000_0000 else t.snatches)
            && -0x8000_0000_0000_0000 <= t'.balance < 0x8000_0000_0000_0000
            && (t'.balance - t.balance - if !mode.Private? then 0
                                         else (r.uploaded - p.totalUploaded) % 0x1_0000_0000_0000_0000
                                              - (charge - p.totalDownloaded) % 0x1_0000_0000_0000_0000
                                              - (p.corrupt - r.corrupt) % 0x1_0000_0000_0000_0000)
               % 0x1_0000_0000_0000_0000 == 0
  {
    hide I64, Store, ColumnOf, Rate;
    SignedWord(t.balance + v.balance);
  }

  // ---------------------------------------------------------------- the user

  /** The user of the entry, and nobody else, is credited with what the counters rose, cut to 32 bits; whatever it had
      pending becomes one row, unless it is nothing, and is 0 afterwards. Only a private tracker does so. */
  lemma Credits(w: World, r: Announcement)
    requires Refusal(w, r).None?
    ensures var w', p := Announce(w, r), EntryOf(w, r);
            if w.mode.Private? && p.user.Some? && p.user.value.handle < |w.users| then
              var h := p.user.value.handle;
              var u := w.users[h];
              var down := (u.downloaded + (Charge(w, r) - p.totalDownloaded) % 0x1_0000_0000) % 0x1_0000_0000_0000_0000;
              var up := (u.uploaded + (r.uploaded - p.totalUploaded) % 0x1_0000_0000) % 0x1_0000_0000_0000_0000;
              && w'.users == w.users[h := u.(downloaded := 0, uploaded := 0)]
              && w'.userLog == w.userLog + (if down == 0 && up == 0 then [] else [UserRow(u.id, down, up)])
            else w'.users == w.users && w'.userLog == w.userLog
  {
    hide Book, Enter, Refusal, Before, EntryOf, Percent, Refresh, Finish, BalanceMove, Announce, Visited, U32, U64;
    AnnounceIs(w, r);
    EnterIsBefore(w, r);
    VisitIsOf(w, r);
    var p := EntryOf(w, r);
    MidIs(p, r, w.mode, Percent(w, r));
    BookUsers(Enter(w, r), r, Visited(w, r));
    CutTwice(Charge(w, r) - p.totalDownloaded);
    CutTwice(r.uploaded - p.totalUploaded);
    forall x ensures U64(x) == x % 0x1_0000_0000_0000_0000 { WordIs(x); }
  }

  lemma WordIs(x: int)
    ensures U64(x) == x % 0x1_0000_0000_0000_0000
  {}

  lemma MidIs(p: PeerV, r: Announcement, mode: Mode, free: nat)
    ensures var q := Refresh(p, r, mode, free);
            && q.user == p.user
            && (mode.Private? ==>
                  q.downloaded == U64(r.downloaded * (1 - free / 100) % 0x1_0000_0000_0000_0000 - p.totalDownloaded)
                  && q.uploaded == U64(r.uploaded - p.totalUploaded))
  {}

  lemma BookUsers(w: World, r: Announcement, v: Visit)
    requires r.infoHash in w.torrents
    ensures var w' := Book(w, r, v);
            if w.mode.Private? && v.mid.user.Some? && v.mid.user.value.handle < |w.users| then
              var h := v.mid.user.value.handle;
              var u := w.users[h];
              var down, up := U64(u.downloaded + U32(v.mid.downloaded)), U64(u.uploaded + U32(v.mid.uploaded));
              && w'.users == w.users[h := u.(downloaded := 0, uploaded := 0)]
              && w'.userLog == w.userLog + (if down == 0 && up == 0 then [] else [UserRow(u.id, down, up)])
            else w'.users == w.users && w'.userLog == w.userLog
  {
    hide TorrentAfter, PeerRowOf, TorrentRowOf, UpdateGauges, Added, ColumnOf, U32, U64;
  }

  // ---------------------------------------------------------------- the statistics

  /** How many peers a torrent has, a peer that is in two of its sets counted twice. */
  function Size(t: TorrentV): nat { |t.seeders| + |t.seeders6| + |t.leechers| + |t.leechers6| }

  /** There was nothing to erase: a finished peer stops that is no seeder but an IPv4 leecher, or a peer completes that
      is no leecher of the other family. */
  predicate Misses(t: TorrentV, r: Announcement) {
    var id := r.peerID;
    match r.event
    case Stopped => r.finished && id in t.leechers && id !in (if r.ipv6 then t.seeders6 else t.seeders)
    case Completed => id !in (if r.ipv6 then t.leechers else t.leechers6)
    case Updating => false
  }

  function One(o: Option<PeerV>): int { if o.Some? then 1 else 0 }

  function Entries(c: Column): int { One(c.seeder) + One(c.seeder6) + One(c.leecher) + One(c.leecher6) }

  lemma StoreSize(m: PeerMap, id: string, o: Option<PeerV>)
    ensures |Store(m, id, o)| == |m| + One(o) - One(Find(m, id))
  {
    match o
    case None =>
      if id in m {
        assert m == (m - {id})[id := m[id]];
        assert id !in m - {id};
      } else {
        assert m - {id} == m;
      }
    case Some(p) =>
      if id in m { assert m[id := p].Keys == m.Keys; assert |m[id := p]| == |m[id := p].Keys| && |m| == |m.Keys|; }
  }

  lemma SizeAfter(t: TorrentV, r: Announcement, v: Visit)
    ensures Size(TorrentAfter(t, r, v)) == Size(t) + Entries(v.column) - Entries(ColumnOf(t, r.peerID))
  {
    var id := r.peerID;
    StoreSize(t.seeders, id, v.column.seeder);
    StoreSize(t.seeders6, id, v.column.seeder6);
    StoreSize(t.leechers, id, v.column.leecher);
    StoreSize(t.leechers6, id, v.column.leecher6);
    hide Store, Find, I64, U32;
  }

  lemma EntriesAfter(t: TorrentV, r: Announcement, terms: Terms, newcomer: PeerV)
    ensures var c := ColumnOf(t, r.peerID);
            Entries(Serve(c, r, terms, newcomer).column) + (if r.event.Updating? then 0 else 1)
            == Entries(c) + Added(c, r) + (if Misses(t, r) then 1 else 0)
  {
    PlacedColumn(ColumnOf(t, r.peerID), r, terms, newcomer);
    hide Serve;
  }

  lemma BookStats(w: World, r: Announcement, v: Visit)
    requires r.infoHash in w.torrents
    ensures var s := Book(w, r, v).stats;
            var added := Added(ColumnOf(w.torrents[r.infoHash], r.peerID), r);
            && s.peers == U64(w.stats.peers + added - if r.event.Updating? then 0 else 1)
            && (w.mode.Private? ==>
                  && s.transferred == UpdateGauges(w.stats, v.before, v.mid).transferred
                  && s.speed == UpdateGauges(w.stats, v.before, v.mid).speed)
            && (!w.mode.Private? ==> s.transferred == w.stats.transferred && s.speed == w.stats.speed)
  {
    hide TorrentAfter, PeerRowOf, TorrentRowOf, Added, ColumnOf, Credited, UserRows;
  }

  /** The peer statistic moves by what the torrent's size moves by, modulo 2^64, less one for a stopped or completed
      peer where there was nothing to erase. */
  lemma Counted(w: World, r: Announcement)
    requires Refusal(w, r).None?
    ensures r.infoHash in Announce(w, r).torrents
    ensures var t, t' := Before(w, r.infoHash), Announce(w, r).torrents[r.infoHash];
            Announce(w, r).stats.peers
            == (w.stats.peers + Size(t') - Size(t) - if Misses(t, r) then 1 else 0) % 0x1_0000_0000_0000_0000
  {
    hide Book, TorrentAfter, Enter, Refusal, Before, Announce, Visited, U64, Size, Misses, Added, ColumnOf,
         UpdateGauges;
    TorrentIs(w, r);
    AnnounceIs(w, r);
    EnterIsBefore(w, r);
    var t, v := Before(w, r.infoHash), Visited(w, r);
    SizeAfter(t, r, v);
    VisitEntries(w, r);
    BookStats(Enter(w, r), r, v);
    WordIs(w.stats.peers + Added(ColumnOf(t, r.peerID), r) - if r.event.Updating? then 0 else 1);
  }

  /** On a private tracker half of the bytes moved is added to the bytes transferred, and the speed loses half of the
      entry's old speeds and gains half of its new ones, those of the row; elsewhere both stay. */
  lemma Gauged(w: World, r: Announcement)
    requires Refusal(w, r).None?
    ensures var p := EntryOf(w, r);
            var s, s' := w.stats, Announce(w, r).stats;
            var row := RowFor(p, r, w.mode, Charge(w, r));
            var down := (Charge(w, r) - p.totalDownloaded) % 0x1_0000_0000_0000_0000;
            var up := (r.uploaded - p.totalUploaded) % 0x1_0000_0000_0000_0000;
            && s'.transferred == (if w.mode.Private? then
                                    (s.transferred
                                     + (down + up) % 0x1_0000_0000_0000_0000 / 2) % 0x1_0000_0000_0000_0000
                                  else s.transferred)
            && s'.speed == (if w.mode.Private? then
                              (s.speed - (p.downSpeed + p.upSpeed) % 0x1_0000_0000 / 2
                               + (row.downSpeed + row.upSpeed) % 0x1_0000_0000 / 2) % 0x1_0000_0000_0000_0000
                            else s.speed)
  {
    hide Book, Enter, Refusal, Before, EntryOf, RowFor, Percent, Refresh, Finish, BalanceMove, Announce, Visited,
         UpdateGauges, Added, ColumnOf;
    AnnounceIs(w, r);
    EnterIsBefore(w, r);
    VisitIsOf(w, r);
    var p, v := EntryOf(w, r), Visited(w, r);
    BookStats(Enter(w, r), r, v);
    if w.mode.Private? { GaugesAre(w.stats, p, r, w.mode, Percent(w, r)); }
    SameGauges(Enter(w, r).stats, w.stats, p, v.mid);
  }

  lemma SameGauges(a: StatsV, b: StatsV, p: PeerV, q: PeerV)
    requires a.speed == b.speed && a.transferred == b.transferred
    ensures UpdateGauges(a, p, q).speed == UpdateGauges(b, p, q).speed
    ensures UpdateGauges(a, p, q).transferred == UpdateGauges(b, p, q).transferred
  {}

  lemma GaugesAre(s: StatsV, p: PeerV, r: Announcement, mode: Mode, free: nat)
    requires mode.Private?
    ensures var s' := UpdateGauges(s, p, Refresh(p, r, mode, free));
            var charge := r.downloaded * (1 - free / 100) % 0x1_0000_0000_0000_0000;
            var down := (charge - p.totalDownloaded) % 0x1_0000_0000_0000_0000;
            var up := (r.uploaded - p.totalUploaded) % 0x1_0000_0000_0000_0000;
            var row := RowFor(p, r, mode, charge);
            && s'.transferred == (s.transferred + (down + up) % 0x1_0000_0000_0000_0000 / 2) % 0x1_0000_0000_0000_0000
            && s'.speed == (s.speed - (p.downSpeed + p.upSpeed) % 0x1_0000_0000 / 2
                            + (row.downSpeed + row.upSpeed) % 0x1_0000_0000 / 2) % 0x1_0000_0000_0000_0000
  {
    hide Refresh, U64, U32, RowFor, UpdateGauges, PeerRowOf;
    RowIs(p, r, mode, free);
    MidIs(p, r, mode, free);
    WordIs(r.downloaded * (1 - free / 100) % 0x1_0000_0000_0000_0000 - p.totalDownloaded);
    WordIs(r.uploaded - p.totalUploaded);
    RowSpeeds(mode, Refresh(p, r, mode, free));
    GaugeFields(s, p, Refresh(p, r, mode, free));
  }

  lemma RowSpeeds(mode: Mode, q: PeerV)
    ensures PeerRowOf(mode, q).downSpeed == q.downSpeed && PeerRowOf(mode, q).upSpeed == q.upSpeed
  {}

  lemma GaugeFields(s: StatsV, p: PeerV, q: PeerV)
    ensures UpdateGauges(s, p, q).speed
         == (s.speed - (p.downSpeed + p.upSpeed) % 0x1_0000_0000 / 2 + (q.downSpeed + q.upSpeed) % 0x1_0000_0000 / 2)
            % 0x1_0000_0000_0000_0000
    ensures UpdateGauges(s, p, q).transferred
         == (s.transferred + (q.downloaded + q.uploaded) % 0x1_0000_0000_0000_0000 / 2) % 0x1_0000_0000_0000_0000
  {
    TwoMoves(s.speed, U32(p.downSpeed + p.upSpeed) / 2, U32(q.downSpeed + q.upSpeed) / 2);
  }

  lemma TwoMoves(x: int, a: int, b: int)
    ensures U64(U64(x - a) + b) == (x - a + b) % 0x1_0000_0000_0000_0000
  {}

  lemma VisitEntries(w: World, r: Announcement)
    requires Refusal(w, r).None?
    ensures var t := Before(w, r.infoHash);
            var c := ColumnOf(t, r.peerID);
            Entries(Visited(w, r).column) + (if r.event.Updating? then 0 else 1)
            == Entries(c) + Added(c, r) + (if Misses(t, r) then 1 else 0)
  {
    EnterIsBefore(w, r);
    var e, t := Enter(w, r), Before(w, r.infoHash);
    assert NewPeer(r, Requester(e, r), t.id) == NewcomerOf(w, r);
    EntriesAfter(t, r, TermsOf(e, t), NewcomerOf(w, r));
    hide Serve, Enter, Before, Refusal, NewPeer, NewcomerOf, Requester, ColumnOf, Misses, Added, Entries;
  }

  // ---------------------------------------------------------------- the price after a run

  /** After any run: an announce of a peer that is not finished, or completes, is free if and only if the last word on
      the leech status was "free", or the last word on a token of the payer for this torrent was that it has one, or the
      discount is at least 100 percent. */
  lemma RunCharge(w: World, steps: seq<Step>, r: Announcement)
    requires var t := Before(Run(w, steps), r.infoHash); Word64(r.downloaded) && t.free < 200
    ensures var w' := Run(w, steps);
            var t, u := Before(w', r.infoHash), Payer(w', r);
            var free := Stands(w, steps, Freeleech) || t.free >= 100
                        || (u.Some? && Stands(w, steps, Token(u.value.handle, t.id)));
            Charge(w', r) == if (!r.finished || r.event.Completed?) && free then 0 else r.downloaded
  {
    hide Run, Stands, Before, Payer, Charge;
    var w' := Run(w, steps);
    ChargeIs(w', r);
    RunSettings(w, steps, Freeleech);
    var u := Payer(w', r);
    if u.Some? { RunSettings(w, steps, Token(u.value.handle, Before(w', r.infoHash).id)); }
  }
}
