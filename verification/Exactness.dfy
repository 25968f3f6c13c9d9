/**
 * What is credited and reported against what happened. The tracker cuts the rise of a counter to 32 bits and the time
 * since the last update to 64, so a peer's books are its counters and its lifetime as long as no rise is negative or
 * fills the word; this module says exactly when, for one announce, for all peers over a run, and for sums over peers.
 */
module Exactness {
  import opened Words
  import opened Options
  import opened Ledger
  import opened Tracker
  import opened Sums
  import opened Meters
  import opened Shape
  import opened Conservation

  // ---------------------------------------------------------------- one peer

  /** The three things a peer's announces are charged with. */
  datatype Account = Downloads | Uploads | Seconds {
    /** What the account is cut to: `unsigned int` for bytes, `unsigned long` for seconds. */
    function Unit(): nat { if Seconds? then 0x1_0000_0000_0000_0000 else 0x1_0000_0000 }
  }

  /** What was credited to the peer's user, or reported in its rows. */
  function Booked(a: Account, p: PeerV): nat {
    match a
    case Downloads => p.paid.downloaded
    case Uploads => p.paid.uploaded
    case Seconds => p.paid.time
  }

  /** How far the peer has come since it was created. */
  function Earned(a: Account, p: PeerV): int {
    match a
    case Downloads => p.totalDownloaded - p.birth.downloaded
    case Uploads => p.totalUploaded - p.birth.uploaded
    case Seconds => p.lastUpdate - p.birth.at
  }

  predicate Exact(a: Account, p: PeerV) { Booked(a, p) == Earned(a, p) }

  /** How far an announce at this price is above what the peer last said. */
  function Rise(a: Account, p: PeerV, r: Announcement, free: nat): int {
    match a
    case Downloads => Charged(r, free) - p.totalDownloaded
    case Uploads => r.uploaded - p.totalUploaded
    case Seconds => r.now - p.lastUpdate
  }

  predicate InStep(a: Account, p: PeerV, r: Announcement, free: nat) { 0 <= Rise(a, p, r, free) < a.Unit() }

  lemma CutTwice(x: int)
    ensures U32(U64(x)) == x % 0x1_0000_0000
  {}

  /** A private announce books the rise modulo the account's word; any other announce books nothing. */
  lemma RiseIsCut(a: Account, p: PeerV, r: Announcement, mode: Mode, free: nat)
    requires p.timespent == 0
    ensures var z := Finish(Refresh(p, r, mode, free), mode);
            var rise := if mode.Private? then Rise(a, p, r, free) else 0;
            Earned(a, z) == Earned(a, p) + rise && Booked(a, z) == Booked(a, p) + rise % a.Unit()
  {
    hide U32, U64, Charged, Rate;
    CutTwice(Charged(r, free) - p.totalDownloaded);
    CutTwice(r.uploaded - p.totalUploaded);
    CutTime(r.now - p.lastUpdate);
  }

  lemma CutTime(x: int)
    ensures U64(0 + x) == x % 0x1_0000_0000_0000_0000
  {}

  lemma CutIsRise(x: int, unit: nat)
    requires unit > 0
    ensures x % unit == x <==> 0 <= x < unit
  {}

  /** Exact books stay exact through an announce if and only if its figure is neither below the peer's last one nor a
      whole word above it. */
  lemma StepIsExact(a: Account, p: PeerV, r: Announcement, mode: Mode, free: nat)
    requires p.timespent == 0 && Exact(a, p)
    ensures Exact(a, Finish(Refresh(p, r, mode, free), mode)) <==> (mode.Private? ==> InStep(a, p, r, free))
  {
    RiseIsCut(a, p, r, mode, free);
    CutIsRise(Rise(a, p, r, free), a.Unit());
    hide Finish, Refresh;
  }

  /** Two readings of a `long long` clock are less than 2^64 apart: for the time, only the order matters. */
  lemma TimeInStep(p: PeerV, r: Announcement, free: nat)
    requires Long(p.lastUpdate) && Long(r.now)
    ensures InStep(Seconds, p, r, free) <==> p.lastUpdate <= r.now
  {}

  // ---------------------------------------------------------------- where it fails

  /** The constructor of a peer reads the clock again: when that reading is a second later than the announce's, the
      peer's first row reports 2^64 - 1 seconds. */
  lemma ClockTicks(r: Announcement, user: Option<UserRef>, torrentID: nat, free: nat)
    requires r.clock == r.now + 1
    ensures var p := NewPeer(r, user, torrentID);
            && Exact(Seconds, p) && !InStep(Seconds, p, r, free)
            && PeerRowOf(Private, Refresh(p, r, Private, free)).timespent == 0xFFFF_FFFF_FFFF_FFFF
  {}

  /** What a percentage does to the announced counter: anything below 100 does nothing, and from 100 on it is 0. */
  lemma Price(r: Announcement, free: nat)
    requires RequestFits(r) && free < 200
    ensures Charged(r, free) == if free < 100 then r.downloaded else 0
  {}

  /** The stored peer after an accepted private announce. */
  function After(p: PeerV, r: Announcement, free: nat): PeerV { Finish(Refresh(p, r, Private, free), Private) }

  lemma AfterBooks(p: PeerV, r: Announcement, free: nat)
    requires p.timespent == 0
    ensures var q := After(p, r, free);
            && q.timespent == 0 && q.totalDownloaded == Charged(r, free)
            && Booked(Downloads, q) == Booked(Downloads, p) + U32(Charged(r, free) - p.totalDownloaded)
            && Earned(Downloads, q) == Earned(Downloads, p) + Charged(r, free) - p.totalDownloaded
  {
    RiseIsCut(Downloads, p, r, Private, free);
    hide Charged;
  }

  /** A free announce drops the counter to 0: what the user is credited is minus the counter so far, modulo 2^32, and so
      the announce costs nothing if and only if that counter is a multiple of 2^32. */
  lemma FreeCosts(p: PeerV, r: Announcement, free: nat)
    requires RequestFits(r) && 100 <= free < 200 && p.timespent == 0
    ensures var cost := Booked(Downloads, After(p, r, free)) - Booked(Downloads, p);
            cost == U32(0 - p.totalDownloaded) && (cost == 0 <==> p.totalDownloaded % 0x1_0000_0000 == 0)
  {
    hide After, Charged, U32, RequestFits;
    AfterBooks(p, r, free);
    Price(r, free);
    Complement(p.totalDownloaded);
  }

  lemma Complement(x: nat)
    ensures U32(0 - x) == 0 <==> x % 0x1_0000_0000 == 0
  {}

  /** And what was free is charged later: two announces of which the first is free cost, modulo 2^32, what they cost at
      full price. */
  lemma FreeIsPostponed(p: PeerV, r: Announcement, r': Announcement, free: nat)
    requires p.timespent == 0
    ensures Same32(Booked(Downloads, After(After(p, r, free), r', 0)), Booked(Downloads, After(After(p, r, 0), r', 0)))
  {
    hide After, Charged, U32, Same32, RequestFits;
    AfterBooks(p, r, free);
    AfterBooks(p, r, 0);
    AfterBooks(After(p, r, free), r', 0);
    AfterBooks(After(p, r, 0), r', 0);
    SameCut(Booked(Downloads, p), Charged(r, free) - p.totalDownloaded, Charged(r', 0) - Charged(r, free),
            Charged(r, 0) - p.totalDownloaded, Charged(r', 0) - Charged(r, 0));
  }

  lemma SameCut(base: int, x: int, y: int, x': int, y': int)
    requires x + y == x' + y'
    ensures Same32(base + U32(x) + U32(y), base + U32(x') + U32(y'))
  {}

  /** No step need reach 2^32 for the credit to be wrong: a counter that falls from 5 to 3 is credited 2^32 - 2. */
  lemma CounterFalls(p: PeerV, r: Announcement)
    requires p.totalDownloaded == 5 && r.downloaded == 3 && p.timespent == 0
    ensures var q := After(p, r, 0);
            Booked(Downloads, q) - Booked(Downloads, p) == 0xFFFF_FFFE
              && Earned(Downloads, q) - Earned(Downloads, p) == -2
  {
    AfterBooks(p, r, 0);
    hide After;
  }

  // ---------------------------------------------------------------- all peers, over a run

  ghost predicate OptExact(o: Option<PeerV>, a: Account) { o.Some? ==> Exact(a, o.value) }

  ghost predicate ColumnExact(c: Column, a: Account) {
    OptExact(c.seeder, a) && OptExact(c.seeder6, a) && OptExact(c.leecher, a) && OptExact(c.leecher6, a)
  }

  ghost predicate SeqExact(s: seq<PeerV>, a: Account) { forall i :: 0 <= i < |s| ==> Exact(a, s[i]) }

  ghost predicate TorrentExact(t: TorrentV, a: Account) {
    (forall id :: ColumnExact(ColumnOf(t, id), a)) && SeqExact(t.departed, a)
  }

  /** The books of every peer the tracker ever had are exact. */
  ghost predicate AllExact(w: World, a: Account) {
    && (forall ih :: ih in w.torrents ==> TorrentExact(w.torrents[ih], a))
    && (forall i :: 0 <= i < |w.lost| ==> TorrentExact(w.lost[i], a))
  }

  /** The percentage an announce on torrent t runs under. */
  function PriceAt(w: World, t: TorrentV, r: Announcement): nat {
    FreePercent(Admit(ColumnOf(t, r.peerID), r, NewPeer(r, Requester(w, r), t.id)), r, TermsOf(w, t))
  }

  lemma VisitIs(w: World, t: TorrentV, r: Announcement)
    ensures var v := VisitOf(w, t, r);
            v.after == Finish(Refresh(v.before, r, w.mode, PriceAt(w, t, r)), w.mode)
  {
    hide Finish, Refresh, Leave, Gone, BalanceMove, Admit, FreePercent;
  }

  lemma PutExact(c: Column, s: Slot, o: Option<PeerV>, a: Account)
    ensures ColumnExact(c, a) ==> OptExact(c.Get(s), a) && (ColumnExact(c.Put(s, o), a) <==> OptExact(o, a))
  {
    hide Exact;
  }

  lemma AdmitExact(c: Column, r: Announcement, newcomer: PeerV, a: Account)
    requires ColumnExact(c, a) && Exact(a, newcomer)
    ensures ColumnExact(Admit(c, r, newcomer), a)
  {
    var c1 := AdmitLeecher(c, r, newcomer);
    PutExact(c, LeechSlot(r), c1.Get(LeechSlot(r)), a);
    PutExact(c1, SeedSlot(r), Some(newcomer), a);
  }

  /** Whoever leaves the column is listed as gone, with the books it left with. */
  lemma LeaveExact(c: Column, r: Announcement, a: Account)
    ensures ColumnExact(Leave(c, r), a) && SeqExact(Gone(c, r), a) <==> ColumnExact(c, a)
  {
    hide Exact;
    if Gone(c, r) != [] { assert SeqExact(Gone(c, r), a) <==> Exact(a, Gone(c, r)[0]); }
  }

  lemma ServeExact(c: Column, r: Announcement, terms: Terms, newcomer: PeerV, a: Account)
    requires ColumnExact(c, a) && Exact(a, newcomer)
    ensures var v := Serve(c, r, terms, newcomer);
            Exact(a, v.before) && (ColumnExact(v.column, a) && SeqExact(v.gone, a) <==> Exact(a, v.after))
  {
    hide ColumnExact, SeqExact, Exact, Leave, Gone, Refresh, Finish, BalanceMove;
    var adm := Admit(c, r, newcomer);
    var v := Serve(c, r, terms, newcomer);
    var s := Target(adm, r);
    AdmitExact(c, r, newcomer, a);
    PutExact(adm, s, Some(v.after), a);
    LeaveExact(adm.Put(s, Some(v.after)), r, a);
  }

  lemma WithColumnExact(t: TorrentV, id: string, c: Column, a: Account)
    requires TorrentExact(t, a)
    ensures TorrentExact(WithColumn(t, id, c), a) <==> ColumnExact(c, a)
  {
    hide ColumnExact;
    forall x ensures ColumnOf(WithColumn(t, id, c), x) == if x == id then c else ColumnOf(t, x) {
      ColumnOfOther(t, id, c, x);
    }
    hide WithColumn, ColumnOf;
    assert ColumnOf(WithColumn(t, id, c), id) == c;
    assert WithColumn(t, id, c).departed == t.departed by { WithColumnDeparted(t, id, c); }
  }

  lemma WithColumnDeparted(t: TorrentV, id: string, c: Column)
    ensures WithColumn(t, id, c).departed == t.departed
  {}

  lemma DepartExact(t: TorrentV, t': TorrentV, gone: seq<PeerV>, a: Account)
    requires SeqExact(t.departed, a) && t'.departed == t.departed + gone
    requires t'.seeders == t.seeders && t'.seeders6 == t.seeders6
    requires t'.leechers == t.leechers && t'.leechers6 == t.leechers6
    ensures TorrentExact(t', a) <==> TorrentExact(t, a) && SeqExact(gone, a)
  {
    hide ColumnExact, Exact;
    forall id ensures ColumnOf(t', id) == ColumnOf(t, id) {}
    hide ColumnOf;
    if SeqExact(t'.departed, a) {
      forall i | 0 <= i < |gone| ensures Exact(a, gone[i]) { assert t'.departed[|t.departed| + i] == gone[i]; }
    }
  }

  lemma TorrentAfterExact(w: World, t: TorrentV, r: Announcement, a: Account)
    requires TorrentExact(t, a)
    ensures var v := VisitOf(w, t, r);
            Exact(a, v.before) && (TorrentExact(TorrentAfter(t, r, v), a) <==> Exact(a, v.after))
  {
    var v := VisitOf(w, t, r);
    var t1 := WithColumn(t, r.peerID, v.column);
    assert ColumnExact(ColumnOf(t, r.peerID), a);
    assert Exact(a, NewPeer(r, Requester(w, r), t.id));
    ServeExact(ColumnOf(t, r.peerID), r, TermsOf(w, t), NewPeer(r, Requester(w, r), t.id), a);
    WithColumnExact(t, r.peerID, v.column, a);
    WithColumnDeparted(t, r.peerID, v.column);
    DepartExact(t1, TorrentAfter(t, r, v), v.gone, a);
    hide WithColumn, ColumnExact, SeqExact, Exact, VisitOf;
  }

  ghost predicate Accepted(w: World, s: Step) { s.DoAnnounce? && Refusal(w, s.r).None? }

  /** An accepted private announce finds its torrent. */
  lemma FindsTorrent(w: World, r: Announcement)
    requires Refusal(w, r).None?
    ensures r.infoHash in Enter(w, r).torrents && Enter(w, r).mode == w.mode
    ensures !w.mode.Public? ==> Enter(w, r) == w && r.infoHash in w.torrents
    ensures w.mode.Private? ==> Requester(w, r).Some?
    ensures Requester(Enter(w, r), r) == Requester(w, r)
  {
    hide Whitelisted;
  }

  /** If the step is an accepted private announce, its figure is in step with the peer it finds. */
  ghost predicate Steady(w: World, s: Step, a: Account) {
    Accepted(w, s) && w.mode.Private? && s.r.infoHash in w.torrents ==>
      var t := w.torrents[s.r.infoHash];
      InStep(a, VisitOf(w, t, s.r).before, s.r, PriceAt(w, t, s.r))
  }

  /** What an accepted announce finds was read out, and is this peer of this torrent. */
  lemma FoundFits(w: World, r: Announcement)
    requires WorldFits(w) && RequestFits(r) && Refusal(w, r).None?
    ensures r.infoHash in Enter(w, r).torrents
    ensures var t := Enter(w, r).torrents[r.infoHash];
            var p := VisitOf(Enter(w, r), t, r).before;
            p.timespent == 0 && Long(p.lastUpdate) && p.peerID == r.peerID && p.torrentID == t.id
  {
    FindsTorrent(w, r);
    EnterFits(w, r);
    hide Enter, Refusal, Requester;
    var e := Enter(w, r);
    VisitFits(e, e.torrents[r.infoHash], r);
    hide VisitOf, TorrentAfter, TorrentFits;
  }

  lemma OneExact(w: World, w': World, ih: string, t: TorrentV, a: Account)
    requires AllExact(w, a) && w'.torrents == w.torrents[ih := t] && w'.lost == w.lost
    ensures AllExact(w', a) <==> TorrentExact(t, a)
  {
    hide TorrentExact;
    assert w'.torrents[ih] == t;
  }

  lemma EmptyExact(id: nat, free: nat, a: Account)
    ensures TorrentExact(NewTorrent(id, free), a)
  {}

  lemma EnterExact(w: World, r: Announcement, a: Account)
    requires AllExact(w, a)
    ensures AllExact(Enter(w, r), a)
  {
    hide TorrentExact, NewTorrent;
    EmptyExact(U32(w.stats.torrents), 0, a);
  }

  lemma AnnounceExact(w: World, r: Announcement, a: Account)
    requires WorldFits(w) && RequestFits(r) && AllExact(w, a)
    ensures AllExact(Announce(w, r), a) <==> Steady(w, DoAnnounce(r), a)
  {
    hide AllExact, WorldFits, Refusal, Enter, VisitOf, TorrentAfter, Book, InStep, Exact, PriceAt;
    if Refusal(w, r).None? {
      FindsTorrent(w, r);
      FoundFits(w, r);
      EnterExact(w, r, a);
      var e := Enter(w, r);
      var t := e.torrents[r.infoHash];
      var v := VisitOf(e, t, r);
      TorrentOfAll(e, r.infoHash, a);
      TorrentAfterExact(e, t, r, a);
      VisitIs(e, t, r);
      StepIsExact(a, v.before, r, e.mode, PriceAt(e, t, r));
      BookTorrents(e, r, v);
      OneExact(e, Book(e, r, v), r.infoHash, TorrentAfter(t, r, v), a);
    }
  }

  lemma TorrentOfAll(w: World, ih: string, a: Account)
    requires AllExact(w, a) && ih in w.torrents
    ensures TorrentExact(w.torrents[ih], a)
  {}

  lemma EvictExact(t: TorrentV, k: Key, mode: Mode, users: seq<UserV>, a: Account)
    requires TorrentFits(t, mode, users) && TorrentExact(t, a) && k.id in t.Get(k.slot)
    ensures TorrentExact(Evict(t, k, mode), a)
  {
    var c := ColumnOf(t, k.id);
    var p := t.Get(k.slot)[k.id];
    assert ColumnFits(c, k.id, t.id, mode, users) && ColumnExact(c, a) && c.Get(k.slot) == Some(p);
    PutFits(c, k.slot, None, k.id, t.id, mode, users);
    PutExact(c, k.slot, None, a);
    assert Exact(a, Expired(p, mode));
    WithColumnExact(t, k.id, c.Put(k.slot, None), a);
    WithColumnDeparted(t, k.id, c.Put(k.slot, None));
    DepartExact(WithColumn(t, k.id, c.Put(k.slot, None)), Evict(t, k, mode), [Expired(p, mode)], a);
    hide WithColumn, ColumnExact, Exact, Expired, TorrentFits, ColumnFits;
  }

  lemma {:induction false} SweepPeersKeepsExact(t: TorrentV, keys: seq<Key>, mode: Mode, now: int, timeout: int,
                                                users: seq<UserV>, a: Account)
    requires TorrentFits(t, mode, users) && TorrentExact(t, a)
    ensures TorrentExact(SweepPeers(t, keys, mode, now, timeout).torrent, a)
  {
    hide TorrentFits, TorrentExact, Evict, PeerRowOf;
    if keys != [] {
      var k := keys[|keys| - 1];
      var s := SweepPeers(t, keys[..|keys| - 1], mode, now, timeout);
      SweepPeersKeepsExact(t, keys[..|keys| - 1], mode, now, timeout, users, a);
      SweepPeersFits(t, keys[..|keys| - 1], mode, now, timeout, users);
      if Stale(s.torrent, k, now, timeout) { EvictExact(s.torrent, k, mode, users, a); }
    }
  }

  lemma CloseExact(w: World, ih: string, s: Swept, a: Account)
    requires AllExact(w, a) && ih in w.torrents && TorrentExact(s.torrent, a)
    ensures AllExact(Close(w, ih, s), a)
  {
    hide TorrentExact, TorrentRowOf, Empty;
  }

  lemma {:induction false} SweepExact(w: World, plan: seq<Turn>, now: int, a: Account)
    requires WorldFits(w) && AllExact(w, a)
    ensures AllExact(Sweep(w, plan, now), a)
  {
    hide AllExact, TorrentExact, Close;
    if plan != [] {
      var turn := plan[|plan| - 1];
      var w1 := Sweep(w, plan[..|plan| - 1], now);
      SweepExact(w, plan[..|plan| - 1], now, a);
      SweepFits(w, plan[..|plan| - 1], now);
      if turn.infoHash in w1.torrents {
        TorrentOfAll(w1, turn.infoHash, a);
        SweepPeersKeepsExact(w1.torrents[turn.infoHash], turn.keys, w1.mode, now, w1.timeout, w1.users, a);
        CloseExact(w1, turn.infoHash, SweepPeers(w1.torrents[turn.infoHash], turn.keys, w1.mode, now, w1.timeout), a);
      }
    }
  }

  lemma FreeExact(t: TorrentV, free: nat, a: Account)
    requires TorrentExact(t, a)
    ensures TorrentExact(t.(free := free), a)
  {
    var t' := t.(free := free);
    forall id ensures ColumnOf(t', id) == ColumnOf(t, id) {}
    hide ColumnOf, ColumnExact;
  }

  /** Exact books stay exact through a step if and only if it is steady: only an accepted private announce can spoil
      them, and it does so exactly if its figure falls or rises by a word. */
  lemma TakeExact(w: World, s: Step, a: Account)
    requires WorldFits(w) && StepFits(s) && AllExact(w, a)
    ensures AllExact(Take(w, s), a) <==> Steady(w, s, a)
  {
    hide TorrentExact, NewTorrent, Announce, Sweep;
    match s
    case DoAnnounce(r) => AnnounceExact(w, r, a);
    case DoSweep(plan, now) => SweepExact(w, plan, now, a);
    case DoAddTorrent(ih, id, free) =>
      EmptyExact(id, free, a);
      if ih in w.torrents { FreeExact(w.torrents[ih], free, a); }
    case DoSetFree(ih, free) => if ih in w.torrents { FreeExact(w.torrents[ih], free, a); }
    case DoDeleteTorrent(ih) =>
    case DoEdit(e) => EditIsLocal(w, e); hide Edited;
  }

  /** At every point of the run all books are exact. */
  ghost predicate AlwaysExact(w: World, steps: seq<Step>, a: Account) {
    if steps == [] then AllExact(w, a)
    else AlwaysExact(w, steps[..|steps| - 1], a) && AllExact(Run(w, steps), a)
  }

  ghost predicate AlwaysSteady(w: World, steps: seq<Step>, a: Account) {
    steps == [] ||
    (AlwaysSteady(w, steps[..|steps| - 1], a)
     && Steady(Run(w, steps[..|steps| - 1]), steps[|steps| - 1], a))
  }

  /** For credit and for time, and every peer present, departed or dropped with its torrent: the books are exact at
      every point of a run if and only if every announce was in step with the peer it found. */
  lemma {:induction false} RunExact(w: World, steps: seq<Step>, a: Account)
    requires WorldFits(w) && AllExact(w, a) && forall i :: 0 <= i < |steps| ==> StepFits(steps[i])
    ensures AlwaysExact(w, steps, a) <==> AlwaysSteady(w, steps, a)
  {
    if steps != [] {
      var earlier := steps[..|steps| - 1];
      RunExact(w, earlier, a);
      RunFits(w, earlier);
      hide AllExact, Steady, WorldFits, StepFits, Take;
      if AlwaysExact(w, earlier, a) {
        LastExact(w, earlier, a);
        TakeExact(Run(w, earlier), steps[|steps| - 1], a);
      }
    }
  }

  lemma LastExact(w: World, steps: seq<Step>, a: Account)
    requires AlwaysExact(w, steps, a)
    ensures AllExact(Run(w, steps), a)
  {
    hide AllExact;
  }

  /** An accepted private announce is on time: its clock reading is not before the last update of the peer it finds, nor
      before the reading of the constructor, if it creates the peer. */
  ghost predicate OnTime(w: World, s: Step) {
    Accepted(w, s) && w.mode.Private? && s.r.infoHash in w.torrents ==>
      VisitOf(w, w.torrents[s.r.infoHash], s.r).before.lastUpdate <= s.r.now
  }

  lemma TimeSteady(w: World, s: Step)
    requires WorldFits(w) && StepFits(s)
    ensures Steady(w, s, Seconds) <==> OnTime(w, s)
  {
    hide Refusal, VisitOf, WorldFits, PriceAt, InStep, Enter;
    if Accepted(w, s) && w.mode.Private? && s.r.infoHash in w.torrents {
      FindsTorrent(w, s.r);
      FoundFits(w, s.r);
      var t := w.torrents[s.r.infoHash];
      TimeInStep(VisitOf(w, t, s.r).before, s.r, PriceAt(w, t, s.r));
    }
  }

  ghost predicate AlwaysOnTime(w: World, steps: seq<Step>) {
    steps == [] || (AlwaysOnTime(w, steps[..|steps| - 1]) && OnTime(Run(w, steps[..|steps| - 1]), steps[|steps| - 1]))
  }

  /** What every peer's rows report is its lifetime, at every point of a run, if and only if every accepted private
      announce was on time. */
  lemma TimeIsExact(w: World, steps: seq<Step>)
    requires WorldFits(w) && AllExact(w, Seconds) && forall i :: 0 <= i < |steps| ==> StepFits(steps[i])
    ensures AlwaysExact(w, steps, Seconds) <==> AlwaysOnTime(w, steps)
  {
    RunExact(w, steps, Seconds);
    SteadyIsOnTime(w, steps);
    hide AllExact, WorldFits, StepFits;
  }

  lemma {:induction false} SteadyIsOnTime(w: World, steps: seq<Step>)
    requires WorldFits(w) && forall i :: 0 <= i < |steps| ==> StepFits(steps[i])
    ensures AlwaysSteady(w, steps, Seconds) <==> AlwaysOnTime(w, steps)
  {
    if steps != [] {
      var earlier := steps[..|steps| - 1];
      SteadyIsOnTime(w, earlier);
      RunFits(w, earlier);
      TimeSteady(Run(w, earlier), steps[|steps| - 1]);
      hide Steady, OnTime, WorldFits, StepFits;
    }
  }

  // ---------------------------------------------------------------- sums over peers, over a run

  predicate Books(k: Meter) { k.Down? || k.Up? || k.Time? }

  function AccountOf(k: Meter): Account
    requires Books(k)
  {
    match k
    case Down(_) => Downloads
    case Up(_) => Uploads
    case Time(_, _) => Seconds
  }

  /** The meter of what the rows should say. */
  function Real(k: Meter): Meter
    requires Books(k)
  {
    match k
    case Down(uid) => Fetched(uid)
    case Up(uid) => Sent(uid)
    case Time(tid, pid) => Lived(tid, pid)
  }

  predicate Counts(k: Meter, p: PeerV)
    requires Books(k)
  {
    match k
    case Down(uid) => p.user.Some? && p.user.value.id == uid
    case Up(uid) => p.user.Some? && p.user.value.id == uid
    case Time(tid, pid) => p.torrentID == tid && p.peerID == pid
  }

  lemma MeasureIs(k: Meter, p: PeerV)
    requires Books(k)
    ensures Measure(k, p) == if Counts(k, p) then Booked(AccountOf(k), p) else 0
    ensures Measure(Real(k), p) == if Counts(k, p) then Earned(AccountOf(k), p) else 0
  {}

  lemma CountsStays(k: Meter, p: PeerV, r: Announcement, mode: Mode, free: nat)
    requires Books(k)
    ensures Counts(k, Finish(Refresh(p, r, mode, free), mode)) <==> Counts(k, p)
  {}

  /** By how much the step raises what the meter's rows should say: the rise of an accepted private announce that finds
      a peer the meter counts. */
  ghost function RiseIn(w: World, s: Step, k: Meter): int
    requires Books(k)
  {
    if Accepted(w, s) && w.mode.Private? && s.r.infoHash in w.torrents then
      var t := w.torrents[s.r.infoHash];
      var p := VisitOf(w, t, s.r).before;
      if Counts(k, p) then Rise(AccountOf(k), p, s.r, PriceAt(w, t, s.r)) else 0
    else 0
  }

  /** The sum over all peers moves by the one peer an announce is about. */
  lemma AnnounceMoves(w: World, r: Announcement, k: Meter)
    requires Refusal(w, r).None?
    ensures r.infoHash in Enter(w, r).torrents
    ensures var v := VisitOf(Enter(w, r), Enter(w, r).torrents[r.infoHash], r);
            Total(Announce(w, r), k) == Total(w, k) + Measure(k, v.after) - Measure(k, v.before)
  {
    FindsTorrent(w, r);
    EnterTotal(w, r, k);
    hide Refusal, Enter, VisitOf, TorrentAfter, Book, TorrentSum, Total, Measure;
    var e := Enter(w, r);
    var t := e.torrents[r.infoHash];
    var v := VisitOf(e, t, r);
    BookTorrents(e, r, v);
    TorrentAfterSum(e, t, r, k);
    TotalStep(e, Book(e, r, v), r.infoHash, TorrentAfter(t, r, v), k);
  }

  lemma EnterTotal(w: World, r: Announcement, k: Meter)
    ensures Total(Enter(w, r), k) == Total(w, k)
  {
    hide Total, TorrentSum;
    EmptySum(NewTorrent(U32(w.stats.torrents), 0), k);
    if w.mode.Public? && r.infoHash !in w.torrents {
      TotalStep(w, Enter(w, r), r.infoHash, NewTorrent(U32(w.stats.torrents), 0), k);
    }
  }

  lemma AnnounceRises(w: World, r: Announcement, k: Meter)
    requires WorldFits(w) && RequestFits(r) && Books(k)
    ensures var rise := RiseIn(w, DoAnnounce(r), k);
            && Total(Announce(w, r), Real(k)) == Total(w, Real(k)) + rise
            && Total(Announce(w, r), k) == Total(w, k) + rise % AccountOf(k).Unit()
  {
    hide Refusal, Enter, Accept, VisitOf, Total, Measure, Booked, Earned, Counts, Rise, WorldFits, RequestFits, PriceAt,
         Real, Finish, Refresh;
    if Refusal(w, r).None? {
      AnnounceMoves(w, r, k);
      AnnounceMoves(w, r, Real(k));
      FoundFits(w, r);
      FindsTorrent(w, r);
      var e := Enter(w, r);
      var t := e.torrents[r.infoHash];
      var v := VisitOf(e, t, r);
      VisitIs(e, t, r);
      RiseIsCut(AccountOf(k), v.before, r, e.mode, PriceAt(e, t, r));
      CountsStays(k, v.before, r, e.mode, PriceAt(e, t, r));
      MeasureIs(k, v.before);
      MeasureIs(k, v.after);
    }
  }

  lemma EvictKeepsSum(t: TorrentV, key: Key, mode: Mode, users: seq<UserV>, k: Meter)
    requires TorrentFits(t, mode, users) && key.id in t.Get(key.slot)
    ensures TorrentSum(Evict(t, key, mode), k) == TorrentSum(t, k)
  {
    hide TorrentSum, Evict, TorrentFits;
    EvictSum(t, key, mode, k);
    StoredIsReadOut(t, key, mode, users);
  }

  lemma StoredIsReadOut(t: TorrentV, key: Key, mode: Mode, users: seq<UserV>)
    requires TorrentFits(t, mode, users) && key.id in t.Get(key.slot)
    ensures t.Get(key.slot)[key.id].timespent == 0
  {
    hide SessionFits, PackedFits, UserFits;
    var c := ColumnOf(t, key.id);
    assert ColumnFits(c, key.id, t.id, mode, users);
    PutFits(c, key.slot, None, key.id, t.id, mode, users);
    ColumnGet(t, key);
  }

  lemma {:induction false} SweepPeersKeepsSum(t: TorrentV, keys: seq<Key>, mode: Mode, now: int, timeout: int,
                                              users: seq<UserV>, k: Meter)
    requires TorrentFits(t, mode, users)
    ensures TorrentSum(SweepPeers(t, keys, mode, now, timeout).torrent, k) == TorrentSum(t, k)
  {
    hide TorrentFits, TorrentSum, Evict, PeerRowOf;
    if keys != [] {
      var key := keys[|keys| - 1];
      var s := SweepPeers(t, keys[..|keys| - 1], mode, now, timeout);
      SweepPeersKeepsSum(t, keys[..|keys| - 1], mode, now, timeout, users, k);
      SweepPeersFits(t, keys[..|keys| - 1], mode, now, timeout, users);
      if Stale(s.torrent, key, now, timeout) { EvictKeepsSum(s.torrent, key, mode, users, k); }
    }
  }

  lemma CloseTotal(w: World, ih: string, s: Swept, k: Meter)
    requires ih in w.torrents && TorrentSum(s.torrent, k) == TorrentSum(w.torrents[ih], k)
    ensures Total(Close(w, ih, s), k) == Total(w, k)
  {
    hide TorrentSum, Total, Empty, TorrentRowOf;
    var w1 := w.(torrents := w.torrents[ih := s.torrent], peerLog := w.peerLog + s.rows);
    TotalStep(w, w1, ih, s.torrent, k);
    if w.mode.Public? && Empty(s.torrent) {
      TotalDrop(w1, Drop(w1, ih), ih, k);
    } else {
      SameTotal(w1, Close(w, ih, s), k);
    }
  }

  lemma SameTotal(w: World, w': World, k: Meter)
    requires w'.torrents == w.torrents && w'.lost == w.lost
    ensures Total(w', k) == Total(w, k)
  {}

  lemma {:induction false} SweepTotal(w: World, plan: seq<Turn>, now: int, k: Meter)
    requires WorldFits(w)
    ensures Total(Sweep(w, plan, now), k) == Total(w, k)
  {
    hide Total, TorrentSum, TorrentFits, Close;
    if plan != [] {
      var turn := plan[|plan| - 1];
      var w1 := Sweep(w, plan[..|plan| - 1], now);
      SweepTotal(w, plan[..|plan| - 1], now, k);
      SweepFits(w, plan[..|plan| - 1], now);
      if turn.infoHash in w1.torrents {
        var s := SweepPeers(w1.torrents[turn.infoHash], turn.keys, w1.mode, now, w1.timeout);
        SweepPeersKeepsSum(w1.torrents[turn.infoHash], turn.keys, w1.mode, now, w1.timeout, w1.users, k);
        CloseTotal(w1, turn.infoHash, s, k);
      }
    }
  }

  lemma PutFreeTotal(w: World, ih: string, free: nat, k: Meter)
    requires ih in w.torrents
    ensures Total(w.(torrents := w.torrents[ih := w.torrents[ih].(free := free)]), k) == Total(w, k)
  {
    var t := w.torrents[ih].(free := free);
    assert TorrentSum(t, k) == TorrentSum(w.torrents[ih], k);
    hide TorrentSum, Total;
    TotalStep(w, w.(torrents := w.torrents[ih := t]), ih, t, k);
  }

  lemma AddTorrentTotal(w: World, ih: string, id: nat, free: nat, k: Meter)
    ensures Total(AddTorrent(w, ih, id, free), k) == Total(w, k)
  {
    hide Total, TorrentSum;
    if ih in w.torrents { PutFreeTotal(w, ih, free, k); } else {
      EmptySum(NewTorrent(id, free), k);
      TotalStep(w, AddTorrent(w, ih, id, free), ih, NewTorrent(id, free), k);
    }
  }

  /** A step that is no announce moves no sum. */
  lemma OtherStepTotal(w: World, s: Step, k: Meter)
    requires WorldFits(w) && !s.DoAnnounce?
    ensures Total(Take(w, s), k) == Total(w, k)
  {
    hide Total, WorldFits, Sweep, AddTorrent, Edited;
    match s
    case DoSweep(plan, now) => SweepTotal(w, plan, now, k);
    case DoAddTorrent(ih, id, free) => AddTorrentTotal(w, ih, id, free, k);
    case DoSetFree(ih, free) => if ih in w.torrents { PutFreeTotal(w, ih, free, k); }
    case DoDeleteTorrent(ih) => if ih in w.torrents { TotalDrop(w, DeleteTorrent(w, ih), ih, k); }
    case DoEdit(e) =>
      EditIsLocal(w, e);
      SameTotal(w, Edited(w, e), k);
  }

  /** Every step moves what the rows should say by its rise, and what they say by that rise cut to the word. */
  lemma TakeRises(w: World, s: Step, k: Meter)
    requires WorldFits(w) && StepFits(s) && Books(k)
    ensures var rise := RiseIn(w, s, k);
            && Total(Take(w, s), Real(k)) == Total(w, Real(k)) + rise
            && Total(Take(w, s), k) == Total(w, k) + rise % AccountOf(k).Unit()
  {
    hide Total, WorldFits, Announce, Refusal;
    if s.DoAnnounce? {
      AnnounceRises(w, s.r, k);
      hide RiseIn;
    } else {
      OtherStepTotal(w, s, k);
      OtherStepTotal(w, s, Real(k));
      hide Take;
    }
  }

  /** How many words the cuts lost over the run (or, for falling figures, gained). */
  ghost function Jumps(w: World, steps: seq<Step>, k: Meter): int
    requires Books(k)
  {
    if steps == [] then 0
    else
      var earlier := steps[..|steps| - 1];
      Jumps(w, earlier, k) + RiseIn(Run(w, earlier), steps[|steps| - 1], k) / AccountOf(k).Unit()
  }

  /** Along the run no announce the meter counts falls behind its peer's last figure. */
  ghost predicate NeverFalls(w: World, steps: seq<Step>, k: Meter)
    requires Books(k)
  {
    steps == [] ||
    (NeverFalls(w, steps[..|steps| - 1], k) && RiseIn(Run(w, steps[..|steps| - 1]), steps[|steps| - 1], k) >= 0)
  }

  /** And none rises by a whole word. */
  ghost predicate SmallRises(w: World, steps: seq<Step>, k: Meter)
    requires Books(k)
  {
    steps == [] ||
    (SmallRises(w, steps[..|steps| - 1], k)
     && RiseIn(Run(w, steps[..|steps| - 1]), steps[|steps| - 1], k) < AccountOf(k).Unit())
  }

  lemma CutOff(rise: int, unit: nat)
    requires unit > 0
    ensures rise % unit == rise - unit * (rise / unit)
    ensures rise >= 0 <==> rise / unit >= 0
    ensures rise < unit <==> rise / unit <= 0
  {}

  /** The exact difference, after any run: one word for every jump. */
  lemma {:induction false} RunRises(w: World, steps: seq<Step>, k: Meter)
    requires WorldFits(w) && Books(k) && forall i :: 0 <= i < |steps| ==> StepFits(steps[i])
    ensures Total(Run(w, steps), k) - Total(w, k)
            == Total(Run(w, steps), Real(k)) - Total(w, Real(k)) - AccountOf(k).Unit() * Jumps(w, steps, k)
    ensures NeverFalls(w, steps, k) ==>
              Jumps(w, steps, k) >= 0 && (Jumps(w, steps, k) == 0 <==> SmallRises(w, steps, k))
    ensures SmallRises(w, steps, k) ==>
              Jumps(w, steps, k) <= 0 && (Jumps(w, steps, k) == 0 <==> NeverFalls(w, steps, k))
  {
    if steps != [] {
      var earlier := steps[..|steps| - 1];
      var unit := AccountOf(k).Unit();
      RunRises(w, earlier, k);
      RunFits(w, earlier);
      TakeRises(Run(w, earlier), steps[|steps| - 1], k);
      hide Total, WorldFits, RiseIn, Take, AccountOf, Real, StepFits;
      var rise := RiseIn(Run(w, earlier), steps[|steps| - 1], k);
      CutOff(rise, unit);
      Distribute(unit, Jumps(w, earlier, k), rise / unit);
    }
  }

  lemma Distribute(unit: int, x: int, y: int)
    ensures unit * (x + y) == unit * x + unit * y
  {}

  /** For the time only the order of the clock readings counts. */
  lemma {:induction false} TimeRisesAreSmall(w: World, steps: seq<Step>, k: Meter)
    requires WorldFits(w) && k.Time? && forall i :: 0 <= i < |steps| ==> StepFits(steps[i])
    ensures SmallRises(w, steps, k)
  {
    if steps != [] {
      var earlier := steps[..|steps| - 1];
      TimeRisesAreSmall(w, earlier, k);
      RunFits(w, earlier);
      TimeRiseIsSmall(Run(w, earlier), steps[|steps| - 1], k);
      hide WorldFits, RiseIn, StepFits;
    }
  }

  lemma TimeRiseIsSmall(w: World, s: Step, k: Meter)
    requires WorldFits(w) && k.Time? && StepFits(s)
    ensures RiseIn(w, s, k) < 0x1_0000_0000_0000_0000
    ensures RiseIn(w, s, k) >= 0 <==> OnTimeFor(w, s, k.torrentID, k.peerID)
  {
    hide Refusal, VisitOf, WorldFits, PriceAt, Enter;
    if Accepted(w, s) && w.mode.Private? && s.r.infoHash in w.torrents {
      FindsTorrent(w, s.r);
      FoundFits(w, s.r);
    }
  }

  /** The same for one peer id of one torrent. */
  ghost predicate OnTimeFor(w: World, s: Step, torrentID: nat, peerID: string) {
    s.DoAnnounce? && s.r.peerID == peerID && s.r.infoHash in w.torrents && w.torrents[s.r.infoHash].id == torrentID
    ==> OnTime(w, s)
  }

  ghost predicate AlwaysOnTimeFor(w: World, steps: seq<Step>, torrentID: nat, peerID: string) {
    steps == [] ||
    (AlwaysOnTimeFor(w, steps[..|steps| - 1], torrentID, peerID)
     && OnTimeFor(Run(w, steps[..|steps| - 1]), steps[|steps| - 1], torrentID, peerID))
  }

  lemma {:induction false} NeverFallsIsOnTime(w: World, steps: seq<Step>, k: Meter)
    requires WorldFits(w) && k.Time? && forall i :: 0 <= i < |steps| ==> StepFits(steps[i])
    ensures NeverFalls(w, steps, k) <==> AlwaysOnTimeFor(w, steps, k.torrentID, k.peerID)
  {
    if steps != [] {
      var earlier := steps[..|steps| - 1];
      NeverFallsIsOnTime(w, earlier, k);
      RunFits(w, earlier);
      TimeRiseIsSmall(Run(w, earlier), steps[|steps| - 1], k);
      hide WorldFits, RiseIn, StepFits, OnTimeFor;
    }
  }

  lemma TimeJumps(w: World, steps: seq<Step>, k: Meter)
    requires WorldFits(w) && k.Time? && forall i :: 0 <= i < |steps| ==> StepFits(steps[i])
    ensures Jumps(w, steps, k) == 0 <==> AlwaysOnTimeFor(w, steps, k.torrentID, k.peerID)
  {
    RunRises(w, steps, k);
    TimeRisesAreSmall(w, steps, k);
    NeverFallsIsOnTime(w, steps, k);
    hide WorldFits, StepFits, Total;
  }
}
