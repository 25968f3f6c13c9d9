/**
 * The tracker's main loop, the write-behind queues of three tables and any number of workers, interleaved: rows and
 * tables against memory, over every run and under any pattern of failing statements.
 */
module System {
  import opened Words
  import opened Options
  import opened Ledger
  import opened Tracker
  import opened Sums
  import opened Meters
  import opened Shape
  import opened Conservation
  import opened Exactness
  import opened WriteBehind

  datatype Table = Users | Torrents | Peers

  datatype System = System(w: World, users: Queue<UserRow>, torrents: Queue<TorrentRow>, peers: Queue<PeerRow>)

  /** `Work` is a move of a worker on one table's queue, or the main loop's flush of it. */
  datatype Act = Track(step: Step) | Flush(table: Table) | Acquire(table: Table) | Succeed(table: Table)
               | Fail(table: Table) | Release(table: Table)

  predicate LockFree(s: System) { s.users.pass.None? && s.torrents.pass.None? && s.peers.pass.None? }

  function MoveOf<R>(a: Act): Move<R>
    requires !a.Track?
  {
    match a
    case Flush(_) => WriteBehind.Flush
    case Acquire(_) => WriteBehind.Acquire
    case Succeed(_) => WriteBehind.Succeed
    case Fail(_) => WriteBehind.Fail
    case Release(_) => WriteBehind.Release
  }

  /** One mutex serves all tables: a worker gets it only when no queue has a lock holder. */
  predicate CanAct(s: System, a: Act) {
    if a.Track? then true
    else
      (a.Acquire? ==> LockFree(s)) &&
      match a.table
      case Users => Enabled(s.users, MoveOf(a))
      case Torrents => Enabled(s.torrents, MoveOf(a))
      case Peers => Enabled(s.peers, MoveOf(a))
  }

  function Perform(s: System, a: Act): System
    requires CanAct(s, a)
  {
    if a.Track? then
      var w := Take(s.w, a.step);
      System(w, Do(s.users, Record(Grown(s.w.userLog, w.userLog))),
             Do(s.torrents, Record(Grown(s.w.torrentLog, w.torrentLog))),
             Do(s.peers, Record(Grown(s.w.peerLog, w.peerLog))))
    else
      match a.table
      case Users => s.(users := Do(s.users, MoveOf(a)))
      case Torrents => s.(torrents := Do(s.torrents, MoveOf(a)))
      case Peers => s.(peers := Do(s.peers, MoveOf(a)))
  }

  /** The system after the acts; None if one of them was not possible. */
  function PerformAll(s: System, acts: seq<Act>): Option<System> {
    if acts == [] then Some(s)
    else
      var o := PerformAll(s, acts[..|acts| - 1]);
      if o.Some? && CanAct(o.value, acts[|acts| - 1]) then Some(Perform(o.value, acts[|acts| - 1])) else None
  }

  /** One act more. */
  lemma PerformOne(s: System, acts: seq<Act>, s1: System, a: Act)
    requires PerformAll(s, acts) == Some(s1)
    ensures PerformAll(s, acts + [a]) == if CanAct(s1, a) then Some(Perform(s1, a)) else None
    ensures a.Track? ==> CanAct(s1, a)
  {
    assert (acts + [a])[..|acts|] == acts;
    hide Perform;
  }

  /** Acts one after the other. */
  lemma {:induction false} PerformMore(s: System, acts: seq<Act>, s1: System, more: seq<Act>)
    requires PerformAll(s, acts) == Some(s1)
    ensures PerformAll(s, acts + more) == PerformAll(s1, more)
  {
    hide Perform, CanAct;
    if more == [] {
      assert acts + more == acts;
    } else {
      var n := |more| - 1;
      PerformMore(s, acts, s1, more[..n]);
      assert (acts + more)[..|acts + more| - 1] == acts + more[..n];
    }
  }

  // ---------------------------------------------------------------- logs only grow

  ghost predicate LogsGrow(w: World, w': World) {
    w.userLog <= w'.userLog && w.torrentLog <= w'.torrentLog && w.peerLog <= w'.peerLog
  }

  lemma BookLogs(w: World, r: Announcement, v: Visit)
    requires r.infoHash in w.torrents
    ensures LogsGrow(w, Book(w, r, v))
  {
    hide TorrentAfter, PeerRowOf, TorrentRowOf, UpdateGauges, Added, Credited, UserRows;
  }

  lemma {:induction false} SweepLogs(w: World, plan: seq<Turn>, now: int)
    ensures LogsGrow(w, Sweep(w, plan, now))
  {
    if plan != [] {
      SweepLogs(w, plan[..|plan| - 1], now);
      hide SweepPeers, TorrentRowOf, Empty;
    }
  }

  lemma TakeLogs(w: World, s: Step)
    ensures LogsGrow(w, Take(w, s))
  {
    hide Book, VisitOf, Whitelisted, Sweep;
    match s
    case DoAnnounce(r) =>
      if Refusal(w, r).None? { BookLogs(Enter(w, r), r, VisitOf(Enter(w, r), Enter(w, r).torrents[r.infoHash], r)); }
    case DoSweep(plan, now) => SweepLogs(w, plan, now);
    case DoEdit(e) => EditIsLocal(w, e); hide Edited;
    case _ =>
  }

  lemma GrownIs<R>(log: seq<R>, log': seq<R>)
    requires log <= log'
    ensures log + Grown(log, log') == log'
  {}

  // ---------------------------------------------------------------- exactly once

  /** Every row ever recorded is, as often as it was recorded, in one place of its table's queue. */
  ghost predicate AllKept(s: System) {
    Kept(s.users, s.w.userLog) && Kept(s.torrents, s.w.torrentLog) && Kept(s.peers, s.w.peerLog)
  }

  lemma PerformKeeps(s: System, a: Act)
    requires CanAct(s, a) && AllKept(s)
    ensures AllKept(Perform(s, a))
  {
    hide Kept, Take;
    if a.Track? {
      var w := Take(s.w, a.step);
      TakeLogs(s.w, a.step);
      GrownIs(s.w.userLog, w.userLog);
      GrownIs(s.w.torrentLog, w.torrentLog);
      GrownIs(s.w.peerLog, w.peerLog);
      MoveKeeps(s.users, Record(Grown(s.w.userLog, w.userLog)), s.w.userLog);
      MoveKeeps(s.torrents, Record(Grown(s.w.torrentLog, w.torrentLog)), s.w.torrentLog);
      MoveKeeps(s.peers, Record(Grown(s.w.peerLog, w.peerLog)), s.w.peerLog);
    } else {
      match a.table
      case Users => MoveKeeps(s.users, MoveOf(a), s.w.userLog);
      case Torrents => MoveKeeps(s.torrents, MoveOf(a), s.w.torrentLog);
      case Peers => MoveKeeps(s.peers, MoveOf(a), s.w.peerLog);
    }
  }

  ghost predicate ActFits(a: Act) { a.Track? ==> StepFits(a.step) }

  lemma {:induction false} ActsKeep(s: System, acts: seq<Act>, k: Meter)
    requires AllKept(s) && WorldFits(s.w) && forall i :: 0 <= i < |acts| ==> ActFits(acts[i])
    requires PerformAll(s, acts).Some?
    ensures var s' := PerformAll(s, acts).value;
            AllKept(s') && WorldFits(s'.w) && Agrees(s.w, s'.w, k)
  {
    hide AllKept, WorldFits, Agrees, StepFits, Take;
    if acts == [] {
      AgreesSelf(s.w, k);
    } else {
      ActsKeep(s, acts[..|acts| - 1], k);
      var s1 := PerformAll(s, acts[..|acts| - 1]).value;
      var a := acts[|acts| - 1];
      PerformKeeps(s1, a);
      if a.Track? {
        TakeFits(s1.w, a.step);
        TakeAgrees(s1.w, a.step, k);
        AgreesTrans(s.w, s1.w, Take(s1.w, a.step), k);
      }
    }
  }

  lemma AgreesSelf(w: World, k: Meter)
    ensures Agrees(w, w, k)
  {}

  // ---------------------------------------------------------------- the users and peers tables

  /** ON DUPLICATE KEY UPDATE with additive columns: the table's entry for a key, under a weight of one column. */
  function AddColumn<R>(entry: int, rows: seq<R>, weight: R -> int): int {
    if rows == [] then entry else AddColumn(entry, rows[..|rows| - 1], weight) + weight(rows[|rows| - 1])
  }

  lemma {:induction false} AddColumnSums<R>(entry: int, rows: seq<R>, weight: R -> int)
    ensures AddColumn(entry, rows, weight) == entry + SumSeq(rows, weight)
  {
    if rows != [] { AddColumnSums(entry, rows[..|rows| - 1], weight); }
  }

  /** A system that has just started: nothing queued, nothing recorded, no peer yet. */
  ghost predicate Started(s: System) {
    && WorldFits(s.w) && s.w.userLog == [] && s.w.torrentLog == [] && s.w.peerLog == [] && s.w.lost == []
    && (forall ih :: ih in s.w.torrents ==> Empty(s.w.torrents[ih]) && s.w.torrents[ih].departed == [])
    && s.w.stats.speed == 0
    && s.users == Queue([], [], [], 0, None) && s.torrents == Queue([], [], [], 0, None)
    && s.peers == Queue([], [], [], 0, None)
  }

  lemma {:induction false} SumOfZeros<K>(m: map<K, int>)
    requires forall k :: k in m ==> m[k] == 0
    ensures SumOf(m) == 0
    decreases |m|
  {
    if m.Keys != {} { SumOfZeros(m - {Pick(m.Keys)}); }
  }

  lemma StartedIsEmpty(s: System, k: Meter)
    requires Started(s)
    ensures AllKept(s) && Total(s.w, k) == 0 && Reading(s.w, k) == 0
  {
    forall ih | ih in s.w.torrents ensures TorrentSum(s.w.torrents[ih], k) == 0 { EmptySum(s.w.torrents[ih], k); }
    SumOfZeros(TorrentWeights(s.w.torrents, k));
    FlatNothing<UserRow>();
    FlatNothing<TorrentRow>();
    FlatNothing<PeerRow>();
  }

  /** What one key's column of an added-up table comes to once all that is batched and queued is applied. */
  ghost function Due<R>(entry: int, q: Queue<R>, weight: R -> int): int {
    AddColumn(entry, q.applied, weight) + SumSeq(Flat(q.records), weight) + SumSeq(q.requests, weight)
  }

  lemma DueIs<R>(entry: int, q: Queue<R>, log: seq<R>, weight: R -> int)
    requires Kept(q, log)
    ensures Due(entry, q, weight) == entry + SumSeq(log, weight)
  {
    KeptSums(q, log, weight);
    AddColumnSums(entry, q.applied, weight);
    hide Kept, SumSeq, AddColumn, Flat;
  }

  /** The column that the rows of k add to: a user's downloads or uploads, or the seconds of a peer of a torrent. */
  ghost function DueFor(s: System, k: Meter, entry: int): int
    requires Books(k)
  {
    if k.Time? then Due(entry, s.peers, PeerWeight(k)) else Due(entry, s.users, UserWeight(k))
  }

  /** From a fresh start the acts are possible, and their announces fit. */
  ghost predicate Plays(s: System, acts: seq<Act>) {
    Started(s) && (forall i :: 0 <= i < |acts| ==> ActFits(acts[i])) && PerformAll(s, acts).Some?
  }

  ghost function End(s: System, acts: seq<Act>): System
    requires Plays(s, acts)
  {
    PerformAll(s, acts).value
  }

  lemma ExactlyOnce(s: System, acts: seq<Act>, k: Meter, entry: int)
    requires Plays(s, acts) && Books(k)
    ensures DueFor(End(s, acts), k, entry) == entry + Total(End(s, acts).w, k)
  {
    hide PerformAll, Kept, Total, Due;
    StartedIsEmpty(s, k);
    ActsKeep(s, acts, k);
    var s' := End(s, acts);
    if k.Time? {
      DueIs(entry, s'.peers, s'.w.peerLog, PeerWeight(k));
    } else {
      DueIs(entry, s'.users, s'.w.userLog, UserWeight(k));
    }
    hide Started, AllKept, WorldFits, SumSeq;
  }

  /**
   * Credit, exactly once: under every interleaving of announces, sweeps, passkey changes, flushes and workers, and
   * whichever statements fail, a user's downloaded column in the database, plus the rows still batched and queued,
   * is what it was at the start plus what all peers that ever belonged to the user were credited.
   */
  lemma DownloadedExactlyOnce(s: System, acts: seq<Act>, uid: nat, entry: int)
    requires Plays(s, acts)
    ensures var s' := End(s, acts);
            Due(entry, s'.users, UserWeight(Down(uid))) == entry + Total(s'.w, Down(uid))
  {
    ExactlyOnce(s, acts, Down(uid), entry);
    hide End, Plays, Total, Due;
  }

  lemma UploadedExactlyOnce(s: System, acts: seq<Act>, uid: nat, entry: int)
    requires Plays(s, acts)
    ensures var s' := End(s, acts);
            Due(entry, s'.users, UserWeight(Up(uid))) == entry + Total(s'.w, Up(uid))
  {
    ExactlyOnce(s, acts, Up(uid), entry);
    hide End, Plays, Total, Due;
  }

  // ---------------------------------------------------------------- against what happened

  /** The tracker's own steps among the acts. */
  function StepsOf(acts: seq<Act>): seq<Step> {
    if acts == [] then []
    else
      var a := acts[|acts| - 1];
      StepsOf(acts[..|acts| - 1]) + if a.Track? then [a.step] else []
  }

  lemma MemoryAfter(s: System, a: Act)
    requires CanAct(s, a)
    ensures Perform(s, a).w == if a.Track? then Take(s.w, a.step) else s.w
  {
    hide Take, Do;
  }

  /** Queues and workers have no influence on memory. */
  lemma {:induction false} PerformedRun(s: System, acts: seq<Act>)
    requires PerformAll(s, acts).Some? && forall i :: 0 <= i < |acts| ==> ActFits(acts[i])
    ensures PerformAll(s, acts).value.w == Run(s.w, StepsOf(acts))
    ensures forall i :: 0 <= i < |StepsOf(acts)| ==> StepFits(StepsOf(acts)[i])
  {
    hide Take, StepFits, CanAct, Perform;
    if acts != [] {
      var n := |acts| - 1;
      PerformedRun(s, acts[..n]);
      MemoryAfter(PerformAll(s, acts[..n]).value, acts[n]);
      var earlier := StepsOf(acts[..n]);
      if acts[n].Track? {
        assert StepsOf(acts)[..|earlier|] == earlier;
        assert ActFits(acts[n]);
      } else {
        assert StepsOf(acts) == earlier;
      }
    }
  }

  /** How many words the cuts lost, or gained, along the acts. */
  ghost function WordsLost(s: System, acts: seq<Act>, k: Meter): int
    requires Books(k)
  {
    Jumps(s.w, StepsOf(acts), k)
  }

  ghost predicate NothingFalls(s: System, acts: seq<Act>, k: Meter)
    requires Books(k)
  {
    NeverFalls(s.w, StepsOf(acts), k)
  }

  ghost predicate NothingJumps(s: System, acts: seq<Act>, k: Meter)
    requires Books(k)
  {
    SmallRises(s.w, StepsOf(acts), k)
  }

  /** Every accepted private announce of the meter's peer id on its torrent was on time. */
  ghost predicate AllOnTime(s: System, acts: seq<Act>, k: Meter)
    requires k.Time?
  {
    AlwaysOnTimeFor(s.w, StepsOf(acts), k.torrentID, k.peerID)
  }

  lemma StartedFits(s: System)
    requires Started(s)
    ensures WorldFits(s.w)
  {}

  lemma PlayedFits(s: System, acts: seq<Act>)
    requires Plays(s, acts)
    ensures WorldFits(s.w) && End(s, acts).w == Run(s.w, StepsOf(acts))
    ensures forall i :: 0 <= i < |StepsOf(acts)| ==> StepFits(StepsOf(acts)[i])
  {
    StartedFits(s);
    PerformedRun(s, acts);
    hide Started, ActFits, WorldFits;
  }

  lemma AgainstReal(s: System, acts: seq<Act>, k: Meter, entry: int)
    requires Plays(s, acts) && Books(k)
    ensures var lost := WordsLost(s, acts, k);
            && DueFor(End(s, acts), k, entry) == entry + Total(End(s, acts).w, k)
            && DueFor(End(s, acts), k, entry)
               == entry + Total(End(s, acts).w, Real(k)) - AccountOf(k).Unit() * lost
            && (NothingFalls(s, acts, k) ==> lost >= 0 && (lost == 0 <==> NothingJumps(s, acts, k)))
            && (NothingJumps(s, acts, k) ==> lost <= 0 && (lost == 0 <==> NothingFalls(s, acts, k)))
  {
    hide Total, DueFor, WorldFits, StepFits;
    ExactlyOnce(s, acts, k, entry);
    PlayedFits(s, acts);
    StartedIsEmpty(s, k);
    StartedIsEmpty(s, Real(k));
    RunRises(s.w, StepsOf(acts), k);
    hide Started, AllKept, AccountOf, Real, End;
  }

  lemma StartedExact(s: System, a: Account)
    requires Started(s)
    ensures AllExact(s.w, a)
  {}

  /** From a fresh start on the books of every peer ever seen are exact at every point if and only if every accepted
      private announce was in step with the peer it found. */
  lemma EveryPeerExact(s: System, acts: seq<Act>, a: Account)
    requires Plays(s, acts)
    ensures AlwaysExact(s.w, StepsOf(acts), a) <==> AlwaysSteady(s.w, StepsOf(acts), a)
  {
    StartedExact(s, a);
    PlayedFits(s, acts);
    RunExact(s.w, StepsOf(acts), a);
    hide Started, AllExact, WorldFits, StepFits, End;
  }

  /**
   * A user's downloads and uploads against its peers' counters: the column, with what is batched and queued, is the
   * first value plus how far the counters of all its peers have come, less 2^32 for every jump. So if no counter ever
   * falls it is exact if and only if no announce rises by 2^32, and if none does, if and only if no counter falls.
   */
  lemma CreditIsExact(s: System, acts: seq<Act>, k: Meter, entry: int)
    requires Plays(s, acts) && (k.Down? || k.Up?)
    ensures var due := DueFor(End(s, acts), k, entry);
            var earned := entry + Total(End(s, acts).w, Real(k));
            && due == earned - 0x1_0000_0000 * WordsLost(s, acts, k)
            && (NothingFalls(s, acts, k) ==> (due == earned <==> NothingJumps(s, acts, k)))
            && (NothingJumps(s, acts, k) ==> (due == earned <==> NothingFalls(s, acts, k)))
  {
    hide End, Plays, Total, DueFor, WordsLost, NothingFalls, NothingJumps;
    AgainstReal(s, acts, k, entry);
  }

  /**
   * The seconds of a peer id of a torrent: the column, with what is batched and queued, is the first value plus the
   * lifetimes of all peers that had the id, less 2^64 for every jump; so always modulo 2^64, and exactly if and only if
   * each of its accepted private announces was on time.
   */
  lemma TimeExactlyOnce(s: System, acts: seq<Act>, k: Meter, entry: int)
    requires Plays(s, acts) && k.Time?
    ensures var due := DueFor(End(s, acts), k, entry);
            var lived := entry + Total(End(s, acts).w, Real(k));
            && due == entry + Total(End(s, acts).w, k)
            && due == lived - 0x1_0000_0000_0000_0000 * WordsLost(s, acts, k)
            && Same64(due, lived)
            && (due == lived <==> AllOnTime(s, acts, k))
  {
    hide End, Plays, Total, DueFor, Same64, WordsLost, AllOnTime, NothingFalls, NothingJumps;
    AgainstReal(s, acts, k, entry);
    OnTimeLosesNothing(s, acts, k);
    WholeWords(entry + Total(End(s, acts).w, Real(k)), WordsLost(s, acts, k));
  }

  lemma OnTimeLosesNothing(s: System, acts: seq<Act>, k: Meter)
    requires Plays(s, acts) && k.Time?
    ensures WordsLost(s, acts, k) == 0 <==> AllOnTime(s, acts, k)
  {
    hide WorldFits, StepFits;
    PlayedFits(s, acts);
    TimeJumps(s.w, StepsOf(acts), k);
    hide Plays, End;
  }

  lemma WholeWords(x: int, n: int)
    ensures Same64(x - 0x1_0000_0000_0000_0000 * n, x)
    ensures x - 0x1_0000_0000_0000_0000 * n == x <==> n == 0
  {}
}
