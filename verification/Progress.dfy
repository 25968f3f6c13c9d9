/** What the queues get done: from every state that can be reached, workers that do not fail bring every recorded row
    into the database. One worker at a time holds the lock, and passes over one table's statements. */
module Progress {
  import opened Options
  import opened Ledger
  import opened Tracker
  import opened Sums
  import opened Meters
  import opened Shape
  import opened Conservation
  import opened System
  import Exactness
  import Mirror
  import WriteBehind

  // ---------------------------------------------------------------- one table's moves are acts

  function ActOf<R>(table: Table, m: WriteBehind.Move<R>): Act
    requires !m.Record?
  {
    match m
    case Flush => Act.Flush(table)
    case Acquire => Act.Acquire(table)
    case Succeed => Act.Succeed(table)
    case Fail => Act.Fail(table)
    case Release => Act.Release(table)
  }

  /** A worker's moves on one table as acts. */
  function ActsOf<R>(table: Table, ms: seq<WriteBehind.Move<R>>): seq<Act>
    requires forall i :: 0 <= i < |ms| ==> !ms[i].Record?
  {
    seq(|ms|, i requires 0 <= i < |ms| => ActOf(table, ms[i]))
  }

  function WorkOf(table: Table, fails: seq<bool>): seq<Act> {
    ActsOf(table, WriteBehind.PassMoves<UserRow>(fails))
  }

  lemma WorkIs<R>(table: Table, fails: seq<bool>)
    ensures var ms := WriteBehind.PassMoves<R>(fails);
            (forall i :: 0 <= i < |ms| ==> !ms[i].Record?) && ActsOf(table, ms) == WorkOf(table, fails)
  {
    var ms := WriteBehind.PassMoves<R>(fails);
    var us := WriteBehind.PassMoves<UserRow>(fails);
    forall i | 0 <= i < |ms| ensures !ms[i].Record? && ActOf(table, ms[i]) == ActOf(table, us[i]) {}
  }

  lemma UserAct(s: System, m: WriteBehind.Move<UserRow>)
    requires !m.Record? && s.torrents.pass.None? && s.peers.pass.None? && WriteBehind.Enabled(s.users, m)
    ensures CanAct(s, ActOf(Users, m))
    ensures Perform(s, ActOf(Users, m)) == s.(users := WriteBehind.Do(s.users, m))
  {
    assert MoveOf<UserRow>(ActOf(Users, m)) == m;
    hide WriteBehind.Do;
  }

  lemma {:induction false} UserMoves(s: System, ms: seq<WriteBehind.Move<UserRow>>)
    requires forall i :: 0 <= i < |ms| ==> !ms[i].Record?
    requires s.torrents.pass.None? && s.peers.pass.None? && WriteBehind.RunMoves(s.users, ms).Some?
    ensures PerformAll(s, ActsOf(Users, ms)) == Some(s.(users := WriteBehind.RunMoves(s.users, ms).value))
  {
    hide WriteBehind.Do, WriteBehind.Enabled, CanAct, Perform, ActOf;
    if ms != [] {
      var n := |ms| - 1;
      var s1 := s.(users := WriteBehind.RunMoves(s.users, ms[..n]).value);
      UserMoves(s, ms[..n]);
      UserAct(s1, ms[n]);
      PerformOne(s, ActsOf(Users, ms[..n]), s1, ActOf(Users, ms[n]));
      assert ActsOf(Users, ms) == ActsOf(Users, ms[..n]) + [ActOf(Users, ms[n])];
    }
  }

  lemma TorrentAct(s: System, m: WriteBehind.Move<TorrentRow>)
    requires !m.Record? && s.users.pass.None? && s.peers.pass.None? && WriteBehind.Enabled(s.torrents, m)
    ensures CanAct(s, ActOf(Torrents, m))
    ensures Perform(s, ActOf(Torrents, m)) == s.(torrents := WriteBehind.Do(s.torrents, m))
  {
    assert MoveOf<TorrentRow>(ActOf(Torrents, m)) == m;
    hide WriteBehind.Do;
  }

  lemma {:induction false} TorrentMoves(s: System, ms: seq<WriteBehind.Move<TorrentRow>>)
    requires forall i :: 0 <= i < |ms| ==> !ms[i].Record?
    requires s.users.pass.None? && s.peers.pass.None? && WriteBehind.RunMoves(s.torrents, ms).Some?
    ensures PerformAll(s, ActsOf(Torrents, ms)) == Some(s.(torrents := WriteBehind.RunMoves(s.torrents, ms).value))
  {
    hide WriteBehind.Do, WriteBehind.Enabled, CanAct, Perform, ActOf;
    if ms != [] {
      var n := |ms| - 1;
      var s1 := s.(torrents := WriteBehind.RunMoves(s.torrents, ms[..n]).value);
      TorrentMoves(s, ms[..n]);
      TorrentAct(s1, ms[n]);
      PerformOne(s, ActsOf(Torrents, ms[..n]), s1, ActOf(Torrents, ms[n]));
      assert ActsOf(Torrents, ms) == ActsOf(Torrents, ms[..n]) + [ActOf(Torrents, ms[n])];
    }
  }

  lemma PeerAct(s: System, m: WriteBehind.Move<PeerRow>)
    requires !m.Record? && s.users.pass.None? && s.torrents.pass.None? && WriteBehind.Enabled(s.peers, m)
    ensures CanAct(s, ActOf(Peers, m))
    ensures Perform(s, ActOf(Peers, m)) == s.(peers := WriteBehind.Do(s.peers, m))
  {
    assert MoveOf<PeerRow>(ActOf(Peers, m)) == m;
    hide WriteBehind.Do;
  }

  lemma {:induction false} PeerMoves(s: System, ms: seq<WriteBehind.Move<PeerRow>>)
    requires forall i :: 0 <= i < |ms| ==> !ms[i].Record?
    requires s.users.pass.None? && s.torrents.pass.None? && WriteBehind.RunMoves(s.peers, ms).Some?
    ensures PerformAll(s, ActsOf(Peers, ms)) == Some(s.(peers := WriteBehind.RunMoves(s.peers, ms).value))
  {
    hide WriteBehind.Do, WriteBehind.Enabled, CanAct, Perform, ActOf;
    if ms != [] {
      var n := |ms| - 1;
      var s1 := s.(peers := WriteBehind.RunMoves(s.peers, ms[..n]).value);
      PeerMoves(s, ms[..n]);
      PeerAct(s1, ms[n]);
      PerformOne(s, ActsOf(Peers, ms[..n]), s1, ActOf(Peers, ms[n]));
      assert ActsOf(Peers, ms) == ActsOf(Peers, ms[..n]) + [ActOf(Peers, ms[n])];
    }
  }

  /** A pass over the queue of users, seen from the system. */
  lemma UserPass(s: System, fails: seq<bool>)
    requires LockFree(s) && s.users.workers > 0 && |fails| == |s.users.records|
    ensures var o := WriteBehind.RunMoves(s.users, WriteBehind.PassMoves(fails));
            o.Some? && o.value.pass.None? && PerformAll(s, WorkOf(Users, fails)) == Some(s.(users := o.value))
  {
    WriteBehind.WholePass(s.users, fails);
    WorkIs<UserRow>(Users, fails);
    UserMoves(s, WriteBehind.PassMoves(fails));
    hide WriteBehind.PassMoves, WorkOf, ActsOf;
  }

  lemma TorrentPass(s: System, fails: seq<bool>)
    requires LockFree(s) && s.torrents.workers > 0 && |fails| == |s.torrents.records|
    ensures var o := WriteBehind.RunMoves(s.torrents, WriteBehind.PassMoves(fails));
            o.Some? && o.value.pass.None? && PerformAll(s, WorkOf(Torrents, fails)) == Some(s.(torrents := o.value))
  {
    WriteBehind.WholePass(s.torrents, fails);
    WorkIs<TorrentRow>(Torrents, fails);
    TorrentMoves(s, WriteBehind.PassMoves(fails));
    hide WriteBehind.PassMoves, WorkOf, ActsOf;
  }

  lemma PeerPass(s: System, fails: seq<bool>)
    requires LockFree(s) && s.peers.workers > 0 && |fails| == |s.peers.records|
    ensures var o := WriteBehind.RunMoves(s.peers, WriteBehind.PassMoves(fails));
            o.Some? && o.value.pass.None? && PerformAll(s, WorkOf(Peers, fails)) == Some(s.(peers := o.value))
  {
    WriteBehind.WholePass(s.peers, fails);
    WorkIs<PeerRow>(Peers, fails);
    PeerMoves(s, WriteBehind.PassMoves(fails));
    hide WriteBehind.PassMoves, WorkOf, ActsOf;
  }

  // ---------------------------------------------------------------- one lock

  /** At most one table has a worker at its statements, and the worker's position is one of the list. */
  ghost predicate OneHolder(s: System) {
    && (s.users.pass.None? || s.torrents.pass.None?) && (s.users.pass.None? || s.peers.pass.None?)
    && (s.torrents.pass.None? || s.peers.pass.None?)
    && (s.users.pass.Some? ==> s.users.pass.value <= |s.users.records|)
    && (s.torrents.pass.Some? ==> s.torrents.pass.value <= |s.torrents.records|)
    && (s.peers.pass.Some? ==> s.peers.pass.value <= |s.peers.records|)
  }

  lemma PositionIn<R>(q: WriteBehind.Queue<R>, m: WriteBehind.Move<R>)
    requires WriteBehind.Enabled(q, m) && (q.pass.Some? ==> q.pass.value <= |q.records|)
    ensures var q' := WriteBehind.Do(q, m);
            && (q'.pass.Some? ==> q'.pass.value <= |q'.records|)
            && (q'.pass.Some? ==> q.pass.Some? || m.Acquire?)
  {}

  lemma PerformOneHolder(s: System, a: Act)
    requires CanAct(s, a) && OneHolder(s)
    ensures OneHolder(Perform(s, a))
    ensures a.Acquire? ==> s.users.pass.None? && s.torrents.pass.None? && s.peers.pass.None?
  {
    hide Take, WriteBehind.Do;
    if a.Track? {
      var w := Take(s.w, a.step);
      PositionIn(s.users, WriteBehind.Record(WriteBehind.Grown(s.w.userLog, w.userLog)));
      PositionIn(s.torrents, WriteBehind.Record(WriteBehind.Grown(s.w.torrentLog, w.torrentLog)));
      PositionIn(s.peers, WriteBehind.Record(WriteBehind.Grown(s.w.peerLog, w.peerLog)));
    } else {
      match a.table
      case Users => PositionIn(s.users, MoveOf(a));
      case Torrents => PositionIn(s.torrents, MoveOf(a));
      case Peers => PositionIn(s.peers, MoveOf(a));
    }
  }

  /** In every state that can be reached at most one worker holds the lock, whatever the interleaving. */
  lemma {:induction false} OneLockHolder(s: System, acts: seq<Act>)
    requires OneHolder(s) && PerformAll(s, acts).Some?
    ensures OneHolder(PerformAll(s, acts).value)
  {
    if acts != [] {
      OneLockHolder(s, acts[..|acts| - 1]);
      PerformOneHolder(PerformAll(s, acts[..|acts| - 1]).value, acts[|acts| - 1]);
      hide Perform, CanAct, OneHolder;
    }
  }

  // ---------------------------------------------------------------- everything reaches the database

  /** Flushes and workers only, and no statement fails. */
  ghost predicate CleanWork(acts: seq<Act>) { forall i :: 0 <= i < |acts| ==> !acts[i].Track? && !acts[i].Fail? }

  ghost predicate NothingLeft(s: System) {
    && s.users.requests == [] && s.users.records == [] && s.torrents.requests == [] && s.torrents.records == []
    && s.peers.requests == [] && s.peers.records == []
  }

  lemma CleanMoves<R>(table: Table, ms: seq<WriteBehind.Move<R>>)
    requires forall i :: 0 <= i < |ms| ==> !ms[i].Record? && !ms[i].Fail?
    ensures CleanWork(ActsOf(table, ms))
  {}

  lemma FinishIsClean<R>(n: nat)
    ensures var ms := WriteBehind.Moves<R>(WriteBehind.Never(n)) + [WriteBehind.Release];
            forall i :: 0 <= i < |ms| ==> !ms[i].Record? && !ms[i].Fail?
  {}

  /** Whoever holds the lock gives it back. */
  lemma LockComesFree(s: System) returns (acts: seq<Act>)
    requires OneHolder(s)
    ensures CleanWork(acts) && PerformAll(s, acts).Some? && LockFree(PerformAll(s, acts).value)
  {
    hide WriteBehind.RunMoves, WriteBehind.Moves, PerformAll, CleanWork, ActsOf;
    if s.users.pass.Some? {
      var n := |s.users.records| - s.users.pass.value;
      var ms := WriteBehind.Moves<UserRow>(WriteBehind.Never(n)) + [WriteBehind.Release];
      WriteBehind.Finishes(s.users, n);
      FinishIsClean<UserRow>(n);
      CleanMoves(Users, ms);
      UserMoves(s, ms);
      acts := ActsOf(Users, ms);
    } else if s.torrents.pass.Some? {
      var n := |s.torrents.records| - s.torrents.pass.value;
      var ms := WriteBehind.Moves<TorrentRow>(WriteBehind.Never(n)) + [WriteBehind.Release];
      WriteBehind.Finishes(s.torrents, n);
      FinishIsClean<TorrentRow>(n);
      CleanMoves(Torrents, ms);
      TorrentMoves(s, ms);
      acts := ActsOf(Torrents, ms);
    } else if s.peers.pass.Some? {
      var n := |s.peers.records| - s.peers.pass.value;
      var ms := WriteBehind.Moves<PeerRow>(WriteBehind.Never(n)) + [WriteBehind.Release];
      WriteBehind.Finishes(s.peers, n);
      FinishIsClean<PeerRow>(n);
      CleanMoves(Peers, ms);
      PeerMoves(s, ms);
      acts := ActsOf(Peers, ms);
    } else {
      acts := [];
      Nothing(s);
    }
  }

  lemma Nothing(s: System)
    ensures PerformAll(s, []) == Some(s) && CleanWork([])
  {}

  /** One table after the other: flush, and the pass of the worker this starts. */
  function Drain(s: System): seq<Act> {
    ActsOf(Users, WriteBehind.DrainMoves(s.users)) + ActsOf(Torrents, WriteBehind.DrainMoves(s.torrents))
    + ActsOf(Peers, WriteBehind.DrainMoves(s.peers))
  }

  lemma DrainIsClean(s: System)
    ensures CleanWork(Drain(s))
  {
    hide WriteBehind.DrainMoves;
    CleanMoves(Users, WriteBehind.DrainMoves(s.users));
    CleanMoves(Torrents, WriteBehind.DrainMoves(s.torrents));
    CleanMoves(Peers, WriteBehind.DrainMoves(s.peers));
    hide ActsOf;
  }

  /** When nobody holds the lock these acts are possible; afterwards nothing is batched or queued. */
  lemma DrainEmpties(s: System)
    requires LockFree(s)
    ensures var o := PerformAll(s, Drain(s));
            o.Some? && NothingLeft(o.value) && LockFree(o.value) && o.value.w == s.w
  {
    hide WriteBehind.DrainMoves, WriteBehind.RunMoves, PerformAll, ActsOf, WriteBehind.Flat;
    WriteBehind.Drains(s.users, s.w.userLog);
    WriteBehind.Drains(s.torrents, s.w.torrentLog);
    WriteBehind.Drains(s.peers, s.w.peerLog);
    var us, ts, ps := WriteBehind.DrainMoves(s.users), WriteBehind.DrainMoves(s.torrents),
        WriteBehind.DrainMoves(s.peers);
    var s1 := s.(users := WriteBehind.RunMoves(s.users, us).value);
    var s2 := s1.(torrents := WriteBehind.RunMoves(s.torrents, ts).value);
    UserMoves(s, us);
    TorrentMoves(s1, ts);
    PeerMoves(s2, ps);
    PerformMore(s, ActsOf(Users, us), s1, ActsOf(Torrents, ts));
    PerformMore(s, ActsOf(Users, us) + ActsOf(Torrents, ts), s2, ActsOf(Peers, ps));
  }

  lemma KeptDone<R>(q: WriteBehind.Queue<R>, log: seq<R>)
    requires WriteBehind.Kept(q, log) && q.requests == [] && q.records == []
    ensures multiset(q.applied) == multiset(log)
  {
    assert WriteBehind.Contents(q) == q.applied;
  }

  /**
   * From every state that can be reached, by whatever interleaving and failures, flushes and workers that do not fail
   * can go on to a state in which each table has taken every row ever recorded for it, as often as it was recorded, and
   * nothing is batched or queued; the memory does not notice.
   */
  lemma DatabaseCatchesUp(s: System, acts: seq<Act>) returns (more: seq<Act>)
    requires Plays(s, acts)
    ensures CleanWork(more) && Plays(s, acts + more)
    ensures var e := End(s, acts + more);
            && NothingLeft(e) && LockFree(e) && e.w == End(s, acts).w
            && multiset(e.users.applied) == multiset(e.w.userLog)
            && multiset(e.torrents.applied) == multiset(e.w.torrentLog)
            && multiset(e.peers.applied) == multiset(e.w.peerLog)
  {
    hide PerformAll, WriteBehind.Kept, Drain, CleanWork, WorldFits, Agrees;
    var e0 := End(s, acts);
    StartedHolds(s);
    OneLockHolder(s, acts);
    var free := LockComesFree(e0);
    var e1 := PerformAll(e0, free).value;
    DrainEmpties(e1);
    DrainIsClean(e1);
    PerformMore(e0, free, e1, Drain(e1));
    more := free + Drain(e1);
    CleanBoth(free, Drain(e1));
    PerformMore(s, acts, e0, more);
    CleanFits(acts, more);
    StartedIsEmpty(s, Speed);
    ActsKeep(s, acts + more, Speed);
    var e := End(s, acts + more);
    CleanKeepsMemory(e0, free);
    KeptDone(e.users, e.w.userLog);
    KeptDone(e.torrents, e.w.torrentLog);
    KeptDone(e.peers, e.w.peerLog);
  }

  lemma StartedHolds(s: System)
    requires Started(s)
    ensures OneHolder(s)
  {}

  lemma CleanBoth(a: seq<Act>, b: seq<Act>)
    requires CleanWork(a) && CleanWork(b)
    ensures CleanWork(a + b)
  {}

  lemma CleanFits(acts: seq<Act>, more: seq<Act>)
    requires CleanWork(more) && forall i :: 0 <= i < |acts| ==> ActFits(acts[i])
    ensures forall i :: 0 <= i < |acts + more| ==> ActFits((acts + more)[i])
  {}

  lemma {:induction false} CleanKeepsMemory(s: System, acts: seq<Act>)
    requires CleanWork(acts) && PerformAll(s, acts).Some?
    ensures PerformAll(s, acts).value.w == s.w
  {
    if acts != [] {
      CleanKeepsMemory(s, acts[..|acts| - 1]);
      MemoryAfter(PerformAll(s, acts[..|acts| - 1]).value, acts[|acts| - 1]);
      hide Perform, CanAct;
    }
  }

  /** Then the columns that are added up hold all credit and all seconds themselves. */
  lemma ColumnsCaughtUp(s: System, acts: seq<Act>, k: Meter, entry: int)
    requires Plays(s, acts) && NothingLeft(End(s, acts)) && Exactness.Books(k)
    ensures var e := End(s, acts);
            (if k.Time? then AddColumn(entry, e.peers.applied, PeerWeight(k))
             else AddColumn(entry, e.users.applied, UserWeight(k)))
            == entry + Total(e.w, k)
  {
    hide Plays, End, Total;
    ExactlyOnce(s, acts, k, entry);
    WriteBehind.FlatNothing<UserRow>();
    WriteBehind.FlatNothing<PeerRow>();
  }

  /** And the torrents table shows every torrent loaded or announced as it is in memory, if no torrent statement failed
      before. */
  lemma TableCatchesUp(s: System, acts: seq<Act>, initial: Mirror.TorrentTable, ih: string) returns (more: seq<Act>)
    requires Plays(s, acts) && Mirror.Mirrors(s.w, initial) && Mirror.CleanActs(s, acts)
    ensures CleanWork(more) && Plays(s, acts + more)
    ensures NothingLeft(End(s, acts + more)) && End(s, acts + more).w == End(s, acts).w
    ensures var e := End(s, acts + more);
            var table := Mirror.Apply(initial, e.torrents.applied);
            ih in e.w.synced ==>
              ih in e.w.torrents
              && var t := e.w.torrents[ih];
                 t.id in table
                 && table[t.id] == TorrentRow(t.id, |t.seeders| + |t.seeders6|, |t.leechers| + |t.leechers6|,
                                              t.snatches,
                                              t.balance)
  {
    more := DatabaseCatchesUp(s, acts);
    StaysClean(s, acts, more);
    StartedInOrder(s);
    Mirror.TableMirrorsMemory(s, acts + more, initial, ih);
    NothingToApply(Mirror.Apply(initial, End(s, acts + more).torrents.applied));
    hide PerformAll, WorldFits, Mirror.Mirrors, Mirror.Apply, CleanWork, Started;
  }

  lemma NothingToApply(table: Mirror.TorrentTable)
    ensures Mirror.Apply(Mirror.Apply(table, WriteBehind.Flat([])), []) == table
  {
    WriteBehind.FlatNothing<TorrentRow>();
  }

  lemma StartedInOrder(s: System)
    requires Started(s)
    ensures WriteBehind.InOrder(s.torrents, s.w.torrentLog)
  {
    WriteBehind.FlatNothing<TorrentRow>();
  }

  lemma {:induction false} StaysClean(s: System, acts: seq<Act>, more: seq<Act>)
    requires Mirror.CleanActs(s, acts) && CleanWork(more) && PerformAll(s, acts + more).Some?
    ensures Mirror.CleanActs(s, acts + more)
  {
    hide Perform, CanAct, Mirror.FreshId;
    if more == [] {
      assert acts + more == acts;
    } else {
      var n := |more| - 1;
      assert (acts + more)[..|acts + more| - 1] == acts + more[..n];
      StaysClean(s, acts, more[..n]);
    }
  }
}
