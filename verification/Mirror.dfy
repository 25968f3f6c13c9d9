/** The torrents table mirrors memory: applying what is batched and queued gives each torrent's current figures. */
module Mirror {
  import opened Words
  import opened Options
  import opened Ledger
  import opened Tracker
  import opened Conservation
  import opened Commute
  import opened Liveness
  import opened WriteBehind
  import opened System

  type TorrentTable = map<nat, TorrentRow>

  /** ON DUPLICATE KEY UPDATE with overwriting columns, row by row. */
  function Apply(table: TorrentTable, rows: seq<TorrentRow>): TorrentTable {
    if rows == [] then table
    else
      var row := rows[|rows| - 1];
      Apply(table, rows[..|rows| - 1])[row.id := row]
  }

  lemma {:induction false} ApplyConcat(table: TorrentTable, a: seq<TorrentRow>, b: seq<TorrentRow>)
    ensures Apply(table, a + b) == Apply(Apply(table, a), b)
  {
    if b == [] {
      assert a + b == a;
    } else {
      ApplyConcat(table, a, b[..|b| - 1]);
      assert (a + b)[..|a + b| - 1] == a + b[..|b| - 1];
    }
  }

  lemma ApplyOne(table: TorrentTable, a: seq<TorrentRow>, row: TorrentRow)
    ensures Apply(table, a + [row]) == Apply(table, a)[row.id := row]
  {
    assert (a + [row])[..|a|] == a;
  }

  /** Torrents have different ids, as the table's primary key demands. */
  predicate UniqueIds(w: World) {
    forall x, y :: x in w.torrents && y in w.torrents && x != y ==> w.torrents[x].id != w.torrents[y].id
  }

  predicate Shows(table: TorrentTable, t: TorrentV) { t.id in table && table[t.id] == TorrentRowOf(t) }

  /** Every torrent loaded at start or announced since it was added is in the table as it is in memory. */
  ghost predicate Shown(w: World, table: TorrentTable) {
    forall ih :: ih in w.synced ==> ih in w.torrents && Shows(table, w.torrents[ih])
  }

  ghost predicate Mirrors(w: World, initial: TorrentTable) {
    !w.mode.Public? && UniqueIds(w) && Shown(w, Apply(initial, w.torrentLog))
  }

  predicate FreshId(w: World, s: Step) {
    s.DoAddTorrent? ==> s.infoHash in w.torrents || forall ih :: ih in w.torrents ==> w.torrents[ih].id != s.id
  }

  /** Storing a torrent under its old id and recording it keeps the mirror. */
  lemma RecordMirrors(w: World, w': World, initial: TorrentTable, ih: string, t: TorrentV)
    requires Mirrors(w, initial) && ih in w.torrents && t.id == w.torrents[ih].id && w'.mode == w.mode
    requires w'.torrents == w.torrents[ih := t] && w'.torrentLog == w.torrentLog + [TorrentRowOf(t)]
    requires w.synced <= w'.synced <= w.synced + {ih}
    ensures Mirrors(w', initial)
  {
    ApplyOne(initial, w.torrentLog, TorrentRowOf(t));
    hide Apply;
  }

  lemma BookMirrors(w: World, r: Announcement, v: Visit, initial: TorrentTable)
    requires Mirrors(w, initial) && r.infoHash in w.torrents
    ensures Mirrors(Book(w, r, v), initial)
  {
    var t := TorrentAfter(w.torrents[r.infoHash], r, v);
    BookTorrentLog(w, r, v);
    hide Book, Mirrors;
    RecordMirrors(w, Book(w, r, v), initial, r.infoHash, t);
  }

  /** On a tracker with a database every accepted announce records its torrent as it then is. */
  lemma BookTorrentLog(w: World, r: Announcement, v: Visit)
    requires r.infoHash in w.torrents && !w.mode.Public?
    ensures var t := TorrentAfter(w.torrents[r.infoHash], r, v);
            var w' := Book(w, r, v);
            && t.id == w.torrents[r.infoHash].id && w'.mode == w.mode
            && w'.torrents == w.torrents[r.infoHash := t] && w'.torrentLog == w.torrentLog + [TorrentRowOf(t)]
            && w'.synced == w.synced + {r.infoHash}
  {
    BookTorrents(w, r, v);
    hide PeerRowOf, TorrentRowOf, UpdateGauges, Added, Credited, UserRows;
  }

  lemma {:induction false} NoChange(t: TorrentV, keys: seq<Key>, mode: Mode, now: int, timeout: int)
    ensures var s := SweepPeers(t, keys, mode, now, timeout);
            s.torrent.id == t.id && (s.changed == 0 ==> s.torrent == t)
  {
    if keys != [] {
      NoChange(t, keys[..|keys| - 1], mode, now, timeout);
      hide PeerRowOf, ColumnOf;
    }
  }

  lemma {:induction false} SweepMirrors(w: World, plan: seq<Turn>, now: int, initial: TorrentTable)
    requires Mirrors(w, initial)
    ensures Mirrors(Sweep(w, plan, now), initial)
  {
    if plan != [] {
      var turn := plan[|plan| - 1];
      var w1 := Sweep(w, plan[..|plan| - 1], now);
      SweepMirrors(w, plan[..|plan| - 1], now, initial);
      if turn.infoHash in w1.torrents {
        var s := SweepPeers(w1.torrents[turn.infoHash], turn.keys, w1.mode, now, w1.timeout);
        NoChange(w1.torrents[turn.infoHash], turn.keys, w1.mode, now, w1.timeout);
        CloseMirrors(w1, turn.infoHash, s, initial);
        hide SweepPeers, Mirrors, Close;
      }
    }
  }

  lemma CloseMirrors(w: World, ih: string, s: Swept, initial: TorrentTable)
    requires Mirrors(w, initial) && ih in w.torrents
    requires s.torrent.id == w.torrents[ih].id && (s.changed == 0 ==> s.torrent == w.torrents[ih])
    ensures Mirrors(Close(w, ih, s), initial)
  {
    hide TorrentRowOf;
    if s.changed > 0 {
      RecordMirrors(w, Close(w, ih, s), initial, ih, s.torrent);
      hide Mirrors;
    } else {
      assert w.torrents[ih := s.torrent] == w.torrents;
      hide Apply;
    }
  }

  lemma FreeMirrors(w: World, ih: string, free: nat, initial: TorrentTable)
    requires Mirrors(w, initial) && ih in w.torrents
    ensures Mirrors(w.(torrents := w.torrents[ih := w.torrents[ih].(free := free)]), initial)
  {
    var t := w.torrents[ih].(free := free);
    assert TorrentRowOf(t) == TorrentRowOf(w.torrents[ih]);
    hide Apply, TorrentRowOf;
  }

  lemma TakeMirrors(w: World, s: Step, initial: TorrentTable)
    requires Mirrors(w, initial) && FreshId(w, s)
    ensures Mirrors(Take(w, s), initial)
  {
    match s
    case DoAnnounce(r) =>
      hide Mirrors, Book, VisitOf, Whitelisted;
      if Refusal(w, r).None? {
        assert !w.mode.Public? by { PrivateMirrors(w, initial); }
        BookMirrors(w, r, VisitOf(w, w.torrents[r.infoHash], r), initial);
      }
    case DoSweep(plan, now) => SweepMirrors(w, plan, now, initial); hide Mirrors;
    case DoAddTorrent(ih, id, free) =>
      if ih in w.torrents { FreeMirrors(w, ih, free, initial); } else { hide Apply, TorrentRowOf; }
    case DoSetFree(ih, free) => if ih in w.torrents { FreeMirrors(w, ih, free, initial); }
    case DoDeleteTorrent(ih) => hide Apply, TorrentRowOf;
    case DoEdit(e) => EditIsLocal(w, e); hide Apply, TorrentRowOf, Edited;
  }

  lemma PrivateMirrors(w: World, initial: TorrentTable)
    requires Mirrors(w, initial)
    ensures !w.mode.Public?
  {}

  /** Along the acts no torrent is added under an id in use, and no statement on torrents fails. */
  predicate CleanActs(s: System, acts: seq<Act>) {
    acts == [] ||
    var o := PerformAll(s, acts[..|acts| - 1]);
    var a := acts[|acts| - 1];
    CleanActs(s, acts[..|acts| - 1]) && o.Some? && (a.Track? ==> FreshId(o.value.w, a.step))
    && !(a.Fail? && a.table.Torrents?)
  }

  lemma PerformMirrors(s: System, a: Act, initial: TorrentTable)
    requires CanAct(s, a) && Mirrors(s.w, initial) && InOrder(s.torrents, s.w.torrentLog)
    requires a.Track? ==> FreshId(s.w, a.step)
    requires !(a.Fail? && a.table.Torrents?)
    ensures Mirrors(Perform(s, a).w, initial) && InOrder(Perform(s, a).torrents, Perform(s, a).w.torrentLog)
  {
    hide Take, Mirrors, InOrder, FreshId;
    if a.Track? {
      var w := Take(s.w, a.step);
      TakeMirrors(s.w, a.step, initial);
      TakeLogs(s.w, a.step);
      GrownIs(s.w.torrentLog, w.torrentLog);
      MoveInOrder(s.torrents, Record(Grown(s.w.torrentLog, w.torrentLog)), s.w.torrentLog);
    } else if a.table.Torrents? {
      MoveInOrder(s.torrents, MoveOf(a), s.w.torrentLog);
    }
  }

  lemma {:induction false} ActsMirror(s: System, acts: seq<Act>, initial: TorrentTable)
    requires Mirrors(s.w, initial) && InOrder(s.torrents, s.w.torrentLog)
    requires CleanActs(s, acts) && PerformAll(s, acts).Some?
    ensures var s' := PerformAll(s, acts).value;
            Mirrors(s'.w, initial) && InOrder(s'.torrents, s'.w.torrentLog)
  {
    if acts != [] {
      ActsMirror(s, acts[..|acts| - 1], initial);
      hide Mirrors, InOrder, FreshId, Take;
      PerformMirrors(PerformAll(s, acts[..|acts| - 1]).value, acts[|acts| - 1], initial);
    }
  }

  /**
   * The database refines memory: at any point of any interleaving without failing torrent statements, applying the
   * batched statements and then the queued rows to the torrents table as it stands gives every torrent that was
   * loaded at the start or announced since it was added exactly its current seeders, leechers, snatches and balance.
   */
  lemma TableMirrorsMemory(s: System, acts: seq<Act>, initial: TorrentTable, ih: string)
    requires Mirrors(s.w, initial) && InOrder(s.torrents, s.w.torrentLog)
    requires CleanActs(s, acts) && PerformAll(s, acts).Some?
    ensures var s' := PerformAll(s, acts).value;
            var table := Apply(initial, s'.torrents.applied);
            var t := if ih in s'.w.torrents then s'.w.torrents[ih] else NewTorrent(0, 0);
            ih in s'.w.synced ==>
              ih in s'.w.torrents
              && t.id in Apply(Apply(table, Flat(s'.torrents.records)), s'.torrents.requests)
              && Apply(Apply(table, Flat(s'.torrents.records)), s'.torrents.requests)[t.id]
                 == TorrentRow(t.id, |t.seeders| + |t.seeders6|, |t.leechers| + |t.leechers6|, t.snatches, t.balance)
  {
    ActsMirror(s, acts, initial);
    var s' := PerformAll(s, acts).value;
    hide PerformAll, Apply, Flat;
    ApplyConcat(initial, s'.torrents.applied, Flat(s'.torrents.records));
    ApplyConcat(initial, s'.torrents.applied + Flat(s'.torrents.records), s'.torrents.requests);
  }

  // ---------------------------------------------------------------- when statements fail

  /** The last row of a torrent among the rows. */
  function Last(rows: seq<TorrentRow>, id: nat): Option<TorrentRow> {
    if rows == [] then None
    else
      var row := rows[|rows| - 1];
      if row.id == id then Some(row) else Last(rows[..|rows| - 1], id)
  }

  function Entry(table: TorrentTable, id: nat): Option<TorrentRow> {
    if id in table then Some(table[id]) else None
  }

  function Either<T>(o: Option<T>, otherwise: Option<T>): Option<T> { if o.Some? then o else otherwise }

  /** The table shows the last row applied. */
  lemma {:induction false} LastDecides(table: TorrentTable, rows: seq<TorrentRow>, id: nat)
    ensures Entry(Apply(table, rows), id) == Either(Last(rows, id), Entry(table, id))
  {
    if rows != [] { LastDecides(table, rows[..|rows| - 1], id); }
  }

  lemma {:induction false} LastOfBoth(a: seq<TorrentRow>, b: seq<TorrentRow>, id: nat)
    ensures Last(a + b, id) == Either(Last(b, id), Last(a, id))
  {
    if b == [] {
      assert a + b == a;
    } else {
      LastOfBoth(a, b[..|b| - 1], id);
      assert (a + b)[..|a + b| - 1] == a + b[..|b| - 1];
    }
  }

  /** What the rows of the failed and of the other statements say about the last row of a torrent. */
  ghost predicate Parted(failed: seq<TorrentRow>, done: seq<TorrentRow>, all: seq<TorrentRow>, id: nat) {
    if Last(failed, id).None? then Last(done, id) == Last(all, id) else Last(all, id).Some?
  }

  lemma PartsMore(failed: seq<TorrentRow>, done: seq<TorrentRow>, all: seq<TorrentRow>, rows: seq<TorrentRow>, id: nat)
    requires Parted(failed, done, all, id)
    ensures Parted(failed + rows, done, all + rows, id) && Parted(failed, done + rows, all + rows, id)
  {
    LastOfBoth(failed, rows, id);
    LastOfBoth(done, rows, id);
    LastOfBoth(all, rows, id);
  }

  /** Where the failed statements do not name a torrent, the others have its last row. */
  lemma {:induction false} LastOfParts(records: seq<seq<TorrentRow>>, fails: seq<bool>, id: nat)
    requires |fails| == |records|
    ensures Parted(Flat(Failed(records, fails)), Flat(Succeeded(records, fails)), Flat(records), id)
  {
    hide Parted;
    if records == [] {
      NothingParted(id);
    } else {
      var n := |records| - 1;
      var done, failed := Succeeded(records[..n], fails[..n]), Failed(records[..n], fails[..n]);
      LastOfParts(records[..n], fails[..n], id);
      PartsMore(Flat(failed), Flat(done), Flat(records[..n]), records[n], id);
      if fails[n] {
        FlatMore(failed, records[n]);
        assert done + [] == done;
      } else {
        FlatMore(done, records[n]);
        assert failed + [] == failed;
      }
    }
  }

  lemma NothingParted(id: nat)
    ensures Parted([], [], [], id)
  {}

  lemma FlatMore(a: seq<seq<TorrentRow>>, b: seq<TorrentRow>)
    ensures Flat(a + [b]) == Flat(a) + b
  {
    assert (a + [b])[..|a|] == a;
  }

  /**
   * Which torrents a failure makes wrong for good: after a pass with any failures and a retry without, a torrent's
   * entry is the one the rows would have given in order if and only if the failed statements do not name the torrent,
   * or the last row they have for it is also its last row of all.
   */
  lemma StaleAfterRetry(q: Queue<TorrentRow>, fails: seq<bool>, initial: TorrentTable, id: nat)
    requires q.requests == [] && Enabled(q, WriteBehind.Acquire)
    requires |fails| == |q.records| && Failed(q.records, fails) != []
    ensures var failed := Failed(q.records, fails);
            var o := RunMoves(q, RetryMoves<TorrentRow>(fails, |failed|));
            && o.Some? && o.value.records == [] && o.value.requests == []
            && (Entry(Apply(initial, o.value.applied), id) == Entry(Apply(initial, Contents(q)), id)
                <==> Last(Flat(failed), id).None? || Last(Flat(failed), id) == Last(Flat(q.records), id))
  {
    hide RetryMoves, Contents, Parted, Enabled;
    RetryRuns(q, fails);
    LastOfParts(q.records, fails, id);
    ContentsAre(q);
    OutOfOrder(initial, q.applied, Flat(Succeeded(q.records, fails)), Flat(Failed(q.records, fails)), Flat(q.records),
               id);
  }

  /** Rows applied out of order against rows applied in order. */
  lemma OutOfOrder(initial: TorrentTable, applied: seq<TorrentRow>, done: seq<TorrentRow>, failed: seq<TorrentRow>,
                   all: seq<TorrentRow>, id: nat)
    requires Parted(failed, done, all, id)
    ensures Entry(Apply(initial, applied + done + failed), id) == Entry(Apply(initial, applied + all), id)
            <==> Last(failed, id).None? || Last(failed, id) == Last(all, id)
  {
    LastDecides(initial, applied + done + failed, id);
    LastOfBoth(applied + done, failed, id);
    LastOfBoth(applied, done, id);
    LastDecides(initial, applied + all, id);
    LastOfBoth(applied, all, id);
    hide Entry;
  }

  lemma ContentsAre(q: Queue<TorrentRow>)
    requires q.requests == []
    ensures Contents(q) == q.applied + Flat(q.records)
  {}

  /** Why no statement may fail: of two rows of one torrent, the older one can reach the table last. */
  lemma FailureLeavesStaleRow(table: TorrentTable, a: TorrentRow, b: TorrentRow)
    requires a != b && a.id == b.id
    ensures var q := Queue([], [[a], [b]], [], 0, Some(0));
            var o := RunMoves(q, [WriteBehind.Fail, WriteBehind.Succeed, WriteBehind.Release, WriteBehind.Flush,
                                  WriteBehind.Acquire, WriteBehind.Succeed, WriteBehind.Release]);
            && Contents(q) == [a, b] && o == Some(Queue([], [], [b, a], 0, None))
            && a.id in Apply(table, [b, a]) && Apply(table, [b, a])[a.id] == a
            && a.id in Apply(table, [a, b]) && Apply(table, [a, b])[a.id] == b
  {
    FailureReorders(a, b);
    ApplyOne(table, [a], b);
    ApplyOne(table, [b], a);
    assert [a] + [b] == [a, b] && [b] + [a] == [b, a];
    hide RunMoves, Contents;
  }
}
