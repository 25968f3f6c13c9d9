/**
 * The write-behind queue of one SQL table. The main loop records rows and batches them into statements; detached
 * workers, one lock holder at a time, run the statements in list order, keep those that fail and drop the others.
 */
module WriteBehind {
  import opened Options
  import opened Sums

  /** `applied` lists the rows the database took, in order; `workers` counts workers waiting for the lock, and `pass`
      is the lock holder's position in `records`. */
  datatype Queue<R> = Queue(
    requests: seq<R>, records: seq<seq<R>>, applied: seq<R>, workers: nat, pass: Option<nat>)

  datatype Move<R> = Record(rows: seq<R>) | Flush | Acquire | Succeed | Fail | Release

  function Flat<R>(records: seq<seq<R>>): seq<R> {
    if records == [] then [] else Flat(records[..|records| - 1]) + records[|records| - 1]
  }

  /** The rows by which a log grew. */
  function Grown<R>(log: seq<R>, log': seq<R>): seq<R> { if |log| <= |log'| then log'[|log|..] else [] }

  /** Every row the queue still answers for, in the order it would be applied. */
  function Contents<R>(q: Queue<R>): seq<R> { q.applied + Flat(q.records) + q.requests }

  predicate Enabled<R>(q: Queue<R>, m: Move<R>) {
    match m
    case Record(_) => true
    case Flush => true
    case Acquire => q.workers > 0 && q.pass.None?
    case Succeed => q.pass.Some? && q.pass.value < |q.records|
    case Fail => q.pass.Some? && q.pass.value < |q.records|
    case Release => q.pass.Some? && q.pass.value >= |q.records|
  }

  function Batch<R>(q: Queue<R>): Queue<R> {
    if q.requests == [] then q else q.(records := q.records + [q.requests], requests := [])
  }

  function Do<R>(q: Queue<R>, m: Move<R>): Queue<R>
    requires Enabled(q, m)
  {
    match m
    case Record(rows) => q.(requests := q.requests + rows)
    case Flush => var b := Batch(q); if b.records == [] then b else b.(workers := b.workers + 1)
    case Acquire => q.(workers := q.workers - 1, pass := Some(0))
    case Succeed =>
      var i := q.pass.value;
      q.(applied := q.applied + q.records[i], records := q.records[..i] + q.records[i + 1..])
    case Fail => q.(pass := Some(q.pass.value + 1))
    case Release => q.(pass := None)
  }

  /** Each row of the log is in exactly one of the requests, the statements and the applied rows, as often as logged. */
  ghost predicate Kept<R>(q: Queue<R>, log: seq<R>) { multiset(Contents(q)) == multiset(log) }

  /** And they are in the order of the log, with the lock holder at the head of the list. */
  ghost predicate InOrder<R>(q: Queue<R>, log: seq<R>) {
    Contents(q) == log && (q.pass.Some? ==> q.pass.value == 0)
  }

  lemma {:induction false} FlatConcat<R>(a: seq<seq<R>>, b: seq<seq<R>>)
    ensures Flat(a + b) == Flat(a) + Flat(b)
  {
    if b == [] {
      assert a + b == a;
    } else {
      var n := |b| - 1;
      FlatConcat(a, b[..n]);
      assert (a + b)[..|a + b| - 1] == a + b[..n];
      assert Flat(a) + (Flat(b[..n]) + b[n]) == Flat(a) + Flat(b[..n]) + b[n];
    }
  }

  lemma FlatNothing<R>()
    ensures Flat<R>([]) == []
  {}

  lemma FlatOne<R>(s: seq<R>)
    ensures Flat([s]) == s
  {
    assert [s][..0] == [];
  }

  lemma FlushContents<R>(q: Queue<R>)
    ensures Contents(Do(q, Flush)) == Contents(q) && Do(q, Flush).requests == []
  {
    if q.requests != [] {
      FlatConcat(q.records, [q.requests]);
      FlatOne(q.requests);
      assert Do(q, Flush).records == q.records + [q.requests];
      assert q.applied + (Flat(q.records) + q.requests) + [] == q.applied + Flat(q.records) + q.requests;
    }
  }

  lemma SplitRecords<R>(records: seq<seq<R>>, i: nat)
    requires i < |records|
    ensures Flat(records) == Flat(records[..i]) + records[i] + Flat(records[i + 1..])
    ensures Flat(records[..i] + records[i + 1..]) == Flat(records[..i]) + Flat(records[i + 1..])
  {
    SplitParts(records[..i], records[i], records[i + 1..]);
    Glue(records, i);
  }

  lemma Glue<R>(records: seq<seq<R>>, i: nat)
    requires i < |records|
    ensures records == records[..i] + [records[i]] + records[i + 1..]
  {}

  lemma SplitParts<R>(a: seq<seq<R>>, r: seq<R>, b: seq<seq<R>>)
    ensures Flat(a + [r] + b) == Flat(a) + r + Flat(b) && Flat(a + b) == Flat(a) + Flat(b)
  {
    FlatOne(r);
    FlatConcat(a, [r]);
    FlatConcat(a + [r], b);
    FlatConcat(a, b);
  }

  lemma RecordContents<R>(q: Queue<R>, rows: seq<R>)
    ensures Contents(q.(requests := q.requests + rows)) == Contents(q) + rows
  {
    hide Flat;
  }

  lemma SucceedKeeps<R>(q: Queue<R>)
    requires Enabled(q, Succeed)
    ensures multiset(Contents(Do(q, Succeed))) == multiset(Contents(q))
  {
    var i := q.pass.value;
    SplitRecords(q.records, i);
    hide Flat;
  }

  /** No move of the main loop or of a worker, failing or not, loses or repeats a row. */
  lemma MoveKeeps<R>(q: Queue<R>, m: Move<R>, log: seq<R>)
    requires Enabled(q, m) && Kept(q, log)
    ensures Kept(Do(q, m), if m.Record? then log + m.rows else log)
  {
    match m
    case Record(rows) => RecordContents(q, rows); hide Contents;
    case Flush => FlushContents(q); hide Contents;
    case Succeed => SucceedKeeps(q); hide Contents;
    case _ => hide Flat;
  }

  lemma SucceedInOrder<R>(q: Queue<R>)
    requires Enabled(q, Succeed) && q.pass.value == 0
    ensures Contents(Do(q, Succeed)) == Contents(q)
  {
    SplitRecords(q.records, 0);
    FlatNothing<R>();
    hide Flat;
    assert q.records[..0] == [];
    assert Do(q, Succeed).records == q.records[..0] + q.records[1..];
  }

  /** Without failures, however many workers there are, rows are applied in the order they were recorded. */
  lemma MoveInOrder<R>(q: Queue<R>, m: Move<R>, log: seq<R>)
    requires Enabled(q, m) && InOrder(q, log) && !m.Fail?
    ensures InOrder(Do(q, m), if m.Record? then log + m.rows else log)
  {
    match m
    case Record(rows) => RecordContents(q, rows); hide Contents;
    case Flush => FlushContents(q); hide Contents, Flat;
    case Succeed => SucceedInOrder(q); hide Contents;
    case _ => hide Flat;
  }

  /** A weight summed over what was applied, batched and queued is its sum over the log. */
  lemma KeptSums<R>(q: Queue<R>, log: seq<R>, f: R -> int)
    requires Kept(q, log)
    ensures SumSeq(q.applied, f) + SumSeq(Flat(q.records), f) + SumSeq(q.requests, f) == SumSeq(log, f)
  {
    SumSeqPermutes(Contents(q), log, f);
    SumSeqConcat(q.applied + Flat(q.records), q.requests, f);
    SumSeqConcat(q.applied, Flat(q.records), f);
  }

  // ---------------------------------------------------------------- one whole pass

  /** A worker's pass over the list when statement i fails exactly if fails[i]. */
  function Failed<R>(records: seq<seq<R>>, fails: seq<bool>): seq<seq<R>>
    requires |fails| == |records|
  {
    if records == [] then []
    else
      var n := |records| - 1;
      Failed(records[..n], fails[..n]) + if fails[n] then [records[n]] else []
  }

  function Succeeded<R>(records: seq<seq<R>>, fails: seq<bool>): seq<seq<R>>
    requires |fails| == |records|
  {
    if records == [] then []
    else
      var n := |records| - 1;
      Succeeded(records[..n], fails[..n]) + if fails[n] then [] else [records[n]]
  }

  function Moves<R>(fails: seq<bool>): seq<Move<R>> {
    seq(|fails|, i requires 0 <= i < |fails| => if fails[i] then Fail else Succeed)
  }

  /** A worker's life, from taking the lock to giving it back. */
  function PassMoves<R>(fails: seq<bool>): seq<Move<R>> { [Acquire] + Moves<R>(fails) + [Release] }

  /** The queue after the moves; None if one of them was not enabled. */
  function RunMoves<R>(q: Queue<R>, ms: seq<Move<R>>): Option<Queue<R>> {
    if ms == [] then Some(q)
    else
      var o := RunMoves(q, ms[..|ms| - 1]);
      if o.Some? && Enabled(o.value, ms[|ms| - 1]) then Some(Do(o.value, ms[|ms| - 1])) else None
  }

  lemma RunOneMore<R>(q: Queue<R>, ms: seq<Move<R>>, m: Move<R>)
    ensures RunMoves(q, ms + [m])
            == (var o := RunMoves(q, ms); if o.Some? && Enabled(o.value, m) then Some(Do(o.value, m)) else None)
  {
    assert (ms + [m])[..|ms|] == ms;
  }

  /** The queue once the first n statements of a pass have been dealt with. */
  function PassedTo<R>(q: Queue<R>, fails: seq<bool>, n: nat): Queue<R>
    requires |fails| == |q.records| && n <= |fails|
  {
    var kept := Failed(q.records[..n], fails[..n]);
    q.(records := kept + q.records[n..], pass := Some(|kept|),
       applied := q.applied + Flat(Succeeded(q.records[..n], fails[..n])))
  }

  lemma AtPosition<R>(q: Queue<R>, kept: seq<seq<R>>, r: seq<R>, rest: seq<seq<R>>)
    requires q.records == kept + ([r] + rest) && q.pass == Some(|kept|)
    ensures Enabled(q, Succeed) && Do(q, Succeed) == q.(applied := q.applied + r, records := kept + rest)
    ensures Enabled(q, Fail) && Do(q, Fail) == q.(pass := Some(|kept + [r]|)) && q.records == kept + [r] + rest
  {
    assert q.records[|kept|] == r;
    assert q.records[..|kept|] == kept && q.records[|kept| + 1..] == rest;
  }

  lemma PassParts<R>(q: Queue<R>, fails: seq<bool>, n: nat)
    requires |fails| == |q.records| && n < |fails|
    ensures var r := q.records[n];
            && Failed(q.records[..n + 1], fails[..n + 1])
               == Failed(q.records[..n], fails[..n]) + (if fails[n] then [r] else [])
            && Flat(Succeeded(q.records[..n + 1], fails[..n + 1]))
               == Flat(Succeeded(q.records[..n], fails[..n])) + (if fails[n] then [] else r)
            && q.records[n..] == [r] + q.records[n + 1..]
  {
    var r := q.records[n];
    var done := Succeeded(q.records[..n], fails[..n]);
    OneMoreDone(q.records, fails, n);
    FlatConcat(done, [r]);
    FlatOne(r);
    assert done + [] == done && Flat(done) + [] == Flat(done);
  }

  lemma OneMoreDone<R>(records: seq<seq<R>>, fails: seq<bool>, n: nat)
    requires |fails| == |records| && n < |fails|
    ensures Failed(records[..n + 1], fails[..n + 1]) == Failed(records[..n], fails[..n]) + if fails[n] then
            [records[n]] else []
    ensures Succeeded(records[..n + 1], fails[..n + 1]) == Succeeded(records[..n], fails[..n]) + if fails[n] then []
            else [records[n]]
    ensures records[n..] == [records[n]] + records[n + 1..]
  {
    assert fails[..n + 1][..n] == fails[..n] && records[..n + 1][..n] == records[..n];
  }

  lemma PassStep<R>(q: Queue<R>, fails: seq<bool>, n: nat)
    requires |fails| == |q.records| && n < |fails|
    ensures var m := if fails[n] then Fail else Succeed;
            Enabled(PassedTo(q, fails, n), m) && Do(PassedTo(q, fails, n), m) == PassedTo(q, fails, n + 1)
  {
    PassParts(q, fails, n);
    var kept := Failed(q.records[..n], fails[..n]);
    var done := Flat(Succeeded(q.records[..n], fails[..n]));
    var r := q.records[n];
    AtPosition(PassedTo(q, fails, n), kept, r, q.records[n + 1..]);
    hide Failed, Succeeded, Flat, Do, Enabled;
    if fails[n] { assert done + [] == done; } else {
      assert kept + [] == kept;
      assert q.applied + done + r == q.applied + (done + r);
    }
  }

  /** An undisturbed pass is a run of the queue's own moves: it applies the statements that succeed, in list order, and
      keeps the others, in list order. */
  lemma {:induction false} PassRuns<R>(q: Queue<R>, fails: seq<bool>, n: nat)
    requires q.pass == Some(0) && |fails| == |q.records| && n <= |fails|
    ensures RunMoves(q, Moves<R>(fails[..n])) == Some(PassedTo(q, fails, n))
  {
    hide PassedTo, Moves, Do, Enabled;
    if n == 0 {
      PassedNothing(q, fails);
      assert Moves<R>(fails[..0]) == [] by { NoMoves<R>(fails[..0]); }
    } else {
      PassRuns(q, fails, n - 1);
      var m: Move<R> := if fails[n - 1] then Fail else Succeed;
      MovesMore<R>(fails, n - 1);
      RunOneMore(q, Moves<R>(fails[..n - 1]), m);
      PassStep(q, fails, n - 1);
    }
  }

  lemma NoMoves<R>(fails: seq<bool>)
    requires fails == []
    ensures Moves<R>(fails) == []
  {}

  lemma MovesMore<R>(fails: seq<bool>, n: nat)
    requires n < |fails|
    ensures Moves<R>(fails[..n + 1]) == Moves<R>(fails[..n]) + [if fails[n] then Fail else Succeed]
  {}

  lemma PassedNothing<R>(q: Queue<R>, fails: seq<bool>)
    requires q.pass == Some(0) && |fails| == |q.records|
    ensures PassedTo(q, fails, 0) == q
  {
    assert fails[..0] == [] && q.records[..0] == [];
    assert Failed<R>([], []) == [] && Succeeded<R>([], []) == [] && Flat<R>([]) == [];
    assert [] + q.records[0..] == q.records && q.applied + [] == q.applied;
  }

  lemma PassedAll<R>(q: Queue<R>, fails: seq<bool>)
    requires |fails| == |q.records|
    ensures var kept := Failed(q.records, fails);
            PassedTo(q, fails, |fails|)
            == q.(records := kept, pass := Some(|kept|), applied := q.applied + Flat(Succeeded(q.records, fails)))
  {
    var n := |fails|;
    assert fails[..n] == fails && q.records[..n] == q.records && q.records[n..] == [];
  }

  lemma FullPass<R>(q: Queue<R>, fails: seq<bool>)
    requires q.pass == Some(0) && |fails| == |q.records|
    ensures var kept := Failed(q.records, fails);
            RunMoves(q, Moves<R>(fails))
            == Some(q.(records := kept, pass := Some(|kept|), applied := q.applied + Flat(Succeeded(q.records, fails))))
  {
    hide PassedTo, Moves;
    PassRuns(q, fails, |fails|);
    assert fails[..|fails|] == fails;
    PassedAll(q, fails);
  }

  /** From taking the lock to giving it back. */
  lemma WholePass<R>(q: Queue<R>, fails: seq<bool>)
    requires Enabled(q, Acquire) && |fails| == |q.records|
    ensures RunMoves(q, PassMoves<R>(fails))
         == Some(q.(workers := q.workers - 1, records := Failed(q.records, fails),
                    applied := q.applied + Flat(Succeeded(q.records, fails))))
  {
    FullPass(Do(q, Acquire), fails);
    RunAfter(q, Acquire, Moves<R>(fails));
    RunOneMore(q, [Acquire] + Moves<R>(fails), Release);
    hide Moves, Failed, Succeeded, Flat;
  }

  lemma {:induction false} RunAfter<R>(q: Queue<R>, m: Move<R>, ms: seq<Move<R>>)
    requires Enabled(q, m)
    ensures RunMoves(q, [m] + ms) == RunMoves(Do(q, m), ms)
  {
    if ms == [] {
      RunNothing(q);
      RunOneMore(q, [], m);
      assert [m] + [] == [] + [m];
    } else {
      var n := |ms| - 1;
      RunAfter(q, m, ms[..n]);
      RunOneMore(q, [m] + ms[..n], ms[n]);
      assert [m] + ms == [m] + ms[..n] + [ms[n]];
    }
  }

  lemma {:induction false} RunJoined<R>(q: Queue<R>, ms: seq<Move<R>>, q1: Queue<R>, more: seq<Move<R>>)
    requires RunMoves(q, ms) == Some(q1)
    ensures RunMoves(q, ms + more) == RunMoves(q1, more)
  {
    hide Do, Enabled;
    if more == [] {
      assert ms + more == ms;
    } else {
      var n := |more| - 1;
      RunJoined(q, ms, q1, more[..n]);
      assert (ms + more)[..|ms + more| - 1] == ms + more[..n];
    }
  }

  function Never(n: nat): seq<bool> { seq(n, _ => false) }

  lemma {:induction false} NoneFail<R>(records: seq<seq<R>>)
    ensures Failed(records, Never(|records|)) == [] && Succeeded(records, Never(|records|)) == records
  {
    if records != [] {
      var n := |records| - 1;
      NoneFail(records[..n]);
      assert Never(|records|)[..n] == Never(n);
      assert records == records[..n] + [records[n]];
    }
  }

  /** A pass in which nothing fails empties the list. */
  lemma CleanPass<R>(q: Queue<R>)
    requires Enabled(q, Acquire)
    ensures RunMoves(q, PassMoves<R>(Never(|q.records|)))
         == Some(q.(workers := q.workers - 1, records := [], applied := q.applied + Flat(q.records)))
  {
    WholePass(q, Never(|q.records|));
    NoneFail(q.records);
    hide PassMoves, Failed, Succeeded, Flat;
  }

  // ---------------------------------------------------------------- progress

  /** A flush turns the requests, if there are any, into one more statement, and starts one worker if and only if there
      is a statement then; what was applied and who holds the lock stay as they were. */
  lemma FlushStarts<R>(q: Queue<R>)
    ensures var f := Do(q, Flush);
            && f.workers == q.workers + (if q.requests != [] || q.records != [] then 1 else 0)
            && f.records == q.records + (if q.requests != [] then [q.requests] else [])
            && f.requests == [] && f.applied == q.applied && f.pass == q.pass
  {}

  /** How many statements a flush leaves. */
  function Pending<R>(q: Queue<R>): nat { |q.records| + if q.requests == [] then 0 else 1 }

  /** A flush, and the worker it starts: over all statements, none of which fails. Nothing if there is nothing to do. */
  function DrainMoves<R>(q: Queue<R>): (ms: seq<Move<R>>)
    ensures forall i :: 0 <= i < |ms| ==> !ms[i].Record? && !ms[i].Fail?
  {
    if Pending(q) == 0 then [] else [Flush] + PassMoves<R>(Never(Pending(q)))
  }

  /** Whenever nobody holds the lock, these moves are possible, and with them every row that was ever recorded reaches
      the database: what is applied is what was applied, batched and queued, in this order, and nothing is left. */
  lemma Drains<R>(q: Queue<R>, log: seq<R>)
    requires q.pass.None?
    ensures var o := RunMoves(q, DrainMoves(q));
            && o.Some? && o.value.requests == [] && o.value.records == [] && o.value.pass.None?
            && o.value.workers == q.workers
            && o.value.applied == q.applied + Flat(q.records) + q.requests
            && (Kept(q, log) ==> multiset(o.value.applied) == multiset(log))
            && (InOrder(q, log) ==> o.value.applied == log)
  {
    hide PassMoves, RunMoves, Flat;
    if Pending(q) == 0 {
      RunNothing(q);
      FlatNothing<R>();
    } else {
      var f := Do(q, Flush);
      FlushStarts(q);
      FlushContents(q);
      CleanPass(f);
      RunAfter(q, Flush, PassMoves<R>(Never(Pending(q))));
      assert f.applied + Flat(f.records) + [] == f.applied + Flat(f.records);
    }
  }

  /** Whoever holds the lock can go over the rest of the list without a failure and give it back. */
  lemma Finishes<R>(q: Queue<R>, n: nat)
    requires q.pass.Some? && q.pass.value + n == |q.records|
    ensures var o := RunMoves(q, Moves<R>(Never(n)) + [Release]);
            o.Some? && o.value.pass.None?
  {
    hide RunMoves, Moves;
    var x := SucceedsFor(q, n);
    RunOneMore(q, Moves<R>(Never(n)), Release);
  }

  lemma {:induction false} SucceedsFor<R>(q: Queue<R>, k: nat) returns (x: Queue<R>)
    requires q.pass.Some? && q.pass.value + k <= |q.records|
    ensures RunMoves(q, Moves<R>(Never(k))) == Some(x) && x.pass == q.pass && |x.records| == |q.records| - k
  {
    hide RunMoves, Moves;
    if k == 0 {
      NoMoves<R>(Never(0));
      RunNothing(q);
      x := q;
    } else {
      x := SucceedsFor(q, k - 1);
      assert Never(k)[..k - 1] == Never(k - 1) && Never(k)[..k] == Never(k);
      MovesMore<R>(Never(k), k - 1);
      RunOneMore(q, Moves<R>(Never(k - 1)), Succeed);
      x := Do(x, Succeed);
    }
  }

  /** A pass in which some statements fail, the flush that starts the next worker, and a pass without failures. */
  function RetryMoves<R>(fails: seq<bool>, failed: nat): seq<Move<R>> {
    PassMoves<R>(fails) + ([Flush] + PassMoves<R>(Never(failed)))
  }

  /** With nothing new to batch, a flush starts a worker for what is left. */
  lemma FlushAgain<R>(q: Queue<R>)
    requires q.requests == [] && q.records != []
    ensures Do(q, Flush) == q.(workers := q.workers + 1)
  {}

  lemma RetryRuns<R>(q: Queue<R>, fails: seq<bool>)
    requires q.requests == [] && Enabled(q, Acquire) && |fails| == |q.records| && Failed(q.records, fails) != []
    ensures var failed := Failed(q.records, fails);
            RunMoves(q, RetryMoves<R>(fails, |failed|))
            == Some(Queue([], [], q.applied + Flat(Succeeded(q.records, fails)) + Flat(failed), q.workers - 1, None))
  {
    hide PassMoves, Do;
    var failed := Failed(q.records, fails);
    WholePass(q, fails);
    Retry(q, fails, q.(workers := q.workers - 1, records := failed,
                       applied := q.applied + Flat(Succeeded(q.records, fails))));
  }

  lemma Retry<R>(q: Queue<R>, fails: seq<bool>, q1: Queue<R>)
    requires RunMoves(q, PassMoves<R>(fails)) == Some(q1) && q1.requests == [] && q1.records != [] && q1.pass.None?
    ensures RunMoves(q, RetryMoves<R>(fails, |q1.records|))
         == Some(q1.(records := [], applied := q1.applied + Flat(q1.records)))
  {
    var q2 := q1.(workers := q1.workers + 1);
    var clean := PassMoves<R>(Never(|q1.records|));
    FlushAgain(q1);
    CleanPass(q2);
    RunAfter(q1, Flush, clean);
    RunJoined(q, PassMoves<R>(fails), q1, [Flush] + clean);
    hide PassMoves, Flat;
  }

  /** Why order needs success: a statement that fails once is applied after the one behind it. */
  lemma FailureReorders<R>(a: R, b: R)
    requires a != b
    ensures var q := Queue([], [[a], [b]], [], 0, Some(0));
            var o := RunMoves(q, [Fail, Succeed, Release, Flush, Acquire, Succeed, Release]);
            Contents(q) == [a, b] && o == Some(Queue([], [], [b, a], 0, None))
  {
    hide RunMoves, Flat;
    var q := Queue([], [[a], [b]], [], 0, Some(0));
    assert [[a], [b]][..1] == [[a]] && [[a]][..0] == [];
    var q1 := q.(pass := Some(1));
    var q2 := Queue([], [[a]], [b], 0, Some(1));
    var q4 := Queue([], [[a]], [b], 1, None);
    var q6 := Queue([], [], [b, a], 0, Some(0));
    var ms: seq<Move<R>> := [];
    RunNothing(q);
    Then(q, ms, Fail, q, q1);
    ms := ms + [Fail];
    Then(q, ms, Succeed, q1, q2);
    ms := ms + [Succeed];
    Then(q, ms, Release, q2, q2.(pass := None));
    ms := ms + [Release];
    Then(q, ms, Flush, q2.(pass := None), q4);
    ms := ms + [Flush];
    Then(q, ms, Acquire, q4, q2.(pass := Some(0)));
    ms := ms + [Acquire];
    Then(q, ms, Succeed, q2.(pass := Some(0)), q6);
    ms := ms + [Succeed];
    Then(q, ms, Release, q6, q6.(pass := None));
    assert ms + [Release] == [Fail, Succeed, Release, Flush, Acquire, Succeed, Release];
    FlatOne([a]);
    FlatOne([b]);
    FlatConcat([[a]], [[b]]);
    assert [[a]] + [[b]] == [[a], [b]];
  }

  lemma RunNothing<R>(q: Queue<R>)
    ensures RunMoves(q, []) == Some(q)
  {}

  lemma Then<R>(q: Queue<R>, ms: seq<Move<R>>, m: Move<R>, before: Queue<R>, after: Queue<R>)
    requires RunMoves(q, ms) == Some(before) && Enabled(before, m) && Do(before, m) == after
    ensures RunMoves(q, ms + [m]) == Some(after)
  {
    RunOneMore(q, ms, m);
  }
}
