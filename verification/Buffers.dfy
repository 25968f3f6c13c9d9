/** The write-behind queue of one table as an object, tied to the moves of module WriteBehind. */
module Buffers {
  import opened Options
  import opened WriteBehind

  /**
   * The requests and records of one table, and how many detached workers wait for the lock. History: the rows the
   * database took, the rows that went into statements, and the lock holder's position in `records`.
   */
  class Buffer<R> {
    var requests: seq<R>
    var records: seq<seq<R>>
    var workers: nat
    ghost var applied: seq<R>
    ghost var batched: seq<R>
    ghost var pass: Option<nat>

    constructor ()
      ensures Val() == Queue([], [], [], 0, None) && Log() == []
    {
      requests, records, applied, batched, workers, pass := [], [], [], [], 0, None;
    }

    ghost function Val(): Queue<R>
      reads this
    {
      Queue(requests, records, applied, workers, pass)
    }

    /** Every row ever recorded, in order. */
    ghost function Log(): seq<R>
      reads this
    {
      batched + requests
    }

    twostate predicate OnlyRequests()
      reads this
    {
      batched == old(batched) && records == old(records) && applied == old(applied) && workers == old(workers)
        && pass == old(pass)
    }

    /** When only requests were added, the queue made the move that records what the log grew by. */
    twostate lemma Recorded()
      requires OnlyRequests() && old(Log()) <= Log()
      ensures Val() == Do(old(Val()), Record(Grown(old(Log()), Log())))
    {
      assert requests == Log()[|batched|..] && old(requests) == old(Log())[|batched|..];
      assert requests == old(requests) + requests[|old(requests)|..];
      assert Log() == old(Log()) + requests[|old(requests)|..];
    }

    method Push(row: R)
      modifies this`requests
      ensures requests == old(requests) + [row]
      ensures Val() == Do(old(Val()), Record([row])) && Log() == old(Log()) + [row]
    {
      requests := requests + [row];
    }

    /** The requests, if there are any, have become one more statement, and there is one more worker if and only if
        there is a statement. */
    twostate predicate Flushed()
      reads this
    {
      && requests == [] && records == old(records) + (if old(requests) != [] then [old(requests)] else [])
      && workers == old(workers) + (if old(requests) != [] || old(records) != [] then 1 else 0)
      && applied == old(applied) && pass == old(pass)
    }

    /** Batches the requests and starts a worker. */
    method Flush()
      modifies this
      ensures Flushed()
      ensures Val() == Do(old(Val()), Move.Flush) && Log() == old(Log())
    {
      if |requests| != 0 {
        records := records + [requests];
        batched := batched + requests;
        requests := [];
      }
      if |records| != 0 {
        workers := workers + 1;
      }
    }

    /** A worker that nothing disturbs, when statement i fails exactly if fails[i]. */
    method DoFlushRecords(fails: seq<bool>)
      requires workers > 0 && pass.None? && |fails| == |records|
      modifies this`records, this`applied, this`workers, this`pass
      ensures records == Failed(old(records), fails)
      ensures applied == old(applied) + Flat(Succeeded(old(records), fails))
      ensures RunMoves(old(Val()), PassMoves(fails)) == Some(Val()) && Log() == old(Log())
    {
      hide Failed, Succeeded, Flat, RunMoves;
      ghost var q := Do(Val(), Acquire);
      workers, pass := workers - 1, Some(0);
      var i, n := 0, 0;
      PassRuns(q, fails, 0);
      assert Val() == PassedTo(q, fails, 0) by { PassedNothing(q, fails); }
      while i < |records|
        invariant n <= |fails| && i <= |records| && |records| - i == |fails| - n
        invariant pass == Some(i) && Val() == PassedTo(q, fails, n)
        decreases |fails| - n
      {
        PassStep(q, fails, n);
        if fails[n] {
          i := i + 1;
          pass := Some(i);
        } else {
          applied := applied + records[i];
          records := records[..i] + records[i + 1..];
        }
        n := n + 1;
      }
      PassRuns(q, fails, n);
      assert fails[..n] == fails && q.records[..n] == q.records && q.records[n..] == [];
      pass := None;
      WholePass(old(Val()), fails);
    }
  }
}
