/** A whole life of the tracker's objects: any list of calls on a fresh handler is a run of module System. */
module Session {
  import opened Options
  import opened Ledger
  import opened Tracker
  import opened Shape
  import opened System
  import opened Progress
  import opened Reply
  import opened Handler
  import Swarm
  import WriteBehind

  /** What sockets, timers and detached workers ask of the handler. */
  datatype Call =
    | Announces(r: Announcement, hashes: seq<string>)
    | Scrapes(passkey: string, ip: string, hashes: seq<string>)
    | Updates(step: Step)
    | RemovesUsers(passkeys: string)
    | Clears(now: int)
    | Flushes
    | Works(table: Table, fails: seq<bool>)

  /** The announces, sweeps, edits, flushes and worker moves a call stands for in state s. A sweep chooses its own order
      over all torrents and peers; a worker that was not started does nothing, any other goes over the whole list, and
      where the list of failures ends, statements succeed. */
  ghost predicate Did(s: System, call: Call, acts: seq<Act>) {
    match call
    case Announces(r, hashes) => acts == if hashes == [] then [] else [Track(DoAnnounce(Normal(r, hashes)))]
    case Scrapes(_, _, _) => acts == []
    case Updates(step) => acts == if step.DoAnnounce? || step.DoSweep? then [] else [Track(step)]
    case RemovesUsers(passkeys) => acts == Removals(Chunks(passkeys))
    case Clears(now) => exists plan :: SweepPlan(s.w, plan) && acts == [Track(DoSweep(plan, now))]
    case Flushes => acts == if s.w.mode.Public? then [] else [Flush(Users), Flush(Torrents), Flush(Peers)]
    case Works(table, fails) =>
      acts == if Workers(s, table) == 0 then [] else WorkOf(table, Filled(fails, Statements(s, table)))
  }

  /** How many workers wait, and how many statements there are, for a table. */
  function Workers(s: System, table: Table): nat {
    match table
    case Users => s.users.workers
    case Torrents => s.torrents.workers
    case Peers => s.peers.workers
  }

  function Statements(s: System, table: Table): nat {
    match table
    case Users => |s.users.records|
    case Torrents => |s.torrents.records|
    case Peers => |s.peers.records|
  }

  /** What a call is answered: w is the memory before it, w' the memory after it. */
  ghost predicate Responds(call: Call, c: Settings, w: World, w': World, reply: Option<string>) {
    match call
    case Announces(r, hashes) => Answers(reply, w, w', r, hashes, c)
    case Scrapes(passkey, ip, hashes) => reply == Some(ScrapeAnswer(w, passkey, ip, hashes))
    case Updates(step) => reply == if step.DoAnnounce? || step.DoSweep? then None else Some(Response("success"))
    case RemovesUsers(_) => reply == Some(Response("success"))
    case _ => reply == None
  }

  /** n outcomes, of which the first are given. */
  function Filled(fails: seq<bool>, n: nat): (f: seq<bool>)
    ensures |f| == n && forall i :: 0 <= i < n ==> f[i] == (i < |fails| && fails[i])
  {
    seq(n, i requires 0 <= i < n => i < |fails| && fails[i])
  }

  // ---------------------------------------------------------------- one call

  lemma Queues(h: RequestHandler)
    ensures var s := h.Whole();
            s.w == h.Val() && s.w.mode == h.mode && s.users == h.db.users.Val() && s.torrents == h.db.torrents.Val()
              && s.peers == h.db.peers.Val()
  {}

  /** A detached worker, if one was started. */
  method Work(h: RequestHandler, table: Table, fails: seq<bool>) returns (ghost acts: seq<Act>)
    requires h.Valid() && LockFree(h.Whole())
    modifies h.db.users, h.db.torrents, h.db.peers
    ensures h.Valid() && LockFree(h.Whole()) && Did(old(h.Whole()), Works(table, fails), acts)
    ensures PerformAll(old(h.Whole()), acts) == Some(h.Whole())
  {
    hide RequestHandler.Whole, RequestHandler.Valid, WorkOf, WriteBehind.PassMoves;
    ghost var s := h.Whole();
    Queues(h);
    acts := [];
    match table {
      case Users =>
        if h.db.users.workers > 0 {
          var f := Filled(fails, |h.db.users.records|);
          UserPass(s, f);
          acts := WorkOf(Users, f);
          h.DoFlushUsers(f);
        }
      case Torrents =>
        if h.db.torrents.workers > 0 {
          var f := Filled(fails, |h.db.torrents.records|);
          TorrentPass(s, f);
          acts := WorkOf(Torrents, f);
          h.DoFlushTorrents(f);
        }
      case Peers =>
        if h.db.peers.workers > 0 {
          var f := Filled(fails, |h.db.peers.records|);
          PeerPass(s, f);
          acts := WorkOf(Peers, f);
          h.DoFlushPeers(f);
        }
    }
  }

  lemma OneAct(s: System, a: Act)
    requires CanAct(s, a)
    ensures PerformAll(s, [a]) == Some(Perform(s, a))
    ensures LockFree(s) && (a.Track? || a.Flush?) ==> LockFree(Perform(s, a))
  {
    assert [a][..0] == [];
    hide Take;
  }

  lemma NoAct(s: System)
    ensures PerformAll(s, []) == Some(s)
  {}

  lemma ThreeActs(s: System)
    requires LockFree(s)
    ensures var s3 := Perform(Perform(Perform(s, Flush(Users)), Flush(Torrents)), Flush(Peers));
            PerformAll(s, [Flush(Users), Flush(Torrents), Flush(Peers)]) == Some(s3) && LockFree(s3)
  {
    var s1 := Perform(s, Flush(Users));
    var s2 := Perform(s1, Flush(Torrents));
    OneAct(s, Flush(Users));
    OneAct(s1, Flush(Torrents));
    OneAct(s2, Flush(Peers));
    PerformOne(s, [Flush(Users)], s1, Flush(Torrents));
    PerformOne(s, [Flush(Users), Flush(Torrents)], s2, Flush(Peers));
    assert [Flush(Users)] + [Flush(Torrents)] == [Flush(Users), Flush(Torrents)];
    assert [Flush(Users), Flush(Torrents)] + [Flush(Peers)] == [Flush(Users), Flush(Torrents), Flush(Peers)];
    hide Perform, PerformAll;
  }

  /** Steps and edits of the memory take no lock. */
  lemma {:induction false} TracksKeepLocks(s: System, acts: seq<Act>)
    requires LockFree(s) && forall i :: 0 <= i < |acts| ==> acts[i].Track?
    ensures PerformAll(s, acts).Some? && LockFree(PerformAll(s, acts).value)
  {
    hide Take;
    if acts != [] { TracksKeepLocks(s, acts[..|acts| - 1]); }
  }

  /** What a call does to the objects is the run of acts it stands for. */
  method Serve(h: RequestHandler, c: Settings, call: Call) returns (reply: Option<string>, ghost acts: seq<Act>)
    requires h.Valid() && LockFree(h.Whole())
    modifies h, h.torMap.Values, h.AllSets(), h.AllPeers(), h.stats, h.users, h.db.users, h.db.torrents, h.db.peers
    ensures h.Valid() && LockFree(h.Whole()) && Did(old(h.Whole()), call, acts)
    ensures PerformAll(old(h.Whole()), acts) == Some(h.Whole())
    ensures Responds(call, c, old(h.Whole()).w, h.Whole().w, reply)
  {
    hide RequestHandler.Whole, RequestHandler.Val, RequestHandler.Valid, RequestHandler.AllSets,
         RequestHandler.AllPeers,
         Perform, LockFree, Normal, Removals, Chunks, WorkOf, Answers, ScrapeAnswer, Response;
    ghost var s := h.Whole();
    Queues(h);
    reply := None;
    match call {
      case Announces(r, hashes) =>
        reply := h.HandleAnnounce(r, hashes, c);
        Queues(h);
        acts := if hashes == [] then [] else [Track(DoAnnounce(Normal(r, hashes)))];
        if hashes == [] { NoAct(s); } else { OneAct(s, Track(DoAnnounce(Normal(r, hashes)))); }
      case Scrapes(passkey, ip, hashes) =>
        var text := h.HandleScrape(passkey, ip, hashes);
        reply := Some(text);
        acts := [];
        NoAct(s);
        Queues(h);
      case Updates(step) =>
        acts := [];
        NoAct(s);
        if !step.DoAnnounce? && !step.DoSweep? {
          OneAct(s, Track(step));
          h.Update(step);
          reply := Some(Response("success"));
          acts := [Track(step)];
        }
      case RemovesUsers(passkeys) =>
        h.RemoveUsers(passkeys);
        reply := Some(Response("success"));
        acts := Removals(Chunks(passkeys));
        AllTracks(Chunks(passkeys));
        TracksKeepLocks(s, acts);
      case Clears(now) =>
        ghost var plan := h.ClearTorrentPeers(now);
        OneAct(s, Track(DoSweep(plan, now)));
        acts := [Track(DoSweep(plan, now))];
      case Flushes =>
        h.FlushSqlRecords();
        NoAct(s);
        ThreeActs(s);
        acts := if h.mode.Public? then [] else [Flush(Users), Flush(Torrents), Flush(Peers)];
      case Works(table, fails) =>
        acts := Work(h, table, fails);
    }
  }

  lemma AllTracks(passkeys: seq<string>)
    ensures forall i :: 0 <= i < |Removals(passkeys)| ==> Removals(passkeys)[i].Track?
  {}

  // ---------------------------------------------------------------- a whole life

  /** Nothing loaded, nothing queued. */
  function StartOf(mode: Mode, timeout: int): System {
    System(World(mode, timeout, map[], [], map[], StatsV(0, 0, 0, 0), false, [], {}, [], [], [], [], {}),
           WriteBehind.Queue([], [], [], 0, None), WriteBehind.Queue([], [], [], 0, None),
           WriteBehind.Queue([], [], [], 0, None))
  }

  lemma StartIsStarted(mode: Mode, timeout: int)
    ensures Started(StartOf(mode, timeout)) && LockFree(StartOf(mode, timeout))
  {}

  /** The acts of the calls, call by call. */
  ghost predicate DidAll(states: seq<System>, calls: seq<Call>, parts: seq<seq<Act>>) {
    && |parts| == |calls| && |states| > |calls|
    && forall i :: 0 <= i < |calls| ==> Did(states[i], calls[i], parts[i])
  }

  predicate CallFits(call: Call) {
    call.Announces? && call.hashes != [] ==> RequestFits(Normal(call.r, call.hashes))
  }

  ghost predicate ActsFit(acts: seq<Act>) { forall i :: 0 <= i < |acts| ==> ActFits(acts[i]) }

  lemma DidFits(s: System, call: Call, acts: seq<Act>)
    requires Did(s, call, acts) && CallFits(call)
    ensures ActsFit(acts)
  {
    hide RequestFits, Normal, Chunks, SweepPlan;
  }

  lemma {:induction false} AllFit(states: seq<System>, calls: seq<Call>, parts: seq<seq<Act>>)
    requires DidAll(states, calls, parts) && forall i :: 0 <= i < |calls| ==> CallFits(calls[i])
    ensures ActsFit(WriteBehind.Flat(parts))
  {
    hide Did, CallFits, ActFits;
    if calls != [] {
      var n := |calls| - 1;
      AllFit(states, calls[..n], parts[..n]);
      DidFits(states[n], calls[n], parts[n]);
      BothFit(WriteBehind.Flat(parts[..n]), parts[n]);
    }
  }

  lemma BothFit(a: seq<Act>, b: seq<Act>)
    requires ActsFit(a) && ActsFit(b)
    ensures ActsFit(a + b)
  {}

  /** Whatever a new handler owns is new. */
  twostate lemma OwnsNew(new h: RequestHandler)
    requires fresh(h) && h.Valid()
    ensures fresh(h.torMap.Values) && fresh(h.AllSets()) && fresh(h.AllPeers())
    ensures forall i :: 0 <= i < |h.users| ==> fresh(h.users[i])
  {
    forall t | t in h.torMap.Values ensures fresh(t) && fresh(t.Sets()) && fresh(t.Objects()) {
      var ih :| ih in h.torMap && h.torMap[ih] == t;
      assert t.Valid() && t.owner == h;
      forall s: Slot ensures fresh(t.Set(s)) && fresh(t.Set(s).pMap.Values) {
        assert t.Set(s).owner == h;
        forall p | p in t.Set(s).pMap.Values ensures fresh(p) { assert p.home == t.Set(s); }
      }
      assert t.Sets() == {t.Set(Seeders), t.Set(Seeders6), t.Set(Leechers), t.Set(Leechers6)};
    }
  }

  /** The states between the calls: each call takes one to the next, and is answered for these two. */
  ghost predicate Traces(c: Settings, calls: seq<Call>, parts: seq<seq<Act>>, states: seq<System>,
                         replies: seq<Option<string>>) {
    && |parts| == |calls| && |replies| == |calls| && |states| == |calls| + 1
    && forall i :: 0 <= i < |calls| ==>
         PerformAll(states[i], parts[i]) == Some(states[i + 1])
         && Responds(calls[i], c, states[i].w, states[i + 1].w, replies[i])
  }

  lemma TraceMore(c: Settings, calls: seq<Call>, parts: seq<seq<Act>>, states: seq<System>,
                  replies: seq<Option<string>>, call: Call, part: seq<Act>, s: System, reply: Option<string>)
    requires Traces(c, calls, parts, states, replies)
    requires PerformAll(states[|calls|], part) == Some(s) && Responds(call, c, states[|calls|].w, s.w, reply)
    ensures Traces(c, calls + [call], parts + [part], states + [s], replies + [reply])
  {
    hide Responds, PerformAll;
    var n := |calls|;
    var calls', parts', states', replies' := calls + [call], parts + [part], states + [s], replies + [reply];
    forall i | 0 <= i < n + 1
      ensures PerformAll(states'[i], parts'[i]) == Some(states'[i + 1])
      ensures Responds(calls'[i], c, states'[i].w, states'[i + 1].w, replies'[i])
    {
      assert states'[i] == states[i] && states'[i + 1] == if i < n then states[i + 1] else s;
      if i < n { assert PerformAll(states[i], parts[i]) == Some(states[i + 1]); }
    }
  }

  /** A handler that has just been built, with its own queues and statistics. */
  method Start(mode: Mode, timeout: int) returns (h: RequestHandler)
    ensures fresh(h) && fresh(h.stats) && fresh(h.db.users) && fresh(h.db.torrents) && fresh(h.db.peers)
    ensures h.Valid() && h.mode == mode && h.Whole() == StartOf(mode, timeout)
  {
    var db := new Swarm.MySQL(mode);
    var stats := new Swarm.Stats();
    h := new RequestHandler(mode, timeout, db, stats);
  }

  /**
   * Any list of calls, answered one after the other by a new handler: the objects end as the run of acts the calls
   * stand for, so if the announces fit, every theorem about runs of module System holds of them; and each reply is the
   * one for the memory before and after its call.
   */
  method Session(mode: Mode, timeout: int, c: Settings, calls: seq<Call>)
      returns (h: RequestHandler, replies: seq<Option<string>>, ghost parts: seq<seq<Act>>, ghost states: seq<System>)
    ensures fresh(h) && h.Valid() && DidAll(states, calls, parts)
    ensures Traces(c, calls, parts, states, replies) && states[0] == StartOf(mode, timeout)
    ensures PerformAll(StartOf(mode, timeout), WriteBehind.Flat(parts)) == Some(h.Whole())
    ensures (forall i :: 0 <= i < |calls| ==> CallFits(calls[i])) ==>
              Plays(StartOf(mode, timeout), WriteBehind.Flat(parts))
              && h.Whole() == End(StartOf(mode, timeout), WriteBehind.Flat(parts))
  {
    hide RequestHandler.Whole, RequestHandler.Val, RequestHandler.Valid, RequestHandler.AllSets,
         RequestHandler.AllPeers,
         Perform, LockFree, Did, StartOf, CallFits, Started, ActFits;
    StartIsStarted(mode, timeout);
    h := Start(mode, timeout);
    replies, parts, states := [], [], [h.Whole()];
    ghost var acts: seq<Act> := [];
    NoAct(StartOf(mode, timeout));
    for i := 0 to |calls|
      invariant fresh(h) && fresh(h.stats) && fresh(h.db.users) && fresh(h.db.torrents) && fresh(h.db.peers)
      invariant h.mode == mode && h.Valid() && LockFree(h.Whole())
      invariant Traces(c, calls[..i], parts, states, replies)
      invariant states[0] == StartOf(mode, timeout) && states[i] == h.Whole()
      invariant DidAll(states, calls[..i], parts) && acts == WriteBehind.Flat(parts)
      invariant PerformAll(StartOf(mode, timeout), acts) == Some(h.Whole())
    {
      OwnsNew(h);
      ghost var s := h.Whole();
      var reply: Option<string>;
      ghost var part: seq<Act>;
      reply, part := Serve(h, c, calls[i]);
      PerformMore(StartOf(mode, timeout), acts, s, part);
      assert (parts + [part])[..|parts|] == parts;
      assert calls[..i + 1] == calls[..i] + [calls[i]];
      TraceMore(c, calls[..i], parts, states, replies, calls[i], part, h.Whole(), reply);
      replies, parts, acts := replies + [reply], parts + [part], acts + part;
      states := states + [h.Whole()];
    }
    assert calls[..|calls|] == calls;
    if forall i :: 0 <= i < |calls| ==> CallFits(calls[i]) { AllFit(states, calls, parts); }
  }
}
