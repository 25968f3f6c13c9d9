/**
 * The objects of the tracker, changed in place: users, global statistics, peers, peer sets and torrents. Each method
 * is tied to the function of module Tracker that says what it does. Who owns an object is a constant of the object
 * (`home`, `infoHash`, `owner`), so objects of different owners are different, and what a new handler owns is new.
 */
module Swarm {
  import opened Words
  import opened Options
  import opened Ledger
  import opened Tracker
  import opened Utility
  import opened WriteBehind
  import opened Buffers
  import opened Slots

  class User {
    const id: nat
    ghost const handle: nat
    ghost const owner: object
    var downloaded: nat
    var uploaded: nat
    var authorized: bool
    var tokens: set<nat>
    var restrictions: set<string>

    constructor (id: nat, authorized: bool, ghost handle: nat, ghost owner: object)
      ensures Val() == UserV(id, 0, 0, authorized, {}, {})
      ensures this.id == id && this.handle == handle && this.owner == owner
    {
      this.id, this.handle, this.owner, this.authorized := id, handle, owner, authorized;
      downloaded, uploaded, tokens, restrictions := 0, 0, {}, {};
    }

    ghost function Val(): UserV
      reads this
    {
      UserV(id, downloaded, uploaded, authorized, tokens, restrictions)
    }

    /** Both arguments are cut to `unsigned int` on the way in. */
    method UpdateStats(downloaded: nat, uploaded: nat)
      modifies this
      ensures Val() == Credited(old(Val()), downloaded, uploaded)
    {
      this.downloaded := U64(this.downloaded + U32(downloaded));
      this.uploaded := U64(this.uploaded + U32(uploaded));
    }

    method Reset()
      modifies this
      ensures Val() == Tracker.Reset(old(Val()))
    {
      downloaded, uploaded := 0, 0;
    }

    method SetAuthorized(authorized: bool)
      modifies this
      ensures Val() == old(Val()).(authorized := authorized)
    {
      this.authorized := authorized;
    }

    method AddToken(torrentID: nat)
      modifies this
      ensures Val() == old(Val()).(tokens := old(tokens) + {torrentID})
    {
      tokens := tokens + {torrentID};
    }

    method RemoveToken(torrentID: nat)
      modifies this
      ensures Val() == old(Val()).(tokens := old(tokens) - {torrentID})
    {
      tokens := tokens - {torrentID};
    }

    method AddIPRestriction(ip: string)
      modifies this
      ensures Val() == old(Val()).(restrictions := old(restrictions) + {ip})
    {
      restrictions := restrictions + {ip};
    }

    method RemoveIPRestriction(ip: string)
      modifies this
      ensures Val() == old(Val()).(restrictions := old(restrictions) - {ip})
    {
      restrictions := restrictions - {ip};
    }
  }

  ghost function RefOf(u: User?): Option<UserRef> {
    if u == null then None else Some(UserRef(u.handle, u.id))
  }

  class Stats {
    var peers: nat
    var torrents: nat
    var speed: nat
    var transferred: nat

    constructor ()
      ensures Val() == StatsV(0, 0, 0, 0)
    {
      peers, torrents, speed, transferred := 0, 0, 0, 0;
    }

    ghost function Val(): StatsV
      reads this
    {
      StatsV(peers, torrents, speed, transferred)
    }

    method IncPeers()
      modifies this`peers
      ensures peers == U64(old(peers) + 1)
    {
      peers := U64(peers + 1);
    }

    method DecPeers()
      modifies this`peers
      ensures peers == U64(old(peers) - 1)
    {
      peers := U64(peers - 1);
    }

    method IncTorrents()
      modifies this`torrents
      ensures torrents == U64(old(torrents) + 1)
    {
      torrents := U64(torrents + 1);
    }

    method DecTorrents()
      modifies this`torrents
      ensures torrents == U64(old(torrents) - 1)
    {
      torrents := U64(torrents - 1);
    }

    method IncSpeed(amount: nat)
      modifies this`speed
      ensures speed == U64(old(speed) + amount / 2)
    {
      speed := U64(speed + amount / 2);
    }

    method DecSpeed(amount: nat)
      modifies this`speed
      ensures speed == U64(old(speed) - amount / 2)
    {
      speed := U64(speed - amount / 2);
    }

    method IncTransferred(amount: nat)
      modifies this`transferred
      ensures transferred == U64(old(transferred) + amount / 2)
    {
      transferred := U64(transferred + amount / 2);
    }
  }

  class Peer {
    const user: User?
    var downloaded: nat
    var uploaded: nat
    var totalDownloaded: nat
    var totalUploaded: nat
    var downSpeed: nat
    var upSpeed: nat
    var left: nat
    var completed: bool
    var active: bool
    const ip: string
    const port: nat
    const hexIPPort: string
    const peerID: string
    const torrentID: nat
    const client: string
    var timespent: nat
    var lastUpdate: int
    var corrupt: nat
    ghost const home: Peers
    ghost const birth: Birth
    ghost var paid: Paid

    /** The corrupt counter, which the source leaves unset here, starts at 0. */
    constructor (r: Announcement, user: User?, torrentID: nat, ghost home: Peers)
      ensures Val() == NewPeer(r, RefOf(user), torrentID)
      ensures this.home == home && this.peerID == r.peerID && this.user == user && this.torrentID == torrentID
    {
      this.user, this.torrentID, this.home := user, torrentID, home;
      totalDownloaded, totalUploaded := r.downloaded, r.uploaded;
      downloaded, uploaded := 0, 0;
      left := r.left;
      completed := r.left == 0;
      active := true;
      ip, port := r.ip, r.port;
      hexIPPort := IpPortEncode(r.address, r.port);
      peerID := r.peerID;
      client := r.client;
      timespent := 0;
      lastUpdate := r.clock;
      downSpeed, upSpeed := 0, 0;
      corrupt := 0;
      birth := Birth(r.downloaded, r.uploaded, r.clock, r.address);
      paid := Paid(0, 0, 0);
    }

    ghost function Val(): PeerV
      reads this
    {
      PeerV(RefOf(user), downloaded, uploaded, totalDownloaded, totalUploaded, downSpeed, upSpeed, left, completed,
            active, ip, port, hexIPPort, peerID, torrentID, client, timespent, lastUpdate, corrupt, birth, paid)
    }

    method Transfer(announcedDownloaded: nat, announcedUploaded: nat)
      modifies this`downloaded, this`totalDownloaded, this`uploaded, this`totalUploaded
      ensures Val() == old(Val()).(
                downloaded := U64(announcedDownloaded - old(totalDownloaded)), totalDownloaded := announcedDownloaded,
                uploaded := U64(announcedUploaded - old(totalUploaded)), totalUploaded := announcedUploaded)
    {
      downloaded := U64(announcedDownloaded - totalDownloaded);
      totalDownloaded := announcedDownloaded;
      uploaded := U64(announcedUploaded - totalUploaded);
      totalUploaded := announcedUploaded;
    }

    method SetSpeeds(span: int)
      modifies this`downSpeed, this`upSpeed
      ensures Val() == old(Val()).(downSpeed := Rate(downloaded, span), upSpeed := Rate(uploaded, span))
    {
      downSpeed := Rate(downloaded, span);
      upSpeed := Rate(uploaded, span);
    }

    method UpdateStats(announcedDownloaded: nat, announcedUploaded: nat, announcedLeft: nat, announcedCorrupt: nat,
                       now: int, stats: Stats)
      modifies this, stats`speed, stats`transferred
      ensures Val() == Tracker.UpdateStats(old(Val()), announcedDownloaded, announcedUploaded, announcedLeft,
                                           announcedCorrupt, now)
      ensures stats.Val() == UpdateGauges(old(stats.Val()), old(Val()), Val())
    {
      hide U32, U64, Rate;
      Transfer(announcedDownloaded, announcedUploaded);
      stats.IncTransferred(U64(downloaded + uploaded));
      stats.DecSpeed(U32(downSpeed + upSpeed));
      SetSpeeds(now - lastUpdate);
      stats.IncSpeed(U32(downSpeed + upSpeed));
      left := announcedLeft;
      corrupt := U32(announcedCorrupt);
      timespent := U64(timespent + (now - lastUpdate));
      lastUpdate := now;
    }

    method Complete()
      modifies this
      ensures Val() == old(Val()).(completed := true)
    {
      completed := true;
    }

    method Inactive()
      modifies this
      ensures Val() == old(Val()).(active := false)
    {
      active := false;
    }

    /** Reading the time counter resets it. */
    method GetTimespent() returns (t: nat)
      modifies this
      ensures t == old(timespent) && Val() == Drained(old(Val()))
    {
      t := timespent;
      timespent := 0;
      paid := paid.(time := paid.time + t);
    }

    /** History only: the last deltas went to the user. */
    ghost method Pay()
      modifies this`paid
      ensures Val() == Paying(old(Val()))
    {
      paid := paid.(downloaded := paid.downloaded + U32(downloaded), uploaded := paid.uploaded + U32(uploaded));
    }
  }

  /** The three tables of the model, each with its own buffer. */
  class MySQL {
    const mode: Mode
    const users: Buffer<UserRow>
    const torrents: Buffer<TorrentRow>
    const peers: Buffer<PeerRow>

    constructor (mode: Mode)
      ensures this.mode == mode && fresh(users) && fresh(torrents) && fresh(peers)
      ensures users.Val() == Queue([], [], [], 0, None) && users.Log() == []
      ensures torrents.Val() == Queue([], [], [], 0, None) && torrents.Log() == []
      ensures peers.Val() == Queue([], [], [], 0, None) && peers.Log() == []
    {
      this.mode := mode;
      users := new Buffer<UserRow>();
      torrents := new Buffer<TorrentRow>();
      peers := new Buffer<PeerRow>();
    }

    /** The main loop's flush of the three tables. */
    method Flush()
      modifies users, torrents, peers
      ensures users.Flushed() && torrents.Flushed() && peers.Flushed()
      ensures users.Val() == Do(old(users.Val()), Move.Flush) && users.Log() == old(users.Log())
      ensures torrents.Val() == Do(old(torrents.Val()), Move.Flush) && torrents.Log() == old(torrents.Log())
      ensures peers.Val() == Do(old(peers.Val()), Move.Flush) && peers.Log() == old(peers.Log())
    {
      hide Do;
      users.Flush();
      torrents.Flush();
      peers.Flush();
    }

    /** A user with pending credit gets a row and is reset; any other is left alone. */
    method RecordUser(u: User)
      modifies users`requests, u
      ensures u.Val() == Tracker.Reset(old(u.Val()))
      ensures users.requests == old(users.requests) + UserRows(old(u.Val()))
    {
      if u.downloaded != 0 || u.uploaded != 0 {
        users.Push(UserRow(u.id, u.downloaded, u.uploaded));
        u.Reset();
      }
    }

    method RecordTorrent(t: Torrent)
      modifies torrents`requests
      ensures torrents.requests == old(torrents.requests) + [TorrentRowOf(old(t.Val()))] && t.Val() == old(t.Val())
    {
      hide TorrentRowOf, Peers.Val;
      t.Row();
      torrents.Push(TorrentRow(t.id, |t.seeders.pMap| + |t.seeders6.pMap|, |t.leechers.pMap| + |t.leechers6.pMap|,
                               t.snatches, t.balance));
    }

    /** Recording a peer reads out its time counter. */
    method RecordPeer(p: Peer)
      requires mode.Private? ==> p.user != null
      modifies peers`requests, p
      ensures p.Val() == Drained(old(p.Val()))
      ensures peers.requests == old(peers.requests) + [PeerRowOf(mode, old(p.Val()))]
    {
      var timespent := p.GetTimespent();
      peers.Push(PeerRow(if mode.Private? then p.user.id else 0,
                         p.active, p.completed, p.totalDownloaded, p.totalUploaded,
                         p.left, p.upSpeed, p.downSpeed, p.corrupt, timespent, p.client, p.peerID, p.torrentID, p.ip,
                         if p.active then None else Some(p.lastUpdate)));
    }
  }

  /** The rotation's iterator: behind the last peer, or at the peer with this id, which may have been erased since. */
  datatype Cursor = AtEnd | AtPeer(id: string)

  /** An unordered_map iterates in an order of its own choosing, and insertion may change it altogether. */
  method Rehash(order: seq<string>, keys: set<string>, id: string) returns (order': seq<string>)
    requires Visits(order, keys)
    ensures Visits(order', keys + {id})
  {
    order' := if id in keys then order else order + [id];
    assert id in keys ==> keys + {id} == keys;
  }

  class Peers {
    ghost const infoHash: string
    ghost const slot: Slot
    ghost const owner: object
    var pMap: map<string, Peer>
    var order: seq<string>
    var cursor: Cursor

    constructor (ghost infoHash: string, ghost slot: Slot, ghost owner: object)
      ensures Valid() && pMap == map[] && cursor == AtEnd
      ensures this.infoHash == infoHash && this.slot == slot && this.owner == owner
    {
      this.infoHash, this.slot, this.owner := infoHash, slot, owner;
      pMap, order, cursor := map[], [], AtEnd;
    }

    ghost predicate Valid()
      reads this
    {
      && Visits(order, pMap.Keys)
      && forall k :: k in pMap ==> pMap[k].peerID == k && pMap[k].home == this
    }

    ghost function Val(): PeerMap
      reads this`pMap, pMap.Values
    {
      map k | k in pMap :: pMap[k].Val()
    }

    function GetPeer(peerID: string): Peer?
      reads this
    {
      if peerID in pMap then pMap[peerID] else null
    }

    method AddPeer(r: Announcement, user: User?, torrentID: nat, stats: Stats) returns (p: Peer)
      requires Valid()
      modifies this`pMap, this`order, stats`peers
      ensures Valid() && r.peerID in pMap && p == pMap[r.peerID]
      ensures r.peerID in old(pMap) ==> pMap == old(pMap)
      ensures r.peerID !in old(pMap) ==>
                fresh(p) && pMap == old(pMap)[r.peerID := p] && p.Val() == NewPeer(r, RefOf(user), torrentID)
                && p.user == user && p.torrentID == torrentID
      ensures Val() == old(Val())[r.peerID := p.Val()]
      ensures stats.peers == U64(old(stats.peers) + 1)
    {
      hide NewPeer, Visits;
      order := Rehash(order, pMap.Keys, r.peerID);
      if r.peerID !in pMap {
        var q := new Peer(r, user, torrentID, this);
        pMap := pMap[r.peerID := q];
        assert pMap.Keys == old(pMap.Keys) + {r.peerID};
      } else {
        assert pMap.Keys + {r.peerID} == pMap.Keys;
      }
      stats.IncPeers();
      p := pMap[r.peerID];
      EntryIn(r.peerID, p);
    }

    twostate lemma EntryIn(id: string, new p: Peer)
      requires pMap == old(pMap)[id := p] && unchanged(old(pMap.Values))
      ensures Val() == old(Val())[id := p.Val()]
    {
      forall k | k in pMap && k != id ensures pMap[k].Val() == old(pMap[k].Val()) {}
    }

    /** The statistic falls even when there was nothing to erase; the cursor is not repaired. */
    method RemovePeer(peerID: string, stats: Stats)
      requires Valid()
      modifies this`pMap, this`order, stats`peers
      ensures Valid() && pMap == old(pMap) - {peerID} && Val() == old(Val()) - {peerID}
      ensures CursorOk() <==> old(CursorOk()) && cursor != AtPeer(peerID)
      ensures stats.peers == U64(old(stats.peers) - 1)
    {
      hide Peers.Val;
      Erase(peerID);
      stats.DecPeers();
    }

    method Erase(id: string)
      requires Valid()
      modifies this`pMap, this`order
      ensures Valid() && pMap == old(pMap) - {id} && Val() == old(Val()) - {id}
      ensures CursorOk() <==> old(CursorOk()) && cursor != AtPeer(id)
    {
      hide Visits;
      WithoutVisits(order, id, pMap.Keys);
      order := Without(order, id);
      assert pMap.Keys - {id} == (pMap - {id}).Keys;
      pMap := pMap - {id};
    }

    lemma IsListed()
      requires Valid()
      ensures Listed(Val(), order) && |Val()| == |pMap|
    {
      SameSize(pMap, Val());
      forall i | 0 <= i < |order| ensures order[i] in Val() { assert order[i] in order; }
    }

    lemma HexOf(id: string)
      requires id in pMap
      ensures id in Val() && Val()[id].hexIPPort == pMap[id].hexIPPort
    {}

    /** The cursor points behind the last peer or at a peer that is still there. */
    predicate CursorOk()
      reads this
    {
      cursor.AtPeer? ==> cursor.id in pMap
    }

    /** Where the rotation goes on; of no meaning when the cursor's peer was erased. */
    ghost function Position(): (p: nat)
      reads this
      ensures p <= |order| && (Valid() && CursorOk() && cursor.AtPeer? ==> p < |order| && order[p] == cursor.id)
    {
      match cursor
      case AtEnd => |order|
      case AtPeer(id) => if id in order then IndexOf(order, id) else |order|
    }

    /** The loop wraps at most once: behind the end it goes to the first peer, and at a peer it returns. */
    method NextPeer() returns (p: Peer?)
      requires Valid() && CursorOk()
      modifies this`cursor
      ensures Valid() && CursorOk()
      ensures order == [] ==> p == null && cursor == old(cursor)
      ensures order != [] ==>
                var k := if old(Position()) == |order| then 0 else old(Position());
                order[k] in pMap && p == pMap[order[k]] && p.peerID == order[k] && Position() == k + 1
    {
      while |pMap| > 0
        invariant Valid() && CursorOk()
        invariant old(Position()) < |order| ==> Position() == old(Position())
        invariant old(Position()) == |order| ==> 
                      (Position() == |order| && cursor == old(cursor)) || (order != [] && Position() == 0)
        decreases if cursor.AtEnd? then 1 else 0
      {
        VisitsNothing(order, pMap.Keys);
        if cursor.AtEnd? {
          cursor := AtPeer(order[0]);
          IndexUnique(order, 0);
        } else {
          var id := cursor.id;
          assert id in order;
          var k := IndexOf(order, id);
          cursor := if k + 1 < |order| then AtPeer(order[k + 1]) else AtEnd;
          if k + 1 < |order| { IndexUnique(order, k + 1); }
          return pMap[id];
        }
      }
      VisitsNothing(order, pMap.Keys);
      p := null;
    }

    /** A timed-out peer is made inactive and recorded, unless the tracker is public, and erased. */
    method Expire(id: string, db: MySQL) returns (ghost gone: PeerV)
      requires Valid() && id in pMap && (db.mode.Private? ==> pMap[id].user != null)
      modifies this`pMap, this`order, pMap[id], db.peers`requests
      ensures Valid() && pMap == old(pMap) - {id} && Val() == old(Val()) - {id}
      ensures gone == Expired(old(pMap[id].Val()), db.mode)
      ensures db.peers.requests == old(db.peers.requests)
                                    + if db.mode.Public? then []
                                      else [PeerRowOf(db.mode, old(pMap[id].Val()).(active := false))]
    {
      hide PeerRowOf, Visits, Peers.Val;
      var p := pMap[id];
      label start:
      gone := p.Val();
      if !db.mode.Public? {
        p.Inactive();
        assert p.Val() == gone.(active := false);
        db.RecordPeer(p);
        gone := p.Val();
      }
      OthersSame@start(p);
      Erase(id);
    }

    /** Changing the object p changes the value of its own entry only. */
    twostate lemma OthersSame(p: Peer)
      requires old(Valid()) && pMap == old(pMap) && p.peerID in pMap && pMap[p.peerID] == p
      requires forall k :: k in pMap && k != p.peerID ==> pMap[k].Val() == old(pMap[k].Val())
      ensures Val() - {p.peerID} == old(Val()) - {p.peerID} && Val() == old(Val())[p.peerID := p.Val()]
    {
    }

    twostate lemma Same()
      requires pMap == old(pMap) && forall k :: k in pMap ==> pMap[k].Val() == old(pMap[k].Val())
      ensures Val() == old(Val())
    {}

    /** The sweep comes to one peer; `one` is that step from empty logs. */
    method Look(id: string, now: int, timeout: int, db: MySQL) returns (changed: nat, ghost one: SlotSwept)
      requires Valid() && (db.mode.Private? ==> id in pMap ==> pMap[id].user != null)
      modifies this`pMap, this`order, pMap.Values, db.peers`requests
      ensures Valid() && forall k :: k in pMap ==> k in old(pMap) && pMap[k] == old(pMap)[k]
      ensures one == SlotStep(SlotSwept(old(Val()), [], [], 0), id, db.mode, now, timeout)
      ensures Val() == one.peers && db.peers.requests == old(db.peers.requests) + one.rows && changed == one.changed
      ensures if id in old(pMap) && now - old(pMap[id].lastUpdate) > timeout then
                pMap == old(pMap) - {id} && changed == 1
                && db.peers.requests
                   == old(db.peers.requests) + if db.mode.Public? then []
                                               else [InactiveRow(db.mode, old(pMap[id].Val()))]
              else pMap == old(pMap) && changed == 0 && db.peers.requests == old(db.peers.requests)
    {
      hide PeerRowOf, Expired, Visits, InactiveRow;
      if id in pMap { InactiveRowIs(db.mode, pMap[id].Val()); }
      one := SlotStep(SlotSwept(Val(), [], [], 0), id, db.mode, now, timeout);
      changed := 0;
      assert id in pMap ==> Val()[id] == pMap[id].Val();
      if id in pMap && now - pMap[id].lastUpdate > timeout {
        ghost var gone := Expire(id, db);
        changed := 1;
      }
    }

    /** The peers are visited in iteration order, the order before the sweep. */
    method TimedOut(now: int, timeout: int, db: MySQL) returns (changed: nat, ghost gone: seq<PeerV>)
      requires Valid() && (db.mode.Private? ==> forall k :: k in pMap ==> pMap[k].user != null)
      modifies this`pMap, this`order, pMap.Values, db.peers`requests
      ensures Valid()
      ensures forall k :: k in pMap ==> k in old(pMap) && pMap[k] == old(pMap)[k]
      ensures var s := SweepSlot(old(Val()), old(order), db.mode, now, timeout);
              Val() == s.peers && db.peers.requests == old(db.peers.requests) + s.rows && gone == s.gone
                && changed == s.changed
      ensures forall k :: k in pMap <==> k in old(pMap) && now - old(pMap[k].lastUpdate) <= timeout
      ensures changed == |old(pMap)| - |pMap|
    {
      hide SlotStep, Visits, InactiveRow, Peers.Val, NewPeer, Peer.Val, Peers.CursorOk, Peers.Position, Heard;
      changed, gone := 0, [];
      var ids := order;
      var i := 0;
      ghost var s := SlotSwept(Val(), [], [], 0);
      while i < |ids|
        invariant i <= |ids| && Valid()
        invariant forall k :: k in pMap ==> k in old(pMap) && pMap[k] == old(pMap)[k]
        invariant s == SweepSlot(old(Val()), ids[..i], db.mode, now, timeout)
        invariant Val() == s.peers && db.peers.requests == old(db.peers.requests) + s.rows && gone == s.gone
                  && changed == s.changed
      {
        assert ids[..i + 1][..i] == ids[..i];
        var more: nat;
        ghost var one: SlotSwept;
        StepFromEmpty(s, ids[i], db.mode, now, timeout);
        more, one := Look(ids[i], now, timeout, db);
        s := SlotStep(s, ids[i], db.mode, now, timeout);
        changed, gone := changed + more, gone + one.gone;
        i := i + 1;
      }
      assert ids[..i] == ids;
      Spared(old(Val()), s, db.mode, now, timeout);
    }

    /** The peers that a whole sweep of the set leaves. */
    twostate lemma Spared(new m: PeerMap, new s: SlotSwept, new mode: Mode, new now: int, timeout: int)
      requires old(Valid()) && m == old(Val()) && s == SweepSlot(m, old(order), mode, now, timeout) && Val() == s.peers
      ensures forall k :: k in pMap <==> k in old(pMap) && now - old(pMap[k].lastUpdate) <= timeout
      ensures s.changed == |old(pMap)| - |pMap|
    {
      hide Visits, SweepSlot;
      assert m.Keys == old(pMap).Keys;
      SlotHeard(m, old(order), mode, now, timeout);
      SameSize(pMap, Val());
      SameSize(old(pMap), m);
      forall k ensures k in pMap <==> k in old(pMap) && now - old(pMap[k].lastUpdate) <= timeout {
        assert k in pMap <==> k in Val();
        assert k in m <==> k in old(pMap);
      }
    }
  }

  /** A private tracker's peers point to users it once knew; elsewhere they point to none. */
  ghost predicate Belongs(u: User?, mode: Mode, users: seq<User>) {
    if mode.Private? then u != null && u.handle < |users| && users[u.handle] == u else u == null
  }

  class Torrent {
    const id: nat
    ghost const infoHash: string
    ghost const owner: object
    var free: nat
    var snatches: nat
    var balance: int
    const seeders: Peers
    const seeders6: Peers
    const leechers: Peers
    const leechers6: Peers
    ghost const balance0: int
    ghost var departed: seq<PeerV>

    constructor (id: nat, free: nat, snatches: nat, balance: int, ghost infoHash: string, ghost owner: object)
      ensures Valid() && fresh(seeders) && fresh(seeders6) && fresh(leechers) && fresh(leechers6)
      ensures Val() == TorrentV(id, free, snatches, balance, map[], map[], map[], map[], [], balance)
      ensures this.infoHash == infoHash && this.owner == owner && Objects() == {}
    {
      this.id, this.free, this.snatches, this.balance := id, free, snatches, balance;
      this.infoHash, this.owner := infoHash, owner;
      balance0, departed := balance, [];
      seeders := new Peers(infoHash, Seeders, owner);
      seeders6 := new Peers(infoHash, Seeders6, owner);
      leechers := new Peers(infoHash, Leechers, owner);
      leechers6 := new Peers(infoHash, Leechers6, owner);
    }

    function Set(s: Slot): Peers {
      match s
      case Seeders => seeders
      case Seeders6 => seeders6
      case Leechers => leechers
      case Leechers6 => leechers6
    }

    function Sets(): set<Peers> { {seeders, seeders6, leechers, leechers6} }

    /** The peers of all four sets. */
    ghost function Objects(): set<Peer>
      reads Sets()`pMap
    {
      seeders.pMap.Values + seeders6.pMap.Values + leechers.pMap.Values + leechers6.pMap.Values
    }

    ghost predicate Valid()
      reads Sets()
    {
      forall s: Slot :: Set(s).Valid() && Set(s).infoHash == infoHash && Set(s).slot == s && Set(s).owner == owner
    }

    ghost function Val(): TorrentV
      reads this, Sets(), Objects()
    {
      TorrentV(id, free, snatches, balance, seeders.Val(), seeders6.Val(), leechers.Val(), leechers6.Val(), departed,
               balance0)
    }

    lemma Row()
      ensures TorrentRowOf(Val()) == TorrentRow(id, |seeders.pMap| + |seeders6.pMap|,
                                                |leechers.pMap| + |leechers6.pMap|, snatches, balance)
    {
      Sizes();
    }

    /** The sets are as they were, whatever happened to their cursors. */
    twostate lemma SameSets()
      requires old(Valid()) && unchanged(this)
      requires forall s: Slot :: Set(s).Valid() && Set(s).Val() == old(Set(s).Val())
      ensures Valid() && Val() == old(Val())
    {
      hide Peers.Val, Peers.Valid;
      assert Set(Seeders) == seeders && Set(Seeders6) == seeders6;
      assert Set(Leechers) == leechers && Set(Leechers6) == leechers6;
    }

    lemma Sizes()
      ensures |Val().seeders| == |seeders.pMap| && |Val().seeders6| == |seeders6.pMap|
      ensures |Val().leechers| == |leechers.pMap| && |Val().leechers6| == |leechers6.pMap|
    {
      SameSize(seeders.pMap, seeders.Val());
      SameSize(seeders6.pMap, seeders6.Val());
      SameSize(leechers.pMap, leechers.Val());
      SameSize(leechers6.pMap, leechers6.Val());
    }

    method SetBalance(balance: int)
      modifies this`balance
      ensures Val() == old(Val()).(balance := I64(old(Val()).balance + balance))
    {
      hide I64, Peers.Val;
      this.balance := I64(this.balance + balance);
    }

    method SetFree(free: nat)
      modifies this`free
      ensures Val() == old(Val()).(free := free)
    {
      hide Peers.Val;
      this.free := free;
    }

    method IncSnatches()
      modifies this`snatches
      ensures Val() == old(Val()).(snatches := U32(old(Val()).snatches + 1))
    {
      hide U32, Peers.Val;
      snatches := U32(snatches + 1);
    }

    ghost predicate Known(mode: Mode, users: seq<User>)
      reads Sets()
    {
      forall s: Slot, k :: k in Set(s).pMap ==> Belongs(Set(s).pMap[k].user, mode, users)
    }

    /** Peers of different sets are different objects, and so are the sets. */
    lemma Apart(s: Slot, u: Slot)
      requires Valid() && s != u
      ensures Set(s) != Set(u) && Set(s).pMap.Values !! Set(u).pMap.Values
    {
      forall p | p in Set(s).pMap.Values ensures p !in Set(u).pMap.Values {
        assert p.home == Set(s);
      }
    }

    lemma ApartFrom(s: Slot)
      requires Valid()
      ensures forall u: Slot :: u != s ==> Set(s) != Set(u) && Set(s).pMap.Values !! Set(u).pMap.Values
    {
      forall u: Slot | u != s { Apart(s, u); }
    }

    /** The value of one set changed, by a change to that set and its peers. */
    twostate lemma OneSet(s: Slot)
      requires old(Valid()) && old(allocated(this))
      requires forall u: Slot :: u != s ==> Set(u).Val() == old(Set(u).Val())
      requires unchanged(this)
      ensures Val() == WithSet(old(Val()), s, Set(s).Val()) && old(Val().Get(s)) == old(Set(s).Val())
    {
      hide Peers.Val;
      assert Set(Seeders) == seeders && Set(Seeders6) == seeders6 && Set(Leechers) == leechers
          && Set(Leechers6) == leechers6;
    }

    lemma EmptyIs()
      ensures Empty(Val()) <==>
                |seeders.pMap| == 0 && |seeders6.pMap| == 0 && |leechers.pMap| == 0 && |leechers6.pMap| == 0
    {
      Sizes();
      hide Peers.Val;
    }

    twostate lemma SameKnown(new mode: Mode, users: seq<User>)
      requires old(allocated(this)) && forall s: Slot :: Set(s).pMap == old(Set(s).pMap)
      ensures old(Known(mode, users)) ==> Known(mode, users)
    {
      hide Belongs;
    }

    lemma KnownToMore(mode: Mode, users: seq<User>, more: seq<User>)
      requires Known(mode, users) && users <= more
      ensures Known(mode, more)
    {}

    lemma NobodyKnown(mode: Mode, users: seq<User>)
      requires Objects() == {}
      ensures Known(mode, users)
    {
      forall s: Slot ensures Set(s).pMap.Values <= Objects() {}
    }

    /** Nothing of the torrent was touched. */
    twostate lemma Untouched(new mode: Mode, users: seq<User>)
      requires old(allocated(this)) && unchanged(this)
      requires unchanged(Sets())
      requires unchanged(old(Objects()))
      ensures Val() == old(Val()) && (old(Valid()) ==> Valid())
      ensures old(Known(mode, users)) ==> Known(mode, users)
    {
      hide Belongs;
    }

    lemma Owner(s: Slot, id: string, mode: Mode, users: seq<User>)
      requires Valid() && Known(mode, users) && id in Set(s).pMap
      ensures Belongs(Set(s).pMap[id].user, mode, users) && Set(s).pMap[id].peerID == id
    {}

    lemma Gets(id: string, s: Slot)
      ensures Val().Get(s) == Set(s).Val() && ColumnOf(Val(), id).Get(s) == Find(Set(s).Val(), id)
      ensures id in Set(s).pMap <==> Find(Set(s).Val(), id).Some?
      ensures id in Set(s).pMap ==> Find(Set(s).Val(), id) == Some(Set(s).pMap[id].Val())
    {}

    /** One peer's object changed. */
    twostate lemma OnePeer(s: Slot, new p: Peer)
      requires old(Valid()) && old(allocated(this))
      requires unchanged(this)
      requires unchanged(Sets())
      requires forall q :: q in old(Objects()) && q != p ==> q.Val() == old(q.Val())
      requires p.peerID in Set(s).pMap && Set(s).pMap[p.peerID] == p
      ensures Valid()
      ensures Val() == WithColumn(old(Val()), p.peerID, ColumnOf(old(Val()), p.peerID).Put(s, Some(p.Val())))
    {
      hide Val, Peers.Val;
      ApartFrom(s);
      Set(s).OthersSame(p);
      forall u: Slot | u != s ensures Set(u).Val() == old(Set(u).Val()) { Set(u).Same(); }
      OneSet(s);
      PutIsWithSet(old(Val()), p.peerID, s, Some(p.Val()));
    }

    method ClearSet(s: Slot, now: int, timeout: int, db: MySQL, ghost users: seq<User>) returns (changed: nat)
      requires Valid() && Known(db.mode, users)
      modifies this`departed, Set(s)`pMap, Set(s)`order, Set(s).pMap.Values, db.peers`requests
      ensures Valid() && Known(db.mode, users)
      ensures var x := SlotSweep(old(Val()), s, old(Set(s).order), db.mode, now, timeout);
              Val() == x.torrent && db.peers.requests == old(db.peers.requests) + x.rows && changed == x.changed
    {
      hide Peers.Val, PeerRowOf, Expired, Visits, SweepSlot;
      ghost var gone: seq<PeerV>;
      ApartFrom(s);
      changed, gone := Set(s).TimedOut(now, timeout, db);
      OneSet(s);
      Depart(gone);
    }

    /** All peers, set by set, each set in its iteration order. */
    ghost function Plan(): seq<Key>
      reads Sets()
    {
      KeysIn(Seeders, seeders.order) + KeysIn(Seeders6, seeders6.order) + KeysIn(Leechers, leechers.order)
      + KeysIn(Leechers6, leechers6.order)
    }

    lemma PlanVisits()
      requires Valid()
      ensures VisitsPeers(Plan(), Val())
    {
      hide Peers.Val, KeysIn, Visits;
      var a, b, c, d := KeysIn(Seeders, seeders.order), KeysIn(Seeders6, seeders6.order),
          KeysIn(Leechers, leechers.order), KeysIn(Leechers6, leechers6.order);
      SetKeys(Seeders);
      SetKeys(Seeders6);
      SetKeys(Leechers);
      SetKeys(Leechers6);
      forall k: Key ensures k in Plan() <==> k.id in Val().Get(k.slot) {
        Gets(k.id, k.slot);
        assert k in Plan() <==> k in a || k in b || k in c || k in d;
      }
      Distinct(a, b);
      Distinct(a + b, c);
      Distinct(a + b + c, d);
    }

    lemma SetKeys(s: Slot)
      requires Valid()
      ensures forall k: Key :: k in KeysIn(s, Set(s).order) <==> k.slot == s && k.id in Set(s).pMap
      ensures NoTwice(KeysIn(s, Set(s).order))
    {
      forall id | id in Set(s).order ensures Key(s, id) in KeysIn(s, Set(s).order) {
        assert KeysIn(s, Set(s).order)[IndexOf(Set(s).order, id)] == Key(s, id);
      }
    }

    /** Two of the sets, one after the other. */
    method ClearPair(s: Slot, u: Slot, now: int, timeout: int, db: MySQL, ghost users: seq<User>) returns (changed: nat)
      requires Valid() && Known(db.mode, users) && s != u
      modifies this`departed, Set(s)`pMap, Set(s)`order, Set(u)`pMap, Set(u)`order, Set(s).pMap.Values,
               Set(u).pMap.Values
      modifies db.peers`requests
      ensures Valid() && Known(db.mode, users)
      ensures var x := PairSweep(old(Val()), s, old(Set(s).order), u, old(Set(u).order), db.mode, now, timeout);
              Val() == x.torrent && db.peers.requests == old(db.peers.requests) + x.rows && changed == x.changed
    {
      hide SlotSweep, Val, Valid, Peers.Valid, Known, Peers.Val;
      Apart(s, u);
      ghost var log := db.peers.requests;
      ghost var a := SlotSweep(Val(), s, Set(s).order, db.mode, now, timeout);
      changed := ClearSet(s, now, timeout, db, users);
      assert Val() == a.torrent && db.peers.requests == log + a.rows;
      var n := ClearSet(u, now, timeout, db, users);
      changed := changed + n;
    }

    /** The four sets in the handler's order. */
    method ClearSets(now: int, timeout: int, db: MySQL, ghost users: seq<User>) returns (changed: nat)
      requires Valid() && Known(db.mode, users)
      modifies this`departed, Sets()`pMap, Sets()`order, Objects(), db.peers`requests
      ensures Valid() && Known(db.mode, users)
      ensures var x := FourSweep(old(Val()), old(seeders.order), old(seeders6.order), old(leechers.order),
                                 old(leechers6.order), db.mode, now, timeout);
              Val() == x.torrent && db.peers.requests == old(db.peers.requests) + x.rows && changed == x.changed
    {
      hide PairSweep, FourSweep, Val, Valid, Peers.Valid, Known, Peers.Val;
      FourIsTwoPairs(Val(), seeders.order, seeders6.order, leechers.order, leechers6.order, db.mode, now, timeout);
      Apart(Seeders, Leechers);
      Apart(Seeders, Leechers6);
      Apart(Seeders6, Leechers);
      Apart(Seeders6, Leechers6);
      ghost var log := db.peers.requests;
      ghost var a := PairSweep(Val(), Seeders, seeders.order, Seeders6, seeders6.order, db.mode, now, timeout);
      changed := ClearPair(Seeders, Seeders6, now, timeout, db, users);
      assert Val() == a.torrent && db.peers.requests == log + a.rows;
      var n := ClearPair(Leechers, Leechers6, now, timeout, db, users);
      changed := changed + n;
    }

    /** The peers leave as in the model's sweep, visited by the plan. */
    method ClearPeers(now: int, timeout: int, db: MySQL, ghost users: seq<User>) returns (changed: nat, ghost x: Swept)
      requires Valid() && Known(db.mode, users)
      modifies this`departed, Sets()`pMap, Sets()`order, Objects(), db.peers`requests
      ensures Valid() && Known(db.mode, users)
      ensures VisitsPeers(old(Plan()), old(Val()))
      ensures x == SweepPeers(old(Val()), old(Plan()), db.mode, now, timeout)
      ensures Val() == x.torrent && db.peers.requests == old(db.peers.requests) + x.rows && changed == x.changed
    {
      hide FourSweep, VisitsPeers, Val, Valid, Known, KeysIn;
      PlanVisits();
      PlanSweep(Val(), seeders.order, seeders6.order, leechers.order, leechers6.order, db.mode, now, timeout);
      x := SweepPeers(Val(), Plan(), db.mode, now, timeout);
      changed := ClearSets(now, timeout, db, users);
    }

    /** History only. */
    ghost method Depart(gone: seq<PeerV>)
      modifies this`departed
      ensures Val() == old(Val()).(departed := old(Val()).departed + gone)
    {
      hide Peers.Val;
      departed := departed + gone;
    }
  }
}
