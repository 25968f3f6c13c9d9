/** The request handler, changed in place: announces, sweeps and edits do what module Tracker says, and are answered. */
module Handler {
  import opened Words
  import opened Options
  import opened Ledger
  import opened Tracker
  import opened Swarm
  import opened Buffers
  import opened Slots
  import opened Pieces
  import opened Utility
  import opened Bans
  import opened Answer
  import opened Reply
  import opened Scrape
  import System
  import WriteBehind

  class RequestHandler {
    const mode: Mode
    const timeout: int
    const db: MySQL
    const stats: Stats
    var torMap: map<string, Torrent>
    var usrMap: map<string, User>
    var bannedIPs: set<string>
    var clientWhitelist: seq<string>
    var freeleech: bool
    ghost var users: seq<User>
    ghost var lost: seq<TorrentV>
    ghost var synced: set<string>

    constructor (mode: Mode, timeout: int, db: MySQL, stats: Stats)
      requires db.mode == mode && stats.peers < 0x1_0000_0000_0000_0000
      ensures Valid() && this.mode == mode && this.timeout == timeout && this.db == db && this.stats == stats
      ensures torMap == map[] && usrMap == map[] && bannedIPs == {} && clientWhitelist == [] && !freeleech
      ensures users == [] && lost == [] && synced == {}
    {
      this.mode, this.timeout, this.db, this.stats := mode, timeout, db, stats;
      torMap, usrMap, bannedIPs, clientWhitelist, freeleech := map[], map[], {}, [], false;
      users, lost, synced := [], [], {};
    }

    /** The peer under the announced id in one set, created if it is not there. */
    method FindOrAdd(peers: Peers, r: Announcement, user: User?, torrentID: nat) returns (p: Peer)
      requires peers.Valid()
      modifies peers`pMap, peers`order, stats`peers
      ensures peers.Valid() && r.peerID in peers.pMap && p == peers.pMap[r.peerID]
      ensures p.peerID == r.peerID && fresh(peers.pMap.Values - old(peers.pMap.Values))
      ensures forall k :: k in peers.pMap ==>
                (k in old(peers.pMap) && peers.pMap[k] == old(peers.pMap)[k]) || peers.pMap[k].user == user
      ensures var found := Find(old(peers.Val()), r.peerID);
              && peers.Val() == Store(old(peers.Val()), r.peerID,
                                      Some(FoundOr(found, NewPeer(r, RefOf(user), torrentID))))
              && stats.peers == if found.Some? then old(stats.peers) else U64(old(stats.peers) + 1)
    {
      hide NewPeer;
      StoreFound(peers.Val(), r.peerID);
      var q := peers.GetPeer(r.peerID);
      if q == null {
        q := peers.AddPeer(r, user, torrentID, stats);
      }
      p := q;
    }

    /** The same in one set of a torrent: it changes one column. */
    method FindOrAddIn(tor: Torrent, s: Slot, r: Announcement, user: User?) returns (p: Peer)
      requires tor.Valid() && tor.Known(mode, users) && Belongs(user, mode, users)
      modifies tor.Set(s)`pMap, tor.Set(s)`order, stats`peers
      ensures tor.Valid() && tor.Known(mode, users)
      ensures r.peerID in tor.Set(s).pMap && p == tor.Set(s).pMap[r.peerID] && p.peerID == r.peerID
      ensures fresh(tor.Set(s).pMap.Values - old(tor.Set(s).pMap.Values))
      ensures var c := ColumnOf(old(tor.Val()), r.peerID);
              && tor.Val() == WithColumn(old(tor.Val()), r.peerID,
                   c.Put(s, Some(FoundOr(c.Get(s), NewPeer(r, RefOf(user), tor.id)))))
              && stats.peers == if c.Get(s).Some? then old(stats.peers) else U64(old(stats.peers) + 1)
    {
      hide NewPeer, Peers.Val, Torrent.Val, WithColumn, Store, Belongs, Peers.Valid;
      tor.ApartFrom(s);
      tor.Gets(r.peerID, s);
      ghost var newcomer := NewPeer(r, RefOf(user), tor.id);
      p := FindOrAdd(tor.Set(s), r, user, tor.id);
      tor.OneSet(s);
      PutIsWithSet(old(tor.Val()), r.peerID, s, Some(FoundOr(Find(old(tor.Set(s).Val()), r.peerID), newcomer)));
    }

    /** A download that ends: the peer is complete and the torrent has one more snatch. */
    method CompletePeer(tor: Torrent, ghost s: Slot, p: Peer)
      requires tor.Valid() && tor.Known(mode, users) && p.peerID in tor.Set(s).pMap && p == tor.Set(s).pMap[p.peerID]
      modifies p, tor`snatches
      ensures tor.Valid() && tor.Known(mode, users)
      ensures var c := ColumnOf(old(tor.Val()), p.peerID);
              tor.Val() == WithColumn(old(tor.Val()), p.peerID, c.Put(s, Some(old(p.Val()).(completed := true)))).(
                             snatches := U32(old(tor.Val()).snatches + 1))
    {
      hide Torrent.Val, Peers.Val, Peer.Val, ColumnOf, Store, U32, Belongs;
      p.Complete();
      tor.OnePeer(s, p);
      tor.IncSnatches();
    }

    /** A leecher, or a peer that completes, is found or created among the leechers of its family. */
    method AdmitLeecher(tor: Torrent, r: Announcement, user: User?) returns (p: Peer?)
      requires tor.Valid() && tor.Known(mode, users) && Belongs(user, mode, users)
      modifies tor`snatches, tor.Set(LeechSlot(r))`pMap, tor.Set(LeechSlot(r))`order, tor.Set(LeechSlot(r)).pMap.Values
      modifies stats`peers
      ensures tor.Valid() && tor.Known(mode, users)
              && fresh(tor.Set(LeechSlot(r)).pMap.Values - old(tor.Set(LeechSlot(r)).pMap.Values))
      ensures var c := ColumnOf(old(tor.Val()), r.peerID);
              && tor.Val() == Snatched(WithColumn(old(tor.Val()), r.peerID,
                                Tracker.AdmitLeecher(c, r, NewPeer(r, RefOf(user), tor.id))), r)
              && stats.peers == if AddsLeecher(c, r) then U64(old(stats.peers) + 1) else old(stats.peers)
      ensures Leeching(r) ==> r.peerID in tor.Set(LeechSlot(r)).pMap && p == tor.Set(LeechSlot(r)).pMap[r.peerID]
    {
      hide NewPeer, Torrent.Val, Peers.Val, Peer.Val, WithColumn, ColumnOf, U32, U64, Torrent.Valid,
           Torrent.Known, Snatched, Tracker.AdmitLeecher;
      p := null;
      ghost var t, newcomer := tor.Val(), NewPeer(r, RefOf(user), tor.id);
      if !r.finished || r.event.Completed? {
        p := FindOrAddIn(tor, LeechSlot(r), r, user);
        tor.Gets(r.peerID, LeechSlot(r));
        if r.event.Completed? {
          CompletePeer(tor, LeechSlot(r), p);
        }
      }
      AdmittedLeecher(t, r, newcomer);
    }

    /** What a download costs, in percent off; only a private tracker asks. */
    function Price(tor: Torrent, p: Peer): nat
      requires mode.Private? ==> p.user != null
      reads this, tor, p.user
    {
      if !mode.Private? then 0
      else if freeleech || tor.id in p.user.tokens then 100
      else tor.free
    }

    /** A finished peer is looked for among the seeders of its family and the IPv4 leechers, and else created. */
    method AdmitSeeder(tor: Torrent, r: Announcement, user: User?, leecher: Peer?) returns (p: Peer, ghost s: Slot)
      requires tor.Valid() && tor.Known(mode, users) && Belongs(user, mode, users)
      requires Leeching(r) ==> r.peerID in tor.Set(LeechSlot(r)).pMap && leecher == tor.Set(LeechSlot(r)).pMap[r.peerID]
      modifies tor.Set(SeedSlot(r))`pMap, tor.Set(SeedSlot(r))`order, stats`peers
      ensures tor.Valid() && tor.Known(mode, users)
      ensures r.peerID in tor.Set(s).pMap && p == tor.Set(s).pMap[r.peerID]
              && (fresh(p) || p in old(tor.Set(s).pMap.Values))
      ensures var c := ColumnOf(old(tor.Val()), r.peerID);
              var c' := Tracker.AdmitSeeder(c, r, NewPeer(r, RefOf(user), tor.id));
              && tor.Val() == WithColumn(old(tor.Val()), r.peerID, c') && s == Target(c', r)
              && Books() == if AddsSeeder(c, r) then AddedBooks(old(Books()), 1) else old(Books())
    {
      hide NewPeer, Torrent.Val, Peers.Val, Peer.Val, WithColumn, ColumnOf, U64, Belongs, Peers.Valid;
      ghost var t := tor.Val();
      Rewritten(t, r.peerID, ColumnOf(t, r.peerID), ColumnOf(t, r.peerID));
      tor.Gets(r.peerID, SeedSlot(r));
      tor.Gets(r.peerID, Leechers);
      if r.finished {
        s := SeedSlot(r);
        var q := tor.Set(SeedSlot(r)).GetPeer(r.peerID);
        if q == null {
          s := Leechers;
          q := tor.leechers.GetPeer(r.peerID);
          if q == null {
            s := SeedSlot(r);
            q := FindOrAddIn(tor, SeedSlot(r), r, user);
          }
        }
        p := q;
      } else {
        s := LeechSlot(r);
        p := leecher;
      }
    }

    /** The announced figures reach the peer and the global statistics; what the balance moves by is returned. */
    method RefreshPeer(p: Peer, r: Announcement, free: nat) returns (balance: int)
      modifies p, stats`speed, stats`transferred
      ensures p.Val() == Refresh(old(p.Val()), r, mode, free)
      ensures balance == BalanceMove(old(p.Val()), p.Val(), r, mode)
      ensures stats.Val() == if mode.Private? then UpdateGauges(old(stats.Val()), old(p.Val()), p.Val())
              else old(stats.Val())
    {
      hide U32, U64, Tracker.UpdateStats;
      balance := 0;
      if r.event.Stopped? {
        p.Inactive();
      }
      if mode.Private? {
        balance := balance - U64(p.corrupt - r.corrupt);
        p.UpdateStats(U64(r.downloaded * (1 - free / 100)), r.uploaded, r.left, r.corrupt, r.now, stats);
        balance := balance - p.downloaded;
        balance := balance + p.uploaded;
      }
    }

    /** The peer is recorded, and its last deltas go to its user, who is recorded too. */
    method RecordAndCredit(p: Peer)
      requires mode == db.mode && (mode.Private? <==> p.user != null)
      modifies p, db.peers`requests, db.users`requests, if p.user == null then {} else {p.user}
      ensures p.Val() == Finish(old(p.Val()), mode)
      ensures db.peers.requests == old(db.peers.requests) + if mode.Public? then [] else [PeerRowOf(mode, old(p.Val()))]
      ensures !mode.Private? ==> p.user == null && db.users.requests == old(db.users.requests)
      ensures mode.Private? ==>
                p.user != null &&
                var u := Credited(old(p.user.Val()), old(p.Val()).downloaded, old(p.Val()).uploaded);
                p.user.Val() == Reset(u) && db.users.requests == old(db.users.requests) + UserRows(u)
    {
      hide PeerRowOf, UserRows, Credited, Reset;
      if !mode.Public? {
        db.RecordPeer(p);
      }
      if mode.Private? {
        p.user.UpdateStats(p.downloaded, p.uploaded);
        db.RecordUser(p.user);
        p.Pay();
      }
    }

    /** The same, in the torrent that holds the peer in set s; the torrent's balance moves along. */
    method RefreshPeerIn(tor: Torrent, ghost s: Slot, p: Peer, r: Announcement, free: nat)
      requires tor.Valid() && tor.Known(mode, users)
      requires r.peerID in tor.Set(s).pMap && p == tor.Set(s).pMap[r.peerID]
      modifies p, tor`balance, stats`speed, stats`transferred
      ensures tor.Valid() && tor.Known(mode, users) && p.Val() == Refresh(old(p.Val()), r, mode, free)
      ensures var t1 := WithColumn(old(tor.Val()), r.peerID, ColumnOf(old(tor.Val()), r.peerID).Put(s, Some(p.Val())));
              tor.Val() == t1.(balance := I64(t1.balance + BalanceMove(old(p.Val()), p.Val(), r, mode)))
      ensures stats.Val() == if mode.Private? then UpdateGauges(old(stats.Val()), old(p.Val()), p.Val())
              else old(stats.Val())
    {
      hide Torrent.Val, Peers.Val, Peer.Val, WithColumn, ColumnOf, I64, UpdateGauges, Refresh, BalanceMove, Belongs;
      var balance := RefreshPeer(p, r, free);
      tor.OnePeer(s, p);
      tor.SetBalance(balance);
    }

    method RecordAndCreditIn(tor: Torrent, ghost s: Slot, p: Peer)
      requires mode == db.mode && (mode.Private? <==> p.user != null) && tor.Valid() && tor.Known(mode, users)
      requires p.peerID in tor.Set(s).pMap && p == tor.Set(s).pMap[p.peerID]
      modifies p, db.peers`requests, db.users`requests, if p.user == null then {} else {p.user}
      ensures tor.Valid() && tor.Known(mode, users)
      ensures tor.Val() == WithColumn(old(tor.Val()), p.peerID,
                                      ColumnOf(old(tor.Val()), p.peerID).Put(s, Some(Finish(old(p.Val()), mode))))
      ensures db.peers.requests == old(db.peers.requests) + if mode.Public? then [] else [PeerRowOf(mode, old(p.Val()))]
      ensures !mode.Private? ==> p.user == null && db.users.requests == old(db.users.requests)
      ensures mode.Private? ==>
                p.user != null &&
                var u := Credited(old(p.user.Val()), old(p.Val()).downloaded, old(p.Val()).uploaded);
                p.user.Val() == Reset(u) && db.users.requests == old(db.users.requests) + UserRows(u)
    {
      hide Torrent.Val, Peers.Val, Peer.Val, WithColumn, ColumnOf, PeerRowOf, UserRows, Credited, Reset, Finish,
           Belongs, Visits;
      RecordAndCredit(p);
      tor.OnePeer(s, p);
    }

    /** What the announce does to the peer it is about, wherever that peer is, and to everything that counts it. */
    method UpdatePeer(tor: Torrent, ghost s: Slot, p: Peer, r: Announcement, free: nat)
      requires mode == db.mode && (mode.Private? <==> p.user != null) && tor.Valid() && tor.Known(mode, users)
      requires r.peerID in tor.Set(s).pMap && p == tor.Set(s).pMap[r.peerID] && p.peerID == r.peerID
      modifies p, tor`balance, stats`speed, stats`transferred
      modifies db.peers`requests, db.users`requests, if p.user == null then {} else {p.user}
      ensures tor.Valid() && tor.Known(mode, users)
      ensures tor.Val() == Updated(old(tor.Val()), r, s, old(p.Val()), Refresh(old(p.Val()), r, mode, free), mode)
      ensures var mid := Refresh(old(p.Val()), r, mode, free);
              && db.peers.requests == old(db.peers.requests) + (if mode.Public? then [] else [PeerRowOf(mode, mid)])
              && stats.Val() == if mode.Private? then UpdateGauges(old(stats.Val()), old(p.Val()), mid)
                 else old(stats.Val())
      ensures !mode.Private? ==> p.user == null && db.users.requests == old(db.users.requests)
      ensures mode.Private? ==>
                p.user != null &&
                var mid := Refresh(old(p.Val()), r, mode, free);
                var u := Credited(old(p.user.Val()), mid.downloaded, mid.uploaded);
                p.user.Val() == Reset(u) && db.users.requests == old(db.users.requests) + UserRows(u)
    {
      hide Torrent.Val, Peers.Val, Peer.Val, WithColumn, ColumnOf, I64, PeerRowOf, UserRows, Credited, Reset,
           UpdateGauges;
      hide Refresh, Finish, BalanceMove, Torrent.Known, Torrent.Valid, Peers.Valid;
      ghost var mid := Refresh(p.Val(), r, mode, free);
      UpdatedTwice(tor.Val(), r.peerID, s, mid, Finish(mid, mode), BalanceMove(p.Val(), mid, r, mode));
      RefreshPeerIn(tor, s, p, r, free);
      RecordAndCreditIn(tor, s, p);
    }

    method RemoveFrom(tor: Torrent, s: Slot, r: Announcement)
      requires tor.Valid() && tor.Known(mode, users)
      modifies tor`departed, tor.Set(s)`pMap, tor.Set(s)`order, stats`peers
      ensures tor.Valid() && tor.Known(mode, users)
      ensures tor.Val() == Removed(old(tor.Val()), r.peerID, s) && stats.peers == U64(old(stats.peers) - 1)
    {
      hide Peers.Val, Torrent.Val, ColumnOf, Store, Belongs, Peers.Valid, U64;
      StoreNone(tor.Set(s).Val(), r.peerID);
      tor.ApartFrom(s);
      tor.Gets(r.peerID, s);
      ghost var found := ColumnOf(tor.Val(), r.peerID).Get(s);
      tor.Set(s).RemovePeer(r.peerID, stats);
      tor.OneSet(s);
      PutIsWithSet(old(tor.Val()), r.peerID, s, None);
      tor.Depart(if found.Some? then [found.value] else []);
    }

    /** A stopped peer leaves the set of its family and state; a completed one is removed from the other family. */
    method LeavePeers(tor: Torrent, r: Announcement)
      requires tor.Valid() && tor.Known(mode, users)
      modifies tor`departed, tor.Sets()`pMap, tor.Sets()`order, stats`peers
      ensures tor.Valid() && tor.Known(mode, users) && tor.Val() == Left(old(tor.Val()), r)
      ensures Books() == LeftBooks(old(Books()), r)
    {
      hide Torrent.Val, Torrent.Valid, Torrent.Known, Removed, U64;
      match r.event
      case Stopped => RemoveFrom(tor, if r.finished then SeedSlot(r) else LeechSlot(r), r);
      case Completed => RemoveFrom(tor, if r.ipv6 then Leechers else Leechers6, r);
      case Updating =>
    }

    ghost predicate UsersOk()
      reads this`users
    {
      forall i :: 0 <= i < |users| ==> users[i].handle == i && users[i].owner == this
    }

    ghost function UsersVal(): seq<UserV>
      reads this`users, users
    {
      ValsOf(users)
    }

    /** What an announce moves besides its torrent. */
    ghost function Books(): BooksV
      reads this`users, users, stats, db.peers, db.users
    {
      BooksV(stats.Val(), UsersVal(), db.users.Log(), db.peers.Log())
    }

    twostate lemma OneUser(new u: User?)
      requires users == old(users) && UsersOk() && (u != null ==> u.handle < |users| && users[u.handle] == u)
      requires forall i :: 0 <= i < |users| && users[i] != u ==> users[i].Val() == old(users[i].Val())
      ensures UsersVal() == if u == null then old(UsersVal()) else old(UsersVal())[u.handle := u.Val()]
    {}

    /** `UpdatePeer` with its effect on the users told for all of them. */
    method UpdateAndPay(tor: Torrent, ghost s: Slot, p: Peer, r: Announcement, free: nat)
      requires mode == db.mode && tor.Valid() && tor.Known(mode, users) && UsersOk() && Belongs(p.user, mode, users)
      requires r.peerID in tor.Set(s).pMap && p == tor.Set(s).pMap[r.peerID] && p.peerID == r.peerID
      modifies p, tor`balance, stats`speed, stats`transferred, db.peers`requests, db.users`requests, users
      ensures tor.Valid() && tor.Known(mode, users)
      ensures tor.Val() == Updated(old(tor.Val()), r, s, old(p.Val()), Refresh(old(p.Val()), r, mode, free), mode)
      ensures Books() == MovedBooks(old(Books()), old(p.Val()), Refresh(old(p.Val()), r, mode, free), mode)
    {
      hide Torrent.Val, Peers.Val, Torrent.Known, Torrent.Valid, Peers.Valid, Updated, UpdateGauges, PeerRowOf;
      hide UserRows, Credited, Reset, Refresh;
      RefreshKeepsUser(p.Val(), r, mode, free);
      UpdatePeer(tor, s, p, r, free);
      OneUser(p.user);
    }

    ghost function TermsFor(tor: Torrent): Terms
      reads this`users, this`freeleech, tor`free, users
    {
      Terms(mode, tor.id, tor.free, freeleech, UsersVal())
    }

    lemma RefreshUser(p: Peer, r: Announcement, free: nat)
      requires Belongs(p.user, mode, users)
      ensures mode.Private? <==> Refresh(p.Val(), r, mode, free).user.Some?
    {
      RefreshKeepsUser(p.Val(), r, mode, free);
    }

    lemma TermsMode(tor: Torrent)
      ensures TermsFor(tor).mode == mode
    {}

    lemma PriceIs(tor: Torrent, r: Announcement, c: Column, newcomer: PeerV, leecher: Peer?)
      requires mode.Private?
      requires Leeching(r) ==>
        leecher != null && Belongs(leecher.user, mode, users) && c.Get(LeechSlot(r)) == Some(leecher.Val())
      ensures FreePercent(Tracker.AdmitSeeder(c, r, newcomer), r, TermsFor(tor))
           == if !Leeching(r) then 0 else if freeleech || tor.id in leecher.user.tokens then 100 else tor.free
    {}

    /** A leecher is admitted, seen from the books. */
    method CountLeecher(tor: Torrent, r: Announcement, user: User?) returns (leecher: Peer?)
      requires tor.Valid() && tor.Known(mode, users) && Belongs(user, mode, users)
      modifies tor`snatches, tor.Set(LeechSlot(r))`pMap, tor.Set(LeechSlot(r))`order, tor.Set(LeechSlot(r)).pMap.Values
      modifies stats`peers
      ensures tor.Valid() && tor.Known(mode, users)
      ensures fresh(tor.Set(LeechSlot(r)).pMap.Values - old(tor.Set(LeechSlot(r)).pMap.Values))
      ensures tor.Val() == WithLeecher(old(tor.Val()), r, NewPeer(r, RefOf(user), tor.id))
      ensures Books() == if AddsLeecher(ColumnOf(old(tor.Val()), r.peerID), r) then AddedBooks(old(Books()), 1)
              else old(Books())
      ensures Leeching(r) ==> r.peerID in tor.Set(LeechSlot(r)).pMap && leecher == tor.Set(LeechSlot(r)).pMap[r.peerID]
    {
      hide Torrent.Val, Peers.Val, Peer.Val, Torrent.Known, Torrent.Valid, Peers.Valid, WithColumn, ColumnOf,
           NewPeer, Tracker.AdmitLeecher, Snatched, U64, Belongs, RefOf;
      leecher := AdmitLeecher(tor, r, user);
    }

    /** A leecher is admitted and priced; who is no leecher pays the full price. */
    method AdmitPriced(tor: Torrent, r: Announcement, user: User?) returns (leecher: Peer?, free: nat)
      requires tor.Valid() && tor.Known(mode, users) && UsersOk() && Belongs(user, mode, users)
      modifies tor`snatches, tor.Set(LeechSlot(r))`pMap, tor.Set(LeechSlot(r))`order, tor.Set(LeechSlot(r)).pMap.Values
      modifies stats`peers
      ensures tor.Valid() && tor.Known(mode, users)
              && fresh(tor.Set(LeechSlot(r)).pMap.Values - old(tor.Set(LeechSlot(r)).pMap.Values))
      ensures tor.Val() == WithLeecher(old(tor.Val()), r, NewPeer(r, RefOf(user), tor.id))
      ensures Books() == if AddsLeecher(ColumnOf(old(tor.Val()), r.peerID), r) then AddedBooks(old(Books()), 1)
              else old(Books())
      ensures Leeching(r) ==> r.peerID in tor.Set(LeechSlot(r)).pMap && leecher == tor.Set(LeechSlot(r)).pMap[r.peerID]
      ensures mode.Private? ==>
                free == FreePercent(Tracker.AdmitSeeder(ColumnOf(tor.Val(), r.peerID), r,
                                                        NewPeer(r, RefOf(user), tor.id)), r, old(TermsFor(tor)))
    {
      hide Torrent.Val, Peers.Val, Peer.Val, Torrent.Known, Torrent.Valid, Peers.Valid, WithColumn, ColumnOf,
           NewPeer, FreePercent;
      hide Tracker.AdmitLeecher, Tracker.AdmitSeeder, WithLeecher, AddedBooks, AddsLeecher, RefOf;
      leecher := CountLeecher(tor, r, user);
      free := 0;
      if Leeching(r) {
        tor.Gets(r.peerID, LeechSlot(r));
        tor.Owner(LeechSlot(r), r.peerID, mode, users);
        free := Price(tor, leecher);
      }
      if mode.Private? {
        PriceIs(tor, r, ColumnOf(tor.Val(), r.peerID), NewPeer(r, RefOf(user), tor.id), leecher);
      }
    }

    /** The announcing peer is found or created, in the set the rest of the announce works on, and priced. */
    method AdmitPeer(tor: Torrent, r: Announcement, user: User?) returns (p: Peer, free: nat, ghost s: Slot)
      requires tor.Valid() && tor.Known(mode, users) && UsersOk() && Belongs(user, mode, users)
      requires Books().stats.peers < 0x1_0000_0000_0000_0000
      modifies tor`snatches, tor.Set(LeechSlot(r))`pMap, tor.Set(LeechSlot(r))`order, tor.Set(LeechSlot(r)).pMap.Values
      modifies tor.Set(SeedSlot(r))`pMap, tor.Set(SeedSlot(r))`order, stats`peers
      ensures tor.Valid() && tor.Known(mode, users)
      ensures r.peerID in tor.Set(s).pMap && p == tor.Set(s).pMap[r.peerID]
              && (fresh(p) || p in old(tor.Set(s).pMap.Values))
      ensures tor.Val() == Admitted(old(tor.Val()), r, NewPeer(r, RefOf(user), tor.id))
      ensures s == Target(ColumnOf(tor.Val(), r.peerID), r)
      ensures Books() == AddedBooks(old(Books()), Added(ColumnOf(old(tor.Val()), r.peerID), r))
      ensures mode.Private? ==> free == FreePercent(ColumnOf(tor.Val(), r.peerID), r, old(TermsFor(tor)))
    {
      hide Torrent.Val, Peers.Val, Peer.Val, Torrent.Known, Torrent.Valid, Peers.Valid, WithColumn, ColumnOf,
           NewPeer, FreePercent;
      hide Admitted, WithLeecher, Tracker.AdmitLeecher, Tracker.AdmitSeeder, Added, Books, AddedBooks, TermsFor,
           Target, AddsLeecher, AddsSeeder, UsersOk, RefOf;
      ghost var t, newcomer := tor.Val(), NewPeer(r, RefOf(user), tor.id);
      AdmittedParts(t, r, newcomer);
      AddedIs(ColumnOf(t, r.peerID), r, newcomer, Books());
      var leecher: Peer?;
      leecher, free := AdmitPriced(tor, r, user);
      p, s := AdmitSeeder(tor, r, user, leecher);
    }

    /** The peer moves on and is recorded, and leaves the sets the event takes it out of. */
    method ActOn(tor: Torrent, ghost s: Slot, p: Peer, r: Announcement, free: nat)
      requires mode == db.mode && tor.Valid() && tor.Known(mode, users) && UsersOk() && Belongs(p.user, mode, users)
      requires r.peerID in tor.Set(s).pMap && p == tor.Set(s).pMap[r.peerID] && p.peerID == r.peerID
      modifies p, tor`balance, tor`departed, tor.Sets()`pMap, tor.Sets()`order, stats
      modifies db.peers`requests, db.users`requests, users
      ensures tor.Valid() && tor.Known(mode, users)
      ensures var mid := Refresh(old(p.Val()), r, mode, free);
              && tor.Val() == Left(Updated(old(tor.Val()), r, s, old(p.Val()), mid, mode), r)
              && Books() == LeftBooks(MovedBooks(old(Books()), old(p.Val()), mid, mode), r)
    {
      hide Torrent.Val, Peers.Val, Peer.Val, Torrent.Known, Torrent.Valid, Peers.Valid, Updated, Left, PeerRowOf;
      hide PaymentOf, Refresh, U64, Belongs, UsersOk, UsersVal;
      UpdateAndPay(tor, s, p, r, free);
      LeavePeers(tor, r);
    }

    /** The same with what the rest of the announce needs to know of the peer. */
    method AdmitFor(tor: Torrent, r: Announcement, user: User?) returns (p: Peer, free: nat, ghost s: Slot)
      requires tor.Valid() && tor.Known(mode, users) && UsersOk() && Belongs(user, mode, users)
      requires Books().stats.peers < 0x1_0000_0000_0000_0000
      modifies tor`snatches, tor.Set(LeechSlot(r))`pMap, tor.Set(LeechSlot(r))`order, tor.Set(LeechSlot(r)).pMap.Values
      modifies tor.Set(SeedSlot(r))`pMap, tor.Set(SeedSlot(r))`order, stats`peers
      ensures tor.Valid() && tor.Known(mode, users)
      ensures r.peerID in tor.Set(s).pMap && p == tor.Set(s).pMap[r.peerID]
      ensures fresh(p) || p in old(tor.Set(s).pMap.Values)
      ensures Belongs(p.user, mode, users) && p.peerID == r.peerID
      ensures mode.Private? <==> Refresh(p.Val(), r, mode, free).user.Some?
      ensures tor.Val() == Admitted(old(tor.Val()), r, NewPeer(r, RefOf(user), tor.id))
      ensures ColumnOf(tor.Val(), r.peerID).Get(s) == Some(p.Val()) && s == Target(ColumnOf(tor.Val(), r.peerID), r)
      ensures Books() == AddedBooks(old(Books()), Added(ColumnOf(old(tor.Val()), r.peerID), r))
      ensures mode.Private? ==> free == FreePercent(ColumnOf(tor.Val(), r.peerID), r, old(TermsFor(tor)))
    {
      hide Torrent.Val, Peers.Val, Peer.Val, Torrent.Known, Torrent.Valid, Peers.Valid, Refresh, Belongs, UsersOk,
           Admitted, ColumnOf, NewPeer, Target, FreePercent, Added, Books, AddedBooks, RefOf, TermsFor;
      p, free, s := AdmitPeer(tor, r, user);
      tor.Owner(s, r.peerID, mode, users);
      tor.Gets(r.peerID, s);
      RefreshUser(p, r, free);
    }

    /** An accepted announce, but for the torrent's row and the reply. */
    method ServePeer(tor: Torrent, r: Announcement, user: User?) returns (ghost v: Visit)
      requires mode == db.mode && tor.Valid() && tor.Known(mode, users) && UsersOk() && Belongs(user, mode, users)
      requires Books().stats.peers < 0x1_0000_0000_0000_0000
      modifies tor`snatches, tor`balance, tor`departed, tor.Sets()`pMap, tor.Sets()`order, tor.Objects(), stats
      modifies db.peers`requests, db.users`requests, users
      ensures tor.Valid() && tor.Known(mode, users)
      ensures Served(r, old(TermsFor(tor)), NewPeer(r, RefOf(user), tor.id), old(tor.Val()), old(Books()), v,
                     tor.Val(), Books())
    {
      hide Torrent.Val, Peers.Val, Peer.Val, Torrent.Known, Torrent.Valid, Peers.Valid, Updated, Left, PeerRowOf,
           TorrentRowOf;
      hide PaymentOf, Refresh, U64, Belongs, UsersOk, UsersVal, Serve, Admitted, TorrentAfter, ColumnOf, NewPeer,
           Target, FreePercent, Added;
      hide Books, AddedBooks, MovedBooks, LeftBooks, RefOf, TermsFor;
      ghost var t, terms, newcomer := tor.Val(), TermsFor(tor), NewPeer(r, RefOf(user), tor.id);
      TermsMode(tor);
      var p: Peer, free: nat;
      ghost var s: Slot;
      p, free, s := AdmitFor(tor, r, user);
      ServedBy(t, r, terms, newcomer, free, p.Val());
      v := Serve(ColumnOf(t, r.peerID), r, terms, newcomer);
      ActOn(tor, s, p, r, free);
    }

    // -------------------------------------------------------------- the whole memory

    ghost function AllSets(): set<Peers>
      reads this`torMap
    {
      set t, s | t in torMap.Values && s in t.Sets() :: s
    }

    ghost function AllPeers(): set<Peer>
      reads this`torMap, AllSets()`pMap
    {
      set s, p | s in AllSets() && p in s.pMap.Values :: p
    }

    ghost predicate TorrentsOk()
      reads this`torMap, this`users, AllSets()
    {
      forall ih :: ih in torMap ==>
        torMap[ih].infoHash == ih && torMap[ih].owner == this && torMap[ih].Valid() && torMap[ih].Known(mode, users)
    }

    ghost predicate Valid()
      reads this, AllSets(), stats
    {
      mode == db.mode && UsersOk() && PasskeysOk() && TorrentsOk() && stats.peers < 0x1_0000_0000_0000_0000
    }

    ghost predicate PasskeysOk()
      reads this`usrMap, this`users
    {
      forall k :: k in usrMap ==> usrMap[k].handle < |users| && users[usrMap[k].handle] == usrMap[k]
    }

    ghost function TorrentsVal(): map<string, TorrentV>
      reads this`torMap, torMap.Values, AllSets(), AllPeers()
    {
      map ih | ih in torMap :: torMap[ih].Val()
    }

    ghost function Passkeys(): map<string, nat>
      reads this`usrMap
    {
      map k | k in usrMap :: usrMap[k].handle
    }

    ghost function Val(): World
      reads this, torMap.Values, AllSets(), AllPeers(), users, stats, db.users, db.torrents, db.peers
    {
      World(mode, timeout, TorrentsVal(), UsersVal(), Passkeys(), stats.Val(), freeleech, clientWhitelist, bannedIPs,
            db.users.Log(), db.torrents.Log(), db.peers.Log(), lost, synced)
    }

    /** Different torrents share nothing. */
    lemma TorrentsApart(x: string, y: string)
      requires TorrentsOk() && x in torMap && y in torMap && x != y
      ensures torMap[x] != torMap[y] && torMap[x].Sets() !! torMap[y].Sets()
              && torMap[x].Objects() !! torMap[y].Objects()
    {
      forall s: Slot, u: Slot
        ensures torMap[x].Set(s) != torMap[y].Set(u)
        ensures torMap[x].Set(s).pMap.Values !! torMap[y].Set(u).pMap.Values
      {
        assert torMap[x].Set(s).infoHash == x;
        forall p | p in torMap[x].Set(s).pMap.Values ensures p !in torMap[y].Set(u).pMap.Values {
          assert p.home == torMap[x].Set(s);
        }
      }
      var t, u := torMap[x], torMap[y];
      assert t.Sets() == {t.Set(Seeders), t.Set(Seeders6), t.Set(Leechers), t.Set(Leechers6)};
      assert u.Sets() == {u.Set(Seeders), u.Set(Seeders6), u.Set(Leechers), u.Set(Leechers6)};
    }

    /** One torrent's objects changed, whatever else did. */
    twostate lemma OneTorrent(ih: string)
      requires old(TorrentsOk()) && old(allocated(this)) && ih in torMap && torMap == old(torMap) && users == old(users)
      requires old(Alone(ih))
      requires torMap[ih].Valid() && torMap[ih].Known(mode, users)
      requires unchanged(old(torMap.Values - {torMap[ih]}))
      requires unchanged(old(AllSets() - torMap[ih].Sets()))
      requires unchanged(old(AllPeers() - torMap[ih].Objects()))
      ensures TorrentsOk() && TorrentsVal() == old(TorrentsVal())[ih := torMap[ih].Val()]
    {
      hide Torrent.Val, Torrent.Valid, Torrent.Known;
      forall x | x in torMap && x != ih
        ensures torMap[x].Val() == old(torMap[x].Val()) && torMap[x].Valid() && torMap[x].Known(mode, users)
      {
        Elsewhere(x, ih);
        torMap[x].Untouched(mode, users);
      }
    }

    twostate lemma Elsewhere(x: string, new ih: string)
      requires x in old(torMap) && ih in old(torMap) && x != ih && old(Alone(ih))
      requires unchanged(old(torMap.Values - {torMap[ih]}))
      requires unchanged(old(AllSets() - torMap[ih].Sets()))
      requires unchanged(old(AllPeers() - torMap[ih].Objects()))
      ensures unchanged(old(torMap[x]))
      ensures unchanged(old(torMap[x].Sets()))
      ensures unchanged(old(torMap[x].Objects()))
    {
      PartOf(x);
    }

    twostate lemma PartOf(x: string)
      requires x in old(torMap)
      ensures old(torMap[x] in torMap.Values && torMap[x].Sets() <= AllSets() && torMap[x].Objects() <= AllPeers())
    {}

    /** A torrent that nothing touched. */
    twostate lemma OldTorrent(x: string)
      requires x in old(torMap) && old(TorrentsOk()) && old(allocated(this))
      requires unchanged(old(torMap.Values))
      requires unchanged(old(AllSets()))
      requires unchanged(old(AllPeers()))
      ensures var t := old(torMap[x]);
              t.Val() == old(t.Val()) && t.Valid() && t.Known(mode, old(users)) && t.infoHash == x && t.owner == this
    {
      hide Torrent.Val, Torrent.Valid, Torrent.Known;
      PartOf(x);
      old(torMap[x]).Untouched(mode, old(users));
    }

    twostate lemma NewTorrentOk(new ih: string)
      requires old(TorrentsOk()) && old(allocated(this)) && users == old(users)
      requires ih in torMap && ih !in old(torMap) && torMap == old(torMap)[ih := torMap[ih]]
      requires torMap[ih].Valid() && torMap[ih].infoHash == ih && torMap[ih].owner == this
      requires torMap[ih].Objects() == {}
      requires unchanged(old(torMap.Values))
      requires unchanged(old(AllSets()))
      requires unchanged(old(AllPeers()))
      ensures TorrentsOk() && TorrentsVal() == old(TorrentsVal())[ih := torMap[ih].Val()]
    {
      hide Torrent.Val, Torrent.Valid, Torrent.Known, Torrent.Objects, Torrent.Sets, AllSets, AllPeers;
      torMap[ih].NobodyKnown(mode, users);
      forall x | x in old(torMap)
        ensures torMap[x].Val() == old(torMap[x].Val()) && torMap[x].Valid() && torMap[x].Known(mode, users)
        ensures torMap[x].infoHash == x && torMap[x].owner == this
      {
        OldTorrent(x);
      }
    }

    /** No torrent's objects changed. */
    twostate lemma NoTorrent()
      requires old(TorrentsOk()) && old(allocated(this)) && torMap == old(torMap) && users == old(users)
      requires unchanged(old(torMap.Values))
      requires unchanged(old(AllSets()))
      requires unchanged(old(AllPeers()))
      ensures TorrentsOk() && TorrentsVal() == old(TorrentsVal())
    {
      hide Torrent.Val, Torrent.Valid, Torrent.Known;
      forall x | x in torMap
        ensures torMap[x].Val() == old(torMap[x].Val()) && torMap[x].Valid() && torMap[x].Known(mode, users)
      {
        PartOf(x);
        torMap[x].Untouched(mode, users);
      }
    }

    twostate lemma NothingMoved()
      requires old(allocated(this)) && torMap == old(torMap)
      requires unchanged(old(torMap.Values))
      requires unchanged(old(AllSets()))
      ensures forall x :: x in torMap ==> torMap[x].Objects() == old(torMap[x].Objects())
    {
      forall x | x in torMap
        ensures torMap[x].Objects() == old(torMap[x].Objects())
      {
        PartOf(x);
      }
    }

    /** The torrent shares nothing with any other. */
    ghost predicate Alone(ih: string)
      requires ih in torMap
      reads this`torMap, AllSets()`pMap
    {
      forall x :: x in torMap && x != ih ==>
        torMap[x] != torMap[ih] && torMap[x].Sets() !! torMap[ih].Sets() && torMap[x].Objects() !! torMap[ih].Objects()
    }

    lemma OwnOk(ih: string)
      requires TorrentsOk() && ih in torMap
      ensures torMap[ih].infoHash == ih && torMap[ih].Valid() && torMap[ih].Known(mode, users)
    {}

    lemma IsAlone(ih: string)
      requires TorrentsOk() && ih in torMap
      ensures Alone(ih)
    {
      forall x | x in torMap && x != ih
        ensures torMap[x] != torMap[ih] && torMap[x].Sets() !! torMap[ih].Sets()
                && torMap[x].Objects() !! torMap[ih].Objects()
      {
        TorrentsApart(x, ih);
      }
    }

    /** `ServePeer` seen from all torrents. */
    method ServeTorrent(tor: Torrent, r: Announcement, user: User?) returns (ghost v: Visit)
      requires mode == db.mode && TorrentsOk() && UsersOk() && Belongs(user, mode, users)
      requires Books().stats.peers < 0x1_0000_0000_0000_0000
      requires r.infoHash in torMap && tor == torMap[r.infoHash]
      modifies tor`snatches, tor`balance, tor`departed, tor.Sets()`pMap, tor.Sets()`order, tor.Objects(), stats
      modifies db.peers`requests, db.users`requests, users
      ensures TorrentsOk()
      ensures TorrentsVal() == old(TorrentsVal())[r.infoHash := tor.Val()]
      ensures Served(r, old(TermsFor(tor)), NewPeer(r, RefOf(user), tor.id), old(tor.Val()), old(Books()), v,
                     tor.Val(), Books())
    {
      hide Torrent.Val, Torrent.Known, Torrent.Valid, Serve, TorrentAfter, Books, TermsFor, TorrentsVal, Alone,
           TorrentsOk, Served;
      hide AddedBooks, MovedBooks, LeftBooks, ColumnOf, NewPeer, RefOf, Added, Belongs, UsersOk;
      IsAlone(r.infoHash);
      OwnOk(r.infoHash);
      v := ServePeer(tor, r, user);
      OneTorrent(r.infoHash);
    }

    /** An accepted announce queues the torrent's row, unless the tracker is public; all torrents stay as they are. */
    method RecordAnnounced(tor: Torrent, ghost ih: string)
      requires mode == db.mode && TorrentsOk() && ih in torMap && tor == torMap[ih]
      modifies this`synced, db.torrents`requests
      ensures TorrentsOk() && TorrentsVal() == old(TorrentsVal()) && synced == old(synced) + {ih}
      ensures db.torrents.Log() == old(db.torrents.Log()) + if mode.Public? then [] else [TorrentRowOf(old(tor.Val()))]
    {
      hide Torrent.Val, Torrent.Known, Torrent.Valid, TorrentRowOf, TorrentsOk, TorrentsVal;
      if !mode.Public? {
        db.RecordTorrent(tor);
      }
      synced := synced + {ih};
      NoTorrent();
    }

    /** Both: the torrent, the books, its row. */
    method ServeAndRecord(tor: Torrent, r: Announcement, user: User?) returns (ghost v: Visit)
      requires mode == db.mode && TorrentsOk() && UsersOk() && Belongs(user, mode, users)
      requires Books().stats.peers < 0x1_0000_0000_0000_0000
      requires r.infoHash in torMap && tor == torMap[r.infoHash]
      modifies tor`snatches, tor`balance, tor`departed, tor.Sets()`pMap, tor.Sets()`order, tor.Objects(), stats
      modifies db.peers`requests, db.users`requests, users, this`synced, db.torrents`requests
      ensures TorrentsOk() && TorrentsVal() == old(TorrentsVal())[r.infoHash := tor.Val()]
      ensures Served(r, old(TermsFor(tor)), NewPeer(r, RefOf(user), tor.id), old(tor.Val()), old(Books()), v,
                     tor.Val(), Books())
      ensures synced == old(synced) + {r.infoHash}
      ensures db.torrents.Log() == old(db.torrents.Log()) + if mode.Public? then [] else [TorrentRowOf(tor.Val())]
    {
      hide Torrent.Val, Torrent.Known, Torrent.Valid, TorrentRowOf, TorrentsOk, TorrentsVal, TermsFor, Served, NewPeer,
           Belongs, RefOf, UsersOk, Torrent.Sets, Torrent.Objects, AllSets, AllPeers;
      v := ServeTorrent(tor, r, user);
      ValuesOf(r.infoHash);
      RecordAnnounced(tor, r.infoHash);
      ValuesOf(r.infoHash);
    }

    lemma ValuesOf(ih: string)
      requires ih in torMap
      ensures ih in TorrentsVal() && TorrentsVal()[ih] == torMap[ih].Val()
    {}

    lemma TermsAre(ih: string)
      requires ih in torMap
      ensures ih in Val().torrents && torMap[ih].Val() == Val().torrents[ih] && torMap[ih].id == Val().torrents[ih].id
      ensures TermsFor(torMap[ih]) == TermsOf(Val(), Val().torrents[ih]) && Books() == BooksOf(Val())
    {}

    /** An accepted announce, but for the reply. */
    method Accept(tor: Torrent, r: Announcement, user: User?)
      requires Valid() && r.infoHash in torMap && tor == torMap[r.infoHash]
      requires Belongs(user, mode, users) && RefOf(user) == Requester(Val(), r)
      modifies this`synced, tor`snatches, tor`balance, tor`departed, tor.Sets()`pMap, tor.Sets()`order, tor.Objects(),
               stats
      modifies db.peers`requests, db.users`requests, db.torrents`requests, users
      ensures Valid() && r.infoHash in old(Val()).torrents && Val() == Tracker.Accept(old(Val()), r)
    {
      hide Torrent.Val, Torrent.Known, Torrent.Valid, TorrentRowOf, TorrentsOk, TorrentsVal, UsersVal, Passkeys,
           TermsFor, TermsOf;
      hide Served, Book, VisitOf, NewPeer, Requester, Belongs, RefOf, UsersOk, PasskeysOk, Torrent.Sets,
           Torrent.Objects;
      hide Val, Buffer.Log, AllSets, AllPeers, HasSettings;
      ghost var w := Val();
      BeforeAccept(r.infoHash);
      ghost var v := ServeAndRecord(tor, r, user);
      ServedBooks(w, r, v, tor.Val(), Books());
      Rebook(w, r.infoHash, tor.Val());
    }

    /** What an announce leaves alone is as in w. */
    ghost predicate HasSettings(w: World)
      reads this`usrMap, this`freeleech, this`clientWhitelist, this`bannedIPs, this`lost
    {
      && w.mode == mode && w.timeout == timeout && w.passkeys == Passkeys() && w.freeleech == freeleech
      && w.whitelist == clientWhitelist && w.banned == bannedIPs && w.lost == lost
    }

    lemma BeforeAccept(ih: string)
      requires ih in torMap
      ensures var w := Val();
              && HasSettings(w) && ih in w.torrents && w.torrents[ih] == torMap[ih].Val()
              && torMap[ih].id == w.torrents[ih].id && TermsFor(torMap[ih]) == TermsOf(w, w.torrents[ih])
              && Books() == BooksOf(w) && w.mode == mode
              && TorrentsVal() == w.torrents && synced == w.synced && db.torrents.Log() == w.torrentLog
    {}

    /** The memory is w with one torrent, the books and the torrent's row changed. */
    lemma Rebook(w: World, ih: string, t: TorrentV)
      requires HasSettings(w) && TorrentsVal() == w.torrents[ih := t] && synced == w.synced + {ih}
      requires db.torrents.Log() == w.torrentLog + if mode.Public? then [] else [TorrentRowOf(t)]
      ensures Val() == Rebooked(w, ih, t, Books())
    {}

    lemma ValParts()
      ensures var w := Val();
              && w.mode == mode && w.timeout == timeout && w.passkeys == Passkeys() && w.freeleech == freeleech
              && w.whitelist == clientWhitelist && w.banned == bannedIPs && w.lost == lost
              && TorrentsVal() == w.torrents && synced == w.synced && db.torrents.Log() == w.torrentLog
              && Books() == BooksOf(w) && UsersVal() == w.users && stats.Val() == w.stats
              && db.users.Log() == w.userLog && db.peers.Log() == w.peerLog
    {}

    function GetUser(passkey: string): User?
      reads this`usrMap
    {
      if passkey in usrMap then usrMap[passkey] else null
    }

    method IsWhitelisted(peerID: string) returns (whitelisted: bool)
      ensures whitelisted == Whitelisted(clientWhitelist, peerID)
    {
      whitelisted := clientWhitelist == [];
      for i := 0 to |clientWhitelist|
        invariant whitelisted ==> clientWhitelist == []
        invariant forall j :: 0 <= j < i ==> !(clientWhitelist[j] <= peerID)
      {
        if clientWhitelist[i] <= peerID {
          return true;
        }
      }
    }

    method CheckClient(peerID: string) returns (whitelisted: bool)
      requires Valid()
      ensures Valid() && Val() == old(Val()) && AllSets() == old(AllSets()) && AllPeers() == old(AllPeers())
      ensures whitelisted == Whitelisted(clientWhitelist, peerID)
    {
      hide TorrentsOk, TorrentsVal, Whitelisted;
      whitelisted := IsWhitelisted(peerID);
      NoTorrent();
      SameParts();
    }

    lemma UserIs(r: Announcement)
      requires PasskeysOk() && mode.Private?
      ensures var u := GetUser(r.passkey);
              && RefOf(u) == Requester(Val(), r)
              && (u != null ==> Belongs(u, mode, users) && Val().users[u.handle] == u.Val())
    {}

    /** Why the announce is refused, if it is; and whose it is. */
    method Check(r: Announcement) returns (reason: Option<string>, user: User?)
      requires Valid()
      ensures reason == Refusal(Val(), r) && Valid() && Val() == old(Val())
      ensures AllSets() == old(AllSets()) && AllPeers() == old(AllPeers())
      ensures reason.None? ==> Belongs(user, mode, users) && RefOf(user) == Requester(Val(), r)
    {
      hide Torrent.Val, UsersVal, Whitelisted, TorrentsOk, UsersOk;
      user := null;
      if mode.Private? {
        UserIs(r);
        user := GetUser(r.passkey);
        if user == null {
          return Some("passkey not found"), null;
        }
      }
      if r.ip in bannedIPs {
        return Some("banned ip"), null;
      }
      if user != null && user.restrictions != {} && r.ip !in user.restrictions {
        return Some("ip not associated with account"), null;
      }
      if |r.peerID| != 20 {
        return Some("invalid peer id"), null;
      }
      var whitelisted := CheckClient(r.peerID);
      if !whitelisted {
        return Some("client not in whitelist"), null;
      }
      if !mode.Public? && r.infoHash !in torMap {
        return Some("torrent not found"), null;
      }
      if user != null && !user.authorized {
        return Some("user unauthorized"), null;
      }
      reason := None;
    }

    method EmplaceTorrent(ih: string, id: nat)
      requires TorrentsOk() && ih !in torMap
      modifies this`torMap
      ensures ih in torMap && fresh(torMap[ih]) && fresh(torMap[ih].Sets()) && torMap[ih].Objects() == {}
      ensures TorrentsOk() && TorrentsVal() == old(TorrentsVal())[ih := NewTorrent(id, 0)]
    {
      hide Peers.Val, Torrent.Known, TorrentsOk, TorrentsVal;
      var t := new Torrent(id, 0, 0, 0, ih, this);
      torMap := torMap[ih := t];
      NewTorrentOk(ih);
    }

    /** A public tracker starts a torrent at its first announce. */
    method Enter(r: Announcement)
      requires Valid()
      modifies this`torMap, stats`torrents
      ensures Valid() && Val() == Tracker.Enter(old(Val()), r)
      ensures if mode.Public? && r.infoHash !in old(torMap) then
                r.infoHash in torMap && fresh(torMap[r.infoHash]) && fresh(torMap[r.infoHash].Sets())
                  && torMap[r.infoHash].Objects() == {}
              else torMap == old(torMap) && forall ih :: ih in torMap ==>
                torMap[ih].Objects() == old(torMap[ih].Objects())
    {
      hide Torrent.Val, UsersVal, Passkeys, TorrentsOk, TorrentsVal, PasskeysOk, UsersOk;
      HasTorrent(r.infoHash);
      if mode.Public? && r.infoHash !in torMap {
        CountedTorrent(r.infoHash);
      }
    }

    /** A new torrent, which counts. */
    method CountedTorrent(ih: string)
      requires TorrentsOk() && ih !in torMap
      modifies this`torMap, stats`torrents
      ensures ih in torMap && fresh(torMap[ih]) && fresh(torMap[ih].Sets()) && torMap[ih].Objects() == {}
      ensures TorrentsOk() && stats.torrents == U64(old(stats.torrents) + 1)
      ensures TorrentsVal() == old(TorrentsVal())[ih := NewTorrent(U32(old(stats.torrents)), 0)]
    {
      hide Torrent.Val, Torrent.Valid, Torrent.Known, TorrentsOk, TorrentsVal, NewTorrent, U32, U64;
      EmplaceTorrent(ih, U32(stats.torrents));
      label emplaced:
      stats.IncTorrents();
      NoTorrent@emplaced();
    }

    lemma HasTorrent(ih: string)
      ensures ih in torMap <==> ih in Val().torrents
    {}

    /** An announce that is not refused, but for the reply. */
    method EnterAndAccept(r: Announcement, user: User?)
      requires Valid() && Refusal(Val(), r).None? && Belongs(user, mode, users) && RefOf(user) == Requester(Val(), r)
      modifies this`torMap, this`synced, torMap.Values, AllSets(), AllPeers(), stats, users
      modifies db.peers`requests, db.users`requests, db.torrents`requests
      ensures Valid() && Val() == Tracker.Announce(old(Val()), r) && InPlace(r.infoHash)
    {
      hide Val, Valid, AllPeers, AllSets, Refusal, Tracker.Enter, Tracker.Accept, Belongs, RefOf, Requester,
           Torrent.Sets, Torrent.Objects;
      EnterIs(Val(), r);
      PartsOf(r.infoHash);
      Enter(r);
      HasTorrent(r.infoHash);
      Accept(torMap[r.infoHash], r, user);
    }

    /** An announce, but for the reply: it is refused for the model's reason, or it does to the memory what the model's
        does. */
    method Announce(r: Announcement) returns (reason: Option<string>)
      requires Valid()
      modifies this`torMap, this`synced, torMap.Values, AllSets(), AllPeers(), stats, users
      modifies db.peers`requests, db.users`requests, db.torrents`requests
      ensures Valid() && reason == Refusal(old(Val()), r) && Val() == Tracker.Announce(old(Val()), r)
      ensures reason.None? ==> InPlace(r.infoHash)
    {
      hide Val, Valid, AllPeers, AllSets, Refusal, Tracker.Enter, Tracker.Accept, Belongs, RefOf, Requester;
      var user: User?;
      ghost var w := Val();
      reason, user := Check(r);
      if reason.None? {
        EnterAndAccept(r, user);
      }
    }

    twostate lemma SameParts()
      requires old(allocated(this)) && torMap == old(torMap)
      requires unchanged(old(AllSets()))
      ensures AllSets() == old(AllSets()) && AllPeers() == old(AllPeers())
    {}

    /** The torrent is there, and was there or is new. */
    twostate predicate InPlace(ih: string)
      reads this`torMap
    {
      ih in torMap
      && (fresh(torMap[ih].Sets()) || (ih in old(torMap) && torMap[ih] == old(torMap)[ih]))
    }

    lemma PartsOf(ih: string)
      ensures ih in torMap ==>
                torMap[ih] in torMap.Values && torMap[ih].Sets() <= AllSets() && torMap[ih].Objects() <= AllPeers()
    {}

    // -------------------------------------------------------------- the sweep

    /** One torrent's peers are swept, seen from all torrents. */
    method SweepOne(tor: Torrent, ghost ih: string, now: int) returns (changed: nat)
      requires mode == db.mode && TorrentsOk() && ih in torMap && tor == torMap[ih]
      modifies tor`departed, tor.Sets()`pMap, tor.Sets()`order, tor.Objects(), db.peers`requests
      ensures TorrentsOk() && VisitsPeers(old(tor.Plan()), old(tor.Val()))
      ensures forall x :: x in torMap && x != ih ==> torMap[x].Objects() == old(torMap[x].Objects())
      ensures var s := SweepPeers(old(tor.Val()), old(tor.Plan()), mode, now, timeout);
              && tor.Val() == s.torrent && TorrentsVal() == old(TorrentsVal())[ih := s.torrent]
              && db.peers.Log() == old(db.peers.Log()) + s.rows && changed == s.changed
    {
      hide Torrent.Val, Torrent.Known, Torrent.Valid, TorrentsVal, Alone, TorrentsOk, VisitsPeers;
      IsAlone(ih);
      OwnOk(ih);
      ghost var s: Swept;
      changed, s := tor.ClearPeers(now, timeout, db, users);
      OneTorrent(ih);
      OthersObjects(ih);
    }

    twostate lemma OthersObjects(ih: string)
      requires old(TorrentsOk()) && old(allocated(this)) && ih in torMap && torMap == old(torMap) && old(Alone(ih))
      requires unchanged(old(torMap.Values - {torMap[ih]}))
      requires unchanged(old(AllSets() - torMap[ih].Sets()))
      requires unchanged(old(AllPeers() - torMap[ih].Objects()))
      ensures forall x :: x in torMap && x != ih ==> torMap[x].Objects() == old(torMap[x].Objects())
    {
      hide Torrent.Val, Torrent.Valid, Torrent.Known;
      forall x | x in torMap && x != ih
        ensures torMap[x].Objects() == old(torMap[x].Objects())
      {
        Elsewhere(x, ih);
      }
    }

    /** A torrent leaves the map. */
    method Forget(ih: string)
      requires TorrentsOk() && ih in torMap
      modifies this`torMap, this`lost, this`synced
      ensures TorrentsOk() && TorrentsVal() == old(TorrentsVal()) - {ih} && torMap == old(torMap) - {ih}
      ensures lost == old(lost) + [old(torMap[ih].Val())] && synced == old(synced) - {ih}
      ensures forall x :: x in torMap ==> torMap[x].Objects() == old(torMap[x].Objects())
    {
      hide Torrent.Val, Torrent.Known, Torrent.Valid, TorrentsVal, TorrentsOk, AllSets, AllPeers;
      ghost var t := torMap[ih].Val();
      lost := lost + [t];
      synced := synced - {ih};
      torMap := torMap - {ih};
      FewerTorrents(ih);
    }

    twostate lemma FewerTorrents(new ih: string)
      requires old(TorrentsOk()) && old(allocated(this)) && users == old(users) && torMap == old(torMap) - {ih}
      requires unchanged(old(torMap.Values))
      requires unchanged(old(AllSets()))
      requires unchanged(old(AllPeers()))
      ensures TorrentsOk() && TorrentsVal() == old(TorrentsVal()) - {ih}
      ensures forall x :: x in torMap ==> torMap[x].Objects() == old(torMap[x].Objects())
    {
      hide Torrent.Val, Torrent.Valid, Torrent.Known;
      forall x | x in torMap
        ensures torMap[x].Val() == old(torMap[x].Val()) && torMap[x].Valid() && torMap[x].Known(mode, users)
        ensures torMap[x].Objects() == old(torMap[x].Objects())
      {
        PartOf(x);
        torMap[x].Untouched(mode, users);
      }
    }

    method EraseTorrent(ih: string)
      requires TorrentsOk() && ih in torMap
      modifies this`torMap, this`lost, this`synced, stats`torrents
      ensures TorrentsOk() && TorrentsVal() == old(TorrentsVal()) - {ih} && torMap == old(torMap) - {ih}
      ensures lost == old(lost) + [old(torMap[ih].Val())] && synced == old(synced) - {ih}
      ensures stats.torrents == U64(old(stats.torrents) - 1)
      ensures forall x :: x in torMap ==> torMap[x].Objects() == old(torMap[x].Objects())
    {
      hide Torrent.Val, Torrent.Known, Torrent.Valid, TorrentsVal, TorrentsOk, Torrent.Plan, Torrent.Objects, U64;
      Forget(ih);
      label forgotten:
      stats.DecTorrents();
      NoTorrent@forgotten();
      NothingMoved@forgotten();
    }

    method RecordTorrent(t: Torrent, ghost ih: string)
      requires mode == db.mode && TorrentsOk() && ih in torMap && t == torMap[ih]
      modifies db.torrents`requests
      ensures TorrentsOk() && TorrentsVal() == old(TorrentsVal())
      ensures db.torrents.Log() == old(db.torrents.Log()) + [TorrentRowOf(old(t.Val()))]
      ensures forall x :: x in torMap ==> torMap[x].Objects() == old(torMap[x].Objects())
    {
      hide Torrent.Val, Torrent.Known, Torrent.Valid, TorrentRowOf, TorrentsOk, TorrentsVal, Torrent.Plan,
           Torrent.Objects;
      db.RecordTorrent(t);
      NoTorrent();
      NothingMoved();
    }

    /** A public tracker drops a torrent. */
    method DropTorrent(ih: string)
      requires Valid() && ih in torMap
      modifies this`torMap, this`lost, this`synced, stats`torrents
      ensures Valid() && ih in old(Val()).torrents && Val() == Drop(old(Val()), ih) && torMap == old(torMap) - {ih}
      ensures forall x :: x in torMap ==> torMap[x].Objects() == old(torMap[x].Objects())
    {
      hide Torrent.Val, TorrentsOk, TorrentsVal, Torrent.Plan, Torrent.Objects, Torrent.Sets, UsersVal, Passkeys,
           UsersOk, PasskeysOk, U64;
      TermsAre(ih);
      EraseTorrent(ih);
    }

    /** Any other records a torrent that the sweep changed. */
    method RecordSwept(t: Torrent, ih: string)
      requires Valid() && ih in torMap && t == torMap[ih]
      modifies db.torrents`requests
      ensures Valid() && ih in old(Val()).torrents
      ensures Val() == old(Val()).(torrentLog := old(Val()).torrentLog + [TorrentRowOf(old(Val()).torrents[ih])])
      ensures forall x :: x in torMap ==> torMap[x].Objects() == old(torMap[x].Objects())
    {
      hide Torrent.Val, TorrentsOk, TorrentsVal, Torrent.Plan, Torrent.Objects, Torrent.Sets, UsersVal, Passkeys,
           UsersOk, PasskeysOk, TorrentRowOf;
      TermsAre(ih);
      RecordTorrent(t, ih);
    }

    /** What follows the sweep of a torrent's peers. */
    method CloseTorrent(t: Torrent, ih: string, changed: nat)
      requires Valid() && ih in torMap && t == torMap[ih]
      modifies this`torMap, this`lost, this`synced, stats`torrents, db.torrents`requests
      ensures Valid() && ih in old(Val()).torrents && Val() == Closing(old(Val()), ih, changed)
      ensures forall x :: x != ih ==> (x in torMap <==> x in old(torMap))
      ensures forall x :: x in torMap && x != ih ==>
                torMap[x] == old(torMap)[x] && torMap[x].Objects() == old(torMap[x].Objects())
    {
      hide Torrent.Val, TorrentRowOf, Val, Valid, Empty, Torrent.Plan, Torrent.Objects, Torrent.Sets, Drop;
      TermsAre(ih);
      ValParts();
      if mode.Public? {
        t.EmptyIs();
        if |t.seeders.pMap| == 0 && |t.seeders6.pMap| == 0 && |t.leechers.pMap| == 0 && |t.leechers6.pMap| == 0 {
          DropTorrent(ih);
        }
      } else if changed > 0 {
        RecordSwept(t, ih);
      }
    }

    /** The sweep of one torrent's peers, seen from the whole memory. */
    method SweepPart(t: Torrent, ghost ih: string, now: int) returns (changed: nat)
      requires Valid() && ih in torMap && t == torMap[ih]
      modifies t`departed, t.Sets()`pMap, t.Sets()`order, t.Objects(), db.peers`requests
      ensures Valid() && ih in old(Val()).torrents && VisitsPeers(old(t.Plan()), old(Val()).torrents[ih])
      ensures forall x :: x in torMap && x != ih ==> torMap[x].Objects() == old(torMap[x].Objects())
      ensures var s := SweepPeers(old(Val()).torrents[ih], old(t.Plan()), mode, now, timeout);
              && changed == s.changed
              && Val() == old(Val()).(torrents := old(Val()).torrents[ih := s.torrent],
                                      peerLog := old(Val()).peerLog + s.rows)
    {
      hide Torrent.Val, Torrent.Known, Torrent.Valid, TorrentsOk, TorrentsVal, UsersVal, Passkeys, UsersOk, PasskeysOk,
           VisitsPeers, Torrent.Plan, Torrent.Objects, Torrent.Sets;
      TermsAre(ih);
      changed := SweepOne(t, ih, now);
    }

    /** One torrent's turn of the sweep. */
    method ClearTorrent(t: Torrent, ih: string, now: int)
      requires Valid() && ih in torMap && t == torMap[ih]
      modifies this`torMap, this`lost, this`synced, t`departed, t.Sets()`pMap, t.Sets()`order
      modifies t.Objects(), stats`torrents, db.peers`requests, db.torrents`requests
      ensures Valid() && ih in old(Val()).torrents && VisitsPeers(old(t.Plan()), old(Val()).torrents[ih])
      ensures Val() == SweepTorrent(old(Val()), Turn(ih, old(t.Plan())), now)
      ensures forall x :: x != ih ==> (x in torMap <==> x in old(torMap))
      ensures forall x :: x in torMap && x != ih ==>
                torMap[x] == old(torMap)[x] && torMap[x].Objects() == old(torMap[x].Objects())
    {
      hide Torrent.Val, Val, Valid, VisitsPeers, Torrent.Plan, Torrent.Objects, Closing, Close, Torrent.Sets;
      ghost var w, keys := Val(), t.Plan();
      TermsAre(ih);
      ValParts();
      CloseIsClosing(w, ih, SweepPeers(t.Val(), keys, mode, now, timeout));
      var changed := SweepPart(t, ih, now);
      CloseTorrent(t, ih, changed);
    }

    /** The sweep goes over the torrents in an order of the map's choosing; it is the model's sweep by some plan. */
    method SweepTorrents(now: int) returns (ghost plan: seq<Turn>)
      requires Valid()
      modifies this`torMap, this`lost, this`synced, torMap.Values, AllSets(), AllPeers(), stats`torrents
      modifies db.peers`requests, db.torrents`requests
      ensures Valid() && SweepPlan(old(Val()), plan) && Val() == Sweep(old(Val()), plan, now)
    {
      hide Val, Valid, AllSets, AllPeers, Torrent.Val, Torrent.Objects, Torrent.Sets, Torrent.Plan, VisitsPeers,
           SweepTorrent, SweepPlan, Midway, Divides;
      ghost var w := Val();
      PlanNothing(w, now);
      DividesAll(w.torrents.Keys);
      TorrentKeys();
      ghost var done := {};
      plan := [];
      var rest := torMap.Keys;
      AllParts();
      while rest != {}
        invariant Valid() && Midway(w, plan, done, now, Val())
        invariant forall ih :: ih in rest ==>
                    ih in torMap && ih in old(torMap) && torMap[ih] == old(torMap)[ih]
                      && torMap[ih].Objects() == old(torMap[ih].Objects())
        invariant Divides(w.torrents.Keys, done, rest)
        decreases rest
      {
        var ih :| ih in rest;
        DividesMore(w.torrents.Keys, done, rest, ih);
        rest := rest - {ih};
        ghost var w1, turn := Val(), Turn(ih, torMap[ih].Plan());
        ClearTorrent(torMap[ih], ih, now);
        TurnTaken(w, plan, done, now, w1, turn);
        plan, done := plan + [turn], done + {ih};
      }
      DividesDone(w.torrents.Keys, done);
      PlanDone(w, plan, now, Val());
    }

    lemma TorrentKeys()
      ensures Val().torrents.Keys == torMap.Keys
    {}

    lemma AllParts()
      ensures forall ih :: ih in torMap ==>
                torMap[ih] in torMap.Values && torMap[ih].Sets() <= AllSets() && torMap[ih].Objects() <= AllPeers()
    {
      forall ih | ih in torMap
        ensures torMap[ih].Sets() <= AllSets() && torMap[ih].Objects() <= AllPeers()
      {
        PartsOf(ih);
      }
    }

    // -------------------------------------------------------------- edits of the memory

    /** The user moves to the new passkey, unless that is taken; peers keep pointing to the user. */
    method ChangePasskey(oldPasskey: string, newPasskey: string)
      requires Valid()
      modifies this`usrMap
      ensures Valid() && Val() == Edited(old(Val()), Edit.ChangePasskey(oldPasskey, newPasskey))
    {
      hide TorrentsOk, TorrentsVal, UsersVal, UsersOk;
      var u := GetUser(oldPasskey);
      if u != null {
        usrMap := usrMap - {oldPasskey};
        if newPasskey !in usrMap {
          usrMap := usrMap[newPasskey := u];
        }
        NoTorrent();
        assert Passkeys() == Rekey(old(Val()), oldPasskey, newPasskey).passkeys;
      }
    }

    method RemoveUser(passkey: string)
      requires Valid()
      modifies this`usrMap
      ensures Valid() && Val() == Edited(old(Val()), Edit.RemoveUser(passkey))
    {
      hide TorrentsOk, TorrentsVal, UsersVal, UsersOk;
      usrMap := usrMap - {passkey};
      NoTorrent();
      assert Passkeys() == old(Passkeys()) - {passkey};
    }

    /** Torrents do not notice a new user. */
    twostate lemma MoreUsers()
      requires old(TorrentsOk()) && old(allocated(this)) && torMap == old(torMap) && old(users) <= users
      requires unchanged(old(torMap.Values))
      requires unchanged(old(AllSets()))
      requires unchanged(old(AllPeers()))
      ensures TorrentsOk() && TorrentsVal() == old(TorrentsVal())
    {
      hide Torrent.Val, Torrent.Valid, Torrent.Known, AllSets, AllPeers;
      forall x | x in torMap
        ensures torMap[x].Val() == old(torMap[x].Val()) && torMap[x].Valid() && torMap[x].Known(mode, users)
      {
        OldTorrent(x);
        torMap[x].KnownToMore(mode, old(users), users);
      }
    }

    /** A user is created under a passkey that is not taken. */
    method AddUser(passkey: string, id: nat)
      requires Valid()
      modifies this`usrMap, this`users
      ensures Valid() && Val() == Edited(old(Val()), Edit.AddUser(passkey, id))
    {
      hide TorrentsOk, TorrentsVal, UsersVal, UsersOk, Passkeys, PasskeysOk;
      UserAt(passkey);
      if passkey !in usrMap {
        Enlist(passkey, id);
      }
    }

    method Enlist(passkey: string, id: nat)
      requires TorrentsOk() && UsersOk() && PasskeysOk() && passkey !in usrMap
      modifies this`usrMap, this`users
      ensures TorrentsOk() && UsersOk() && PasskeysOk() && TorrentsVal() == old(TorrentsVal())
      ensures UsersVal() == old(UsersVal()) + [UserV(id, 0, 0, true, {}, {})]
      ensures Passkeys() == old(Passkeys())[passkey := |old(UsersVal())|]
    {
      hide TorrentsOk, TorrentsVal;
      var u := new User(id, true, |users|, this);
      usrMap := usrMap[passkey := u];
      users := users + [u];
      MoreUsers();
      assert UsersVal() == old(UsersVal()) + [u.Val()];
    }

    /** A user is edited in place, under whichever passkey it is found; a token needs its torrent. */
    method UpdateUser(passkey: string, change: UserEdit)
      requires Valid()
      modifies users
      ensures Valid() && Val() == Edited(old(Val()), Edit.UpdateUser(passkey, change))
    {
      hide TorrentsOk, TorrentsVal, UsersVal, UsersOk, UserEdited;
      var u := GetUser(passkey);
      UserAt(passkey);
      if u != null {
        EditUser(u, change);
        NoTorrent();
        OneUser(u);
      }
    }

    method EditUser(u: User, change: UserEdit)
      modifies u
      ensures u.Val() == UserEdited(old(u.Val()), change, old(Val()).torrents)
    {
      hide Val, Long2Ip, U32;
      match change {
        case Authorize(authorized) => u.SetAuthorized(authorized);
        case AddToken(ih) => EditToken(u, ih, true);
        case RemoveToken(ih) => EditToken(u, ih, false);
        case AddRestriction(ip) => u.AddIPRestriction(Long2Ip(U32(ip)));
        case RemoveRestriction(ip) => u.RemoveIPRestriction(Long2Ip(U32(ip)));
      }
    }

    /** A token is for the torrent's id; without the torrent nothing happens. */
    method EditToken(u: User, ih: string, add: bool)
      modifies u
      ensures u.Val() == UserEdited(old(u.Val()), if add then AddToken(ih) else RemoveToken(ih), old(Val()).torrents)
    {
      hide Torrent.Val;
      HasTorrent(ih);
      if ih in torMap {
        TermsAre(ih);
        if add {
          u.AddToken(torMap[ih].id);
        } else {
          u.RemoveToken(torMap[ih].id);
        }
      }
    }

    lemma UserAt(passkey: string)
      requires PasskeysOk()
      ensures var w := Val();
              && (passkey in usrMap <==> passkey in w.passkeys)
              && (passkey in usrMap ==> w.passkeys[passkey] == usrMap[passkey].handle < |w.users|
                                        && w.users[w.passkeys[passkey]] == usrMap[passkey].Val())
    {}

    /** The request's numbers are cut to `unsigned int`; the loop ends because (to - from) mod 2^32 falls. */
    method AddBan(fromip: nat, toip: nat)
      modifies this`bannedIPs
      ensures bannedIPs == old(bannedIPs) + Texts(U32(fromip), U32(toip))
      ensures forall text :: text in bannedIPs <==> text in old(bannedIPs) || Covers(fromip, toip, text)
    {
      hide Texts, Long2Ip, U32, Covers;
      var from, to := U32(fromip), U32(toip);
      ghost var all := Texts(from, to);
      while from != to
        invariant 0 <= from < 0x1_0000_0000
        invariant bannedIPs + Texts(from, to) == old(bannedIPs) + all
        decreases U32(to - from)
      {
        NextUp(from, to);
        bannedIPs := bannedIPs + {Long2Ip(from)};
        from := U32(from + 1);
      }
      NextUp(from, to);
      bannedIPs := bannedIPs + {Long2Ip(from)};
      AllRead(fromip, toip);
    }

    method RemoveBan(fromip: nat, toip: nat)
      modifies this`bannedIPs
      ensures bannedIPs == old(bannedIPs) - Texts(U32(fromip), U32(toip))
      ensures forall text :: text in bannedIPs <==> text in old(bannedIPs) && !Covers(fromip, toip, text)
    {
      hide Texts, Long2Ip, U32, Covers;
      var from, to := U32(fromip), U32(toip);
      ghost var all := Texts(from, to);
      while from != to
        invariant 0 <= from < 0x1_0000_0000
        invariant bannedIPs - Texts(from, to) == old(bannedIPs) - all
        decreases U32(to - from)
      {
        NextUp(from, to);
        bannedIPs := bannedIPs - {Long2Ip(from)};
        from := U32(from + 1);
      }
      NextUp(from, to);
      bannedIPs := bannedIPs - {Long2Ip(from)};
      AllRead(fromip, toip);
    }

    /** Bans, whitelist and leech status, in place. */
    method EditSetting(e: Edit)
      requires Valid() && !e.ChangePasskey? && !e.AddUser? && !e.RemoveUser? && !e.UpdateUser?
      modifies this`bannedIPs, this`clientWhitelist, this`freeleech
      ensures Valid() && Val() == Edited(old(Val()), e)
    {
      hide TorrentsOk, TorrentsVal, UsersVal, UsersOk, PasskeysOk, Passkeys, Texts, U32, Without;
      match e {
        case AddBan(from, to) => AddBan(from, to);
        case RemoveBan(from, to) => RemoveBan(from, to);
        case AddWhitelist(p) => clientWhitelist := clientWhitelist + [p];
        case EditWhitelist(o, n) => clientWhitelist := Without(clientWhitelist, o) + [n];
        case RemoveWhitelist(p) => clientWhitelist := Without(clientWhitelist, p);
        case SetLeechStatus(b) => freeleech := b;
      }
      NoTorrent();
    }

    method EditMemory(e: Edit)
      requires Valid()
      modifies this`usrMap, this`users, users, this`bannedIPs, this`clientWhitelist, this`freeleech
      ensures Valid() && Val() == Edited(old(Val()), e)
    {
      hide Val, Valid, Edited;
      match e {
        case ChangePasskey(o, n) => ChangePasskey(o, n);
        case AddUser(p, id) => AddUser(p, id);
        case RemoveUser(p) => RemoveUser(p);
        case UpdateUser(p, change) => UpdateUser(p, change);
        case _ => EditSetting(e);
      }
    }

    // -------------------------------------------------------------- edits of the torrents

    method InsertTorrent(ih: string, id: nat)
      requires Valid() && ih !in torMap
      modifies this`torMap
      ensures Valid() && ih in torMap && fresh(torMap[ih])
      ensures Val() == old(Val()).(torrents := old(Val()).torrents[ih := NewTorrent(id, 0)])
    {
      hide Torrent.Val, TorrentsOk, TorrentsVal, UsersVal, UsersOk, Passkeys, PasskeysOk, Torrent.Objects, Torrent.Sets;
      EmplaceTorrent(ih, id);
    }

    method FreeTorrent(t: Torrent, ih: string, free: nat)
      requires Valid() && ih in torMap && t == torMap[ih]
      modifies t`free
      ensures Valid() && ih in old(Val()).torrents
      ensures Val() == old(Val()).(torrents := old(Val()).torrents[ih := old(Val()).torrents[ih].(free := free)])
    {
      hide Torrent.Val, Torrent.Known, Torrent.Valid, TorrentsOk, TorrentsVal, UsersVal, UsersOk, Passkeys, PasskeysOk,
           Alone;
      TermsAre(ih);
      IsAlone(ih);
      OwnOk(ih);
      SetFreeOf(t, free);
      OneTorrent(ih);
    }

    method SetFreeOf(t: Torrent, free: nat)
      requires t.Valid() && t.Known(mode, users)
      modifies t`free
      ensures t.Valid() && t.Known(mode, users) && t.Val() == old(t.Val()).(free := free)
    {
      hide Belongs, Peers.Valid, Torrent.Val;
      t.SetFree(free);
    }

    /** A torrent is created unless its info hash is taken, and in both cases gets its discount, if the request has
        one. */
    method AddTorrent(ih: string, id: nat, free: nat)
      requires Valid()
      modifies this`torMap, torMap.Values
      ensures Valid() && Val() == Tracker.AddTorrent(old(Val()), ih, id, free)
    {
      hide Val, Valid, NewTorrent;
      HasTorrent(ih);
      ghost var w := Val();
      if ih !in torMap {
        InsertTorrent(ih, id);
        assert w.torrents[ih := NewTorrent(id, 0)][ih := NewTorrent(id, 0).(free := free)]
            == w.torrents[ih := NewTorrent(id, 0).(free := free)];
        FreeOfNew(id, free);
      }
      if free != 0 {
        FreeTorrent(torMap[ih], ih, free);
      }
    }

    lemma FreeOfNew(id: nat, free: nat)
      ensures NewTorrent(id, 0).(free := free) == NewTorrent(id, free)
    {}

    method UpdateTorrent(ih: string, free: nat)
      requires Valid()
      modifies torMap.Values
      ensures Valid() && Val() == Tracker.SetFree(old(Val()), ih, free)
    {
      hide Val, Valid;
      HasTorrent(ih);
      if ih in torMap {
        FreeTorrent(torMap[ih], ih, free);
      }
    }

    method DeleteTorrent(ih: string)
      requires Valid()
      modifies this`torMap, this`lost, this`synced
      ensures Valid() && Val() == Tracker.DeleteTorrent(old(Val()), ih)
    {
      hide Torrent.Val, TorrentsOk, TorrentsVal, Torrent.Plan, Torrent.Objects, Torrent.Sets, UsersVal, Passkeys,
           UsersOk, PasskeysOk;
      HasTorrent(ih);
      if ih in torMap {
        TermsAre(ih);
        Forget(ih);
      }
    }

    // -------------------------------------------------------------- memory and queues together

    ghost function Whole(): System.System
      reads this, torMap.Values, AllSets(), AllPeers(), users, stats, db.users, db.torrents, db.peers
    {
      System.System(Val(), db.users.Val(), db.torrents.Val(), db.peers.Val())
    }

    /** A step of the memory that only queued rows is that step of the whole system. */
    twostate lemma Tracked(new s: Step)
      requires old(allocated(this)) && Val() == Take(old(Val()), s)
      requires db.users.OnlyRequests() && db.torrents.OnlyRequests() && db.peers.OnlyRequests()
      ensures Whole() == System.Perform(old(Whole()), System.Track(s))
    {
      System.TakeLogs(old(Val()), s);
      LogsAre();
      OldLogsAre();
      hide Val, Take, Buffer.Log;
      db.users.Recorded();
      db.torrents.Recorded();
      db.peers.Recorded();
    }

    lemma WithoutHash(passkey: string, ip: string)
      requires Valid()
      ensures Turned(Val(), passkey, ip, [])
           == Some(if mode.Private? && passkey !in usrMap then "passkey not found" else "missing info_hash")
    {
      hide TorrentsOk, TorrentsVal;
    }

    lemma LogsAre()
      ensures Val().userLog == db.users.Log() && Val().torrentLog == db.torrents.Log()
              && Val().peerLog == db.peers.Log()
    {}

    twostate lemma OldLogsAre()
      requires old(allocated(this))
      ensures old(Val()).userLog == old(db.users.Log()) && old(Val()).torrentLog == old(db.torrents.Log())
      ensures old(Val()).peerLog == old(db.peers.Log())
    {}

    /** An announce request is one step of the system. */
    method Handle(r: Announcement) returns (reason: Option<string>)
      requires Valid()
      modifies this`torMap, this`synced, torMap.Values, AllSets(), AllPeers(), stats, users
      modifies db.peers`requests, db.users`requests, db.torrents`requests
      ensures Valid() && reason == Refusal(old(Val()), r) && (reason.None? ==> InPlace(r.infoHash))
      ensures Whole() == System.Perform(old(Whole()), System.Track(DoAnnounce(r)))
    {
      hide Whole, Val, Valid, AllSets, AllPeers, Tracker.Announce, Edited, Buffer.Log, Buffer.Val, InPlace;
      reason := Announce(r);
      Tracked(DoAnnounce(r));
    }

    /** So is the sweep timer. */
    method ClearTorrentPeers(now: int) returns (ghost plan: seq<Turn>)
      requires Valid()
      modifies this`torMap, this`lost, this`synced, torMap.Values, AllSets(), AllPeers(), stats`torrents
      modifies db.peers`requests, db.torrents`requests
      ensures Valid() && SweepPlan(old(Val()), plan)
      ensures Whole() == System.Perform(old(Whole()), System.Track(DoSweep(plan, now)))
    {
      hide Whole, Val, Valid, AllSets, AllPeers, Tracker.Announce, Edited, Buffer.Log, Buffer.Val, System.Perform,
           SweepPlan;
      plan := SweepTorrents(now);
      Tracked(DoSweep(plan, now));
    }

    /** So is every update request of the site, but for the sets of users it is sent in. */
    method Update(s: Step)
      requires Valid() && !s.DoAnnounce? && !s.DoSweep?
      modifies this, users, torMap.Values
      ensures Valid() && Whole() == System.Perform(old(Whole()), System.Track(s))
    {
      hide Whole, Val, Valid, AllSets, AllPeers, Edited, Tracker.AddTorrent, Tracker.SetFree, Tracker.DeleteTorrent,
           Buffer.Log, Buffer.Val;
      match s {
        case DoAddTorrent(ih, id, free) => AddTorrent(ih, id, free);
        case DoSetFree(ih, free) => UpdateTorrent(ih, free);
        case DoDeleteTorrent(ih) => DeleteTorrent(ih);
        case DoEdit(e) => EditMemory(e);
      }
      Tracked(s);
    }

    method RemoveOne(passkey: string)
      requires Valid()
      modifies this`usrMap
      ensures Valid() && Whole() == System.Perform(old(Whole()), System.Track(DoEdit(Edit.RemoveUser(passkey))))
    {
      hide Whole, Val, Valid, AllSets, AllPeers, Edited, Buffer.Log, Buffer.Val;
      RemoveUser(passkey);
      Tracked(DoEdit(Edit.RemoveUser(passkey)));
    }

    /** A list of passkeys in one text, 32 characters each. */
    method RemoveUsers(passkeys: string)
      requires Valid()
      modifies this`usrMap
      ensures Valid() && System.PerformAll(old(Whole()), Removals(Chunks(passkeys))) == Some(Whole())
    {
      hide Whole, Val, Valid, System.Perform, System.CanAct, Removals;
      ghost var s := Whole();
      NoRemovals(s);
      var i := 0;
      ghost var done: seq<string> := [];
      while i < |passkeys|
        invariant i <= |passkeys| && Valid() && Chunks(passkeys) == done + Chunks(passkeys[i..])
        invariant System.PerformAll(s, Removals(done)) == Some(Whole())
      {
        var n := if |passkeys| - i < 32 then |passkeys| else i + 32;
        ChunkTaken(passkeys, i, done);
        RemovedOneMore(s, done, Whole(), passkeys[i..n]);
        RemoveOne(passkeys[i..n]);
        done := done + [passkeys[i..n]];
        i := n;
      }
      assert done + Chunks(passkeys[i..]) == done;
    }

    // -------------------------------------------------------------- replies

    /** Of one torrent the rotations moved on, and nothing else happened. */
    twostate lemma Rotated(ih: string)
      requires old(Valid()) && old(allocated(this)) && unchanged(this) && ih in torMap && old(Alone(ih))
      requires torMap[ih].Valid() && torMap[ih].Known(mode, users) && torMap[ih].Val() == old(torMap[ih].Val())
      requires unchanged(old(torMap.Values - {torMap[ih]}))
      requires unchanged(old(AllSets() - torMap[ih].Sets()))
      requires unchanged(old(AllPeers() - torMap[ih].Objects()))
      requires unchanged(users)
      requires unchanged(stats) && unchanged(db.users) && unchanged(db.torrents) && unchanged(db.peers)
      ensures Valid() && Val() == old(Val()) && Whole() == old(Whole())
    {
      hide Torrent.Val, Torrent.Valid, Torrent.Known, Alone, TorrentsVal, TorrentsOk, AllSets, AllPeers, Passkeys;
      OneTorrent(ih);
      Present(ih);
    }

    twostate lemma Present(ih: string)
      requires old(allocated(this)) && ih in old(torMap)
      ensures ih in old(TorrentsVal()) && old(TorrentsVal())[ih] == old(torMap[ih].Val())
    {}

    /** The reply, when the rotations it needs have a peer to go on from. */
    method Compose(tor: Torrent, r: Announcement, c: Settings) returns (text: string)
      requires tor.Valid() && tor.Known(mode, users) && CanAnswer(tor, SharesFor(tor, r, c), r)
      modifies tor.Set(Asked(r))`cursor, tor.Set(Asked6(r))`cursor
      ensures tor.Valid() && tor.Known(mode, users) && tor.Val() == old(tor.Val())
      ensures Replied(text, tor.Val(), r, c) && CanAnswer(tor, SharesFor(tor, r, c), r)
    {
      hide Torrent.Val, Torrent.Valid, Torrent.Known, Replies, SharesOf, Peers.CursorOk;
      text := AnnounceReply(tor, r, c);
      tor.SameKnown(mode, users);
    }

    /** The same, seen from the whole memory. */
    method SendReply(tor: Torrent, ghost ih: string, r: Announcement, c: Settings) returns (text: string)
      requires Valid() && ih in torMap && tor == torMap[ih] && CanAnswer(tor, SharesFor(tor, r, c), r)
      modifies tor.Set(Asked(r))`cursor, tor.Set(Asked6(r))`cursor
      ensures Valid() && Whole() == old(Whole()) && Val() == old(Val()) && Replied(text, tor.Val(), r, c)
      ensures tor.Val() == old(tor.Val()) && CanAnswer(tor, SharesFor(tor, r, c), r)
    {
      hide Torrent.Val, Torrent.Valid, Torrent.Known, TorrentsOk, TorrentsVal, Alone, Replied, SharesFor, CanAnswer,
           Whole, Val;
      IsAlone(ih);
      OwnOk(ih);
      text := Compose(tor, r, c);
      Rotated(ih);
    }

    /** The reply to an accepted announce; None if a rotation it needs stands at a peer that was erased, which the
        source leaves undefined. */
    method ReplyTo(tor: Torrent, ghost ih: string, r: Announcement, c: Settings) returns (text: Option<string>)
      requires Valid() && ih in torMap && tor == torMap[ih]
      modifies tor.Set(Asked(r))`cursor, tor.Set(Asked6(r))`cursor
      ensures Valid() && Whole() == old(Whole()) && Val() == old(Val()) && ih in Val().torrents
      ensures text.Some? <==> CanAnswer(tor, SharesFor(tor, r, c), r)
      ensures text.Some? ==> Replied(text.value, Val().torrents[ih], r, c)
    {
      hide Torrent.Val, Torrent.Valid, Torrent.Known, TorrentsOk, TorrentsVal, Replied, SharesFor, Peers.CursorOk,
           Whole, Val, Valid;
      TermsAre(ih);
      if CanAnswer(tor, SharesFor(tor, r, c), r) {
        var reply := SendReply(tor, ih, r, c);
        text := Some(reply);
      } else {
        text := None;
      }
    }

    /**
     * An announce request as it arrives: its peer id may be percent-encoded and its info hash missing. The reply is the
     * reason for the refusal, or the torrent's figures and peers as they are after the announce.
     */
    method HandleAnnounce(r: Announcement, hashes: seq<string>, c: Settings) returns (text: Option<string>)
      requires Valid()
      modifies this`torMap, this`synced, torMap.Values, AllSets(), AllPeers(), stats, users
      modifies db.peers`requests, db.users`requests, db.torrents`requests
      ensures Valid() && Whole() == AfterRequest(old(Whole()), r, hashes)
      ensures Answers(text, old(Val()), Val(), r, hashes, c)
      ensures text.None? ==>
                hashes != [] && hashes[0] in torMap
                && var tor, n := torMap[hashes[0]], Normal(r, hashes); !CanAnswer(tor, SharesFor(tor, n, c), n)
    {
      hide Whole, Val, Valid, AllSets, AllPeers, Refusal, Normal, CanAnswer, SharesFor, Replied, System.Perform;
      if hashes == [] {
        WithoutHash(r.passkey, r.ip);
        var why := if mode.Private? && r.passkey !in usrMap then "passkey not found" else "missing info_hash";
        return Some(Response(ErrorBody(why)));
      }
      var n := Normal(r, hashes);
      NormalHash(r, hashes);
      PartsOf(hashes[0]);
      ghost var w := Val();
      var reason := Handle(n);
      if reason.Some? {
        return Some(Response(ErrorBody(reason.value)));
      }
      text := ReplyTo(torMap[hashes[0]], hashes[0], n, c);
    }

    /** What the loop appends for a torrent. */
    lemma EntryIs(ih: string)
      requires ih in torMap
      ensures var t := torMap[ih];
              && ih in Val().torrents && Val().torrents[ih] == t.Val()
              && ScrapedOf(ih, t.Val()) == Scraped(ih, |t.seeders.pMap| + |t.seeders6.pMap|,
                                                   |t.leechers.pMap| + |t.leechers.pMap|, t.snatches)
    {
      torMap[ih].Sizes();
      hide Peers.Val;
    }

    /** The torrents among the hashes, in the order asked. */
    method Scrape(hashes: seq<string>) returns (text: string)
      requires Valid()
      ensures text == Response(ScrapeBody(ScrapeOf(Val().torrents, hashes)))
    {
      hide Val, ScrapeEntry, ScrapedOf, Valid;
      var resp := "";
      for i := 0 to |hashes|
        invariant resp == ScrapeEntries(ScrapeOf(Val().torrents, hashes[..i]))
      {
        ScrapeMore(Val().torrents, hashes, i);
        HasTorrent(hashes[i]);
        if hashes[i] in torMap {
          EntryIs(hashes[i]);
          var t := torMap[hashes[i]];
          resp := resp + ScrapeEntry(Scraped(hashes[i], |t.seeders.pMap| + |t.seeders6.pMap|,
                                             |t.leechers.pMap| + |t.leechers.pMap|, t.snatches));
        }
      }
      assert hashes[..|hashes|] == hashes;
      text := Response("d5:filesd" + resp + "ee");
    }

    /** A scrape request as it arrives. */
    method HandleScrape(passkey: string, ip: string, hashes: seq<string>) returns (text: string)
      requires Valid()
      ensures Valid() && Whole() == old(Whole()) && Val() == old(Val())
      ensures text == ScrapeAnswer(Val(), passkey, ip, hashes)
    {
      hide ErrorBody, ScrapeBody, ScrapeOf, TorrentsOk, TorrentsVal, UsersVal;
      UserAt(passkey);
      if mode.Private? && passkey !in usrMap {
        return Response(ErrorBody("passkey not found"));
      }
      if hashes == [] {
        return Response(ErrorBody("missing info_hash"));
      }
      if ip in bannedIPs {
        return Response(ErrorBody("banned ip"));
      }
      if mode.Private? && usrMap[passkey].restrictions != {} && ip !in usrMap[passkey].restrictions {
        return Response(ErrorBody("ip not associated with account"));
      }
      text := Scrape(hashes);
      NoTorrent();
    }

    /** The flush timer is three steps, one for each table, unless the tracker is public. */
    method FlushSqlRecords()
      requires Valid()
      modifies db.users, db.torrents, db.peers
      ensures Valid() && Val() == old(Val())
      ensures mode.Public? ==> Whole() == old(Whole())
      ensures !mode.Public? ==> db.users.Flushed() && db.torrents.Flushed() && db.peers.Flushed()
      ensures !mode.Public? ==>
                Whole() == System.Perform(System.Perform(System.Perform(old(Whole()),
                             System.Flush(System.Users)), System.Flush(System.Torrents)), System.Flush(System.Peers))
    {
      hide TorrentsOk, TorrentsVal, UsersVal, Passkeys, UsersOk, PasskeysOk, Buffer.Val, Buffer.Log, WriteBehind.Do;
      if !mode.Public? {
        db.Flush();
        NoTorrent();
      }
    }

    /** A detached worker of one table, when statement i fails exactly if fails[i]; the memory does not notice it. */
    method DoFlushUsers(fails: seq<bool>)
      requires Valid() && db.users.workers > 0 && db.users.pass.None? && |fails| == |db.users.records|
      modifies db.users`records, db.users`applied, db.users`workers, db.users`pass
      ensures Valid() && Whole() == old(Whole()).(users := Whole().users)
      ensures WriteBehind.RunMoves(old(Whole()).users, WriteBehind.PassMoves(fails)) == Some(Whole().users)
    {
      hide TorrentsOk, TorrentsVal, UsersVal, Passkeys, UsersOk, PasskeysOk, Buffer.Val, Buffer.Log;
      db.users.DoFlushRecords(fails);
      NoTorrent();
    }

    method DoFlushTorrents(fails: seq<bool>)
      requires Valid() && db.torrents.workers > 0 && db.torrents.pass.None? && |fails| == |db.torrents.records|
      modifies db.torrents`records, db.torrents`applied, db.torrents`workers, db.torrents`pass
      ensures Valid() && Whole() == old(Whole()).(torrents := Whole().torrents)
      ensures WriteBehind.RunMoves(old(Whole()).torrents, WriteBehind.PassMoves(fails)) == Some(Whole().torrents)
    {
      hide TorrentsOk, TorrentsVal, UsersVal, Passkeys, UsersOk, PasskeysOk, Buffer.Val, Buffer.Log;
      db.torrents.DoFlushRecords(fails);
      NoTorrent();
    }

    method DoFlushPeers(fails: seq<bool>)
      requires Valid() && db.peers.workers > 0 && db.peers.pass.None? && |fails| == |db.peers.records|
      modifies db.peers`records, db.peers`applied, db.peers`workers, db.peers`pass
      ensures Valid() && Whole() == old(Whole()).(peers := Whole().peers)
      ensures WriteBehind.RunMoves(old(Whole()).peers, WriteBehind.PassMoves(fails)) == Some(Whole().peers)
    {
      hide TorrentsOk, TorrentsVal, UsersVal, Passkeys, UsersOk, PasskeysOk, Buffer.Val, Buffer.Log;
      db.peers.DoFlushRecords(fails);
      NoTorrent();
    }
  }

  /** The text cut into pieces of 32 characters, the last one perhaps shorter. */
  function Chunks(s: string): seq<string> {
    if s == "" then [] else if |s| < 32 then [s] else [s[..32]] + Chunks(s[32..])
  }

  lemma NextChunk(s: string, i: nat)
    requires i < |s|
    ensures var n := if |s| - i < 32 then |s| else i + 32;
            Chunks(s[i..]) == [s[i..n]] + Chunks(s[n..])
  {
    var n := if |s| - i < 32 then |s| else i + 32;
    if |s| - i < 32 {
      assert s[n..] == "" && s[i..n] == s[i..];
    } else {
      assert s[i..][..32] == s[i..n] && s[i..][32..] == s[n..];
    }
  }

  lemma ChunkTaken(s: string, i: nat, done: seq<string>)
    requires i < |s| && Chunks(s) == done + Chunks(s[i..])
    ensures var n := if |s| - i < 32 then |s| else i + 32;
            Chunks(s) == done + [s[i..n]] + Chunks(s[n..])
  {
    NextChunk(s, i);
    hide Chunks;
  }

  /** The pieces are the text cut every 32 characters; the last may be shorter. */
  lemma {:induction false} ChunksAre(s: string)
    ensures |Chunks(s)| == (|s| + 31) / 32
    ensures forall k :: 0 <= k < |Chunks(s)| ==>
              32 * k < |s| && Chunks(s)[k] == s[32 * k..if 32 * k + 32 <= |s| then 32 * k + 32 else |s|]
  {
    if |s| < 32 {
      assert s[0..|s|] == s;
    } else {
      var rest := s[32..];
      ChunksAre(rest);
      assert Chunks(s) == [s[..32]] + Chunks(rest);
      forall k | 0 < k < |Chunks(s)|
        ensures 32 * k < |s| && Chunks(s)[k] == s[32 * k..if 32 * k + 32 <= |s| then 32 * k + 32 else |s|]
      {
        var i, j := 32 * (k - 1), 32 * k + 32;
        assert Chunks(s)[k] == Chunks(rest)[k - 1] && i < |rest|;
        SliceBehind(s, 32, 32 * k, if j <= |s| then j else |s|);
      }
    }
  }

  lemma SliceBehind(s: string, n: nat, a: nat, b: nat)
    requires n <= a <= b <= |s|
    ensures s[n..][a - n..b - n] == s[a..b]
  {}

  lemma {:induction false} RemovedAll(s: System.System, passkeys: seq<string>, p: string)
    ensures System.PerformAll(s, Removals(passkeys)).Some?
    ensures var w' := System.PerformAll(s, Removals(passkeys)).value.w;
            p in w'.passkeys <==> p in s.w.passkeys && p !in passkeys
  {
    if passkeys == [] {
      NoRemovals(s);
    } else {
      var n := |passkeys| - 1;
      var e := Edit.RemoveUser(passkeys[n]);
      RemovedAll(s, passkeys[..n], p);
      var s1 := System.PerformAll(s, Removals(passkeys[..n])).value;
      assert passkeys == passkeys[..n] + [passkeys[n]];
      RemovedOneMore(s, passkeys[..n], s1, passkeys[n]);
      System.PerformOne(s, Removals(passkeys[..n]), s1, System.Track(DoEdit(e)));
      System.MemoryAfter(s1, System.Track(DoEdit(e)));
      hide System.PerformAll, System.Perform, System.CanAct, Removals;
    }
  }

  /** Removing a text of passkeys makes unknown exactly those that stand at a multiple of 32 in it, 32 characters each
      or what is left. */
  lemma PiecesRemoved(s: System.System, passkeys: string, p: string)
    ensures System.PerformAll(s, Removals(Chunks(passkeys))).Some?
    ensures var w' := System.PerformAll(s, Removals(Chunks(passkeys))).value.w;
            p in w'.passkeys <==>
              p in s.w.passkeys
              && forall k: nat :: 32 * k < |passkeys| ==>
                   p != passkeys[32 * k..if 32 * k + 32 <= |passkeys| then 32 * k + 32 else |passkeys|]
  {
    hide Chunks, Removals, System.PerformAll;
    RemovedAll(s, Chunks(passkeys), p);
    ChunksAre(passkeys);
    forall k: nat | 32 * k < |passkeys|
      ensures passkeys[32 * k..if 32 * k + 32 <= |passkeys| then 32 * k + 32 else |passkeys|] in Chunks(passkeys)
    {
      assert k < |Chunks(passkeys)|;
    }
  }

  function Removals(passkeys: seq<string>): seq<System.Act> {
    seq(|passkeys|, i requires 0 <= i < |passkeys| => System.Track(DoEdit(Edit.RemoveUser(passkeys[i]))))
  }

  lemma NoRemovals(s: System.System)
    ensures System.PerformAll(s, Removals([])) == Some(s)
  {}

  lemma RemovedOneMore(s: System.System, done: seq<string>, s1: System.System, passkey: string)
    requires System.PerformAll(s, Removals(done)) == Some(s1)
    ensures var a := System.Track(DoEdit(Edit.RemoveUser(passkey)));
            System.PerformAll(s, Removals(done + [passkey])) == Some(System.Perform(s1, a))
  {
    var a := System.Track(DoEdit(Edit.RemoveUser(passkey)));
    System.PerformOne(s, Removals(done), s1, a);
    assert Removals(done + [passkey]) == Removals(done) + [a];
    hide System.Perform;
  }

  /** The system after an announce request; without an info hash nothing happens. */
  ghost function AfterRequest(s: System.System, r: Announcement, hashes: seq<string>): System.System {
    if hashes == [] then s else System.Perform(s, System.Track(DoAnnounce(Normal(r, hashes))))
  }

  /** What the request is answered, if anything: w is the memory before it, w' the memory after it. */
  ghost predicate Answers(text: Option<string>, w: World, w': World, r: Announcement, hashes: seq<string>,
                          c: Settings) {
    text.Some? ==>
      if hashes == [] then text == Some(Response(ErrorBody(Turned(w, r.passkey, r.ip, hashes).value)))
      else
        var n := Normal(r, hashes);
        match Refusal(w, n)
        case Some(reason) => text == Some(Response(ErrorBody(reason)))
        case None => hashes[0] in w'.torrents && Replied(text.value, w'.torrents[hashes[0]], n, c)
  }

  /** The reply to a scrape. */
  function ScrapeAnswer(w: World, passkey: string, ip: string, hashes: seq<string>): string {
    match Turned(w, passkey, ip, hashes)
    case Some(reason) => Response(ErrorBody(reason))
    case None => Response(ScrapeBody(ScrapeOf(w.torrents, hashes)))
  }

  lemma NormalHash(r: Announcement, hashes: seq<string>)
    requires hashes != []
    ensures Normal(r, hashes).infoHash == hashes[0]
  {}

  ghost function ValsOf(users: seq<User>): seq<UserV>
    reads users
  {
    seq(|users|, i requires 0 <= i < |users| reads users => users[i].Val())
  }
}
