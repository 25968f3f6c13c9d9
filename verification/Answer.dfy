/** The reply to an announce: which peers the rotation hands out, and what the reply's reader gets. */
module Answer {
  import opened Options
  import opened Ledger
  import opened Tracker
  import opened Shape
  import opened Utility
  import opened Bencode
  import opened Reply
  import opened Rotation
  import opened Slots
  import opened Swarm

  /** The next peers of a rotation over `order`. */
  function PickedIds(order: seq<string>, p: nat, numwant: int): (ids: seq<string>)
    requires p <= |order|
    ensures forall i :: 0 <= i < |ids| ==> ids[i] in order
  {
    if numwant <= 0 || order == [] then []
    else
      PicksLength(|order|, p, numwant);
      var picks := Picks(|order|, p, numwant);
      seq(numwant, i requires 0 <= i < numwant => order[picks[i]])
  }

  /** Their packed addresses. */
  function Picked(m: PeerMap, order: seq<string>, p: nat, numwant: int): seq<string>
    requires p <= |order| && Listed(m, order)
  {
    var ids := PickedIds(order, p, numwant);
    seq(|ids|, i requires 0 <= i < |ids| => m[ids[i]].hexIPPort)
  }

  /** The list announces `numwant` peers and holds the next ones of the rotation, which it moves on. */
  method GetPeers(peers: Peers, numwant: int, ipv6: bool) returns (list: string)
    requires peers.Valid() && (numwant > 0 ==> peers.CursorOk())
    modifies peers`cursor
    ensures peers.Valid() && (peers.CursorOk() <==> old(peers.CursorOk()))
    ensures peers.Val() == old(peers.Val()) && Listed(peers.Val(), peers.order)
    ensures list == PeerList(Picked(peers.Val(), peers.order, old(peers.Position()), numwant), numwant, ipv6)
  {
    hide Decimal, Picked, Peers.Valid, Peers.Val;
    peers.IsListed();
    ghost var p := peers.Position();
    var head := (if ipv6 then "6:peers6" else "5:peers") + (Decimal(numwant * Bytes(ipv6)) + ":");
    list := head;
    ghost var entries: seq<string> := [];
    NonePicked(peers.Val(), peers.order, p, numwant);
    var i := 0;
    while i < numwant
      invariant 0 <= i <= if numwant > 0 then numwant else 0
      invariant peers.Valid() && (peers.CursorOk() <==> old(peers.CursorOk())) && peers.Val() == old(peers.Val())
      invariant list == head + Join(entries) && entries == Picked(peers.Val(), peers.order, p, i)
      invariant peers.order != [] ==> peers.Position() == After(|peers.order|, p, i)
    {
      list, entries := SendNext(peers, list, head, entries, p, i);
      i := i + 1;
    }
    NonePicked(peers.Val(), peers.order, p, numwant);
    Joined(if ipv6 then "6:peers6" else "5:peers", Decimal(numwant * Bytes(ipv6)), Join(entries));
  }

  lemma Joined(key: string, size: string, joined: string)
    ensures key + (size + ":") + joined == key + (size + ":" + joined)
  {}

  /** One peer of the list. */
  method SendNext(peers: Peers, list: string, ghost head: string, ghost entries: seq<string>, ghost p: nat,
                  ghost i: nat)
      returns (list': string, ghost entries': seq<string>)
    requires peers.Valid() && peers.CursorOk() && Listed(peers.Val(), peers.order) && p <= |peers.order|
    requires list == head + Join(entries) && entries == Picked(peers.Val(), peers.order, p, i)
    requires peers.order != [] ==> peers.Position() == After(|peers.order|, p, i)
    modifies peers`cursor
    ensures peers.Valid() && peers.CursorOk() && peers.Val() == old(peers.Val())
    ensures list' == head + Join(entries') && entries' == Picked(peers.Val(), peers.order, p, i + 1)
    ensures peers.order != [] ==> peers.Position() == After(|peers.order|, p, i + 1)
  {
    hide Picked, Peers.Val, Join, Listed;
    list', entries' := list, entries;
    NonePicked(peers.Val(), peers.order, p, i);
    NonePicked(peers.Val(), peers.order, p, i + 1);
    if peers.order != [] {
      PickedMore(peers.Val(), peers.order, p, i);
      PicksMore(|peers.order|, p, i);
    }
    label before:
    var q := peers.NextPeer();
    peers.Same@before();
    if q != null {
      peers.HexOf(q.peerID);
      list' := list + q.hexIPPort;
      entries' := entries + [q.hexIPPort];
      JoinMore(entries, q.hexIPPort);
    }
  }

  lemma NonePicked(m: PeerMap, order: seq<string>, p: nat, numwant: int)
    requires p <= |order| && Listed(m, order)
    ensures order == [] || numwant <= 0 ==> Picked(m, order, p, numwant) == []
    ensures Picked(m, order, p, 0) == []
  {}

  lemma JoinMore(entries: seq<string>, s: string)
    ensures Join(entries + [s]) == Join(entries) + s
  {
    assert (entries + [s])[..|entries|] == entries;
  }

  lemma PickedMore(m: PeerMap, order: seq<string>, p: nat, k: nat)
    requires p <= |order| && Listed(m, order) && order != []
    ensures var q := After(|order|, p, k);
            Picked(m, order, p, k + 1) == Picked(m, order, p, k) + [m[order[if q == |order| then 0 else q]].hexIPPort]
  {
    PicksMore(|order|, p, k);
    PicksLength(|order|, p, k);
    PicksLength(|order|, p, k + 1);
  }

  // ---------------------------------------------------------------- the whole reply

  /** Whose addresses an announce is sent: a finished peer asks for leechers, any other for seeders. */
  function Asked(r: Announcement): Slot { if r.finished then Leechers else Seeders }

  function Asked6(r: Announcement): Slot { if r.finished then Leechers6 else Seeders6 }

  method PeerLists(peers: Peers, peers6: Peers, i: int, j: int) returns (list: string, list6: string)
    requires peers != peers6 && peers.Valid() && peers6.Valid()
    requires (i > 0 ==> peers.CursorOk()) && (j > 0 ==> peers6.CursorOk())
    modifies peers`cursor, peers6`cursor
    ensures peers.Valid() && (peers.CursorOk() <==> old(peers.CursorOk())) && peers.Val() == old(peers.Val())
    ensures peers6.Valid() && (peers6.CursorOk() <==> old(peers6.CursorOk())) && peers6.Val() == old(peers6.Val())
    ensures Listed(old(peers.Val()), peers.order) && Listed(old(peers6.Val()), peers6.order)
    ensures list == PeerList(Picked(old(peers.Val()), peers.order, old(peers.Position()), i), i, false)
    ensures list6 == if j > 0 then
                       PeerList(Picked(old(peers6.Val()), peers6.order, old(peers6.Position()), j), j, true)
                     else ""
  {
    hide Decimal, Picked, Peers.Val, PeerList, Peers.Valid;
    peers.IsListed();
    peers6.IsListed();
    list6 := "";
    if j > 0 {
      list6 := GetPeers(peers6, j, true);
    }
    list := GetPeers(peers, i, false);
  }

  /** Whether the rotations the reply needs have a peer to go on from. */
  predicate CanAnswer(tor: Torrent, s: Shares, r: Announcement)
    reads tor.Set(Asked(r)), tor.Set(Asked6(r))
  {
    (s.v4 > 0 ==> tor.Set(Asked(r)).CursorOk()) && (s.v6 > 0 ==> tor.Set(Asked6(r)).CursorOk())
  }

  function SharesFor(tor: Torrent, r: Announcement, c: Settings): Shares
    reads tor.Set(Asked(r))`pMap, tor.Set(Asked6(r))`pMap
  {
    SharesOf(r, c, |tor.Set(Asked(r)).pMap|, |tor.Set(Asked6(r)).pMap|)
  }

  /** Both lists from the asked sets of a torrent, of which only the rotations move on. */
  method TorrentLists(tor: Torrent, r: Announcement, s: Shares) returns (list: string, list6: string)
    requires tor.Valid() && CanAnswer(tor, s, r)
    modifies tor.Set(Asked(r))`cursor, tor.Set(Asked6(r))`cursor
    ensures tor.Valid() && tor.Val() == old(tor.Val())
    ensures forall s: Slot :: tor.Set(s).CursorOk() <==> old(tor.Set(s).CursorOk())
    ensures var peers, peers6 := tor.Set(Asked(r)), tor.Set(Asked6(r));
            && Listed(peers.Val(), peers.order) && Listed(peers6.Val(), peers6.order)
            && list == PeerList(Picked(peers.Val(), peers.order, old(peers.Position()), s.v4), s.v4, false)
            && list6 == if s.v6 > 0 then
                          PeerList(Picked(peers6.Val(), peers6.order, old(peers6.Position()), s.v6), s.v6, true)
                        else ""
  {
    hide Decimal, Picked, Peers.Val, PeerList, Torrent.Val, Peers.Valid, Listed;
    tor.Apart(Asked(r), Asked6(r));
    list, list6 := PeerLists(tor.Set(Asked(r)), tor.Set(Asked6(r)), s.v4, s.v6);
    forall u: Slot
      ensures tor.Set(u).Valid() && tor.Set(u).Val() == old(tor.Set(u).Val())
    {
      if u != Asked(r) && u != Asked6(r) {
        tor.Apart(u, Asked(r));
        tor.Apart(u, Asked6(r));
        tor.Set(u).Same();
      }
    }
    tor.SameSets();
  }

  /** The peers an announce asks for: of either family, the leechers for a finished peer and the seeders for any other.
      */
  function Sought(t: TorrentV, r: Announcement): PeerMap { if r.finished then t.leechers else t.seeders }

  function Sought6(t: TorrentV, r: Announcement): PeerMap { if r.finished then t.leechers6 else t.seeders6 }

  /** That body as a function of the torrent and of the rotations' orders and positions. */
  function BodyFor(t: TorrentV, r: Announcement, c: Settings, order: seq<string>, p: nat, order6: seq<string>,
                   p6: nat): string
    requires p <= |order| && p6 <= |order6| && Listed(Sought(t, r), order) && Listed(Sought6(t, r), order6)
  {
    var s := SharesOf(r, c, |Sought(t, r)|, |Sought6(t, r)|);
    AnnounceBody(TorrentRowOf(t), c, s, Picked(Sought6(t, r), order6, p6, s.v6),
                 Picked(Sought(t, r), order, p, s.v4))
  }

  /** The text is the reply for torrent t from these positions of the asked rotations. */
  ghost predicate Replies(text: string, t: TorrentV, r: Announcement, c: Settings, order: seq<string>, p: nat,
                          order6: seq<string>, p6: nat) {
    && p <= |order| && p6 <= |order6|
    && Visits(order, Sought(t, r).Keys) && Visits(order6, Sought6(t, r).Keys)
    && Listed(Sought(t, r), order) && Listed(Sought6(t, r), order6)
    && text == Response(BodyFor(t, r, c, order, p, order6, p6))
  }

  /** The text is the reply for torrent t from some position of each asked rotation. */
  ghost predicate Replied(text: string, t: TorrentV, r: Announcement, c: Settings) {
    exists order, p: nat, order6, p6: nat :: Replies(text, t, r, c, order, p, order6, p6)
  }

  lemma RepliesIs(text: string, head: string, list: string, list6: string, t: TorrentV, r: Announcement, c: Settings,
                  order: seq<string>, p: nat, order6: seq<string>, p6: nat)
    requires p <= |order| && p6 <= |order6| && Listed(Sought(t, r), order) && Listed(Sought6(t, r), order6)
    requires Visits(order, Sought(t, r).Keys) && Visits(order6, Sought6(t, r).Keys)
    requires var row := TorrentRowOf(t);
             head == CountsText(row.seeders, row.leechers, row.snatches)
                     + (IntField("8:interval", c.interval) + IntField("12:min interval", c.minInterval))
    requires var s := SharesOf(r, c, |Sought(t, r)|, |Sought6(t, r)|);
             && list == PeerList(Picked(Sought(t, r), order, p, s.v4), s.v4, false)
             && list6 == if s.v6 > 0 then PeerList(Picked(Sought6(t, r), order6, p6, s.v6), s.v6, true) else ""
    requires text == Response("d" + (head + (list6 + (list + "e"))))
    ensures Replies(text, t, r, c, order, p, order6, p6)
  {
    hide CountsText, IntField, PeerList, Picked, Listed, TorrentRowOf, SharesOf, Visits;
  }

  /** What the object says of the torrent is what its value says. */
  lemma Figures(tor: Torrent, r: Announcement)
    requires tor.Valid()
    ensures var t := tor.Val();
            && TorrentRowOf(t) == TorrentRow(t.id, |tor.seeders.pMap| + |tor.seeders6.pMap|,
                                             |tor.leechers.pMap| + |tor.leechers6.pMap|, tor.snatches, t.balance)
            && Sought(t, r) == tor.Set(Asked(r)).Val() && Sought6(t, r) == tor.Set(Asked6(r)).Val()
            && |Sought(t, r)| == |tor.Set(Asked(r)).pMap| && |Sought6(t, r)| == |tor.Set(Asked6(r)).pMap|
            && Visits(tor.Set(Asked(r)).order, Sought(t, r).Keys)
            && Visits(tor.Set(Asked6(r)).order, Sought6(t, r).Keys)
  {
    hide Visits, Peers.Val, Torrent.Val, Torrent.Valid, TorrentRowOf;
    tor.Row();
    SetFigures(tor, Asked(r));
    SetFigures(tor, Asked6(r));
    TorrentId(tor);
  }

  lemma TorrentId(tor: Torrent)
    ensures tor.Val().id == tor.id && tor.Val().balance == tor.balance
  {}

  lemma SetFigures(tor: Torrent, s: Slot)
    requires tor.Valid()
    ensures var m := tor.Val().Get(s);
            m == tor.Set(s).Val() && |m| == |tor.Set(s).pMap| && Visits(tor.Set(s).order, m.Keys)
  {
    hide Visits;
    assert tor.Set(s).Valid();
    SameSize(tor.Set(s).pMap, tor.Set(s).Val());
  }

  /** The reply with so many peers of each family. */
  method ReplyWith(tor: Torrent, r: Announcement, c: Settings, s: Shares) returns (text: string)
    requires tor.Valid() && s == SharesFor(tor, r, c) && CanAnswer(tor, s, r)
    modifies tor.Set(Asked(r))`cursor, tor.Set(Asked6(r))`cursor
    ensures tor.Valid() && tor.Val() == old(tor.Val())
    ensures forall s: Slot :: tor.Set(s).CursorOk() <==> old(tor.Set(s).CursorOk())
    ensures var peers, peers6 := tor.Set(Asked(r)), tor.Set(Asked6(r));
            Replies(text, tor.Val(), r, c, peers.order, old(peers.Position()), peers6.order, old(peers6.Position()))
  {
    hide Decimal, Picked, Peers.Val, PeerList, Peers.Valid, Torrent.Valid, Torrent.Val, CountsText, IntField,
         TorrentRowOf, Listed, Replies, CanAnswer, SharesOf, Visits;
    Figures(tor, r);
    ghost var t := tor.Val();
    ghost var p, p6 := tor.Set(Asked(r)).Position(), tor.Set(Asked6(r)).Position();
    var head := CountsText(|tor.seeders.pMap| + |tor.seeders6.pMap|, |tor.leechers.pMap| + |tor.leechers6.pMap|,
                           tor.snatches)
                + (IntField("8:interval", c.interval) + IntField("12:min interval", c.minInterval));
    var list, list6 := TorrentLists(tor, r, s);
    Figures(tor, r);
    text := Response("d" + (head + (list6 + (list + "e"))));
    RepliesIs(text, head, list, list6, t, r, c, tor.Set(Asked(r)).order, p, tor.Set(Asked6(r)).order, p6);
  }

  /** The reply: the torrent's counts, and the next peers of the asked sets in rotation. */
  method AnnounceReply(tor: Torrent, r: Announcement, c: Settings) returns (text: string)
    requires tor.Valid() && CanAnswer(tor, SharesFor(tor, r, c), r)
    modifies tor.Set(Asked(r))`cursor, tor.Set(Asked6(r))`cursor
    ensures tor.Valid() && tor.Val() == old(tor.Val())
    ensures forall s: Slot :: tor.Set(s).CursorOk() <==> old(tor.Set(s).CursorOk())
    ensures var peers := if r.finished then tor.leechers else tor.seeders;
            var peers6 := if r.finished then tor.leechers6 else tor.seeders6;
            Replies(text, tor.Val(), r, c, peers.order, old(peers.Position()), peers6.order, old(peers6.Position()))
  {
    hide Peers.Val, Peers.Valid, Torrent.Valid, Torrent.Val, Replies, CanAnswer, Peers.CursorOk;
    var i, j := 0, 0;
    if !r.event.Stopped? {
      i := if r.numwant.Some? then r.numwant.value else c.defaultNumwant;
      i := Min(Min(i, c.maxNumwant), |tor.Set(Asked(r)).pMap|);
      if r.ipv6 {
        j := Min(Min(i, c.maxNumwant), |tor.Set(Asked6(r)).pMap|);
      }
      i := i - j;
    }
    text := ReplyWith(tor, r, c, Shares(i, j));
  }

  lemma {:induction false} VisitsSize<T(!new)>(order: seq<T>, s: set<T>)
    requires Visits(order, s)
    ensures |order| == |s|
  {
    if order == [] {
      assert s == {};
    } else {
      var n := |order| - 1;
      assert order == order[..n] + [order[n]];
      assert Visits(order[..n], s - {order[n]}) by {
        forall x ensures x in order[..n] <==> x in s - {order[n]} {}
      }
      VisitsSize(order[..n], s - {order[n]});
    }
  }

  /** An entry: the address bytes of the peer, then its port in two bytes, the high one first. */
  predicate Packs(entry: string, p: PeerV) {
    && |entry| == |p.birth.address| + 2 && entry[..|p.birth.address|] == p.birth.address
    && 256 * (entry[|entry| - 2] as nat) + entry[|entry| - 1] as nat == p.port % 0x1_0000
  }

  lemma PackedIs(p: PeerV, ipv6: bool)
    requires PackedFits(p, ipv6)
    ensures Packs(p.hexIPPort, p) && |p.hexIPPort| == if ipv6 then 18 else 6
  {
    IpPortRoundTrip(p.birth.address, p.port);
  }

  /** Handing out no more peers than there are: they are different members, all of them if asked for all, and each entry
      reads back as the member's address and the low 16 bits of its port. */
  lemma HandedOut(m: PeerMap, order: seq<string>, p: nat, numwant: nat, ipv6: bool)
    requires Visits(order, m.Keys) && p <= |order| && numwant <= |m|
    requires forall id :: id in m ==> PackedFits(m[id], ipv6)
    ensures Listed(m, order)
    ensures var ids := PickedIds(order, p, numwant);
            var entries := Picked(m, order, p, numwant);
            && |ids| == numwant && |entries| == numwant && Sized(entries, Bytes(ipv6))
            && (forall i, j :: 0 <= i < j < numwant ==> ids[i] != ids[j])
            && (forall i :: 0 <= i < numwant ==>
                  ids[i] in m && Packs(entries[i], m[ids[i]]))
            && (numwant == |m| ==> forall id :: id in m ==> id in ids)
  {
    VisitsSize(order, m.Keys);
    forall i | 0 <= i < |order| ensures order[i] in m { assert order[i] in order; }
    var ids := PickedIds(order, p, numwant);
    var entries := Picked(m, order, p, numwant);
    if numwant > 0 {
      RotationIsFair(|order|, p, numwant);
      forall i | 0 <= i < numwant
        ensures |entries[i]| == Bytes(ipv6) && Packs(entries[i], m[ids[i]])
      {
        PackedIs(m[ids[i]], ipv6);
        assert ids[i] in m && entries[i] == m[ids[i]].hexIPPort;
      }
      if numwant == |m| { AllIds(m, order, p); }
    }
  }

  lemma AllIds(m: PeerMap, order: seq<string>, p: nat)
    requires Visits(order, m.Keys) && p <= |order| && |order| == |m| && |m| > 0
    ensures forall id :: id in m ==> id in PickedIds(order, p, |m|)
  {
    RotationIsFair(|order|, p, |m|);
    forall id | id in m ensures id in PickedIds(order, p, |m|) {
      var k :| 0 <= k < |order| && order[k] == id;
      assert k in Picks(|order|, p, |m|);
      var i :| 0 <= i < |m| && Picks(|order|, p, |m|)[i] == k;
      assert PickedIds(order, p, |m|)[i] == id;
    }
  }

  /** A set of peers with the order and the position of its rotation. */
  datatype Wheel = Wheel(peers: PeerMap, order: seq<string>, at: nat) {
    /** Every peer comes up once in a turn, and every entry is packed for the family. */
    ghost predicate Turns(ipv6: bool) {
      Visits(order, peers.Keys) && at <= |order| && forall id :: id in peers ==> PackedFits(peers[id], ipv6)
    }
  }

  /** The i-th entry of a peer string with entries of `size` bytes is that of p. */
  predicate EntryAt(text: string, i: nat, size: nat, p: PeerV) {
    0 <= i * size <= i * size + size <= |text| && Packs(text[i * size..i * size + size], p)
  }

  /** What a reader of the reply is promised of one peer string: n different members of the set, by address and port, in
      6 bytes each, or 18 for IPv6; all members if there are no more. */
  ghost predicate Announces(text: string, peers: PeerMap, n: nat, ipv6: bool) {
    var size := if ipv6 then 18 else 6;
    exists ids: seq<string> ::
      && |ids| == n && (forall i, j :: 0 <= i < j < n ==> ids[i] != ids[j])
      && (forall i :: 0 <= i < n ==> ids[i] in peers && EntryAt(text, i, size, peers[ids[i]]))
      && (n == |peers| ==> forall id :: id in peers ==> id in ids)
      && |text| == n * size
  }

  lemma {:induction false} JoinAt(entries: seq<string>, size: nat, i: nat)
    requires Sized(entries, size) && i < |entries|
    ensures |Join(entries)| == |entries| * size && 0 <= i * size <= i * size + size <= |entries| * size
    ensures Join(entries)[i * size..i * size + size] == entries[i]
  {
    var n := |entries| - 1;
    OneMoreTime(n, size);
    if n > 0 { JoinAt(entries[..n], size, if i < n then i else n - 1); }
  }

  lemma EntryRead(entries: seq<string>, size: nat, i: nat, p: PeerV)
    requires Sized(entries, size) && i < |entries| && Packs(entries[i], p)
    ensures EntryAt(Join(entries), i, size, p)
  {
    JoinAt(entries, size, i);
    hide Packs, Join;
  }

  lemma StringAnnounces(w: Wheel, n: nat, ipv6: bool)
    requires w.Turns(ipv6) && n <= |w.peers|
    ensures w.at <= |w.order| && Listed(w.peers, w.order)
    ensures Sized(Picked(w.peers, w.order, w.at, n), Bytes(ipv6)) && |Picked(w.peers, w.order, w.at, n)| == n
    ensures Announces(Join(Picked(w.peers, w.order, w.at, n)), w.peers, n, ipv6)
  {
    hide Picked, PickedIds, Visits, Join, EntryAt, Packs;
    HandedOut(w.peers, w.order, w.at, n, ipv6);
    var ids, entries := PickedIds(w.order, w.at, n), Picked(w.peers, w.order, w.at, n);
    SizeIsPositive(ipv6);
    SplitOfJoin(entries, Bytes(ipv6));
    forall i | 0 <= i < n ensures EntryAt(Join(entries), i, Bytes(ipv6), w.peers[ids[i]]) {
      EntryRead(entries, Bytes(ipv6), i, w.peers[ids[i]]);
    }
  }

  lemma SizeIsPositive(ipv6: bool)
    ensures Bytes(ipv6) >= 6
  {}

  lemma WheelTurns(t: TorrentV, s: Slot, order: seq<string>, p: nat, mode: Mode, users: seq<UserV>)
    requires TorrentFits(t, mode, users) && Visits(order, t.Get(s).Keys) && p <= |order|
    ensures Wheel(t.Get(s), order, p).Turns(s.IPv6()) && Listed(t.Get(s), order)
  {
    forall i | 0 <= i < |order| ensures order[i] in t.Get(s) { assert order[i] in order; }
    forall id | id in t.Get(s) ensures PackedFits(t.Get(s)[id], s.IPv6()) {
      assert ColumnFits(ColumnOf(t, id), id, t.id, mode, users);
    }
  }

  /** What the reply's reader decodes: the torrent's figures, the intervals and the peer strings, those of IPv6 only if
      there is one. */
  function Answered(t: TorrentV, c: Settings, six: bool, text6: string, text: string): Ben {
    var peers := Item("peers", Str(text), End);
    Dict(Item("complete", Int(|t.seeders| + |t.seeders6|),
         Item("incomplete", Int(|t.leechers| + |t.leechers6|),
         Item("downloaded", Int(t.snatches),
         Item("interval", Int(c.interval),
         Item("min interval", Int(c.minInterval), if six then Item("peers6", Str(text6), peers) else peers))))))
  }

  lemma AnsweredIs(t: TorrentV, c: Settings, s: Shares, text6: string, text: string)
    ensures Dict(Append(Header(TorrentRowOf(t), c), Strings(s, text6, text))) == Answered(t, c, s.v6 > 0, text6, text)
  {
    var more := Strings(s, text6, text);
    var last := Item("min interval", Int(c.minInterval), End);
    assert Append(last, more) == Item("min interval", Int(c.minInterval), more);
    HeaderAppends(TorrentRowOf(t), c, more);
  }

  lemma HeaderAppends(row: TorrentRow, c: Settings, more: Items)
    ensures Append(Header(row, c), more)
         == Item("complete", Int(row.seeders), Item("incomplete", Int(row.leechers),
            Item("downloaded", Int(row.snatches), Item("interval", Int(c.interval),
            Item("min interval", Int(c.minInterval), more)))))
  {
    var tail := Item("interval", Int(c.interval), Item("min interval", Int(c.minInterval), End));
    AppendsTwo("interval", Int(c.interval), "min interval", Int(c.minInterval), more);
    var third := Item("downloaded", Int(row.snatches), tail);
    var second := Item("incomplete", Int(row.leechers), third);
    assert Append(Item("downloaded", Int(row.snatches), End), tail) == third;
    assert Append(Item("incomplete", Int(row.leechers), Item("downloaded", Int(row.snatches), End)), tail) == second;
    assert Header(row, c) == Item("complete", Int(row.seeders), second);
    assert Append(third, more) == Item("downloaded", Int(row.snatches), Append(tail, more));
    assert Append(second, more) == Item("incomplete", Int(row.leechers), Append(third, more));
  }

  lemma AppendsTwo(j: string, u: Ben, k: string, v: Ben, more: Items)
    ensures Append(Item(j, u, Item(k, v, End)), more) == Item(j, u, Item(k, v, more))
  {
    assert Append(Item(k, v, End), more) == Item(k, v, more);
  }

  /** The body is one bencoded dictionary with nothing behind it: the torrent's figures, and different leechers for a
      finished peer, different seeders for any other, as many of each family as are due. */
  ghost predicate Tells(body: string, t: TorrentV, r: Announcement, c: Settings) {
    var peers := if r.finished then t.leechers else t.seeders;
    var peers6 := if r.finished then t.leechers6 else t.seeders6;
    exists n: nat, n6: int, text6: string, text: string ::
      TellsThese(body, t, r, c, peers, peers6, n, n6, text6, text)
  }

  ghost predicate TellsThese(body: string, t: TorrentV, r: Announcement, c: Settings, peers: PeerMap, peers6: PeerMap,
                             n: nat, n6: int, text6: string, text: string) {
    && Decode(body) == Done(Answered(t, c, n6 > 0, text6, text), "")
    && Announces(text, peers, n, false) && (n6 > 0 ==> Announces(text6, peers6, n6, true))
    && FairShares(r, c, |peers|, |peers6|, n, n6)
  }

  lemma TellsBy(body: string, t: TorrentV, r: Announcement, c: Settings, n: nat, n6: int, text6: string, text: string)
    requires TellsThese(body, t, r, c, Sought(t, r), Sought6(t, r), n, n6, text6, text)
    ensures Tells(body, t, r, c)
  {}

  lemma TellsDecodes(body: string, t: TorrentV, r: Announcement, c: Settings)
    requires Tells(body, t, r, c)
    ensures Decode(body).Done?
  {
    var n: nat, n6: int, text6: string, text: string :|
      TellsThese(body, t, r, c, Sought(t, r), Sought6(t, r), n, n6, text6, text);
    TheseDecode(body, t, r, c, n, n6, text6, text);
  }

  lemma TheseDecode(body: string, t: TorrentV, r: Announcement, c: Settings, n: nat, n6: int, text6: string,
                    text: string)
    requires TellsThese(body, t, r, c, Sought(t, r), Sought6(t, r), n, n6, text6, text)
    ensures Decode(body).Done?
  {}

  /**
   * The reply to an announce, for every torrent a run can reach: unless an IPv4 peer that goes on asks for fewer than
   * no peers, the body is one bencoded dictionary with nothing behind it, whose integers are the torrent's counts and
   * the intervals, and whose peer strings hold different leechers for a finished peer and different seeders for any
   * other: together as many as asked for and allowed, or all of its IPv4 set if that has no more, and among them as
   * many IPv6 ones as there are for an IPv6 peer and none for another; a stopped peer gets none. In that one case the
   * body is no bencoding at all.
   */
  lemma ReplyReads(t: TorrentV, r: Announcement, c: Settings, order: seq<string>, p: nat, order6: seq<string>, p6: nat,
                   mode: Mode, users: seq<UserV>)
    requires TorrentFits(t, mode, users) && p <= |order| && p6 <= |order6|
    requires Visits(order, (if r.finished then t.leechers else t.seeders).Keys)
    requires Visits(order6, (if r.finished then t.leechers6 else t.seeders6).Keys)
    ensures Listed(Sought(t, r), order) && Listed(Sought6(t, r), order6)
    ensures var body := BodyFor(t, r, c, order, p, order6, p6);
            if r.event.Stopped? || r.ipv6 || AsksEnough(r, c) then Tells(body, t, r, c) else Decode(body).Fail?
  {
    hide Announces, AnnounceBody, Decode, Header, Picked, TorrentFits, Listed, Wheel.Turns, Append, Visits,
         AsksEnough, SharesOf, Answered, FairShares, Strings;
    var w, w6 := Wheel(Sought(t, r), order, p), Wheel(Sought6(t, r), order6, p6);
    WheelTurns(t, Asked(r), order, p, mode, users);
    WheelTurns(t, Asked6(r), order6, p6, mode, users);
    var s := SharesOf(r, c, |w.peers|, |w6.peers|);
    SharesFit(r, c, |w.peers|, |w6.peers|);
    ReadBody(TorrentRowOf(t), c, s, w, w6);
    if r.event.Stopped? || r.ipv6 || AsksEnough(r, c) {
      var body := BodyFor(t, r, c, order, p, order6, p6);
      var text6: string, text: string :|
        && Decode(body) == Done(Dict(Append(Header(TorrentRowOf(t), c), Strings(s, text6, text))), "")
        && Announces(text, w.peers, s.v4, false) && (s.v6 > 0 ==> Announces(text6, w6.peers, s.v6, true));
      AnsweredIs(t, c, s, text6, text);
      TellsBy(body, t, r, c, s.v4, s.v6, text6, text);
    }
  }

  lemma ReadBody(row: TorrentRow, c: Settings, s: Shares, w: Wheel, w6: Wheel)
    requires w.Turns(false) && w6.Turns(true) && s.v4 <= |w.peers| && s.v6 <= |w6.peers| && (s.v4 < 0 ==> s.v6 <= 0)
    ensures Listed(w.peers, w.order) && Listed(w6.peers, w6.order)
    ensures var body := AnnounceBody(row, c, s, Picked(w6.peers, w6.order, w6.at, s.v6),
                                     Picked(w.peers, w.order, w.at, s.v4));
            if s.v4 < 0 then Decode(body).Fail?
            else
              exists text6: string, text: string ::
                && Decode(body) == Done(Dict(Append(Header(row, c), Strings(s, text6, text))), "")
                && Announces(text, w.peers, s.v4, false) && (s.v6 > 0 ==> Announces(text6, w6.peers, s.v6, true))
  {
    hide Announces, Picked, AnnounceBody, Decode, Header, Wheel.Turns;
    StringAnnounces(w, if s.v4 < 0 then 0 else s.v4, false);
    StringAnnounces(w6, if s.v6 < 0 then 0 else s.v6, true);
    var e, e6 := Picked(w.peers, w.order, w.at, s.v4), Picked(w6.peers, w6.order, w6.at, s.v6);
    if s.v4 < 0 {
      NegativeBodyFails(row, c, s, e6, e);
    } else {
      NonePicked(w6.peers, w6.order, w6.at, s.v6);
      BodyDecodes(row, c, s, e6, e);
    }
  }

  /** After any run, every torrent's reply reads as promised. */
  lemma RunReplyReads(w: World, steps: seq<Step>, r: Announcement, c: Settings, order: seq<string>, p: nat,
                      order6: seq<string>, p6: nat)
    requires WorldFits(w) && forall i :: 0 <= i < |steps| ==> StepFits(steps[i])
    requires r.infoHash in Run(w, steps).torrents && p <= |order| && p6 <= |order6|
    requires var t := Run(w, steps).torrents[r.infoHash];
             Visits(order, (if r.finished then t.leechers else t.seeders).Keys)
               && Visits(order6, (if r.finished then t.leechers6 else t.seeders6).Keys)
    ensures var t := Run(w, steps).torrents[r.infoHash];
            && Listed(Sought(t, r), order) && Listed(Sought6(t, r), order6)
            && (Decode(BodyFor(t, r, c, order, p, order6, p6)).Done?
                <==> r.event.Stopped? || r.ipv6 || AsksEnough(r, c))
  {
    RunFits(w, steps);
    var w' := Run(w, steps);
    hide BodyFor, Decode, Tells, Visits, TorrentFits, AsksEnough;
    var t := w'.torrents[r.infoHash];
    ReplyReads(t, r, c, order, p, order6, p6, w'.mode, w'.users);
    if r.event.Stopped? || r.ipv6 || AsksEnough(r, c) { TellsDecodes(BodyFor(t, r, c, order, p, order6, p6), t, r, c); }
  }

  /** So the reply to an announce on a torrent that fits is a response head and then one complete bencoded dictionary
      with the figures and peers that `ReplyReads` promises,
        unless an IPv4 peer that goes on asks for fewer than none. */
  lemma RepliedReads(text: string, t: TorrentV, r: Announcement, c: Settings, mode: Mode, users: seq<UserV>)
    requires Replied(text, t, r, c) && TorrentFits(t, mode, users)
    ensures HEAD <= text
    ensures var body := text[|HEAD|..];
            if r.event.Stopped? || r.ipv6 || AsksEnough(r, c) then Tells(body, t, r, c) else Decode(body).Fail?
  {
    hide BodyFor, Decode, Tells, TorrentFits, Visits, Listed, AsksEnough;
    var order, p: nat, order6, p6: nat :| Replies(text, t, r, c, order, p, order6, p6);
    ReplyReads(t, r, c, order, p, order6, p6, mode, users);
    var body := BodyFor(t, r, c, order, p, order6, p6);
    assert text[|HEAD|..] == body;
  }
}
