/** Where an announce leaves its peer: the four sets of the torrent by name, before and after. */
module Placement {
  import opened Words
  import opened Options
  import opened Ledger
  import opened Tracker
  import opened Shape
  import opened Conservation
  import opened Exactness

  /** The torrent an announce is for; where there is none, the one without peers that a public tracker would start. */
  function Before(w: World, infoHash: string): TorrentV {
    if infoHash in w.torrents then w.torrents[infoHash]
    else TorrentV(w.stats.torrents % 0x1_0000_0000, 0, 0, 0, map[], map[], map[], map[], [], 0)
  }

  lemma EnterIsBefore(w: World, r: Announcement)
    requires Refusal(w, r).None?
    ensures var e := Enter(w, r);
            && r.infoHash in e.torrents && e.torrents[r.infoHash] == Before(w, r.infoHash)
            && e.mode == w.mode && e.users == w.users && e.passkeys == w.passkeys && e.freeleech == w.freeleech
            && e.peerLog == w.peerLog && e.userLog == w.userLog && e.torrentLog == w.torrentLog
            && e.stats == w.stats.(torrents := e.stats.torrents)
  {
    hide Whitelisted;
  }

  /** The visit an accepted announce makes. */
  function Visited(w: World, r: Announcement): Visit { VisitOf(Enter(w, r), Before(w, r.infoHash), r) }

  lemma AnnounceIs(w: World, r: Announcement)
    requires Refusal(w, r).None?
    ensures r.infoHash in Enter(w, r).torrents && Announce(w, r) == Book(Enter(w, r), r, Visited(w, r))
  {
    EnterIsBefore(w, r);
    hide Book, VisitOf, Enter, Refusal, Before;
  }

  /** What an announce makes of its torrent. */
  lemma TorrentIs(w: World, r: Announcement)
    requires Refusal(w, r).None?
    ensures r.infoHash in Announce(w, r).torrents
    ensures Announce(w, r).torrents[r.infoHash] == TorrentAfter(Before(w, r.infoHash), r, Visited(w, r))
  {
    hide Book, Visited, TorrentAfter, Enter, Refusal, Before, Announce;
    AnnounceIs(w, r);
    EnterIsBefore(w, r);
    BookTorrents(Enter(w, r), r, Visited(w, r));
  }

  lemma FieldsAfter(t: TorrentV, r: Announcement, v: Visit)
    ensures var t', id := TorrentAfter(t, r, v), r.peerID;
            && Find(t'.seeders, id) == v.column.seeder && Find(t'.seeders6, id) == v.column.seeder6
            && Find(t'.leechers, id) == v.column.leecher && Find(t'.leechers6, id) == v.column.leecher6
  {
    hide I64, U32;
  }

  // ---------------------------------------------------------------- which set

  lemma PlacedColumn(c: Column, r: Announcement, terms: Terms, newcomer: PeerV)
    ensures var d := Serve(c, r, terms, newcomer).column;
            && (d.seeder.Some? <==>
                  if r.ipv6 || !r.finished then c.seeder.Some?
                  else match r.event
                    case Updating => c.seeder.Some? || c.leecher.None?
                    case Stopped => false
                    case Completed => c.seeder.Some?)
            && (d.seeder6.Some? <==>
                  if !r.ipv6 || !r.finished then c.seeder6.Some?
                  else !r.event.Stopped? && (c.seeder6.Some? || c.leecher.None?))
            && (d.leecher.Some? <==>
                  if r.ipv6 then c.leecher.Some? && !r.event.Completed?
                  else r.event.Completed? || if r.finished then c.leecher.Some? else r.event.Updating?)
            && (d.leecher6.Some? <==>
                  if !r.ipv6 then c.leecher6.Some? && !r.event.Completed?
                  else r.event.Completed? || if r.finished then c.leecher6.Some? else r.event.Updating?)
  {
    hide Refresh, Finish, FreePercent, BalanceMove;
  }

  /**
   * Which of the four sets hold the announcing peer after an accepted announce, by what they held before. A finished
   * IPv4 peer goes to the seeders, unless it is among the leechers or has just completed; a finished IPv6 peer goes to
   * the IPv6 seeders, unless it is among the IPv4 leechers; any other peer goes to the leechers of its family. A
   * stopped peer leaves the seeders of its family if it is finished, and the leechers if it is not; a completed one is
   * in the leechers of its family and no longer in those of the other. No other set changes in this respect.
   */
  lemma Placed(w: World, r: Announcement)
    requires Refusal(w, r).None?
    ensures r.infoHash in Announce(w, r).torrents
    ensures var t, t', id := Before(w, r.infoHash), Announce(w, r).torrents[r.infoHash], r.peerID;
            && (id in t'.seeders <==>
                  if r.ipv6 || !r.finished then id in t.seeders
                  else match r.event
                    case Updating => id in t.seeders || id !in t.leechers
                    case Stopped => false
                    case Completed => id in t.seeders)
            && (id in t'.seeders6 <==>
                  if !r.ipv6 || !r.finished then id in t.seeders6
                  else !r.event.Stopped? && (id in t.seeders6 || id !in t.leechers))
            && (id in t'.leechers <==>
                  if r.ipv6 then id in t.leechers && !r.event.Completed?
                  else r.event.Completed? || if r.finished then id in t.leechers else r.event.Updating?)
            && (id in t'.leechers6 <==>
                  if !r.ipv6 then id in t.leechers6 && !r.event.Completed?
                  else r.event.Completed? || if r.finished then id in t.leechers6 else r.event.Updating?)
  {
    TorrentIs(w, r);
    var e, t := Enter(w, r), Before(w, r.infoHash);
    FieldsAfter(t, r, Visited(w, r));
    PlacedColumn(ColumnOf(t, r.peerID), r, TermsOf(e, t), NewPeer(r, Requester(e, r), t.id));
    hide Serve, Announce, Refusal, Enter, Before, TorrentAfter, NewPeer, TermsOf, Requester;
  }

  /** A peer in none of the sets that announces without an event is in exactly one of them afterwards: with the seeders
      of its family if its `left` is "0", else with the leechers. */
  lemma FirstPlace(w: World, r: Announcement)
    requires Refusal(w, r).None? && r.event.Updating?
    requires var t, id := Before(w, r.infoHash), r.peerID;
             id !in t.seeders && id !in t.seeders6 && id !in t.leechers && id !in t.leechers6
    ensures r.infoHash in Announce(w, r).torrents
    ensures var t, id := Announce(w, r).torrents[r.infoHash], r.peerID;
            && (id in t.seeders <==> r.finished && !r.ipv6) && (id in t.seeders6 <==> r.finished && r.ipv6)
            && (id in t.leechers <==> !r.finished && !r.ipv6) && (id in t.leechers6 <==> !r.finished && r.ipv6)
  {
    Placed(w, r);
    hide Announce, Refusal, Before;
  }

  /** A peer that stops is in no set of its family and state any more. */
  lemma StoppedLeaves(w: World, r: Announcement)
    requires Refusal(w, r).None? && r.event.Stopped?
    ensures r.infoHash in Announce(w, r).torrents
    ensures var t, id := Announce(w, r).torrents[r.infoHash], r.peerID;
            && (r.finished && !r.ipv6 ==> id !in t.seeders) && (r.finished && r.ipv6 ==> id !in t.seeders6)
            && (!r.finished && !r.ipv6 ==> id !in t.leechers) && (!r.finished && r.ipv6 ==> id !in t.leechers6)
  {
    Placed(w, r);
    hide Announce, Refusal, Before;
  }

  // ---------------------------------------------------------------- which entry

  /** A peer that has announced its completion. */
  function Marked(p: PeerV): PeerV { p.(completed := true) }

  /** The entry an announce updates, by what the sets of t hold: that of the leechers of its family for a peer that is
      not finished; for a finished one that of its seeders, else that of the IPv4 leechers, where a completed IPv4 peer
      has just been put; otherwise it is new. */
  function Found(t: TorrentV, r: Announcement, newcomer: PeerV): PeerV {
    var id := r.peerID;
    var leecher := if id in t.leechers then t.leechers[id] else newcomer;
    var leecher6 := if id in t.leechers6 then t.leechers6[id] else newcomer;
    if !r.finished then
      var p := if r.ipv6 then leecher6 else leecher;
      if r.event.Completed? then Marked(p) else p
    else if r.ipv6 then
      if id in t.seeders6 then t.seeders6[id] else leecher
    else if id in t.seeders then t.seeders[id]
    else if r.event.Completed? then Marked(leecher)
    else leecher
  }

  lemma FoundIs(t: TorrentV, r: Announcement, terms: Terms, newcomer: PeerV)
    ensures Serve(ColumnOf(t, r.peerID), r, terms, newcomer).before == Found(t, r, newcomer)
  {
    hide Refresh, Finish, FreePercent, BalanceMove, Leave, Gone;
  }

  /** What one column holds after the announce, as far as it holds something, by what it held before: z is the updated
      entry, and newcomer what a first announce creates. */
  ghost predicate Holds(c: Column, d: Column, r: Announcement, z: PeerV, newcomer: PeerV) {
    && (d.seeder.Some? ==>
          d.seeder == if !r.ipv6 && r.finished && (c.seeder.Some? || (c.leecher.None? && !r.event.Completed?)) then
                        Some(z)
                      else c.seeder)
    && (d.seeder6.Some? ==>
          d.seeder6 == if r.ipv6 && r.finished && (c.seeder6.Some? || c.leecher.None?) then Some(z) else c.seeder6)
    && (d.leecher.Some? ==>
          d.leecher == if if r.ipv6 then r.finished && c.seeder6.None? && c.leecher.Some?
                          else !r.finished || (c.seeder.None? && (c.leecher.Some? || r.event.Completed?)) then Some(z)
                       else if !r.ipv6 && r.event.Completed? then
                         Some(Marked(if c.leecher.Some? then c.leecher.value else newcomer))
                       else c.leecher)
    && (d.leecher6.Some? ==>
          d.leecher6 == if r.ipv6 && !r.finished then Some(z)
                        else if r.ipv6 && r.event.Completed? then
                          Some(Marked(if c.leecher6.Some? then c.leecher6.value else newcomer))
                        else c.leecher6)
  }

  lemma HoldsIs(c: Column, r: Announcement, terms: Terms, newcomer: PeerV)
    ensures var v := Serve(c, r, terms, newcomer);
            Holds(c, v.column, r, v.after, newcomer)
  {
    hide Refresh, Finish, FreePercent, BalanceMove;
  }
}
