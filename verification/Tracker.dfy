/** What one step of the tracker does to its memory. An announce reads and writes one column of one torrent. */
module Tracker {
  import opened Words
  import opened Options
  import opened Ledger
  import opened Utility
  import opened Bans

  // ---------------------------------------------------------------- one peer

  function NewPeer(r: Announcement, user: Option<UserRef>, torrentID: nat): PeerV {
    PeerV(user, 0, 0, r.downloaded, r.uploaded, 0, 0, r.left, r.left == 0, true, r.ip, r.port,
          IpPortEncode(r.address, r.port), r.peerID, torrentID, r.client, 0, r.clock, 0,
          Birth(r.downloaded, r.uploaded, r.clock, r.address), Paid(0, 0, 0))
  }

  /** Bytes per second as an `unsigned int`; 0 when no time went by. */
  function Rate(bytes: nat, span: int): nat { if span > 0 then U32(bytes / span) else 0 }

  function UpdateStats(p: PeerV, downloaded: nat, uploaded: nat, left: nat, corrupt: nat, now: int): PeerV {
    var down := U64(downloaded - p.totalDownloaded);
    var up := U64(uploaded - p.totalUploaded);
    var span := now - p.lastUpdate;
    p.(downloaded := down, uploaded := up, totalDownloaded := downloaded, totalUploaded := uploaded,
       downSpeed := Rate(down, span), upSpeed := Rate(up, span),
       left := left, corrupt := U32(corrupt), timespent := U64(p.timespent + span), lastUpdate := now)
  }

  /** `Stats` after a peer went from p to q. */
  function UpdateGauges(s: StatsV, p: PeerV, q: PeerV): StatsV {
    s.(transferred := U64(s.transferred + U64(q.downloaded + q.uploaded) / 2),
       speed := U64(U64(s.speed - U32(p.downSpeed + p.upSpeed) / 2) + U32(q.downSpeed + q.upSpeed) / 2))
  }

  /** The peer after `recordPeer` read its time counter out. */
  function Drained(p: PeerV): PeerV {
    p.(timespent := 0, paid := p.paid.(time := p.paid.time + p.timespent))
  }

  /** History: the peer after its last deltas went to its user as `unsigned int`s. */
  function Paying(p: PeerV): PeerV {
    p.(paid := p.paid.(downloaded := p.paid.downloaded + U32(p.downloaded),
                       uploaded := p.paid.uploaded + U32(p.uploaded)))
  }

  predicate TimedOut(p: PeerV, now: int, timeout: int) { now - p.lastUpdate > timeout }

  // ---------------------------------------------------------------- one column

  function LeechSlot(r: Announcement): Slot { if r.ipv6 then Leechers6 else Leechers }

  function SeedSlot(r: Announcement): Slot { if r.ipv6 then Seeders6 else Seeders }

  predicate Leeching(r: Announcement) { !r.finished || r.event.Completed? }

  function FoundOr(found: Option<PeerV>, newcomer: PeerV): PeerV {
    if found.Some? then found.value else newcomer
  }

  function AdmitLeecher(c: Column, r: Announcement, newcomer: PeerV): Column {
    if !Leeching(r) then c
    else
      var p := FoundOr(c.Get(LeechSlot(r)), newcomer);
      c.Put(LeechSlot(r), Some(if r.event.Completed? then p.(completed := true) else p))
  }

  predicate AddsLeecher(c: Column, r: Announcement) { Leeching(r) && c.Get(LeechSlot(r)).None? }

  predicate AddsSeeder(c: Column, r: Announcement) { r.finished && c.Get(SeedSlot(r)).None? && c.leecher.None? }

  /** Both families look for a finished peer among the seeders of their family and then among the IPv4 leechers. */
  function AdmitSeeder(c: Column, r: Announcement, newcomer: PeerV): Column {
    if AddsSeeder(c, r) then c.Put(SeedSlot(r), Some(newcomer)) else c
  }

  /** The column once the announcing peer is in it. */
  function Admit(c: Column, r: Announcement, newcomer: PeerV): Column {
    AdmitSeeder(AdmitLeecher(c, r, newcomer), r, newcomer)
  }

  /** The set that holds the peer the announce updates; a finished peer may still be the IPv4 leecher. */
  function Target(c: Column, r: Announcement): Slot {
    if !r.finished then LeechSlot(r) else if c.Get(SeedSlot(r)).Some? then SeedSlot(r) else Leechers
  }

  /** The price terms an announce runs under. */
  datatype Terms = Terms(mode: Mode, torrentID: nat, free: nat, freeleech: bool, users: seq<UserV>)

  predicate HasToken(terms: Terms, user: Option<UserRef>) {
    user.Some? && user.value.handle < |terms.users| && terms.torrentID in terms.users[user.value.handle].tokens
  }

  function FreePercent(c: Column, r: Announcement, terms: Terms): nat {
    var p := c.Get(LeechSlot(r));
    if !Leeching(r) then 0
    else if terms.freeleech || (p.Some? && HasToken(terms, p.value.user)) then 100
    else terms.free
  }

  function Charged(r: Announcement, free: nat): nat { U64(r.downloaded * (1 - free / 100)) }

  /** The announced peer just after its counters moved; this is what its row and its user's credit are made from. */
  function Refresh(p: PeerV, r: Announcement, mode: Mode, free: nat): PeerV {
    var q := if r.event.Stopped? then p.(active := false) else p;
    if mode.Private? then UpdateStats(q, Charged(r, free), r.uploaded, r.left, r.corrupt, r.now) else q
  }

  function Finish(q: PeerV, mode: Mode): PeerV {
    var d := if mode.Public? then q else Drained(q);
    if mode.Private? then Paying(d) else d
  }

  function Leave(c: Column, r: Announcement): Column {
    match r.event
    case Stopped => c.Put(if r.finished then SeedSlot(r) else LeechSlot(r), None)
    case Completed => c.Put(if r.ipv6 then Leechers else Leechers6, None)
    case Updating => c
  }

  function Gone(c: Column, r: Announcement): seq<PeerV> {
    var o := match r.event
             case Stopped => c.Get(if r.finished then SeedSlot(r) else LeechSlot(r))
             case Completed => c.Get(if r.ipv6 then Leechers else Leechers6)
             case Updating => None;
    if o.Some? then [o.value] else []
  }

  function BalanceMove(p: PeerV, q: PeerV, r: Announcement, mode: Mode): int {
    if mode.Private? then -U64(p.corrupt - r.corrupt) - q.downloaded + q.uploaded else 0
  }

  /**
   * One announce, seen from its column: `before` is the peer found or created, `mid` the peer its row and
   * credit are read from, `after` the peer that is stored, `gone` the peer the announce erases, if any.
   */
  datatype Visit = Visit(column: Column, gone: seq<PeerV>, before: PeerV, mid: PeerV, after: PeerV, balance: int)

  function Serve(c: Column, r: Announcement, terms: Terms, newcomer: PeerV): Visit {
    var adm := Admit(c, r, newcomer);
    var s := Target(adm, r);
    var p := adm.Get(s).value;
    var q := Refresh(p, r, terms.mode, FreePercent(adm, r, terms));
    var z := Finish(q, terms.mode);
    var stored := adm.Put(s, Some(z));
    Visit(Leave(stored, r), Gone(stored, r), p, q, z, BalanceMove(p, q, r, terms.mode))
  }

  function Added(c: Column, r: Announcement): nat {
    var leech := if AddsLeecher(c, r) then 1 else 0;
    var none := c.leecher.None? && !(Leeching(r) && !r.ipv6);
    leech + if r.finished && c.Get(SeedSlot(r)).None? && none then 1 else 0
  }

  // ---------------------------------------------------------------- one torrent

  function TorrentAfter(t: TorrentV, r: Announcement, v: Visit): TorrentV {
    WithColumn(t, r.peerID, v.column).(
      balance := I64(t.balance + v.balance),
      snatches := if r.event.Completed? then U32(t.snatches + 1) else t.snatches,
      departed := t.departed + v.gone)
  }

  function TermsOf(w: World, t: TorrentV): Terms { Terms(w.mode, t.id, t.free, w.freeleech, w.users) }

  function UserOf(w: World, passkey: string): Option<UserRef> {
    if w.mode.Private? && passkey in w.passkeys && w.passkeys[passkey] < |w.users| then
      Some(UserRef(w.passkeys[passkey], w.users[w.passkeys[passkey]].id))
    else None
  }

  function Requester(w: World, r: Announcement): Option<UserRef> { UserOf(w, r.passkey) }

  function VisitOf(w: World, t: TorrentV, r: Announcement): Visit {
    Serve(ColumnOf(t, r.peerID), r, TermsOf(w, t), NewPeer(r, Requester(w, r), t.id))
  }

  // ---------------------------------------------------------------- users

  function Credited(u: UserV, downloaded: nat, uploaded: nat): UserV {
    u.(downloaded := U64(u.downloaded + U32(downloaded)), uploaded := U64(u.uploaded + U32(uploaded)))
  }

  predicate HasChanged(u: UserV) { u.downloaded != 0 || u.uploaded != 0 }

  function UserRows(u: UserV): seq<UserRow> {
    if HasChanged(u) then [UserRow(u.id, u.downloaded, u.uploaded)] else []
  }

  function Reset(u: UserV): UserV { u.(downloaded := 0, uploaded := 0) }

  // ---------------------------------------------------------------- announce

  predicate Whitelisted(whitelist: seq<string>, peerID: string) {
    whitelist == [] || exists i :: 0 <= i < |whitelist| && whitelist[i] <= peerID
  }

  /** The reason any request is turned away, before it is looked at as an announce or a scrape. */
  function Turned(w: World, passkey: string, ip: string, hashes: seq<string>): Option<string> {
    var user := UserOf(w, passkey);
    if w.mode.Private? && user.None? then Some("passkey not found")
    else if hashes == [] then Some("missing info_hash")
    else if ip in w.banned then Some("banned ip")
    else if w.mode.Private? && w.users[user.value.handle].restrictions != {}
            && ip !in w.users[user.value.handle].restrictions then Some("ip not associated with account")
    else None
  }

  /** The announce a request stands for: its first info hash, and its peer id percent-decoded unless it has 20 bytes. */
  function Normal(r: Announcement, hashes: seq<string>): Announcement
    requires hashes != []
  {
    r.(infoHash := hashes[0], peerID := if |r.peerID| != 20 then HexToBin(r.peerID) else r.peerID)
  }

  /** The reason an announce is refused, in the order the handler tests them; None when it is accepted. */
  function Refusal(w: World, r: Announcement): Option<string> {
    var user := Requester(w, r);
    if w.mode.Private? && user.None? then Some("passkey not found")
    else if r.ip in w.banned then Some("banned ip")
    else if w.mode.Private? && w.users[user.value.handle].restrictions != {}
            && r.ip !in w.users[user.value.handle].restrictions then Some("ip not associated with account")
    else if |r.peerID| != 20 then Some("invalid peer id")
    else if !Whitelisted(w.whitelist, r.peerID) then Some("client not in whitelist")
    else if !w.mode.Public? && r.infoHash !in w.torrents then Some("torrent not found")
    else if w.mode.Private? && !w.users[user.value.handle].authorized then Some("user unauthorized")
    else None
  }

  /** A public tracker starts a torrent at its first announce. */
  function Enter(w: World, r: Announcement): World {
    if w.mode.Public? && r.infoHash !in w.torrents then
      w.(torrents := w.torrents[r.infoHash := NewTorrent(U32(w.stats.torrents), 0)],
         stats := w.stats.(torrents := U64(w.stats.torrents + 1)))
    else w
  }

  function NewTorrent(id: nat, free: nat): TorrentV {
    TorrentV(id, free, 0, 0, map[], map[], map[], map[], [], 0)
  }

  /** An announce with an info hash is turned away for the reason any request would be. */
  lemma TurnedIsRefused(w: World, r: Announcement, hashes: seq<string>)
    requires hashes != []
    ensures Turned(w, r.passkey, r.ip, hashes).Some? ==>
            Refusal(w, Normal(r, hashes)) == Turned(w, r.passkey, r.ip, hashes)
  {
    hide HexToBin, Whitelisted;
  }

  function Accept(w: World, r: Announcement): World
    requires r.infoHash in w.torrents
  {
    Book(w, r, VisitOf(w, w.torrents[r.infoHash], r))
  }

  /** What the visit v of one column means for the whole tracker. */
  function Book(w: World, r: Announcement, v: Visit): World
    requires r.infoHash in w.torrents
  {
    var t := w.torrents[r.infoHash];
    var t' := TorrentAfter(t, r, v);
    var added := U64(w.stats.peers + Added(ColumnOf(t, r.peerID), r));
    var stats := w.stats.(peers := if r.event.Updating? then added else U64(added - 1));
    var w1 := w.(torrents := w.torrents[r.infoHash := t'], stats := stats, synced := w.synced + {r.infoHash});
    match w.mode
    case Public => w1
    case Semi => w1.(peerLog := w.peerLog + [PeerRowOf(w.mode, v.mid)],
                     torrentLog := w.torrentLog + [TorrentRowOf(t')])
    case Private =>
      Pay(w1.(peerLog := w.peerLog + [PeerRowOf(w.mode, v.mid)],
              torrentLog := w.torrentLog + [TorrentRowOf(t')],
              stats := UpdateGauges(stats, v.before, v.mid)), v.mid)
  }

  /** The peer's last deltas go to its user, and `recordUser` moves the user's pending counters into a row. */
  function Pay(w: World, p: PeerV): World {
    if p.user.Some? && p.user.value.handle < |w.users| then
      var h := p.user.value.handle;
      var u := Credited(w.users[h], p.downloaded, p.uploaded);
      w.(users := w.users[h := Reset(u)], userLog := w.userLog + UserRows(u))
    else w
  }

  function Announce(w: World, r: Announcement): World {
    if Refusal(w, r).Some? then w else Accept(Enter(w, r), r)
  }

  // ---------------------------------------------------------------- sweep

  datatype Key = Key(slot: Slot, id: string)

  function Expired(p: PeerV, mode: Mode): PeerV {
    if mode.Public? then p else Drained(p.(active := false))
  }

  predicate Stale(t: TorrentV, k: Key, now: int, timeout: int) {
    k.id in t.Get(k.slot) && TimedOut(t.Get(k.slot)[k.id], now, timeout)
  }

  function Evict(t: TorrentV, k: Key, mode: Mode): TorrentV
    requires k.id in t.Get(k.slot)
  {
    WithColumn(t, k.id, ColumnOf(t, k.id).Put(k.slot, None)).(
      departed := t.departed + [Expired(t.Get(k.slot)[k.id], mode)])
  }

  /** The torrent, the peer rows and the number of evictions after the peers at `keys` were visited in order. */
  datatype Swept = Swept(torrent: TorrentV, rows: seq<PeerRow>, changed: nat)

  function SweepPeers(t: TorrentV, keys: seq<Key>, mode: Mode, now: int, timeout: int): Swept {
    if keys == [] then Swept(t, [], 0)
    else
      var k := keys[|keys| - 1];
      var s := SweepPeers(t, keys[..|keys| - 1], mode, now, timeout);
      if Stale(s.torrent, k, now, timeout) then
        var p := s.torrent.Get(k.slot)[k.id];
        Swept(Evict(s.torrent, k, mode),
              if mode.Public? then s.rows else s.rows + [PeerRowOf(mode, p.(active := false))],
              s.changed + 1)
      else s
  }

  predicate Empty(t: TorrentV) {
    t.seeders == map[] && t.seeders6 == map[] && t.leechers == map[] && t.leechers6 == map[]
  }

  /** One torrent's turn in the sweep, its peers visited in the order `keys`. */
  datatype Turn = Turn(infoHash: string, keys: seq<Key>)

  function SweepTorrent(w: World, turn: Turn, now: int): World
    requires turn.infoHash in w.torrents
  {
    Close(w, turn.infoHash, SweepPeers(w.torrents[turn.infoHash], turn.keys, w.mode, now, w.timeout))
  }

  /** The swept peers are stored and recorded; then a public tracker drops the torrent if it is empty, and any other
      records it if a peer left. */
  function Close(w: World, ih: string, s: Swept): World
    requires ih in w.torrents
  {
    var w1 := w.(torrents := w.torrents[ih := s.torrent], peerLog := w.peerLog + s.rows);
    if w.mode.Public? then if Empty(s.torrent) then Drop(w1, ih) else w1
    else if s.changed > 0 then w1.(torrentLog := w.torrentLog + [TorrentRowOf(s.torrent)])
    else w1
  }

  function Drop(w: World, ih: string): World
    requires ih in w.torrents
  {
    w.(torrents := w.torrents - {ih}, lost := w.lost + [w.torrents[ih]], synced := w.synced - {ih},
       stats := w.stats.(torrents := U64(w.stats.torrents - 1)))
  }

  function Sweep(w: World, plan: seq<Turn>, now: int): World {
    if plan == [] then w
    else
      var w1 := Sweep(w, plan[..|plan| - 1], now);
      if plan[|plan| - 1].infoHash in w1.torrents then SweepTorrent(w1, plan[|plan| - 1], now) else w1
  }

  /** The list visits every element of s once. */
  ghost predicate Visits<T(!new)>(order: seq<T>, s: set<T>) {
    && (forall i, j :: 0 <= i < j < |order| ==> order[i] != order[j])
    && (forall x :: x in order <==> x in s)
  }

  ghost predicate VisitsPeers(keys: seq<Key>, t: TorrentV) {
    && (forall i, j :: 0 <= i < j < |keys| ==> keys[i] != keys[j])
    && (forall k :: k in keys <==> k.id in t.Get(k.slot))
  }

  /** A sweep goes over every torrent once, and within a torrent over every peer once; the orders are free. */
  ghost predicate SweepPlan(w: World, plan: seq<Turn>) {
    && (forall i, j :: 0 <= i < j < |plan| ==> plan[i].infoHash != plan[j].infoHash)
    && (forall i :: 0 <= i < |plan| ==> plan[i].infoHash in w.torrents
                                        && VisitsPeers(plan[i].keys, w.torrents[plan[i].infoHash]))
    && (forall ih :: ih in w.torrents ==> exists i :: 0 <= i < |plan| && plan[i].infoHash == ih)
  }

  // ---------------------------------------------------------------- administration

  function AddTorrent(w: World, infoHash: string, id: nat, free: nat): World {
    if infoHash in w.torrents then
      if free == 0 then w else w.(torrents := w.torrents[infoHash := w.torrents[infoHash].(free := free)])
    else w.(torrents := w.torrents[infoHash := NewTorrent(id, free)])
  }

  function SetFree(w: World, infoHash: string, free: nat): World {
    if infoHash in w.torrents then w.(torrents := w.torrents[infoHash := w.torrents[infoHash].(free := free)])
    else w
  }

  function DeleteTorrent(w: World, infoHash: string): World {
    if infoHash in w.torrents then
      w.(torrents := w.torrents - {infoHash}, lost := w.lost + [w.torrents[infoHash]],
         synced := w.synced - {infoHash})
    else w
  }

  /** An edit of one user; a token is for the torrent that has this info hash now. */
  datatype UserEdit =
    | Authorize(authorized: bool)
    | AddToken(infoHash: string)
    | RemoveToken(infoHash: string)
    | AddRestriction(ip: nat)
    | RemoveRestriction(ip: nat)

  /** An edit that touches no torrent. */
  datatype Edit =
    | ChangePasskey(old_: string, new_: string)
    | AddUser(passkey: string, id: nat)
    | RemoveUser(passkey: string)
    | UpdateUser(passkey: string, change: UserEdit)
    | AddBan(from: nat, to: nat)
    | RemoveBan(from: nat, to: nat)
    | AddWhitelist(peerID: string)
    | EditWhitelist(oldPeerID: string, newPeerID: string)
    | RemoveWhitelist(peerID: string)
    | SetLeechStatus(freeleech: bool)

  function Rekey(w: World, old_: string, new_: string): World {
    if old_ in w.passkeys then w.(passkeys := Emplace(w.passkeys - {old_}, new_, w.passkeys[old_])) else w
  }

  function Enroll(w: World, passkey: string, id: nat): World {
    if passkey in w.passkeys then w
    else w.(users := w.users + [UserV(id, 0, 0, true, {}, {})], passkeys := w.passkeys[passkey := |w.users|])
  }

  function UserEdited(u: UserV, change: UserEdit, torrents: map<string, TorrentV>): UserV {
    match change
    case Authorize(authorized) => u.(authorized := authorized)
    case AddToken(ih) => if ih in torrents then u.(tokens := u.tokens + {torrents[ih].id}) else u
    case RemoveToken(ih) => if ih in torrents then u.(tokens := u.tokens - {torrents[ih].id}) else u
    case AddRestriction(ip) => u.(restrictions := u.restrictions + {Long2Ip(U32(ip))})
    case RemoveRestriction(ip) => u.(restrictions := u.restrictions - {Long2Ip(U32(ip))})
  }

  function ChangeUser(w: World, passkey: string, change: UserEdit): World {
    if passkey in w.passkeys && w.passkeys[passkey] < |w.users| then
      var h := w.passkeys[passkey];
      w.(users := w.users[h := UserEdited(w.users[h], change, w.torrents)])
    else w
  }

  /** The list without the entries equal to id. */
  function Without(order: seq<string>, id: string): seq<string> {
    if order == [] then []
    else
      var n := |order| - 1;
      Without(order[..n], id) + if order[n] == id then [] else [order[n]]
  }

  function Edited(w: World, e: Edit): World {
    match e
    case ChangePasskey(o, n) => Rekey(w, o, n)
    case AddUser(p, id) => Enroll(w, p, id)
    case RemoveUser(p) => w.(passkeys := w.passkeys - {p})
    case UpdateUser(p, change) => ChangeUser(w, p, change)
    case AddBan(from, to) => w.(banned := w.banned + Texts(U32(from), U32(to)))
    case RemoveBan(from, to) => w.(banned := w.banned - Texts(U32(from), U32(to)))
    case AddWhitelist(p) => w.(whitelist := w.whitelist + [p])
    case EditWhitelist(o, n) => w.(whitelist := Without(w.whitelist, o) + [n])
    case RemoveWhitelist(p) => w.(whitelist := Without(w.whitelist, p))
    case SetLeechStatus(b) => w.(freeleech := b)
  }

  /** The memory but for what an edit may change. */
  ghost predicate SamePeers(w: World, w': World) {
    && w'.torrents == w.torrents && w'.lost == w.lost && w'.synced == w.synced && w'.stats == w.stats
    && w'.mode == w.mode && w'.timeout == w.timeout
    && w'.userLog == w.userLog && w'.torrentLog == w.torrentLog && w'.peerLog == w.peerLog
  }

  lemma EditIsLocal(w: World, e: Edit)
    ensures SamePeers(w, Edited(w, e))
  {
    hide Texts, UserEdited, Without;
  }

  // ---------------------------------------------------------------- runs

  datatype Step =
    | DoAnnounce(r: Announcement)
    | DoSweep(plan: seq<Turn>, now: int)
    | DoAddTorrent(infoHash: string, id: nat, free: nat)
    | DoSetFree(infoHash: string, free: nat)
    | DoDeleteTorrent(infoHash: string)
    | DoEdit(edit: Edit)

  function Take(w: World, s: Step): World {
    match s
    case DoAnnounce(r) => Announce(w, r)
    case DoSweep(plan, now) => Sweep(w, plan, now)
    case DoAddTorrent(ih, id, free) => AddTorrent(w, ih, id, free)
    case DoSetFree(ih, free) => SetFree(w, ih, free)
    case DoDeleteTorrent(ih) => DeleteTorrent(w, ih)
    case DoEdit(e) => Edited(w, e)
  }

  function Run(w: World, steps: seq<Step>): World {
    if steps == [] then w else Take(Run(w, steps[..|steps| - 1]), steps[|steps| - 1])
  }
}
