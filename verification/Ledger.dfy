/** The tracker's memory as values: peers, torrents, users, global statistics and the rows queued for SQL. */
module Ledger {
  import opened Words
  import opened Options

  datatype Mode = Private | Public | Semi

  datatype Event = Completed | Stopped | Updating

  /** The four peer sets of a torrent. */
  datatype Slot = Seeders | Seeders6 | Leechers | Leechers6 {
    predicate IPv6() { Seeders6? || Leechers6? }
  }

  /** A `User*`: which object it points to, and the id that object was built with. */
  datatype UserRef = UserRef(handle: nat, id: nat)

  /** History of a peer: what it announced when it was created, when, and the bytes of its address. */
  datatype Birth = Birth(downloaded: nat, uploaded: nat, at: int, address: string)

  /** History of a peer: what its updates credited to its user, and the time its rows reported. */
  datatype Paid = Paid(downloaded: nat, uploaded: nat, time: nat)

  datatype PeerV = PeerV(
    user: Option<UserRef>, downloaded: nat, uploaded: nat, totalDownloaded: nat, totalUploaded: nat,
    downSpeed: nat, upSpeed: nat, left: nat, completed: bool, active: bool, ip: string, port: nat,
    hexIPPort: string, peerID: string, torrentID: nat, client: string, timespent: nat, lastUpdate: int,
    corrupt: nat, birth: Birth, paid: Paid)

  type PeerMap = map<string, PeerV>

  /** `departed` and `balance0` are history: the peers erased so far, and the balance the torrent was built with. */
  datatype TorrentV = TorrentV(
    id: nat, free: nat, snatches: nat, balance: int,
    seeders: PeerMap, seeders6: PeerMap, leechers: PeerMap, leechers6: PeerMap,
    departed: seq<PeerV>, balance0: int)
  {
    function Get(s: Slot): PeerMap {
      match s
      case Seeders => seeders
      case Seeders6 => seeders6
      case Leechers => leechers
      case Leechers6 => leechers6
    }
  }

  datatype UserV = UserV(
    id: nat, downloaded: nat, uploaded: nat, authorized: bool, tokens: set<nat>, restrictions: set<string>)

  datatype StatsV = StatsV(peers: nat, torrents: nat, speed: nat, transferred: nat)

  datatype UserRow = UserRow(id: nat, downloaded: nat, uploaded: nat)

  datatype TorrentRow = TorrentRow(id: nat, seeders: nat, leechers: nat, snatches: nat, balance: int)

  /** `stamp` is None where the row says UNIX_TIMESTAMP(). */
  datatype PeerRow = PeerRow(
    uid: nat, active: bool, completed: bool, downloaded: nat, uploaded: nat, left: nat, upSpeed: nat,
    downSpeed: nat, corrupt: nat, timespent: nat, client: string, peerID: string, torrentID: nat, ip: string,
    stamp: Option<int>)

  /**
   * Everything the request handler holds. The three logs list every row ever recorded; `lost` (torrents
   * dropped from the map) and `synced` (torrents loaded at start or announced since they were added) are history.
   */
  datatype World = World(
    mode: Mode, timeout: int, torrents: map<string, TorrentV>, users: seq<UserV>, passkeys: map<string, nat>,
    stats: StatsV, freeleech: bool, whitelist: seq<string>, banned: set<string>,
    userLog: seq<UserRow>, torrentLog: seq<TorrentRow>, peerLog: seq<PeerRow>,
    lost: seq<TorrentV>, synced: set<string>)

  /** An announce request with its fields read; `finished` says that the text of `left` is exactly "0". */
  datatype Announcement = Announcement(
    passkey: string, infoHash: string, peerID: string, ip: string, address: string, port: nat, client: string,
    left: nat, finished: bool, downloaded: nat, uploaded: nat, corrupt: nat, event: Event,
    numwant: Option<int>, ipv6: bool, now: int, clock: int)

  /** What the four sets of one torrent hold under one peer id. */
  datatype Column = Column(
    seeder: Option<PeerV>, seeder6: Option<PeerV>, leecher: Option<PeerV>, leecher6: Option<PeerV>)
  {
    function Get(s: Slot): Option<PeerV> {
      match s
      case Seeders => seeder
      case Seeders6 => seeder6
      case Leechers => leecher
      case Leechers6 => leecher6
    }

    function Put(s: Slot, o: Option<PeerV>): Column {
      match s
      case Seeders => this.(seeder := o)
      case Seeders6 => this.(seeder6 := o)
      case Leechers => this.(leecher := o)
      case Leechers6 => this.(leecher6 := o)
    }
  }

  function Find(m: PeerMap, id: string): Option<PeerV> {
    if id in m then Some(m[id]) else None
  }

  function Store(m: PeerMap, id: string, o: Option<PeerV>): PeerMap {
    match o
    case None => m - {id}
    case Some(p) => m[id := p]
  }

  function ColumnOf(t: TorrentV, id: string): Column {
    Column(Find(t.seeders, id), Find(t.seeders6, id), Find(t.leechers, id), Find(t.leechers6, id))
  }

  function WithColumn(t: TorrentV, id: string, c: Column): TorrentV {
    t.(seeders := Store(t.seeders, id, c.seeder), seeders6 := Store(t.seeders6, id, c.seeder6),
       leechers := Store(t.leechers, id, c.leecher), leechers6 := Store(t.leechers6, id, c.leecher6))
  }

  function TorrentRowOf(t: TorrentV): TorrentRow {
    TorrentRow(t.id, |t.seeders| + |t.seeders6|, |t.leechers| + |t.leechers6|, t.snatches, t.balance)
  }

  function PeerRowOf(mode: Mode, p: PeerV): PeerRow {
    PeerRow(if mode.Private? && p.user.Some? then p.user.value.id else 0, p.active, p.completed,
            p.totalDownloaded, p.totalUploaded, p.left, p.upSpeed, p.downSpeed, p.corrupt, p.timespent,
            p.client, p.peerID, p.torrentID, p.ip, if p.active then None else Some(p.lastUpdate))
  }

  function Emplace<K, V>(m: map<K, V>, k: K, v: V): map<K, V> {
    if k in m then m else m[k := v]
  }
}
