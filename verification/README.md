# A verified model of the liquid BitTorrent tracker

liquid keeps torrents, their peer sets, users and queued SQL rows in memory. Announces move that state, timers sweep
and flush it. This project models the request handler, the write-behind queue, the request parser, the reply encoder
and the byte helpers, and proves what they keep over every run.

`dafny verify dfyconfig.toml` checks everything.

## How the model is built

The tracker is modelled twice, and the two are tied together.

* **On values.** `Ledger` holds the data, `Tracker` says what one announce, sweep or edit does to the whole memory (a
  `World`), `WriteBehind` is the queue of one SQL table as moves of the main loop and of detached workers, and
  `System` interleaves the two. An announce is a function of one *column*: what the four peer sets of one torrent hold
  under one peer id. `Placement` and `Effects` say what an accepted announce does in terms of the four sets, the
  request and the columns of its rows, without the functions that compute it. All run-level theorems (`Shape`,
  `Meters`, `Conservation`, `Exactness`, `Accounts`, `Access`, `Commute`, `Sweeps`, `Liveness`, `System`, `Mirror`,
  `Progress`) are about these functions. A run may hold any announce, sweep and edit: of torrents, users, passkeys,
  tokens, IP restrictions, bans, the whitelist and the leech status.
* **On objects changed in place.** `Swarm` has the classes `User`, `Stats`, `Peer`, `Peers`, `Torrent` and `MySQL`,
  `Buffers` the queue of one table, `Handler` the `RequestHandler`. Their methods follow the source statement by
  statement. `Slots` and `Pieces` put the steps together on values, and the handler's methods state that the objects
  make exactly one step of `System` (three, for a flush). `Session.Session` starts a handler, answers any list of
  calls one after the other, runs workers in between, and ends where the run of `System` ends, so the run-level
  theorems hold of the objects. Who owns an object is a constant of the object (`home`, `infoHash`, `slot`, `owner`),
  which makes objects of different owners different without footprint sets.

`Parser` and `Request` are the request parser and a printer for it; `Bencode`, `Reply`, `Scrape`, `Rotation` and
`Answer` the replies and their reader; `Utility` and `Bans` the byte helpers and the ban ranges; `Words` and `Sums` are
arithmetic.

Choices that a reader should know:

* `unsigned int`, `unsigned long` and `long` are integers with `U32`, `U64` and `I64` written where the source
  converts, adds or subtracts. The count of evictions of one sweep is not cut to 32 bits.
* The clock is a parameter: `now` of the request, and `clock` for the second reading in the constructor of a peer. The
  result of `inet_pton` is the parameter `address`. Numbers in requests are taken to be well formed.
* `unordered_map` iterates in an order of its own: a sweep follows any plan that visits every torrent and peer once,
  and inserting a peer may reorder a set. A rotation burst needs a cursor that points behind the end or at a peer that
  is still in the set; the source does not repair the cursor when it erases a peer (`Swarm.Peers.RemovePeer` says when
  it goes astray), and where a reply would need such a cursor the model has no reply.
* `corrupt` is 0 in a new peer; the source leaves it unset (src/handler/peer.cpp:8-29).
* History that the program does not keep is in fields of its own: `birth` and `paid` of a peer, `departed` and
  `balance0` of a torrent, `lost` and `synced` of the memory, the logs of recorded rows, and in a buffer `applied`,
  `batched` and `pass`. Nothing is decided by them.
* A row is a typed value and a statement is a list of rows. The database applies a row's columns as the
  `ON DUPLICATE KEY UPDATE` clauses say: added up (users, time spent) or overwritten (torrents). Taking a list apart is
  one step; a failing statement has no effect.

What the code does and a reader might not expect, all kept in the model:

* A completed peer stays in the leechers of its family and is erased from the leechers of the *other* family; a
  finished IPv6 peer is looked for in the *IPv4* leechers; `Stats::peers` falls even when nothing was erased and does
  not fall in a sweep; a scrape counts the IPv4 leechers twice; only the announce of a private tracker moves
  `lastUpdate`.
* The announced corrupt counter enters the balance with 64 bits and is kept with 32: one announce keeps the balance
  law if and only if the counter is below 2^32 (`Accounts.VisitWorth`).
* Credit is cut to 32 bits per announce, and the seconds since the last update to 64. A peer's books are its counters
  and its lifetime, at every point of a run, if and only if no accepted private announce is below the peer's last
  figure or a whole word above it (`Exactness.RunExact`); a counter that falls from 5 to 3 is enough
  (`Exactness.CounterFalls`), and so is a second that ends between the two clock readings of a peer's first announce
  (`Exactness.ClockTicks`).
* A free announce drops the peer's counter to 0. It costs nothing if and only if that counter was a multiple of 2^32
  (`Exactness.FreeCosts`), and what was free is charged by the next announce (`Exactness.FreeIsPostponed`). A discount
  below 100 percent is none (`Exactness.Price`).
* After a value the query scan skips the first letter of the next key: a later pair whose key has one letter keeps its
  place but is not recorded (`Request.PairStep`, `Request.FirstValueWins`).
* A reply with fewer than zero peers is no bencoding: an IPv4 peer that goes on gets one if and only if it asks for
  fewer than none (`Answer.ReplyReads`).
* The torrents table is overwritten row by row, so it mirrors memory only as long as no torrent statement fails
  (`Mirror.TableMirrorsMemory`); `Mirror.StaleAfterRetry` says which torrents a failure leaves wrong. The added-up
  columns do not depend on that.

## Model

| member | source | states |
|---|---|---|
| Session.Session | src/handler/requestHandler.cpp:20-60 | a new handler answers any list of announces, scrapes, updates, sweeps, flushes and worker passes: the objects end where the run of the system these calls stand for ends, and each reply is the one for the memory before and after its call |
| Session.Serve | src/handler/requestHandler.cpp:20-60 | one call on the objects is the run of acts it stands for, whatever was called before, and takes no lock |
| Session.Work | src/database/mysql.cpp:233-404 | a detached worker on the objects, whichever statements fail, is the acts of taking the lock, passing over the list and giving the lock back |
| Handler.RequestHandler.HandleAnnounce | src/handler/requestHandler.cpp:33-54 | an announce as it arrives: refused for the first reason that applies, a missing info hash included, or carried out under its percent-decoded peer id and answered with the figures and peers of its torrent as they then are |
| Handler.RequestHandler.Handle | src/handler/requestHandler.cpp:33-190 | one announce request on the objects is one announce step of the whole system: same refusal, same memory, same rows queued for the three tables |
| Handler.RequestHandler.Announce | src/handler/requestHandler.cpp:62-190 | the memory after the objects went through the checks, the admission, the update, the credit and the removal is the model's `Announce` of the memory before, for every memory and request |
| Placement.Placed | src/handler/requestHandler.cpp:105-188 | which of the four sets hold the peer after an accepted announce, for every event, family, state and whatever they held before: a finished IPv4 peer is put with the seeders unless it is a leecher or completes, a finished IPv6 peer with the IPv6 seeders unless it is an IPv4 leecher, any other with the leechers of its family |
| Placement.FirstPlace | src/handler/requestHandler.cpp:105-150 | a first announce without an event puts the peer in exactly one set: by family, with the seeders if `left` is "0", else with the leechers |
| Placement.StoppedLeaves | src/handler/requestHandler.cpp:170-182 | a stopped peer is not in the set of its family and state any more |
| Placement.FoundIs | src/handler/requestHandler.cpp:105-150 | which entry the announce works on: the own leecher, or the own seeder, else the IPv4 leecher, else a new one |
| Effects.Stored | src/handler/requestHandler.cpp:105-188 | what the four sets then hold under the peer id: the updated entry, field by field, in one place, a completed peer marked among its leechers, everything else as it was |
| Effects.NewcomerIs | src/handler/peer.cpp:8-29 | every field of the peer a first announce creates, its address packed with the port's high byte first |
| Effects.ChargeIs | src/handler/requestHandler.cpp:116-125 | on a private tracker an announce of a peer that is not finished, or completes, is charged nothing if there is freeleech, a token of the peer's user for this torrent or a discount of 100 percent, and any other announce its figure |
| Effects.RunCharge | src/handler/requestHandler.cpp:116-125 | after any run the same by the last word that was spoken on the leech status and on that token |
| Effects.Recorded | src/handler/requestHandler.cpp:155-190 | every column of the one peer row and the one torrent row of an announce, from the request and the entry it found: charged and announced figures, bytes per second in the right column, seconds since the last update, the set sizes afterwards, the balance; a public tracker records none |
| Effects.Credits | src/handler/requestHandler.cpp:166-169 | the user of the entry, whoever asked, is credited with the rise cut to 32 bits, which goes into one row unless nothing is pending; no other user changes |
| Effects.Counted | src/handler/requestHandler.cpp:105-188 | the peer statistic moves with the torrent's size, less one where a stopped or completed peer was not there to erase |
| Effects.Gauged | src/handler/peer.cpp:55-74 | the bytes transferred grow by half of what was moved, the global speed loses half of the entry's old speeds and gains half of the new |
| Handler.RequestHandler.Check | src/handler/requestHandler.cpp:33-52 | the reason for a refusal is the first of the handler's tests on an announce with an info hash and a decoded peer id that fails, in their order, and none of them changes anything (`HandleAnnounce` does the rest) |
| Tracker.TurnedIsRefused | src/handler/requestHandler.cpp:33-47 | the tests before announces and scrapes part turn both away for the same reasons |
| Access.AcceptedIff | src/handler/requestHandler.cpp:33-91 | an announce is accepted if and only if passkey, address, peer id, whitelist, torrent, the user's right to leech and its addresses all allow it |
| Access.ReasonOf | src/handler/requestHandler.cpp:33-91 | each reason is given exactly when its test is the first to fail |
| Access.TurnedIff | src/handler/requestHandler.cpp:33-57 | a scrape is answered if and only if passkey, info hash and address allow it |
| Access.PeerIdReads | src/handler/requestHandler.cpp:48-52 | however a client escapes the 20 bytes of its peer id, the announce is made under these bytes and its first info hash |
| Handler.RequestHandler.IsWhitelisted | src/handler/requestHandler.cpp:65-75 | the loop finds a prefix of the peer id exactly if there is one, and an empty list lets everybody in |
| Handler.RequestHandler.Enter | src/handler/requestHandler.cpp:78-81 | a public tracker gets a fresh, empty torrent at its first announce and counts it; otherwise nothing changes |
| Handler.RequestHandler.AdmitLeecher | src/handler/requestHandler.cpp:105-129 | who is not finished, or completes, is found or created among the leechers of its family; a completed peer is marked and the torrent has one more snatch; no other column changes |
| Handler.RequestHandler.AdmitSeeder | src/handler/requestHandler.cpp:134-150 | a finished peer is taken from the seeders of its family, else from the IPv4 leechers, else created among the seeders; the returned peer is the one the rest of the announce works on |
| Handler.RequestHandler.AdmitPeer | src/handler/requestHandler.cpp:105-154 | both admissions together, the price of the download, and the peer statistic moved by the number of peers created |
| Handler.RequestHandler.FindOrAdd | src/handler/requestHandler.cpp:106-115 | the peer of that id in one set, created from the request only if it is not there; no other entry changes |
| Handler.RequestHandler.CompletePeer | src/handler/requestHandler.cpp:126-129 | the peer's entry is marked in its set and the torrent has one more snatch, as an `unsigned int` |
| Handler.RequestHandler.RefreshPeer | src/handler/requestHandler.cpp:155-162 | the peer, the gauges and the move of the balance after `updateStats`, from the peer as it was |
| Handler.RequestHandler.RecordAndCredit | src/handler/requestHandler.cpp:164-169 | one row from the peer before its time counter is read out; its user's pending counters, with the cut deltas added, become at most one row and are 0 again |
| Handler.RequestHandler.UpdateAndPay | src/handler/requestHandler.cpp:155-169 | update, balance, row and credit seen from the torrent, all users and the logs: one entry of one set and one user change |
| Handler.RequestHandler.LeavePeers | src/handler/requestHandler.cpp:170-188 | a stopped peer leaves the set of its family and state, a completed one the leechers of the other family, and the statistic falls in both cases |
| Pieces.ServedTorrent | src/handler/requestHandler.cpp:105-188 | admission, snatch, update, balance and removal, done one after the other to the torrent, are the one-column function's result |
| Handler.RequestHandler.ServePeer | src/handler/requestHandler.cpp:105-188 | the steps of an announce, one after the other, make the torrent, the users, the statistics and the logs what the one-column function says |
| Handler.RequestHandler.Accept | src/handler/requestHandler.cpp:105-190 | the same for the whole memory: no other torrent, user or peer changes, although everything is shared by reference |
| Handler.RequestHandler.SweepTorrents | src/handler/requestHandler.cpp:534-562 | erasing while iterating over all torrents and their four sets is the model's sweep for some order that visits every torrent and every peer once |
| Handler.RequestHandler.ClearTorrent | src/handler/requestHandler.cpp:542-558 | one torrent's turn: its peers are swept, it is dropped (public, if empty) or recorded (others, if a peer left), and no other torrent changes |
| Handler.RequestHandler.CloseTorrent | src/handler/requestHandler.cpp:547-558 | what follows the sweep of a torrent's peers: dropped, recorded or left alone |
| Handler.RequestHandler.ClearTorrentPeers | src/handler/requestHandler.cpp:534-562 | the sweep timer is one step of the whole system |
| Handler.RequestHandler.Update | src/handler/requestHandler.cpp:286-329 | every update request is one step of the whole system: torrents, users, tokens, restrictions, bans, whitelist and leech status in place, with the peers untouched |
| Handler.RequestHandler.UpdateUser | src/handler/requestHandler.cpp:331-363 | a user found by its passkey is edited in place and no other user changes; a token is for the id its torrent has now, and without the user or the torrent nothing happens |
| Handler.RequestHandler.AddTorrent | src/handler/requestHandler.cpp:379-391 | a torrent is created unless its info hash is taken, and gets the discount in both cases |
| Handler.RequestHandler.AddBan | src/handler/requestHandler.cpp:459-466 | the loop ends, by the cyclic distance between the bounds, and adds exactly the texts that read as an address of the interval, which wraps at 2^32 |
| Handler.RequestHandler.RemoveBan | src/handler/requestHandler.cpp:468-475 | the loop ends and takes away exactly the texts that read as an address of the interval |
| Handler.RequestHandler.RemoveUsers | src/handler/requestHandler.cpp:446-457 | the loop over a text of passkeys removes those of its pieces of 32 characters, in order, the last piece perhaps shorter |
| Handler.PiecesRemoved | src/handler/requestHandler.cpp:446-457 | afterwards exactly the passkeys that stand at a multiple of 32 in the text are unknown |
| Handler.RequestHandler.ChangePasskey | src/handler/requestHandler.cpp:365-377 | the user object moves to the new passkey unless that is taken, and the peers keep pointing to it |
| Handler.RequestHandler.FlushSqlRecords | src/handler/requestHandler.cpp:564-567 | the flush timer is the three flush steps of the system and leaves the memory as it is: in each table the requests become one more statement, and one more worker starts if and only if there is a statement; a public tracker flushes nothing |
| Handler.RequestHandler.Scrape | src/handler/requestHandler.cpp:261-284 | the loop over the asked hashes prints one entry for each that is a torrent, with the IPv4 leechers twice |
| Handler.RequestHandler.HandleScrape | src/handler/requestHandler.cpp:33-57 | a scrape is turned away for the first reason that applies or answered, and changes nothing |
| Swarm.User.UpdateStats | src/handler/user.cpp:28-31 | pending counters grow by the arguments modulo 2^32, modulo 2^64 |
| Swarm.Peer.constructor | src/handler/peer.cpp:8-29 | a new peer counts from the announced totals, with the packed address of its family |
| Swarm.Peer.UpdateStats | src/handler/peer.cpp:55-74 | deltas modulo 2^64, speeds per second (0 when no time went by), time added; the global speed loses the old speeds and gains the new ones |
| Swarm.Peer.GetTimespent | src/handler/peer.cpp:124-128 | reading the time counter resets it |
| Swarm.MySQL.RecordUser | src/database/mysql.cpp:406-418 | one row with both counters and a reset if anything is pending, else nothing |
| Swarm.MySQL.RecordTorrent | src/database/mysql.cpp:430-439 | one row with the sizes of both families' sets added up, the snatches and the balance, and the torrent unchanged |
| Swarm.MySQL.RecordPeer | src/database/mysql.cpp:441-476 | one row with the time counter, which is then 0 |
| Swarm.MySQL.Flush | src/database/mysql.cpp:196-202 | each of the three tables makes its flush move, and has one more worker if and only if it has a statement |
| Swarm.Peers.AddPeer | src/handler/peers.cpp:21-29 | an id that is taken keeps its peer, any other gets a fresh one; the statistic grows either way |
| Swarm.Peers.RemovePeer | src/handler/peers.cpp:31-34 | exactly this id leaves the set, the statistic falls even if it was not there, and the rotation's cursor goes astray if and only if it stood at this id |
| Swarm.Peers.NextPeer | src/handler/peers.cpp:36-47 | from a valid cursor the loop ends, returns the peer at the cursor or, behind the end, the first, and leaves the cursor one further |
| Swarm.Peers.Expire | src/handler/peers.cpp:58-64 | a timed-out peer is made inactive and queued once, unless the tracker is public, and exactly its entry goes |
| Swarm.Peers.Look | src/handler/peers.cpp:57-68 | one visit of the sweep erases the peer, and records it as inactive unless the tracker is public, if its last update is more than the timeout old, and changes nothing otherwise |
| Swarm.Peers.TimedOut | src/handler/peers.cpp:53-70 | erasing while iterating leaves exactly the peers whose last update is at most the timeout old and returns how many there are fewer; rows as by single visits in the order before the sweep |
| Swarm.Torrent.SetBalance | src/handler/torrent.cpp:52-54 | the balance is added to, as a 64-bit `long`, not set |
| Swarm.Torrent.ClearSet | src/handler/requestHandler.cpp:543-546 | sweeping one set changes that set of the torrent and no other, although all sets share the queue |
| Swarm.Torrent.ClearPeers | src/handler/requestHandler.cpp:543-546 | the sweeps of the four sets, one after the other, are one sweep over all the torrent's peers |
| Buffers.Buffer.Push | src/database/mysql.cpp:413-416 | recording is the queue's record move |
| Buffers.Buffer.Flush | src/database/mysql.cpp:204-231 | the requests, if any, become one more statement, one more worker starts if and only if there is a statement then, and no recorded row is lost |
| Buffers.Buffer.DoFlushRecords | src/database/mysql.cpp:393-404 | a worker's loop, whichever statements fail, keeps exactly the failed ones in order, applies the others in order, and is a run of the queue's moves from taking to releasing the lock |
| WriteBehind.MoveKeeps | src/database/mysql.cpp:204-235 | no move of the main loop or of any number of workers, failing or not, loses or repeats a row |
| WriteBehind.MoveInOrder | src/database/mysql.cpp:393-404 | without failures rows are applied in the order they were recorded, however many workers wait |
| WriteBehind.FlushStarts | src/database/mysql.cpp:204-231 | on values: a flush adds a worker if and only if something was queued or batched before it, and moves what was queued behind what was batched |
| WriteBehind.Drains | src/database/mysql.cpp:204-404 | when nobody holds the lock, a flush and the pass of its worker without failures are possible and apply every row of the log, in order if nothing failed before; nothing is left queued or batched |
| WriteBehind.KeptSums | src/database/mysql.cpp:393-418 | any weight summed over applied, batched and queued rows is its sum over everything recorded |
| WriteBehind.PassRuns | src/database/mysql.cpp:393-404 | an undisturbed pass is a run of single moves, for every pattern of failures |
| WriteBehind.WholePass | src/database/mysql.cpp:393-404 | lock, pass and release end with the failed statements kept and the others applied |
| WriteBehind.RetryRuns | src/database/mysql.cpp:227-230 | after a pass with failures, a flush with nothing new to batch and a pass without, all statements are applied, the failed ones last |
| WriteBehind.FailureReorders | src/database/mysql.cpp:398-402 | one failure and a retry apply two statements in the opposite order |
| System.TakeLogs | src/handler/requestHandler.cpp:164-190 | no step of the tracker takes back a recorded row |
| System.PerformKeeps | src/database/mysql.cpp:204-360 | every act of main loop or worker keeps each recorded row in exactly one place of its table's queue |
| Progress.OneLockHolder | src/database/mysql.cpp:393-404 | in every state that can be reached at most one worker holds the lock, at a position of its list |
| Progress.DatabaseCatchesUp | src/database/mysql.cpp:196-404 | from every state that can be reached, after any failures, flushes and workers that do not fail go on to a state in which each table has taken every row ever recorded, as often as recorded, and nothing waits; memory does not change |
| Progress.ColumnsCaughtUp | src/database/mysql.cpp:220-222 | and then the added-up columns themselves are the first value plus all credit, or all seconds, of the peers |
| Progress.TableCatchesUp | src/database/mysql.cpp:271-303 | and the torrents table shows every torrent loaded or announced as it is in memory, if no torrent statement failed before |
| System.DownloadedExactlyOnce | src/database/mysql.cpp:220-222 | for every interleaving and any failures: a user's downloaded column plus batched plus queued rows is its first value plus all credit its peers were given, also after passkey changes, stops and sweeps |
| System.UploadedExactlyOnce | src/database/mysql.cpp:220-222 | the same for uploads |
| System.CreditIsExact | src/handler/user.cpp:28-31 | a user's column, with batched and queued rows, is its first value plus the rise of all its peers' counters less 2^32 for every jump; if no counter falls it is exact if and only if none rises by 2^32 at once, and if none does, if and only if none falls |
| System.TimeExactlyOnce | src/database/mysql.cpp:343 | the seconds of a peer id of a torrent, with batched and queued rows, are the first value plus the lifetimes of all peers that had the id less 2^64 for every jump: always modulo 2^64, and exactly if and only if no accepted private announce of it comes before the last update it finds |
| System.EveryPeerExact | src/handler/peer.cpp:55-74 | the same peer by peer, from a fresh start and under any interleaving |
| Mirror.TableMirrorsMemory | src/database/mysql.cpp:271-303 | at any point of any interleaving without failing torrent statements, applying batched statements and queued rows to the table gives every torrent loaded or announced its current seeders, leechers, snatches and balance |
| Mirror.TakeMirrors | src/handler/requestHandler.cpp:163-190 | every step that changes a torrent's figures also records them |
| Mirror.StaleAfterRetry | src/database/mysql.cpp:398-402 | after any failures and a retry a torrent's entry is right if and only if the failed statements do not name the torrent or hold its last row |
| Mirror.FailureLeavesStaleRow | src/database/mysql.cpp:289-294 | with one failure the older of two rows of a torrent reaches the table last |
| Shape.RunFits | src/handler/requestHandler.cpp:105-188 | after every run each entry is keyed by its own peer id, belongs to its torrent, has an address packed for the family of its set, a user the tracker knows, and a time counter that was read out; no user has pending credit |
| Shape.ServeFits | src/handler/requestHandler.cpp:105-188 | one announce keeps that for its column, whichever sets the peer is in |
| Commute.AnnounceIsLocal | src/handler/requestHandler.cpp:105-188 | an announce changes nothing stored under another peer id or in another torrent |
| Commute.AnnouncesCommute | src/handler/requestHandler.cpp:62-190 | two private announces with different peer ids, in either order, leave the same peer sets, balances, snatches, user totals and statistics, each refused or accepted as before |
| Conservation.RunAgrees | src/handler/requestHandler.cpp:157-169 | over every run the rows recorded for a user, the seconds recorded for a peer and the global speed move by exactly what the sum over all peers, present and erased, moves by |
| Conservation.PayMoves | src/handler/requestHandler.cpp:166-169 | crediting a settled user and recording it moves the user's rows by the cut delta |
| Meters.TorrentAfterSum | src/handler/requestHandler.cpp:105-188 | a sum over a torrent's peers, present and erased, moves by the one peer the announce updated, through all admissions and removals |
| Exactness.RiseIsCut | src/handler/peer.cpp:55-74 | an accepted private announce books the rise of its counter modulo 2^32, or the time since the last update modulo 2^64, and any other books nothing |
| Exactness.StepIsExact | src/handler/peer.cpp:55-74 | exact books stay exact if and only if the announced figure is neither below the last one nor a whole word above it |
| Exactness.RunExact | src/handler/requestHandler.cpp:155-169 | for downloads, uploads and seconds: the books of every peer ever seen are exact at every point of a run if and only if every accepted private announce was in step with the peer it found |
| Exactness.TimeIsExact | src/handler/peer.cpp:72-73 | for the seconds, with clock readings of 64 bits, that is if and only if no such announce comes before the last update it finds |
| Exactness.RunRises | src/handler/requestHandler.cpp:155-169 | summed over any peers: what was booked in a run is what happened less one word for every jump, with the sign of the jumps |
| Exactness.ClockTicks | src/handler/peer.cpp:25-26 | a new peer whose constructor reads the clock a second later than its announce did reports 2^64 - 1 seconds |
| Exactness.CounterFalls | src/handler/peer.cpp:56-57 | a counter falling from 5 to 3 is credited 2^32 - 2 |
| Exactness.FreeCosts | src/handler/requestHandler.cpp:159 | a free announce is credited minus the counter so far modulo 2^32, nothing if and only if that is a multiple of 2^32 |
| Exactness.FreeIsPostponed | src/handler/requestHandler.cpp:159 | a free announce and the next one cost together, modulo 2^32, what they cost at full price |
| Accounts.VisitWorth | src/handler/requestHandler.cpp:157-163 | the balance moves with what the torrent's peers are worth, modulo 2^64, if and only if the tracker is not private or the announced corrupt counter is below 2^32 |
| Accounts.WorthMoves | src/handler/requestHandler.cpp:157-163 | the same for the one peer that is updated |
| Accounts.RunBalanced | src/handler/torrent.cpp:52-54 | over every run with such counters each balance is its first value plus the worth of all peers the torrent ever had, modulo 2^64 |
| Accounts.SpeedNeverUnderflows | src/misc/stats.cpp:43-56 | in every reachable state the global speed is the sum of all peers' last halved speeds, modulo 2^64; as long as that sum fits 64 bits it is equal, and an announce takes off no more than is there |
| Sweeps.SweepPeersExact | src/handler/peers.cpp:53-70 | a sweep erases exactly the visited peers whose last update is more than the timeout old, returns their number, keeps the rest as they were and, unless public, records each erased one once as inactive with the time of its last update |
| Sweeps.SweepIsExact | src/handler/requestHandler.cpp:534-562 | over all torrents, in each set exactly the peers stay whose last update is at most the timeout old; each other is recorded once as inactive, and each torrent that lost one is recorded once with the sizes that are left; a public tracker records nothing and keeps exactly the torrents with such a peer, any other keeps all |
| Access.RunSettings | src/handler/requestHandler.cpp:331-509 | after any run: who is banned, which prefixes are listed, the leech status, who may leech, which tokens a user has and which addresses it may come from are what the last step that spoke of it said, and as at the start if none did |
| Access.BannedIsRefused | src/handler/requestHandler.cpp:33-45 | after any run an announce is refused for a ban if and only if its passkey, where one is needed, is known and the last ban or lifting with its address in the interval was a ban, and then it changes nothing |
| Access.BanHolds | src/handler/requestHandler.cpp:459-475 | from the ban of an interval to a lifting that covers the address every announce from a client whose text reads as that address is refused and changes nothing, whatever else happens |
| Access.UserGetsIn | src/handler/requestHandler.cpp:35-91 | after any run of a private tracker a user is let in if and only if the last words on its right to leech, on its address and on bans allow it, besides peer id, whitelist and torrent |
| Access.PasskeysMove | src/handler/requestHandler.cpp:365-444 | whom a passkey stands for after any step |
| Access.PasskeyChange | src/handler/requestHandler.cpp:365-377 | a user moved to a free passkey is found under it and not under the old one; if it is taken, its owner keeps it and the other user has no passkey left |
| Access.UsersMove | src/handler/requestHandler.cpp:416-434 | users keep their place and id over every step; a new one has its id, nothing pending, the right to leech and no token |
| Access.TorrentEdits | src/handler/requestHandler.cpp:379-414 | adding, discounting and deleting touch the named torrent only: a taken info hash at most changes its discount |
| Liveness.RunCounts | src/misc/stats.cpp:25-33 | on a public tracker the torrent statistic is the size of the torrent map after every run |
| Liveness.LiveLeecherStays | src/handler/requestHandler.cpp:105-188 | a leecher that is heard within the timeout before every sweep and neither stops nor completes stays in its set, whatever others do |
| Rotation.RotationIsFair | src/handler/peers.cpp:36-47 | from any position up to n picks are different, and n picks in a row meet every peer |
| Answer.GetPeers | src/handler/requestHandler.cpp:231-259 | the list holds the packed addresses of the next peers of the rotation, in order, under the announced length |
| Answer.PeerLists | src/handler/requestHandler.cpp:205-207 | both lists, from the positions the two cursors had before |
| Answer.AnnounceReply | src/handler/requestHandler.cpp:191-229 | the reply is the counts of the torrent and the lists of its leechers for a finished peer, of its seeders for any other, sizes and cursors as they are, under the response head; only the rotations move on |
| Answer.HandedOut | src/handler/requestHandler.cpp:244-255 | as many different members as asked for, each entry reading back as the member's address and port, and everybody if asked for all |
| Answer.ReplyReads | src/handler/requestHandler.cpp:191-259 | for every torrent that fits: the body is one complete bencoded dictionary with the sizes of its sets, and holds different leechers for a finished peer and different seeders for any other, each in address bytes and port, as many as asked for and allowed or as there are; unless an IPv4 peer that goes on asks for fewer than none, and then it does not decode |
| Answer.RunReplyReads | src/handler/requestHandler.cpp:191-259 | after any run the reply decodes if and only if that is not the case |
| Answer.RepliedReads | src/handler/requestHandler.cpp:191-229 | what the handler answers is the response head and such a dictionary, with the same exception |
| Reply.SharesFit | src/handler/requestHandler.cpp:194-207 | both shares fit their sets and add up to what is asked for and allowed, or to all of the IPv4 set if it has no more, with as many IPv6 peers among them as there are; the IPv4 share is not negative if and only if the peer stops, is IPv6 or asks for at least none |
| Reply.BodyDecodes | src/handler/requestHandler.cpp:213-228 | the announce body decodes to its integers and to peer strings that split into the entries put in (BEP 3, BEP 23, BEP 7) |
| Reply.NegativeBodyFails | src/handler/requestHandler.cpp:240-241 | a list with a negative length is no bencoding |
| Reply.ErrorDecodes | src/misc/response.cpp:16-20 | an error reply decodes to its reason, whatever its bytes, and the two fixed intervals |
| Scrape.ScrapeReads | src/handler/requestHandler.cpp:261-284 | a scrape reply decodes to one entry for each asked hash that is a torrent, as often as asked and in that order, whatever bytes the hashes hold, with the torrent's current figures |
| Scrape.ScrapeAgainstAnnounce | src/handler/requestHandler.cpp:214-219 | scrape and announce agree on seeders and snatches, and on "incomplete" if and only if there are as many IPv6 as IPv4 leechers |
| Bencode.DecodeEncode | src/handler/requestHandler.cpp:213-228 | decoding what is encoded gives the value and leaves exactly what follows |
| Parser.ParseRequest | src/misc/parser.cpp:67-153 | for every input the two index-skipping loops end, never slice or index out of range, and compute the recursive scan |
| Parser.ReadFront | src/misc/parser.cpp:73-103 | the four shapes of the path, or a malformed request |
| Parser.ReadQuery | src/misc/parser.cpp:105-131 | the query loop is the scan |
| Parser.ReadHeaders | src/misc/parser.cpp:132-151 | the header loop is the scan |
| Request.ParseRoundTrip | src/misc/parser.cpp:67-153 | parsing a printed request gives back passkey, action, parameters, user agent and the decoded info hashes in reverse order |
| Request.PairStep | src/misc/parser.cpp:109-131 | what the query loop does with one pair, recorded if and only if a letter of key or value was looked at |
| Request.FirstValueWins | src/misc/parser.cpp:120 | a key keeps the value of its first pair |
| Request.LastHashFirst | src/misc/parser.cpp:109-131 | the first info hash handed on is the decoded value of the last such parameter |
| Request.FirstAgentWins | src/misc/parser.cpp:132-151 | the user agent is the value of the first header of that name, in letters of either case, unless a parameter took the name |
| Utility.HexToBinLoop | src/misc/utility.cpp:63-95 | for every input the loop ends, computes the recursive decoding, and its output is no longer than the input |
| Utility.ReadEscape | src/misc/utility.cpp:72-85 | the inner loop reads two hex digits, the high one first, and nothing beyond the terminator |
| Utility.DecodeOfEncode | src/misc/utility.cpp:63-95 | decoding undoes every percent-encoding, whichever bytes besides the percent sign are escaped and in either case of the hex digits (section 2.1 of RFC 3986) |
| Utility.EncodeOfDecode | src/misc/utility.cpp:63-95 | and only such encodings decode |
| Utility.HexToBinExact | src/misc/utility.cpp:63-95 | a text is an encoding of exactly the bytes it decodes to, and of nothing else |
| Utility.EscapeDecodes | src/misc/utility.cpp:72-85 | each pair of hex digits, in either case, decodes to sixteen times the first plus the second |
| Utility.IpPortRoundTrip | src/misc/utility.cpp:40-61 | a packed entry reads back as the address bytes and the port's low 16 bits |
| Utility.Long2IpReads | src/misc/utility.cpp:97-101 | a text reads as an address, four decimal numbers below 256 between dots with the highest byte first, if and only if it is what is printed for it |
| Bans.BanRoundTrip | src/handler/requestHandler.cpp:459-475 | no address outside the interval is touched, and lifting a ban with the same bounds restores the list if and only if none of the interval's addresses was banned before |
| Bans.TextsRead | src/handler/requestHandler.cpp:459-475 | what a ban or its lifting goes over is the texts that read as an address of the interval |

## Left out

- Non-compact peer lists (src/handler/requestHandler.cpp:249-253): they are one dictionary with repeated keys, which is not the list of dictionaries of BEP 3.
- Answer.GetPeers: the compact form only, for that reason, and a valid cursor whenever a peer is to be sent.
- Answer.AnnounceReply: the same; `Handler.RequestHandler.HandleAnnounce` has no reply where the cursor is not valid.
- Swarm.Peers.NextPeer: takes a valid cursor for granted, because the source leaves it dangling when its peer is erased and what follows is then undefined.
- Token rows and token expiry (src/handler/requestHandler.cpp:120-123): a token only sets the price.
- Handler.RequestHandler.AdmitPeer: does not queue the row of a token that is used.
- The snatches table, the announce count and last-action columns: written and never read back.
- Swarm.MySQL.Flush: three of the five tables, without tokens and snatches, which are flushed by the same moves.
- Handler.RequestHandler.FlushSqlRecords: the same three tables.
- SQL text and its escaping, connecting, loading at start and shutdown: foreign calls; a statement is the list of its rows.
- Gzip: `response` ignores the flag (src/misc/response.cpp:10-14).
- Sockets, timers and configuration files: a timer is a step that may happen at any time, a setting is a constant.
- Logging and the scaling of figures for display (src/misc/stats.cpp:45-51): not read by anything modelled.
- Requests without the parameters they need or with malformed numbers, and the choice of the action by the update key (src/handler/requestHandler.cpp:26-32): a call of module Session is a request that got past them.
- Header values with a colon: outside the round trip, since the header loop takes a colon for the end of a name.
- Mirror.TableMirrorsMemory: assumes that torrents have different ids, as the table's key does, and leaves out ids that a public tracker would give twice.
- Progress.TableCatchesUp: the same.
- Buffers.Buffer.DoFlushRecords: one worker that nothing disturbs; workers and main loop between each other's steps are covered on values by `WriteBehind` and `System`.
- Session.Session: starts with nothing loaded, and a worker's pass is not interrupted; runs of module System have neither limit.
