/** The bodies of announce, scrape and error replies, and what a bencode decoder reads in them. */
module Reply {
  import opened Options
  import opened Utility
  import opened Bencode
  import opened Ledger

  // ---------------------------------------------------------------- how many peers are sent

  function Min(a: int, b: int): int { if a <= b then a else b }

  /** Config: max_numwant, default_numwant and the two intervals. */
  datatype Settings = Settings(maxNumwant: int, defaultNumwant: int, interval: int, minInterval: int)

  /** How many IPv4 and how many IPv6 peers the reply announces. */
  datatype Shares = Shares(v4: int, v6: int)

  function SharesOf(r: Announcement, c: Settings, peers: nat, peers6: nat): Shares {
    if r.event.Stopped? then Shares(0, 0)
    else
      var wanted := if r.numwant.Some? then r.numwant.value else c.defaultNumwant;
      var i := Min(Min(wanted, c.maxNumwant), peers);
      var j := if r.ipv6 then Min(Min(i, c.maxNumwant), peers6) else 0;
      Shares(i - j, j)
  }

  predicate AsksEnough(r: Announcement, c: Settings) {
    c.maxNumwant >= 0 && (if r.numwant.Some? then r.numwant.value else c.defaultNumwant) >= 0
  }

  /** n IPv4 and n6 IPv6 peers are what r is due from sets of these sizes: none if it stops; otherwise together as many
      as asked for and allowed, but no more than the IPv4 set has, and of these as many IPv6 ones as there are for an
      IPv6 peer and none for another. */
  predicate FairShares(r: Announcement, c: Settings, peers: nat, peers6: nat, n: int, n6: int) {
    var wanted := if r.numwant.Some? then r.numwant.value else c.defaultNumwant;
    if r.event.Stopped? then n == 0 && n6 == 0
    else
      && n + n6 <= wanted && n + n6 <= c.maxNumwant && n + n6 <= peers
      && (n + n6 == wanted || n + n6 == c.maxNumwant || n + n6 == peers)
      && if r.ipv6 then n6 <= n + n6 && n6 <= peers6 && (n6 == n + n6 || n6 == peers6) else n6 == 0
  }

  /** The shares fit their sets and the request; they are negative only for an IPv4 request that asks for fewer than
      none. */
  lemma SharesFit(r: Announcement, c: Settings, peers: nat, peers6: nat)
    ensures var s := SharesOf(r, c, peers, peers6);
            && s.v4 <= peers && s.v6 <= peers6
            && (AsksEnough(r, c) ==>
                  0 <= s.v4 && 0 <= s.v6
                  && (s.v4 + s.v6 <= if r.numwant.Some? then Min(r.numwant.value, c.maxNumwant) else c.maxNumwant))
            && (0 <= s.v4 <==> r.event.Stopped? || r.ipv6 || AsksEnough(r, c)) && (s.v4 < 0 ==> s.v6 == 0)
            && FairShares(r, c, peers, peers6, s.v4, s.v6)
  {}

  // ---------------------------------------------------------------- peer lists

  function Join(entries: seq<string>): string {
    if entries == [] then "" else Join(entries[..|entries| - 1]) + entries[|entries| - 1]
  }

  function Bytes(ipv6: bool): nat { if ipv6 then 18 else 6 }

  /** `getPeers`: a key, the announced length, and the packed addresses. */
  function PeerList(entries: seq<string>, numwant: int, ipv6: bool): string {
    (if ipv6 then "6:peers6" else "5:peers") + (Decimal(numwant * Bytes(ipv6)) + ":" + Join(entries))
  }

  /** A peer string cut into entries of `size` bytes (BEP 23 for 6, BEP 7 for 18). */
  function Split(s: string, size: nat): seq<string>
    requires size > 0
  {
    if |s| < size then [] else Split(s[..|s| - size], size) + [s[|s| - size..]]
  }

  predicate Sized(entries: seq<string>, size: nat) {
    forall i :: 0 <= i < |entries| ==> |entries[i]| == size
  }

  lemma {:induction false} SplitOfJoin(entries: seq<string>, size: nat)
    requires size > 0 && Sized(entries, size)
    ensures |Join(entries)| == |entries| * size && Split(Join(entries), size) == entries
  {
    if entries != [] {
      var n := |entries| - 1;
      SplitOfJoin(entries[..n], size);
      OneMoreTime(n, size);
      SplitMore(Join(entries[..n]), entries[n], size);
      assert entries == entries[..n] + [entries[n]];
    }
  }

  lemma OneMoreTime(n: nat, size: nat)
    ensures (n + 1) * size == n * size + size
  {}

  lemma SplitMore(s: string, entry: string, size: nat)
    requires size > 0 && |entry| == size
    ensures Split(s + entry, size) == Split(s, size) + [entry]
  {
    assert (s + entry)[..|s + entry| - size] == s && (s + entry)[|s + entry| - size..] == entry;
  }

  /** The keys as the source spells them, each with its length in front. */
  lemma KeyTexts()
    ensures EncodeStr("complete") == "8:complete" && EncodeStr("incomplete") == "10:incomplete"
    ensures EncodeStr("downloaded") == "10:downloaded" && EncodeStr("interval") == "8:interval"
    ensures EncodeStr("min interval") == "12:min interval" && EncodeStr("files") == "5:files"
    ensures EncodeStr("peers6") == "6:peers6" && EncodeStr("peers") == "5:peers"
    ensures EncodeStr("failure reason") == "14:failure reason"
  {
    SmallNumbers();
    KeyText("complete", "8");
    KeyText("incomplete", "10");
    KeyText("downloaded", "10");
    KeyText("interval", "8");
    KeyText("min interval", "12");
    KeyText("files", "5");
    KeyText("peers6", "6");
    KeyText("peers", "5");
    KeyText("failure reason", "14");
    hide EncodeStr;
  }

  lemma KeyText(key: string, size: string)
    requires Digits(|key|) == size
    ensures EncodeStr(key) == size + ":" + key
  {}

  lemma SmallNumbers()
    ensures Digits(5) == "5" && Digits(6) == "6" && Digits(8) == "8"
    ensures Digits(10) == "10" && Digits(12) == "12" && Digits(14) == "14"
  {
    assert Digits(1) == "1";
    assert Digits(10) == Digits(1) + "0" && Digits(12) == Digits(1) + "2" && Digits(14) == Digits(1) + "4";
  }

  lemma PeerListIsItem(entries: seq<string>, ipv6: bool)
    requires Sized(entries, Bytes(ipv6))
    ensures PeerList(entries, |entries|, ipv6)
         == EncodeStr(if ipv6 then "peers6" else "peers") + Encode(Str(Join(entries)))
  {
    SplitOfJoin(entries, Bytes(ipv6));
    KeyTexts();
  }

  // ---------------------------------------------------------------- the announce body

  /** A key and an integer. */
  function IntField(key: string, n: int): string { key + ("i" + Decimal(n) + "e") }

  function CountsText(complete: nat, incomplete: nat, downloaded: nat): string {
    IntField("8:complete", complete) + (IntField("10:incomplete", incomplete) + IntField("10:downloaded", downloaded))
  }

  function AnnounceBody(row: TorrentRow, c: Settings, s: Shares, entries6: seq<string>, entries: seq<string>): string {
    "d" + (CountsText(row.seeders, row.leechers, row.snatches)
    + (IntField("8:interval", c.interval) + IntField("12:min interval", c.minInterval))
    + ((if s.v6 > 0 then PeerList(entries6, s.v6, true) else "") + (PeerList(entries, s.v4, false) + "e")))
  }

  function Append(a: Items, b: Items): Items {
    match a
    case End => b
    case Item(k, v, rest) => Item(k, v, Append(rest, b))
  }

  /** What follows encoded items is decoded as if they were not there, and then put behind them. */
  lemma {:induction false} DecodeAfterItems(items: Items, rest: string)
    ensures DecodeItems(EncodeItems(items) + rest)
         == (var p := DecodeItems(rest); if p.Fail? then Fail else Done(Append(items, p.value), p.rest))
    decreases items
  {
    match items
    case End => assert EncodeItems(items) + rest == rest;
    case Item(k, v, more) =>
      var after := EncodeItems(more) + rest;
      assert EncodeItems(items) + rest == EncodeStr(k) + (Encode(v) + after);
      StartsWithDigit(k, Encode(v) + after);
      DecodeEncodeStr(k, Encode(v) + after);
      DecodeEncode(v, after);
      DecodeAfterItems(more, rest);
  }

  function Counts(complete: nat, incomplete: nat, downloaded: nat): Items {
    Item("complete", Int(complete), Item("incomplete", Int(incomplete), Item("downloaded", Int(downloaded), End)))
  }

  function Header(row: TorrentRow, c: Settings): Items {
    Append(Counts(row.seeders, row.leechers, row.snatches),
           Item("interval", Int(c.interval), Item("min interval", Int(c.minInterval), End)))
  }

  lemma {:induction false} EncodeAppend(a: Items, b: Items)
    ensures EncodeItems(Append(a, b)) == EncodeItems(a) + EncodeItems(b)
    decreases a
  {
    match a
    case End =>
    case Item(k, v, rest) => EncodeAppend(rest, b);
  }

  lemma OneItem(key: string, v: Ben)
    ensures EncodeItems(Item(key, v, End)) == EncodeStr(key) + Encode(v)
  {
    assert Encode(v) + "" == Encode(v);
  }

  lemma CountsAreItems(complete: nat, incomplete: nat, downloaded: nat)
    ensures EncodeItems(Counts(complete, incomplete, downloaded)) == CountsText(complete, incomplete, downloaded)
  {
    KeyTexts();
    hide EncodeStr, Decimal;
    OneItem("downloaded", Int(downloaded));
    var c := EncodeItems(Item("downloaded", Int(downloaded), End));
    var b := EncodeItems(Item("incomplete", Int(incomplete), Item("downloaded", Int(downloaded), End)));
    assert b == EncodeStr("incomplete") + (Encode(Int(incomplete)) + c);
    assert b == IntField("10:incomplete", incomplete) + c;
  }

  lemma HeaderIsItems(row: TorrentRow, c: Settings)
    ensures EncodeItems(Header(row, c))
         == CountsText(row.seeders, row.leechers, row.snatches)
            + (IntField("8:interval", c.interval) + IntField("12:min interval", c.minInterval))
  {
    KeyTexts();
    var tail := Item("interval", Int(c.interval), Item("min interval", Int(c.minInterval), End));
    EncodeAppend(Counts(row.seeders, row.leechers, row.snatches), tail);
    CountsAreItems(row.seeders, row.leechers, row.snatches);
    hide EncodeStr, Decimal, CountsText;
    OneItem("min interval", Int(c.minInterval));
    var b := EncodeItems(Item("min interval", Int(c.minInterval), End));
    assert EncodeItems(tail) == EncodeStr("interval") + (Encode(Int(c.interval)) + b);
  }

  /** Peer strings as dictionary entries. */
  function Strings(s: Shares, text6: string, text: string): Items {
    var v4 := Item("peers", Str(text), End);
    if s.v6 > 0 then Item("peers6", Str(text6), v4) else v4
  }

  /** The peer lists of a reply as dictionary entries. */
  function PeerItems(s: Shares, entries6: seq<string>, entries: seq<string>): Items {
    Strings(s, Join(entries6), Join(entries))
  }

  lemma PeersAreItems(s: Shares, entries6: seq<string>, entries: seq<string>)
    requires Sized(entries6, 18) && Sized(entries, 6) && s.v4 == |entries| && (s.v6 > 0 ==> s.v6 == |entries6|)
    ensures EncodeItems(PeerItems(s, entries6, entries))
         == (if s.v6 > 0 then PeerList(entries6, s.v6, true) else "") + PeerList(entries, s.v4, false)
  {
    PeerListIsItem(entries, false);
    PeerListIsItem(entries6, true);
    StringsAreItems(s, Join(entries6), Join(entries));
    hide EncodeStr, Join, PeerList, Strings;
  }

  lemma StringsAreItems(s: Shares, text6: string, text: string)
    ensures EncodeItems(Strings(s, text6, text))
         == (if s.v6 > 0 then EncodeStr("peers6") + Encode(Str(text6)) else "")
            + (EncodeStr("peers") + Encode(Str(text)))
  {
    hide EncodeStr;
    OneItem("peers", Str(text));
    var b := EncodeItems(Item("peers", Str(text), End));
    if s.v6 > 0 {
      Regroup(EncodeStr("peers6"), Encode(Str(text6)), b);
    } else {
      assert "" + b == b;
    }
  }

  lemma Regroup(a: string, b: string, c: string)
    ensures a + (b + c) == a + b + c
  {}

  /**
   * The announce body is one bencoded dictionary and nothing more: its integers are the counts and intervals, and its
   * peer strings split into the packed entries that were put in.
   */
  lemma BodyDecodes(row: TorrentRow, c: Settings, s: Shares, entries6: seq<string>, entries: seq<string>)
    requires Sized(entries6, 18) && Sized(entries, 6) && s.v4 == |entries| && (s.v6 > 0 ==> s.v6 == |entries6|)
    ensures Decode(AnnounceBody(row, c, s, entries6, entries))
         == Done(Dict(Append(Header(row, c), PeerItems(s, entries6, entries))), "")
    ensures Split(Join(entries), 6) == entries && Split(Join(entries6), 18) == entries6
  {
    hide CountsText, IntField, PeerList, Header, PeerItems, Decode, Join, Split;
    var items := Append(Header(row, c), PeerItems(s, entries6, entries));
    EncodeAppend(Header(row, c), PeerItems(s, entries6, entries));
    HeaderIsItems(row, c);
    PeersAreItems(s, entries6, entries);
    SplitOfJoin(entries, 6);
    SplitOfJoin(entries6, 18);
    BodyRegroups(CountsText(row.seeders, row.leechers, row.snatches)
                 + (IntField("8:interval", c.interval) + IntField("12:min interval", c.minInterval)),
                 if s.v6 > 0 then PeerList(entries6, s.v6, true) else "", PeerList(entries, s.v4, false));
    assert AnnounceBody(row, c, s, entries6, entries) == Encode(Dict(items));
    DecodeEncode(Dict(items), "");
    assert Encode(Dict(items)) + "" == Encode(Dict(items));
  }

  lemma BodyRegroups(header: string, six: string, four: string)
    ensures "d" + (header + (six + (four + "e"))) == "d" + (header + (six + four)) + "e"
  {}

  /** A peer list with a negative length is no string, so the dictionary does not decode. */
  lemma NegativeLengthFails(n: int, rest: string)
    requires n < 0
    ensures DecodeItems("5:peers" + (Decimal(n) + ":" + rest)).Fail?
  {
    var s := "5:peers" + (Decimal(n) + ":" + rest);
    KeyTexts();
    DecodeEncodeStr("peers", Decimal(n) + ":" + rest);
    StartsWithDigit("peers", Decimal(n) + ":" + rest);
    var v := Decimal(n) + ":" + rest;
    assert v[0] == '-';
    assert DecodeStr(v).Fail?;
  }

  lemma NegativeBodyFails(row: TorrentRow, c: Settings, s: Shares, entries6: seq<string>, entries: seq<string>)
    requires s.v4 < 0 && s.v6 <= 0
    ensures Decode(AnnounceBody(row, c, s, entries6, entries)).Fail?
  {
    var header := CountsText(row.seeders, row.leechers, row.snatches)
                  + (IntField("8:interval", c.interval) + IntField("12:min interval", c.minInterval));
    HeaderIsItems(row, c);
    var tail := "5:peers" + (Decimal(s.v4 * 6) + ":" + (Join(entries) + "e"));
    NegativeTail(Decimal(s.v4 * 6), Join(entries));
    NegativeLengthFails(s.v4 * 6, Join(entries) + "e");
    DecodeAfterItems(Header(row, c), tail);
    var body := AnnounceBody(row, c, s, entries6, entries);
    hide CountsText, IntField, DecodeItems, Header, Join;
    assert body == "d" + (header + tail);
    assert body[1..] == header + tail;
  }

  lemma NegativeTail(number: string, joined: string)
    ensures "" + ("5:peers" + (number + ":" + joined) + "e") == "5:peers" + (number + ":" + (joined + "e"))
  {}

  // ---------------------------------------------------------------- errors and scrapes

  const HEAD := "HTTP/1.1 200 OK\r\nServer: liquid 0.0\r\nContent-Type: text/plain\r\nConnection: close\r\n\r\n"

  function Response(body: string): string { HEAD + body }

  function ErrorBody(reason: string): string {
    "d14:failure reason" + (Digits(|reason|) + ":" + reason) + "12:min intervali5400e8:intervali5400ee"
  }

  /** An error reply decodes to its reason and the two fixed intervals. */
  lemma ErrorDecodes(reason: string)
    ensures Decode(ErrorBody(reason))
         == Done(Dict(Item("failure reason", Str(reason),
                           Item("min interval", Int(5400), Item("interval", Int(5400), End)))), "")
  {
    var intervals := Item("min interval", Int(5400), Item("interval", Int(5400), End));
    var items := Item("failure reason", Str(reason), intervals);
    IntervalsText();
    KeyTexts();
    assert ErrorBody(reason) == Encode(Dict(items)) by {
      hide Digits, Decimal;
      ErrorRegroups(Encode(Str(reason)), EncodeItems(intervals));
    }
    DecodeEncode(Dict(items), "");
    assert Encode(Dict(items)) + "" == Encode(Dict(items));
  }

  lemma ErrorRegroups(reason: string, intervals: string)
    ensures "d14:failure reason" + reason + (intervals + "e")
            == "d" + ("14:failure reason" + (reason + intervals)) + "e"
  {}

  lemma IntervalsText()
    ensures EncodeItems(Item("min interval", Int(5400), Item("interval", Int(5400), End)))
         == "12:min intervali5400e8:intervali5400e"
  {
    KeyTexts();
    Text5400();
    OneItem("interval", Int(5400));
    hide EncodeStr, Decimal, Digits;
    assert "12:min interval" + ("i5400e" + ("8:interval" + "i5400e")) == "12:min intervali5400e8:intervali5400e";
  }

  lemma Text5400()
    ensures Encode(Int(5400)) == "i5400e"
  {
    assert Digits(5) == "5" && Digits(54) == Digits(5) + "4" && Digits(540) == Digits(54) + "0";
    assert Digits(5400) == Digits(540) + "0";
  }

  /** What a scrape reply says about one torrent. */
  datatype Scraped = Scraped(infoHash: string, seeders: nat, leechers: nat, snatches: nat)

  function ScrapeEntry(x: Scraped): string {
    (Digits(|x.infoHash|) + ":" + x.infoHash) + ("d" + CountsText(x.seeders, x.leechers, x.snatches) + "e")
  }

  function ScrapeEntries(found: seq<Scraped>): string {
    if found == [] then "" else ScrapeEntries(found[..|found| - 1]) + ScrapeEntry(found[|found| - 1])
  }

  function ScrapeBody(found: seq<Scraped>): string { "d5:filesd" + ScrapeEntries(found) + "ee" }

  function ScrapeItems(found: seq<Scraped>): Items {
    if found == [] then End else Append(ScrapeItems(found[..|found| - 1]), ScrapeItem(found[|found| - 1]))
  }

  function ScrapeItem(x: Scraped): Items {
    Item(x.infoHash, Dict(Counts(x.seeders, x.leechers, x.snatches)), End)
  }

  lemma {:induction false} ScrapeEntriesAreItems(found: seq<Scraped>)
    ensures ScrapeEntries(found) == EncodeItems(ScrapeItems(found))
  {
    if found != [] {
      var n := |found| - 1;
      ScrapeEntryIsItem(found[n]);
      ScrapeEntriesAreItems(found[..n]);
      EncodeAppend(ScrapeItems(found[..n]), ScrapeItem(found[n]));
      hide ScrapeEntry, ScrapeItem;
    }
  }

  lemma ScrapeEntryIsItem(x: Scraped)
    ensures ScrapeEntry(x) == EncodeItems(ScrapeItem(x))
  {
    CountsAreItems(x.seeders, x.leechers, x.snatches);
    OneItem(x.infoHash, Dict(Counts(x.seeders, x.leechers, x.snatches)));
    hide CountsText;
  }

  /** A scrape reply decodes to one entry for each torrent found, in the order asked, whatever bytes the hashes hold. */
  lemma ScrapeDecodes(found: seq<Scraped>)
    ensures Decode(ScrapeBody(found)) == Done(Dict(Item("files", Dict(ScrapeItems(found)), End)), "")
  {
    var items := Item("files", Dict(ScrapeItems(found)), End);
    ScrapeEntriesAreItems(found);
    KeyTexts();
    OneItem("files", Dict(ScrapeItems(found)));
    ScrapeRegroups(ScrapeEntries(found));
    DecodeEncode(Dict(items), "");
    assert Encode(Dict(items)) + "" == Encode(Dict(items));
  }

  lemma ScrapeRegroups(entries: string)
    ensures "d5:filesd" + entries + "ee" == "d" + ("5:files" + ("d" + entries + "e")) + "e"
  {}
}
