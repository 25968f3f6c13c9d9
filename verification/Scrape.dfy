/** What a scrape finds, and how its figures compare with those of an announce. */
module Scrape {
  import opened Options
  import opened Ledger
  import opened Tracker
  import opened Bencode
  import opened Reply

  type TorrentMap = map<string, TorrentV>

  /** The seeders of both families, the IPv4 leechers twice, and no IPv6 leecher. */
  function ScrapedOf(infoHash: string, t: TorrentV): Scraped {
    Scraped(infoHash, |t.seeders| + |t.seeders6|, |t.leechers| + |t.leechers|, t.snatches)
  }

  /** One entry for each hash asked for that is a torrent, in the order asked. */
  function ScrapeOf(torrents: TorrentMap, hashes: seq<string>): seq<Scraped> {
    if hashes == [] then []
    else
      var ih := hashes[|hashes| - 1];
      ScrapeOf(torrents, hashes[..|hashes| - 1]) + if ih in torrents then [ScrapedOf(ih, torrents[ih])] else []
  }

  /** One more hash adds its entry to the text, or nothing. */
  lemma ScrapeMore(torrents: TorrentMap, hashes: seq<string>, n: nat)
    requires n < |hashes|
    ensures ScrapeEntries(ScrapeOf(torrents, hashes[..n + 1]))
         == ScrapeEntries(ScrapeOf(torrents, hashes[..n]))
            + if hashes[n] in torrents then ScrapeEntry(ScrapedOf(hashes[n], torrents[hashes[n]])) else ""
  {
    var found := ScrapeOf(torrents, hashes[..n]);
    assert hashes[..n + 1][..n] == hashes[..n];
    if hashes[n] in torrents {
      EntryMore(found, ScrapedOf(hashes[n], torrents[hashes[n]]));
    } else {
      assert found + [] == found && ScrapeEntries(found) + "" == ScrapeEntries(found);
    }
    hide ScrapeEntry, ScrapedOf;
  }

  lemma EntryMore(found: seq<Scraped>, x: Scraped)
    ensures ScrapeEntries(found + [x]) == ScrapeEntries(found) + ScrapeEntry(x)
  {
    hide ScrapeEntry;
    assert (found + [x])[..|found|] == found;
  }

  /** The asked hash behind each entry. */
  function Found(torrents: TorrentMap, hashes: seq<string>): seq<string> {
    if hashes == [] then []
    else
      var ih := hashes[|hashes| - 1];
      Found(torrents, hashes[..|hashes| - 1]) + if ih in torrents then [ih] else []
  }

  lemma {:induction false} FoundAre(torrents: TorrentMap, hashes: seq<string>)
    ensures |ScrapeOf(torrents, hashes)| == |Found(torrents, hashes)|
    ensures forall i :: 0 <= i < |Found(torrents, hashes)| ==>
              var ih := Found(torrents, hashes)[i];
              ih in torrents && ScrapeOf(torrents, hashes)[i] == ScrapedOf(ih, torrents[ih])
  {
    hide ScrapedOf;
    if hashes != [] { FoundAre(torrents, hashes[..|hashes| - 1]); }
  }

  lemma {:induction false} FoundAsOften(torrents: TorrentMap, hashes: seq<string>, ih: string)
    ensures multiset(Found(torrents, hashes))[ih] == if ih in torrents then multiset(hashes)[ih] else 0
  {
    if hashes != [] {
      FoundAsOften(torrents, hashes[..|hashes| - 1], ih);
      assert hashes == hashes[..|hashes| - 1] + [hashes[|hashes| - 1]];
    }
  }

  /**
   * The scrape reply is one bencoded dictionary: under "files" one entry for each asked hash that is a torrent, as
   * often as it was asked for and in that order, with the torrent's figures as they are.
   */
  lemma ScrapeReads(torrents: TorrentMap, hashes: seq<string>)
    ensures var found := Found(torrents, hashes);
            var entries := ScrapeOf(torrents, hashes);
            && Decode(ScrapeBody(entries)) == Done(Dict(Item("files", Dict(ScrapeItems(entries)), End)), "")
            && |entries| == |found|
            && (forall ih :: multiset(found)[ih] == if ih in torrents then multiset(hashes)[ih] else 0)
            && (forall i :: 0 <= i < |found| ==>
                  found[i] in torrents && entries[i] == ScrapedOf(found[i], torrents[found[i]]))
  {
    ScrapeDecodes(ScrapeOf(torrents, hashes));
    FoundAre(torrents, hashes);
    forall ih { FoundAsOften(torrents, hashes, ih); }
    hide Decode, ScrapeBody, ScrapedOf;
  }

  /** The first value under a key of a dictionary. */
  function ValueOf(items: Items, key: string): Option<Ben> {
    match items
    case End => None
    case Item(k, v, rest) => if k == key then Some(v) else ValueOf(rest, key)
  }

  /** Scrape and announce agree on seeders and snatches, and on "incomplete" if and only if the torrent has as many IPv6
      leechers as IPv4 leechers. */
  lemma ScrapeAgainstAnnounce(infoHash: string, t: TorrentV, c: Settings)
    ensures var x := ScrapedOf(infoHash, t);
            var scraped := Counts(x.seeders, x.leechers, x.snatches);
            var announced := Header(TorrentRowOf(t), c);
            && ValueOf(scraped, "complete") == ValueOf(announced, "complete") == Some(Int(|t.seeders| + |t.seeders6|))
            && ValueOf(scraped, "downloaded") == ValueOf(announced, "downloaded") == Some(Int(t.snatches))
            && ValueOf(scraped, "incomplete") == Some(Int(2 * |t.leechers|))
            && ValueOf(announced, "incomplete") == Some(Int(|t.leechers| + |t.leechers6|))
            && (ValueOf(scraped, "incomplete") == ValueOf(announced, "incomplete") <==> |t.leechers| == |t.leechers6|)
  {
    var x, row := ScrapedOf(infoHash, t), TorrentRowOf(t);
    CountsValues(x.seeders, x.leechers, x.snatches, End);
    CountsValues(row.seeders, row.leechers, row.snatches,
                 Item("interval", Int(c.interval), Item("min interval", Int(c.minInterval), End)));
  }

  lemma CountsValues(complete: nat, incomplete: nat, downloaded: nat, more: Items)
    ensures var items := Append(Counts(complete, incomplete, downloaded), more);
            && ValueOf(items, "complete") == Some(Int(complete))
               && ValueOf(items, "incomplete") == Some(Int(incomplete))
            && ValueOf(items, "downloaded") == Some(Int(downloaded))
            && (more == End ==> items == Counts(complete, incomplete, downloaded))
  {
    var third := Item("downloaded", Int(downloaded), more);
    var second := Item("incomplete", Int(incomplete), third);
    assert Append(Item("downloaded", Int(downloaded), End), more) == third;
    assert Append(Item("incomplete", Int(incomplete), Item("downloaded", Int(downloaded), End)), more) == second;
    assert ValueOf(third, "downloaded") == ValueOf(second, "downloaded");
  }
}
