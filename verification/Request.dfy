/** Printing a request as a client sends it, and that the parser reads back what was printed. */
module Request {
  import opened Options
  import opened Ledger
  import opened Utility
  import opened Parser

  datatype Pair = Pair(key: string, value: string)

  /** GET /passkey/action?params with its headers; passkey and action may be missing. */
  datatype Request = Request(passkey: Option<string>, action: Option<string>, params: seq<Pair>, headers: seq<Pair>)

  const VERSION := "HTTP/1.1\r\n"

  function PrintQuery(params: seq<Pair>): string {
    if params == [] then ""
    else params[0].key + "=" + params[0].value + (if |params| == 1 then " " else "&") + PrintQuery(params[1..])
  }

  function PrintHeaders(headers: seq<Pair>): string {
    if headers == [] then ""
    else headers[0].key + ": " + headers[0].value + "\r\n" + PrintHeaders(headers[1..])
  }

  function PrintPath(r: Request): string {
    match (r.passkey, r.action)
    case (Some(p), Some(a)) => p + "/" + a
    case (Some(p), None) => p
    case (None, Some(a)) => a
    case (None, None) => ""
  }

  function Print(r: Request): string {
    "GET /" + PrintPath(r) + "?" + (PrintQuery(r.params) + (VERSION + (PrintHeaders(r.headers) + "\r\n")))
  }

  // ---------------------------------------------------------------- what can be printed

  predicate Plain(s: string) { forall i :: 0 <= i < |s| ==> s[i] != '=' && s[i] != '&' && s[i] != ' ' }

  predicate PlainHeader(s: string) { forall i :: 0 <= i < |s| ==> s[i] != ':' && s[i] != '\r' && s[i] != '\n' }

  /** The scan never looks at the first letter of a value, nor at the first of any key but the first one, so a later
      pair needs one letter more than a key and a value of length one. */
  predicate GoodPair(p: Pair, first: bool) {
    && |p.key| >= 1 && |p.value| >= 1 && (first || |p.key| + |p.value| > 2)
    && Plain(p.key) && Plain(p.value)
  }

  predicate GoodHeader(p: Pair, first: bool) {
    && |p.key| >= 1 && |p.value| >= 1 && (first || |p.key| + |p.value| > 2)
    && PlainHeader(p.key) && PlainHeader(p.value)
  }

  predicate NoEnds(s: string) { forall i :: 0 <= i < |s| ==> !Ends(s[i]) }

  predicate GoodRequest(r: Request) {
    && (r.passkey.Some? ==> |r.passkey.value| == 32 && NoEnds(r.passkey.value))
    && (r.action.Some? ==> 1 <= |r.action.value| <= 8 && NoEnds(r.action.value))
    && r.params != []
    && (forall i :: 0 <= i < |r.params| ==> GoodPair(r.params[i], i == 0))
    && (forall i :: 0 <= i < |r.headers| ==> GoodHeader(r.headers[i], i == 0))
    && |Print(r)| >= 60
  }

  // ---------------------------------------------------------------- what should be read

  /** The fields after the parameters: the first value of each key, info hashes left out. */
  function AddParams(m: Fields, params: seq<Pair>): Fields
    decreases params
  {
    if params == [] then m
    else
      var p := params[0];
      AddParams(if p.key == "info_hash" then m else Emplace(m, p.key, p.value), params[1..])
  }

  /** The decoded info hashes, the last one first. */
  function Hashes(params: seq<Pair>): seq<string> {
    if params == [] then []
    else Hashes(params[1..]) + if params[0].key == "info_hash" then [HexToBin(params[0].value)] else []
  }

  function AddAgents(m: Fields, headers: seq<Pair>): Fields
    decreases headers
  {
    if headers == [] then m
    else
      AddAgents(if ToLower(headers[0].key) == "user-agent" then Emplace(m, "user-agent", headers[0].value) else m,
                headers[1..])
  }

  function PathFields(r: Request): Fields {
    (if r.passkey.Some? then map["reqpasskey" := r.passkey.value] else map[])
    + (if r.action.Some? then map["action" := r.action.value] else map[])
  }

  function Expected(r: Request): Parsed {
    Parsed(AddAgents(AddParams(PathFields(r), r.params), r.headers), Hashes(r.params))
  }

  // ---------------------------------------------------------------- scanning a query

  /** The text from position p on starts with t. */
  predicate Here(s: string, p: nat, t: string) { p <= |s| && t <= s[p..] }

  lemma HereChar(s: string, p: nat, t: string, i: nat)
    requires Here(s, p, t) && i < |t|
    ensures p + i < |s| && s[p + i] == t[i]
  {
    assert s[p..][i] == t[i];
  }

  lemma HereTail(s: string, p: nat, a: string, b: string)
    requires Here(s, p, a + b)
    ensures Here(s, p, a) && Here(s, p + |a|, b) && s[p..p + |a|] == a
  {
    assert s[p..][..|a + b|] == a + b;
    assert s[p..][..|a|] == a;
    assert s[p + |a|..] == s[p..][|a|..];
    assert (s[p..])[|a|..][..|b|] == b;
  }

  lemma HereParts(s: string, p: nat, a: string, b: string, c: string, d: string)
    requires Here(s, p, a + b + c + d) && b != "" && d != ""
    ensures var k := p + |a|;
            var e := k + |b| + |c|;
            && k + |b| <= e < |s| && s[k] == b[0] && s[e] == d[0] && s[p..k] == a && s[k + |b|..e] == c
  {
    var k := p + |a|;
    HereTail(s, p, a + b + c, d);
    HereTail(s, p, a + b, c);
    HereTail(s, p, a, b);
    HereChar(s, k, b, 0);
    HereChar(s, k + |b| + |c|, d, 0);
  }

  /** The scans under names of their own, so that proofs can leave them folded. */
  function Query(s: string, i: nat, st: Scan): Scan
    requires 1 <= st.pos <= i
  {
    ScanQuery(s, i, st)
  }

  function HeaderScan(s: string, i: nat, st: Scan): Scan
    requires st.pos <= i
  {
    ScanHeaders(s, i, st)
  }

  lemma {:induction false} SkipPlain(s: string, i: nat, j: nat, st: Scan)
    requires 1 <= st.pos <= i <= j <= |s| && Plain(s[i..j])
    ensures ScanQuery(s, i, st) == ScanQuery(s, j, st.(found := st.found || i < j))
    decreases j - i
  {
    if i < j {
      assert s[i] == s[i..j][0];
      assert s[i + 1..j] == s[i..j][1..];
      SkipPlain(s, i + 1, j, st.(found := true));
    }
  }

  /** Where the parts of a pair lie. */
  lemma PairLayout(s: string, pos: nat, i: nat, p: Pair, d: char)
    requires pos <= i <= pos + 1 && Here(s, pos, p.key + "=" + p.value + [d])
    requires |p.key| >= 1 && |p.value| >= 1 && Plain(p.key) && Plain(p.value)
    ensures var k := pos + |p.key|;
            var e := k + 1 + |p.value|;
            && e < |s| && s[k] == '=' && s[e] == d && s[pos..k] == p.key && s[k + 1..e] == p.value
            && Plain(s[i..k]) && Plain(s[k + 2..e])
  {
    var k := pos + |p.key|;
    var e := k + 1 + |p.value|;
    HereParts(s, pos, p.key, "=", p.value, [d]);
    hide Here;
    assert s[i..k] == p.key[i - pos..];
    assert s[k + 2..e] == p.value[1..];
  }

  /** The scan takes key and equals sign, and comes to the pair's delimiter. */
  lemma PairReached(s: string, i: nat, st: Scan, p: Pair, d: char)
    requires 1 <= st.pos <= i <= st.pos + 1 && !st.found
    requires Here(s, st.pos, p.key + "=" + p.value + [d])
    requires |p.key| >= 1 && |p.value| >= 1 && Plain(p.key) && Plain(p.value)
    ensures var k := st.pos + |p.key|;
            var e := k + 1 + |p.value|;
            Query(s, i, st) == Query(s, e, st.(key := p.key, pos := k + 1, found := i < k || k + 2 < e))
  {
    var k := st.pos + |p.key|;
    var e := k + 1 + |p.value|;
    PairLayout(s, st.pos, i, p, d);
    hide Here, Plain, Keep;
    var named := st.(key := p.key, pos := k + 1, found := i < k);
    SkipPlain(s, i, k, st);
    assert ScanQuery(s, k, st.(found := i < k)) == ScanQuery(s, k + 2, named);
    SkipPlain(s, k + 2, e, named);
  }

  /** At the delimiter the value is kept if data was seen. */
  lemma PairEnd(s: string, e: nat, st: Scan)
    requires 1 <= st.pos <= e < |s| && (s[e] == '&' || s[e] == ' ') && s[st.pos - 1] == '='
    ensures Query(s, e, st)
         == if st.found then
              var kept := Keep(st, s[st.pos..e]).(pos := e + 1, found := false);
              if s[e] == ' ' then kept else Query(s, e + 2, kept.(key := ""))
            else Query(s, e + 1, st.(key := ""))
  {}

  /**
   * One pair, exactly. The scan stands at its first character (i == pos) or, after an earlier pair, at its second.
   * At its delimiter the pair is recorded if data was seen; if not, it is lost: the token goes on from its value.
   */
  lemma PairStep(s: string, i: nat, st: Scan, p: Pair, d: char)
    requires 1 <= st.pos <= i <= st.pos + 1 && !st.found
    requires Here(s, st.pos, p.key + "=" + p.value + [d]) && (d == '&' || d == ' ')
    requires |p.key| >= 1 && |p.value| >= 1 && Plain(p.key) && Plain(p.value)
    ensures var e := st.pos + |p.key| + 1 + |p.value|;
            var named := st.(key := p.key, pos := st.pos + |p.key| + 1);
            Query(s, i, st)
            == if i == st.pos || |p.key| + |p.value| > 2 then
                 var kept := Keep(named, p.value).(pos := e + 1);
                 if d == ' ' then kept else Query(s, e + 2, kept.(key := ""))
               else Query(s, e + 1, named.(key := ""))
  {
    hide Here, Plain, Keep, Query;
    var k := st.pos + |p.key|;
    var e := k + 1 + |p.value|;
    PairLayout(s, st.pos, i, p, d);
    PairReached(s, i, st, p, d);
    PairEnd(s, e, st.(key := p.key, pos := k + 1, found := i < k || k + 2 < e));
    KeepUnflagged(st.(key := p.key, pos := k + 1, found := i < k || k + 2 < e), p.value);
  }

  lemma KeepUnflagged(st: Scan, value: string)
    ensures Keep(st, value).(found := false) == Keep(st.(found := false), value)
  {}

  lemma KeptIs(st: Scan, value: string)
    ensures var own := if st.key == "info_hash" then [HexToBin(value)] else [];
            Keep(st, value) == Scan(st.pos, st.key, st.found,
                                    if st.key == "info_hash" then st.fields else Emplace(st.fields, st.key, value),
                                    own + st.infoHashes)
  {
    assert [] + st.infoHashes == st.infoHashes;
  }

  function PairText(p: Pair, d: char): string { p.key + "=" + p.value + [d] }

  lemma QueryCons(s: string, pos: nat, params: seq<Pair>)
    requires params != [] && Here(s, pos, PrintQuery(params))
    ensures var head := PairText(params[0], if |params| == 1 then ' ' else '&');
            && Here(s, pos, head) && Here(s, pos + |head|, PrintQuery(params[1..]))
            && |PrintQuery(params)| == |head| + |PrintQuery(params[1..])|
  {
    HereTail(s, pos, PairText(params[0], if |params| == 1 then ' ' else '&'), PrintQuery(params[1..]));
  }

  /** The whole query: every pair is recorded, and the scan stops behind the blank. */
  lemma {:induction false} QueryRound(s: string, i: nat, st: Scan, params: seq<Pair>, first: bool)
    requires params != [] && (forall j :: 0 <= j < |params| ==> GoodPair(params[j], first && j == 0))
    requires 1 <= st.pos && i == (if first then st.pos else st.pos + 1) && !st.found
    requires Here(s, st.pos, PrintQuery(params))
    ensures var q := Query(s, i, st);
            q == Scan(st.pos + |PrintQuery(params)|, q.key, false, AddParams(st.fields, params),
                      Hashes(params) + st.infoHashes)
    decreases params
  {
    hide Query, Here, Plain, Keep, Emplace, HexToBin;
    var p := params[0];
    var rest := params[1..];
    var d := if rest == [] then ' ' else '&';
    QueryCons(s, st.pos, params);
    assert GoodPair(p, first);
    PairStep(s, i, st, p, d);
    var e := st.pos + |PairText(p, d)|;
    var named := st.(key := p.key, pos := st.pos + |p.key| + 1);
    var kept := Keep(named, p.value).(pos := e);
    KeptIs(named, p.value);
    var own := if p.key == "info_hash" then [HexToBin(p.value)] else [];
    if rest == [] {
      assert Hashes(rest) == [] && AddParams(kept.fields, rest) == kept.fields;
    } else {
      forall j | 0 <= j < |rest| ensures GoodPair(rest[j], false && j == 0) { assert rest[j] == params[j + 1]; }
      QueryRound(s, e + 1, kept.(key := ""), rest, false);
      assert Hashes(rest) + (own + st.infoHashes) == Hashes(params) + st.infoHashes;
    }
  }

  // ---------------------------------------------------------------- scanning headers

  lemma {:induction false} SkipPlainHeader(s: string, i: nat, j: nat, st: Scan)
    requires st.pos <= i <= j <= |s| && PlainHeader(s[i..j])
    ensures ScanHeaders(s, i, st) == ScanHeaders(s, j, st.(found := st.found || i < j))
    decreases j - i
  {
    if i < j {
      assert s[i] == s[i..j][0];
      assert s[i + 1..j] == s[i..j][1..];
      SkipPlainHeader(s, i + 1, j, st.(found := true));
    }
  }

  lemma HeaderLayout(s: string, pos: nat, i: nat, p: Pair)
    requires pos <= i <= pos + 1 && Here(s, pos, p.key + ": " + p.value + "\r\n") && GoodHeader(p, i == pos)
    ensures var k := pos + |p.key|;
            var e := k + 2 + |p.value|;
            && e < |s| && s[k] == ':' && s[e] == '\r' && s[pos..k] == p.key && s[k + 2..e] == p.value
            && PlainHeader(s[i..k]) && PlainHeader(s[k + 3..e])
  {
    var k := pos + |p.key|;
    var e := k + 2 + |p.value|;
    HereParts(s, pos, p.key, ": ", p.value, "\r\n");
    hide Here;
    assert s[i..k] == p.key[i - pos..];
    assert s[k + 3..e] == p.value[1..];
  }

  lemma HeaderReached(s: string, i: nat, st: Scan, p: Pair)
    requires st.pos <= i <= st.pos + 1 && !st.found
    requires Here(s, st.pos, p.key + ": " + p.value + "\r\n") && GoodHeader(p, i == st.pos)
    ensures var k := st.pos + |p.key|;
            var e := k + 2 + |p.value|;
            HeaderScan(s, i, st)
            == HeaderScan(s, e, st.(key := p.key, pos := k + 2, found := i < k || k + 3 < e))
  {
    var k := st.pos + |p.key|;
    var e := k + 2 + |p.value|;
    HeaderLayout(s, st.pos, i, p);
    hide Here, PlainHeader, ToLower;
    var named := st.(key := p.key, pos := k + 2, found := i < k);
    SkipPlainHeader(s, i, k, st);
    assert ScanHeaders(s, k, st.(found := i < k)) == ScanHeaders(s, k + 3, named);
    SkipPlainHeader(s, k + 3, e, named);
  }

  lemma HeaderEnd(s: string, e: nat, st: Scan)
    requires st.pos <= e < |s| && s[e] == '\r' && st.found
    ensures HeaderScan(s, e, st)
         == HeaderScan(s, e + 3, KeepAgent(st, s[st.pos..e]).(pos := e + 2, found := false, key := ""))
  {}

  lemma HeaderStep(s: string, i: nat, st: Scan, p: Pair)
    requires st.pos <= i <= st.pos + 1 && !st.found
    requires Here(s, st.pos, p.key + ": " + p.value + "\r\n") && GoodHeader(p, i == st.pos)
    ensures var e := st.pos + |p.key| + 2 + |p.value|;
            HeaderScan(s, i, st)
            == HeaderScan(s, e + 3, KeepAgent(st.(key := p.key), p.value).(pos := e + 2, found := false, key := ""))
  {
    hide Here, HeaderScan, PlainHeader, ToLower;
    var k := st.pos + |p.key|;
    var e := k + 2 + |p.value|;
    var named := st.(key := p.key, pos := k + 2, found := i < k || k + 3 < e);
    HeaderLayout(s, st.pos, i, p);
    HeaderReached(s, i, st, p);
    HeaderEnd(s, e, named);
    assert KeepAgent(named, p.value).(pos := e + 2, found := false, key := "")
        == KeepAgent(st.(key := p.key), p.value).(pos := e + 2, found := false, key := "");
  }

  function HeaderText(p: Pair): string { p.key + ": " + p.value + "\r\n" }

  lemma HeadersCons(s: string, pos: nat, headers: seq<Pair>)
    requires headers != [] && Here(s, pos, PrintHeaders(headers) + "\r\n")
    ensures var head := HeaderText(headers[0]);
            && Here(s, pos, head) && Here(s, pos + |head|, PrintHeaders(headers[1..]) + "\r\n")
            && |PrintHeaders(headers)| == |head| + |PrintHeaders(headers[1..])|
  {
    var head := HeaderText(headers[0]);
    assert PrintHeaders(headers) + "\r\n" == head + (PrintHeaders(headers[1..]) + "\r\n");
    HereTail(s, pos, head, PrintHeaders(headers[1..]) + "\r\n");
  }

  lemma NoHeaders(s: string, i: nat, st: Scan)
    requires st.pos <= i <= st.pos + 1 && !st.found && Here(s, st.pos, "\r\n") && |s| == st.pos + 2
    ensures HeaderScan(s, i, st) == st.(key := "")
  {
    HereChar(s, st.pos, "\r\n", 0);
    HereChar(s, st.pos, "\r\n", 1);
    var n := st.(key := "");
    assert ScanHeaders(s, st.pos + 2, n) == n;
    assert ScanHeaders(s, st.pos + 1, n) == ScanHeaders(s, st.pos + 2, n);
  }

  lemma {:induction false} HeadersRound(s: string, i: nat, st: Scan, headers: seq<Pair>, first: bool)
    requires forall j :: 0 <= j < |headers| ==> GoodHeader(headers[j], first && j == 0)
    requires i == (if first then st.pos else st.pos + 1) && !st.found
    requires Here(s, st.pos, PrintHeaders(headers) + "\r\n") && |s| == st.pos + |PrintHeaders(headers)| + 2
    ensures HeaderScan(s, i, st).fields == AddAgents(st.fields, headers)
    ensures HeaderScan(s, i, st).infoHashes == st.infoHashes
    decreases headers
  {
    hide HeaderScan;
    if headers == [] {
      assert PrintHeaders(headers) + "\r\n" == "\r\n";
      NoHeaders(s, i, st);
    } else {
      var p := headers[0];
      var rest := headers[1..];
      HeadersCons(s, st.pos, headers);
      assert GoodHeader(p, first);
      HeaderStep(s, i, st, p);
      hide Here, PlainHeader, ToLower;
      forall j | 0 <= j < |rest| ensures GoodHeader(rest[j], false && j == 0) { assert rest[j] == headers[j + 1]; }
      var e := st.pos + |HeaderText(p)|;
      HeadersRound(s, e + 1, KeepAgent(st.(key := p.key), p.value).(pos := e, found := false, key := ""), rest, false);
    }
  }

  // ---------------------------------------------------------------- the path

  lemma {:induction false} ActionRound(s: string, pos: nat, a: string, i: nat)
    requires pos + 8 <= |s| && i <= |a| <= 8 && NoEnds(a) && Here(s, pos, a)
    requires |a| < 8 ==> Ends(s[pos + |a|])
    ensures ActionLength(s, pos, i) == |a|
    decreases |a| - i
  {
    if i < |a| {
      HereChar(s, pos, a, i);
      ActionRound(s, pos, a, i + 1);
    }
  }

  /** Behind "GET /" comes the passkey, and behind it no other character of it. */
  lemma KeyedStart(s: string, passkey: string, rest: string)
    requires |s| >= 60 && |passkey| == 32 && NoEnds(passkey) && rest != "" && Here(s, 5, passkey + rest)
    ensures s[5] != '?' && '/' !in s[5..37] && '?' !in s[5..37] && s[5..37] == passkey
    ensures Here(s, 37, rest) && s[37] == rest[0]
  {
    HereTail(s, 5, passkey, rest);
    HereChar(s, 5, passkey, 0);
    HereChar(s, 37, rest, 0);
    hide Here;
    assert !Ends(passkey[0]);
    assert '/' !in s[5..37] && '?' !in s[5..37] by {
      forall c | c in passkey ensures !Ends(c) {}
    }
  }

  lemma ActionThere(s: string, pos: nat, a: string)
    requires |s| >= 60 && pos + 8 <= |s| && 1 <= |a| <= 8 && NoEnds(a) && Here(s, pos, a + "?")
    ensures s[pos] != '?' && ActionLength(s, pos, 0) == |a| && s[pos..pos + |a|] == a && s[pos + |a|] == '?'
  {
    HereTail(s, pos, a, "?");
    HereChar(s, pos, a, 0);
    HereChar(s, pos + |a|, "?", 0);
    assert !Ends(a[0]);
    ActionRound(s, pos, a, 0);
    assert s[pos..pos + |a|] == a;
  }

  lemma KeyedFront(s: string, passkey: string, action: Option<string>)
    requires |s| >= 60 && |passkey| == 32 && NoEnds(passkey)
    requires action.Some? ==> 1 <= |action.value| <= 8 && NoEnds(action.value)
    requires Here(s, 5, passkey + (if action.Some? then "/" + action.value else "") + "?")
    ensures Front(s) == Some((5 + 32 + (if action.Some? then 1 + |action.value| else 0) + 1,
                              map["reqpasskey" := passkey]
                              + (if action.Some? then map["action" := action.value] else map[])))
  {
    hide Here, NoEnds;
    var rest := (if action.Some? then "/" + action.value else "") + "?";
    assert passkey + (if action.Some? then "/" + action.value else "") + "?" == passkey + rest;
    KeyedStart(s, passkey, rest);
    var m: Fields := map["reqpasskey" := passkey];
    if action.Some? {
      var a := action.value;
      assert rest == "/" + (a + "?");
      HereTail(s, 37, "/", a + "?");
      ActionThere(s, 38, a);
      assert m + map["action" := a] == m["action" := a] && "action" !in m;
    } else {
      assert rest == "?" && m + map[] == m;
    }
  }

  lemma OpenFront(s: string, action: Option<string>)
    requires |s| >= 60 && (action.Some? ==> 1 <= |action.value| <= 8 && NoEnds(action.value))
    requires Here(s, 5, (if action.Some? then action.value else "") + "?")
    ensures Front(s) == Some((5 + (if action.Some? then |action.value| else 0) + 1,
                              if action.Some? then map["action" := action.value] else map[]))
  {
    if action.Some? {
      var a := action.value;
      HereTail(s, 5, a, "?");
      HereChar(s, 5, a, 0);
      HereChar(s, 5 + |a|, "?", 0);
      assert !Ends(a[0]);
      assert s[5..37][|a|] == '?';
      ActionRound(s, 5, a, 0);
      hide Here, NoEnds;
      assert s[5..5 + |a|] == a;
    } else {
      assert "" + "?" == "?";
      HereChar(s, 5, "?", 0);
    }
  }

  lemma FrontRound(r: Request)
    requires GoodRequest(r)
    ensures Front(Print(r)) == Some((6 + |PrintPath(r)|, PathFields(r)))
    ensures Print(r)[6 + |PrintPath(r)|..] == PrintQuery(r.params) + (VERSION + (PrintHeaders(r.headers) + "\r\n"))
  {
    var s := Print(r);
    var tail := PrintQuery(r.params) + (VERSION + (PrintHeaders(r.headers) + "\r\n"));
    PathHere(PrintPath(r), tail);
    match r.passkey
    case Some(p) =>
      KeyedPath(r);
      hide Here, Front, NoEnds, PrintQuery;
      KeyedFront(s, p, r.action);
    case None =>
      hide Here, Front, NoEnds, PrintQuery;
      assert PrintPath(r) == if r.action.Some? then r.action.value else "";
      OpenFront(s, r.action);
      assert PathFields(r) == if r.action.Some? then map["action" := r.action.value] else map[];
  }

  lemma KeyedPath(r: Request)
    requires r.passkey.Some?
    ensures PrintPath(r) == r.passkey.value + (if r.action.Some? then "/" + r.action.value else "")
  {}

  lemma PathHere(path: string, tail: string)
    ensures var s := "GET /" + path + "?" + tail; Here(s, 5, path + "?") && s[6 + |path|..] == tail
  {
    var s := "GET /" + path + "?" + tail;
    assert s[5..] == path + "?" + tail;
  }

  // ---------------------------------------------------------------- the round trip

  /** Both scans from the question mark on, over whatever is in front of it. */
  lemma ScansRound(s: string, pos: nat, fields: Fields, r: Request)
    requires GoodRequest(r) && 1 <= pos <= |s|
    requires s[pos..] == PrintQuery(r.params) + (VERSION + (PrintHeaders(r.headers) + "\r\n"))
    ensures var q := Query(s, pos, Scan(pos, "", false, fields, []));
            var h := HeaderScan(s, q.pos + 10, q.(pos := q.pos + 10));
            && h.fields == AddAgents(AddParams(fields, r.params), r.headers)
            && h.infoHashes == Hashes(r.params)
  {
    hide Print, Here, GoodPair, GoodHeader, Query, HeaderScan;
    TailHere(s, pos, PrintQuery(r.params), VERSION, PrintHeaders(r.headers) + "\r\n");
    QueryPart(s, pos, fields, r.params);
    var q := Query(s, pos, Scan(pos, "", false, fields, []));
    HeaderPart(s, q.(pos := q.pos + 10), r.headers);
  }

  lemma QueryPart(s: string, pos: nat, fields: Fields, params: seq<Pair>)
    requires params != [] && forall i :: 0 <= i < |params| ==> GoodPair(params[i], i == 0)
    requires 1 <= pos && Here(s, pos, PrintQuery(params))
    ensures var q := Query(s, pos, Scan(pos, "", false, fields, []));
            q == Scan(pos + |PrintQuery(params)|, q.key, false, AddParams(fields, params), Hashes(params))
  {
    hide Here, GoodPair, Query;
    QueryRound(s, pos, Scan(pos, "", false, fields, []), params, true);
    assert Hashes(params) + [] == Hashes(params);
  }

  lemma HeaderPart(s: string, st: Scan, headers: seq<Pair>)
    requires (forall i :: 0 <= i < |headers| ==> GoodHeader(headers[i], i == 0)) && !st.found
    requires Here(s, st.pos, PrintHeaders(headers) + "\r\n") && |s| == st.pos + |PrintHeaders(headers)| + 2
    ensures var h := HeaderScan(s, st.pos, st);
            h.fields == AddAgents(st.fields, headers) && h.infoHashes == st.infoHashes
  {
    hide Here, GoodHeader, HeaderScan;
    HeadersRound(s, st.pos, st, headers, true);
  }

  /**
   * A printed request is read back: its passkey and action, the first value of each parameter, the first user agent
   * unless a parameter took that name, and the percent-decoded info hashes in reverse order.
   */
  lemma ParseRoundTrip(r: Request)
    requires GoodRequest(r)
    ensures Parse(Print(r)) == Expected(r)
  {
    FrontRound(r);
    ScansRound(Print(r), 6 + |PrintPath(r)|, PathFields(r), r);
    hide Print, PrintPath, Front, PathFields, Hashes;
  }

  lemma TailHere(s: string, pos: nat, query: string, version: string, headers: string)
    requires pos <= |s| && s[pos..] == query + (version + headers)
    ensures Here(s, pos, query) && Here(s, pos + |query| + |version|, headers)
    ensures |s| == pos + |query| + |version| + |headers|
  {
    assert Here(s, pos, query + (version + headers));
    HereTail(s, pos, query, version + headers);
    HereTail(s, pos + |query|, version, headers);
  }

  /** `AddParams` in other words: a key gets the value of its first pair, unless it was there before. */
  lemma {:induction false} FirstValueWins(m: Fields, params: seq<Pair>, key: string)
    ensures var f := AddParams(m, params);
            && (key in m ==> key in f && f[key] == m[key])
            && (key !in m ==>
                  (key in f <==> key != "info_hash" && exists i :: 0 <= i < |params| && params[i].key == key))
            && (forall i: nat :: key !in m && key != "info_hash" && FirstAt(params, key, i) ==>
                  key in f && f[key] == params[i].value)
    decreases params
  {
    if params != [] {
      var p := params[0];
      var rest := params[1..];
      var m' := if p.key == "info_hash" then m else Emplace(m, p.key, p.value);
      FirstValueWins(m', rest, key);
      assert forall j :: 0 <= j < |rest| ==> rest[j] == params[j + 1];
      if i :| 0 <= i < |params| && params[i].key == key && i > 0 { assert rest[i - 1].key == key; }
      forall i: nat | key !in m && key != "info_hash" && FirstAt(params, key, i)
        ensures key in AddParams(m, params) && AddParams(m, params)[key] == params[i].value
      {
        if i > 0 {
          assert p.key != key;
          assert FirstAt(rest, key, i - 1);
        }
      }
    }
  }

  /** The pair at i is the first with this key. */
  predicate FirstAt(params: seq<Pair>, key: string, i: nat) {
    i < |params| && params[i].key == key && forall j :: 0 <= j < i ==> params[j].key != key
  }

  /** The info hash that comes first in the list, and so is the one announced, is that of the last such pair. */
  lemma {:induction false} LastHashFirst(params: seq<Pair>, i: nat)
    requires i < |params| && params[i].key == "info_hash"
    requires forall j :: i < j < |params| ==> params[j].key != "info_hash"
    ensures Hashes(params) != [] && Hashes(params)[0] == HexToBin(params[i].value)
    decreases params
  {
    hide HexToBin;
    if i == 0 {
      NoHash(params[1..]);
    } else {
      LastHashFirst(params[1..], i - 1);
    }
  }

  lemma {:induction false} NoHash(params: seq<Pair>)
    requires forall j :: 0 <= j < |params| ==> params[j].key != "info_hash"
    ensures Hashes(params) == []
  {
    hide HexToBin;
    if params != [] { NoHash(params[1..]); }
  }

  /** The header's name, in letters of either case. */
  predicate IsAgent(key: string) {
    |key| == 10 && forall i :: 0 <= i < 10 ==> key[i] == "user-agent"[i] || key[i] == "USER-AGENT"[i]
  }

  lemma AgentKey(key: string)
    ensures ToLower(key) == "user-agent" <==> IsAgent(key)
  {
    if IsAgent(key) {
      assert forall i :: 0 <= i < 10 ==> ToLower(key)[i] == "user-agent"[i];
    }
    if ToLower(key) == "user-agent" {
      forall i | 0 <= i < 10 ensures key[i] == "user-agent"[i] || key[i] == "USER-AGENT"[i] {
        assert ToLower(key)[i] == Lower(key[i]);
      }
    }
  }

  /** The user agent is the value of the first header of that name, in letters of either case, unless a parameter took
      the name; no other header leaves a trace. */
  lemma {:induction false} FirstAgentWins(m: Fields, headers: seq<Pair>)
    ensures var f := AddAgents(m, headers);
            && ("user-agent" in m ==> f == m)
            && (forall i :: "user-agent" !in m && 0 <= i < |headers| && IsAgent(headers[i].key)
                            && (forall j :: 0 <= j < i ==> !IsAgent(headers[j].key)) ==>
                  f == m["user-agent" := headers[i].value])
            && ((forall i :: 0 <= i < |headers| ==> !IsAgent(headers[i].key)) ==> f == m)
    decreases headers
  {
    hide ToLower, IsAgent;
    if headers != [] {
      AgentKey(headers[0].key);
      var m' := if ToLower(headers[0].key) == "user-agent" then Emplace(m, "user-agent", headers[0].value) else m;
      var rest := headers[1..];
      FirstAgentWins(m', rest);
      assert forall j :: 0 <= j < |rest| ==> rest[j] == headers[j + 1];
      forall i | "user-agent" !in m && 0 <= i < |headers| && IsAgent(headers[i].key)
                 && (forall j :: 0 <= j < i ==> !IsAgent(headers[j].key))
        ensures AddAgents(m, headers) == m["user-agent" := headers[i].value]
      {
        if i > 0 {
          assert !IsAgent(headers[0].key);
          assert IsAgent(rest[i - 1].key);
        }
      }
    }
  }
}
