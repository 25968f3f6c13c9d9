/** The request parser: one scan over the query, one over the headers, each moving its index inside the loop body. */
module Parser {
  import opened Options
  import opened Ledger
  import opened Utility

  type Fields = map<string, string>

  /** The parsed fields, and the info hashes, the last one first. */
  datatype Parsed = Parsed(fields: Fields, infoHashes: seq<string>)

  const NOTHING := Parsed(map[], [])

  /** What both loops carry: start of the current token, the key read last, whether data was seen, and the result. */
  datatype Scan = Scan(pos: nat, key: string, found: bool, fields: Fields, infoHashes: seq<string>)

  // ---------------------------------------------------------------- the loops as functions

  /** Recording a query parameter: the first value of a key wins; info hashes are decoded and put in front. */
  function Keep(st: Scan, value: string): Scan {
    if st.key == "info_hash" then st.(infoHashes := [HexToBin(value)] + st.infoHashes)
    else st.(fields := Emplace(st.fields, st.key, value))
  }

  function ScanQuery(s: string, i: nat, st: Scan): Scan
    requires 1 <= st.pos <= i
    decreases |s| - i
  {
    if i >= |s| then st
    else if s[i] == '=' then ScanQuery(s, i + 2, st.(key := s[st.pos..i], pos := i + 1))
    else if s[i] == '&' || s[i] == ' ' then
      if st.found then
        var kept := Keep(st, s[st.pos..i]).(pos := i + 1, found := false);
        if s[i] == ' ' then kept else ScanQuery(s, i + 2, kept.(key := ""))
      else if s[st.pos - 1] == ' ' then st
      else ScanQuery(s, i + 1, st.(key := ""))
    else ScanQuery(s, i + 1, st.(found := true))
  }

  function Lower(c: char): char { if 'A' <= c <= 'Z' then 'a' + (c - 'A') else c }

  function ToLower(s: string): string { seq(|s|, i requires 0 <= i < |s| => Lower(s[i])) }

  function KeepAgent(st: Scan, value: string): Scan {
    if ToLower(st.key) == "user-agent" then st.(fields := Emplace(st.fields, "user-agent", value)) else st
  }

  function ScanHeaders(s: string, i: nat, st: Scan): Scan
    requires st.pos <= i
    decreases |s| - i
  {
    if i >= |s| then st
    else if s[i] == ':' then ScanHeaders(s, i + 3, st.(key := s[st.pos..i], pos := i + 2))
    else if s[i] == '\n' || s[i] == '\r' then
      if st.found then ScanHeaders(s, i + 3, KeepAgent(st, s[st.pos..i]).(pos := i + 2, found := false, key := ""))
      else ScanHeaders(s, i + 1, st.(key := ""))
    else ScanHeaders(s, i + 1, st.(found := true))
  }

  predicate Ends(c: char) { c == '/' || c == '?' }

  /** How many of the next eight characters come before a `/` or `?`. */
  function ActionLength(s: string, pos: nat, i: nat): (n: nat)
    requires i <= 8 && pos + 8 <= |s|
    ensures i <= n <= 8
    decreases 8 - i
  {
    if i == 8 || Ends(s[pos + i]) then i else ActionLength(s, pos, i + 1)
  }

  /** The passkey and action in front of the query, and where the query starts; None for a malformed request. */
  function Front(s: string): Option<(nat, Fields)>
    requires |s| >= 60
  {
    var keyed := s[5] != '?' && '/' !in s[5..37] && '?' !in s[5..37];
    var m1: Fields := if keyed then map["reqpasskey" := s[5..37]] else map[];
    var p1 := if keyed then 37 else 5;
    var p2 := if s[p1] == '/' then p1 + 1 else p1;
    var n := if s[p2] != '?' then ActionLength(s, p2, 0) else 0;
    var m2 := if s[p2] != '?' then Emplace(m1, "action", s[p2..p2 + n]) else m1;
    if s[p2 + n] == '?' then Some((p2 + n + 1, m2)) else None
  }

  function Parse(s: string): Parsed {
    if |s| < 60 || Front(s).None? then NOTHING
    else
      var (pos, fields) := Front(s).value;
      var q := ScanQuery(s, pos, Scan(pos, "", false, fields, []));
      var h := ScanHeaders(s, q.pos + 10, q.(pos := q.pos + 10));
      Parsed(h.fields, h.infoHashes)
  }

  // ---------------------------------------------------------------- the parser

  /** Lines 73 to 103: the passkey, the action and the question mark. */
  method ReadFront(input: string) returns (ok: bool, pos: nat, output: Fields)
    requires |input| >= 60
    ensures Front(input) == if ok then Some((pos, output)) else None
    ensures ok ==> 1 <= pos <= |input|
  {
    output := map[];
    pos := 5;
    if input[pos] != '?' && '/' !in input[pos..pos + 32] && '?' !in input[pos..pos + 32] {
      output := Emplace(output, "reqpasskey", input[pos..pos + 32]);
      pos := pos + 32;
    }
    if input[pos] == '/' { pos := pos + 1; }
    if input[pos] != '?' {
      var i := ReadAction(input, pos);
      output := Emplace(output, "action", input[pos..pos + i]);
      pos := pos + i;
    }
    if input[pos] == '?' { return true, pos + 1, output; }
    return false, pos, output;
  }

  /** The action ends at a slash or a question mark, or after 8 characters. */
  method ReadAction(input: string, pos: nat) returns (i: nat)
    requires pos + 8 <= |input|
    ensures i == ActionLength(input, pos, 0) <= 8
  {
    i := 0;
    while i < 8
      invariant i <= 8 && ActionLength(input, pos, 0) == ActionLength(input, pos, i)
    {
      if Ends(input[pos + i]) { break; }
      i := i + 1;
    }
  }

  /** Lines 105 to 131: the query. */
  method ReadQuery(input: string, start: nat, fields: Fields) returns (st: Scan)
    requires 1 <= start <= |input|
    ensures st == ScanQuery(input, start, Scan(start, "", false, fields, []))
    ensures st.pos <= |input|
  {
    var output, infoHashes: seq<string> := fields, [];
    var pos, key, found := start, "", false;
    ghost var all := ScanQuery(input, pos, Scan(pos, key, found, output, infoHashes));
    var i := pos;
    while i < |input|
      invariant 1 <= pos <= i && pos <= |input|
      invariant ScanQuery(input, i, Scan(pos, key, found, output, infoHashes)) == all
      decreases |input| - i
    {
      if input[i] == '=' {
        key := input[pos..i];
        i := i + 1;
        pos := i;
      } else if input[i] == '&' || input[i] == ' ' {
        if found {
          if key == "info_hash" {
            var hash := HexToBinLoop(input[pos..i]);
            infoHashes := [hash] + infoHashes;
          } else {
            output := Emplace(output, key, input[pos..i]);
          }
          i := i + 1;
          pos := i;
        }
        found := false;
        if input[pos - 1] == ' ' { break; }
        key := "";
      } else {
        found := true;
      }
      i := i + 1;
    }
    st := Scan(pos, key, found, output, infoHashes);
  }

  /** Lines 132 to 151: the headers. */
  method ReadHeaders(input: string, start: Scan) returns (st: Scan)
    ensures st == ScanHeaders(input, start.pos, start)
  {
    var output, pos, key, found := start.fields, start.pos, start.key, start.found;
    var i := pos;
    while i < |input|
      invariant 0 <= pos <= i
      invariant ScanHeaders(input, i, Scan(pos, key, found, output, start.infoHashes))
                == ScanHeaders(input, start.pos, start)
      decreases |input| - i
    {
      if input[i] == ':' {
        key := input[pos..i];
        i := i + 2;
        pos := i;
      } else if input[i] == '\n' || input[i] == '\r' {
        if found {
          key := ToLower(key);
          if key == "user-agent" { output := Emplace(output, key, input[pos..i]); }
          i := i + 2;
          pos := i;
        }
        found := false;
        key := "";
      } else {
        found := true;
      }
      i := i + 1;
    }
    st := Scan(pos, key, found, output, start.infoHashes);
  }

  /**
   * The whole parser. That it verifies means that on every input it ends, and that no index or slice it takes is out
   * of range, although both loops also move `i` inside their bodies.
   */
  method ParseRequest(input: string) returns (result: Parsed)
    ensures result == Parse(input)
  {
    if |input| < 60 { return NOTHING; }
    var ok, pos, output := ReadFront(input);
    if !ok { return NOTHING; }
    var q := ReadQuery(input, pos, output);
    var h := ReadHeaders(input, q.(pos := q.pos + 10));
    result := Parsed(h.fields, h.infoHashes);
  }
}
