/** Byte codecs: decimal text, percent-decoding, dotted quads and packed addresses. */
module Utility {
  import opened Options

  // ---------------------------------------------------------------- decimal text

  function DigitChar(d: nat): char
    requires d < 10
  {
    '0' + d as char
  }

  /** `std::to_string` of a non-negative number. */
  function Digits(n: nat): string {
    if n < 10 then [DigitChar(n)] else Digits(n / 10) + [DigitChar(n % 10)]
  }

  /** `std::to_string`. */
  function Decimal(n: int): string { if n < 0 then "-" + Digits(-n) else Digits(n) }

  predicate IsDigit(c: char) { '0' <= c <= '9' }

  predicate AllDigits(s: string) { forall i :: 0 <= i < |s| ==> IsDigit(s[i]) }

  function Number(s: string): nat
    requires AllDigits(s)
  {
    if s == "" then 0 else 10 * Number(s[..|s| - 1]) + (s[|s| - 1] - '0') as nat
  }

  lemma {:induction false} NumberOfDigits(n: nat)
    ensures AllDigits(Digits(n)) && Digits(n) != "" && Number(Digits(n)) == n
  {
    if n < 10 {
      assert Digits(n)[..0] == "";
    } else {
      NumberOfDigits(n / 10);
      assert Digits(n)[..|Digits(n)| - 1] == Digits(n / 10);
    }
  }

  /** A text is cut at its first separator in one way only. */
  lemma CutOnce(a: string, b: string, c: string, d: string, sep: char)
    requires sep !in a && sep !in c && a + [sep] + b == c + [sep] + d
    ensures a == c && b == d
  {
    var s := a + [sep] + b;
    var t := c + [sep] + d;
    assert s[|a|] == sep && t[|c|] == sep;
    assert forall i :: 0 <= i < |c| ==> t[i] == c[i];
    assert forall i :: 0 <= i < |a| ==> s[i] == a[i];
    assert |a| == |c|;
    assert s[..|a|] == a && t[..|c|] == c;
    assert s[|a| + 1..] == b && t[|c| + 1..] == d;
  }

  // ---------------------------------------------------------------- dotted quads

  function Quad(a: nat, b: nat, c: nat, d: nat): string {
    Digits(a) + ['.'] + (Digits(b) + ['.'] + (Digits(c) + ['.'] + Digits(d)))
  }

  /** `inet_ntoa(htonl(x))`. */
  function Long2Ip(x: nat): string
    requires x < 0x1_0000_0000
  {
    Quad(x / 0x100_0000, x / 0x1_0000 % 0x100, x / 0x100 % 0x100, x % 0x100)
  }

  lemma QuadInjective(a: nat, b: nat, c: nat, d: nat, a': nat, b': nat, c': nat, d': nat)
    requires Quad(a, b, c, d) == Quad(a', b', c', d')
    ensures a == a' && b == b' && c == c' && d == d'
  {
    forall n: nat ensures '.' !in Digits(n) && AllDigits(Digits(n)) && Number(Digits(n)) == n { NumberOfDigits(n); }
    hide Digits, Number;
    CutOnce(Digits(a), Digits(b) + ['.'] + (Digits(c) + ['.'] + Digits(d)),
            Digits(a'), Digits(b') + ['.'] + (Digits(c') + ['.'] + Digits(d')), '.');
    CutOnce(Digits(b), Digits(c) + ['.'] + Digits(d), Digits(b'), Digits(c') + ['.'] + Digits(d'), '.');
    CutOnce(Digits(c), Digits(d), Digits(c'), Digits(d'), '.');
  }

  /** Different addresses print differently. */
  lemma Long2IpInjective(x: nat, y: nat)
    requires x < 0x1_0000_0000 && y < 0x1_0000_0000 && Long2Ip(x) == Long2Ip(y)
    ensures x == y
  {
    hide Quad;
    QuadInjective(x / 0x100_0000, x / 0x1_0000 % 0x100, x / 0x100 % 0x100, x % 0x100,
                  y / 0x100_0000, y / 0x1_0000 % 0x100, y / 0x100 % 0x100, y % 0x100);
    Octets(x);
    Octets(y);
  }

  lemma Octets(x: nat)
    requires x < 0x1_0000_0000
    ensures x == 0x100_0000 * (x / 0x100_0000) + 0x1_0000 * (x / 0x1_0000 % 0x100) + 0x100 * (x / 0x100 % 0x100)
                 + x % 0x100
  {
    LowOctet(x);
    LowOctet(x / 0x100);
    LowOctet(x / 0x1_0000);
    TwoOctets(x);
    TwoOctets(x / 0x100);
    ThreeOctets(x);
  }

  lemma LowOctet(x: nat)
    ensures x == 0x100 * (x / 0x100) + x % 0x100
  {}

  lemma TwoOctets(x: nat)
    ensures x / 0x100 / 0x100 == x / 0x1_0000
  {}

  lemma ThreeOctets(x: nat)
    ensures x / 0x1_0000 / 0x100 == x / 0x100_0000
  {}

  /** A number below 256 as it is printed: decimal digits, and no zero in front of others. */
  ghost predicate Octet(s: string) {
    s != "" && AllDigits(s) && (|s| > 1 ==> s[0] != '0') && Number(s) < 256
  }

  /** The text is these four numbers between dots, and they are the bytes of x, the highest first. */
  ghost predicate DottedQuad(text: string, x: nat, a: string, b: string, c: string, d: string) {
    && Octet(a) && Octet(b) && Octet(c) && Octet(d)
    && text == a + (['.'] + (b + (['.'] + (c + (['.'] + d)))))
    && x == ((Number(a) * 256 + Number(b)) * 256 + Number(c)) * 256 + Number(d)
  }

  /** The text is the dotted quad of the address x, in network order. */
  ghost predicate ReadsAs(text: string, x: nat) { exists a, b, c, d :: DottedQuad(text, x, a, b, c, d) }

  lemma {:induction false} Canonical(s: string)
    requires s != "" && AllDigits(s) && (|s| > 1 ==> s[0] != '0')
    ensures Digits(Number(s)) == s && (s[0] != '0' ==> Number(s) > 0)
  {
    var n := |s| - 1;
    var last := (s[n] - '0') as nat;
    if n == 0 {
      assert s[..0] == "" && s == [s[0]];
    } else {
      Canonical(s[..n]);
      assert Number(s) == 10 * Number(s[..n]) + last && Number(s) / 10 == Number(s[..n]);
      assert s == s[..n] + [s[n]];
    }
  }

  lemma {:induction false} NoLeadingZero(n: nat)
    ensures Digits(n) != "" && (n > 0 ==> Digits(n)[0] != '0') && (|Digits(n)| > 1 ==> Digits(n)[0] != '0')
  {
    if n >= 10 { NoLeadingZero(n / 10); }
  }

  lemma OctetOf(n: nat)
    requires n < 256
    ensures Octet(Digits(n)) && Number(Digits(n)) == n
  {
    NumberOfDigits(n);
    NoLeadingZero(n);
  }

  lemma Bytes4(x: nat, a: nat, b: nat, c: nat, d: nat)
    requires a < 256 && b < 256 && c < 256 && d < 256 && x == ((a * 256 + b) * 256 + c) * 256 + d
    ensures x < 0x1_0000_0000 && a == x / 0x100_0000 && b == x / 0x1_0000 % 0x100 && c == x / 0x100 % 0x100
            && d == x % 0x100
  {}

  lemma QuadText(a: string, b: string, c: string, d: string)
    ensures a + ['.'] + (b + ['.'] + (c + ['.'] + d)) == a + (['.'] + (b + (['.'] + (c + (['.'] + d)))))
  {}

  lemma ReadBack(text: string, x: nat, a: string, b: string, c: string, d: string)
    requires DottedQuad(text, x, a, b, c, d)
    ensures x < 0x1_0000_0000 && text == Long2Ip(x)
  {
    hide Digits, Number;
    Canonical(a);
    Canonical(b);
    Canonical(c);
    Canonical(d);
    Bytes4(x, Number(a), Number(b), Number(c), Number(d));
    QuadText(a, b, c, d);
  }

  lemma PrintedReads(x: nat)
    requires x < 0x1_0000_0000
    ensures ReadsAs(Long2Ip(x), x)
  {
    hide Digits, Number, Octet;
    var a, b, c, d := x / 0x100_0000, x / 0x1_0000 % 0x100, x / 0x100 % 0x100, x % 0x100;
    OctetOf(a);
    OctetOf(b);
    OctetOf(c);
    OctetOf(d);
    Octets(x);
    QuadText(Digits(a), Digits(b), Digits(c), Digits(d));
    assert DottedQuad(Long2Ip(x), x, Digits(a), Digits(b), Digits(c), Digits(d));
  }

  /** A text reads as an address if and only if it is what is printed for it: four decimal numbers below 256, the
      highest byte first. */
  lemma Long2IpReads(text: string, x: nat)
    ensures ReadsAs(text, x) <==> x < 0x1_0000_0000 && text == Long2Ip(x)
  {
    if ReadsAs(text, x) {
      var a, b, c, d :| DottedQuad(text, x, a, b, c, d);
      ReadBack(text, x, a, b, c, d);
    }
    if x < 0x1_0000_0000 && text == Long2Ip(x) { PrintedReads(x); }
  }

  // ---------------------------------------------------------------- packed addresses

  /** The address bytes inet_pton gave, then the port as a 16-bit number in network order. */
  function IpPortEncode(address: string, port: nat): string {
    address + [(port / 256 % 256) as char, (port % 256) as char]
  }

  /** Reading a packed entry back: its address bytes, and its port. */
  function IpPortDecode(entry: string): (string, nat)
    requires |entry| >= 2
  {
    (entry[..|entry| - 2], 256 * (entry[|entry| - 2] as nat) + entry[|entry| - 1] as nat)
  }

  lemma IpPortRoundTrip(address: string, port: nat)
    ensures IpPortDecode(IpPortEncode(address, port)) == (address, port % 0x1_0000)
  {
    assert IpPortEncode(address, port)[..|address|] == address;
  }

  // ---------------------------------------------------------------- percent-decoding

  /** Reading a std::string: position size() is its terminator, and nothing beyond may be read. */
  function At(s: string, i: nat): char
    requires i <= |s|
  {
    if i < |s| then s[i] else '\0'
  }

  function Nibble(c: char): Option<nat> {
    if IsDigit(c) then Some((c - '0') as nat)
    else if 'a' <= c <= 'f' then Some((c - 'a') as nat + 10)
    else if 'A' <= c <= 'F' then Some((c - 'A') as nat + 10)
    else None
  }

  function Byte(hi: nat, lo: nat): char
    requires hi < 16 && lo < 16
  {
    (16 * hi + lo) as char
  }

  lemma NibbleRange(c: char)
    ensures Nibble(c).Some? ==> Nibble(c).value < 16
  {}

  /** The decoded text; None if an escape is not two hex digits. A `%` that is the last character stands for itself. */
  function PercentDecode(s: string): Option<string> {
    if s == "" then Some("")
    else if s[0] == '%' && |s| >= 2 then
      var hi := Nibble(s[1]);
      var lo := Nibble(At(s, 2));
      if hi.None? || lo.None? then None
      else
        NibbleRange(s[1]);
        NibbleRange(At(s, 2));
        assert |s| > 2;
        var rest := PercentDecode(s[3..]);
        if rest.None? then None else Some([Byte(hi.value, lo.value)] + rest.value)
    else
      var rest := PercentDecode(s[1..]);
      if rest.None? then None else Some([s[0]] + rest.value)
  }

  function HexToBin(s: string): string { if PercentDecode(s).Some? then PercentDecode(s).value else "" }

  /** What an escape at `start` stands for; None if it is malformed. */
  function EscapeAt(s: string, start: nat): Option<nat>
    requires start + 2 <= |s|
  {
    var hi := Nibble(s[start + 1]);
    var lo := Nibble(At(s, start + 2));
    if hi.None? || lo.None? then None else Some(16 * hi.value + lo.value)
  }

  /** The terminator is no hex digit, so a well-formed escape lies within the text and is a byte. */
  lemma EscapeIsByte(s: string, start: nat)
    requires start + 2 <= |s| && EscapeAt(s, start).Some?
    ensures start + 2 < |s| && EscapeAt(s, start).value < 256
  {
    NibbleRange(s[start + 1]);
    NibbleRange(At(s, start + 2));
  }

  /** The inner loop: two hex digits, the high one first. */
  method ReadEscape(input: string, start: nat) returns (v: nat, pos: nat, bad: bool)
    requires start + 2 <= |input|
    ensures bad <==> EscapeAt(input, start).None?
    ensures !bad ==> v == EscapeAt(input, start).value && pos == start + 2
  {
    v, pos, bad := 0, start, false;
    var i := 4;
    while i >= 0
      invariant i == 4 || i == 0 || i == -4
      invariant pos == start + (4 - i) / 4 && (i >= 0 ==> pos < |input|)
      invariant i < 4 ==> Nibble(input[start + 1]).Some?
      invariant i < 0 ==> Nibble(At(input, start + 2)).Some?
      invariant v == (if i < 4 then 16 * Nibble(input[start + 1]).value else 0)
                     + (if i < 0 then Nibble(At(input, start + 2)).value else 0)
    {
      pos := pos + 1;
      var c := Nibble(At(input, pos));
      if c.None? {
        return 0, pos, true;
      }
      v := v + if i == 4 then 16 * c.value else c.value;
      i := i - 4;
    }
  }

  /** What is decoded from position pos on. */
  function DecodeFrom(s: string, pos: nat): Option<string>
    requires pos <= |s|
  {
    PercentDecode(s[pos..])
  }

  function Prepend(s: string, o: Option<string>): Option<string> { if o.Some? then Some(s + o.value) else None }

  lemma DecodeNext(s: string, pos: nat)
    requires pos < |s|
    ensures if s[pos] == '%' && |s| - pos >= 2 then
              var v := EscapeAt(s, pos);
              if v.None? then DecodeFrom(s, pos) == None
              else
                EscapeIsByte(s, pos);
                DecodeFrom(s, pos) == Prepend([v.value as char], DecodeFrom(s, pos + 3))
            else DecodeFrom(s, pos) == Prepend([s[pos]], DecodeFrom(s, pos + 1))
  {
    var t := s[pos..];
    assert t[1..] == s[pos + 1..];
    if s[pos] == '%' && |s| - pos >= 2 {
      assert t[1] == s[pos + 1] && At(t, 2) == At(s, pos + 2);
      if EscapeAt(s, pos).Some? {
        EscapeIsByte(s, pos);
        assert t[3..] == s[pos + 3..];
      }
    }
  }

  lemma PrependTwice(a: string, b: string, o: Option<string>)
    ensures Prepend(a, Prepend(b, o)) == Prepend(a + b, o)
  {
    if o.Some? { assert a + (b + o.value) == a + b + o.value; }
  }

  lemma DecodeEnds(s: string)
    ensures DecodeFrom(s, 0) == PercentDecode(s) && Prepend("", DecodeFrom(s, 0)) == PercentDecode(s)
    ensures forall a: string :: Prepend(a, DecodeFrom(s, |s|)) == Some(a)
  {
    assert s[0..] == s && s[|s|..] == "";
    forall a: string ensures Prepend(a, DecodeFrom(s, |s|)) == Some(a) { assert a + "" == a; }
    if PercentDecode(s).Some? { assert "" + PercentDecode(s).value == PercentDecode(s).value; }
  }

  method HexToBinLoop(input: string) returns (output: string)
    ensures output == HexToBin(input) && |output| <= |input|
  {
    hide DecodeFrom, Prepend, EscapeAt, At, Nibble;
    NeverGrows(input);
    output := "";
    var pos := 0;
    DecodeEnds(input);
    while pos < |input|
      invariant pos <= |input| && Prepend(output, DecodeFrom(input, pos)) == PercentDecode(input)
    {
      DecodeNext(input, pos);
      var v := input[pos] as nat;
      if input[pos] == '%' && |input| - pos >= 2 {
        var bad: bool;
        ghost var start := pos;
        v, pos, bad := ReadEscape(input, pos);
        if bad {
          NothingDecoded(output);
          return "";
        }
        EscapeIsByte(input, start);
      }
      PrependTwice(output, [v as char], DecodeFrom(input, pos + 1));
      output := output + [v as char];
      pos := pos + 1;
    }
  }

  lemma NeverGrows(s: string)
    ensures |HexToBin(s)| <= |s|
  {
    HexToBinExact(s);
  }

  lemma NothingDecoded(s: string)
    ensures Prepend(s, None) == None
  {}

  /** How a byte is written: as it is, or escaped with upper or lower case hex digits. */
  datatype Writing = Raw | Escaped(upperHigh: bool, upperLow: bool)

  function HexChar(d: nat, upper: bool): char
    requires d < 16
  {
    if d < 10 then '0' + d as char else (if upper then 'A' else 'a') + (d - 10) as char
  }

  function Write(b: char, w: Writing): string
    requires w.Escaped? ==> b as int < 256
  {
    match w
    case Raw => [b]
    case Escaped(hi, lo) => ['%', HexChar(b as nat / 16, hi), HexChar(b as nat % 16, lo)]
  }

  /** Any byte may be escaped; `%` must be, unless it is the last one. */
  ghost predicate Writable(bytes: string, ws: seq<Writing>) {
    && |ws| == |bytes|
    && (forall i :: 0 <= i < |ws| && ws[i].Escaped? ==> bytes[i] as int < 256)
    && (forall i :: 0 <= i < |ws| - 1 && ws[i].Raw? ==> bytes[i] != '%')
  }

  ghost function PercentEncode(bytes: string, ws: seq<Writing>): string
    requires Writable(bytes, ws)
  {
    if bytes == "" then "" else Write(bytes[0], ws[0]) + PercentEncode(bytes[1..], ws[1..])
  }

  lemma NibbleOfHexChar(d: nat, upper: bool)
    requires d < 16
    ensures Nibble(HexChar(d, upper)) == Some(d)
  {}

  lemma HexCharOfNibble(c: char)
    requires Nibble(c).Some?
    ensures Nibble(c).value < 16 && HexChar(Nibble(c).value, 'A' <= c <= 'F') == c
  {}

  /** Decoding undoes every way of encoding. */
  lemma {:induction false} DecodeOfEncode(bytes: string, ws: seq<Writing>)
    requires Writable(bytes, ws)
    ensures PercentDecode(PercentEncode(bytes, ws)) == Some(bytes)
    ensures |bytes| <= |PercentEncode(bytes, ws)|
  {
    if bytes != "" {
      DecodeOfEncode(bytes[1..], ws[1..]);
      var rest := PercentEncode(bytes[1..], ws[1..]);
      var s := PercentEncode(bytes, ws);
      assert [bytes[0]] + bytes[1..] == bytes;
      match ws[0]
      case Raw =>
        assert s[1..] == rest;
        if bytes[0] == '%' { assert |bytes| == 1; }
      case Escaped(hi, lo) =>
        NibbleOfHexChar(bytes[0] as nat / 16, hi);
        NibbleOfHexChar(bytes[0] as nat % 16, lo);
        assert s[3..] == rest;
    }
  }

  /** One byte in front of what is encoded already. */
  lemma EncodeMore(b: char, w: Writing, bytes: string, ws: seq<Writing>)
    requires Writable(bytes, ws) && (w.Escaped? ==> b as int < 256) && (w.Raw? && bytes != "" ==> b != '%')
    ensures Writable([b] + bytes, [w] + ws)
    ensures PercentEncode([b] + bytes, [w] + ws) == Write(b, w) + PercentEncode(bytes, ws)
  {
    assert ([b] + bytes)[1..] == bytes && ([w] + ws)[1..] == ws;
  }

  /** An escape is written back as it was, with the case of its digits. */
  lemma EscapeBack(s: string) returns (w: Writing)
    requires |s| >= 3 && s[0] == '%' && Nibble(s[1]).Some? && Nibble(s[2]).Some?
    ensures Nibble(s[1]).value < 16 && Nibble(s[2]).value < 16 && w.Escaped?
    ensures Write(Byte(Nibble(s[1]).value, Nibble(s[2]).value), w) == s[..3]
  {
    HexCharOfNibble(s[1]);
    HexCharOfNibble(s[2]);
    w := Escaped('A' <= s[1] <= 'F', 'A' <= s[2] <= 'F');
  }

  /** And whatever decodes is an encoding of what it decodes to, so the two lemmas say exactly what is accepted. */
  lemma {:induction false} EncodeOfDecode(s: string) returns (ws: seq<Writing>)
    requires PercentDecode(s).Some?
    ensures Writable(PercentDecode(s).value, ws) && PercentEncode(PercentDecode(s).value, ws) == s
  {
    hide Write, Nibble, Byte;
    if s == "" {
      ws := [];
    } else if s[0] == '%' && |s| >= 2 {
      AfterEscape(s);
      var w := EscapeBack(s);
      var tail := EncodeOfDecode(s[3..]);
      var b := Byte(Nibble(s[1]).value, Nibble(s[2]).value);
      ByteRange(Nibble(s[1]).value, Nibble(s[2]).value);
      EncodeMore(b, w, PercentDecode(s[3..]).value, tail);
      ws := [w] + tail;
      assert s == s[..3] + s[3..];
    } else {
      var tail := EncodeOfDecode(s[1..]);
      RawBack(s, tail);
      EncodeMore(s[0], Raw, PercentDecode(s[1..]).value, tail);
      ws := [Raw] + tail;
      assert s == [s[0]] + s[1..];
    }
  }

  lemma AfterEscape(s: string)
    requires PercentDecode(s).Some? && |s| >= 2 && s[0] == '%'
    ensures |s| >= 3 && Nibble(s[1]).Some? && Nibble(s[2]).Some? && PercentDecode(s[3..]).Some?
    ensures Nibble(s[1]).value < 16 && Nibble(s[2]).value < 16
    ensures PercentDecode(s).value == [Byte(Nibble(s[1]).value, Nibble(s[2]).value)] + PercentDecode(s[3..]).value
  {
    NibbleRange(s[1]);
    NibbleRange(At(s, 2));
  }

  lemma ByteRange(hi: nat, lo: nat)
    requires hi < 16 && lo < 16
    ensures Byte(hi, lo) as int < 256
  {}

  lemma RawBack(s: string, tail: seq<Writing>)
    requires s != "" && !(s[0] == '%' && |s| >= 2) && PercentDecode(s[1..]).Some?
    ensures PercentDecode(s[1..]).value != "" ==> s[0] != '%'
    ensures Write(s[0], Raw) == [s[0]]
  {
    if |s| == 1 { assert s[1..] == ""; }
  }

  /** The text is decodable exactly if it encodes something, and it never grows; `HexToBin` is "" otherwise. */
  lemma HexToBinExact(s: string)
    ensures PercentDecode(s).Some? <==> exists bytes, ws :: Writable(bytes, ws) && PercentEncode(bytes, ws) == s
    ensures forall bytes, ws :: Writable(bytes, ws) && PercentEncode(bytes, ws) == s ==> HexToBin(s) == bytes
    ensures (forall bytes, ws :: Writable(bytes, ws) ==> PercentEncode(bytes, ws) != s) ==> HexToBin(s) == ""
    ensures |HexToBin(s)| <= |s|
  {
    forall bytes, ws | Writable(bytes, ws) && PercentEncode(bytes, ws) == s
      ensures PercentDecode(s) == Some(bytes) && |bytes| <= |s|
    {
      DecodeOfEncode(bytes, ws);
    }
    if PercentDecode(s).Some? { var ws := EncodeOfDecode(s); }
  }

  /** The hex digits by name: a character stands for v if and only if it is the v-th of either list. */
  lemma HexDigit(c: char, v: nat)
    ensures Nibble(c) == Some(v) <==> v < 16 && (c == "0123456789abcdef"[v] || c == "0123456789ABCDEF"[v])
  {}

  /** An escape, in digits of either case, decodes to the byte whose upper half is the first digit. */
  lemma EscapeDecodes(hi: nat, lo: nat, upper: bool, upper': bool)
    requires hi < 16 && lo < 16
    ensures var h := if upper then "0123456789ABCDEF"[hi] else "0123456789abcdef"[hi];
            var l := if upper' then "0123456789ABCDEF"[lo] else "0123456789abcdef"[lo];
            HexToBin(['%', h, l]) == [(16 * hi + lo) as char]
  {
    var h := if upper then "0123456789ABCDEF"[hi] else "0123456789abcdef"[hi];
    var l := if upper' then "0123456789ABCDEF"[lo] else "0123456789abcdef"[lo];
    HexDigit(h, hi);
    HexDigit(l, lo);
    hide Nibble;
    var s := ['%', h, l];
    assert s[1] == h && At(s, 2) == l && s[3..] == "";
    assert PercentDecode(s) == Some([Byte(hi, lo)] + "");
  }

  lemma {:induction false} EncodedLength(bytes: string, ws: seq<Writing>)
    requires Writable(bytes, ws)
    ensures |PercentEncode(bytes, ws)| >= |bytes|
    ensures |PercentEncode(bytes, ws)| == |bytes| ==> PercentEncode(bytes, ws) == bytes
  {
    if bytes != "" {
      EncodedLength(bytes[1..], ws[1..]);
      assert bytes == [bytes[0]] + bytes[1..];
    }
  }
}
