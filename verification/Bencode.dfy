/** Bencoded values (BEP 3, section "Bencoding"): an encoder, a decoder, and that they agree. */
module Bencode {
  import opened Utility

  datatype Ben = Int(n: int) | Str(s: string) | List(values: Bens) | Dict(items: Items)
  datatype Bens = Nil | Cons(head: Ben, tail: Bens)
  datatype Items = End | Item(key: string, value: Ben, rest: Items)

  function EncodeStr(s: string): string { Digits(|s|) + ":" + s }

  function Encode(v: Ben): string {
    match v
    case Int(n) => "i" + Decimal(n) + "e"
    case Str(s) => EncodeStr(s)
    case List(vs) => "l" + EncodeAll(vs) + "e"
    case Dict(items) => "d" + EncodeItems(items) + "e"
  }

  function EncodeAll(vs: Bens): string {
    match vs
    case Nil => ""
    case Cons(v, tail) => Encode(v) + EncodeAll(tail)
  }

  function EncodeItems(items: Items): string {
    match items
    case End => ""
    case Item(k, v, rest) => EncodeStr(k) + (Encode(v) + EncodeItems(rest))
  }

  // ---------------------------------------------------------------- decoding

  datatype Parse<+T> = Fail | Done(value: T, rest: string)

  /** The digits a text starts with, and how many they are. */
  function Span(s: string): (n: nat)
    ensures n <= |s| && AllDigits(s[..n]) && (n < |s| ==> !IsDigit(s[n]))
  {
    if s == "" || !IsDigit(s[0]) then 0 else 1 + Span(s[1..])
  }

  /** Written as numbers are: no leading zero. */
  predicate Canonical(text: string)
    requires AllDigits(text)
  {
    Digits(Number(text)) == text
  }

  /** An integer and its `e`: no leading zeros, no negative zero. */
  function DecodeInt(s: string): (p: Parse<int>)
    ensures p.Done? ==> |p.rest| < |s|
  {
    if s != "" && s[0] == '-' then
      var n := Span(s[1..]);
      var text := s[1..][..n];
      if n + 1 < |s| && s[n + 1] == 'e' && n > 0 && Number(text) != 0 && Canonical(text) then
        Done(-(Number(text) as int), s[n + 2..])
      else Fail
    else
      var n := Span(s);
      if n < |s| && s[n] == 'e' && n > 0 && Canonical(s[..n]) then Done(Number(s[..n]), s[n + 1..]) else Fail
  }

  function DecodeStr(s: string): (p: Parse<string>)
    ensures p.Done? ==> |p.rest| < |s|
  {
    var n := Span(s);
    if n == 0 || n == |s| || s[n] != ':' || Number(s[..n]) > |s| - n - 1 then Fail
    else Done(s[n + 1..][..Number(s[..n])], s[n + 1..][Number(s[..n])..])
  }

  function Decode(s: string): (p: Parse<Ben>)
    ensures p.Done? ==> |p.rest| < |s|
    decreases |s|, 0
  {
    if s == "" then Fail
    else if s[0] == 'i' then
      var p := DecodeInt(s[1..]);
      if p.Done? then Done(Int(p.value), p.rest) else Fail
    else if s[0] == 'l' then
      var p := DecodeAll(s[1..]);
      if p.Done? then Done(List(p.value), p.rest) else Fail
    else if s[0] == 'd' then
      var p := DecodeItems(s[1..]);
      if p.Done? then Done(Dict(p.value), p.rest) else Fail
    else
      var p := DecodeStr(s);
      if p.Done? then Done(Str(p.value), p.rest) else Fail
  }

  function DecodeAll(s: string): (p: Parse<Bens>)
    ensures p.Done? ==> |p.rest| < |s|
    decreases |s|, 1
  {
    if s == "" then Fail
    else if s[0] == 'e' then Done(Nil, s[1..])
    else
      var v := Decode(s);
      if v.Fail? then Fail
      else
        var vs := DecodeAll(v.rest);
        if vs.Fail? then Fail else Done(Cons(v.value, vs.value), vs.rest)
  }

  function DecodeItems(s: string): (p: Parse<Items>)
    ensures p.Done? ==> |p.rest| < |s|
    decreases |s|, 1
  {
    if s == "" then Fail
    else if s[0] == 'e' then Done(End, s[1..])
    else
      var k := DecodeStr(s);
      if k.Fail? then Fail
      else
        var v := Decode(k.rest);
        if v.Fail? then Fail
        else
          var items := DecodeItems(v.rest);
          if items.Fail? then Fail else Done(Item(k.value, v.value, items.value), items.rest)
  }

  // ---------------------------------------------------------------- round trip

  lemma {:induction false} SpanOfDigits(d: string, rest: string)
    requires AllDigits(d) && (rest == "" || !IsDigit(rest[0]))
    ensures Span(d + rest) == |d|
  {
    if d == "" {
      assert d + rest == rest;
    } else {
      SpanOfDigits(d[1..], rest);
      assert (d + rest)[1..] == d[1..] + rest;
    }
  }

  lemma DecodeNatural(d: string, rest: string)
    requires AllDigits(d) && d != "" && Canonical(d)
    ensures DecodeInt(d + ("e" + rest)) == Done(Number(d), rest)
  {
    hide Canonical;
    var s := d + ("e" + rest);
    SpanOfDigits(d, "e" + rest);
    assert s[..|d|] == d && s[|d| + 1..] == rest;
  }

  lemma DecodeNegative(d: string, rest: string)
    requires AllDigits(d) && d != "" && Canonical(d) && Number(d) != 0
    ensures DecodeInt("-" + (d + ("e" + rest))) == Done(-(Number(d) as int), rest)
  {
    hide Canonical;
    var u := d + ("e" + rest);
    var s := "-" + u;
    SpanOfDigits(d, "e" + rest);
    assert s[1..] == u;
    assert u[..|d|] == d;
    assert s[|d| + 2..] == rest;
  }

  lemma Regroup(sign: string, d: string, e: string, rest: string)
    ensures sign + d + e + rest == sign + (d + (e + rest))
    ensures sign == "" ==> d + e + rest == d + (e + rest)
  {}

  lemma DecodeEncodeInt(n: int, rest: string)
    ensures DecodeInt(Decimal(n) + "e" + rest) == Done(n, rest)
  {
    hide DecodeInt;
    NumberOfDigits(if n < 0 then -n else n);
    if n < 0 {
      DecodeNegative(Digits(-n), rest);
      Regroup("-", Digits(-n), "e", rest);
    } else {
      DecodeNatural(Digits(n), rest);
      Regroup("", Digits(n), "e", rest);
    }
  }

  lemma DecodeEncodeStr(t: string, rest: string)
    ensures DecodeStr(EncodeStr(t) + rest) == Done(t, rest)
  {
    var d := Digits(|t|);
    var s := EncodeStr(t) + rest;
    NumberOfDigits(|t|);
    SpanOfDigits(d, ":" + t + rest);
    assert s == d + (":" + t + rest);
    assert s[..|d|] == d;
    assert s[|d| + 1..] == t + rest;
  }

  lemma StartsWithDigit(t: string, rest: string)
    ensures var s := EncodeStr(t) + rest; s != "" && IsDigit(s[0])
  {
    NumberOfDigits(|t|);
  }

  /** Decoding an encoded value, whatever follows it, gives the value and leaves exactly what follows. */
  lemma {:induction false} DecodeEncode(v: Ben, rest: string)
    ensures Decode(Encode(v) + rest) == Done(v, rest)
    decreases v, 1
  {
    var s := Encode(v) + rest;
    hide DecodeInt, DecodeStr, EncodeStr, Decimal, DecodeItems, DecodeAll, EncodeItems, EncodeAll;
    match v
    case Int(n) =>
      DecodeEncodeInt(n, rest);
      assert s[1..] == Decimal(n) + "e" + rest;
    case Str(t) =>
      DecodeEncodeStr(t, rest);
      StartsWithDigit(t, rest);
    case List(vs) =>
      DecodeEncodeAll(vs, rest);
      assert s[1..] == EncodeAll(vs) + ("e" + rest);
    case Dict(items) =>
      DecodeEncodeItems(items, rest);
      assert s[1..] == EncodeItems(items) + ("e" + rest);
  }

  lemma EncodeStarts(v: Ben, rest: string)
    ensures var s := Encode(v) + rest; s != "" && s[0] != 'e'
  {
    if v.Str? { StartsWithDigit(v.s, rest); }
  }

  lemma {:induction false} DecodeEncodeAll(vs: Bens, rest: string)
    ensures DecodeAll(EncodeAll(vs) + ("e" + rest)) == Done(vs, rest)
    decreases vs, 0
  {
    var s := EncodeAll(vs) + ("e" + rest);
    match vs
    case Nil => assert s == "e" + rest;
    case Cons(v, tail) =>
      var after := EncodeAll(tail) + ("e" + rest);
      assert s == Encode(v) + after;
      EncodeStarts(v, after);
      DecodeEncode(v, after);
      DecodeEncodeAll(tail, rest);
  }

  lemma {:induction false} DecodeEncodeItems(items: Items, rest: string)
    ensures DecodeItems(EncodeItems(items) + ("e" + rest)) == Done(items, rest)
    decreases items, 0
  {
    var s := EncodeItems(items) + ("e" + rest);
    match items
    case End => assert s == "e" + rest;
    case Item(k, v, more) =>
      var after := EncodeItems(more) + ("e" + rest);
      assert s == EncodeStr(k) + (Encode(v) + after);
      StartsWithDigit(k, Encode(v) + after);
      DecodeEncodeStr(k, Encode(v) + after);
      DecodeEncode(v, after);
      DecodeEncodeItems(more, rest);
  }
}
