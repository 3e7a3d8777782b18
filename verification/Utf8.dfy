/** Strings as bytes: UTF-8, RFC 3629. */
module Utf8 {

  import opened Basics

  function EncodeChar(c: char): (e: seq<Byte>)
    ensures 1 <= |e| <= 4
  {
    var n := c as int;
    if n < 0x80 then [n]
    else if n < 0x800 then [0xC0 + n / 64, 0x80 + n % 64]
    else if n < 0x10000 then [0xE0 + n / 64 / 64, 0x80 + n / 64 % 64, 0x80 + n % 64]
    else [0xF0 + n / 64 / 64 / 64, 0x80 + n / 64 / 64 % 64, 0x80 + n / 64 % 64, 0x80 + n % 64]
  }

  function Encode(s: string): seq<Byte> {
    if s == "" then [] else EncodeChar(s[0]) + Encode(s[1..])
  }

  /** The length a lead byte announces; 0 for a byte that leads nothing. */
  function Width(lead: Byte): (w: nat)
    ensures w <= 4
  {
    if lead < 0x80 then 1
    else if lead < 0xC0 then 0
    else if lead < 0xE0 then 2
    else if lead < 0xF0 then 3
    else if lead < 0xF8 then 4
    else 0
  }

  /** What a byte carries besides its mark. */
  function Bits(b: Byte, mark: int): (n: int) {
    b - mark
  }

  predicate Continues(b: Byte) {
    0x80 <= b < 0xC0
  }

  function Scalar(b: seq<Byte>): int
    requires 1 <= |b| <= 4
  {
    if |b| == 1 then b[0]
    else if |b| == 2 then Bits(b[0], 0xC0) * 64 + Bits(b[1], 0x80)
    else if |b| == 3 then (Bits(b[0], 0xE0) * 64 + Bits(b[1], 0x80)) * 64 + Bits(b[2], 0x80)
    else ((Bits(b[0], 0xF0) * 64 + Bits(b[1], 0x80)) * 64 + Bits(b[2], 0x80)) * 64 + Bits(b[3], 0x80)
  }

  /** Smallest scalar that needs `w` bytes. */
  function Least(w: nat): int {
    if w <= 1 then 0 else if w == 2 then 0x80 else if w == 3 then 0x800 else 0x10000
  }

  predicate IsScalar(n: int) {
    0 <= n < 0xD800 || 0xE000 <= n < 0x110000
  }

  /** The first character; None if the bytes do not start with a well-formed one. */
  function DecodeChar(b: seq<Byte>): (r: Option<char>)
    requires b != []
  {
    var w := Width(b[0]);
    if w == 0 || |b| < w || exists i :: 1 <= i < w && !Continues(b[i]) then None
    else
      var n := Scalar(b[..w]);
      if n < Least(w) || !IsScalar(n) then None else Some(n as char)
  }

  function Decode(b: seq<Byte>): (r: Option<string>)
    decreases |b|
  {
    if b == [] then Some("")
    else if DecodeChar(b).None? then None
    else
      var rest := Decode(b[Width(b[0])..]);
      if rest.None? then None else Some([DecodeChar(b).value] + rest.value)
  }

  lemma ScalarOfChar(c: char)
    ensures var e := EncodeChar(c);
            && Scalar(e) == c as int && Least(|e|) <= c as int && Width(e[0]) == |e|
            && forall i :: 1 <= i < |e| ==> Continues(e[i])
  {
  }

  lemma CharOfScalar(b: seq<Byte>)
    requires 1 <= |b| <= 4 && Width(b[0]) == |b| && (forall i :: 1 <= i < |b| ==> Continues(b[i]))
    requires IsScalar(Scalar(b)) && Least(|b|) <= Scalar(b)
    ensures EncodeChar(Scalar(b) as char) == b
  {
    var n := Scalar(b);
    assert |b| == 2 ==> n / 64 == Bits(b[0], 0xC0);
    if |b| == 3 {
      assert n / 64 == Bits(b[0], 0xE0) * 64 + Bits(b[1], 0x80);
    }
    if |b| == 4 {
      assert n / 64 == (Bits(b[0], 0xF0) * 64 + Bits(b[1], 0x80)) * 64 + Bits(b[2], 0x80);
      assert n / 64 / 64 == Bits(b[0], 0xF0) * 64 + Bits(b[1], 0x80);
    }
  }

  lemma CharRoundTrip(c: char, rest: seq<Byte>)
    ensures var e := EncodeChar(c); DecodeChar(e + rest) == Some(c) && Width((e + rest)[0]) == |e|
  {
    hide EncodeChar, Scalar, Least, Continues, Width;
    var e := EncodeChar(c);
    ScalarOfChar(c);
    assert (e + rest)[..|e|] == e;
    assert forall i :: 0 <= i < |e| ==> (e + rest)[i] == e[i];
  }

  lemma CharExact(b: seq<Byte>)
    requires b != [] && DecodeChar(b).Some?
    ensures 0 < Width(b[0]) <= |b| && EncodeChar(DecodeChar(b).value) == b[..Width(b[0])]
  {
    hide EncodeChar, Scalar, Least, Continues, Width;
    var w := Width(b[0]);
    CharOfScalar(b[..w]);
  }

  lemma {:induction false} EncodedDecodes(s: string)
    ensures Decode(Encode(s)) == Some(s)
  {
    hide EncodeChar, DecodeChar, Width;
    if s != "" {
      var e, rest := EncodeChar(s[0]), Encode(s[1..]);
      CharRoundTrip(s[0], rest);
      assert (e + rest)[|e|..] == rest;
      EncodedDecodes(s[1..]);
      assert s == [s[0]] + s[1..];
    }
  }

  lemma {:induction false} DecodedEncodes(b: seq<Byte>)
    requires Decode(b).Some?
    ensures Encode(Decode(b).value) == b
    decreases |b|
  {
    hide EncodeChar, DecodeChar, Width;
    if b != [] {
      CharExact(b);
      var w := Width(b[0]);
      DecodedEncodes(b[w..]);
      var c, rest := DecodeChar(b).value, Decode(b[w..]).value;
      assert ([c] + rest)[1..] == rest;
      assert b == b[..w] + b[w..];
    }
  }

  /** Decoding finds exactly the string the bytes encode, and fails if there is none. */
  lemma DecodeExactly(b: seq<Byte>, s: string)
    ensures Decode(b) == Some(s) <==> Encode(s) == b
  {
    EncodedDecodes(s);
    if Decode(b).Some? { DecodedEncodes(b); }
  }

  lemma {:induction false} EncodeConcat(s: string, t: string)
    ensures Encode(s + t) == Encode(s) + Encode(t)
  {
    if s == "" {
      assert s + t == t;
    } else {
      assert (s + t)[0] == s[0] && (s + t)[1..] == s[1..] + t;
      EncodeConcat(s[1..], t);
    }
  }

  /** ASCII strings are their codes. */
  lemma {:induction false} EncodeAscii(s: string)
    requires forall i :: 0 <= i < |s| ==> s[i] as int < 0x80
    ensures Encode(s) == seq(|s|, i requires 0 <= i < |s| => s[i] as int)
  {
    if s != "" { EncodeAscii(s[1..]); }
  }
}
