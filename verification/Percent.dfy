/** Percent-encoding of header values and URL paths. */
module PercentCoding {
  import opened Basics
  import opened Utf8

  function HexDigit(n: nat): (c: char)
    requires n < 16
  {
    "0123456789ABCDEF"[n]
  }

  function HexVal(c: Byte): (v: Option<nat>)
    ensures v.Some? ==> v.value < 16
  {
    if '0' as int <= c <= '9' as int then Some(c - '0' as int)
    else if 'a' as int <= c <= 'f' as int then Some(c - 'a' as int + 10)
    else if 'A' as int <= c <= 'F' as int then Some(c - 'A' as int + 10)
    else None
  }

  /** Bytes that stand for themselves. */
  predicate Keeps(c: Byte) {
    || 'a' as int <= c <= 'z' as int || 'A' as int <= c <= 'Z' as int || '0' as int <= c <= '9' as int
    || (c < 128 && c as char in "-_.~$&+=:@")
  }

  function EscapedByte(c: Byte): string {
    if Keeps(c) then [c as char] else ['%', HexDigit(c / 16), HexDigit(c % 16)]
  }

  function Escaped(b: seq<Byte>): string {
    if b == [] then "" else EscapedByte(b[0]) + Escaped(b[1..])
  }

  function Prepended(out: seq<Byte>, rest: Option<seq<Byte>>): Option<seq<Byte>> {
    if rest.None? then None else Some(out + rest.value)
  }

  /** Every `%` must be followed by two hexadecimal digits. */
  function Unescaped(b: seq<Byte>): Option<seq<Byte>>
    decreases |b|
  {
    if b == [] then Some([])
    else if b[0] != '%' as int then Prepended([b[0]], Unescaped(b[1..]))
    else if |b| < 3 || HexVal(b[1]).None? || HexVal(b[2]).None? then None
    else Prepended([HexVal(b[1]).value * 16 + HexVal(b[2]).value], Unescaped(b[3..]))
  }

  method PathEscape(s: string) returns (out: string)
    ensures out == Escaped(Encode(s))
  {
    hide EscapedByte;
    var b := Encode(s);
    out := "";
    for i := 0 to |b|
      invariant out + Escaped(b[i..]) == Escaped(b)
    {
      assert b[i..][0] == b[i] && b[i..][1..] == b[i + 1..];
      assert out + (EscapedByte(b[i]) + Escaped(b[i + 1..])) == (out + EscapedByte(b[i])) + Escaped(b[i + 1..]);
      if Keeps(b[i]) {
        KeptByte(b[i]);
        out := out + [b[i] as char];
      } else {
        KeptByte(b[i]);
        out := out + ['%', HexDigit(b[i] / 16), HexDigit(b[i] % 16)];
      }
    }
  }

  lemma KeptByte(c: Byte)
    ensures EscapedByte(c) == if Keeps(c) then [c as char] else ['%', HexDigit(c / 16), HexDigit(c % 16)]
  {
  }

  method PercentDecode(s: string) returns (r: Option<seq<Byte>>)
    ensures r == Unescaped(Encode(s))
  {
    hide HexVal, Unescaped, Encode, Prepended;
    var b := Encode(s);
    var out: seq<Byte> := [];
    var i := 0;
    UnescapedEnds(b);
    while i < |b|
      invariant 0 <= i <= |b|
      invariant Unescaped(b) == Prepended(out, Unescaped(b[i..]))
    {
      UnescapedStep(out, b, i);
      if b[i] == '%' as int {
        if i + 1 >= |b| { return None; }
        var h := HexVal(b[i + 1]);
        if h.None? { return None; }
        if i + 2 >= |b| { return None; }
        var l := HexVal(b[i + 2]);
        if l.None? { return None; }
        out := out + [h.value * 16 + l.value];
        i := i + 3;
      } else {
        out := out + [b[i]];
        i := i + 1;
      }
    }
    PrependedSome(out, []);
    assert out + [] == out && b[i..] == b[|b|..];
    return Some(out);
  }

  lemma UnescapedEnds(b: seq<Byte>)
    ensures Unescaped(b) == Prepended([], Unescaped(b[0..])) && Unescaped(b[|b|..]) == Some([])
  {
    assert b[0..] == b;
    if Unescaped(b).Some? { assert [] + Unescaped(b).value == Unescaped(b).value; }
  }

  lemma PrependedTwice(out: seq<Byte>, x: seq<Byte>, r: Option<seq<Byte>>)
    ensures Prepended(out, Prepended(x, r)) == Prepended(out + x, r)
  {
    if r.Some? { assert out + (x + r.value) == (out + x) + r.value; }
  }

  lemma UnescapedStep(out: seq<Byte>, b: seq<Byte>, i: nat)
    requires i < |b|
    ensures b[i] != '%' as int ==>
              Prepended(out, Unescaped(b[i..])) == Prepended(out + [b[i]], Unescaped(b[i + 1..]))
    ensures b[i] == '%' as int && (i + 2 >= |b| || HexVal(b[i + 1]).None? || HexVal(b[i + 2]).None?) ==>
              Prepended(out, Unescaped(b[i..])).None?
    ensures b[i] == '%' as int && i + 2 < |b| && HexVal(b[i + 1]).Some? && HexVal(b[i + 2]).Some? ==>
              Prepended(out, Unescaped(b[i..]))
              == Prepended(out + [HexVal(b[i + 1]).value * 16 + HexVal(b[i + 2]).value], Unescaped(b[i + 3..]))
  {
    hide HexVal;
    var t := b[i..];
    assert t[1..] == b[i + 1..];
    PrependedTwice(out, [b[i]], Unescaped(b[i + 1..]));
    if i + 2 < |b| && HexVal(b[i + 1]).Some? && HexVal(b[i + 2]).Some? {
      assert t[1] == b[i + 1] && t[2] == b[i + 2] && t[3..] == b[i + 3..];
      PrependedTwice(out, [HexVal(b[i + 1]).value * 16 + HexVal(b[i + 2]).value], Unescaped(b[i + 3..]));
    }
  }

  /** What an escaped text is made of. */
  predicate Safe(c: char) {
    c == '%' || (c as int < 128 && Keeps(c as int))
  }

  lemma SafeByte(c: Byte)
    ensures forall k :: 0 <= k < |EscapedByte(c)| ==> Safe(EscapedByte(c)[k])
  {
  }

  lemma {:induction false} EscapedSafe(b: seq<Byte>)
    ensures forall i :: 0 <= i < |Escaped(b)| ==> Safe(Escaped(b)[i])
  {
    hide Safe, EscapedByte;
    if b != [] {
      SafeByte(b[0]);
      EscapedSafe(b[1..]);
    }
  }

  lemma HexRoundTrip(n: nat)
    requires n < 16
    ensures HexDigit(n) as int < 128 && HexVal(HexDigit(n) as int) == Some(n)
  {
  }

  /** One escaped byte, read back. */
  lemma UnescapedByte(c: Byte, rest: seq<Byte>)
    ensures Unescaped(Encode(EscapedByte(c)) + rest) == Prepended([c], Unescaped(rest))
  {
    hide HexVal, HexDigit, Encode, EncodeChar;
    var e := EscapedByte(c);
    SafeByte(c);
    EncodeAscii(e);
    var t := Encode(e) + rest;
    if Keeps(c) {
      assert t == [c] + rest && t[1..] == rest;
    } else {
      HexRoundTrip(c / 16);
      HexRoundTrip(c % 16);
      assert t[0] == '%' as int && t[1] == HexDigit(c / 16) as int && t[2] == HexDigit(c % 16) as int && t[3..] == rest;
    }
  }

  const DIGITS := "0123456789abcdef"
  const CAPITAL_DIGITS := "0123456789ABCDEF"

  /** Digits of either case count, and nothing else. */
  lemma HexValIs(c: Byte, v: nat)
    ensures HexVal(c) == Some(v) <==>
              v < |DIGITS| == |CAPITAL_DIGITS| && (c == DIGITS[v] as int || c == CAPITAL_DIGITS[v] as int)
  {
  }

  const CAPITALS := "ABCDEFGHIJKLMNOPQRSTUVWXYZ"
  const SMALL := "abcdefghijklmnopqrstuvwxyz"
  const TEN := "0123456789"

  lemma LetterAt(i: nat)
    requires i < 26
    ensures |CAPITALS| == |SMALL| == 26 && |TEN| == 10
    ensures CAPITALS[i] as int == 'A' as int + i && SMALL[i] as int == 'a' as int + i
    ensures i < 10 ==> TEN[i] as int == '0' as int + i
  {
  }

  /** The letters and digits are ranges. */
  lemma LetterRanges(c: char)
    ensures c in CAPITALS <==> 'A' <= c <= 'Z'
    ensures c in SMALL <==> 'a' <= c <= 'z'
    ensures c in TEN <==> '0' <= c <= '9'
  {
    hide *;
    LetterAt(0);
    forall i | 0 <= i < 26 {
      LetterAt(i);
    }
    if 'A' <= c <= 'Z' { assert CAPITALS[c as int - 'A' as int] == c; }
    if 'a' <= c <= 'z' { assert SMALL[c as int - 'a' as int] == c; }
    if '0' <= c <= '9' { assert TEN[c as int - '0' as int] == c; }
  }

  /** What a text that escaping leaves alone is made of. */
  const PLAIN := CAPITALS + SMALL + TEN + "-_.~$&+=:@"

  lemma PlainKept(c: char)
    ensures c in PLAIN <==> c as int < 128 && Keeps(c as int)
  {
    LetterRanges(c);
    var rest := "-_.~$&+=:@";
    assert c in rest ==> c as int < 128;
    assert c in PLAIN <==> c in CAPITALS || c in SMALL || c in TEN || c in rest by { hide CAPITALS, SMALL, TEN; }
  }

  lemma {:induction false} EscapedConcat(a: seq<Byte>, b: seq<Byte>)
    ensures Escaped(a + b) == Escaped(a) + Escaped(b)
    ensures |Escaped(a)| >= |a|
  {
    hide EscapedByte;
    if a == [] {
      assert a + b == b;
    } else {
      assert (a + b)[0] == a[0] && (a + b)[1..] == a[1..] + b;
      EscapedConcat(a[1..], b);
      KeptByte(a[0]);
    }
  }

  /** Escaping leaves a text alone just when it is made of these characters; otherwise it gets longer. */
  lemma {:induction false} UnchangedExactly(s: string)
    ensures |Escaped(Encode(s))| >= |s|
    ensures Escaped(Encode(s)) == s <==> forall i :: 0 <= i < |s| ==> s[i] in PLAIN
    ensures Escaped(Encode(s)) == s <==> |Escaped(Encode(s))| == |s|
  {
    if s != "" {
      UnchangedExactly(s[1..]);
      EscapedConcat(EncodeChar(s[0]), Encode(s[1..]));
      CharUnchanged(s[0]);
      hide PLAIN, Escaped, EncodeChar;
      assert s == [s[0]] + s[1..];
      assert forall i :: 0 < i < |s| ==> s[i] == s[1..][i - 1];
    }
  }

  lemma CharUnchanged(c: char)
    ensures var e := Escaped(EncodeChar(c)); if c in PLAIN then e == [c] else |e| > 1
  {
    hide PLAIN;
    PlainKept(c);
    var b := EncodeChar(c);
    EscapedConcat(b, []);
    if c as int < 128 {
      assert b == [c as int] && b[1..] == [];
    }
  }

  /** For every byte string, decoding the escaped text gives the bytes back. */
  lemma {:induction false} EscapeRoundTrip(b: seq<Byte>)
    ensures Unescaped(Encode(Escaped(b))) == Some(b)
  {
    hide EscapedByte, Prepended, EncodeChar;
    if b != [] {
      EncodeConcat(EscapedByte(b[0]), Escaped(b[1..]));
      UnescapedByte(b[0], Encode(Escaped(b[1..])));
      EscapeRoundTrip(b[1..]);
      PrependedSome([b[0]], b[1..]);
      assert b == [b[0]] + b[1..];
    }
  }

  lemma PrependedSome(out: seq<Byte>, rest: seq<Byte>)
    ensures Prepended(out, Some(rest)) == Some(out + rest)
  {
  }
}
