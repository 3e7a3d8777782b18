/** Cutting a header value at the semicolons that stand outside quotes, and quoted strings. */
module HeaderSplit {
  import opened Basics
  import opened PercentCoding

  /** Where a reader of the header is. */
  datatype Place = Outside | Inside | Escape

  function Step(q: Place, c: char): Place {
    match q
    case Outside => if c == '"' then Inside else Outside
    case Inside => if c == '"' then Outside else if c == '\\' then Escape else Inside
    case Escape => Inside
  }

  function Scan(q: Place, s: string): Place {
    if s == "" then q else Step(Scan(q, s[..|s| - 1]), s[|s| - 1])
  }

  /** The parts so far; the last one is still growing. */
  function Pieces(s: string): (p: seq<string>)
    ensures p != []
  {
    if s == "" then [""]
    else
      var n := |s| - 1;
      var p := Pieces(s[..n]);
      if s[n] == ';' && Scan(Outside, s[..n]) == Outside then p + [""] else p[..|p| - 1] + [p[|p| - 1] + [s[n]]]
  }

  function Split(s: string): Option<seq<string>> {
    if Scan(Outside, s) == Outside then Some(Pieces(s)) else None
  }

  method SplitParams(s: string) returns (r: Option<seq<string>>)
    ensures r == Split(s)
  {
    hide Pieces, Scan;
    var out: seq<string>, cur := [], "";
    var quoted, escaped := false, false;
    PiecesEnds(s);
    for i := 0 to |s|
      invariant Scan(Outside, s[..i]) == if escaped then Escape else if quoted then Inside else Outside
      invariant escaped ==> quoted
      invariant Pieces(s[..i]) == out + [cur]
    {
      var c := s[i];
      assert s[..i + 1] == s[..i] + [c];
      PiecesStep(s[..i], c);
      if escaped {
        cur := cur + [c];
        escaped := false;
      } else if c == '\\' && quoted {
        cur := cur + [c];
        escaped := true;
      } else if c == '"' {
        quoted := !quoted;
        cur := cur + [c];
      } else if c == ';' && !quoted {
        out := out + [cur];
        cur := "";
      } else {
        cur := cur + [c];
      }
    }
    if quoted {
      return None;
    }
    return Some(out + [cur]);
  }

  lemma PiecesEnds(s: string)
    ensures Scan(Outside, s[..0]) == Outside && Pieces(s[..0]) == [""] && s[..|s|] == s
  {
  }

  // ---- What a split is ----

  function Join(parts: seq<string>): string
    requires parts != []
  {
    var n := |parts| - 1;
    if n == 0 then parts[0] else Join(parts[..n]) + ";" + parts[n]
  }

  /** No semicolon outside quotes. */
  ghost predicate Uncut(s: string) {
    forall i :: 0 <= i < |s| && s[i] == ';' ==> Scan(Outside, s[..i]) != Outside
  }

  /** Nothing to cut, and all quotes closed. */
  ghost predicate Whole(s: string) {
    Uncut(s) && Scan(Outside, s) == Outside
  }

  lemma {:induction false} ScanConcat(q: Place, a: string, b: string)
    ensures Scan(q, a + b) == Scan(Scan(q, a), b)
  {
    if b == "" {
      assert a + b == a;
    } else {
      assert (a + b)[..|a + b| - 1] == a + b[..|b| - 1];
      ScanConcat(q, a, b[..|b| - 1]);
    }
  }

  function Extended(p: seq<string>, c: char): (r: seq<string>)
    requires p != []
    ensures r != []
  {
    p[..|p| - 1] + [p[|p| - 1] + [c]]
  }

  lemma PiecesStep(t: string, c: char)
    ensures Pieces(t + [c]) == if c == ';' && Scan(Outside, t) == Outside then Pieces(t) + [""]
            else Extended(Pieces(t), c)
    ensures Scan(Outside, t + [c]) == Step(Scan(Outside, t), c)
  {
    assert (t + [c])[..|t|] == t;
  }

  lemma JoinStep(p: seq<string>, x: string)
    requires p != []
    ensures Join(p + [x]) == Join(p) + ";" + x
  {
    assert (p + [x])[..|p|] == p;
  }

  /** The pieces make up the text, and only the last one may be unfinished. */
  ghost predicate ArePieces(p: seq<string>, s: string)
    requires p != []
  {
    && Join(p) == s && Uncut(p[|p| - 1]) && Scan(Outside, p[|p| - 1]) == Scan(Outside, s)
    && forall k :: 0 <= k < |p| - 1 ==> Whole(p[k])
  }

  lemma {:induction false} PiecesAre(s: string)
    ensures ArePieces(Pieces(s), s)
  {
    hide Pieces, ArePieces;
    if s == "" {
      NoPieces();
    } else {
      var t, c := s[..|s| - 1], s[|s| - 1];
      assert s == t + [c];
      PiecesAre(t);
      PiecesStep(t, c);
      if c == ';' && Scan(Outside, t) == Outside {
        CutKeeps(Pieces(t), t);
      } else {
        ExtendedKeeps(Pieces(t), t, c);
      }
    }
  }

  lemma NoPieces()
    ensures ArePieces(Pieces(""), "")
  {
  }

  lemma CutKeeps(p: seq<string>, t: string)
    requires p != [] && ArePieces(p, t) && Scan(Outside, t) == Outside
    ensures ArePieces(p + [""], t + [';'])
  {
    hide Join;
    JoinStep(p, "");
    ScanConcat(Outside, t, ";");
    ScanOne(Outside, ';');
  }

  lemma ExtendedKeeps(p: seq<string>, t: string, c: char)
    requires p != [] && ArePieces(p, t) && !(c == ';' && Scan(Outside, t) == Outside)
    ensures ArePieces(Extended(p, c), t + [c])
  {
    hide Join, Scan, Whole, Uncut;
    UncutMore(p[|p| - 1], c);
    ScanConcat(Outside, t, [c]);
    ScanOne(Scan(Outside, t), c);
    JoinMore(p, c);
  }

  lemma UncutMore(s: string, c: char)
    requires Uncut(s) && (c == ';' ==> Scan(Outside, s) != Outside)
    ensures Uncut(s + [c]) && Scan(Outside, s + [c]) == Step(Scan(Outside, s), c)
  {
    var t := s + [c];
    assert t[..|s|] == s;
    forall i | 0 <= i < |t| && t[i] == ';'
      ensures Scan(Outside, t[..i]) != Outside
    {
      assert i < |s| ==> t[..i] == s[..i];
    }
  }

  lemma JoinMore(p: seq<string>, c: char)
    requires p != []
    ensures Join(Extended(p, c)) == Join(p) + [c]
  {
    var n := |p| - 1;
    assert Extended(p, c)[..n] == p[..n];
    if n > 0 {
      Associative(Join(p[..n]) + ";", p[n], [c]);
    }
  }

  lemma Associative(a: string, b: string, c: string)
    ensures a + (b + c) == a + b + c
  {
  }

  lemma {:induction false} UncutPieces(s: string)
    requires Uncut(s)
    ensures Pieces(s) == [s]
  {
    if s != "" {
      var n := |s| - 1;
      assert forall i :: 0 <= i < n ==> s[..n][..i] == s[..i];
      UncutPieces(s[..n]);
      assert [s[..n]][..0] == [];
      assert s == s[..n] + [s[n]];
    }
  }

  lemma {:induction false} PiecesTail(a: string, b: string)
    requires Scan(Outside, a) == Outside && Uncut(b)
    ensures Pieces(a + ";" + b) == Pieces(a) + [b] && Scan(Outside, a + ";" + b) == Scan(Outside, b)
  {
    hide Pieces, Scan;
    PiecesStep(a, ';');
    if b == "" {
      assert a + ";" + b == a + [';'];
      ScanOne(Outside, ';');
    } else {
      var t, c := b[..|b| - 1], b[|b| - 1];
      assert forall i :: 0 <= i < |t| ==> t[..i] == b[..i];
      PiecesTail(a, t);
      PiecesStep(a + ";" + t, c);
      Associative(a + ";", t, [c]);
      assert b == t + [c];
      PiecesStep(t, c);
      assert c == ';' ==> Scan(Outside, t) != Outside;
      var p := Pieces(a) + [t];
      assert p[..|p| - 1] == Pieces(a);
    }
  }

  lemma {:induction false} WholePieces(parts: seq<string>)
    requires parts != [] && forall k :: 0 <= k < |parts| ==> Whole(parts[k])
    ensures Split(Join(parts)) == Some(parts)
  {
    hide Pieces, Scan, Uncut;
    var n := |parts| - 1;
    if n == 0 {
      UncutPieces(parts[0]);
      assert parts == [parts[0]];
    } else {
      WholePieces(parts[..n]);
      PiecesTail(Join(parts[..n]), parts[n]);
      assert parts == parts[..n] + [parts[n]];
    }
  }

  /** A split is the one way to write the text as parts that have no semicolon outside quotes
      and close the quotes they open; it fails just when there is none. */
  lemma SplitExactly(s: string, parts: seq<string>)
    ensures Split(s) == Some(parts)
            <==> parts != [] && Join(parts) == s && forall k :: 0 <= k < |parts| ==> Whole(parts[k])
  {
    PiecesAre(s);
    if parts != [] && Join(parts) == s && forall k :: 0 <= k < |parts| ==> Whole(parts[k]) {
      WholePieces(parts);
    }
  }

  // ---- Quoted strings ----

  function LowerHex(n: nat): (c: char)
    requires n < 16
    ensures c != '"' && c != '\\' && c as int >= 0x20 && c as int < 0x7f
  {
    "0123456789abcdef"[n]
  }

  predicate Control(c: char) {
    c as int < 0x20 || c as int == 0x7f
  }

  function QuotedChar(c: char): string {
    if c == '"' || c == '\\' then ['\\', c]
    else if c == '\n' then "\\n"
    else if c == '\r' then "\\r"
    else if c == '\t' then "\\t"
    else if Control(c) then ['\\', 'x', LowerHex(c as int / 16), LowerHex(c as int % 16)]
    else [c]
  }

  function QuotedBody(s: string): string {
    if s == "" then "" else QuotedChar(s[0]) + QuotedBody(s[1..])
  }

  function Quoted(s: string): string {
    "\"" + QuotedBody(s) + "\""
  }

  method GoQuote(s: string) returns (out: string)
    ensures out == Quoted(s)
  {
    hide QuotedBody, LowerHex;
    out := "\"";
    BodyEnds(s);
    for i := 0 to |s|
      invariant out + QuotedBody(s[i..]) == "\"" + QuotedBody(s)
    {
      var c := s[i];
      BodyAt(s, i);
      Associative(out, QuotedChar(c), QuotedBody(s[i + 1..]));
      if c == '"' {
        out := out + "\\\"";
      } else if c == '\\' {
        out := out + "\\\\";
      } else if c == '\n' {
        out := out + "\\n";
      } else if c == '\r' {
        out := out + "\\r";
      } else if c == '\t' {
        out := out + "\\t";
      } else if c as int < 0x20 || c as int == 0x7f {
        out := out + ['\\', 'x', LowerHex(c as int / 16), LowerHex(c as int % 16)];
      } else {
        out := out + [c];
      }
    }
    out := out + "\"";
  }

  lemma BodyEnds(s: string)
    ensures QuotedBody(s[0..]) == QuotedBody(s) && QuotedBody(s[|s|..]) == ""
  {
    assert s[0..] == s;
  }

  lemma BodyAt(s: string, i: nat)
    requires i < |s|
    ensures QuotedBody(s[i..]) == QuotedChar(s[i]) + QuotedBody(s[i + 1..])
  {
    assert s[i..][1..] == s[i + 1..];
  }

  /** A backslash gives way to the character after it. */
  function Unescape(s: string): string
    decreases |s|
  {
    if s == "" then ""
    else if s[0] != '\\' then [s[0]] + Unescape(s[1..])
    else if |s| == 1 then ""
    else [s[1]] + Unescape(s[2..])
  }

  method UnescapeQuoted(s: string) returns (out: string)
    ensures out == Unescape(s)
  {
    hide Unescape;
    out := "";
    var esc := false;
    UnescapeEnds(s);
    for i := 0 to |s|
      invariant esc ==> 0 < i
      invariant out + (if !esc then Unescape(s[i..]) else if i == |s| then "" else [s[i]] + Unescape(s[i + 1..]))
                == Unescape(s)
    {
      var c := s[i];
      UnescapeAt(s, i);
      Associative(out, [c], Unescape(s[i + 1..]));
      if esc {
        out := out + [c];
        esc := false;
      } else if c == '\\' {
        esc := true;
      } else {
        out := out + [c];
      }
    }
  }

  lemma UnescapeEnds(s: string)
    ensures "" + Unescape(s[0..]) == Unescape(s) && Unescape(s[|s|..]) == ""
  {
    assert s[0..] == s;
  }

  lemma UnescapeAt(s: string, i: nat)
    requires i < |s|
    ensures Unescape(s[i..]) == if s[i] != '\\' then [s[i]] + Unescape(s[i + 1..])
                                else if i + 1 == |s| then "" else [s[i + 1]] + Unescape(s[i + 2..])
  {
    var t := s[i..];
    assert t[1..] == s[i + 1..];
    if i + 1 < |s| { assert t[2..] == s[i + 2..]; }
  }

  lemma UnescapeOne(c: char, rest: string)
    ensures c != '\\' ==> Unescape([c] + rest) == [c] + Unescape(rest)
    ensures Unescape(['\\', c] + rest) == [c] + Unescape(rest)
  {
    assert ([c] + rest)[1..] == rest && (['\\', c] + rest)[2..] == rest;
  }

  /** The letters an escape is read back as. */
  function Letters(c: char): (x: string) {
    var q := QuotedChar(c);
    if |q| == 1 then q else q[1..]
  }

  lemma LettersClean(c: char)
    ensures !Control(c) ==> Letters(c) == [c]
    ensures forall k :: 0 <= k < |Letters(c)| ==> !Control(Letters(c)[k])
  {
  }

  lemma UnescapeQuotedChar(c: char, rest: string)
    ensures Unescape(QuotedChar(c) + rest) == Letters(c) + Unescape(rest)
  {
    hide Unescape, Control, LowerHex;
    var q := QuotedChar(c);
    if |q| == 1 {
      UnescapeOne(c, rest);
    } else if |q| == 2 {
      UnescapeOne(q[1], rest);
    } else {
      LongEscape(q[2], q[3], rest);
      assert Letters(c) == ['x', q[2], q[3]];
    }
  }

  lemma LongEscape(h: char, l: char, rest: string)
    requires h != '\\' && l != '\\'
    ensures Unescape(['\\', 'x', h, l] + rest) == ['x', h, l] + Unescape(rest)
  {
    hide Unescape;
    assert ['\\', 'x', h, l] + rest == ['\\', 'x'] + ([h] + ([l] + rest));
    UnescapeOne(l, rest);
    UnescapeOne(h, [l] + rest);
    UnescapeOne('x', [h] + ([l] + rest));
    assert ['x', h, l] + Unescape(rest) == ['x'] + ([h] + ([l] + Unescape(rest)));
  }

  lemma {:induction false} UnescapedClean(s: string)
    ensures forall k :: 0 <= k < |Unescape(QuotedBody(s))| ==> !Control(Unescape(QuotedBody(s))[k])
  {
    hide QuotedChar, Control, Unescape, Letters;
    if s == "" {
      NothingToUnescape();
    } else {
      LettersClean(s[0]);
      UnescapeQuotedChar(s[0], QuotedBody(s[1..]));
      UnescapedClean(s[1..]);
    }
  }

  lemma NothingToUnescape()
    ensures Unescape("") == "" && QuotedBody("") == ""
  {
  }

  /** Quoting can be undone exactly when the text has no control characters: those come back
      as the letters of their escape. */
  lemma {:induction false} QuoteRoundTrip(s: string)
    ensures Unescape(QuotedBody(s)) == s <==> forall k :: 0 <= k < |s| ==> !Control(s[k])
  {
    hide QuotedChar, Control, Unescape, Letters;
    UnescapedClean(s);
    if forall k :: 0 <= k < |s| ==> !Control(s[k]) {
      if s == "" {
        NothingToUnescape();
      } else {
        QuoteRoundTrip(s[1..]);
        LettersClean(s[0]);
        UnescapeQuotedChar(s[0], QuotedBody(s[1..]));
        assert s == [s[0]] + s[1..];
      }
    }
  }

  /** Read from inside quotes, the text stays inside. */
  ghost predicate StaysInside(b: string) {
    Scan(Inside, b) == Inside && forall i :: 0 <= i <= |b| ==> Scan(Inside, b[..i]) != Outside
  }

  lemma StaysConcat(a: string, b: string)
    requires StaysInside(a) && StaysInside(b)
    ensures StaysInside(a + b)
  {
    ScanConcat(Inside, a, b);
    forall i | 0 <= i <= |a + b|
      ensures Scan(Inside, (a + b)[..i]) != Outside
    {
      if i <= |a| {
        assert (a + b)[..i] == a[..i];
      } else {
        assert (a + b)[..i] == a + b[..i - |a|];
        ScanConcat(Inside, a, b[..i - |a|]);
      }
    }
  }

  lemma ScanOne(q: Place, c: char)
    ensures Scan(q, [c]) == Step(q, c) && Scan(q, "") == q
  {
    assert [c][..0] == "";
  }

  lemma ScanTwo(q: Place, c: char, d: char)
    ensures Scan(q, [c, d]) == Step(Step(q, c), d)
  {
    assert [c, d][..1] == [c];
    ScanOne(q, c);
  }

  lemma QuotedCharStays(c: char)
    ensures StaysInside(QuotedChar(c))
  {
    var e := QuotedChar(c);
    if |e| == 1 {
      ScanOne(Inside, c);
      assert e[..1] == e && e[..0] == "";
    } else {
      ScanTwo(Inside, e[0], e[1]);
      ScanOne(Inside, e[0]);
      var two := [e[0], e[1]];
      assert two[..0] == "" && two[..1] == [e[0]] && two[..2] == two;
      assert StaysInside(two);
      if |e| == 4 {
        ScanTwo(Inside, e[2], e[3]);
        ScanOne(Inside, e[2]);
        var more := [e[2], e[3]];
        assert more[..0] == "" && more[..1] == [e[2]] && more[..2] == more;
        StaysConcat(two, more);
        assert e == two + more;
      } else {
        assert e == two;
      }
    }
  }

  lemma {:induction false} BodyStays(s: string)
    ensures StaysInside(QuotedBody(s))
  {
    hide QuotedChar;
    if s == "" {
      ScanOne(Inside, 'x');
    } else {
      QuotedCharStays(s[0]);
      BodyStays(s[1..]);
      StaysConcat(QuotedChar(s[0]), QuotedBody(s[1..]));
    }
  }

  lemma {:induction false} PlainScan(s: string)
    requires forall i :: 0 <= i < |s| ==> s[i] != '"'
    ensures Scan(Outside, s) == Outside
  {
    if s != "" { PlainScan(s[..|s| - 1]); }
  }

  /** Text without quotes or semicolons is one part. */
  lemma PlainWhole(s: string)
    requires forall i :: 0 <= i < |s| ==> s[i] != '"' && s[i] != ';'
    ensures Whole(s)
  {
    PlainScan(s);
  }

  /** Whatever is quoted, it stays in one part. */
  lemma QuotedWhole(pre: string, s: string, post: string)
    requires forall i :: 0 <= i < |pre| ==> pre[i] != '"' && pre[i] != ';'
    requires forall i :: 0 <= i < |post| ==> post[i] != '"' && post[i] != ';'
    ensures Whole(pre + Quoted(s) + post)
  {
    hide QuotedBody;
    var b, t := QuotedBody(s), pre + Quoted(s) + post;
    BodyStays(s);
    PlainScan(pre);
    PlainScan(post);
    var open := pre + "\"";
    ScanConcat(Outside, pre, "\"");
    ScanOne(Outside, '"');
    ScanOne(Inside, '"');
    ScanConcat(Outside, open, b);
    ScanConcat(Outside, open + b, "\"");
    ScanConcat(Outside, open + b + "\"", post);
    assert t == ((open + b) + "\"") + post;
    forall i | 0 <= i < |t| && t[i] == ';'
      ensures Scan(Outside, t[..i]) != Outside
    {
      var j := i - |open|;
      assert 0 <= j < |b|;
      assert t[..i] == open + b[..j];
      ScanConcat(Outside, open, b[..j]);
    }
  }

  // ---- For a reader who knows the escapes of Go, quoting loses nothing ----

  function HexOf(c: char): (v: nat)
    ensures v < 16
  {
    if c as int < 128 && HexVal(c as int).Some? then HexVal(c as int).value else 0
  }

  /** What such a reader makes of the inside of a quoted string. */
  function GoUnquoted(s: string): string
    decreases |s|
  {
    if s == "" then ""
    else if s[0] != '\\' || |s| == 1 then [s[0]] + GoUnquoted(s[1..])
    else if s[1] == 'n' then "\n" + GoUnquoted(s[2..])
    else if s[1] == 'r' then "\r" + GoUnquoted(s[2..])
    else if s[1] == 't' then "\t" + GoUnquoted(s[2..])
    else if s[1] == 'x' && |s| >= 4 then [(16 * HexOf(s[2]) + HexOf(s[3])) as char] + GoUnquoted(s[4..])
    else [s[1]] + GoUnquoted(s[2..])
  }

  lemma HexBack(n: nat)
    requires n < 16
    ensures HexOf(LowerHex(n)) == n
  {
  }

  lemma CharBack(c: char, rest: string)
    ensures GoUnquoted(QuotedChar(c) + rest) == [c] + GoUnquoted(rest)
  {
    hide LowerHex, HexOf;
    var q := QuotedChar(c);
    var s := q + rest;
    if Control(c) {
      HexBack(c as int / 16);
      HexBack(c as int % 16);
    }
    assert s[|q|..] == rest;
    assert |q| == 4 ==> s[2] == q[2] && s[3] == q[3];
  }

  /** Every text comes back, and what is written has no control characters. */
  lemma {:induction false} GoQuoteExact(s: string)
    ensures GoUnquoted(QuotedBody(s)) == s
    ensures forall k :: 0 <= k < |QuotedBody(s)| ==> 0x20 <= QuotedBody(s)[k] as int != 0x7f
  {
    if s == "" {
    } else {
      CharBack(s[0], QuotedBody(s[1..]));
      GoQuoteExact(s[1..]);
      CharClean(s[0]);
      hide QuotedChar, GoUnquoted;
      assert s == [s[0]] + s[1..];
    }
  }

  lemma CharClean(c: char)
    ensures forall k :: 0 <= k < |QuotedChar(c)| ==> 0x20 <= QuotedChar(c)[k] as int != 0x7f
  {
  }
}
