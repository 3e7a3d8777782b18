/** The Content-Disposition header: printed for a download, parsed for an upload. */
module ContentDispositions {
  import opened Basics
  import opened Utf8
  import opened PercentCoding
  import opened HeaderSplit

  // ---- Printing ----

  /** The name with everything outside printable ASCII, and quotes and backslashes, masked. */
  function Ascii(name: string): string {
    seq(|name|, i requires 0 <= i < |name| =>
      var c := name[i];
      if (c as int) < 0x20 || c as int > 0x7e || c == '"' || c == '\\' then '_' else c)
  }

  function ContentDisposition(disposition: string, name: string): string {
    if name == "" then disposition
    else disposition + "; filename=" + Quoted(Ascii(name)) + "; filename*=UTF-8''" + Escaped(Encode(name))
  }

  // ---- Parsing ----

  function TrimStart(s: string): string {
    if s != "" && White(s[0]) then TrimStart(s[1..]) else s
  }

  function TrimEnd(s: string): string {
    if s != "" && White(s[|s| - 1]) then TrimEnd(s[..|s| - 1]) else s
  }

  function Trim(s: string): string {
    TrimEnd(TrimStart(s))
  }

  function LowerChar(c: char): char {
    if 'A' <= c <= 'Z' then (c as int + 32) as char else c
  }

  function Lower(s: string): (r: string)
    ensures |r| == |s|
  {
    seq(|s|, i requires 0 <= i < |s| => LowerChar(s[i]))
  }

  /** Just the capital letters of ASCII change, each into its small one. */
  lemma LowerIs(c: char)
    ensures if c in CAPITALS
            then exists i :: 0 <= i < |CAPITALS| == |SMALL| && CAPITALS[i] == c && SMALL[i] == LowerChar(c)
            else LowerChar(c) == c
  {
    hide *;
    LoweredBy(c);
    LetterRanges(c);
    if c in CAPITALS {
      LetterAt(c as int - 'A' as int);
    }
  }

  lemma LoweredBy(c: char)
    ensures LowerChar(c) as int == c as int + if 'A' <= c <= 'Z' then 32 else 0
  {
  }

  /** The first place of `c`, or the length if there is none. */
  function Find(s: string, c: char): (i: nat)
    ensures i <= |s| && (i < |s| ==> s[i] == c) && forall k :: 0 <= k < i ==> s[k] != c
  {
    if s == "" || s[0] == c then 0 else Find(s[1..], c) + 1
  }

  /** What is before and after the first `c`. */
  function SplitOnce(s: string, c: char): Option<(string, string)> {
    var i := Find(s, c);
    if i == |s| then None else Some((s[..i], s[i + 1..]))
  }

  /** `charset'language'percent-encoded`. */
  function DecodeExt(v: string): Option<string> {
    var a := SplitOnce(v, '\'');
    if a.None? then None
    else
      var b := SplitOnce(a.value.1, '\'');
      if b.None? then None
      else
        var bytes := Unescaped(Encode(b.value.1));
        if bytes.None? then None
        else if Lower(a.value.0) in ["utf-8", "us-ascii", ""] then Decode(bytes.value) else None
  }

  /** A value in quotes stands for what they hold. */
  function Unquoted(v: string): string {
    if |v| >= 2 && v[0] == '"' && v[|v| - 1] == '"' then Unescape(v[1..|v| - 1]) else v
  }

  /** Parameters read so far, the plain and the extended ones. */
  datatype Fields = Fields(plain: map<string, string>, ext: map<string, string>)

  function AddParam(f: Fields, part: string): Option<Fields> {
    var p := Trim(part);
    if p == "" then Some(f)
    else
      var kv := SplitOnce(p, '=');
      if kv.None? then None
      else
        var k, v := Lower(Trim(kv.value.0)), Unquoted(Trim(kv.value.1));
        if k != "" && k[|k| - 1] == '*' then
          var d := DecodeExt(v);
          if d.None? then None else Some(f.(ext := f.ext[k[..|k| - 1] := d.value]))
        else Some(f.(plain := f.plain[k := v]))
  }

  function AddParams(f: Fields, parts: seq<string>): Option<Fields>
    decreases |parts|
  {
    if parts == [] then Some(f)
    else
      var g := AddParam(f, parts[0]);
      if g.None? then None else AddParams(g.value, parts[1..])
  }

  /** The parameters of a header; the extended form of one wins over the plain one. */
  function Params(header: string): Option<map<string, string>> {
    var parts := Split(header);
    if parts.None? || Trim(parts.value[0]) == "" then None
    else
      var f := AddParams(Fields(map[], map[]), parts.value[1..]);
      if f.None? then None else Some(f.value.plain + f.value.ext)
  }

  function FilenameOf(header: string): string {
    var p := Params(header);
    if p.Some? && "filename" in p.value then p.value["filename"] else ""
  }

  method ParseParams(header: string) returns (r: Option<map<string, string>>)
    ensures r == Params(header)
  {
    hide Trim, Lower, SplitOnce, DecodeExt, Unescape, Pieces, Scan;
    var parts := SplitParams(header);
    if parts.None? || Trim(parts.value[0]) == "" {
      return None;
    }
    var all := parts.value;
    var plain: map<string, string>, ext: map<string, string> := map[], map[];
    for i := 1 to |all|
      invariant AddParams(Fields(plain, ext), all[i..]) == AddParams(Fields(map[], map[]), all[1..])
    {
      assert all[i..][0] == all[i] && all[i..][1..] == all[i + 1..];
      var p := Trim(all[i]);
      if p == "" {
        continue;
      }
      var kv := SplitOnce(p, '=');
      if kv.None? {
        return None;
      }
      var k, v := Lower(Trim(kv.value.0)), Trim(kv.value.1);
      if |v| >= 2 && v[0] == '"' && v[|v| - 1] == '"' {
        v := UnescapeQuoted(v[1..|v| - 1]);
      }
      if k != "" && k[|k| - 1] == '*' {
        var d := DecodeExt(v);
        if d.None? {
          return None;
        }
        ext := ext[k[..|k| - 1] := d.value];
      } else {
        plain := plain[k := v];
      }
    }
    return Some(plain + ext);
  }

  // ---- Reading one parameter ----

  ghost predicate AllWhite(s: string) {
    forall i :: 0 <= i < |s| ==> White(s[i])
  }

  /** Starts and ends with something to see. */
  ghost predicate Firm(s: string) {
    s != "" && !White(s[0]) && !White(s[|s| - 1])
  }

  lemma {:induction false} TrimStartSkips(a: string, s: string)
    requires AllWhite(a) && s != "" && !White(s[0])
    ensures TrimStart(a + s) == s
  {
    if a == "" {
      assert a + s == s;
    } else {
      assert (a + s)[1..] == a[1..] + s;
      TrimStartSkips(a[1..], s);
    }
  }

  lemma {:induction false} TrimEndSkips(s: string, b: string)
    requires AllWhite(b) && s != "" && !White(s[|s| - 1])
    ensures TrimEnd(s + b) == s
  {
    if b == "" {
      assert s + b == s;
    } else {
      assert (s + b)[..|s + b| - 1] == s + b[..|b| - 1];
      TrimEndSkips(s, b[..|b| - 1]);
    }
  }

  lemma TrimAround(a: string, s: string, b: string)
    requires AllWhite(a) && AllWhite(b) && Firm(s)
    ensures Trim(a + s + b) == s
  {
    hide White;
    assert a + s + b == a + (s + b);
    TrimStartSkips(a, s + b);
    TrimEndSkips(s, b);
  }

  lemma SplitAt(s: string, t: string, c: char)
    requires forall i :: 0 <= i < |s| ==> s[i] != c
    ensures SplitOnce(s + [c] + t, c) == Some((s, t))
  {
    var u := s + [c] + t;
    var i := Find(u, c);
    assert u[|s|] == c;
    assert forall k :: 0 <= k < |s| ==> u[k] == s[k];
    assert u[..|s|] == s && u[|s| + 1..] == t;
  }

  /** Space around a key and its value does not matter. */
  lemma ParamRead(a: string, k: string, b: string, c: string, v: string, d: string)
    requires AllWhite(a) && AllWhite(b) && AllWhite(c) && AllWhite(d) && Firm(k) && Firm(v)
    requires forall i :: 0 <= i < |k| ==> k[i] != '='
    ensures var p := Trim(a + k + b + "=" + c + v + d);
            p != "" && SplitOnce(p, '=').Some?
            && Trim(SplitOnce(p, '=').value.0) == k && Trim(SplitOnce(p, '=').value.1) == v
  {
    hide Trim, SplitOnce;
    var core := k + b + "=" + c + v;
    assert Firm(core) by { assert core[0] == k[0] && core[|core| - 1] == v[|v| - 1]; }
    TrimAround(a, core, d);
    assert a + k + b + "=" + c + v + d == a + core + d;
    assert core == (k + b) + ['='] + (c + v);
    SplitAt(k + b, c + v, '=');
    TrimAround("", k, b);
    assert "" + k + b == k + b;
    TrimAround(c, v, "");
    assert c + v + "" == c + v;
  }

  ghost predicate Clean(s: string) {
    forall i :: 0 <= i < |s| ==> !Control(s[i])
  }

  /** A quoted value is read back, but for its control characters. */
  lemma QuotedParamRead(f: Fields, a: string, k: string, b: string, c: string, x: string, d: string)
    requires AllWhite(a) && AllWhite(b) && AllWhite(c) && AllWhite(d) && Firm(k) && k[|k| - 1] != '*'
    requires forall i :: 0 <= i < |k| ==> k[i] != '='
    ensures AddParam(f, a + k + b + "=" + c + Quoted(x) + d)
            == Some(f.(plain := f.plain[Lower(k) := Unescape(QuotedBody(x))]))
  {
    hide Trim, SplitOnce, Quoted, Unescape;
    QuotedEnds(x);
    ParamRead(a, k, b, c, Quoted(x), d);
    assert Lower(k)[|k| - 1] == LowerChar(k[|k| - 1]) != '*';
  }

  lemma QuotedEnds(x: string)
    ensures var q := Quoted(x); Firm(q) && |q| >= 2 && q[0] == '"' == q[|q| - 1] && q[1..|q| - 1] == QuotedBody(x)
  {
  }

  ghost predicate Charset(s: string) {
    Lower(s) == "utf-8" || Lower(s) == "us-ascii" || s == ""
  }

  lemma CharsetStart(s: string)
    requires Charset(s) && s != ""
    ensures s[0] in "uU" && forall i :: 0 <= i < |s| ==> s[i] != '\''
  {
    assert Lower(s)[0] == LowerChar(s[0]);
    assert forall i :: 0 <= i < |s| ==> Lower(s)[i] == LowerChar(s[i]);
  }

  lemma SafeVisible(c: char)
    requires Safe(c)
    ensures !White(c) && !Control(c) && c as int < 0x7f && c != '\'' && c != '"' && c != ';'
  {
  }

  lemma EscapedVisible(b: seq<Byte>)
    ensures forall i :: 0 <= i < |Escaped(b)| ==>
                          !White(Escaped(b)[i]) && !Control(Escaped(b)[i]) && Escaped(b)[i] as int < 0x7f
                          && Escaped(b)[i] != '"' && Escaped(b)[i] != ';'
  {
    hide White, Control, Safe;
    EscapedSafe(b);
    forall i | 0 <= i < |Escaped(b)| { SafeVisible(Escaped(b)[i]); }
  }

  lemma DecodeExtReads(charset: string, lang: string, x: string)
    requires Charset(charset) && forall i :: 0 <= i < |lang| ==> lang[i] != '\''
    ensures DecodeExt(charset + "'" + lang + "'" + Escaped(Encode(x))) == Some(x)
  {
    hide SplitOnce, Encode, Decode, Escaped, Unescaped;
    var esc := Escaped(Encode(x));
    if charset != "" { CharsetStart(charset); }
    SplitAt(charset, lang + "'" + esc, '\'');
    assert charset + "'" + lang + "'" + esc == charset + ['\''] + (lang + "'" + esc);
    SplitAt(lang, esc, '\'');
    EscapeRoundTrip(Encode(x));
    DecodeExactly(Encode(x), x);
    assert charset == "" ==> Lower(charset) == "";
  }

  /** The extended form gives any text back. */
  lemma ExtParamRead(f: Fields, a: string, k: string, b: string, c: string, charset: string, lang: string, x: string,
                     d: string)
    requires AllWhite(a) && AllWhite(b) && AllWhite(c) && AllWhite(d) && Firm(k) && Charset(charset)
    requires forall i :: 0 <= i < |k| ==> k[i] != '='
    requires forall i :: 0 <= i < |lang| ==> lang[i] != '\''
    ensures AddParam(f, a + (k + "*") + b + "=" + c + (charset + "'" + lang + "'" + Escaped(Encode(x))) + d)
            == Some(f.(ext := f.ext[Lower(k) := x]))
  {
    hide Trim, SplitOnce, Encode, Escaped, DecodeExt;
    var v := charset + "'" + lang + "'" + Escaped(Encode(x));
    EscapedVisible(Encode(x));
    if charset != "" { CharsetStart(charset); }
    assert Firm(v) by { assert v[0] == if charset == "" then '\'' else charset[0]; }
    assert v[0] != '"';
    ParamRead(a, k + "*", b, c, v, d);
    DecodeExtReads(charset, lang, x);
    assert Lower(k + "*")[|k|] == '*' && Lower(k + "*")[..|k|] == Lower(k);
  }

  /** In any other charset it spoils the header. */
  lemma ExtParamRefused(f: Fields, a: string, k: string, b: string, c: string, charset: string, lang: string, x: string,
                        d: string)
    requires AllWhite(a) && AllWhite(b) && AllWhite(c) && AllWhite(d) && Firm(k) && !Charset(charset)
    requires charset != "" && !White(charset[0]) && charset[0] != '"'
    requires forall i :: 0 <= i < |k| ==> k[i] != '='
    requires '\'' !in charset && '\'' !in lang
    ensures AddParam(f, a + (k + "*") + b + "=" + c + (charset + "'" + lang + "'" + Escaped(Encode(x))) + d) == None
  {
    hide Trim, SplitOnce, Encode, Escaped, DecodeExt;
    var v := charset + "'" + lang + "'" + Escaped(Encode(x));
    EscapedVisible(Encode(x));
    assert Firm(v) && v[0] != '"' by { assert v[0] == charset[0]; }
    ParamRead(a, k + "*", b, c, v, d);
    DecodeExtRefuses(charset, lang, Escaped(Encode(x)));
    assert Lower(k + "*")[|k|] == '*' && Lower(k + "*")[..|k|] == Lower(k);
  }

  lemma DecodeExtRefuses(charset: string, lang: string, v: string)
    requires !Charset(charset) && '\'' !in charset && '\'' !in lang
    ensures DecodeExt(charset + "'" + lang + "'" + v) == None
  {
    hide SplitOnce, Encode, Decode, Unescaped;
    SplitAt(charset, lang + "'" + v, '\'');
    assert charset + "'" + lang + "'" + v == charset + ['\''] + (lang + "'" + v);
    SplitAt(lang, v, '\'');
    assert Lower(charset) == "" ==> charset == "";
  }

  // ---- Parts that are none ----

  lemma {:induction false} StartBlank(s: string)
    ensures TrimStart(s) == "" <==> AllWhite(s)
    ensures forall c :: c in TrimStart(s) ==> c in s
    ensures TrimStart(s) != "" ==> !White(TrimStart(s)[0])
  {
    hide White;
    if s != "" && White(s[0]) {
      StartBlank(s[1..]);
      assert s == [s[0]] + s[1..];
      assert AllWhite(s[1..]) ==> AllWhite(s);
    }
  }

  lemma {:induction false} EndBlank(s: string)
    ensures s != "" && !White(s[0]) ==> TrimEnd(s) != ""
    ensures forall c :: c in TrimEnd(s) ==> c in s
  {
    hide White;
    if s != "" && White(s[|s| - 1]) { EndBlank(s[..|s| - 1]); }
  }

  lemma TrimBlank(s: string)
    ensures Trim(s) == "" <==> AllWhite(s)
    ensures forall c :: c in Trim(s) ==> c in s
  {
    StartBlank(s);
    EndBlank(TrimStart(s));
  }

  lemma {:induction false} PartsRefused(f: Fields, parts: seq<string>, i: nat)
    requires i < |parts| && !AllWhite(parts[i]) && '=' !in parts[i]
    ensures AddParams(f, parts) == None
    decreases i
  {
    hide DecodeExt, Unquoted, Lower, Trim;
    if i == 0 {
      TrimBlank(parts[0]);
    } else if AddParam(f, parts[0]).Some? {
      PartsRefused(AddParam(f, parts[0]).value, parts[1..], i - 1);
    }
  }

  ghost predicate AllWhole(parts: seq<string>) {
    parts != [] && forall k :: 0 <= k < |parts| ==> Whole(parts[k])
  }

  /** The name in a header of these parts. */
  lemma JoinedRead(parts: seq<string>)
    requires AllWhole(parts)
    ensures var fields := AddParams(Fields(map[], map[]), parts[1..]);
            FilenameOf(Join(parts))
            == if AllWhite(parts[0]) || fields.None? then ""
               else
                 var p := fields.value.plain + fields.value.ext;
                 if "filename" in p then p["filename"] else ""
  {
    hide Trim, AddParams, Whole, Join, Split, AllWhite;
    SplitExactly(Join(parts), parts);
    TrimBlank(parts[0]);
  }

  /** A header without a first part, or with a part that is neither blank nor has an equals sign,
      gives no name. */
  lemma MalformedRefused(parts: seq<string>, i: nat)
    requires i < |parts| && AllWhole(parts)
    requires AllWhite(parts[0]) || (i > 0 && !AllWhite(parts[i]) && '=' !in parts[i])
    ensures FilenameOf(Join(parts)) == ""
  {
    hide FilenameOf, AddParams, AllWhole, Join;
    JoinedRead(parts);
    if !AllWhite(parts[0]) { PartsRefused(Fields(map[], map[]), parts[1..], i - 1); }
  }

  lemma {:induction false} BlankSkipped(f: Fields, a: seq<string>, blank: string, b: seq<string>)
    requires AllWhite(blank)
    ensures AddParams(f, a + [blank] + b) == AddParams(f, a + b)
    decreases |a|
  {
    hide DecodeExt, Unquoted, Lower, Trim, SplitOnce, AllWhite;
    if a == [] {
      TrimBlank(blank);
      assert a + [blank] + b == [blank] + b && a + b == b && ([blank] + b)[1..] == b;
    } else {
      hide AddParam;
      assert (a + [blank] + b)[1..] == a[1..] + [blank] + b && (a + b)[1..] == a[1..] + b;
      if AddParam(f, a[0]).Some? { BlankSkipped(AddParam(f, a[0]).value, a[1..], blank, b); }
    }
  }

  lemma WholeWithout(a: seq<string>, blank: string, b: seq<string>)
    requires a != [] && AllWhole(a + [blank] + b)
    ensures AllWhole(a + b)
  {
    hide Whole;
    var p := a + [blank] + b;
    assert forall k :: 0 <= k < |a| ==> (a + b)[k] == p[k];
    assert forall k :: |a| <= k < |a + b| ==> (a + b)[k] == p[k + 1];
  }

  /** A blank part, as two semicolons in a row or one at the end leave it, makes no difference. */
  lemma BlankIgnored(a: seq<string>, blank: string, b: seq<string>)
    requires a != [] && AllWhite(blank) && AllWhole(a + [blank] + b)
    ensures AllWhole(a + b)
    ensures FilenameOf(Join(a + [blank] + b)) == FilenameOf(Join(a + b))
  {
    hide FilenameOf, AddParams, Join, AllWhite;
    WholeWithout(a, blank, b);
    hide AllWhole;
    JoinedRead(a + [blank] + b);
    JoinedRead(a + b);
    assert (a + [blank] + b)[1..] == a[1..] + [blank] + b && (a + b)[1..] == a[1..] + b;
    BlankSkipped(Fields(map[], map[]), a[1..], blank, b);
  }

  // ---- The printed header, parsed ----

  lemma AsciiClean(name: string)
    ensures Clean(Ascii(name)) && |Ascii(name)| == |name|
    ensures forall i :: 0 <= i < |name| ==> 0x20 <= Ascii(name)[i] as int <= 0x7e
  {
  }

  lemma PrintedParts(disposition: string, name: string)
    requires Whole(disposition) && name != ""
    ensures Split(ContentDisposition(disposition, name))
            == Some([disposition, " filename=" + Quoted(Ascii(name)), " filename*=UTF-8''" + Escaped(Encode(name))])
  {
    hide Scan, Pieces, Quoted, Escaped, Encode, Uncut, Whole;
    var b, c := " filename=" + Quoted(Ascii(name)), " filename*=UTF-8''" + Escaped(Encode(name));
    QuotedWhole(" filename=", Ascii(name), "");
    assert b + "" == b;
    EscapedVisible(Encode(name));
    PlainWhole(c);
    var parts := [disposition, b, c];
    JoinStep([disposition], b);
    JoinStep([disposition, b], c);
    assert [disposition] + [b] == [disposition, b] && [disposition, b] + [c] == parts;
    assert Join(parts) == disposition + ";" + b + ";" + c;
    Regroup(disposition, Quoted(Ascii(name)), Escaped(Encode(name)));
    SplitExactly(Join(parts), parts);
  }

  lemma Regroup(d: string, q: string, e: string)
    ensures d + "; filename=" + q + "; filename*=UTF-8''" + e
            == d + ";" + (" filename=" + q) + ";" + (" filename*=UTF-8''" + e)
  {
    assert "; filename=" == ";" + " filename=";
    assert "; filename*=UTF-8''" == ";" + " filename*=UTF-8''";
  }

  /** Every name, printed into a header, is read back from it: `disposition` is any text that
      is more than space, closes its quotes and has no semicolon outside them. */
  lemma PrintParse(disposition: string, name: string)
    requires Whole(disposition) && Trim(disposition) != ""
    ensures FilenameOf(ContentDisposition(disposition, name)) == name
  {
    hide Trim, AddParam, Whole;
    if name == "" {
      SplitExactly(disposition, [disposition]);
    } else {
      PrintedParts(disposition, name);
      FieldsRead(name);
    }
  }

  lemma AddOne(f: Fields, p: string)
    ensures AddParams(f, [p]) == AddParam(f, p)
  {
    hide AddParam;
    assert [p][1..] == [];
  }

  lemma AddTwo(f: Fields, p: string, q: string)
    ensures AddParam(f, p).Some? ==> AddParams(f, [p, q]) == AddParam(AddParam(f, p).value, q)
  {
    hide AddParam;
    assert [p, q][1..] == [q];
    if AddParam(f, p).Some? { AddOne(AddParam(f, p).value, q); }
  }

  lemma FieldsRead(name: string)
    ensures AddParams(Fields(map[], map[]), [" filename=" + Quoted(Ascii(name)),
            " filename*=UTF-8''" + Escaped(Encode(name))])
            == Some(Fields(map["filename" := Ascii(name)], map["filename" := name]))
  {
    hide AddParam, AddParams, Quoted, Ascii, Escaped, Encode, Lower, Unescape, QuotedBody;
    var b, c, e := " filename=" + Quoted(Ascii(name)), " filename*=UTF-8''" + Escaped(Encode(name)),
                   Escaped(Encode(name));
    AsciiClean(name);
    QuoteRoundTrip(Ascii(name));
    LowerKey();
    var f := Fields(map[], map[]);
    QuotedParamRead(f, " ", "filename", "", "", Ascii(name), "");
    assert " " + "filename" + "" + "=" + "" + Quoted(Ascii(name)) + "" == b;
    var g := Fields(map["filename" := Ascii(name)], map[]);
    ExtParamRead(g, " ", "filename", "", "", "UTF-8", "", name, "");
    assert " " + ("filename" + "*") + "" + "=" + "" + ("UTF-8" + "'" + "" + "'" + e) + "" == c;
    AddTwo(f, b, c);
  }

  lemma LowerKey()
    ensures Lower("filename") == "filename" && Charset("UTF-8")
  {
    assert forall i :: 0 <= i < 8 ==> LowerChar("filename"[i]) == "filename"[i];
    assert Lower("UTF-8") == "utf-8";
  }

  /** The two dispositions in use. */
  lemma DownloadRoundTrip(name: string)
    ensures FilenameOf(ContentDisposition("inline", name)) == name
    ensures FilenameOf(ContentDisposition("attachment", name)) == name
  {
    hide FilenameOf, ContentDisposition, Whole, Trim;
    PlainWhole("inline");
    PlainWhole("attachment");
    TrimAround("", "inline", "");
    TrimAround("", "attachment", "");
    assert "" + "inline" + "" == "inline" && "" + "attachment" + "" == "attachment";
    PrintParse("inline", name);
    PrintParse("attachment", name);
  }

  lemma DesktopParts(name: string)
    ensures Split("attachment; filename=" + Quoted(name)) == Some(["attachment", " filename=" + Quoted(name)])
  {
    hide Scan, Pieces, Quoted, Uncut, Whole;
    var b := " filename=" + Quoted(name);
    PlainWhole("attachment");
    QuotedWhole(" filename=", name, "");
    assert b + "" == b;
    JoinStep(["attachment"], b);
    assert ["attachment"] + [b] == ["attachment", b];
    assert "attachment; filename=" == "attachment" + ";" + " filename=";
    SplitExactly("attachment; filename=" + Quoted(name), ["attachment", b]);
  }

  /** The desktop builds' header has the quoted form alone: the name is read back just when
      it has no control characters. */
  lemma DesktopRoundTrip(name: string)
    ensures FilenameOf("attachment; filename=" + Quoted(name)) == name <==> Clean(name)
  {
    hide Trim, AddParam, AddParams, Quoted, Lower, Unescape, QuotedBody, Split;
    var b, f := " filename=" + Quoted(name), Fields(map[], map[]);
    DesktopParts(name);
    LowerKey();
    TrimAround("", "attachment", "");
    assert "" + "attachment" + "" == "attachment";
    QuotedParamRead(f, " ", "filename", "", "", name, "");
    assert " " + "filename" + "" + "=" + "" + Quoted(name) + "" == b;
    AddOne(f, b);
    QuoteRoundTrip(name);
  }

  /** A reader that stops before the extended parameter gets a name of the same length, the same
      where that is printable ASCII and neither quote nor backslash, and underscores elsewhere. */
  lemma FallbackName(name: string)
    requires name != ""
    ensures var plain := "attachment; filename=" + Quoted(Ascii(name));
            var read := FilenameOf(plain);
            && plain + "; filename*=" <= ContentDisposition("attachment", name)
            && |read| == |name|
            && forall i :: 0 <= i < |name| ==>
                 && (read[i] == name[i] <==> 0x20 <= name[i] as int <= 0x7e && name[i] !in "\"\\")
                 && (read[i] != name[i] ==> read[i] == '_')
  {
    hide FilenameOf, Quoted, Escaped, Encode;
    AsciiClean(name);
    DesktopRoundTrip(Ascii(name));
    var plain := "attachment; filename=" + Quoted(Ascii(name));
    assert ContentDisposition("attachment", name) == plain + "; filename*=" + ("UTF-8''" + Escaped(Encode(name)));
  }

  ghost predicate Visible(s: string) {
    forall i :: 0 <= i < |s| ==> 0x20 <= s[i] as int <= 0x7e
  }

  lemma VisibleConcat(a: string, b: string)
    ensures Visible(a + b) <==> Visible(a) && Visible(b)
  {
    if Visible(a + b) {
      assert forall i :: 0 <= i < |a| ==> (a + b)[i] == a[i];
      assert forall i :: 0 <= i < |b| ==> (a + b)[|a| + i] == b[i];
    }
  }

  /** Everything printed is visible ASCII, as the header's reader demands. */
  lemma PrintedVisible(disposition: string, name: string)
    requires Visible(disposition)
    ensures Visible(ContentDisposition(disposition, name))
  {
    hide Escaped, Encode, Quoted, Ascii;
    var q, e := Quoted(Ascii(name)), Escaped(Encode(name));
    assert Visible(e) by { EscapedVisible(Encode(name)); }
    AsciiClean(name);
    QuotedVisible(Ascii(name));
    var k, l := "; filename=", "; filename*=UTF-8''";
    assert Visible(k) && Visible(l);
    hide Visible;
    VisibleConcat(disposition, k);
    VisibleConcat(disposition + k, q);
    VisibleConcat(disposition + k + q, l);
    VisibleConcat(disposition + k + q + l, e);
  }

  lemma QuotedVisible(s: string)
    requires Visible(s)
    ensures Visible(Quoted(s))
  {
    BodyVisible(s);
  }

  lemma {:induction false} BodyVisible(s: string)
    requires Visible(s)
    ensures Visible(QuotedBody(s))
  {
    if s != "" { BodyVisible(s[1..]); }
  }
}
