/**
 * Element patterns over text (cmd/pelicula/seed.go): the matcher, search and replace, and a
 * theory of replacing many elements at once.
 */
module XmlPattern {
  import opened Text

  // ---- escaping --------------------------------------------------------------------------

  function EscapeChar(c: char): string {
    match c
    case '&' => "&amp;"
    case '<' => "&lt;"
    case '>' => "&gt;"
    case '"' => "&quot;"
    case '\'' => "&apos;"
    case _ => [c]
  }

  function XmlEscape(s: string): (r: string)
    ensures '<' !in r && '>' !in r && '"' !in r && '\'' !in r
  {
    if s == "" then "" else EscapeChar(s[0]) + XmlEscape(s[1..])
  }

  /** How an XML reader resolves the five predefined entities (section 4.6 of XML 1.0). */
  function XmlUnescape(s: string): string {
    if s == "" then ""
    else if "&amp;" <= s then "&" + XmlUnescape(s[5..])
    else if "&lt;" <= s then "<" + XmlUnescape(s[4..])
    else if "&gt;" <= s then ">" + XmlUnescape(s[4..])
    else if "&quot;" <= s then "\"" + XmlUnescape(s[6..])
    else if "&apos;" <= s then "'" + XmlUnescape(s[6..])
    else [s[0]] + XmlUnescape(s[1..])
  }

  lemma UnescapeOther(s: string)
    requires s != "" && s[0] != '&'
    ensures XmlUnescape(s) == [s[0]] + XmlUnescape(s[1..])
  {
  }

  /** An entity is known by what follows the ampersand. */
  lemma UnescapeEntity(s: string, e: string, c: char)
    requires e <= s
    requires (e, c) in {("&amp;", '&'), ("&lt;", '<'), ("&gt;", '>'), ("&quot;", '"'), ("&apos;", '\'')}
    ensures XmlUnescape(s) == [c] + XmlUnescape(s[|e|..])
  {
    assert s[1] == e[1] && s[2] == e[2];
  }

  lemma UnescapeHead(c: char, t: string)
    ensures XmlUnescape(EscapeChar(c) + t) == [c] + XmlUnescape(t)
  {
    hide XmlUnescape;
    var s := EscapeChar(c) + t;
    assert s[|EscapeChar(c)|..] == t;
    if EscapeChar(c) == [c] { UnescapeOther(s); } else { UnescapeEntity(s, EscapeChar(c), c); }
  }

  lemma {:induction false} EscapeRoundTrip(s: string)
    ensures XmlUnescape(XmlEscape(s)) == s
  {
    if s != "" {
      EscapeRoundTrip(s[1..]);
      var t := XmlEscape(s[1..]);
      var e := EscapeChar(s[0]);
      UnescapeHead(s[0], t);
      assert s == [s[0]] + s[1..];
    }
  }

  /** `xmlEscape` character by character. */
  lemma EscapeOne(c: char)
    ensures XmlEscape([c]) ==
            if c == '&' then "&amp;" else if c == '<' then "&lt;" else if c == '>' then "&gt;"
            else if c == '"' then "&quot;" else if c == '\'' then "&apos;" else [c]
  {
    assert [c][1..] == "";
  }

  lemma {:induction false} EscapeAppend(a: string, b: string)
    ensures XmlEscape(a + b) == XmlEscape(a) + XmlEscape(b)
  {
    if a == "" {
      assert a + b == b;
    } else {
      assert (a + b)[1..] == a[1..] + b;
      EscapeAppend(a[1..], b);
    }
  }

  lemma {:induction false} EscapeNothing(s: string)
    requires forall c :: c in s ==> c !in "&<>\"'"
    ensures XmlEscape(s) == s
  {
    if s != "" {
      EscapeNothing(s[1..]);
      assert s[0] in s && "&<>\"'" == ['&', '<', '>', '"', '\''];
    }
  }

  // ---- the pattern -----------------------------------------------------------------------

  /** The characters a regular expression's `\s` stands for. */
  predicate IsRegexSpace(c: char) {
    c == '\t' || c == '\n' || c == '\U{0C}' || c == '\r' || c == ' '
  }

  predicate IsNameChar(c: char) {
    c != '<' && c != '>' && c != '/' && !IsRegexSpace(c)
  }

  /** An element name as the callers pass it. */
  predicate PlainTag(t: string) {
    t != "" && forall i :: 0 <= i < |t| ==> IsNameChar(t[i])
  }

  function Open(t: string): string { "<" + t + ">" }
  function Close(t: string): string { "</" + t + ">" }
  function Elem(t: string, v: string): string { Open(t) + XmlEscape(v) + Close(t) }

  /** Length of the longest prefix of s without '<'. */
  function TextLen(s: string): (n: nat)
    ensures n <= |s| && '<' !in s[..n]
    ensures n < |s| ==> s[n] == '<'
  {
    if s == "" || s[0] == '<' then 0
    else
      var n := TextLen(s[1..]);
      assert s[..n + 1] == [s[0]] + s[1..][..n];
      n + 1
  }

  /** Length of the longest blank prefix of s. */
  function SpaceLen(s: string): (n: nat)
    ensures n <= |s|
    ensures forall i :: 0 <= i < n ==> IsRegexSpace(s[i])
    ensures n < |s| ==> !IsRegexSpace(s[n])
  {
    if s == "" || !IsRegexSpace(s[0]) then 0 else 1 + SpaceLen(s[1..])
  }

  /**
   * Length of the match at the head of s of either form of the pattern: `<t>`, text without '<'
   * and `</t>`, or `<t`, white space and `/>`. It is 0 when there is none (no match is empty).
   */
  function MatchLen(s: string, t: string): (n: nat)
    ensures n <= |s|
    ensures n > 0 ==> s[0] == '<' && s[n - 1] == '>'
  {
    var head := "<" + t;
    if !(head <= s) then 0
    else
      var rest := s[|head|..];
      if ">" <= rest then
        var k := 1 + TextLen(rest[1..]);
        if Close(t) <= rest[k..] then |head| + k + |Close(t)| else 0
      else
        var k := SpaceLen(rest);
        if "/>" <= rest[k..] then |head| + k + 2 else 0
  }

  /** The texts of t's matches, left to right. */
  function Hits(s: string, t: string): seq<string> {
    if s == "" then []
    else
      var n := MatchLen(s, t);
      if n > 0 then [s[..n]] + Hits(s[n..], t) else Hits(s[1..], t)
  }

  /** `ReplaceAllLiteralString`: every match of t becomes elem. */
  function ReplaceAll(s: string, t: string, elem: string): string {
    if s == "" then ""
    else
      var n := MatchLen(s, t);
      if n > 0 then elem + ReplaceAll(s[n..], t, elem) else [s[0]] + ReplaceAll(s[1..], t, elem)
  }

  // ---- matches are local -----------------------------------------------------------------

  predicate AllSpace(s: string) { forall i :: 0 <= i < |s| ==> IsRegexSpace(s[i]) }

  lemma {:induction false} TextLenIs(text: string, x: string)
    requires '<' !in text && (x == "" || x[0] == '<')
    ensures TextLen(text + x) == |text|
  {
    if text == "" {
      assert text + x == x;
    } else {
      assert (text + x)[1..] == text[1..] + x;
      TextLenIs(text[1..], x);
    }
  }

  lemma {:induction false} SpaceLenIs(sp: string, x: string)
    requires AllSpace(sp) && (x == "" || !IsRegexSpace(x[0]))
    ensures SpaceLen(sp + x) == |sp|
  {
    if sp == "" {
      assert sp + x == x;
    } else {
      assert (sp + x)[1..] == sp[1..] + x;
      SpaceLenIs(sp[1..], x);
    }
  }

  lemma MatchOpenForm(t: string, text: string, x: string)
    requires '<' !in text
    ensures MatchLen(Open(t) + text + Close(t) + x, t) == |Open(t) + text + Close(t)|
  {
    var s := Open(t) + text + Close(t) + x;
    var tail := Close(t) + x;
    TextLenIs(text, tail);
    OpenSplit(t, text, x);
    After("<" + t, ">" + (text + tail));
    After(">", text + tail);
    After(">" + text, tail);
    After(Close(t), x);
    hide TextLen;
  }

  lemma OpenSplit(t: string, text: string, x: string)
    ensures Open(t) + text + Close(t) + x == ("<" + t) + (">" + (text + (Close(t) + x)))
    ensures ">" + (text + (Close(t) + x)) == (">" + text) + (Close(t) + x)
  {
  }

  lemma After(p: string, y: string)
    ensures p <= p + y && (p + y)[|p|..] == y
  {
  }

  lemma MatchSelfClosing(t: string, sp: string, x: string)
    requires AllSpace(sp)
    ensures MatchLen("<" + t + sp + "/>" + x, t) == |"<" + t + sp + "/>"|
  {
    var s := "<" + t + sp + "/>" + x;
    var rest := s[|"<" + t|..];
    assert rest == sp + ("/>" + x);
    SpaceLenIs(sp, "/>" + x);
    assert rest[|sp|..] == "/>" + x;
    assert !(">" <= rest) by { assert sp != "" ==> rest[0] == sp[0]; }
  }

  /** What a match looks like: the part after the name, and whether it is an open form. */
  lemma MatchShape(s: string, t: string) returns (open: bool, mid: string)
    requires MatchLen(s, t) > 0
    ensures '<' !in mid
    ensures open ==> s[..MatchLen(s, t)] == Open(t) + mid + Close(t)
    ensures !open ==> AllSpace(mid) && s[..MatchLen(s, t)] == "<" + t + mid + "/>"
  {
    var rest := s[|"<" + t|..];
    open := ">" <= rest;
    if open { mid := OpenShape(s, t); } else { mid := SelfClosingShape(s, t); }
  }

  /** s begins with `<t>text</t>`, or with `<t`, white space and `/>`; x is the rest. */
  predicate OpenAt(s: string, t: string, text: string, x: string) {
    '<' !in text && s == "<" + t + ">" + text + "</" + t + ">" + x
  }

  predicate EmptyAt(s: string, t: string, sp: string, x: string) {
    (forall c :: c in sp ==> c in {' ', '\t', '\n', '\r', '\U{0C}'}) && s == "<" + t + sp + "/>" + x
  }

  /** MAIN: those are exactly the matches of `<t>[^<]*</t>|<t\s*\/>` at the head of a text. */
  lemma MatchExactly(s: string, t: string)
    ensures MatchLen(s, t) > 0 <==> (exists text, x :: OpenAt(s, t, text, x)) || exists sp, x :: EmptyAt(s, t, sp, x)
    ensures forall text, x :: OpenAt(s, t, text, x) ==> MatchLen(s, t) == 2 * |t| + |text| + 5
    ensures forall sp, x :: EmptyAt(s, t, sp, x) ==> MatchLen(s, t) == |t| + |sp| + 3
  {
    hide MatchLen;
    forall text, x | OpenAt(s, t, text, x)
      ensures MatchLen(s, t) == 2 * |t| + |text| + 5
    {
      OpenMatches(s, t, text, x);
    }
    forall sp, x | EmptyAt(s, t, sp, x)
      ensures MatchLen(s, t) == |t| + |sp| + 3
    {
      assert forall i :: 0 <= i < |sp| ==> sp[i] in sp;
      MatchSelfClosing(t, sp, x);
    }
    if MatchLen(s, t) > 0 {
      var n := MatchLen(s, t);
      var open, mid := MatchShape(s, t);
      Glue(s[..n], s[n..], s);
      if open { OpenIsAt(s, t, mid, s[n..]); } else { assert EmptyAt(s, t, mid, s[n..]); }
    }
  }

  lemma OpenMatches(s: string, t: string, text: string, x: string)
    requires OpenAt(s, t, text, x)
    ensures MatchLen(s, t) == 2 * |t| + |text| + 5
  {
    hide MatchLen;
    assert s == Open(t) + text + Close(t) + x;
    MatchOpenForm(t, text, x);
  }

  lemma OpenIsAt(s: string, t: string, text: string, x: string)
    requires '<' !in text && s == Open(t) + text + Close(t) + x
    ensures OpenAt(s, t, text, x)
  {
  }

  lemma OpenParts(s: string, t: string) returns (n: nat)
    requires MatchLen(s, t) > 0 && ">" <= s[|"<" + t|..]
    ensures "<" + t <= s
    ensures var rest := s[|"<" + t|..];
            && n < |rest| && '<' !in rest[1..][..n] && Close(t) <= rest[1 + n..]
            && MatchLen(s, t) == |"<" + t| + 1 + n + |Close(t)|
  {
    n := TextLen(s[|"<" + t|..][1..]);
  }

  lemma {:induction false} OpenShape(s: string, t: string) returns (mid: string)
    requires MatchLen(s, t) > 0 && ">" <= s[|"<" + t|..]
    ensures '<' !in mid && s[..MatchLen(s, t)] == Open(t) + mid + Close(t)
  {
    hide MatchLen, TextLen;
    var n := OpenParts(s, t);
    var rest := s[|"<" + t|..];
    mid := rest[1..][..n];
    var tail := rest[1 + n..];
    Glue("<" + t, rest, s);
    Glue(Close(t), tail[|Close(t)|..], tail);
    assert rest == ">" + mid + tail;
    Assemble("<" + t, mid, Close(t), tail[|Close(t)|..], s);
  }

  lemma Assemble(head: string, mid: string, close: string, more: string, s: string)
    requires s == head + (">" + mid + (close + more))
    ensures s[..|head| + 1 + |mid| + |close|] == head + ">" + mid + close
  {
    assert s == head + ">" + mid + close + more;
  }

  lemma SelfClosingParts(s: string, t: string)
    requires MatchLen(s, t) > 0 && !(">" <= s[|"<" + t|..])
    ensures "<" + t <= s
    ensures var rest := s[|"<" + t|..];
      "/>" <= rest[SpaceLen(rest)..] && MatchLen(s, t) == |"<" + t| + SpaceLen(rest) + 2
  {
    hide SpaceLen;
  }

  lemma SelfClosingShape(s: string, t: string) returns (mid: string)
    requires MatchLen(s, t) > 0 && !(">" <= s[|"<" + t|..])
    ensures '<' !in mid && AllSpace(mid) && s[..MatchLen(s, t)] == "<" + t + mid + "/>"
  {
    SelfClosingParts(s, t);
    hide MatchLen, SpaceLen;
    var head := "<" + t;
    var rest := s[|head|..];
    mid := rest[..SpaceLen(rest)];
    var tail := rest[|mid|..];
    assert AllSpace(mid) && '<' !in mid;
    hide AllSpace;
    var x := tail[2..];
    Glue(head, rest, s);
    Glue(mid, tail, rest);
    Glue("/>", x, tail);
    FourParts(head, mid, "/>", x);
  }

  lemma FourParts(a: string, b: string, c: string, d: string)
    ensures a + (b + (c + d)) == a + b + c + d
    ensures (a + b + c + d)[..|a| + |b| + |c|] == a + b + c
  {
  }

  lemma Glue(p: string, x: string, s: string)
    requires p <= s && x == s[|p|..]
    ensures s == p + x
  {
  }

  /** A match does not depend on what follows it. */
  lemma MatchExtends(a: string, b: string, t: string)
    requires 0 < MatchLen(a, t)
    ensures MatchLen(a + b, t) == MatchLen(a, t)
  {
    hide MatchLen;
    var n := MatchLen(a, t);
    var open, mid := MatchShape(a, t);
    assert a + b == a[..n] + (a[n..] + b);
    if open { MatchOpenForm(t, mid, a[n..] + b); } else { MatchSelfClosing(t, mid, a[n..] + b); }
  }

  lemma MatchPrefix(a: string, b: string, t: string)
    requires 0 < MatchLen(a + b, t) <= |a|
    ensures MatchLen(a, t) == MatchLen(a + b, t)
  {
    hide MatchLen;
    var n := MatchLen(a + b, t);
    var open, mid := MatchShape(a + b, t);
    assert (a + b)[..n] == a[..n];
    assert a == a[..n] + a[n..];
    if open { MatchOpenForm(t, mid, a[n..]); } else { MatchSelfClosing(t, mid, a[n..]); }
  }

  /** A string whose only '<' is its first character. */
  predicate OneLt(s: string) { s != "" && s[0] == '<' && '<' !in s[1..] }

  lemma OneLtOnly(s: string, k: nat)
    requires OneLt(s) && k < |s| && s[k] == '<'
    ensures k == 0
  {
    assert forall j :: 1 <= j < |s| ==> s[j] == s[1..][j - 1];
  }

  lemma NoLtInName(t: string)
    requires PlainTag(t)
    ensures '<' !in t && '>' !in t && '/' !in t
  {
  }

  lemma OneLtParts(t: string, mid: string)
    requires PlainTag(t) && '<' !in mid
    ensures OneLt(Open(t) + mid) && OneLt(Close(t)) && OneLt("<" + t + mid + "/>")
  {
    NoLtInName(t);
    assert (Open(t) + mid)[1..] == t + ">" + mid;
    assert Close(t)[1..] == "/" + t + ">";
    assert ("<" + t + mid + "/>")[1..] == t + mid + "/>";
  }

  /** Inside a match the only further '<' opens the match's own closing tag. */
  lemma {:induction false} MatchInside(s: string, t: string, k: nat)
    requires PlainTag(t) && 0 < k < MatchLen(s, t) && s[k] == '<'
    ensures Close(t) <= s[k..]
  {
    hide MatchLen;
    var n := MatchLen(s, t);
    var open, mid := MatchShape(s, t);
    OneLtParts(t, mid);
    assert s[..n][k] == '<';
    if open {
      var front := Open(t) + mid;
      if k < |front| {
        OneLtOnly(front, k);
      } else {
        OneLtOnly(Close(t), k - |front|);
        Glue(s[..n], s[n..], s);
        assert s[k..] == Close(t) + s[n..];
      }
    } else {
      OneLtOnly("<" + t + mid + "/>", k);
    }
  }

  lemma NameEnds(s: string, t: string)
    requires MatchLen(s, t) > 0
    ensures "<" + t <= s && |s| > 1 + |t| && !IsNameChar(s[1 + |t|])
  {
    hide MatchLen;
    var n := MatchLen(s, t);
    var open, mid := MatchShape(s, t);
    var h := "<" + t;
    assert s[..n][|h|] == s[|h|];
    assert h <= s[..n];
  }

  /** Two plain names never match at the same place. */
  lemma MatchUnique(s: string, t: string, u: string)
    requires PlainTag(t) && PlainTag(u) && MatchLen(s, t) > 0 && MatchLen(s, u) > 0
    ensures t == u
  {
    hide MatchLen;
    NameEnds(s, t);
    NameEnds(s, u);
    NameShorter(s, t, u);
    NameShorter(s, u, t);
    assert t == ("<" + t)[1..] == s[1..1 + |t|];
    assert u == ("<" + u)[1..] == s[1..1 + |u|];
  }

  lemma NameShorter(s: string, t: string, u: string)
    requires "<" + t <= s && |s| > 1 + |t| && !IsNameChar(s[1 + |t|])
    requires "<" + u <= s && PlainTag(u)
    ensures |u| <= |t|
  {
    assert forall j :: 1 <= j < 1 + |u| ==> s[j] == ("<" + u)[j] == u[j - 1];
  }

  lemma ClosingIsNoMatch(s: string, t: string, u: string)
    requires Close(t) <= s && PlainTag(u)
    ensures MatchLen(s, u) == 0
  {
    assert Close(t)[1] == '/' && ("<" + u)[1] == u[0];
  }

  lemma MatchIsNotClosing(s: string, t: string, u: string)
    requires PlainTag(u) && "<" + u <= s
    ensures !(Close(t) <= s)
  {
    assert Close(t)[1] == '/' && ("<" + u)[1] == u[0];
  }

  /** No match of u starts strictly inside a match of t. */
  lemma InsideQuiet(s: string, t: string, u: string, k: nat)
    requires PlainTag(t) && PlainTag(u) && 0 < k < MatchLen(s, t)
    ensures MatchLen(s[k..], u) == 0
  {
    hide MatchLen;
    if s[k] == '<' {
      MatchInside(s, t, k);
      ClosingIsNoMatch(s[k..], t, u);
    }
  }

  /** A match anywhere in a text is one of its hits: matches do not overlap. */
  lemma {:induction false} HitAt(s: string, t: string, k: nat)
    requires PlainTag(t) && k < |s| && MatchLen(s[k..], t) > 0
    ensures s[k..][..MatchLen(s[k..], t)] in Hits(s, t)
    decreases |s|
  {
    hide MatchLen;
    var n := MatchLen(s, t);
    if k == 0 {
      assert s[0..] == s;
    } else if n == 0 {
      assert s[1..][k - 1..] == s[k..];
      HitAt(s[1..], t, k - 1);
    } else {
      if k < n { InsideQuiet(s, t, t, k); }
      assert s[n..][k - n..] == s[k..];
      HitAt(s[n..], t, k - n);
    }
  }

  /** Cutting a text at a place no match reaches across changes no match. */
  ghost predicate NoCross(a: string, b: string, t: string) {
    forall k :: 0 <= k < |a| ==> MatchLen(a[k..] + b, t) == MatchLen(a[k..], t)
  }

  lemma CrossFree(a: string, b: string, t: string)
    requires MatchLen(a + b, t) <= |a|
    ensures MatchLen(a + b, t) == MatchLen(a, t)
  {
    hide MatchLen;
    if MatchLen(a, t) > 0 { MatchExtends(a, b, t); }
    if MatchLen(a + b, t) > 0 { MatchPrefix(a, b, t); }
  }

  /** A '<' that does not begin t's own closing tag stops every match of t. */
  lemma StopAtLt(a: string, b: string, t: string)
    requires PlainTag(t) && a != "" && (b == "" || (b[0] == '<' && !(Close(t) <= b)))
    ensures MatchLen(a + b, t) == MatchLen(a, t)
  {
    hide MatchLen;
    if |a| < MatchLen(a + b, t) {
      assert (a + b)[|a|..] == b;
      MatchInside(a + b, t, |a|);
      assert false;
    }
    CrossFree(a, b, t);
  }

  /** So does a stretch of text without '>'. */
  lemma StopWithoutGt(a: string, b: string, t: string)
    requires '>' !in b
    ensures MatchLen(a + b, t) == MatchLen(a, t)
  {
    hide MatchLen;
    var n := MatchLen(a + b, t);
    assert forall k :: |a| <= k < |a + b| ==> (a + b)[k] in b;
    CrossFree(a, b, t);
  }

  lemma NoCrossLt(a: string, b: string, t: string)
    requires PlainTag(t) && (b == "" || (b[0] == '<' && !(Close(t) <= b)))
    ensures NoCross(a, b, t)
  {
    hide MatchLen;
    forall k | 0 <= k < |a| ensures MatchLen(a[k..] + b, t) == MatchLen(a[k..], t) {
      StopAtLt(a[k..], b, t);
    }
  }

  // ---- the specification: all settings in one pass ---------------------------------------

  ghost predicate PlainKeys(m: map<string, string>) { forall t :: t in m ==> PlainTag(t) }

  /** The text with every element named by m given the value m assigns to it. */
  ghost function Rewrite(s: string, m: map<string, string>): string {
    if s == "" then ""
    else if exists t :: t in m && MatchLen(s, t) > 0 then
      var t :| t in m && MatchLen(s, t) > 0;
      Elem(t, m[t]) + Rewrite(s[MatchLen(s, t)..], m)
    else [s[0]] + Rewrite(s[1..], m)
  }

  lemma RewriteHit(s: string, m: map<string, string>, t: string)
    requires PlainKeys(m) && t in m && MatchLen(s, t) > 0
    ensures Rewrite(s, m) == Elem(t, m[t]) + Rewrite(s[MatchLen(s, t)..], m)
  {
    hide MatchLen;
    forall u | u in m && MatchLen(s, u) > 0 ensures u == t { MatchUnique(s, t, u); }
  }

  lemma NothingInEmpty(u: string, m: map<string, string>)
    ensures Hits("", u) == [] && Rewrite("", m) == ""
  {
  }

  lemma RewriteMiss(s: string, m: map<string, string>)
    requires s != "" && forall t :: t in m ==> MatchLen(s, t) == 0
    ensures Rewrite(s, m) == [s[0]] + Rewrite(s[1..], m)
  {
  }

  lemma {:induction false} ReplaceAllIsRewrite(s: string, t: string, v: string)
    requires PlainTag(t)
    ensures ReplaceAll(s, t, Elem(t, v)) == Rewrite(s, map[t := v])
  {
    hide MatchLen;
    if s != "" {
      var n := MatchLen(s, t);
      if n > 0 {
        RewriteHit(s, map[t := v], t);
        ReplaceAllIsRewrite(s[n..], t, v);
      } else {
        ReplaceAllIsRewrite(s[1..], t, v);
      }
    }
  }

  /** Both a match and its replacement start with the same opening. */
  lemma RewriteHead(r: string, m: map<string, string>, u: string)
    requires PlainKeys(m) && u in m && MatchLen(r, u) > 0
    ensures "<" + u <= r && "<" + u <= Rewrite(r, m)
  {
    hide Rewrite, MatchLen;
    RewriteHit(r, m, u);
    NameEnds(r, u);
  }

  /** Rewriting later text neither creates nor removes a match that starts earlier. */
  lemma {:induction false} RewriteStable(a: string, r: string, m: map<string, string>, t: string)
    requires PlainTag(t) && PlainKeys(m) && a != ""
    ensures MatchLen(a + Rewrite(r, m), t) == MatchLen(a + r, t)
    decreases |r|
  {
    hide MatchLen, Rewrite;
    if r == "" {
      NothingInEmpty(t, m);
    } else {
      if u :| u in m && MatchLen(r, u) > 0 {
        RewriteHead(r, m, u);
        MatchIsNotClosing(r, t, u);
        MatchIsNotClosing(Rewrite(r, m), t, u);
        StopAtLt(a, r, t);
        StopAtLt(a, Rewrite(r, m), t);
      } else {
        RewriteMiss(r, m);
        RewriteStable(a + [r[0]], r[1..], m, t);
        assert a + r == a + [r[0]] + r[1..];
        assert a + Rewrite(r, m) == a + [r[0]] + Rewrite(r[1..], m);
      }
    }
  }

  /** Text in which nothing named by m starts passes through unchanged. */
  lemma {:induction false} RewriteQuiet(x: string, y: string, m: map<string, string>)
    requires forall k, u :: 0 <= k < |x| && u in m ==> MatchLen(x[k..] + y, u) == 0
    ensures Rewrite(x + y, m) == x + Rewrite(y, m)
  {
    hide MatchLen;
    if x == "" {
      assert x + y == y;
    } else {
      assert x[0..] + y == x + y;
      assert (x + y)[1..] == x[1..] + y;
      forall k, u | 0 <= k < |x[1..]| && u in m ensures MatchLen(x[1..][k..] + y, u) == 0 {
        assert x[1..][k..] == x[k + 1..];
      }
      RewriteQuiet(x[1..], y, m);
    }
  }

  lemma MatchQuiet(s: string, t: string, u: string, k: nat)
    requires PlainTag(t) && PlainTag(u) && t != u && k < MatchLen(s, t)
    ensures MatchLen(s[k..], u) == 0
  {
    hide MatchLen;
    if k == 0 {
      assert s[0..] == s;
      if MatchLen(s, u) > 0 { MatchUnique(s, t, u); }
    } else {
      InsideQuiet(s, t, u, k);
    }
  }

  /** An element m does not name passes through unchanged. */
  lemma RewritePass(s: string, m: map<string, string>, t: string)
    requires PlainTag(t) && PlainKeys(m) && t !in m && MatchLen(s, t) > 0
    ensures Rewrite(s, m) == s[..MatchLen(s, t)] + Rewrite(s[MatchLen(s, t)..], m)
  {
    hide MatchLen, Rewrite;
    var n := MatchLen(s, t);
    var x, y := s[..n], s[n..];
    forall k, u | 0 <= k < |x| && u in m ensures MatchLen(x[k..] + y, u) == 0 {
      assert x[k..] + y == s[k..];
      MatchQuiet(s, t, u, k);
    }
    RewriteQuiet(x, y, m);
    assert x + y == s;
  }

  lemma ElemMatches(t: string, v: string, x: string)
    ensures MatchLen(Elem(t, v) + x, t) == |Elem(t, v)|
  {
    hide MatchLen;
    MatchOpenForm(t, XmlEscape(v), x);
  }

  /** Setting some elements and then others is setting them all; the later value wins. */
  lemma {:induction false} RewriteFusion(s: string, m1: map<string, string>, m2: map<string, string>)
    requires PlainKeys(m1) && PlainKeys(m2)
    ensures Rewrite(Rewrite(s, m1), m2) == Rewrite(s, m1 + m2)
  {
    hide MatchLen;
    if s != "" {
      if t :| t in m1 + m2 && MatchLen(s, t) > 0 {
        RewriteFusion(s[MatchLen(s, t)..], m1, m2);
        FusionHit(s, m1, m2, t);
      } else {
        RewriteFusion(s[1..], m1, m2);
        FusionMiss(s, m1, m2);
      }
    }
  }

  lemma {:induction false} FusionHit(s: string, m1: map<string, string>, m2: map<string, string>, t: string)
    requires PlainKeys(m1) && PlainKeys(m2) && t in m1 + m2 && MatchLen(s, t) > 0
    requires var r := s[MatchLen(s, t)..]; Rewrite(Rewrite(r, m1), m2) == Rewrite(r, m1 + m2)
    ensures Rewrite(Rewrite(s, m1), m2) == Rewrite(s, m1 + m2)
  {
    hide MatchLen, Rewrite;
    RewriteHit(s, m1 + m2, t);
    var r := s[MatchLen(s, t)..];
    var e := FirstPass(s, m1, t);
    RewriteElement(e, Rewrite(r, m1), m2, t);
  }

  /** What the first rewriting leaves at the head is a whole element again. */
  lemma {:induction false} FirstPass(s: string, m: map<string, string>, t: string) returns (e: string)
    requires PlainTag(t) && PlainKeys(m) && MatchLen(s, t) > 0
    ensures var x := Rewrite(s[MatchLen(s, t)..], m); Rewrite(s, m) == e + x && MatchLen(e + x, t) == |e| > 0
    ensures e == if t in m then Elem(t, m[t]) else s[..MatchLen(s, t)]
  {
    hide MatchLen, Rewrite;
    var n := MatchLen(s, t);
    var x := Rewrite(s[n..], m);
    if t in m {
      e := Elem(t, m[t]);
      RewriteHit(s, m, t);
      ElemMatches(t, m[t], x);
    } else {
      e := s[..n];
      RewritePass(s, m, t);
      assert s[..n] + s[n..] == s;
      MatchPrefix(s[..n], s[n..], t);
      MatchExtends(s[..n], x, t);
    }
  }

  /** Rewriting a text that starts with a whole element of t. */
  lemma {:induction false} RewriteElement(e: string, x: string, m: map<string, string>, t: string)
    requires PlainTag(t) && PlainKeys(m) && e != "" && MatchLen(e + x, t) == |e|
    ensures Rewrite(e + x, m) == (if t in m then Elem(t, m[t]) else e) + Rewrite(x, m)
  {
    hide MatchLen, Rewrite;
    assert (e + x)[|e|..] == x && (e + x)[..|e|] == e;
    if t in m { RewriteHit(e + x, m, t); } else { RewritePass(e + x, m, t); }
  }

  lemma {:induction false} FusionMiss(s: string, m1: map<string, string>, m2: map<string, string>)
    requires PlainKeys(m1) && PlainKeys(m2) && s != ""
    requires forall t :: t in m1 + m2 ==> MatchLen(s, t) == 0
    requires Rewrite(Rewrite(s[1..], m1), m2) == Rewrite(s[1..], m1 + m2)
    ensures Rewrite(Rewrite(s, m1), m2) == Rewrite(s, m1 + m2)
  {
    hide MatchLen;
    assert forall u :: u in m1 || u in m2 ==> u in m1 + m2;
    var x := Rewrite(s[1..], m1);
    assert [s[0]] + s[1..] == s;
    forall u | u in m2 ensures MatchLen([s[0]] + x, u) == 0 {
      RewriteStable([s[0]], s[1..], m1, u);
    }
    assert ([s[0]] + x)[1..] == x;
  }

  /** A cut that no match reaches across splits the rewriting. */
  lemma {:induction false} RewriteSplit(a: string, b: string, m: map<string, string>)
    requires PlainKeys(m) && forall t :: t in m ==> NoCross(a, b, t)
    ensures Rewrite(a + b, m) == Rewrite(a, m) + Rewrite(b, m)
  {
    hide MatchLen;
    if a == "" {
      assert a + b == b;
    } else {
      HeadSame(a, b, m);
      if t :| t in m && MatchLen(a, t) > 0 {
        RestNoCross(a, b, m, MatchLen(a, t));
        RewriteSplit(a[MatchLen(a, t)..], b, m);
        SplitHit(a, b, m, t);
      } else {
        assert (a + b)[1..] == a[1..] + b;
        RestNoCross(a, b, m, 1);
        RewriteSplit(a[1..], b, m);
        Assoc([a[0]], Rewrite(a[1..], m), Rewrite(b, m));
      }
    }
  }

  lemma {:induction false} SplitHit(a: string, b: string, m: map<string, string>, t: string)
    requires PlainKeys(m) && t in m && MatchLen(a + b, t) == MatchLen(a, t) > 0
    requires var r := a[MatchLen(a, t)..]; Rewrite(r + b, m) == Rewrite(r, m) + Rewrite(b, m)
    ensures Rewrite(a + b, m) == Rewrite(a, m) + Rewrite(b, m)
  {
    hide MatchLen, Rewrite;
    var n := MatchLen(a, t);
    RewriteHitAs(a, m, t, a[n..]);
    DropFirst(a, b, n);
    RewriteHitAs(a + b, m, t, a[n..] + b);
    Prepend(Elem(t, m[t]), Rewrite(a[n..], m), Rewrite(b, m), Rewrite(a, m), Rewrite(a + b, m));
  }

  lemma RewriteHitAs(s: string, m: map<string, string>, t: string, rest: string)
    requires PlainKeys(m) && t in m && MatchLen(s, t) > 0 && rest == s[MatchLen(s, t)..]
    ensures Rewrite(s, m) == Elem(t, m[t]) + Rewrite(rest, m)
  {
    hide MatchLen, Rewrite;
    RewriteHit(s, m, t);
  }

  lemma DropFirst(a: string, b: string, n: nat)
    requires n <= |a|
    ensures (a + b)[n..] == a[n..] + b
  {
  }

  lemma Prepend(e: string, x: string, y: string, ex: string, exy: string)
    requires ex == e + x && exy == e + (x + y)
    ensures exy == ex + y
  {
  }

  lemma Assoc<T>(a: seq<T>, b: seq<T>, c: seq<T>)
    ensures a + (b + c) == (a + b) + c
  {
  }

  lemma HeadSame(a: string, b: string, m: map<string, string>)
    requires a != "" && forall t :: t in m ==> NoCross(a, b, t)
    ensures forall t :: t in m ==> MatchLen(a + b, t) == MatchLen(a, t)
  {
    hide MatchLen;
    assert a[0..] == a;
  }

  lemma RestNoCross(a: string, b: string, m: map<string, string>, n: nat)
    requires n <= |a| && forall t :: t in m ==> NoCross(a, b, t)
    ensures forall t :: t in m ==> NoCross(a[n..], b, t)
  {
    hide MatchLen;
    forall t | t in m ensures NoCross(a[n..], b, t) { NoCrossTail(a, b, t, n); }
  }

  lemma NoCrossTail(a: string, b: string, t: string, n: nat)
    requires NoCross(a, b, t) && n <= |a|
    ensures NoCross(a[n..], b, t)
  {
    hide MatchLen;
    forall k | 0 <= k < |a[n..]| ensures MatchLen(a[n..][k..] + b, t) == MatchLen(a[n..][k..], t) {
      assert a[n..][k..] == a[n + k..];
    }
  }

  // ---- the list of matches ---------------------------------------------------------------

  lemma {:induction false} HitsQuiet(x: string, y: string, u: string)
    requires forall k :: 0 <= k < |x| ==> MatchLen(x[k..] + y, u) == 0
    ensures Hits(x + y, u) == Hits(y, u)
  {
    hide MatchLen;
    if x == "" {
      assert x + y == y;
    } else {
      assert x[0..] + y == x + y;
      DropFirst(x, y, 1);
      forall k | 0 <= k < |x[1..]| ensures MatchLen(x[1..][k..] + y, u) == 0 {
        assert x[1..][k..] == x[k + 1..];
      }
      HitsQuiet(x[1..], y, u);
    }
  }

  /** The matches of a text that starts with a whole element of t. */
  lemma {:induction false} HitsElement(e: string, x: string, t: string, u: string)
    requires PlainTag(t) && PlainTag(u) && e != "" && MatchLen(e + x, t) == |e|
    ensures Hits(e + x, u) == (if t == u then [e] else []) + Hits(x, u)
  {
    hide MatchLen;
    assert (e + x)[|e|..] == x && (e + x)[..|e|] == e;
    if t != u {
      forall k | 0 <= k < |e| ensures MatchLen(e[k..] + x, u) == 0 {
        assert (e + x)[k..] == e[k..] + x;
        MatchQuiet(e + x, t, u, k);
      }
      HitsQuiet(e, x, u);
    }
  }

  ghost function Revalued(hits: seq<string>, m: map<string, string>, u: string): seq<string> {
    if u in m then seq(|hits|, _ => Elem(u, m[u])) else hits
  }

  /** Rewriting sets every match of the elements it names and keeps every other element's. */
  lemma {:induction false} HitsRewrite(s: string, m: map<string, string>, u: string)
    requires PlainTag(u) && PlainKeys(m)
    ensures Hits(Rewrite(s, m), u) == Revalued(Hits(s, u), m, u)
  {
    hide MatchLen, Rewrite;
    if s == "" {
      NothingInEmpty(u, m);
    } else {
      if t :| (t in m || t == u) && MatchLen(s, t) > 0 {
        HitsRewrite(s[MatchLen(s, t)..], m, u);
        HitsRewriteHit(s, m, t, u);
      } else {
        var x := Rewrite(s[1..], m);
        RewriteMiss(s, m);
        assert [s[0]] + s[1..] == s;
        RewriteStable([s[0]], s[1..], m, u);
        assert ([s[0]] + x)[1..] == x;
        HitsRewrite(s[1..], m, u);
      }
    }
  }

  lemma {:induction false} HitsRewriteHit(s: string, m: map<string, string>, t: string, u: string)
    requires PlainTag(t) && PlainTag(u) && PlainKeys(m) && (t in m || t == u) && MatchLen(s, t) > 0
    requires var r := s[MatchLen(s, t)..]; Hits(Rewrite(r, m), u) == Revalued(Hits(r, u), m, u)
    ensures Hits(Rewrite(s, m), u) == Revalued(Hits(s, u), m, u)
  {
    hide MatchLen, Rewrite, Hits;
    var r := s[MatchLen(s, t)..];
    var e := FirstPass(s, m, t);
    HitsElement(e, Rewrite(r, m), t, u);
    HitsAt(s, t, u);
    RevaluedCons(if t == u then [s[..MatchLen(s, t)]] else [], Hits(r, u), m, u);
  }

  lemma HitsAt(s: string, t: string, u: string)
    requires PlainTag(t) && PlainTag(u) && MatchLen(s, t) > 0
    ensures Hits(s, u) == (if t == u then [s[..MatchLen(s, t)]] else []) + Hits(s[MatchLen(s, t)..], u)
  {
    hide MatchLen, Hits;
    var n := MatchLen(s, t);
    assert s[..n] + s[n..] == s;
    HitsElement(s[..n], s[n..], t, u);
  }

  lemma RevaluedCons(h: seq<string>, hits: seq<string>, m: map<string, string>, u: string)
    requires |h| <= 1
    ensures Revalued(h + hits, m, u) == Revalued(h, m, u) + Revalued(hits, m, u)
    ensures |h| == 1 && u in m ==> Revalued(h, m, u) == [Elem(u, m[u])]
    ensures h == [] ==> Revalued(h, m, u) == []
  {
    hide Elem;
  }

  lemma {:induction false} RewriteWithoutHits(s: string, t: string, v: string)
    requires Hits(s, t) == []
    ensures Rewrite(s, map[t := v]) == s
  {
    hide MatchLen;
    if s != "" {
      assert MatchLen(s, t) == 0;
      RewriteWithoutHits(s[1..], t, v);
    }
  }

  lemma HitsStep(s: string, u: string)
    requires s != ""
    ensures var n := MatchLen(s, u);
      Hits(s, u) == if n > 0 then [s[..n]] + Hits(s[n..], u) else Hits(s[1..], u)
  {
    hide MatchLen;
  }

  lemma {:induction false} HitsSplit(a: string, b: string, u: string)
    requires NoCross(a, b, u)
    ensures Hits(a + b, u) == Hits(a, u) + Hits(b, u)
  {
    hide MatchLen;
    if a == "" {
      assert a + b == b;
    } else {
      HitsStep(a, u);
      HitsStep(a + b, u);
      hide Hits;
      assert a[0..] == a;
      var n := if MatchLen(a, u) > 0 then MatchLen(a, u) else 1;
      DropFirst(a, b, n);
      NoCrossTail(a, b, u, n);
      HitsSplit(a[n..], b, u);
      assert (a + b)[..n] == a[..n];
      Assoc(if MatchLen(a, u) > 0 then [a[..n]] else [], Hits(a[n..], u), Hits(b, u));
    }
  }

  // ---- the root's closing tag ------------------------------------------------------------

  lemma CloseDistinct(t: string, root: string, s: string)
    requires PlainTag(t) && PlainTag(root) && Close(t) <= s && Close(root) <= s
    ensures t == root
  {
    var c, d := Close(t), Close(root);
    assert forall i :: 0 <= i < |t| ==> c[i + 2] == t[i];
    assert forall i :: 0 <= i < |root| ==> d[i + 2] == root[i];
    assert c[|t| + 2] == d[|root| + 2] == '>';
    assert s[|t| + 2] == '>' && s[|root| + 2] == '>';
    assert |t| == |root|;
    assert t == c[2..2 + |t|] && root == d[2..2 + |root|];
  }

  lemma {:induction false} ClosingStable(a: string, r: string, m: map<string, string>, root: string)
    requires PlainTag(root) && PlainKeys(m) && a != ""
    ensures Close(root) <= a + Rewrite(r, m) <==> Close(root) <= a + r
    decreases |r|
  {
    hide MatchLen, Rewrite;
    if r == "" {
      NothingInEmpty(root, m);
    } else {
      if u :| u in m && MatchLen(r, u) > 0 {
        RewriteHead(r, m, u);
        PrefixStopsAtLt(a, r, root);
        PrefixStopsAtLt(a, Rewrite(r, m), root);
      } else {
        RewriteMiss(r, m);
        ClosingStable(a + [r[0]], r[1..], m, root);
        assert a + r == a + [r[0]] + r[1..];
        assert a + Rewrite(r, m) == a + [r[0]] + Rewrite(r[1..], m);
      }
    }
  }

  lemma PrefixStopsAtLt(a: string, b: string, root: string)
    requires PlainTag(root) && a != "" && b != "" && b[0] == '<'
    ensures Close(root) <= a + b <==> Close(root) <= a
  {
    var c := Close(root);
    OneLtParts(root, "");
    assert (a + b)[|a|] == '<';
    assert forall k :: 1 <= k < |c| ==> c[k] == c[1..][k - 1] != '<';
  }

  /** An element other than the root, or the text around an inserted one, hides no root tag. */
  lemma ElemHidesNoRoot(t: string, v: string, x: string, root: string)
    requires PlainTag(t) && PlainTag(root) && t != root && LastIndex(x, Close(root)) < 0
    ensures LastIndex(Elem(t, v) + x, Close(root)) < 0
  {
    hide MatchLen, LastIndex;
    var e, c, front := Elem(t, v), Close(root), Open(t) + XmlEscape(v);
    OneLtParts(t, XmlEscape(v));
    assert front[0] == '<' && front[1] == t[0] && e == front + Close(t);
    assert forall k :: 1 <= k < |front| ==> front[k] == front[1..][k - 1] != '<';
    assert forall k :: 1 <= k < |Close(t)| ==> Close(t)[k] == Close(t)[1..][k - 1] != '<';
    forall j | 0 <= j <= |e + x| ensures !(c <= (e + x)[j..]) {
      var tail := (e + x)[j..];
      assert c[0] == '<' && c[1] == '/';
      if j < |front| {
        assert tail[0] == front[j];
        assert j == 0 ==> tail[1] == front[1];
      } else if j < |e| {
        assert tail[0] == Close(t)[j - |front|];
        if j == |front| {
          assert tail == Close(t) + x;
          if c <= tail { CloseDistinct(t, root, tail); }
        }
      } else {
        assert tail == x[j - |e|..];
      }
    }
  }

  lemma {:induction false} RootAbsent(s: string, m: map<string, string>, root: string)
    requires PlainTag(root) && PlainKeys(m) && root !in m && LastIndex(s, Close(root)) < 0
    ensures LastIndex(Rewrite(s, m), Close(root)) < 0
  {
    hide MatchLen, Rewrite;
    if s == "" {
      NothingInEmpty(root, m);
    } else {
      assert forall k :: 0 <= k <= |s| ==> !(Close(root) <= s[k..]);
      if t :| t in m && MatchLen(s, t) > 0 {
        var n := MatchLen(s, t);
        LaterAbsent(s, Close(root), n);
        RootAbsent(s[n..], m, root);
        RewriteHit(s, m, t);
        ElemHidesNoRoot(t, m[t], Rewrite(s[n..], m), root);
      } else {
        LaterAbsent(s, Close(root), 1);
        RootAbsent(s[1..], m, root);
        ClosingStable([s[0]], s[1..], m, root);
        var x := Rewrite(s[1..], m);
        RewriteMiss(s, m);
        assert [s[0]] + s[1..] == s && s[0..] == s;
        assert ([s[0]] + x)[1..] == x;
      }
    }
  }

  lemma LaterAbsent(s: string, p: string, n: nat)
    requires p != "" && n <= |s| && LastIndex(s, p) < n
    ensures LastIndex(s[n..], p) < 0
  {
    hide LastIndex;
    var r := LastIndex(s[n..], p);
    if r >= 0 { assert s[n..][r..] == s[n + r..]; }
  }

  /** The last root tag of x + y is y's first, when y starts with one and has no other. */
  lemma LastAt(x: string, y: string, p: string)
    requires p != "" && p <= y && LastIndex(y[1..], p) < 0
    ensures LastIndex(x + y, p) == |x|
  {
    hide LastIndex;
    var r := LastIndex(x + y, p);
    assert (x + y)[|x|..] == y;
    assert forall j :: |x| < j <= |x + y| ==> (x + y)[j..] == y[1..][j - |x| - 1..];
  }

  /** Rewriting works on both sides of the last root tag, which stays the last. */
  lemma {:induction false} RootSplit(s: string, m: map<string, string>, root: string)
    requires PlainTag(root) && PlainKeys(m) && root !in m && LastIndex(s, Close(root)) >= 0
    ensures var i := LastIndex(s, Close(root));
            && Rewrite(s, m) == Rewrite(s[..i], m) + Rewrite(s[i..], m)
            && Close(root) <= Rewrite(s[i..], m)
            && LastIndex(Rewrite(s[i..], m)[1..], Close(root)) < 0
  {
    hide Rewrite, MatchLen, LastIndex;
    var p := Close(root);
    var i := LastIndex(s, p);
    var a, b := s[..i], s[i..];
    forall t | t in m ensures NoCross(a, b, t) && MatchLen(b, t) == 0 {
      if Close(t) <= b { CloseDistinct(t, root, b); }
      NoCrossLt(a, b, t);
      ClosingIsNoMatch(b, root, t);
    }
    RewriteSplit(a, b, m);
    assert a + b == s;
    LaterAbsent(s, p, i + 1);
    assert b[1..] == s[i + 1..];
    RootAbsent(b[1..], m, root);
    RewriteMiss(b, m);
    assert [b[0]] + b[1..] == b;
    ClosingStable([b[0]], b[1..], m, root);
  }
}
