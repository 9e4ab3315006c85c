/**
 * The `.env` printer and parser (cmd/pelicula/env.go), character by character.
 *
 * The printer's text is described by a list of entries, notes and bindings. The wording of the
 * comments is a parameter: everything holds for every layout whose notes are single lines.
 */
module EnvFile {
  import opened Prelude
  import opened Text

  type EnvMap = map<string, string>

  function Get(m: EnvMap, k: string): string { if k in m then m[k] else "" }

  // ---- parsing ---------------------------------------------------------------------------

  function Without(s: string, c: char): (r: string)
    ensures c !in r
    ensures forall d :: d in r ==> d in s
    ensures c !in s ==> r == s
  {
    if s == "" then ""
    else
      assert s == [s[0]] + s[1..];
      if s[0] == c then Without(s[1..], c) else [s[0]] + Without(s[1..], c)
  }

  /** `sanitizeEnvValue`. */
  function Sanitize(v: string): (r: string)
    ensures '"' !in r && '\n' !in r && '\r' !in r
    ensures '"' !in v && '\n' !in v && '\r' !in v ==> r == v
  {
    Without(Without(Without(v, '"'), '\n'), '\r')
  }

  /** Exactly the quotation marks and line breaks go; the other characters stay, in order. */
  lemma SanitizeSays(a: string, c: char, b: string)
    ensures Sanitize(a + [c] + b) == Sanitize(a) + (if c in {'"', '\n', '\r'} then "" else [c]) + Sanitize(b)
    ensures Sanitize("") == ""
  {
    hide Without;
    WithoutOne(a, c, b, '"');
    var a1, b1 := Without(a, '"'), Without(b, '"');
    if c == '"' {
      assert a1 + "" + b1 == a1 + b1;
      WithoutAppend(a1, b1, '\n');
      WithoutAppend(Without(a1, '\n'), Without(b1, '\n'), '\r');
    } else {
      WithoutOne(a1, c, b1, '\n');
      var a2, b2 := Without(a1, '\n'), Without(b1, '\n');
      if c == '\n' {
        assert a2 + "" + b2 == a2 + b2;
        WithoutAppend(a2, b2, '\r');
      } else {
        WithoutOne(a2, c, b2, '\r');
      }
    }
    WithoutNothing();
  }

  lemma WithoutNothing()
    ensures Without("", '"') == "" && Without("", '\n') == "" && Without("", '\r') == ""
  {
  }

  lemma {:induction false} WithoutAppend(a: string, b: string, x: char)
    ensures Without(a + b, x) == Without(a, x) + Without(b, x)
  {
    if a == "" {
      assert a + b == b;
    } else {
      assert (a + b)[1..] == a[1..] + b;
      WithoutAppend(a[1..], b, x);
    }
  }

  lemma WithoutOne(a: string, c: char, b: string, x: char)
    ensures Without(a + [c] + b, x) == Without(a, x) + (if c == x then "" else [c]) + Without(b, x)
  {
    assert [c][1..] == "";
    WithoutAppend(a + [c], b, x);
    WithoutAppend(a, [c], x);
  }

  /** Index of the first " #", or -1. */
  function IndexComment(s: string): (r: int)
    ensures -1 <= r <= |s|
  {
    if s == "" then -1
    else if " #" <= s then 0
    else
      var r := IndexComment(s[1..]);
      if r < 0 then -1 else r + 1
  }

  function ParseValue(val: string): string {
    if |val| >= 2 && (val[0] == '"' || val[0] == '\'') && val[|val| - 1] == val[0] then val[1..|val| - 1]
    else
      var i := IndexComment(val);
      if i >= 0 then Trim(val[..i]) else val
  }

  const EXPORT := "export "

  /** What one line binds. */
  function ParseLine(text: string): Option<(string, string)> {
    var line := Trim(text);
    if line == "" || line[0] == '#' then None
    else
      var idx := IndexChar(line, '=');
      if idx < 0 then None
      else
        var name := Trim(line[..idx]);
        var key := if EXPORT <= name then name[|EXPORT|..] else name;
        Some((Trim(key), ParseValue(Trim(line[idx + 1..]))))
  }

  /** Bytes of a character in UTF-8 (section 3 of RFC 3629). */
  function Utf8Width(c: char): nat {
    if c < '\U{80}' then 1 else if c < '\U{800}' then 2 else if c < '\U{10000}' then 3 else 4
  }

  function Utf8Len(s: string): nat {
    if s == "" then 0 else Utf8Width(s[0]) + Utf8Len(s[1..])
  }

  /** The longest line, in bytes, that fits `bufio.Scanner`'s 64 KiB buffer together with its line break. */
  const MAX_LINE := 65535

  function DropCr(s: string): string {
    if s != "" && s[|s| - 1] == '\r' then s[..|s| - 1] else s
  }

  /** The lines `bufio.Scanner` delivers, before the carriage return is dropped: no empty last line. */
  function Tokens(text: string): seq<string> {
    var ls := Lines(text);
    if ls[|ls| - 1] == "" then ls[..|ls| - 1] else ls
  }

  /** `ParseEnv`'s two results; tooLong stands for the scanner's error. */
  datatype Parsed = Parsed(env: EnvMap, tooLong: bool)

  function Bind(env: EnvMap, token: string): EnvMap {
    match ParseLine(DropCr(token))
    case None => env
    case Some((k, v)) => env[k := v]
  }

  function ParseTokens(tokens: seq<string>, env: EnvMap): Parsed {
    if tokens == [] then Parsed(env, false)
    else if Utf8Len(tokens[0]) > MAX_LINE then Parsed(env, true)
    else ParseTokens(tokens[1..], Bind(env, tokens[0]))
  }

  function Parse(text: string): Parsed { ParseTokens(Tokens(text), map[]) }

  /** `ParseEnv` on the file's content. */
  method ParseEnv(text: string) returns (r: Parsed)
    ensures r == Parse(text)
  {
    var env: EnvMap := map[];
    var tokens := Tokens(text);
    for i := 0 to |tokens|
      invariant ParseTokens(tokens[i..], env) == Parse(text)
    {
      assert tokens[i..][1..] == tokens[i + 1..];
      if Utf8Len(tokens[i]) > MAX_LINE { return Parsed(env, true); }
      var line := Trim(DropCr(tokens[i]));
      if line == "" || line[0] == '#' { continue; }
      var idx := IndexChar(line, '=');
      if idx < 0 { continue; }
      var key := Trim(line[..idx]);
      if EXPORT <= key {
        key := key[|EXPORT|..];
      }
      env := env[Trim(key) := ParseValue(Trim(line[idx + 1..]))];
    }
    r := Parsed(env, false);
  }

  // ---- printing --------------------------------------------------------------------------

  datatype Section = Section(title: string, comments: seq<string>, keys: seq<string>)

  /** `envHeader`, `envLayout` and `optionalEnvKeys`. */
  datatype Layout = Layout(header: seq<string>, sections: seq<Section>, optional: map<string, string>)

  function Rule(n: nat): string { if n == 0 then "" else "─" + Rule(n - 1) }

  /** `sectionRule`: the divider is padded to 80 columns and has at least three dashes. */
  function SectionRule(title: string): string {
    var prefix := "# ── " + title + " ";
    prefix + Rule(if |prefix| <= 77 then 80 - |prefix| else 3)
  }

  datatype Entry = Note(text: string) | Binding(key: string)

  function BindingText(k: string, v: string): string { k + "=\"" + v + "\"" }

  function EntryText(m: EnvMap, e: Entry): string {
    match e
    case Note(text) => text
    case Binding(k) => BindingText(k, Sanitize(Get(m, k)))
  }

  function KeyEntry(m: EnvMap, k: string, optional: map<string, string>): Entry {
    if k in optional && Get(m, k) == "" then Note("# " + k + "=" + optional[k]) else Binding(k)
  }

  function KeyEntries(m: EnvMap, keys: seq<string>, optional: map<string, string>): seq<Entry> {
    seq(|keys|, i requires 0 <= i < |keys| => KeyEntry(m, keys[i], optional))
  }

  function Notes(texts: seq<string>): seq<Entry> { seq(|texts|, i requires 0 <= i < |texts| => Note(texts[i])) }

  function Comments(s: Section): seq<Entry> {
    seq(|s.comments|, i requires 0 <= i < |s.comments| => Note("# " + s.comments[i]))
  }

  function SectionEntries(m: EnvMap, s: Section, optional: map<string, string>): seq<Entry> {
    [Note(""), Note(SectionRule(s.title))] + Comments(s) + KeyEntries(m, s.keys, optional)
  }

  function SectionsEntries(m: EnvMap, ss: seq<Section>, optional: map<string, string>): seq<Entry> {
    if ss == [] then []
    else SectionsEntries(m, ss[..|ss| - 1], optional) + SectionEntries(m, ss[|ss| - 1], optional)
  }

  function Elems(keys: seq<string>): set<string> { set k | k in keys }

  function KeysOf(ss: seq<Section>): set<string> {
    if ss == [] then {} else KeysOf(ss[..|ss| - 1]) + Elems(ss[|ss| - 1].keys)
  }

  function Bindings(keys: seq<string>): seq<Entry> {
    seq(|keys|, i requires 0 <= i < |keys| => Binding(keys[i]))
  }

  ghost function ExtraEntries(extra: set<string>): seq<Entry> {
    if extra == {} then [] else [Note(""), Note(SectionRule("Other"))] + Bindings(Sorted(extra))
  }

  ghost function Entries(m: EnvMap, l: Layout): seq<Entry> {
    Notes(l.header) + SectionsEntries(m, l.sections, l.optional) + ExtraEntries(m.Keys - KeysOf(l.sections))
  }

  function TextOf(m: EnvMap, es: seq<Entry>): string {
    if es == [] then "" else TextOf(m, es[..|es| - 1]) + EntryText(m, es[|es| - 1]) + "\n"
  }

  ghost function Render(m: EnvMap, l: Layout): string { TextOf(m, Entries(m, l)) }

  // ---- sorting the extra keys ------------------------------------------------------------

  ghost predicate IsLeast(k: string, s: set<string>) { k in s && forall j :: j in s ==> StrLe(k, j) }

  lemma LeastExists(s: set<string>)
    requires s != {}
    ensures exists k :: IsLeast(k, s)
  {
    var k :| k in s;
    var rest := s - {k};
    StrLeOrder(k, k);
    assert s == rest + {k};
    if rest != {} {
      LeastExists(rest);
      var j :| IsLeast(j, rest);
      StrLeOrder(j, k);
      if !StrLe(j, k) {
        forall i | i in rest ensures StrLe(k, i) { StrLeTransitive(k, j, i); }
      }
      assert IsLeast(if StrLe(j, k) then j else k, s);
    } else {
      assert IsLeast(k, s);
    }
  }

  ghost function Least(s: set<string>): (k: string)
    requires s != {}
    ensures IsLeast(k, s)
  {
    LeastExists(s);
    var k :| IsLeast(k, s);
    k
  }

  /** The elements in ascending order. */
  ghost function Sorted(s: set<string>): (r: seq<string>)
    ensures forall k :: k in r <==> k in s
    ensures |r| == |s|
  {
    if s == {} then [] else [Least(s)] + Sorted(s - {Least(s)})
  }

  lemma LeastUnique(s: set<string>, k: string)
    requires IsLeast(k, s)
    ensures Least(s) == k
  {
    StrLeOrder(k, Least(s));
  }

  /** The result of sorting is in ascending order, without repetition. */
  lemma {:induction false} SortedAscends(s: set<string>, i: nat, j: nat)
    requires i < j < |Sorted(s)|
    ensures StrLe(Sorted(s)[i], Sorted(s)[j]) && Sorted(s)[i] != Sorted(s)[j]
  {
    hide StrLe;
    var rest := s - {Least(s)};
    var tail := Sorted(rest);
    assert tail[j - 1] in tail;
    if i > 0 { SortedAscends(rest, i - 1, j - 1); }
  }

  lemma Push(m: EnvMap, es: seq<Entry>, e: Entry)
    ensures TextOf(m, es + [e]) == TextOf(m, es) + EntryText(m, e) + "\n"
  {
    assert (es + [e])[..|es|] == es;
  }

  lemma {:induction false} TextOfAppend(m: EnvMap, a: seq<Entry>, b: seq<Entry>)
    ensures TextOf(m, a + b) == TextOf(m, a) + TextOf(m, b)
  {
    hide EntryText, TextOf;
    if b == [] {
      NoText(m);
      assert a + b == a;
    } else {
      var init, last := b[..|b| - 1], b[|b| - 1];
      TextOfAppend(m, a, init);
      Push(m, a + init, last);
      Push(m, init, last);
      assert a + b == a + init + [last] && b == init + [last];
    }
  }

  lemma SortedStep(s: set<string>)
    requires s != {}
    ensures Sorted(s) == [Least(s)] + Sorted(s - {Least(s)})
  {
  }

  lemma NothingSorted()
    ensures Sorted({}) == []
  {
  }

  /** `sort.Strings` on the keys outside the layout. */
  method SortKeys(keys: set<string>) returns (extra: seq<string>)
    ensures extra == Sorted(keys)
  {
    hide StrLe, Sorted, Least;
    NothingSorted();
    extra := [];
    var rest := keys;
    while rest != {}
      invariant extra + Sorted(rest) == Sorted(keys)
      decreases |rest|
    {
      LeastExists(rest);
      var k :| k in rest && forall j :: j in rest ==> StrLe(k, j);
      LeastUnique(rest, k);
      SortedStep(rest);
      assert extra + ([k] + Sorted(rest - {k})) == extra + [k] + Sorted(rest - {k});
      extra, rest := extra + [k], rest - {k};
    }
  }

  /** `renderEnv`: a builder filled section by section. */
  method RenderEnv(m: EnvMap, l: Layout) returns (b: string)
    ensures b == Render(m, l)
  {
    hide TextOf, EntryText, SectionRule, SectionsEntries, Sorted, KeysOf, Notes, Bindings;
    b := RenderHeader(m, l.header);
    var sections, known := RenderSections(m, l.sections, l.optional);
    b := b + sections;
    var extra := SortKeys(m.Keys - known);
    SortedSize(m.Keys - known);
    var other := "";
    if |extra| > 0 {
      other := RenderExtra(m, extra);
    }
    b := b + other;
    NoText(m);
    var es := ExtraEntries(m.Keys - known);
    TextOfAppend(m, Notes(l.header), SectionsEntries(m, l.sections, l.optional));
    TextOfAppend(m, Notes(l.header) + SectionsEntries(m, l.sections, l.optional), es);
  }

  method RenderSections(m: EnvMap, ss: seq<Section>, optional: map<string, string>)
      returns (b: string, known: set<string>)
    ensures b == TextOf(m, SectionsEntries(m, ss, optional))
    ensures known == KeysOf(ss)
  {
    hide TextOf, EntryText, SectionEntries, SectionsEntries, KeysOf;
    NoText(m);
    NoSections(m, optional);
    b, known := "", {};
    for i := 0 to |ss|
      invariant b == TextOf(m, SectionsEntries(m, ss[..i], optional))
      invariant known == KeysOf(ss[..i])
    {
      var text := RenderSection(m, ss[i], optional);
      SectionsStep(m, ss, i, optional);
      TextOfAppend(m, SectionsEntries(m, ss[..i], optional), SectionEntries(m, ss[i], optional));
      b := b + text;
      known := known + Elems(ss[i].keys);
    }
    assert ss[..|ss|] == ss;
  }

  lemma NoSections(m: EnvMap, optional: map<string, string>)
    ensures SectionsEntries(m, [], optional) == [] && KeysOf([]) == {}
  {
  }

  lemma SectionsStep(m: EnvMap, ss: seq<Section>, i: nat, optional: map<string, string>)
    requires i < |ss|
    ensures SectionsEntries(m, ss[..i + 1], optional) == SectionsEntries(m, ss[..i], optional)
        + SectionEntries(m, ss[i], optional)
    ensures KeysOf(ss[..i + 1]) == KeysOf(ss[..i]) + Elems(ss[i].keys)
  {
    hide SectionEntries, Elems;
    assert ss[..i + 1][..i] == ss[..i];
  }

  method RenderHeader(m: EnvMap, header: seq<string>) returns (b: string)
    ensures b == TextOf(m, Notes(header))
  {
    hide TextOf, EntryText;
    NoText(m);
    b := "";
    ghost var es: seq<Entry> := [];
    for i := 0 to |header|
      invariant es == Notes(header)[..i]
      invariant b == TextOf(m, es)
    {
      Push(m, es, Note(header[i]));
      NoteText(m, header[i]);
      es := es + [Note(header[i])];
      b := b + header[i] + "\n";
    }
    assert es == Notes(header);
  }

  lemma SortedSize(s: set<string>)
    ensures |Sorted(s)| == 0 <==> s == {}
  {
  }

  method RenderSection(m: EnvMap, s: Section, optional: map<string, string>) returns (b: string)
    ensures b == TextOf(m, SectionEntries(m, s, optional))
  {
    hide TextOf, EntryText, SectionRule, KeyEntries;
    b := "\n" + SectionRule(s.title) + "\n";
    ghost var es := [Note(""), Note(SectionRule(s.title))];
    TwoNotes(m, SectionRule(s.title));
    for i := 0 to |s.comments|
      invariant es == [Note(""), Note(SectionRule(s.title))] + Comments(s)[..i]
      invariant b == TextOf(m, es)
    {
      b := b + ("# " + s.comments[i]) + "\n";
      Push(m, es, Note("# " + s.comments[i]));
      NoteText(m, "# " + s.comments[i]);
      es := es + [Note("# " + s.comments[i])];
    }
    assert es == [Note(""), Note(SectionRule(s.title))] + Comments(s);
    var keys := RenderKeys(m, s.keys, optional);
    TextOfAppend(m, es, KeyEntries(m, s.keys, optional));
    b := b + keys;
  }

  method RenderKeys(m: EnvMap, keys: seq<string>, optional: map<string, string>) returns (b: string)
    ensures b == TextOf(m, KeyEntries(m, keys, optional))
  {
    hide TextOf, EntryText, Sanitize, KeyEntry, BindingText, Get;
    NoText(m);
    b := "";
    for i := 0 to |keys|
      invariant b == TextOf(m, KeyEntries(m, keys, optional)[..i])
    {
      var k := keys[i];
      var v := Get(m, k);
      KeyLineText(m, k, optional);
      Push(m, KeyEntries(m, keys, optional)[..i], KeyEntry(m, k, optional));
      assert KeyEntries(m, keys, optional)[..i + 1] == KeyEntries(m, keys, optional)[..i] + [KeyEntry(m, k, optional)];
      if k in optional && v == "" {
        b := b + ("# " + k + "=" + optional[k]) + "\n";
        continue;
      }
      b := b + BindingText(k, Sanitize(v)) + "\n";
    }
    assert KeyEntries(m, keys, optional)[..|keys|] == KeyEntries(m, keys, optional);
  }

  method RenderExtra(m: EnvMap, extra: seq<string>) returns (b: string)
    ensures b == TextOf(m, [Note(""), Note(SectionRule("Other"))] + Bindings(extra))
  {
    hide TextOf, SectionRule, Sanitize;
    b := "\n" + SectionRule("Other") + "\n";
    ghost var es := [Note(""), Note(SectionRule("Other"))];
    TwoNotes(m, SectionRule("Other"));
    for i := 0 to |extra|
      invariant es == [Note(""), Note(SectionRule("Other"))] + Bindings(extra)[..i]
      invariant b == TextOf(m, es)
    {
      Push(m, es, Binding(extra[i]));
      es := es + [Binding(extra[i])];
      b := b + BindingText(extra[i], Sanitize(Get(m, extra[i]))) + "\n";
    }
    assert es == [Note(""), Note(SectionRule("Other"))] + Bindings(extra);
  }

  lemma NoText(m: EnvMap)
    ensures TextOf(m, []) == ""
  {
  }

  lemma NoteText(m: EnvMap, text: string)
    ensures EntryText(m, Note(text)) == text
  {
  }

  lemma KeyLineText(m: EnvMap, k: string, optional: map<string, string>)
    ensures EntryText(m, KeyEntry(m, k, optional))
         == if k in optional && Get(m, k) == "" then "# " + k + "=" + optional[k]
             else BindingText(k, Sanitize(Get(m, k)))
  {
  }

  lemma TwoNotes(m: EnvMap, text: string)
    ensures TextOf(m, [Note(""), Note(text)]) == "\n" + text + "\n"
  {
    hide TextOf;
    NoText(m);
    Push(m, [], Note(""));
    Push(m, [Note("")], Note(text));
    assert [] + [Note("")] == [Note("")] && [Note("")] + [Note(text)] == [Note(""), Note(text)];
  }

  // ---- one line --------------------------------------------------------------------------

  /** A name on one line, with no `=` and no white space around it. */
  predicate TameKey(k: string) { '=' !in k && '\n' !in k && Trim(k) == k }

  /** A name the parser gives back as it was written. */
  predicate PlainKey(k: string) { TameKey(k) && !("#" <= k) && !(EXPORT <= k) }

  /** The name that is read where the tame name k was printed; None when the line is a comment. */
  function KeyRead(k: string): (r: Option<string>)
    ensures TameKey(k) ==> (PlainKey(k) <==> r == Some(k))
    ensures r.Some? && r.value != k ==> |r.value| < |k|
  {
    if "#" <= k then None
    else if EXPORT <= k then Some(Trim(k[|EXPORT|..]))
    else Some(k)
  }

  predicate Silent(text: string) { '\n' !in text && (text == "" || text[0] == '#') }

  lemma SilentLine(text: string)
    requires Silent(text)
    ensures ParseLine(DropCr(text)) == None
  {
    hide Trim, ParseValue;
    assert !IsSpace('#');
    var line := DropCr(text);
    if line == "" { TrimFixed(""); } else { TrimKeepsHead(line); }
  }

  lemma QuotedValue(v: string)
    ensures Trim("\"" + v + "\"") == "\"" + v + "\"" && ParseValue("\"" + v + "\"") == v
  {
    assert !IsSpace('"');
    TrimFixed("\"" + v + "\"");
    assert ("\"" + v + "\"")[1..|v| + 1] == v;
  }

  lemma FirstEquals(k: string, rest: string)
    requires '=' !in k
    ensures IndexChar(k + "=" + rest, '=') == |k|
  {
    var s := k + "=" + rest;
    var i := IndexChar(s, '=');
    assert s[|k|] == '=';
    assert forall j :: 0 <= j < |k| ==> s[j] == k[j] && s[j] != '=';
    assert forall j :: 0 <= j < i ==> s[j] in s[..i];
  }

  /** The trimmed line is cut at its first `=`, and both parts are trimmed again. */
  lemma CutAtEquals(left: string, right: string)
    requires '=' !in left && Trim(left) != ""
    ensures var line := Trim(left + "=" + right);
      var idx := IndexChar(line, '=');
      && line != "" && line[0] == Trim(left)[0]
      && idx >= 0 && Trim(line[..idx]) == Trim(left) && Trim(line[idx + 1..]) == Trim(right)
  {
    hide Trim, IsSpace;
    var name, val := Trim(left), Trim(right);
    var a, b := TrimParts(left);
    var c, d := TrimParts(right);
    TrimIdempotent(left);
    TrimIdempotent(right);
    TrimFixed(name);
    TrimFixed(val);
    assert '=' !in name + b by { assert forall x :: x in name + b ==> x in left; }
    var tail := if val == "" then "" else c + val;
    assert left + "=" + right == a + (name + b + "=" + tail) + (if val == "" then right else d) by {
      if val == "" { assert left + "=" + right == a + (name + b + "=") + right; }
    }
    TrimOfRight(c, val, d, right);
    TrimWhole(a, name, b, tail, if val == "" then right else d);
    FirstEquals(name + b, tail);
    var line := name + b + "=" + tail;
    assert line[..|name + b|] == name + b && line[|name + b| + 1..] == tail;
    TrimIs("", name, b);
    assert "" + name + b == name + b;
  }

  /** What is left of the right part once the line is trimmed. */
  lemma TrimOfRight(c: string, val: string, d: string, right: string)
    requires Blank(c) && Blank(d) && right == c + val + d && Trim(right) == val
    ensures val == "" ==> Blank(right)
    ensures Trim(if val == "" then "" else c + val) == val
  {
    if val != "" {
      TrimIs(c, val, "");
      assert c + val + "" == c + val;
    }
  }

  lemma TrimWhole(a: string, name: string, b: string, tail: string, d: string)
    requires Blank(a) && Blank(d) && name != "" && Trim(name) == name
    requires tail != "" ==> !IsSpace(tail[|tail| - 1])
    ensures Trim(a + (name + b + "=" + tail) + d) == name + b + "=" + tail
  {
    hide Trim, Blank;
    var s := name + b + "=" + tail;
    TrimFixed(name);
    assert s[0] == name[0] && s[|s| - 1] == if tail == "" then '=' else tail[|tail| - 1];
    assert !IsSpace('=');
    hide IsSpace;
    TrimIs(a, s, d);
  }

  lemma LineParts(left: string, right: string)
    requires '=' !in left && Trim(left) != "" && Trim(left)[0] != '#'
    ensures var name := Trim(left);
      ParseLine(left + "=" + right)
      == Some((if EXPORT <= name then Trim(name[|EXPORT|..]) else name, ParseValue(Trim(right))))
  {
    hide ParseValue, Trim;
    CutAtEquals(left, right);
    TrimIdempotent(left);
  }

  /** A printed binding has nothing to trim. */
  lemma BindingTrimmed(k: string, v: string)
    requires Trim(k) == k
    ensures Trim(BindingText(k, v)) == BindingText(k, v) && DropCr(BindingText(k, v)) == BindingText(k, v)
  {
    hide Trim;
    var s := BindingText(k, v);
    TrimFixed(k);
    TrimFixed(s);
    assert s[|s| - 1] == '"' && !IsSpace('"') && !IsSpace('=');
    assert s[0] == if k == "" then '=' else k[0];
  }

  lemma BindingParses(k: string, v: string)
    requires TameKey(k)
    ensures ParseLine(DropCr(BindingText(k, v)))
        == match KeyRead(k) case None => None case Some(name) => Some((name, v))
  {
    hide Trim, ParseValue;
    var s := BindingText(k, v);
    BindingTrimmed(k, v);
    var quoted := "\"" + v + "\"";
    assert s == k + "=" + quoted;
    FirstEquals(k, quoted);
    assert s[..|k|] == k && s[|k| + 1..] == quoted;
    QuotedValue(v);
    assert s[0] == if k == "" then '=' else k[0];
    assert "#" <= k <==> k != "" && k[0] == '#';
    assert EXPORT <= k ==> k[0] == 'e';
    KeptName(k);
  }

  lemma KeptName(k: string)
    requires TameKey(k)
    ensures Trim(k) == k
  {
  }

  /** What one line binds is always a tame name. */
  lemma ReadNameTame(text: string)
    requires '\n' !in text && ParseLine(text).Some?
    ensures TameKey(ParseLine(text).value.0)
  {
    hide Trim, ParseValue;
    var line := Trim(text);
    TrimmedSub(text, '\n');
    var idx := IndexChar(line, '=');
    var name := Trim(line[..idx]);
    var key := if EXPORT <= name then name[|EXPORT|..] else name;
    TrimmedSub(line[..idx], '=');
    TrimmedSub(line[..idx], '\n');
    assert '=' !in key && '\n' !in key;
    TrimmedSub(key, '=');
    TrimmedSub(key, '\n');
    TrimIdempotent(key);
  }

  lemma OneBinding(k: string, v: string)
    requires '\n' !in k && '\n' !in v && Utf8Len(BindingText(k, v)) <= MAX_LINE
    ensures Parse(BindingText(k, v) + "\n") == Parsed(Bind(map[], BindingText(k, v)), false)
  {
    var text := BindingText(k, v);
    assert '\n' !in text;
    hide Bind, Utf8Len, Lines, BindingText;
    LinesCons(text, "");
    EmptyLine();
    assert text + "\n" + "" == text + "\n";
    var ls := Lines(text + "\n");
    assert ls == [text, ""] && ls[..1] == [text];
    assert [text][1..] == [];
    assert ParseTokens([text], map[]) == ParseTokens([], Bind(map[], text));
  }

  /** MAIN: exactly the plain names survive printing and parsing. */
  lemma PlainKeyExact(k: string, v: string)
    requires '\n' !in v && Utf8Len(BindingText(k, v)) <= MAX_LINE
    ensures Parse(BindingText(k, v) + "\n") == Parsed(map[k := v], false) <==> PlainKey(k)
  {
    hide Parse, ParseLine, Utf8Len, BindingText, Bind, TameKey, PlainKey, KeyRead;
    if TameKey(k) {
      TameOneLine(k);
      OneBinding(k, v);
      BindingParses(k, v);
      OneBound(k, v);
    } else {
      ReadKeysTame(BindingText(k, v) + "\n");
      assert k in map[k := v];
      if PlainKey(k) { PlainIsTame(k); }
    }
  }

  lemma TameOneLine(k: string)
    requires TameKey(k)
    ensures '\n' !in k
  {
  }

  lemma PlainIsTame(k: string)
    requires PlainKey(k)
    ensures TameKey(k)
  {
  }

  lemma OneBound(k: string, v: string)
    requires TameKey(k)
    requires ParseLine(DropCr(BindingText(k, v)))
        == match KeyRead(k) case None => None case Some(name) => Some((name, v))
    ensures Bind(map[], BindingText(k, v)) == map[k := v] <==> PlainKey(k)
  {
    hide ParseLine, TameKey, PlainKey;
    var none: EnvMap := map[];
    match KeyRead(k)
    case None => assert none != map[k := v] by { assert k in map[k := v]; }
    case Some(name) =>
      var read: EnvMap := map[name := v];
      assert none[name := v] == read;
      assert name in read && (k in read <==> name == k);
  }

  lemma TrimIdempotent(s: string)
    ensures Trim(Trim(s)) == Trim(s)
  {
    TrimFixed(Trim(s));
  }

  lemma TrimmedSub(s: string, c: char)
    requires c !in s
    ensures c !in Trim(s)
  {
    var l := TrimLeft(s);
    assert forall i :: 0 <= i < |l| ==> l[i] in s;
    var r := TrimRight(l);
    assert forall i :: 0 <= i < |r| ==> r[i] == l[i];
  }

  // ---- the whole file --------------------------------------------------------------------

  predicate NoteOk(text: string) { Silent(text) && Utf8Len(text) <= MAX_LINE }

  /** What every layout in the program satisfies: single-line notes, plain keys. */
  ghost predicate GoodLayout(l: Layout) {
    && (forall i :: 0 <= i < |l.header| ==> NoteOk(l.header[i]))
    && (forall i :: 0 <= i < |l.sections| ==> GoodSection(l.sections[i]))
    && (forall k :: k in l.optional ==> k in KeysOf(l.sections) && NoteOk("# " + k + "=" + l.optional[k]))
    && NoteOk(SectionRule("Other"))
  }

  ghost predicate GoodSection(s: Section) {
    && NoteOk(SectionRule(s.title))
    && (forall i :: 0 <= i < |s.comments| ==> NoteOk("# " + s.comments[i]))
    && (forall i :: 0 <= i < |s.keys| ==> PlainKey(s.keys[i]))
  }

  ghost predicate PlainKeys(m: EnvMap) { forall k :: k in m ==> PlainKey(k) }

  ghost predicate TameKeys(m: EnvMap) { forall k :: k in m ==> TameKey(k) }

  ghost predicate GoodEntry(e: Entry) {
    match e
    case Note(text) => NoteOk(text)
    case Binding(k) => TameKey(k)
  }

  ghost predicate GoodEntries(es: seq<Entry>) { forall i :: 0 <= i < |es| ==> GoodEntry(es[i]) }

  lemma GoodAppend(a: seq<Entry>, b: seq<Entry>)
    requires GoodEntries(a) && GoodEntries(b)
    ensures GoodEntries(a + b)
  {
    hide GoodEntry;
  }

  lemma {:induction false} SectionsGood(m: EnvMap, ss: seq<Section>, optional: map<string, string>)
    requires forall i :: 0 <= i < |ss| ==> GoodSection(ss[i])
    requires forall k :: k in optional ==> NoteOk("# " + k + "=" + optional[k])
    ensures GoodEntries(SectionsEntries(m, ss, optional))
  {
    hide NoteOk, TameKey, SectionRule;
    if ss != [] {
      var s := ss[|ss| - 1];
      SectionsGood(m, ss[..|ss| - 1], optional);
      NoteOkEmpty();
      GoodAppend([Note(""), Note(SectionRule(s.title))], Comments(s));
      GoodAppend([Note(""), Note(SectionRule(s.title))] + Comments(s), KeyEntries(m, s.keys, optional));
      GoodAppend(SectionsEntries(m, ss[..|ss| - 1], optional), SectionEntries(m, s, optional));
    }
  }

  lemma NoteOkEmpty()
    ensures NoteOk("")
  {
  }

  lemma EntriesGood(m: EnvMap, l: Layout)
    requires GoodLayout(l) && TameKeys(m)
    ensures GoodEntries(Entries(m, l))
  {
    hide NoteOk, TameKey, SectionRule, SectionsEntries, GoodSection, GoodEntries, ExtraEntries, KeysOf;
    SectionsGood(m, l.sections, l.optional);
    NotesGood(l.header);
    ExtraGood(m.Keys - KeysOf(l.sections));
    GoodAppend(Notes(l.header), SectionsEntries(m, l.sections, l.optional));
    GoodAppend(Notes(l.header) + SectionsEntries(m, l.sections, l.optional), ExtraEntries(m.Keys - KeysOf(l.sections)));
  }

  lemma NotesGood(texts: seq<string>)
    requires forall i :: 0 <= i < |texts| ==> NoteOk(texts[i])
    ensures GoodEntries(Notes(texts))
  {
    hide NoteOk;
  }

  lemma ExtraGood(extra: set<string>)
    requires NoteOk(SectionRule("Other")) && forall k :: k in extra ==> TameKey(k)
    ensures GoodEntries(ExtraEntries(extra))
  {
    hide NoteOk, TameKey, SectionRule;
    NoteOkEmpty();
    assert forall i :: 0 <= i < |Sorted(extra)| ==> Sorted(extra)[i] in extra;
    GoodAppend([Note(""), Note(SectionRule("Other"))], Bindings(Sorted(extra)));
  }

  function Texts(m: EnvMap, es: seq<Entry>): seq<string> {
    seq(|es|, i requires 0 <= i < |es| => EntryText(m, es[i]))
  }

  lemma EntryOneLine(m: EnvMap, e: Entry)
    requires GoodEntry(e)
    ensures '\n' !in EntryText(m, e)
  {
    hide Trim;
  }

  /** The scanner's tokens are the entries' texts. */
  lemma {:induction false} LinesOfText(m: EnvMap, es: seq<Entry>)
    requires GoodEntries(es)
    ensures Lines(TextOf(m, es)) == Texts(m, es) + [""]
  {
    hide GoodEntry, EntryText, Lines;
    if es == [] {
      EmptyLine();
    } else {
      var e, rest := es[0], es[1..];
      LinesOfText(m, rest);
      OneEntryText(m, es);
      EntryOneLine(m, e);
      LinesCons(EntryText(m, e), TextOf(m, rest));
      assert Texts(m, es) == [EntryText(m, e)] + Texts(m, rest);
    }
  }

  lemma OneEntryText(m: EnvMap, es: seq<Entry>)
    requires es != []
    ensures TextOf(m, es) == EntryText(m, es[0]) + "\n" + TextOf(m, es[1..])
  {
    hide EntryText, TextOf;
    NoText(m);
    Push(m, [], es[0]);
    TextOfAppend(m, [es[0]], es[1..]);
    assert [] + [es[0]] == [es[0]] && [es[0]] + es[1..] == es;
  }

  /** What reading one entry binds. */
  function EntryBound(m: EnvMap, e: Entry, env: EnvMap): EnvMap {
    match e
    case Note(_) => env
    case Binding(k) =>
      match KeyRead(k)
      case None => env
      case Some(name) => env[name := Sanitize(Get(m, k))]
  }

  /** And the entries one after another. */
  function EnvOf(m: EnvMap, es: seq<Entry>, env: EnvMap): EnvMap {
    if es == [] then env else EnvOf(m, es[1..], EntryBound(m, es[0], env))
  }

  ghost predicate EntriesFit(m: EnvMap, es: seq<Entry>) {
    forall i :: 0 <= i < |es| ==> Utf8Len(EntryText(m, es[i])) <= MAX_LINE
  }

  lemma BindEntry(m: EnvMap, e: Entry, env: EnvMap)
    requires GoodEntry(e)
    ensures Bind(env, EntryText(m, e)) == EntryBound(m, e, env)
  {
    hide ParseLine, DropCr, TameKey, Sanitize, BindingText, KeyRead;
    match e {
      case Note(text) => SilentLine(text);
      case Binding(k) => BindingParses(k, Sanitize(Get(m, k)));
    }
  }

  /** Parsing stops at a line that is too long and otherwise binds what the entries say. */
  lemma {:induction false} ParseEntries(m: EnvMap, es: seq<Entry>, env: EnvMap)
    requires GoodEntries(es)
    ensures EntriesFit(m, es) ==> ParseTokens(Texts(m, es), env) == Parsed(EnvOf(m, es, env), false)
    ensures !EntriesFit(m, es) ==> ParseTokens(Texts(m, es), env).tooLong
  {
    hide GoodEntry, EntryText, Bind, Utf8Len, EntryBound;
    if es != [] {
      assert GoodEntry(es[0]);
      assert Texts(m, es)[1..] == Texts(m, es[1..]);
      assert forall i :: 0 <= i < |es[1..]| ==> es[1..][i] == es[i + 1];
      assert EntriesFit(m, es) <==> Utf8Len(EntryText(m, es[0])) <= MAX_LINE && EntriesFit(m, es[1..]) by {
        FitsStep(m, es);
      }
      BindEntry(m, es[0], env);
      ParseEntries(m, es[1..], Bind(env, EntryText(m, es[0])));
    }
  }

  lemma FitsStep(m: EnvMap, es: seq<Entry>)
    requires es != []
    ensures EntriesFit(m, es) <==> Utf8Len(EntryText(m, es[0])) <= MAX_LINE && EntriesFit(m, es[1..])
  {
    hide EntryText, Utf8Len;
    if Utf8Len(EntryText(m, es[0])) <= MAX_LINE && EntriesFit(m, es[1..]) {
      forall i | 0 <= i < |es| ensures Utf8Len(EntryText(m, es[i])) <= MAX_LINE {
        if i > 0 { assert es[i] == es[1..][i - 1]; }
      }
    }
  }

  /** The keys that are printed as bindings. */
  function Bound(es: seq<Entry>): set<string> {
    if es == [] then {} else Bound(es[..|es| - 1]) + (match es[|es| - 1] case Note(_) => {} case Binding(k) => {k})
  }

  lemma {:induction false} BoundIs(es: seq<Entry>)
    ensures forall k :: k in Bound(es) <==> Binding(k) in es
  {
    if es != [] {
      BoundIs(es[..|es| - 1]);
      assert es == es[..|es| - 1] + [es[|es| - 1]];
    }
  }

  function ValuesFor(m: EnvMap, keys: set<string>): EnvMap { map k | k in keys :: Sanitize(Get(m, k)) }

  ghost predicate PlainEntries(es: seq<Entry>) { forall k :: Binding(k) in es ==> PlainKey(k) }

  lemma {:induction false} EnvOfIs(m: EnvMap, es: seq<Entry>, env: EnvMap)
    requires PlainEntries(es)
    ensures EnvOf(m, es, env) == env + ValuesFor(m, Bound(es))
  {
    hide Sanitize, Bound, Get, ValuesFor, PlainKey, KeyRead;
    BoundIs(es);
    if es == [] {
      NothingFor(m, Bound(es));
    } else {
      BoundCons(es);
      assert es[0] in es && forall e :: e in es[1..] ==> e in es;
      PlainRead(es[0]);
      match es[0]
      case Note(_) =>
        EnvOfIs(m, es[1..], env);
        assert {} + Bound(es[1..]) == Bound(es[1..]);
      case Binding(k) =>
        EnvOfIs(m, es[1..], env[k := Sanitize(Get(m, k))]);
        OneMoreFor(m, env, k, Bound(es[1..]));
    }
  }

  lemma PlainRead(e: Entry)
    requires e.Binding? ==> PlainKey(e.key)
    ensures e.Binding? ==> KeyRead(e.key) == Some(e.key)
  {
  }

  lemma NothingFor(m: EnvMap, keys: set<string>)
    requires keys == {}
    ensures ValuesFor(m, keys) == map[]
  {
  }

  lemma OneMoreFor(m: EnvMap, env: EnvMap, k: string, keys: set<string>)
    ensures env[k := Sanitize(Get(m, k))] + ValuesFor(m, keys) == env + ValuesFor(m, {k} + keys)
  {
    hide Sanitize, Get;
  }

  lemma BoundCons(es: seq<Entry>)
    requires es != []
    ensures Bound(es) == (match es[0] case Note(_) => {} case Binding(k) => {k}) + Bound(es[1..])
  {
    hide Bound;
    BoundIs(es);
    BoundIs(es[1..]);
    assert es == [es[0]] + es[1..];
  }

  /** The map a written file stands for: the sanitised values, minus an optional key while it is unset. */
  ghost function Expected(m: EnvMap, l: Layout): EnvMap {
    map k | k in KeysOf(l.sections) + m.Keys && !(k in l.optional && Get(m, k) == "") :: Sanitize(Get(m, k))
  }

  lemma {:induction false} BoundAppend(a: seq<Entry>, b: seq<Entry>)
    ensures Bound(a + b) == Bound(a) + Bound(b)
  {
    hide Bound;
    BoundIs(a);
    BoundIs(b);
    BoundIs(a + b);
  }

  lemma {:induction false} SectionsBound(m: EnvMap, ss: seq<Section>, optional: map<string, string>)
    ensures Bound(SectionsEntries(m, ss, optional))
         == set k | k in KeysOf(ss) && !(k in optional && Get(m, k) == "")
  {
    hide Bound, SectionRule, Get;
    if ss == [] {
      BoundIs([]);
    } else {
      var s := ss[|ss| - 1];
      SectionsBound(m, ss[..|ss| - 1], optional);
      BoundAppend(SectionsEntries(m, ss[..|ss| - 1], optional), SectionEntries(m, s, optional));
      BoundAppend([Note(""), Note(SectionRule(s.title))] + Comments(s), KeyEntries(m, s.keys, optional));
      BoundIs([Note(""), Note(SectionRule(s.title))] + Comments(s));
      KeysBound(m, s.keys, optional);
    }
  }

  lemma KeysBound(m: EnvMap, keys: seq<string>, optional: map<string, string>)
    ensures Bound(KeyEntries(m, keys, optional)) == set k | k in Elems(keys) && !(k in optional && Get(m, k) == "")
  {
    hide Bound, Get;
    var es := KeyEntries(m, keys, optional);
    BoundIs(es);
    forall k ensures k in Bound(es) <==> k in keys && !(k in optional && Get(m, k) == "") {
      if k in keys && !(k in optional && Get(m, k) == "") {
        var i :| 0 <= i < |keys| && keys[i] == k;
        assert es[i] == Binding(k);
      }
    }
  }

  lemma EntriesBound(m: EnvMap, l: Layout)
    requires GoodLayout(l)
    ensures Bound(Entries(m, l)) == Expected(m, l).Keys
  {
    hide Bound, SectionRule, GoodSection, NoteOk, SectionsEntries, KeysOf, Sanitize, Get;
    var extra := m.Keys - KeysOf(l.sections);
    SectionsBound(m, l.sections, l.optional);
    BoundAppend(Notes(l.header) + SectionsEntries(m, l.sections, l.optional), ExtraEntries(extra));
    BoundAppend(Notes(l.header), SectionsEntries(m, l.sections, l.optional));
    BoundIs(Notes(l.header));
    ExtraBound(extra);
  }

  lemma BindingIn(ks: seq<string>, k: string)
    ensures Binding(k) in Bindings(ks) <==> k in ks
  {
    if k in ks {
      var i :| 0 <= i < |ks| && ks[i] == k;
      assert Bindings(ks)[i] == Binding(k);
    }
  }

  lemma ExtraBound(extra: set<string>)
    ensures Bound(ExtraEntries(extra)) == extra
  {
    hide Bound, SectionRule, Sorted, Bindings;
    BoundIs(ExtraEntries(extra));
    if extra != {} {
      forall k ensures Binding(k) in Bindings(Sorted(extra)) <==> k in extra { BindingIn(Sorted(extra), k); }
    }
  }

  /** Every printed binding, its quotes and '=' included, fits the scanner's line limit. */
  ghost predicate Fits(m: EnvMap, l: Layout) {
    forall k :: k in Expected(m, l) ==> Utf8Len(BindingText(k, Expected(m, l)[k])) <= MAX_LINE
  }

  lemma FitsIsEntriesFit(m: EnvMap, l: Layout)
    requires GoodLayout(l) && TameKeys(m)
    ensures EntriesFit(m, Entries(m, l)) <==> Fits(m, l)
  {
    hide GoodLayout, Utf8Len, Sanitize, TameKey, BindingText, Bound, Silent, Get;
    var es := Entries(m, l);
    EntriesGood(m, l);
    EntriesBound(m, l);
    BoundIs(es);
    hide Entries;
    if EntriesFit(m, es) {
      forall k | k in Expected(m, l) ensures Utf8Len(BindingText(k, Expected(m, l)[k])) <= MAX_LINE {
        var i :| 0 <= i < |es| && es[i] == Binding(k);
        assert EntryText(m, es[i]) == BindingText(k, Expected(m, l)[k]);
      }
    }
    if Fits(m, l) {
      forall i | 0 <= i < |es| ensures Utf8Len(EntryText(m, es[i])) <= MAX_LINE {
        assert GoodEntry(es[i]);
        if es[i].Binding? { assert es[i].key in Bound(es); }
      }
    }
  }

  /** The lines that are written: `k="v"` for every expected binding, and a comment for an unset optional key. */
  lemma LineWritten(m: EnvMap, l: Layout, k: string)
    requires GoodLayout(l) && TameKeys(m)
    ensures k in Expected(m, l) ==> k + "=\"" + Expected(m, l)[k] + "\"" in Lines(Render(m, l))
    ensures k in l.optional && Get(m, k) == "" ==> "# " + k + "=" + l.optional[k] in Lines(Render(m, l))
  {
    hide GoodLayout, GoodEntries, Entries, TextOf, Lines, Sanitize, Get, Bound;
    var es := Entries(m, l);
    EntriesGood(m, l);
    LinesOfText(m, es);
    EntriesBound(m, l);
    BoundIs(es);
    if k in Expected(m, l) {
      var i :| 0 <= i < |es| && es[i] == Binding(k);
      assert (Texts(m, es) + [""])[i] == EntryText(m, es[i]);
    }
    if k in l.optional && Get(m, k) == "" {
      var note := Note("# " + k + "=" + l.optional[k]);
      NoteListed(m, l, k);
      var i :| 0 <= i < |es| && es[i] == note;
      assert (Texts(m, es) + [""])[i] == EntryText(m, note);
    }
  }

  lemma NoteListed(m: EnvMap, l: Layout, k: string)
    requires GoodLayout(l) && k in l.optional && Get(m, k) == ""
    ensures Note("# " + k + "=" + l.optional[k]) in Entries(m, l)
  {
    hide NoteOk, GoodSection, KeysOf, SectionsEntries, ExtraEntries, Notes, Get;
    NoteIn(m, l.sections, l.optional, k);
  }

  lemma {:induction false} NoteIn(m: EnvMap, ss: seq<Section>, optional: map<string, string>, k: string)
    requires k in KeysOf(ss) && k in optional && Get(m, k) == ""
    ensures Note("# " + k + "=" + optional[k]) in SectionsEntries(m, ss, optional)
  {
    hide Get, SectionRule;
    var n := |ss| - 1;
    if k in Elems(ss[n].keys) {
      var i :| 0 <= i < |ss[n].keys| && ss[n].keys[i] == k;
      assert KeyEntries(m, ss[n].keys, optional)[i] == Note("# " + k + "=" + optional[k]);
    } else {
      NoteIn(m, ss[..n], optional, k);
    }
  }

  /** What reading a written file gives, for every map with tame names. */
  lemma ReadBack(m: EnvMap, l: Layout)
    requires GoodLayout(l) && TameKeys(m)
    ensures Fits(m, l) ==> Parse(Render(m, l)) == Parsed(EnvOf(m, Entries(m, l), map[]), false)
    ensures !Fits(m, l) ==> Parse(Render(m, l)).tooLong
  {
    hide GoodLayout, GoodEntries, Entries, EntriesFit, Fits, TextOf, ParseTokens, Lines, EnvOf, Sanitize, Get;
    var es := Entries(m, l);
    EntriesGood(m, l);
    LinesOfText(m, es);
    assert (Texts(m, es) + [""])[..|es|] == Texts(m, es);
    ParseEntries(m, es, map[]);
    FitsIsEntriesFit(m, l);
  }

  /**
   * MAIN: reading a written file gives exactly the expected map, so no value, comment or divider
   * adds or changes a key; it fails, with the scanner's error, exactly when a binding is too long.
   */
  lemma RoundTrip(m: EnvMap, l: Layout)
    requires GoodLayout(l) && PlainKeys(m)
    ensures Parse(Render(m, l)) == Parsed(Expected(m, l), false) <==> Fits(m, l)
    ensures Parse(Render(m, l)).tooLong <==> !Fits(m, l)
  {
    hide GoodLayout, Entries, Fits, Render, Parse, EnvOf, Bound, Sanitize, Get, PlainKey, TameKey;
    var es := Entries(m, l);
    forall k | k in m ensures TameKey(k) { PlainIsTame(k); }
    ReadBack(m, l);
    EntriesBound(m, l);
    BoundIs(es);
    ExpectedKeysPlain(m, l);
    EnvOfIs(m, es, map[]);
    assert map[] + ValuesFor(m, Bound(es)) == Expected(m, l);
  }

  lemma ExpectedKeysPlain(m: EnvMap, l: Layout)
    requires GoodLayout(l) && PlainKeys(m)
    ensures forall k :: k in Expected(m, l) ==> PlainKey(k)
  {
    hide PlainKey, NoteOk, Sanitize, Get, KeysOf;
    LayoutKeysPlain(l.sections);
  }

  // ---- any file at all -------------------------------------------------------------------

  /** A line that binds a name which is not plain. */
  predicate OddLine(text: string) {
    match ParseLine(text)
    case None => false
    case Some((k, _)) => !PlainKey(k)
  }

  /** The text left of the first `=`, trimmed; of interest when the line binds something. */
  function NameText(text: string): string {
    var line := Trim(text);
    var idx := IndexChar(line, '=');
    if idx < 0 then "" else Trim(line[..idx])
  }

  /** Exactly the lines where a name that starts with `#`, or with another `export `, follows an `export `. */
  lemma OddLineExact(text: string)
    requires '\n' !in text
    ensures OddLine(text) <==>
              && ParseLine(text).Some? && EXPORT <= NameText(text)
              && var key := Trim(NameText(text)[|EXPORT|..]); "#" <= key || EXPORT <= key
  {
    hide ParseLine, NameText, Trim, TameKey;
    if ParseLine(text).Some? {
      BoundName(text);
      NameNoComment(text);
      ReadNameTame(text);
    }
  }

  lemma BoundName(text: string)
    requires ParseLine(text).Some?
    ensures var name := NameText(text);
      ParseLine(text).value.0 == if EXPORT <= name then Trim(name[|EXPORT|..]) else name
  {
    hide Trim, ParseValue;
    var line := Trim(text);
    TrimIdempotent(line[..IndexChar(line, '=')]);
  }

  lemma NameNoComment(text: string)
    requires ParseLine(text).Some?
    ensures !("#" <= NameText(text))
  {
    var line := Trim(text);
    var left := line[..IndexChar(line, '=')];
    assert left != "" ==> left[0] == line[0];
    hide Trim, ParseValue;
    if left == "" {
      TrimFixed("");
    } else {
      TrimKeepsHead(left);
    }
  }

  /** No line that is read binds a name that is not plain; reading stops at a line that is too long. */
  predicate NoOddLine(tokens: seq<string>) {
    tokens == [] || Utf8Len(tokens[0]) > MAX_LINE || (!OddLine(DropCr(tokens[0])) && NoOddLine(tokens[1..]))
  }

  lemma BindPlain(env: EnvMap, token: string)
    ensures PlainKeys(Bind(env, token)) <==> PlainKeys(env) && !OddLine(DropCr(token))
  {
    hide ParseLine, PlainKey, DropCr;
    match ParseLine(DropCr(token))
    case None =>
    case Some((k, v)) =>
      assert k in env[k := v] && forall j :: j in env ==> j in env[k := v];
  }

  lemma {:induction false} OddNamesStay(tokens: seq<string>, env: EnvMap)
    ensures PlainKeys(ParseTokens(tokens, env).env) <==> PlainKeys(env) && NoOddLine(tokens)
  {
    hide PlainKeys, OddLine, Bind, Utf8Len, DropCr;
    if tokens != [] && Utf8Len(tokens[0]) <= MAX_LINE {
      BindPlain(env, tokens[0]);
      OddNamesStay(tokens[1..], Bind(env, tokens[0]));
    }
  }

  lemma {:induction false} TokensTame(tokens: seq<string>, env: EnvMap)
    requires TameKeys(env) && forall i :: 0 <= i < |tokens| ==> '\n' !in tokens[i]
    ensures TameKeys(ParseTokens(tokens, env).env)
  {
    hide ParseLine, TameKey, Utf8Len;
    if tokens != [] && Utf8Len(tokens[0]) <= MAX_LINE {
      var line := DropCr(tokens[0]);
      if ParseLine(line).Some? { ReadNameTame(line); }
      TokensTame(tokens[1..], Bind(env, tokens[0]));
    }
  }

  lemma ReadKeysTame(text: string)
    ensures TameKeys(Parse(text).env)
  {
    hide ParseTokens, TameKey;
    LinesOneLine(text);
    TokensTame(Tokens(text), map[]);
  }

  lemma {:induction false} LinesOneLine(text: string)
    ensures forall i :: 0 <= i < |Lines(text)| ==> '\n' !in Lines(text)[i]
  {
  }

  lemma {:induction false} EnvOfKeys(m: EnvMap, es: seq<Entry>, env: EnvMap, p: string)
    requires p in EnvOf(m, es, env) && p !in env
    ensures exists k :: Binding(k) in es && KeyRead(k) == Some(p)
  {
    hide KeyRead, Sanitize, Get;
    if es != [] {
      var next := EntryBound(m, es[0], env);
      assert es[0] in es && forall e :: e in es[1..] ==> e in es;
      if p !in next {
        EnvOfKeys(m, es[1..], next, p);
        var k :| Binding(k) in es[1..] && KeyRead(k) == Some(p);
      }
    }
  }

  lemma {:induction false} Longest(ks: set<string>) returns (k: string)
    requires ks != {}
    ensures k in ks && forall j :: j in ks ==> |j| <= |k|
    decreases |ks|
  {
    k :| k in ks;
    if ks != {k} {
      assert ks == {k} + (ks - {k});
      var j := Longest(ks - {k});
      if |j| > |k| { k := j; }
    }
  }

  /** A map with a name that is not plain is never read back: the longest such name is lost. */
  lemma OddNameLost(m: EnvMap, l: Layout)
    requires GoodLayout(l) && TameKeys(m) && !PlainKeys(m)
    ensures EnvOf(m, Entries(m, l), map[]) != Expected(m, l)
  {
    hide NoteOk, Sanitize, Entries, KeysOf, PlainKey, TameKey, KeyRead, Bound, EnvOf;
    var odd := set k | k in m && !PlainKey(k);
    var w :| w in m && !PlainKey(w);
    assert w in odd;
    var k := Longest(odd);
    var es := Entries(m, l);
    LayoutKeysPlain(l.sections);
    EntriesBound(m, l);
    BoundIs(es);
    assert k in Expected(m, l);
    if k in EnvOf(m, es, map[]) {
      EnvOfKeys(m, es, map[], k);
      var q :| Binding(q) in es && KeyRead(q) == Some(k);
      assert q in Expected(m, l);
      OddShrinks(q, k);
    }
  }

  lemma OddShrinks(q: string, k: string)
    requires KeyRead(q) == Some(k)
    ensures PlainKey(q) ==> q == k
    ensures q != k ==> |k| < |q|
    ensures TameKey(q) && q == k ==> PlainKey(q)
  {
  }

  /**
   * MAIN: for every file, writing what was read keeps the bindings, and reading them again gives
   * them back, if and only if they fit and no line that was read binds a name that is not plain.
   */
  lemma RewriteKeeps(text: string, l: Layout)
    requires GoodLayout(l)
    ensures var m := Parse(text).env;
      Parse(Render(m, l)) == Parsed(Expected(m, l), false) <==>
      Fits(m, l) && NoOddLine(Tokens(text))
  {
    var m := Parse(text).env;
    hide GoodLayout, Render, Expected, Fits, ParseTokens, Tokens, NoOddLine, Entries, EnvOf, PlainKey, TameKey;
    ReadKeysTame(text);
    OddNamesStay(Tokens(text), map[]);
    if PlainKeys(m) {
      RoundTrip(m, l);
    } else {
      ReadBack(m, l);
      OddNameLost(m, l);
    }
  }

  lemma ExportText()
    ensures |EXPORT| == 7 && EXPORT[0] == 'e' && '=' !in EXPORT
  {
  }

  lemma ExportName(prefix: string, key: string)
    requires |prefix| == 7 && prefix[0] == 'e' && '=' !in prefix && TameKey(key) && key != ""
    ensures var left := prefix + key;
      left != "" && left[0] != '#' && '=' !in left && Trim(left) == left && prefix <= left && left[7..] == key
  {
    var left := prefix + key;
    hide Trim;
    assert !IsSpace('e');
    hide IsSpace;
    TrimFixed(key);
    TrimFixed(left);
    assert left[0] == prefix[0] && left[|left| - 1] == key[|key| - 1];
  }

  lemma CommentedName(left: string, val: string)
    requires '=' !in left && Trim(left) == left && left != "" && left[0] != '#' && Trim(val) == val && val != ""
    requires EXPORT <= left && "#" <= Trim(left[|EXPORT|..])
    ensures ParseLine(left + "=" + val) == Some((Trim(left[|EXPORT|..]), ParseValue(val)))
    ensures OddLine(left + "=" + val)
  {
    hide ParseLine, Trim, ParseValue, TameKey;
    LineParts(left, val);
  }

  /** A file of one line, without a line break at its end. */
  lemma OneLineFile(text: string)
    requires text != "" && '\n' !in text && Utf8Len(text) <= MAX_LINE
    ensures Tokens(text) == [text] && Parse(text) == Parsed(Bind(map[], text), false)
    ensures NoOddLine(Tokens(text)) <==> !OddLine(DropCr(text))
  {
    hide Bind, Utf8Len, Lines, OddLine;
    LinesOne(text);
    assert [text][1..] == [];
    assert ParseTokens([text], map[]) == ParseTokens([], Bind(map[], text));
    assert NoOddLine([text]) <==> !OddLine(DropCr(text)) && NoOddLine([]);
  }

  /** A name with a `#` is printed as a comment, and where no name starts with `export ` nothing else reads as it. */
  lemma CommentLost(m: EnvMap, l: Layout, key: string)
    requires GoodLayout(l) && TameKeys(m) && "#" <= key && Fits(m, l)
    requires forall q :: q in m ==> !(EXPORT <= q)
    ensures key !in Parse(Render(m, l)).env
  {
    hide Parse, Render, Entries, EnvOf, Fits, Sanitize, Get, TameKey, PlainKey, Bound, NoteOk, KeysOf;
    ReadBack(m, l);
    var es := Entries(m, l);
    if key in EnvOf(m, es, map[]) {
      EnvOfKeys(m, es, map[], key);
      var q :| Binding(q) in es && KeyRead(q) == Some(key);
      EntriesBound(m, l);
      BoundIs(es);
      LayoutKeysPlain(l.sections);
      if q in KeysOf(l.sections) { NoExport(q); }
    }
  }

  lemma NoExport(k: string)
    requires PlainKey(k)
    ensures !(EXPORT <= k)
  {
  }

  /**
   * Such files exist: a name with a `#` after `export ` is read, would be printed as a comment, and is lost,
   * whatever the layout.
   */
  lemma ExportedComment(key: string, val: string, l: Layout)
    requires TameKey(key) && "#" <= key && Trim(val) == val && val != "" && '\n' !in val && GoodLayout(l)
    requires Utf8Len((EXPORT + key) + "=" + val) <= MAX_LINE
    ensures var m := map[key := ParseValue(val)];
      && Parse((EXPORT + key) + "=" + val) == Parsed(m, false)
      && Parse(Render(m, l)) != Parsed(Expected(m, l), false)
      && (Fits(m, l) ==> key !in Parse(Render(m, l)).env)
  {
    hide Parse, Tokens, Render, Expected, Fits, GoodLayout, Trim, ParseValue, OddLine, NoOddLine, Utf8Len;
    var left := EXPORT + key;
    var text, m := left + "=" + val, map[key := ParseValue(val)];
    ExportText();
    ExportName(EXPORT, key);
    KeptName(key);
    CommentedName(left, val);
    WholeLine(left, val);
    OneLineFile(text);
    assert Parse(text) == Parsed(m, false);
    RewriteKeeps(text, l);
    assert !(EXPORT <= key) by { assert key[0] == '#' && EXPORT[0] == 'e'; }
    if Fits(m, l) { CommentLost(m, l, key); }
  }

  lemma WholeLine(left: string, val: string)
    requires val != "" && Trim(val) == val
    ensures DropCr(left + "=" + val) == left + "=" + val
  {
    TrimFixed(val);
    assert (left + "=" + val)[|left| + |val|] == val[|val| - 1] && IsSpace('\r');
  }

  // ---- what one line says ----------------------------------------------------------------

  /** Enclosed in two equal quotation marks or apostrophes. */
  predicate Quoted(val: string) {
    |val| >= 2 && val[0] == val[|val| - 1] && (val[0] == '"' || val[0] == '\'')
  }

  /** The first blank that a `#` follows. */
  predicate CommentAt(val: string, i: nat) {
    i <= |val| && " #" <= val[i..] && forall j :: 0 <= j < i ==> !(" #" <= val[j..])
  }

  predicate NoComment(val: string) { forall j :: 0 <= j <= |val| ==> !(" #" <= val[j..]) }

  lemma {:induction false} IndexCommentIs(s: string)
    ensures var r := IndexComment(s);
      if r < 0 then NoComment(s) else CommentAt(s, r)
  {
    if s != "" {
      IndexCommentIs(s[1..]);
      assert s[0..] == s;
      assert forall j :: 1 <= j <= |s| ==> s[j..] == s[1..][j - 1..];
    }
  }

  /** What a value says: the inside of its quotes, or what stands before a comment, or all of it. */
  ghost predicate Says(val: string, v: string) {
    && (Quoted(val) ==> v == val[1..|val| - 1])
    && (!Quoted(val) ==> forall i: nat :: CommentAt(val, i) ==> v == Trim(val[..i]))
    && (!Quoted(val) && NoComment(val) ==> v == val)
  }

  lemma ValueSays(val: string)
    ensures Says(val, ParseValue(val))
  {
    hide Trim, IndexComment, CommentAt, NoComment;
    IndexCommentIs(val);
    forall i: nat | CommentAt(val, i)
      ensures IndexComment(val) == i && !NoComment(val)
    {
      CommentOnce(val, i, if IndexComment(val) < 0 then i else IndexComment(val));
    }
  }

  lemma CommentOnce(val: string, i: nat, j: nat)
    requires CommentAt(val, i) && CommentAt(val, j)
    ensures i == j && !NoComment(val)
  {
    assert " #" <= val[i..] && " #" <= val[j..];
  }

  lemma DropEnd(left: string, right: string)
    ensures DropCr(left + "=" + right) == left + "=" + DropCr(right) && Trim(DropCr(right)) == Trim(right)
  {
    hide Trim;
    var t := DropCr(right);
    if t != right {
      assert right == t + "\r" && IsSpace('\r');
      hide IsSpace;
      var a, b := TrimParts(t);
      TrimIdempotent(t);
      TrimFixed(Trim(t));
      assert right == a + Trim(t) + (b + "\r");
      TrimIs(a, Trim(t), b + "\r");
    } else if right != "" {
      assert (left + "=" + right)[|left| + |right|] == right[|right| - 1];
    }
  }

  lemma NameOf(left: string, name: string)
    requires Trim(left) == name || Trim(left) == "export " + name
    requires PlainKey(name) && name != ""
    ensures '=' !in left && Trim(left) != "" && Trim(left)[0] != '#'
    ensures (if EXPORT <= Trim(left) then Trim(Trim(left)[|EXPORT|..]) else Trim(left)) == name
  {
    hide Trim;
    var t := Trim(left);
    assert '=' !in t && t[0] != '#' by {
      assert "export "[0] == 'e' && '=' !in "export ";
      assert "#" <= name <==> name[0] == '#';
    }
    var a, b := TrimParts(left);
    assert !IsSpace('=');
    KeptName(name);
    assert EXPORT <= t ==> t[|EXPORT|..] == name || t == name;
  }

  /** A line `name=value`, with or without `export ` before it and white space around either part. */
  ghost predicate BindingLine(text: string, name: string, val: string) {
    exists left, right ::
      && text == left + "=" + right && (Trim(left) == name || Trim(left) == "export " + name) && val == Trim(right)
  }

  lemma LineSays(text: string, name: string, val: string)
    requires BindingLine(text, name, val) && PlainKey(name) && name != ""
    ensures ParseLine(DropCr(text)) == Some((name, ParseValue(val))) && Says(val, ParseValue(val))
  {
    hide Trim, ParseValue, Says, ParseLine, PlainKey, DropCr;
    var left, right :|
      text == left + "=" + right && (Trim(left) == name || Trim(left) == "export " + name) && val == Trim(right);
    NameOf(left, name);
    DropEnd(left, right);
    LineParts(left, DropCr(right));
    ValueSays(val);
  }

  lemma {:induction false} LastBinding(tokens: seq<string>, env: EnvMap, i: nat, k: string, v: string)
    requires i < |tokens| && ParseLine(DropCr(tokens[i])) == Some((k, v))
    requires forall j :: 0 <= j < |tokens| ==> Utf8Len(tokens[j]) <= MAX_LINE
    requires forall j, w :: i < j < |tokens| ==> ParseLine(DropCr(tokens[j])) != Some((k, w))
    ensures var r := ParseTokens(tokens, env); !r.tooLong && k in r.env && r.env[k] == v
  {
    hide ParseLine, DropCr, Utf8Len;
    assert forall j :: 1 <= j < |tokens| ==> tokens[j] == tokens[1..][j - 1];
    if i > 0 {
      LastBinding(tokens[1..], Bind(env, tokens[0]), i - 1, k, v);
    } else {
      assert Bind(env, tokens[0])[k] == v;
      KeepsBinding(tokens[1..], Bind(env, tokens[0]), k);
    }
  }

  lemma {:induction false} KeepsBinding(tokens: seq<string>, env: EnvMap, k: string)
    requires k in env
    requires forall j :: 0 <= j < |tokens| ==> Utf8Len(tokens[j]) <= MAX_LINE
    requires forall j, w :: 0 <= j < |tokens| ==> ParseLine(DropCr(tokens[j])) != Some((k, w))
    ensures var r := ParseTokens(tokens, env); !r.tooLong && k in r.env && r.env[k] == env[k]
  {
    hide ParseLine, DropCr, Utf8Len;
    if tokens != [] {
      assert forall j :: 1 <= j < |tokens| ==> tokens[j] == tokens[1..][j - 1];
      KeepsBinding(tokens[1..], Bind(env, tokens[0]), k);
    }
  }

  /** MAIN: in any file whose lines fit, the last line that binds a name decides what it is bound to. */
  lemma FileSays(text: string, i: nat, name: string, val: string)
    requires i < |Tokens(text)| && BindingLine(Tokens(text)[i], name, val) && PlainKey(name) && name != ""
    requires forall j :: 0 <= j < |Tokens(text)| ==> Utf8Len(Tokens(text)[j]) <= 65535
    requires forall j, w :: i < j < |Tokens(text)| ==> ParseLine(DropCr(Tokens(text)[j])) != Some((name, w))
    ensures var r := Parse(text); !r.tooLong && name in r.env && Says(val, r.env[name])
  {
    hide Tokens, ParseLine, ParseValue, ParseTokens, DropCr, Says, BindingLine, PlainKey, Utf8Len;
    LineSays(Tokens(text)[i], name, val);
    LastBinding(Tokens(text), map[], i, name, ParseValue(val));
  }

  /** A file of one line ends the reading with an error exactly when the line has 64 KiB or more. */
  lemma LongLine(text: string)
    requires '\n' !in text && text != ""
    ensures Parse(text).tooLong <==> Utf8Len(text) >= 65536
  {
    hide Utf8Len, Lines, Bind;
    LinesOne(text);
    assert [text][1..] == [];
    assert Utf8Len(text) <= MAX_LINE ==> ParseTokens([text], map[]) == ParseTokens([], Bind(map[], text));
  }

  // ---- writing what was read -------------------------------------------------------------

  lemma SanitizeTwice(v: string)
    ensures Sanitize(Sanitize(v)) == Sanitize(v)
  {
    hide Without;
  }

  /** An optional key whose value is not empty but loses all its characters. */
  ghost predicate Vanishing(m: EnvMap, l: Layout) {
    exists k :: k in l.optional && Get(m, k) != "" && Sanitize(Get(m, k)) == ""
  }

  lemma ExpectedValues(m: EnvMap, l: Layout, k: string)
    requires k in l.optional ==> k in KeysOf(l.sections)
    ensures var e := Expected(m, l);
            Get(e, k) == if k in KeysOf(l.sections) + m.Keys && !(k in l.optional && Get(m, k) == "")
                         then Sanitize(Get(m, k)) else ""
  {
    hide Sanitize, KeysOf;
  }

  /** Reading a file back keeps every printed value, so the same entries have the same texts. */
  lemma ExpectedTexts(m: EnvMap, l: Layout, k: string)
    requires GoodLayout(l)
    ensures Sanitize(Get(Expected(m, l), k)) == Sanitize(Get(m, k))
  {
    hide Sanitize, KeysOf, GoodSection, NoteOk;
    ExpectedValues(m, l, k);
    SanitizeTwice(Get(m, k));
    SanitizeEmpty();
  }

  lemma SanitizeEmpty()
    ensures Sanitize("") == ""
  {
  }

  lemma {:induction false} SameSections(m: EnvMap, l: Layout, ss: seq<Section>)
    requires GoodLayout(l) && !Vanishing(m, l)
    ensures SectionsEntries(Expected(m, l), ss, l.optional) == SectionsEntries(m, ss, l.optional)
  {
    hide GoodLayout, SectionRule, Expected, Sanitize, Get;
    if ss != [] {
      SameSections(m, l, ss[..|ss| - 1]);
      var keys := ss[|ss| - 1].keys;
      forall i | 0 <= i < |keys|
        ensures KeyEntry(Expected(m, l), keys[i], l.optional) == KeyEntry(m, keys[i], l.optional)
      {
        SameKeyEntry(m, l, keys[i]);
      }
      assert KeyEntries(Expected(m, l), keys, l.optional) == KeyEntries(m, keys, l.optional);
    }
  }

  lemma SameKeyEntry(m: EnvMap, l: Layout, k: string)
    requires GoodLayout(l) && !Vanishing(m, l)
    ensures KeyEntry(Expected(m, l), k, l.optional) == KeyEntry(m, k, l.optional)
  {
    hide Sanitize, KeysOf, GoodSection, NoteOk;
    if k in l.optional { ExpectedValues(m, l, k); }
  }

  lemma SameExtra(m: EnvMap, l: Layout)
    requires GoodLayout(l)
    ensures Expected(m, l).Keys - KeysOf(l.sections) == m.Keys - KeysOf(l.sections)
  {
    hide Sanitize, KeysOf, GoodSection, NoteOk;
  }

  lemma {:induction false} SameTexts(m: EnvMap, l: Layout, es: seq<Entry>)
    requires GoodLayout(l)
    ensures TextOf(Expected(m, l), es) == TextOf(m, es)
  {
    hide GoodLayout, Expected, Sanitize, Get;
    if es != [] {
      SameTexts(m, l, es[..|es| - 1]);
      match es[|es| - 1]
      case Note(_) =>
      case Binding(k) => ExpectedTexts(m, l, k);
    }
  }

  lemma StableWhenNothingVanishes(m: EnvMap, l: Layout)
    requires GoodLayout(l) && !Vanishing(m, l)
    ensures Render(Expected(m, l), l) == Render(m, l)
  {
    hide GoodLayout, Expected, TextOf, SectionsEntries, KeysOf, Vanishing;
    SameSections(m, l, l.sections);
    SameExtra(m, l);
    SameTexts(m, l, Entries(m, l));
  }

  lemma ExpectedPlain(m: EnvMap, l: Layout)
    requires GoodLayout(l) && PlainKeys(m)
    ensures PlainKeys(Expected(m, l))
    ensures Fits(m, l) ==> Fits(Expected(m, l), l)
  {
    hide Sanitize, NoteOk, PlainKey, Utf8Len;
    LayoutKeysPlain(l.sections);
    var e := Expected(m, l);
    hide KeysOf;
    forall k | k in Expected(e, l) ensures k in e && Expected(e, l)[k] == e[k] {
      ExpectedTexts(m, l, k);
    }
  }

  lemma {:induction false} LayoutKeysPlain(ss: seq<Section>)
    requires forall i :: 0 <= i < |ss| ==> GoodSection(ss[i])
    ensures forall k :: k in KeysOf(ss) ==> PlainKey(k)
  {
    hide PlainKey, NoteOk;
    if ss != [] { LayoutKeysPlain(ss[..|ss| - 1]); }
  }

  /**
   * MAIN: writing what was read from a written file reproduces that file, unless an optional key
   * has a value that sanitises away: then its empty binding turns into the comment.
   */
  lemma Stability(m: EnvMap, l: Layout)
    requires GoodLayout(l) && PlainKeys(m) && Fits(m, l)
    ensures Render(Parse(Render(m, l)).env, l) == Render(m, l) <==> !Vanishing(m, l)
  {
    hide GoodLayout, PlainKeys, Fits, Render, Parse, Expected, Vanishing;
    RoundTrip(m, l);
    var e := Expected(m, l);
    if Vanishing(m, l) {
      if Render(e, l) == Render(m, l) {
        ExpectedPlain(m, l);
        RoundTrip(e, l);
        VanishingShows(m, l);
      }
    } else {
      StableWhenNothingVanishes(m, l);
    }
  }

  lemma VanishingShows(m: EnvMap, l: Layout)
    requires GoodLayout(l) && Vanishing(m, l)
    ensures Expected(Expected(m, l), l) != Expected(m, l)
  {
    hide Sanitize, KeysOf, GoodSection, NoteOk;
    var k :| k in l.optional && Get(m, k) != "" && Sanitize(Get(m, k)) == "";
    ExpectedValues(m, l, k);
    assert k in Expected(m, l) && k !in Expected(Expected(m, l), l);
  }

  /** MAIN: from the second pass on nothing changes any more, in every case. */
  lemma StableFromSecondPass(m: EnvMap, l: Layout)
    requires GoodLayout(l) && PlainKeys(m) && Fits(m, l)
    ensures var once := Parse(Render(m, l)).env;
            Render(Parse(Render(once, l)).env, l) == Render(once, l)
  {
    hide GoodLayout, PlainKeys, Fits, Render, Parse, Expected, Vanishing;
    RoundTrip(m, l);
    ExpectedPlain(m, l);
    NothingVanishesTwice(m, l);
    Stability(Expected(m, l), l);
  }

  lemma NothingVanishesTwice(m: EnvMap, l: Layout)
    requires GoodLayout(l)
    ensures !Vanishing(Expected(m, l), l)
  {
    hide Sanitize, KeysOf, GoodSection, NoteOk;
    forall k | k in l.optional && Get(Expected(m, l), k) != ""
      ensures Sanitize(Get(Expected(m, l), k)) != ""
    {
      ExpectedValues(m, l, k);
      SanitizeTwice(Get(m, k));
    }
  }

  // ---- the program's layout --------------------------------------------------------------

  /** The keys of `envLayout`, section by section. */
  const LAYOUT_KEYS: seq<seq<string>> := [
    ["CONFIG_DIR", "LIBRARY_DIR", "WORK_DIR"],
    ["PUID", "PGID", "TZ"],
    ["WIREGUARD_PRIVATE_KEY", "SERVER_COUNTRIES"],
    ["PELICULA_PORT", "PELICULA_PROJECT_NAME"],
    ["JELLYFIN_ADMIN_USER", "JELLYFIN_PASSWORD"],
    ["WEBHOOK_SECRET", "GLUETUN_HTTP_USER", "GLUETUN_HTTP_PASS"]
  ]

  const OPTIONAL: map<string, string> := map["PELICULA_PROJECT_NAME" := "pelicula"]

  /** A layout with the program's keys, whatever the wording of its notes. */
  ghost predicate IsEnvLayout(l: Layout) {
    && |l.sections| == |LAYOUT_KEYS|
    && (forall i :: 0 <= i < |l.sections| ==> l.sections[i].keys == LAYOUT_KEYS[i])
    && l.optional == OPTIONAL
    && (forall i :: 0 <= i < |l.header| ==> NoteOk(l.header[i]))
    && (forall i :: 0 <= i < |l.sections| ==> NotesOk(l.sections[i]))
  }

  ghost predicate NotesOk(s: Section) {
    && '\n' !in s.title && |s.title| <= 1000
    && forall i :: 0 <= i < |s.comments| ==> '\n' !in s.comments[i] && |s.comments[i]| <= 1000
  }

  /** Upper-case names with underscores. */
  predicate EnvName(k: string) {
    k != "" && forall i :: 0 <= i < |k| ==> 'A' <= k[i] <= 'Z' || k[i] == '_'
  }

  lemma EnvNamePlain(k: string)
    requires EnvName(k)
    ensures PlainKey(k)
  {
    hide Trim;
    TrimFixed(k);
    assert EXPORT[0] == 'e';
  }

  lemma {:induction false} Utf8Bound(s: string)
    ensures Utf8Len(s) <= 4 * |s|
  {
    if s != "" { Utf8Bound(s[1..]); }
  }

  lemma {:induction false} RuleLine(n: nat)
    ensures '\n' !in Rule(n) && |Rule(n)| == n
  {
    if n > 0 { RuleLine(n - 1); }
  }

  lemma DividerOk(title: string)
    requires '\n' !in title && |title| <= 1000
    ensures NoteOk(SectionRule(title))
  {
    hide Utf8Len, Rule;
    var prefix := "# ── " + title + " ";
    var n := if |prefix| <= 77 then 80 - |prefix| else 3;
    RuleLine(n);
    Utf8Bound(SectionRule(title));
    assert prefix[0] == '#';
  }

  lemma CommentOk(text: string)
    requires '\n' !in text && |text| <= 1000
    ensures NoteOk("# " + text)
  {
    hide Utf8Len;
    Utf8Bound("# " + text);
  }

  lemma LayoutNames(i: nat, j: nat)
    requires i < |LAYOUT_KEYS| && j < |LAYOUT_KEYS[i]|
    ensures EnvName(LAYOUT_KEYS[i][j])
  {
    hide EnvName;
    NamesOfPaths();
    NamesOfVpn();
    NamesOfDashboard();
    NamesOfJellyfin();
    NamesOfSecrets();
  }

  lemma NamesOfPaths()
    ensures EnvName("CONFIG_DIR") && EnvName("LIBRARY_DIR") && EnvName("WORK_DIR")
    ensures EnvName("PUID") && EnvName("PGID") && EnvName("TZ")
  {
  }

  lemma NamesOfVpn()
    ensures EnvName("WIREGUARD_PRIVATE_KEY") && EnvName("SERVER_COUNTRIES")
  {
  }

  lemma NamesOfDashboard()
    ensures EnvName("PELICULA_PORT") && EnvName("PELICULA_PROJECT_NAME")
  {
  }

  lemma NamesOfJellyfin()
    ensures EnvName("JELLYFIN_ADMIN_USER") && EnvName("JELLYFIN_PASSWORD")
  {
  }

  lemma NamesOfSecrets()
    ensures EnvName("WEBHOOK_SECRET") && EnvName("GLUETUN_HTTP_USER") && EnvName("GLUETUN_HTTP_PASS")
  {
  }

  /** The program's layout meets what the theorems above ask of a layout. */
  lemma EnvLayoutGood(l: Layout)
    requires IsEnvLayout(l)
    ensures GoodLayout(l)
  {
    hide EnvName, PlainKey, NoteOk;
    forall i | 0 <= i < |l.sections| ensures GoodSection(l.sections[i]) {
      var s := l.sections[i];
      DividerOk(s.title);
      forall j | 0 <= j < |s.comments| ensures NoteOk("# " + s.comments[j]) { CommentOk(s.comments[j]); }
      forall j | 0 <= j < |s.keys| ensures PlainKey(s.keys[j]) {
        LayoutNames(i, j);
        EnvNamePlain(s.keys[j]);
      }
    }
    DividerOk("Other");
    OptionalListed(l.sections);
    OptionalNote();
  }

  lemma OptionalNote()
    ensures NoteOk("# " + "PELICULA_PROJECT_NAME" + "=" + "pelicula")
  {
    hide Utf8Len;
    var text := "PELICULA_PROJECT_NAME" + "=" + "pelicula";
    assert forall i :: 0 <= i < |text| ==> text[i] != '\n';
    CommentOk(text);
    assert "# " + "PELICULA_PROJECT_NAME" + "=" + "pelicula" == "# " + text;
  }

  lemma {:induction false} OptionalListed(ss: seq<Section>)
    requires |ss| >= 4 && "PELICULA_PROJECT_NAME" in ss[3].keys
    ensures "PELICULA_PROJECT_NAME" in KeysOf(ss)
  {
    if |ss| > 4 { OptionalListed(ss[..|ss| - 1]); }
  }

  /** For every environment with plain keys and the program's layout: read back exactly, or the line limit is hit. */
  lemma EnvRoundTrip(m: EnvMap, l: Layout)
    requires IsEnvLayout(l) && PlainKeys(m)
    ensures Parse(Render(m, l)) == Parsed(Expected(m, l), false) <==> Fits(m, l)
    ensures Fits(m, l) ==> (Render(Parse(Render(m, l)).env, l) == Render(m, l) <==> !Vanishing(m, l))
  {
    hide GoodLayout, Fits, Vanishing, Render, Parse, Expected, PlainKeys, IsEnvLayout;
    EnvLayoutGood(l);
    RoundTrip(m, l);
    if Fits(m, l) { Stability(m, l); }
  }

  // ---- where it fails --------------------------------------------------------------------

  lemma {:induction false} Utf8AtLeast(s: string)
    ensures Utf8Len(s) >= |s|
  {
    if s != "" { Utf8AtLeast(s[1..]); }
  }

  const TOO_LONG: string := seq(65536, i => 'a')

  /** A value of 64 KiB: the file that is written cannot be read back. */
  lemma TooLongToRead(l: Layout)
    requires IsEnvLayout(l)
    ensures PlainKeys(map["A" := TOO_LONG]) && !Fits(map["A" := TOO_LONG], l)
    ensures Parse(Render(map["A" := TOO_LONG], l)).tooLong
  {
    hide Parse, Render, GoodLayout, IsEnvLayout, KeysOf, Utf8Len, PlainKey, EnvName;
    var m := map["A" := TOO_LONG];
    NameOfA();
    EnvNamePlain("A");
    EnvLayoutGood(l);
    OptionalIsOther(l);
    assert Sanitize(TOO_LONG) == TOO_LONG;
    assert "A" in Expected(m, l) && Expected(m, l)["A"] == TOO_LONG;
    Utf8AtLeast(BindingText("A", TOO_LONG));
    RoundTrip(m, l);
  }

  lemma NameOfA()
    ensures EnvName("A")
  {
  }

  lemma OptionalIsOther(l: Layout)
    requires IsEnvLayout(l)
    ensures "A" !in l.optional
  {
    assert |"A"| != |"PELICULA_PROJECT_NAME"|;
  }

  /** The optional key set to a quotation mark. */
  const QUOTE_ONLY: EnvMap := map["PELICULA_PROJECT_NAME" := "\""]

  lemma QuoteVanishes(l: Layout)
    requires IsEnvLayout(l)
    ensures Vanishing(QUOTE_ONLY, l)
  {
    hide Sanitize;
    QuoteSanitises();
    assert "PELICULA_PROJECT_NAME" in l.optional && Get(QUOTE_ONLY, "PELICULA_PROJECT_NAME") == "\"";
  }

  lemma QuoteFits(l: Layout)
    requires IsEnvLayout(l)
    ensures PlainKeys(QUOTE_ONLY) && Fits(QUOTE_ONLY, l)
  {
    hide Sanitize, EnvName, PlainKey, Fits;
    QuoteSanitises();
    NamesOfDashboard();
    EnvNamePlain("PELICULA_PROJECT_NAME");
    OptionalListed(l.sections);
    ShortLayoutFits(QUOTE_ONLY, l);
  }

  /** It vanishes on the second pass: the file that is written then is another one. */
  lemma VanishingOptional(l: Layout)
    requires IsEnvLayout(l)
    ensures Vanishing(QUOTE_ONLY, l) && PlainKeys(QUOTE_ONLY) && Fits(QUOTE_ONLY, l)
    ensures Render(Parse(Render(QUOTE_ONLY, l)).env, l) != Render(QUOTE_ONLY, l)
  {
    hide Parse, Render, GoodLayout, IsEnvLayout, Vanishing, Fits, PlainKeys;
    QuoteVanishes(l);
    QuoteFits(l);
    EnvLayoutGood(l);
    Stability(QUOTE_ONLY, l);
  }

  lemma QuoteSanitises()
    ensures Sanitize("\"") == ""
  {
    assert Without("\"", '"') == "";
  }

  /** Layout keys are short, so a map of layout keys with short values fits. */
  lemma ShortLayoutFits(m: EnvMap, l: Layout)
    requires IsEnvLayout(l) && m.Keys <= KeysOf(l.sections)
    requires forall k :: k in m ==> |Sanitize(m[k])| <= 1000
    ensures Fits(m, l)
  {
    hide Utf8Len, Sanitize, KeysOf;
    assert Sanitize("") == "";
    forall k | k in Expected(m, l)
      ensures Utf8Len(BindingText(k, Expected(m, l)[k])) <= MAX_LINE
    {
      LayoutKeyShort(l, l.sections, k);
      Utf8Bound(BindingText(k, Expected(m, l)[k]));
    }
  }

  lemma {:induction false} LayoutKeyShort(l: Layout, ss: seq<Section>, k: string)
    requires IsEnvLayout(l) && ss <= l.sections && k in KeysOf(ss)
    ensures |k| <= 30
  {
    var n := |ss| - 1;
    if k in ss[n].keys {
      assert ss[n] == l.sections[n] && ss[n].keys == LAYOUT_KEYS[n];
      var j :| 0 <= j < |LAYOUT_KEYS[n]| && LAYOUT_KEYS[n][j] == k;
      NamesShort(n, j);
    } else {
      LayoutKeyShort(l, ss[..n], k);
    }
  }

  lemma NamesShort(i: nat, j: nat)
    requires i < |LAYOUT_KEYS| && j < |LAYOUT_KEYS[i]|
    ensures |LAYOUT_KEYS[i][j]| <= 30
  {
  }
}
