/**
 * Rewriting qBittorrent's INI file line by line (cmd/pelicula/seed.go).
 *
 * `PatchIniKey` and `EnforceConf` are the code's loops. Their specification works on the file's
 * lines, and five patches in a row are proved equal to one pass, `OnePass`, over those lines.
 */
module IniConfig {
  import opened Prelude
  import opened Text

  predicate OneLine(s: string) { '\n' !in s }

  function Header(section: string): string { "[" + section + "]" }

  /** What a line is to the search for a section: its header, another header, blank, or content. */
  datatype Kind = Head | Other | Blank | Plain

  function KindOf(l: string, section: string): Kind {
    var stripped := Trim(l);
    if stripped == Header(section) then Head
    else if "[" <= stripped then Other
    else if stripped == "" then Blank
    else Plain
  }

  function Kinds(ls: seq<string>, section: string): (r: seq<Kind>)
    ensures |r| == |ls| && forall i :: 0 <= i < |ls| ==> r[i] == KindOf(ls[i], section)
  {
    seq(|ls|, i requires 0 <= i < |ls| => KindOf(ls[i], section))
  }

  /** A line the pattern `^key=.*$` matches. */
  predicate HasKey(l: string, key: string) { key + "=" <= l }

  predicate Present(ls: seq<string>, key: string) { exists i :: 0 <= i < |ls| && HasKey(ls[i], key) }

  /** No other section's header follows this section's among the first n lines. */
  ghost predicate Unclosed(ks: seq<Kind>, n: nat)
    requires n <= |ks|
  {
    forall h, j :: 0 <= h < j < n ==> !(ks[h] == Head && ks[j] == Other)
  }

  /**
   * Position p is where a new line of the section goes: below the section's header, above any
   * other header that follows it, and either right above such a header or right below the
   * last line that is not blank.
   */
  ghost predicate InsertPoint(ks: seq<Kind>, p: nat) {
    && 0 < p <= |ks|
    && Head in ks[..p]
    && Unclosed(ks, p)
    && (|| (p < |ks| && ks[p] == Other)
        || (ks[p - 1] != Blank && forall j :: p <= j < |ks| ==> ks[j] == Blank))
  }

  lemma InsertPointUnique(ks: seq<Kind>, p: nat, q: nat)
    requires InsertPoint(ks, p) && InsertPoint(ks, q)
    ensures p == q
  {
  }

  /** Setting every line of one key in place. */
  function SetKey(ls: seq<string>, key: string, value: string): (r: seq<string>)
    ensures |r| == |ls|
  {
    seq(|ls|, i requires 0 <= i < |ls| => if HasKey(ls[i], key) then key + "=" + value else ls[i])
  }

  /** The lines of a text that ends with a line break. */
  function Closed(ls: seq<string>): seq<string> {
    if |ls| > 0 && ls[|ls| - 1] == "" then ls else ls + [""]
  }

  /** Cutting a file where a new line of the section goes; a missing section is created first. */
  ghost predicate Cut(ls: seq<string>, section: string, pre: seq<string>, post: seq<string>) {
    var ks := Kinds(ls, section);
    if Head !in ks then pre == Closed(ls) + [Header(section)] && post == [""]
    else pre + post == ls && InsertPoint(ks, |pre|)
  }

  /** `patchINIKey` on the file's lines. */
  ghost predicate Patched(ls: seq<string>, section: string, key: string, value: string, r: seq<string>) {
    if Present(ls, key) then r == SetKey(ls, key, value)
    else exists pre, post :: Cut(ls, section, pre, post) && r == pre + [key + "=" + value] + post
  }

  /** The scan of `patchINIKey`: whether the section exists, and the next section's header line. */
  method ScanSection(ks: seq<Kind>) returns (inSection: bool, insertBefore: int)
    ensures inSection <==> Head in ks
    ensures insertBefore != -1 ==>
              0 < insertBefore < |ks| && ks[insertBefore] == Other && InsertPoint(ks, insertBefore)
    ensures insertBefore == -1 ==> Unclosed(ks, |ks|)
  {
    inSection, insertBefore := false, -1;
    for i := 0 to |ks|
      invariant inSection <==> Head in ks[..i]
      invariant Unclosed(ks, i)
      invariant insertBefore == -1
    {
      ScanStep(ks, i);
      if ks[i] == Head {
        inSection := true;
      } else if inSection && ks[i] == Other {
        insertBefore := i;
        return;
      }
    }
    assert ks[..|ks|] == ks;
  }

  lemma ScanStep(ks: seq<Kind>, i: nat)
    requires i < |ks| && Unclosed(ks, i)
    ensures Head in ks[..i + 1] <==> Head in ks[..i] || ks[i] == Head
    ensures Head in ks[..i] ==> Head in ks
    ensures !(Head in ks[..i] && ks[i] == Other) ==> Unclosed(ks, i + 1)
    ensures Head in ks[..i] && ks[i] == Other ==> 0 < i && InsertPoint(ks, i)
  {
    assert ks[..i + 1] == ks[..i] + [ks[i]];
    forall h, j | 0 <= h < j < i + 1 && !(Head in ks[..i] && ks[i] == Other)
      ensures !(ks[h] == Head && ks[j] == Other)
    {
      assert ks[h] == ks[..i][h];
    }
  }

  /** The position below the last line that is not blank, for a section that runs to the end. */
  method AfterLastLine(ks: seq<Kind>) returns (p: nat)
    requires Head in ks && Unclosed(ks, |ks|)
    ensures InsertPoint(ks, p)
  {
    ghost var h :| 0 <= h < |ks| && ks[h] == Head;
    var last := |ks| - 1;
    while last > 0 && ks[last] == Blank
      invariant h <= last < |ks|
      invariant forall j :: last < j < |ks| ==> ks[j] == Blank
    {
      last := last - 1;
    }
    p := last + 1;
    assert ks[..p][h] == Head;
  }

  predicate HasSection(ls: seq<string>, section: string) {
    exists i :: 0 <= i < |ls| && Trim(ls[i]) == "[" + section + "]"
  }

  /** The nearest line above line i that looks like a header reads `[section]`. */
  ghost predicate InSection(ls: seq<string>, section: string, i: nat)
    requires i <= |ls|
  {
    exists h :: 0 <= h < i && Trim(ls[h]) == "[" + section + "]" && forall j :: h < j < i ==> !("[" <= Trim(ls[j]))
  }

  /** What patching one key does, said of the text of the lines. */
  ghost predicate PatchText(ls: seq<string>, section: string, key: string, value: string, r: seq<string>) {
    if exists i :: 0 <= i < |ls| && key + "=" <= ls[i] then
      |r| == |ls| && forall i :: 0 <= i < |ls| ==> r[i] == if key + "=" <= ls[i] then key + "=" + value else ls[i]
    else if HasSection(ls, section) then
      exists p: nat :: p <= |ls| && r == ls[..p] + [key + "=" + value] + ls[p..] && InSection(r, section, p)
    else
      r == Closed(ls) + ["[" + section + "]", key + "=" + value, ""]
  }

  lemma PatchSays(ls: seq<string>, section: string, key: string, value: string, r: seq<string>)
    requires Patched(ls, section, key, value, r)
    ensures PatchText(ls, section, key, value, r)
  {
    hide Trim, Under, InSection, HasSection, KindOf, Cut;
    SectionIsHead(ls, section);
    if !Present(ls, key) {
      var pre, post :| Cut(ls, section, pre, post) && r == pre + [key + "=" + value] + post;
      if HasSection(ls, section) {
        InsertSays(ls, section, key + "=" + value, pre, post);
      } else {
        AppendSays(ls, section, key + "=" + value, pre, post);
      }
    }
  }

  lemma InsertSays(ls: seq<string>, section: string, line: string, pre: seq<string>, post: seq<string>)
    requires Cut(ls, section, pre, post) && HasSection(ls, section)
    ensures |pre| <= |ls| && pre == ls[..|pre|] && post == ls[|pre|..]
    ensures InSection(pre + [line] + post, section, |pre|)
  {
    hide Trim, Under, InSection, HasSection, KindOf, InsertPoint;
    SectionIsHead(ls, section);
    KindsAppend(pre, post, section);
    UnderHeader(pre, [], [line] + post, Kinds(ls, section), section, |pre|);
    assert pre + [] + ([line] + post) == pre + [line] + post;
    NearestHeader(pre + [line] + post, section, |pre|);
  }

  lemma AppendSays(ls: seq<string>, section: string, line: string, pre: seq<string>, post: seq<string>)
    requires Cut(ls, section, pre, post) && !HasSection(ls, section)
    ensures pre + [line] + post == Closed(ls) + ["[" + section + "]", line, ""]
  {
    hide HasSection, KindOf, Closed;
    SectionIsHead(ls, section);
  }

  /** `patchINIKey`. */
  method PatchIniKey(content: string, section: string, key: string, value: string) returns (r: string)
    requires OneLine(section) && OneLine(key) && OneLine(value)
    ensures Patched(Lines(content), section, key, value, Lines(r))
    ensures PatchText(Lines(content), section, key, value, Lines(r))
  {
    hide PatchText, InsertPoint, KindOf;
    var line := key + "=" + value;
    var lines := Lines(content);
    if Present(lines, key) {
      r := Unlines(SetKey(lines, key, value));
      LinesUnlines(SetKey(lines, key, value));
      PatchSays(lines, section, key, value, Lines(r));
      return;
    }
    var text := content;
    var header := Header(section);
    var ks := Kinds(lines, section);
    var inSection, insertBefore := ScanSection(ks);
    if !inSection {
      if text != "" && text[|text| - 1] != '\n' {
        text := text + "\n";
      }
      r := text + "\n" + header + "\n" + line + "\n";
      AppendSection(content, text, header, line);
      PatchedByCut(lines, section, key, value, Closed(lines) + [header], [""], Lines(r));
    } else {
      var p := insertBefore;
      if insertBefore == -1 { p := AfterLastLine(ks); }
      r := InsertLine(lines, line, p);
      CutAt(lines, section, p);
      PatchedByCut(lines, section, key, value, lines[..p], lines[p..], Lines(r));
    }
    PatchSays(lines, section, key, value, Lines(r));
  }

  lemma CutAt(ls: seq<string>, section: string, p: nat)
    requires InsertPoint(Kinds(ls, section), p)
    ensures Cut(ls, section, ls[..p], ls[p..])
  {
    hide KindOf;
    assert ls[..p] + ls[p..] == ls;
  }

  lemma PatchedByCut(ls: seq<string>, section: string, key: string, value: string, pre: seq<string>,
      post: seq<string>, r: seq<string>)
    requires !Present(ls, key) && Cut(ls, section, pre, post) && r == pre + [key + "=" + value] + post
    ensures Patched(ls, section, key, value, r)
  {
  }

  method InsertLine(lines: seq<string>, line: string, p: nat) returns (r: string)
    requires p <= |lines| && OneLine(line) && forall l :: l in lines ==> OneLine(l)
    ensures Lines(r) == lines[..p] + [line] + lines[p..]
  {
    var out := lines[..p] + [line] + lines[p..];
    assert forall i :: 0 <= i < |out| ==> out[i] == line || out[i] in lines;
    r := Unlines(out);
    LinesUnlines(out);
  }

  lemma {:induction false} AppendSection(content: string, text: string, header: string, line: string)
    requires OneLine(header) && OneLine(line)
    requires text == if content != "" && content[|content| - 1] != '\n' then content + "\n" else content
    ensures Lines(text + "\n" + header + "\n" + line + "\n") == Closed(Lines(content)) + [header] + [line] + [""]
  {
    hide Lines, Closed;
    LinesOfClosed(content, text);
    SectionTail(header, line);
    LinesAppend(text, header + "\n" + line + "\n");
    Flatten(text, header, line);
  }

  lemma Flatten(text: string, header: string, line: string)
    ensures text + "\n" + (header + "\n" + line + "\n") == text + "\n" + header + "\n" + line + "\n"
  {
    assert text + "\n" + (header + ("\n" + line) + "\n") == text + "\n" + header + ("\n" + line) + "\n";
  }

  lemma {:induction false} LinesOfClosed(content: string, text: string)
    requires text == if content != "" && content[|content| - 1] != '\n' then content + "\n" else content
    ensures Lines(text) == Closed(Lines(content))
  {
    hide Lines;
    LastLine(content);
    if text != content {
      EmptyLine();
      LinesAppend(content, "");
      assert content + "\n" + "" == text;
    }
  }

  lemma {:induction false} SectionTail(header: string, line: string)
    requires OneLine(header) && OneLine(line)
    ensures Lines(header + "\n" + line + "\n") == [header, line, ""]
  {
    hide Lines;
    EmptyLine();
    LinesCons(line, "");
    Regroup(header, "\n", line, "\n", "");
    LinesCons(header, line + "\n" + "");
    assert header + "\n" + line + "\n" + "" == header + "\n" + line + "\n";
  }

  // ---- the specification: all keys in one pass -------------------------------------------

  /** A key as the callers pass it: it cannot be taken for a header or for another key. */
  predicate GoodKey(k: string) {
    k != "" && OneLine(k) && '=' !in k && !IsSpace(k[0]) && k[0] != '['
  }

  predicate GoodKeys(keys: seq<string>) {
    && (forall i :: 0 <= i < |keys| ==> GoodKey(keys[i]))
    && (forall i, j :: 0 <= i < j < |keys| ==> keys[i] != keys[j])
  }

  /** A line with its key set, if it is a line of one of the keys. */
  function NewLine(l: string, keys: seq<string>, value: string): string {
    if keys == [] then l
    else
      var k := keys[|keys| - 1];
      if HasKey(l, k) then k + "=" + value else NewLine(l, keys[..|keys| - 1], value)
  }

  function SetKeys(ls: seq<string>, keys: seq<string>, value: string): (r: seq<string>)
    ensures |r| == |ls|
  {
    seq(|ls|, i requires 0 <= i < |ls| => NewLine(ls[i], keys, value))
  }

  /** The lines to insert: one for each key that has none. */
  function Missing(ls: seq<string>, keys: seq<string>, value: string): seq<string> {
    if keys == [] then []
    else
      var k := keys[|keys| - 1];
      Missing(ls, keys[..|keys| - 1], value) + if Present(ls, k) then [] else [k + "=" + value]
  }

  /** Every present key set in place, and the missing ones inserted together in the section. */
  ghost predicate OnePass(ls: seq<string>, section: string, keys: seq<string>, value: string, r: seq<string>) {
    var missing := Missing(ls, keys, value);
    if missing == [] then r == SetKeys(ls, keys, value)
    else exists pre, post :: Cut(ls, section, pre, post)
                          && r == SetKeys(pre, keys, value) + missing + SetKeys(post, keys, value)
  }

  // ---- lines of keys ---------------------------------------------------------------------

  lemma KeyLineIsPlain(l: string, k: string, section: string)
    requires GoodKey(k) && HasKey(l, k)
    ensures KindOf(l, section) == Plain
  {
    assert l[0] == (k + "=")[0] == k[0];
  }

  lemma OneKeyPerLine(l: string, k1: string, k2: string)
    requires GoodKey(k1) && GoodKey(k2) && HasKey(l, k1) && HasKey(l, k2)
    ensures k1 == k2
  {
    ShorterKey(l, k1, k2);
    ShorterKey(l, k2, k1);
    assert k1 == (k1 + "=")[..|k1|] == l[..|k1|];
    assert k2 == (k2 + "=")[..|k2|] == l[..|k2|];
  }

  lemma ShorterKey(l: string, k1: string, k2: string)
    requires '=' !in k2 && HasKey(l, k1) && HasKey(l, k2)
    ensures |k2| <= |k1|
  {
    assert forall i :: 0 <= i < |k2| ==> l[i] == (k2 + "=")[i] == k2[i] != '=';
    assert l[|k1|] == (k1 + "=")[|k1|] == '=';
  }

  /** Setting keys keeps the line's other keys, its role in the file, and whether it is empty. */
  lemma {:induction false} NewLineFacts(l: string, keys: seq<string>, value: string, k: string, section: string)
    requires GoodKeys(keys) && GoodKey(k)
    ensures var n := NewLine(l, keys, value);
            && (HasKey(n, k) <==> HasKey(l, k))
            && KindOf(n, section) == KindOf(l, section)
            && (n == "" <==> l == "")
            && (k in keys && HasKey(l, k) ==> n == k + "=" + value)
  {
    if keys != [] {
      var last := keys[|keys| - 1];
      NewLineFacts(l, keys[..|keys| - 1], value, k, section);
      if HasKey(l, last) {
        var n := last + "=" + value;
        assert last + "=" <= n;
        KeyLineIsPlain(l, last, section);
        KeyLineIsPlain(n, last, section);
        if HasKey(l, k) { OneKeyPerLine(l, last, k); }
        if HasKey(n, k) { OneKeyPerLine(n, last, k); }
      }
    }
  }

  lemma KindsAfterSet(ls: seq<string>, keys: seq<string>, value: string, section: string)
    requires GoodKeys(keys)
    ensures Kinds(SetKeys(ls, keys, value), section) == Kinds(ls, section)
  {
    hide KindOf;
    forall i | 0 <= i < |ls|
      ensures KindOf(NewLine(ls[i], keys, value), section) == KindOf(ls[i], section)
    {
      NewLineFacts(ls[i], keys, value, "k", section);
    }
  }

  lemma ClosedAfterSet(ls: seq<string>, keys: seq<string>, value: string)
    requires GoodKeys(keys)
    ensures SetKeys(Closed(ls), keys, value) == Closed(SetKeys(ls, keys, value))
  {
    hide KindOf;
    NewLineFacts("", keys, value, "k", "");
    if |ls| > 0 { NewLineFacts(ls[|ls| - 1], keys, value, "k", ""); }
    SetKeysAppend(ls, [""], keys, value);
  }

  lemma PresentAfterSet(ls: seq<string>, keys: seq<string>, value: string, k: string)
    requires GoodKeys(keys) && GoodKey(k)
    ensures Present(SetKeys(ls, keys, value), k) <==> Present(ls, k)
  {
    var r := SetKeys(ls, keys, value);
    forall i | 0 <= i < |ls| ensures HasKey(r[i], k) <==> HasKey(ls[i], k) {
      NewLineFacts(ls[i], keys, value, k, "");
    }
  }

  lemma PresentAppend(a: seq<string>, b: seq<string>, k: string)
    ensures Present(a + b, k) <==> Present(a, k) || Present(b, k)
  {
    if i :| 0 <= i < |a| && HasKey(a[i], k) { assert (a + b)[i] == a[i]; }
    if i :| 0 <= i < |b| && HasKey(b[i], k) { assert (a + b)[|a| + i] == b[i]; }
  }

  lemma SetKeyAppend(a: seq<string>, b: seq<string>, k: string, value: string)
    ensures SetKey(a + b, k, value) == SetKey(a, k, value) + SetKey(b, k, value)
  {
  }

  lemma SetKeysAppend(a: seq<string>, b: seq<string>, keys: seq<string>, value: string)
    ensures SetKeys(a + b, keys, value) == SetKeys(a, keys, value) + SetKeys(b, keys, value)
  {
  }

  lemma SetKeyAbsent(ls: seq<string>, k: string, value: string)
    requires !Present(ls, k)
    ensures SetKey(ls, k, value) == ls
  {
  }

  /** Setting one more key, after the others. */
  lemma {:induction false} SetOneMore(ls: seq<string>, keys: seq<string>, value: string)
    requires GoodKeys(keys) && keys != []
    ensures var n := |keys| - 1;
            SetKeys(ls, keys, value) == SetKey(SetKeys(ls, keys[..n], value), keys[n], value)
  {
    var n := |keys| - 1;
    forall i | 0 <= i < |ls|
      ensures HasKey(NewLine(ls[i], keys[..n], value), keys[n]) <==> HasKey(ls[i], keys[n])
    {
      NewLineFacts(ls[i], keys[..n], value, keys[n], "");
    }
  }

  lemma {:induction false} MissingLines(ls: seq<string>, keys: seq<string>, value: string, k: string)
    requires GoodKeys(keys) && GoodKey(k)
    ensures Present(Missing(ls, keys, value), k) <==> k in keys && !Present(ls, k)
    ensures forall l :: l in Missing(ls, keys, value) ==> HasKey(l, k) ==> l == k + "=" + value
  {
    if keys != [] {
      var n := |keys| - 1;
      MissingLines(ls, keys[..n], value, k);
      var line := keys[n] + "=" + value;
      assert keys[n] + "=" <= line;
      if HasKey(line, k) { OneKeyPerLine(line, keys[n], k); }
      PresentAppend(Missing(ls, keys[..n], value), [line], k);
      assert Present([line], k) <==> HasKey([line][0], k);
      assert keys == keys[..n] + [keys[n]];
      assert Missing(ls, keys[..n], value) + [] == Missing(ls, keys[..n], value);
    }
  }

  lemma {:induction false} MissingArePlain(ls: seq<string>, keys: seq<string>, value: string, section: string)
    requires GoodKeys(keys)
    ensures forall i :: 0 <= i < |Missing(ls, keys, value)| ==> KindOf(Missing(ls, keys, value)[i], section) == Plain
  {
    if keys != [] {
      var n := |keys| - 1;
      MissingArePlain(ls, keys[..n], value, section);
      assert keys[n] + "=" <= keys[n] + "=" + value;
      KeyLineIsPlain(keys[n] + "=" + value, keys[n], section);
    }
  }

  // ---- five patches are one pass ---------------------------------------------------------

  /** A cut is an insertion point of what it leaves, also when it had to create the section. */
  lemma CutIsInsertPoint(ls: seq<string>, section: string, pre: seq<string>, post: seq<string>)
    requires Cut(ls, section, pre, post)
    ensures InsertPoint(Kinds(pre + post, section), |pre|)
  {
    hide KindOf;
    var ks := Kinds(ls, section);
    if Head !in ks {
      HeaderKinds(section);
      KindsOfClosed(ls, section);
      var c := Kinds(Closed(ls), section);
      var all := Kinds(pre + post, section);
      assert all == c + [Head, Blank];
      assert all[..|pre|][|pre| - 1] == Head;
    }
  }

  lemma HeaderKinds(section: string)
    ensures KindOf(Header(section), section) == Head && KindOf("", section) == Blank
  {
    assert !IsSpace('[') && !IsSpace(']');
    TrimFixed(Header(section));
  }

  lemma KindsOfClosed(ls: seq<string>, section: string)
    ensures Head in Kinds(Closed(ls), section) <==> Head in Kinds(ls, section)
  {
    hide KindOf;
    HeaderKinds(section);
    if Closed(ls) != ls {
      assert Kinds(Closed(ls), section) == Kinds(ls, section) + [Blank];
    }
  }

  /** More content lines at an insertion point move it below them. */
  lemma InsertPointShifts(a: seq<Kind>, m: seq<Kind>, b: seq<Kind>)
    requires InsertPoint(a + b, |a|) && forall i :: 0 <= i < |m| ==> m[i] == Plain
    ensures InsertPoint(a + m + b, |a| + |m|)
  {
    var ks := a + m + b;
    var p := |a| + |m|;
    assert (a + b)[..|a|] == a;
    assert ks[..p] == a + m;
    assert forall i :: 0 <= i < |a| ==> ks[i] == (a + b)[i];
    assert forall i :: |a| <= i < p ==> ks[i] == m[i - |a|] == Plain;
    assert forall j :: p <= j < |ks| ==> ks[j] == (a + b)[j - |m|];
  }

  lemma {:induction false} MissingStep(ls: seq<string>, keys: seq<string>, value: string)
    requires keys != []
    ensures var n := |keys| - 1;
            Missing(ls, keys, value) == if Present(ls, keys[n]) then Missing(ls, keys[..n], value)
                                        else Missing(ls, keys[..n], value) + [keys[n] + "=" + value]
  {
  }

  /** Cutting again after lines have been inserted cuts below them. */
  lemma {:induction false} CutAgain(ls: seq<string>, section: string, keys: seq<string>, value: string,
      pre: seq<string>, post: seq<string>, missing: seq<string>, pre2: seq<string>, post2: seq<string>)
    requires GoodKeys(keys) && Cut(ls, section, pre, post)
    requires forall i :: 0 <= i < |missing| ==> KindOf(missing[i], section) == Plain
    requires Cut(SetKeys(pre, keys, value) + missing + SetKeys(post, keys, value), section, pre2, post2)
    ensures pre2 == SetKeys(pre, keys, value) + missing && post2 == SetKeys(post, keys, value)
  {
    hide KindOf, NewLine, SetKeys, InsertPoint;
    var a, b := SetKeys(pre, keys, value), SetKeys(post, keys, value);
    CutIsInsertPoint(ls, section, pre, post);
    KindsAfterSet(pre, keys, value, section);
    KindsAfterSet(post, keys, value, section);
    KindsAppend(pre, post, section);
    KindsAppend(a + missing, b, section);
    KindsAppend(a, missing, section);
    InsertPointShifts(Kinds(a, section), Kinds(missing, section), Kinds(b, section));
    CutIsAt(a + missing, b, section, pre2, post2);
  }

  lemma KindsAppend(a: seq<string>, b: seq<string>, section: string)
    ensures Kinds(a + b, section) == Kinds(a, section) + Kinds(b, section)
  {
    hide KindOf;
  }

  lemma CutIsAt(x: seq<string>, y: seq<string>, section: string, pre: seq<string>, post: seq<string>)
    requires InsertPoint(Kinds(x + y, section), |x|) && Cut(x + y, section, pre, post)
    ensures pre == x && post == y
  {
    hide KindOf;
    var ks := Kinds(x + y, section);
    assert forall i :: 0 <= i < |x| ==> ks[..|x|][i] == ks[i];
    InsertPointUnique(ks, |pre|, |x|);
    assert pre == (pre + post)[..|pre|] && post == (pre + post)[|pre|..];
  }

  /** The first insertion cuts where the untouched file would be cut. */
  lemma {:induction false} CutAfterSet(ls: seq<string>, section: string, keys: seq<string>, value: string,
      pre2: seq<string>, post2: seq<string>)
    requires GoodKeys(keys) && GoodKey("k") && Cut(SetKeys(ls, keys, value), section, pre2, post2)
    ensures exists pre, post ::
              Cut(ls, section, pre, post) && pre2 == SetKeys(pre, keys, value) && post2 == SetKeys(post, keys, value)
  {
    hide KindOf, NewLine;
    var d := SetKeys(ls, keys, value);
    KindsAfterSet(ls, keys, value, section);
    if Head !in Kinds(ls, section) {
      ClosedAfterSet(ls, keys, value);
      HeaderUnset(section, keys, value);
      SetKeysAppend(Closed(ls), [Header(section)], keys, value);
      assert Cut(ls, section, Closed(ls) + [Header(section)], [""]);
    } else {
      var p := |pre2|;
      var pre, post := ls[..p], ls[p..];
      assert pre + post == ls;
      SetKeysAppend(pre, post, keys, value);
      assert pre2 == (pre2 + post2)[..p] && post2 == (pre2 + post2)[p..];
      assert Cut(ls, section, pre, post);
    }
  }

  lemma {:induction false} HeaderUnset(section: string, keys: seq<string>, value: string)
    requires GoodKeys(keys)
    ensures SetKeys([Header(section)], keys, value) == [Header(section)] && SetKeys([""], keys, value) == [""]
  {
    if keys != [] {
      var n := |keys| - 1;
      HeaderUnset(section, keys[..n], value);
      assert SetKeys([Header(section)], keys[..n], value)[0] == Header(section);
      assert SetKeys([""], keys[..n], value)[0] == "";
      assert (keys[n] + "=")[0] == keys[n][0];
    }
  }

  lemma {:induction false} PresentInPass(ls: seq<string>, section: string, keys: seq<string>, value: string,
      d: seq<string>, k: string)
    requires GoodKeys(keys) && GoodKey(k) && k !in keys && OnePass(ls, section, keys, value, d)
    ensures Present(d, k) <==> Present(ls, k)
  {
    hide KindOf, NewLine, Missing;
    var missing := Missing(ls, keys, value);
    if missing == [] {
      PresentAfterSet(ls, keys, value, k);
    } else {
      var pre, post :| Cut(ls, section, pre, post)
                    && d == SetKeys(pre, keys, value) + missing + SetKeys(post, keys, value);
      MissingLines(ls, keys, value, k);
      PresentAppend(SetKeys(pre, keys, value) + missing, SetKeys(post, keys, value), k);
      PresentAppend(SetKeys(pre, keys, value), missing, k);
      PresentAfterSet(pre, keys, value, k);
      PresentAfterSet(post, keys, value, k);
      PresentInCut(ls, section, pre, post, k);
    }
  }

  lemma PresentInCut(ls: seq<string>, section: string, pre: seq<string>, post: seq<string>, k: string)
    requires GoodKey(k) && Cut(ls, section, pre, post)
    ensures Present(pre, k) || Present(post, k) <==> Present(ls, k)
  {
    hide KindOf;
    assert (k + "=")[0] == k[0];
    NotPresentIn([""], k);
    NotPresentIn([Header(section)], k);
    if Head !in Kinds(ls, section) {
      PresentAppend(Closed(ls), [Header(section)], k);
      if Closed(ls) != ls { PresentAppend(ls, [""], k); }
    } else {
      PresentAppend(pre, post, k);
    }
  }

  lemma NotPresentIn(ls: seq<string>, k: string)
    requires forall i :: 0 <= i < |ls| ==> !HasKey(ls[i], k)
    ensures !Present(ls, k)
  {
  }

  /** MAIN STEP: one more patch after a pass is the pass with one more key. */
  lemma {:induction false} OneMoreKey(ls: seq<string>, section: string, keys: seq<string>, value: string,
      d: seq<string>, r: seq<string>)
    requires GoodKeys(keys) && keys != []
    requires var n := |keys| - 1; OnePass(ls, section, keys[..n], value, d) && Patched(d, section, keys[n], value, r)
    ensures OnePass(ls, section, keys, value, r)
  {
    hide KindOf, NewLine, Missing, Cut;
    var n := |keys| - 1;
    var ks, k := keys[..n], keys[n];
    assert k !in ks;
    PresentInPass(ls, section, ks, value, d, k);
    MissingStep(ls, keys, value);
    if Present(ls, k) {
      OneMoreInPlace(ls, section, keys, value, d);
    } else {
      OneMoreInserted(ls, section, keys, value, d, r);
    }
  }

  lemma {:induction false} OneMoreInPlace(ls: seq<string>, section: string, keys: seq<string>, value: string,
      d: seq<string>)
    requires GoodKeys(keys) && keys != [] && Present(ls, keys[|keys| - 1])
    requires OnePass(ls, section, keys[..|keys| - 1], value, d)
    ensures OnePass(ls, section, keys, value, SetKey(d, keys[|keys| - 1], value))
  {
    hide KindOf, NewLine, Missing, Cut;
    var n := |keys| - 1;
    var ks, k := keys[..n], keys[n];
    MissingStep(ls, keys, value);
    var missing := Missing(ls, ks, value);
    if missing == [] {
      SetOneMore(ls, keys, value);
    } else {
      var pre, post :| Cut(ls, section, pre, post)
                    && d == SetKeys(pre, ks, value) + missing + SetKeys(post, ks, value);
      SetOneMore(pre, keys, value);
      SetOneMore(post, keys, value);
      SetKeyAppend(SetKeys(pre, ks, value) + missing, SetKeys(post, ks, value), k, value);
      SetKeyAppend(SetKeys(pre, ks, value), missing, k, value);
      MissingLines(ls, ks, value, k);
      assert k !in ks;
      SetKeyAbsent(missing, k, value);
    }
  }

  lemma {:induction false} OneMoreInserted(ls: seq<string>, section: string, keys: seq<string>, value: string,
      d: seq<string>, r: seq<string>)
    requires GoodKeys(keys) && keys != [] && !Present(ls, keys[|keys| - 1]) && !Present(d, keys[|keys| - 1])
    requires var n := |keys| - 1; OnePass(ls, section, keys[..n], value, d) && Patched(d, section, keys[n], value, r)
    ensures OnePass(ls, section, keys, value, r)
  {
    hide KindOf, NewLine, Missing, Cut;
    var n := |keys| - 1;
    var ks, k := keys[..n], keys[n];
    MissingStep(ls, keys, value);
    var missing := Missing(ls, ks, value);
    var pre2, post2 :| Cut(d, section, pre2, post2) && r == pre2 + [k + "=" + value] + post2;
    var pre, post;
    if missing == [] {
      assert GoodKey("k");
      CutAfterSet(ls, section, ks, value, pre2, post2);
      pre, post :| Cut(ls, section, pre, post) && pre2 == SetKeys(pre, ks, value) && post2 == SetKeys(post, ks, value);
    } else {
      pre, post :| Cut(ls, section, pre, post) && d == SetKeys(pre, ks, value) + missing + SetKeys(post, ks, value);
      MissingArePlain(ls, ks, value, section);
      CutAgain(ls, section, ks, value, pre, post, missing, pre2, post2);
    }
    PresentInCut(ls, section, pre, post, k);
    AbsentOneMore(pre, keys, value);
    AbsentOneMore(post, keys, value);
    assert r == SetKeys(pre, keys, value) + (missing + [k + "=" + value]) + SetKeys(post, keys, value);
  }

  lemma {:induction false} AbsentOneMore(ls: seq<string>, keys: seq<string>, value: string)
    requires GoodKeys(keys) && keys != [] && !Present(ls, keys[|keys| - 1])
    ensures SetKeys(ls, keys, value) == SetKeys(ls, keys[..|keys| - 1], value)
  {
    var n := |keys| - 1;
    SetOneMore(ls, keys, value);
    PresentAfterSet(ls, keys[..n], value, keys[n]);
    SetKeyAbsent(SetKeys(ls, keys[..n], value), keys[n], value);
  }

  // ---- what the rewriting promises -------------------------------------------------------

  /** After a pass every line of every key is `key=value`, and there is at least one. */
  lemma {:induction false} KeysSet(ls: seq<string>, section: string, keys: seq<string>, value: string,
      r: seq<string>, k: string)
    requires GoodKeys(keys) && k in keys && OnePass(ls, section, keys, value, r)
    ensures Present(r, k) && forall i :: 0 <= i < |r| && HasKey(r[i], k) ==> r[i] == k + "=" + value
  {
    hide KindOf, NewLine, Missing, Cut;
    var missing := Missing(ls, keys, value);
    MissingLines(ls, keys, value, k);
    if missing == [] {
      PresentAfterSet(ls, keys, value, k);
      SetLines(ls, keys, value, k);
      NotPresentIn([], k);
    } else {
      var pre, post :| Cut(ls, section, pre, post)
                    && r == SetKeys(pre, keys, value) + missing + SetKeys(post, keys, value);
      PresentInCut(ls, section, pre, post, k);
      PresentAfterSet(pre, keys, value, k);
      PresentAfterSet(post, keys, value, k);
      PresentAppend(SetKeys(pre, keys, value) + missing, SetKeys(post, keys, value), k);
      PresentAppend(SetKeys(pre, keys, value), missing, k);
      SetLines(pre, keys, value, k);
      SetLines(post, keys, value, k);
      AllSet(SetKeys(pre, keys, value), missing, SetKeys(post, keys, value), k, value);
    }
  }

  lemma AllSet(a: seq<string>, m: seq<string>, b: seq<string>, k: string, value: string)
    requires forall l :: l in a || l in m || l in b ==> HasKey(l, k) ==> l == k + "=" + value
    ensures var r := a + m + b; forall i :: 0 <= i < |r| && HasKey(r[i], k) ==> r[i] == k + "=" + value
  {
    var r := a + m + b;
    assert forall i :: 0 <= i < |r| ==> r[i] in a || r[i] in m || r[i] in b;
  }

  lemma SetLines(ls: seq<string>, keys: seq<string>, value: string, k: string)
    requires GoodKeys(keys) && k in keys
    ensures forall l :: l in SetKeys(ls, keys, value) ==> HasKey(l, k) ==> l == k + "=" + value
  {
    forall i | 0 <= i < |ls|
      ensures HasKey(NewLine(ls[i], keys, value), k) ==> NewLine(ls[i], keys, value) == k + "=" + value
    {
      NewLineFacts(ls[i], keys, value, k, "");
    }
  }

  /** MAIN: a second pass changes nothing. */
  lemma {:induction false} PassSettles(ls: seq<string>, section: string, keys: seq<string>, value: string,
      r: seq<string>, again: seq<string>)
    requires GoodKeys(keys) && OnePass(ls, section, keys, value, r) && OnePass(r, section, keys, value, again)
    ensures again == r
  {
    hide KindOf, NewLine, Cut, OnePass;
    forall k | k in keys
      ensures Present(r, k) && forall i :: 0 <= i < |r| && HasKey(r[i], k) ==> r[i] == k + "=" + value
    {
      KeysSet(ls, section, keys, value, r, k);
    }
    NothingMissing(r, section, keys, value, again);
    NothingToSet(r, keys, value);
  }

  lemma {:induction false} NothingMissing(r: seq<string>, section: string, keys: seq<string>, value: string,
      again: seq<string>)
    requires OnePass(r, section, keys, value, again) && forall k :: k in keys ==> Present(r, k)
    ensures again == SetKeys(r, keys, value)
  {
    AllThere(r, keys, value);
  }

  lemma {:induction false} AllThere(r: seq<string>, keys: seq<string>, value: string)
    requires forall k :: k in keys ==> Present(r, k)
    ensures Missing(r, keys, value) == []
  {
    if keys != [] {
      assert keys[|keys| - 1] in keys;
      AllThere(r, keys[..|keys| - 1], value);
      MissingStep(r, keys, value);
    }
  }

  lemma {:induction false} NothingToSet(r: seq<string>, keys: seq<string>, value: string)
    requires forall k, i :: k in keys && 0 <= i < |r| && HasKey(r[i], k) ==> r[i] == k + "=" + value
    ensures SetKeys(r, keys, value) == r
  {
    if keys != [] {
      var n := |keys| - 1;
      assert keys[n] in keys;
      NothingToSet(r, keys[..n], value);
      assert forall i :: 0 <= i < |r| ==> NewLine(r[i], keys[..n], value) == SetKeys(r, keys[..n], value)[i] == r[i];
    }
  }

  /** The lines that belong to none of the keys, in order. */
  function Others(ls: seq<string>, keys: seq<string>): seq<string> {
    if ls == [] then []
    else (if exists i :: 0 <= i < |keys| && HasKey(ls[0], keys[i]) then [] else [ls[0]]) + Others(ls[1..], keys)
  }

  lemma {:induction false} OthersAppend(a: seq<string>, b: seq<string>, keys: seq<string>)
    ensures Others(a + b, keys) == Others(a, keys) + Others(b, keys)
  {
    if a == [] {
      assert a + b == b;
    } else {
      assert (a + b)[1..] == a[1..] + b;
      OthersAppend(a[1..], b, keys);
    }
  }

  lemma {:induction false} OthersAfterSet(ls: seq<string>, keys: seq<string>, value: string)
    requires GoodKeys(keys)
    ensures Others(SetKeys(ls, keys, value), keys) == Others(ls, keys)
  {
    if ls != [] {
      OthersAfterSet(ls[1..], keys, value);
      assert SetKeys(ls, keys, value)[1..] == SetKeys(ls[1..], keys, value);
      OtherUnchanged(ls[0], keys, value);
    }
  }

  lemma {:induction false} OtherUnchanged(l: string, keys: seq<string>, value: string)
    requires GoodKeys(keys)
    ensures forall i :: 0 <= i < |keys| ==> (HasKey(NewLine(l, keys, value), keys[i]) <==> HasKey(l, keys[i]))
    ensures (forall i :: 0 <= i < |keys| ==> !HasKey(l, keys[i])) ==> NewLine(l, keys, value) == l
  {
    forall i | 0 <= i < |keys| ensures HasKey(NewLine(l, keys, value), keys[i]) <==> HasKey(l, keys[i]) {
      NewLineFacts(l, keys, value, keys[i], "");
    }
    if keys != [] {
      var n := |keys| - 1;
      assert forall i :: 0 <= i < n ==> keys[..n][i] == keys[i];
      OtherUnchanged(l, keys[..n], value);
    }
  }

  lemma {:induction false} MissingAreKeys(ls: seq<string>, keys: seq<string>, value: string, all: seq<string>)
    requires forall k :: k in keys ==> k in all
    ensures Others(Missing(ls, keys, value), all) == []
  {
    if keys != [] {
      var n := |keys| - 1;
      MissingAreKeys(ls, keys[..n], value, all);
      MissingStep(ls, keys, value);
      var line := keys[n] + "=" + value;
      assert keys[n] in all;
      var i :| 0 <= i < |all| && all[i] == keys[n];
      assert HasKey(line, all[i]);
      assert Others([line], all) == [] by { assert [line][1..] == []; }
      OthersAppend(Missing(ls, keys[..n], value), [line], all);
    }
  }

  /** The lines a pass adds to the file's other lines: none, or the missing section's frame. */
  function Added(ls: seq<string>, section: string, keys: seq<string>, value: string): seq<string> {
    if Missing(ls, keys, value) == [] || Head in Kinds(ls, section) then []
    else (if Closed(ls) == ls then [] else [""]) + [Header(section), ""]
  }

  /** MAIN: every line that is not one of the keys' survives, in order; only a missing section's frame is added. */
  lemma {:induction false} OtherLinesSurvive(ls: seq<string>, section: string, keys: seq<string>, value: string,
      r: seq<string>)
    requires GoodKeys(keys) && OnePass(ls, section, keys, value, r)
    ensures Others(r, keys) == Others(ls, keys) + Added(ls, section, keys, value)
  {
    hide KindOf, NewLine, Missing, Others, SetKeys, Closed;
    var missing := Missing(ls, keys, value);
    if missing == [] {
      OthersAfterSet(ls, keys, value);
    } else {
      var pre, post :| Cut(ls, section, pre, post)
                    && r == SetKeys(pre, keys, value) + missing + SetKeys(post, keys, value);
      MissingAreKeys(ls, keys, value, keys);
      OthersAfterSet(pre, keys, value);
      OthersAfterSet(post, keys, value);
      OthersAppend(SetKeys(pre, keys, value) + missing, SetKeys(post, keys, value), keys);
      OthersAppend(SetKeys(pre, keys, value), missing, keys);
      OthersOfCut(ls, section, keys, value, pre, post);
    }
  }

  lemma {:induction false} OthersOfCut(ls: seq<string>, section: string, keys: seq<string>, value: string,
      pre: seq<string>, post: seq<string>)
    requires GoodKeys(keys) && Cut(ls, section, pre, post) && Missing(ls, keys, value) != []
    ensures Others(pre, keys) + Others(post, keys) == Others(ls, keys) + Added(ls, section, keys, value)
  {
    hide KindOf, NewLine, Missing, InsertPoint;
    if Head in Kinds(ls, section) {
      OthersAppend(pre, post, keys);
    } else {
      forall i | 0 <= i < |keys| ensures !HasKey(Header(section), keys[i]) && !HasKey("", keys[i]) {
        assert (keys[i] + "=")[0] == keys[i][0];
      }
      var h := Header(section);
      assert Others([h], keys) == [h] by { assert [h][1..] == []; }
      assert Others([""], keys) == [""] by { assert [""][1..] == []; }
      OthersAppend(Closed(ls), [h], keys);
      if Closed(ls) != ls { OthersAppend(ls, [""], keys); }
    }
  }

  /** The header line that governs line i is the section's: no other header comes in between. */
  ghost predicate Under(ls: seq<string>, section: string, i: nat)
    requires i <= |ls|
  {
    exists h :: 0 <= h < i && KindOf(ls[h], section) == Head
             && forall j :: h < j < i ==> KindOf(ls[j], section) != Other
  }

  /** MAIN: inserted lines lie under the section's header, wherever the insertion happens. */
  lemma {:induction false} InsertedUnderSection(ls: seq<string>, section: string, keys: seq<string>, value: string,
      r: seq<string>)
    returns (p: nat)
    requires GoodKeys(keys) && OnePass(ls, section, keys, value, r) && Missing(ls, keys, value) != []
    ensures p + |Missing(ls, keys, value)| <= |r|
    ensures r[p..p + |Missing(ls, keys, value)|] == Missing(ls, keys, value)
    ensures forall i :: p <= i < p + |Missing(ls, keys, value)| ==> Under(r, section, i)
  {
    hide KindOf, NewLine, Missing, Under;
    var missing := Missing(ls, keys, value);
    var pre, post :| Cut(ls, section, pre, post)
                  && r == SetKeys(pre, keys, value) + missing + SetKeys(post, keys, value);
    p := |pre|;
    forall i | p <= i < p + |missing|
      ensures Under(r, section, i)
    {
      UnderCut(ls, section, keys, value, pre, post, r, i);
    }
    assert r[p..p + |missing|] == missing;
  }

  lemma {:induction false} UnderCut(ls: seq<string>, section: string, keys: seq<string>, value: string,
      pre: seq<string>, post: seq<string>, r: seq<string>, i: nat)
    requires GoodKeys(keys) && Cut(ls, section, pre, post)
    requires r == SetKeys(pre, keys, value) + Missing(ls, keys, value) + SetKeys(post, keys, value)
    requires |pre| <= i < |pre| + |Missing(ls, keys, value)|
    ensures Under(r, section, i)
  {
    hide KindOf, NewLine, Missing, Under;
    CutIsInsertPoint(ls, section, pre, post);
    KindsAppend(pre, post, section);
    KindsAfterSet(pre, keys, value, section);
    MissingArePlain(ls, keys, value, section);
    UnderHeader(SetKeys(pre, keys, value), Missing(ls, keys, value), SetKeys(post, keys, value),
        Kinds(pre + post, section), section, i);
  }

  lemma UnderHeader(a: seq<string>, m: seq<string>, b: seq<string>, ks: seq<Kind>, section: string, i: nat)
    requires InsertPoint(ks, |a|) && ks[..|a|] == Kinds(a, section) && |a| <= i <= |a| + |m|
    requires forall j :: 0 <= j < |m| ==> KindOf(m[j], section) == Plain
    ensures Under(a + m + b, section, i)
  {
    hide KindOf;
    var r := a + m + b;
    assert forall j :: 0 <= j < |a| ==> r[j] == a[j] && KindOf(a[j], section) == Kinds(a, section)[j] == ks[j];
    assert forall j :: |a| <= j < i ==> r[j] == m[j - |a|];
    var h :| 0 <= h < |ks[..|a|]| && ks[..|a|][h] == Head;
    assert ks[h] == Head;
  }

  // ---- the same, said of the text of the lines -------------------------------------------

  lemma {:induction false} NearestHeader(ls: seq<string>, section: string, i: nat)
    requires i <= |ls| && Under(ls, section, i)
    ensures InSection(ls, section, i)
  {
    hide Trim;
    var h :| 0 <= h < i && KindOf(ls[h], section) == Head && forall j :: h < j < i ==> KindOf(ls[j], section) != Other;
    if h == i - 1 {
      assert Trim(ls[h]) == "[" + section + "]";
    } else if KindOf(ls[i - 1], section) == Head {
      assert Trim(ls[i - 1]) == "[" + section + "]";
    } else {
      assert Under(ls, section, i - 1);
      NearestHeader(ls, section, i - 1);
    }
  }

  lemma SectionIsHead(ls: seq<string>, section: string)
    ensures HasSection(ls, section) <==> Head in Kinds(ls, section)
  {
    hide Trim;
    if HasSection(ls, section) {
      var i :| 0 <= i < |ls| && Trim(ls[i]) == "[" + section + "]";
      assert Kinds(ls, section)[i] == Head;
    }
  }

  /** Line l of the file, after a pass. */
  ghost predicate LineAfter(l: string, keys: seq<string>, value: string, l': string) {
    && ((forall k :: k in keys ==> !(k + "=" <= l)) ==> l' == l)
    && forall k :: k in keys && k + "=" <= l ==> l' == k + "=" + value
  }

  lemma {:induction false} NewLineSays(l: string, keys: seq<string>, value: string)
    requires GoodKeys(keys)
    ensures LineAfter(l, keys, value, NewLine(l, keys, value))
  {
    hide KindOf;
    forall k | k in keys && HasKey(l, k)
      ensures NewLine(l, keys, value) == k + "=" + value
    {
      NewLineFacts(l, keys, value, k, "");
    }
    assert forall k :: k in keys ==> (HasKey(l, k) <==> k + "=" <= l);
    assert forall i :: 0 <= i < |keys| ==> keys[i] in keys;
    OtherUnchanged(l, keys, value);
  }

  /** The missing lines are those of the keys that begin no line of the file. */
  lemma {:induction false} MissingSays(ls: seq<string>, keys: seq<string>, value: string, l: string)
    ensures l in Missing(ls, keys, value) <==>
            exists k :: k in keys && l == k + "=" + value && forall i :: 0 <= i < |ls| ==> !(k + "=" <= ls[i])
  {
    if keys != [] {
      var n := |keys| - 1;
      MissingSays(ls, keys[..n], value, l);
      MissingStep(ls, keys, value);
      assert keys == keys[..n] + [keys[n]];
      assert Present(ls, keys[n]) <==> exists i :: 0 <= i < |ls| && keys[n] + "=" <= ls[i];
    }
  }

  lemma SetKeysSay(ls: seq<string>, keys: seq<string>, value: string)
    requires GoodKeys(keys)
    ensures forall i :: 0 <= i < |ls| ==> LineAfter(ls[i], keys, value, SetKeys(ls, keys, value)[i])
  {
    hide LineAfter, NewLine, GoodKeys;
    forall i | 0 <= i < |ls|
      ensures LineAfter(ls[i], keys, value, SetKeys(ls, keys, value)[i])
    {
      NewLineSays(ls[i], keys, value);
    }
  }

  /** Where the lines of a file that is cut end up. */
  lemma CutSays(ls: seq<string>, section: string, keys: seq<string>, value: string, pre: seq<string>,
      post: seq<string>, m: seq<string>)
    requires GoodKeys(keys) && Cut(ls, section, pre, post)
    ensures var r, p := SetKeys(pre, keys, value) + m + SetKeys(post, keys, value), |pre|;
      if HasSection(ls, section) then
        && |r| == |ls| + |m|
        && forall i :: 0 <= i < |ls| ==> LineAfter(ls[i], keys, value, r[if i < p then i else i + |m|])
      else
        && p > |ls| && r[p - 1] == "[" + section + "]" && r[p + |m|..] == [""]
        && (forall i :: 0 <= i < |ls| ==> LineAfter(ls[i], keys, value, r[i]))
        && forall i :: |ls| <= i < p - 1 ==> r[i] == ""
  {
    hide LineAfter, NewLine, GoodKeys, KindOf, InsertPoint, HasSection, SetKeys;
    SectionIsHead(ls, section);
    SetKeysSay(pre, keys, value);
    SetKeysSay(post, keys, value);
    var a, b := SetKeys(pre, keys, value), SetKeys(post, keys, value);
    var r := a + m + b;
    assert forall i :: 0 <= i < |pre| ==> r[i] == a[i];
    assert forall i :: 0 <= i < |post| ==> r[|pre| + |m| + i] == b[i];
    if HasSection(ls, section) {
      assert forall i :: 0 <= i < |pre| ==> ls[i] == pre[i];
      assert forall i :: |pre| <= i < |ls| ==> ls[i] == post[i - |pre|];
    } else {
      HeaderUnset(section, keys, value);
      SetKeysAppend(Closed(ls), [Header(section)], keys, value);
      SetKeysAppend(ls, [""], keys, value);
      assert r[|pre| + |m|..] == b;
      assert forall i :: 0 <= i < |ls| ==> pre[i] == ls[i];
    }
  }

  /**
   * MAIN: every line of the file stays in its place, with its key set if it has one; the lines of the missing keys
   * are inserted together below `[section]`; and only a file without that line gets it, at its end.
   */
  lemma PassSays(ls: seq<string>, section: string, keys: seq<string>, value: string, r: seq<string>)
    returns (p: nat, missing: seq<string>)
    requires GoodKeys(keys) && OnePass(ls, section, keys, value, r)
    ensures forall l :: l in missing <==>
              exists k :: k in keys && l == k + "=" + value && forall i :: 0 <= i < |ls| ==> !(k + "=" <= ls[i])
    ensures p + |missing| <= |r| && r[p..p + |missing|] == missing
    ensures forall i :: p <= i < p + |missing| ==> InSection(r, section, i)
    ensures missing == [] || HasSection(ls, section) ==>
              && |r| == |ls| + |missing|
              && forall i :: 0 <= i < |ls| ==> LineAfter(ls[i], keys, value, r[if i < p then i else i + |missing|])
    ensures missing != [] && !HasSection(ls, section) ==>
              && p > |ls| && r[p - 1] == "[" + section + "]" && r[p + |missing|..] == [""]
              && (forall i :: 0 <= i < |ls| ==> LineAfter(ls[i], keys, value, r[i]))
              && (forall i :: |ls| <= i < p - 1 ==> r[i] == "")
  {
    hide KindOf, NewLine, Missing, Under, InSection, LineAfter, HasSection, Trim, Cut;
    missing := Missing(ls, keys, value);
    forall l
      ensures l in missing <==>
              exists k :: k in keys && l == k + "=" + value && forall i :: 0 <= i < |ls| ==> !(k + "=" <= ls[i])
    {
      MissingSays(ls, keys, value, l);
    }
    if missing == [] {
      p := 0;
      SetKeysSay(ls, keys, value);
    } else {
      var pre, post :| Cut(ls, section, pre, post)
                    && r == SetKeys(pre, keys, value) + missing + SetKeys(post, keys, value);
      p := |pre|;
      forall i | p <= i < p + |missing|
        ensures InSection(r, section, i)
      {
        UnderCut(ls, section, keys, value, pre, post, r, i);
        NearestHeader(r, section, i);
      }
      CutSays(ls, section, keys, value, pre, post, missing);
    }
  }

  // ---- qBittorrent.conf ------------------------------------------------------------------

  const SECTION := "Preferences"

  const KEYS: seq<string> := [
    "RSS\\AutoDownloader\\enabled",
    "RSS\\Session\\Enabled",
    "Bittorrent\\DHT",
    "Bittorrent\\PeX",
    "Bittorrent\\LSD"
  ]

  lemma KeysGood()
    ensures GoodKeys(KEYS) && OneLine(SECTION) && OneLine("false")
  {
    forall i | 0 <= i < |KEYS|
      ensures GoodKey(KEYS[i])
    {
      EachKeyGood(i);
    }
    hide GoodKey;
    assert KEYS[2][11] == 'D' && KEYS[3][11] == 'P' && KEYS[4][11] == 'L';
    assert |KEYS[0]| == 26 && |KEYS[1]| == 19 && |KEYS[2]| == |KEYS[3]| == |KEYS[4]| == 14;
  }

  lemma EachKeyGood(i: nat)
    requires i < |KEYS|
    ensures GoodKey(KEYS[i])
  {
  }

  /** MAIN: so each of the five settings is off, */
  lemma SettingOff(ls: seq<string>, r: seq<string>, k: string)
    requires OnePass(ls, SECTION, KEYS, "false", r)
    requires k in {"RSS\\AutoDownloader\\enabled", "RSS\\Session\\Enabled", "Bittorrent\\DHT", "Bittorrent\\PeX",
                   "Bittorrent\\LSD"}
    ensures exists i :: 0 <= i < |r| && r[i] == k + "=false"
    ensures forall i :: 0 <= i < |r| && k + "=" <= r[i] ==> r[i] == k + "=false"
  {
    KeysGood();
    KeyListed(k);
    hide OnePass, GoodKeys;
    KeysSet(ls, SECTION, KEYS, "false", r, k);
    OffIsPresent(r, k);
  }

  lemma OffIsPresent(r: seq<string>, k: string)
    requires Present(r, k) && forall i :: 0 <= i < |r| && HasKey(r[i], k) ==> r[i] == k + "=" + "false"
    ensures exists i :: 0 <= i < |r| && r[i] == k + "=false"
    ensures forall i :: 0 <= i < |r| && k + "=" <= r[i] ==> r[i] == k + "=false"
  {
    assert k + "=" + "false" == k + "=false";
    assert forall i :: 0 <= i < |r| ==> (HasKey(r[i], k) <==> k + "=" <= r[i]);
  }

  /** MAIN: and the lines of those that were missing stand below `[Preferences]`. */
  lemma PreferencesSay(ls: seq<string>, r: seq<string>) returns (p: nat, missing: seq<string>)
    requires OnePass(ls, SECTION, KEYS, "false", r)
    ensures p + |missing| <= |r| && r[p..p + |missing|] == missing && (forall l :: l in missing ==> l !in ls)
    ensures missing == [] || HasSection(ls, "Preferences") ==> |r| == |ls| + |missing|
    ensures forall i :: p <= i < p + |missing| ==> InSection(r, "Preferences", i)
  {
    KeysGood();
    hide OnePass, LineAfter, HasSection, InSection, GoodKeys, Trim;
    p, missing := PassSays(ls, SECTION, KEYS, "false", r);
    forall l | l in missing
      ensures l !in ls
    {
      var k :| k in KEYS && l == k + "=" + "false" && forall i :: 0 <= i < |ls| ==> !(k + "=" <= ls[i]);
      assert k + "=" <= l;
    }
  }

  lemma KeyListed(k: string)
    requires k in {"RSS\\AutoDownloader\\enabled", "RSS\\Session\\Enabled", "Bittorrent\\DHT", "Bittorrent\\PeX",
                   "Bittorrent\\LSD"}
    ensures k in KEYS
  {
    assert KEYS[0] in KEYS && KEYS[1] in KEYS && KEYS[2] in KEYS && KEYS[3] in KEYS && KEYS[4] in KEYS;
  }

  lemma NoKeysNoPass(ls: seq<string>)
    ensures OnePass(ls, SECTION, [], "false", ls)
  {
    assert SetKeys(ls, [], "false") == ls;
  }

  /** The loop of `enforceQBittorrentConf` over the keys. */
  method EnforceKeys(content: string) returns (patched: string)
    ensures OnePass(Lines(content), SECTION, KEYS, "false", Lines(patched))
  {
    hide OnePass, Patched;
    KeysGood();
    NoKeysNoPass(Lines(content));
    patched := content;
    for i := 0 to |KEYS|
      invariant OnePass(Lines(content), SECTION, KEYS[..i], "false", Lines(patched))
    {
      var before := patched;
      assert KEYS[i] in KEYS;
      patched := PatchIniKey(patched, SECTION, KEYS[i], "false");
      assert KEYS[..i + 1][..i] == KEYS[..i];
      OneMoreKey(Lines(content), SECTION, KEYS[..i + 1], "false", Lines(before), Lines(patched));
    }
    assert KEYS[..|KEYS|] == KEYS;
  }

  /** qBittorrent.conf, which may not exist yet; `writes` counts how often it has been written. */
  class ConfFile {
    var content: Option<string>
    var writes: nat

    constructor (content: Option<string>)
      ensures this.content == content && writes == 0
    {
      this.content, writes := content, 0;
    }

    /** `enforceQBittorrentConf`. */
    method Enforce()
      modifies this
      ensures old(content).None? ==> content.None?
      ensures old(content).Some? ==>
                content.Some? && OnePass(Lines(old(content).value), SECTION, KEYS, "false", Lines(content.value))
      ensures writes == old(writes) + if content == old(content) then 0 else 1
    {
      if content.None? { return; }
      var patched := EnforceKeys(content.value);
      if patched != content.value {
        content, writes := Some(patched), writes + 1;
      }
    }

    /** Two runs of `up` in a row: the writes and the content are those of the first alone. */
    method EnforceTwice()
      modifies this
      ensures old(content).Some? ==>
                content.Some? && OnePass(Lines(old(content).value), SECTION, KEYS, "false", Lines(content.value))
      ensures writes == old(writes) + if content == old(content) then 0 else 1
    {
      Enforce();
      ghost var once := content;
      Enforce();
      if once.Some? {
        KeysGood();
        PassSettles(Lines(old(content).value), SECTION, KEYS, "false", Lines(once.value), Lines(content.value));
        UnlinesLines(once.value);
        UnlinesLines(content.value);
      }
    }
  }
}
