/**
 * Rewriting XML configuration files by pattern (cmd/pelicula/seed.go) and the API-key
 * extraction that reads the same files (internal/config/config.go).
 *
 * The code runs one search-and-replace per setting. The specification, `OnePass`, sets all of
 * them at once; the sequence of rewrites is proved equal to it on every document.
 */
module XmlConfig {
  import opened Prelude
  import opened Text
  import opened XmlPattern

  /** `setXMLElement`. The root's closing tag is given by its name. */
  function SetXmlElement(doc: string, t: string, v: string, root: string): string {
    if Hits(doc, t) != [] then ReplaceAll(doc, t, Elem(t, v))
    else
      var i := LastIndex(doc, Close(root));
      if i >= 0 then doc[..i] + Insertion(t, v) + doc[i..] else doc
  }

  function Insertion(t: string, v: string): string { "  " + Elem(t, v) + "\n" }

  /** What `setXMLElement` inserts, and where. */
  lemma InsertSays(doc: string, t: string, v: string, root: string)
    requires Hits(doc, t) == []
    ensures var i := LastIndex(doc, "</" + root + ">");
      SetXmlElement(doc, t, v, root) ==
      if i >= 0 then doc[..i] + ("  <" + t + ">" + XmlEscape(v) + "</" + t + ">\n") + doc[i..] else doc
  {
    hide Hits, LastIndex, XmlEscape;
    assert Insertion(t, v) == "  <" + t + ">" + XmlEscape(v) + "</" + t + ">\n";
    assert Close(root) == "</" + root + ">";
  }

  datatype Setting = Setting(tag: string, value: string)

  /** One `setXMLElement` after another, in order. */
  function SetAll(doc: string, settings: seq<Setting>, root: string): string {
    if settings == [] then doc
    else
      var last := settings[|settings| - 1];
      SetXmlElement(SetAll(doc, settings[..|settings| - 1], root), last.tag, last.value, root)
  }

  /** Distinct plain names, none of them the root's. */
  predicate GoodSettings(settings: seq<Setting>, root: string) {
    && PlainTag(root)
    && (forall i :: 0 <= i < |settings| ==> PlainTag(settings[i].tag) && settings[i].tag != root)
    && (forall i, j :: 0 <= i < j < |settings| ==> settings[i].tag != settings[j].tag)
  }

  function Values(settings: seq<Setting>): (m: map<string, string>)
    ensures forall t :: t in m <==> exists i :: 0 <= i < |settings| && settings[i].tag == t
  {
    if settings == [] then map[]
    else
      var last := settings[|settings| - 1];
      var m := Values(settings[..|settings| - 1])[last.tag := last.value];
      assert forall i :: 0 <= i < |settings| - 1 ==> settings[..|settings| - 1][i] == settings[i];
      assert settings[|settings| - 1].tag in m;
      m
  }

  /** The elements that have to be inserted into doc, in the order of the settings. */
  function Insertions(doc: string, settings: seq<Setting>): string {
    if settings == [] then ""
    else
      var last := settings[|settings| - 1];
      Insertions(doc, settings[..|settings| - 1])
      + if Hits(doc, last.tag) == [] then Insertion(last.tag, last.value) else ""
  }

  /** All settings at once: every existing element is set, the missing ones go before the root's end. */
  ghost function OnePass(doc: string, settings: seq<Setting>, root: string): string {
    var m := Values(settings);
    var i := LastIndex(doc, Close(root));
    if i < 0 then Rewrite(doc, m)
    else Rewrite(doc[..i], m) + Insertions(doc, settings) + Rewrite(doc[i..], m)
  }

  // ---- inserted text is isolated from its surroundings -----------------------------------

  lemma BeforeInsertion(x: string, t: string, v: string, y: string, u: string)
    requires PlainTag(t) && PlainTag(u)
    ensures NoCross(x, Insertion(t, v) + y, u)
  {
    hide MatchLen;
    var z := Elem(t, v) + "\n" + y;
    forall k | 0 <= k < |x| ensures MatchLen(x[k..] + (Insertion(t, v) + y), u) == MatchLen(x[k..], u) {
      assert x[k..] + (Insertion(t, v) + y) == x[k..] + "  " + z;
      assert "<" + t <= z;
      MatchIsNotClosing(z, u, t);
      StopAtLt(x[k..] + "  ", z, u);
      StopWithoutGt(x[k..], "  ", u);
    }
  }

  lemma AfterInsertion(t: string, v: string, y: string, u: string)
    requires PlainTag(t) && PlainTag(u)
    ensures NoCross(Insertion(t, v), y, u)
  {
    hide MatchLen;
    var ins, e := Insertion(t, v), Elem(t, v);
    var z := e + ("\n" + y);
    ElemMatches(t, v, "\n" + y);
    forall k | 0 <= k < |ins| ensures MatchLen(ins[k..] + y, u) == MatchLen(ins[k..], u) {
      var s := ins[k..] + y;
      if 2 <= k < |e| + 2 {
        assert s == z[k - 2..];
        if t != u { MatchQuiet(z, t, u, k - 2); } else if k > 2 { InsideQuiet(z, t, u, k - 2); }
      } else {
        assert s[0] == ins[k];
      }
      CrossFree(ins[k..], y, u);
    }
  }

  lemma InsertionAlone(t: string, v: string, u: string, m: map<string, string>)
    requires PlainTag(t) && PlainTag(u) && PlainKeys(m)
    ensures Hits(Insertion(t, v), u) == if t == u then [Elem(t, v)] else []
    ensures Rewrite(Insertion(t, v), m) == Insertion(t, if t in m then m[t] else v)
  {
    hide MatchLen, Hits, Rewrite;
    var e := Elem(t, v);
    ElemMatches(t, v, "\n");
    HitsElement(e, "\n", t, u);
    RewriteElement(e, "\n", m, t);
    assert Insertion(t, v) == "  " + (e + "\n");
    QuietText("  ", e + "\n", u, m);
    QuietText("\n", "", u, m);
    assert "\n" + "" == "\n";
    NothingInEmpty(u, m);
  }

  /** Text without '<' holds no matches. */
  lemma QuietText(x: string, y: string, u: string, m: map<string, string>)
    requires '<' !in x
    ensures Hits(x + y, u) == Hits(y, u)
    ensures Rewrite(x + y, m) == x + Rewrite(y, m)
  {
    hide MatchLen, Hits, Rewrite;
    forall k, w: string | 0 <= k < |x| ensures MatchLen(x[k..] + y, w) == 0 {
      assert (x[k..] + y)[0] == x[k];
    }
    HitsQuiet(x, y, u);
    RewriteQuiet(x, y, m);
  }

  /** The settings with the values m gives, where it gives one. */
  function Updated(settings: seq<Setting>, m: map<string, string>): (r: seq<Setting>)
    ensures |r| == |settings|
    ensures forall i :: 0 <= i < |r| ==> r[i].tag == settings[i].tag
  {
    seq(|settings|, i requires 0 <= i < |settings| =>
      var s := settings[i]; Setting(s.tag, if s.tag in m then m[s.tag] else s.value))
  }

  /** The matches of u among the insertions. */
  function InsertedHits(doc: string, settings: seq<Setting>, u: string): seq<string> {
    if settings == [] then []
    else
      var last := settings[|settings| - 1];
      InsertedHits(doc, settings[..|settings| - 1], u)
      + if Hits(doc, last.tag) == [] && last.tag == u then [Elem(u, last.value)] else []
  }

  ghost predicate Ends(y: string, root: string) { y == "" || Close(root) <= y }

  lemma AtEnd(x: string, y: string, root: string, u: string)
    requires PlainTag(root) && PlainTag(u) && u != root && Ends(y, root)
    ensures NoCross(x, y, u)
  {
    hide MatchLen;
    if y != "" && Close(u) <= y { CloseDistinct(u, root, y); }
    NoCrossLt(x, y, u);
  }

  lemma Regroup<T>(x: seq<T>, a: seq<T>, b: seq<T>, y: seq<T>)
    ensures x + (a + b) + y == (x + a) + (b + y)
  {
  }

  lemma NoTail<T>(x: seq<T>)
    ensures x + [] == x
  {
  }

  lemma LastInsertion(doc: string, ss: seq<Setting>, u: string)
    requires ss != []
    ensures var n := |ss| - 1;
            var t, v := ss[n].tag, ss[n].value;
      if Hits(doc, t) == []
      then && Insertions(doc, ss) == Insertions(doc, ss[..n]) + Insertion(t, v)
           && InsertedHits(doc, ss, u) == InsertedHits(doc, ss[..n], u) + if t == u then [Elem(u, v)] else []
      else && Insertions(doc, ss) == Insertions(doc, ss[..n])
           && InsertedHits(doc, ss, u) == InsertedHits(doc, ss[..n], u)
  {
    hide Hits, Insertion, Elem;
    NoTail(Insertions(doc, ss[..|ss| - 1]));
    NoTail(InsertedHits(doc, ss[..|ss| - 1], u));
  }

  /** Elements before, inside and after the insertions are found separately. */
  lemma {:induction false} HitsAround(x: string, doc: string, ss: seq<Setting>, y: string, u: string, root: string)
    requires GoodSettings(ss, root) && PlainTag(u) && u != root && Ends(y, root)
    ensures Hits(x + Insertions(doc, ss) + y, u) == Hits(x, u) + InsertedHits(doc, ss, u) + Hits(y, u)
  {
    hide MatchLen, Hits;
    if ss == [] {
      AtEnd(x, y, root, u);
      NoTail(x);
      HitsSplit(x, y, u);
      NoTail(Hits(x, u));
    } else {
      LastInsertion(doc, ss, u);
      hide Insertions, InsertedHits, Insertion, Elem;
      var n := |ss| - 1;
      var t, v := ss[n].tag, ss[n].value;
      if Hits(doc, t) == [] {
        NothingInEmpty(u, map[]);
        HitsAround(x, doc, ss[..n], "", u, root);
        NoTail(x + Insertions(doc, ss[..n]));
        NoTail(Hits(x, u) + InsertedHits(doc, ss[..n], u));
        HitsInsertion(x + Insertions(doc, ss[..n]), t, v, y, u);
        Regroup(x, Insertions(doc, ss[..n]), Insertion(t, v), y);
        Regroup(Hits(x, u), InsertedHits(doc, ss[..n], u), if t == u then [Elem(u, v)] else [], Hits(y, u));
      } else {
        HitsAround(x, doc, ss[..n], y, u, root);
      }
    }
  }

  lemma {:induction false} HitsInsertion(x: string, t: string, v: string, y: string, u: string)
    requires PlainTag(t) && PlainTag(u)
    ensures Hits(x + (Insertion(t, v) + y), u) == Hits(x, u) + ((if t == u then [Elem(u, v)] else []) + Hits(y, u))
  {
    hide MatchLen, Hits;
    BeforeInsertion(x, t, v, y, u);
    HitsSplit(x, Insertion(t, v) + y, u);
    AfterInsertion(t, v, y, u);
    HitsSplit(Insertion(t, v), y, u);
    InsertionAlone(t, v, u, map[]);
  }

  /** Rewriting works before, inside and after the insertions separately. */
  lemma {:induction false} RewriteAround(x: string, doc: string, ss: seq<Setting>, y: string, m: map<string, string>,
      root: string)
    requires GoodSettings(ss, root) && PlainKeys(m) && root !in m && Ends(y, root)
    ensures Rewrite(x + Insertions(doc, ss) + y, m)
         == Rewrite(x, m) + Insertions(doc, Updated(ss, m)) + Rewrite(y, m)
  {
    hide MatchLen, Rewrite;
    if ss == [] {
      NoTail(x);
      forall u | u in m ensures NoCross(x, y, u) { AtEnd(x, y, root, u); }
      RewriteSplit(x, y, m);
      NoTail(Rewrite(x, m));
    } else {
      var n := |ss| - 1;
      RewriteAround(x, doc, ss[..n], if Hits(doc, ss[n].tag) == [] then "" else y, m, root);
      RewriteAroundStep(x, doc, ss, y, m);
    }
  }

  lemma {:induction false} RewriteAroundStep(x: string, doc: string, ss: seq<Setting>, y: string,
      m: map<string, string>)
    requires PlainKeys(m) && ss != [] && PlainTag(ss[|ss| - 1].tag)
    requires var n := |ss| - 1; var z := if Hits(doc, ss[n].tag) == [] then "" else y;
             Rewrite(x + Insertions(doc, ss[..n]) + z, m)
             == Rewrite(x, m) + Insertions(doc, Updated(ss[..n], m)) + Rewrite(z, m)
    ensures Rewrite(x + Insertions(doc, ss) + y, m)
         == Rewrite(x, m) + Insertions(doc, Updated(ss, m)) + Rewrite(y, m)
  {
    hide MatchLen, Rewrite;
    var n := |ss| - 1;
    var t, v := ss[n].tag, ss[n].value;
    InsertionsStep(doc, ss);
    InsertionsStep(doc, Updated(ss, m));
    assert Updated(ss, m)[..n] == Updated(ss[..n], m);
    var before, after := Insertions(doc, ss[..n]), Insertions(doc, Updated(ss[..n], m));
    if Hits(doc, t) == [] {
      NothingInEmpty(t, m);
      NoTail(x + before);
      NoTail(Rewrite(x, m) + after);
      RewriteInsertion(x + before, t, v, y, m);
      Regroup(x, before, Insertion(t, v), y);
      Regroup(Rewrite(x, m), after, Insertion(t, if t in m then m[t] else v), Rewrite(y, m));
    }
  }

  lemma {:induction false} InsertionsStep(doc: string, ss: seq<Setting>)
    requires ss != []
    ensures var n := |ss| - 1;
            Insertions(doc, ss) == if Hits(doc, ss[n].tag) == []
                                   then Insertions(doc, ss[..n]) + Insertion(ss[n].tag, ss[n].value)
                                   else Insertions(doc, ss[..n])
  {
    NoTail(Insertions(doc, ss[..|ss| - 1]));
  }

  lemma {:induction false} RewriteInsertion(x: string, t: string, v: string, y: string, m: map<string, string>)
    requires PlainTag(t) && PlainKeys(m)
    ensures Rewrite(x + (Insertion(t, v) + y), m)
         == Rewrite(x, m) + (Insertion(t, if t in m then m[t] else v) + Rewrite(y, m))
  {
    hide MatchLen, Rewrite;
    forall u | u in m ensures NoCross(x, Insertion(t, v) + y, u) && NoCross(Insertion(t, v), y, u) {
      BeforeInsertion(x, t, v, y, u);
      AfterInsertion(t, v, y, u);
    }
    RewriteSplit(x, Insertion(t, v) + y, m);
    RewriteSplit(Insertion(t, v), y, m);
    InsertionAlone(t, v, t, m);
  }

  lemma {:induction false} NoInsertedHits(doc: string, ss: seq<Setting>, u: string)
    requires forall i :: 0 <= i < |ss| ==> ss[i].tag != u
    ensures InsertedHits(doc, ss, u) == []
  {
    if ss != [] { NoInsertedHits(doc, ss[..|ss| - 1], u); }
  }

  lemma GoodPrefix(ss: seq<Setting>, root: string, n: nat)
    requires GoodSettings(ss, root) && n <= |ss|
    ensures GoodSettings(ss[..n], root) && PlainKeys(Values(ss)) && root !in Values(ss)
    ensures n < |ss| ==> ss[n].tag !in Values(ss[..n])
  {
  }

  // ---- the sequence of rewrites is the one pass ------------------------------------------

  /** Where the last root tag of a one-pass result is. */
  lemma RootOfOnePass(doc: string, ss: seq<Setting>, root: string)
    requires GoodSettings(ss, root)
    ensures var p := Close(root); var i := LastIndex(doc, p); var j := LastIndex(OnePass(doc, ss, root), p);
            if i < 0 then j < 0
            else && j == |Rewrite(doc[..i], Values(ss)) + Insertions(doc, ss)|
                 && Close(root) <= Rewrite(doc[i..], Values(ss))
  {
    var p := Close(root);
    var i := LastIndex(doc, p);
    var m := Values(ss);
    GoodPrefix(ss, root, 0);
    if i < 0 {
      RootAbsent(doc, m, root);
    } else {
      RootSplit(doc, m, root);
      LastAt(Rewrite(doc[..i], m) + Insertions(doc, ss), Rewrite(doc[i..], m), p);
    }
  }

  lemma {:induction false} HitsAroundRoot(doc: string, u: string, root: string)
    requires PlainTag(root) && PlainTag(u) && u != root && LastIndex(doc, Close(root)) >= 0
    ensures var i := LastIndex(doc, Close(root)); Hits(doc, u) == Hits(doc[..i], u) + Hits(doc[i..], u)
  {
    hide Hits, MatchLen, LastIndex;
    var i := LastIndex(doc, Close(root));
    AtEnd(doc[..i], doc[i..], root, u);
    HitsSplit(doc[..i], doc[i..], u);
    assert doc[..i] + doc[i..] == doc;
  }

  /** The elements named u in a one-pass result, whether u is one of the settings or not. */
  lemma {:induction false} HitsOfOnePass(doc: string, ss: seq<Setting>, root: string, u: string)
    requires GoodSettings(ss, root) && PlainTag(u) && u != root
    ensures Hits(OnePass(doc, ss, root), u)
         == Revalued(Hits(doc, u), Values(ss), u)
            + if LastIndex(doc, Close(root)) < 0 then [] else InsertedHits(doc, ss, u)
  {
    var m := Values(ss);
    var i := LastIndex(doc, Close(root));
    GoodPrefix(ss, root, 0);
    if i < 0 {
      HitsRewrite(doc, m, u);
    } else {
      RootSplit(doc, m, root);
      var a, b := doc[..i], doc[i..];
      HitsAround(Rewrite(a, m), doc, ss, Rewrite(b, m), u, root);
      HitsRewrite(a, m, u);
      HitsRewrite(b, m, u);
      HitsAroundRoot(doc, u, root);
      InsertedOnlyWhenMissing(doc, ss, u);
      MergeHits(Hits(a, u), Hits(b, u), InsertedHits(doc, ss, u), m, u);
    }
  }

  lemma {:induction false} InsertedOnlyWhenMissing(doc: string, ss: seq<Setting>, u: string)
    ensures Hits(doc, u) != [] ==> InsertedHits(doc, ss, u) == []
  {
    if ss != [] { InsertedOnlyWhenMissing(doc, ss[..|ss| - 1], u); }
  }

  lemma MergeHits(a: seq<string>, b: seq<string>, c: seq<string>, m: map<string, string>, u: string)
    requires a + b != [] ==> c == []
    ensures Revalued(a, m, u) + c + Revalued(b, m, u) == Revalued(a + b, m, u) + c
  {
  }

  /** MAIN: setting the elements one after another is setting them all at once. */
  lemma {:induction false} SetAllIsOnePass(doc: string, ss: seq<Setting>, root: string)
    requires GoodSettings(ss, root)
    ensures SetAll(doc, ss, root) == OnePass(doc, ss, root)
  {
    if ss == [] {
      var i := LastIndex(doc, Close(root));
      RewriteNothing(doc);
      if i >= 0 {
        RewriteNothing(doc[..i]);
        RewriteNothing(doc[i..]);
      }
    } else {
      var n := |ss| - 1;
      GoodPrefix(ss, root, n);
      SetAllIsOnePass(doc, ss[..n], root);
      OneMore(doc, ss, root);
    }
  }

  lemma {:induction false} RewriteNothing(s: string)
    ensures Rewrite(s, map[]) == s
  {
    if s != "" { RewriteNothing(s[1..]); }
  }

  lemma {:induction false} OneMore(doc: string, ss: seq<Setting>, root: string)
    requires GoodSettings(ss, root) && ss != []
    ensures var n := |ss| - 1;
            SetXmlElement(OnePass(doc, ss[..n], root), ss[n].tag, ss[n].value, root) == OnePass(doc, ss, root)
  {
    var n := |ss| - 1;
    var t, v := ss[n].tag, ss[n].value;
    GoodPrefix(ss, root, n);
    assert forall k :: 0 <= k < n ==> ss[..n][k].tag == ss[k].tag != t;
    HitsOfOnePass(doc, ss[..n], root, t);
    NoInsertedHits(doc, ss[..n], t);
    assert Hits(OnePass(doc, ss[..n], root), t) == Hits(doc, t);
    if Hits(doc, t) != [] { OneMoreSet(doc, ss, root); } else { OneMoreInserted(doc, ss, root); }
  }

  lemma {:induction false} OneMoreSet(doc: string, ss: seq<Setting>, root: string)
    requires GoodSettings(ss, root) && ss != [] && Hits(doc, ss[|ss| - 1].tag) != []
    ensures var n := |ss| - 1;
            ReplaceAll(OnePass(doc, ss[..n], root), ss[n].tag, Elem(ss[n].tag, ss[n].value)) == OnePass(doc, ss, root)
  {
    hide MatchLen, Hits, Rewrite, ReplaceAll, Values, Insertions, GoodSettings;
    var n := |ss| - 1;
    var one := map[ss[n].tag := ss[n].value];
    LastIsPlain(ss, root);
    GoodPrefix(ss, root, n);
    ReplaceAllIsRewrite(OnePass(doc, ss[..n], root), ss[n].tag, ss[n].value);
    RewriteOnePass(doc, ss[..n], one, root);
    ValuesStep(ss);
    assert Updated(ss[..n], one) == ss[..n];
    InsertionsStep(doc, ss);
  }

  lemma LastIsPlain(ss: seq<Setting>, root: string)
    requires GoodSettings(ss, root) && ss != []
    ensures PlainTag(ss[|ss| - 1].tag) && ss[|ss| - 1].tag != root && PlainTag(root)
    ensures PlainKeys(map[ss[|ss| - 1].tag := ss[|ss| - 1].value])
    ensures forall i :: 0 <= i < |ss| - 1 ==> ss[i].tag != ss[|ss| - 1].tag
  {
  }

  lemma {:induction false} ValuesStep(ss: seq<Setting>)
    requires ss != []
    ensures var n := |ss| - 1; Values(ss) == Values(ss[..n]) + map[ss[n].tag := ss[n].value]
  {
  }

  /** Rewriting a one-pass result updates the values everywhere, also in what was inserted. */
  lemma {:induction false} RewriteOnePass(doc: string, ss: seq<Setting>, m: map<string, string>, root: string)
    requires GoodSettings(ss, root) && PlainKeys(m) && root !in m
    ensures var i := LastIndex(doc, Close(root)); var all := Values(ss) + m;
            Rewrite(OnePass(doc, ss, root), m)
            == if i < 0 then Rewrite(doc, all)
               else Rewrite(doc[..i], all) + Insertions(doc, Updated(ss, m)) + Rewrite(doc[i..], all)
  {
    GoodPrefix(ss, root, 0);
    var i := LastIndex(doc, Close(root));
    if i < 0 {
      RewriteFusion(doc, Values(ss), m);
    } else {
      RewriteFusion(doc[..i], Values(ss), m);
      RewriteFusion(doc[i..], Values(ss), m);
      RootSplit(doc, Values(ss), root);
      RewriteAround(Rewrite(doc[..i], Values(ss)), doc, ss, Rewrite(doc[i..], Values(ss)), m, root);
    }
  }

  lemma {:induction false} OneMoreInserted(doc: string, ss: seq<Setting>, root: string)
    requires GoodSettings(ss, root) && ss != [] && Hits(doc, ss[|ss| - 1].tag) == []
    ensures var n := |ss| - 1; var d := OnePass(doc, ss[..n], root); var i := LastIndex(d, Close(root));
            (if i >= 0 then d[..i] + Insertion(ss[n].tag, ss[n].value) + d[i..] else d) == OnePass(doc, ss, root)
  {
    var n := |ss| - 1;
    var t, v := ss[n].tag, ss[n].value;
    GoodPrefix(ss, root, n);
    RootOfOnePass(doc, ss[..n], root);
    UnusedParts(doc, ss, root);
    var i := LastIndex(doc, Close(root));
    if i >= 0 {
      var m := Values(ss[..n]);
      SpliceAt(Rewrite(doc[..i], m), Insertions(doc, ss[..n]), Insertion(t, v), Rewrite(doc[i..], m));
    }
  }

  lemma {:induction false} UnusedParts(doc: string, ss: seq<Setting>, root: string)
    requires GoodSettings(ss, root) && ss != [] && Hits(doc, ss[|ss| - 1].tag) == []
    ensures var m, m' := Values(ss[..|ss| - 1]), Values(ss); var i := LastIndex(doc, Close(root));
            if i < 0 then Rewrite(doc, m') == Rewrite(doc, m)
            else Rewrite(doc[..i], m') == Rewrite(doc[..i], m) && Rewrite(doc[i..], m') == Rewrite(doc[i..], m)
  {
    var n := |ss| - 1;
    var t, v := ss[n].tag, ss[n].value;
    GoodPrefix(ss, root, n);
    GoodPrefix(ss[..n], root, n);
    var m := Values(ss[..n]);
    var i := LastIndex(doc, Close(root));
    if i < 0 {
      UnusedSetting(doc, m, t, v);
    } else {
      HitsAroundRoot(doc, t, root);
      UnusedSetting(doc[..i], m, t, v);
      UnusedSetting(doc[i..], m, t, v);
    }
  }

  lemma SpliceAt(a: string, ins: string, more: string, b: string)
    ensures var d := a + ins + b; d[..|a + ins|] + more + d[|a + ins|..] == a + (ins + more) + b
  {
    var d := a + ins + b;
    assert d[..|a + ins|] == a + ins && d[|a + ins|..] == b;
  }

  /** A value for an element the text does not have changes nothing. */
  lemma {:induction false} UnusedSetting(s: string, m: map<string, string>, t: string, v: string)
    requires PlainTag(t) && PlainKeys(m) && t !in m && Hits(s, t) == []
    ensures Rewrite(s, m[t := v]) == Rewrite(s, m)
  {
    assert m[t := v] == m + map[t := v];
    RewriteFusion(s, m, map[t := v]);
    HitsRewrite(s, m, t);
    RewriteWithoutHits(Rewrite(s, m), t, v);
  }

  // ---- what the rewriting promises -------------------------------------------------------

  lemma {:induction false} InsertedWhenMissing(doc: string, ss: seq<Setting>, root: string, i: nat)
    requires GoodSettings(ss, root) && i < |ss| && Hits(doc, ss[i].tag) == []
    ensures InsertedHits(doc, ss, ss[i].tag) == [Elem(ss[i].tag, ss[i].value)]
  {
    var n := |ss| - 1;
    GoodPrefix(ss, root, n);
    if i < n {
      InsertedWhenMissing(doc, ss[..n], root, i);
    } else {
      NoInsertedHits(doc, ss[..n], ss[n].tag);
    }
  }

  lemma {:induction false} ValueOf(ss: seq<Setting>, root: string, i: nat)
    requires GoodSettings(ss, root) && i < |ss|
    ensures ss[i].tag in Values(ss) && Values(ss)[ss[i].tag] == ss[i].value
  {
    var n := |ss| - 1;
    GoodPrefix(ss, root, n);
    if i < n { ValueOf(ss[..n], root, i); }
  }

  /**
   * Every element named by a setting ends up with its value; a missing one appears exactly when the root's
   * end is there.
   */
  lemma {:induction false} SettingsApplied(doc: string, ss: seq<Setting>, root: string, i: nat)
    requires GoodSettings(ss, root) && i < |ss|
    ensures var e := Elem(ss[i].tag, ss[i].value);
            var hits := Hits(SetAll(doc, ss, root), ss[i].tag);
            && (forall h :: h in hits ==> h == e)
            && |hits| == if Hits(doc, ss[i].tag) != [] then |Hits(doc, ss[i].tag)|
                         else if LastIndex(doc, Close(root)) >= 0 then 1 else 0
  {
    SetAllIsOnePass(doc, ss, root);
    HitsOfOnePass(doc, ss, root, ss[i].tag);
    AppliedHits(doc, ss, root, i);
  }

  lemma {:induction false} AppliedHits(doc: string, ss: seq<Setting>, root: string, i: nat)
    requires GoodSettings(ss, root) && i < |ss|
    ensures var t := ss[i].tag;
            && Revalued(Hits(doc, t), Values(ss), t) == seq(|Hits(doc, t)|, _ => Elem(t, ss[i].value))
            && InsertedHits(doc, ss, t) == if Hits(doc, t) == [] then [Elem(t, ss[i].value)] else []
  {
    ValueOf(ss, root, i);
    InsertedOnlyWhenMissing(doc, ss, ss[i].tag);
    if Hits(doc, ss[i].tag) == [] { InsertedWhenMissing(doc, ss, root, i); }
  }

  /** Elements no setting names, and other than the root, are kept as they are, in order. */
  lemma OthersKept(doc: string, ss: seq<Setting>, root: string, u: string)
    requires GoodSettings(ss, root) && PlainTag(u) && u != root
    requires forall i :: 0 <= i < |ss| ==> ss[i].tag != u
    ensures Hits(SetAll(doc, ss, root), u) == Hits(doc, u)
  {
    SetAllIsOnePass(doc, ss, root);
    HitsOfOnePass(doc, ss, root, u);
    NoInsertedHits(doc, ss, u);
  }

  /** MAIN: applying new values after old ones is applying the new ones alone; so a rerun is a no-op. */
  lemma {:induction false} LastValuesWin(doc: string, ss1: seq<Setting>, ss2: seq<Setting>, root: string)
    requires GoodSettings(ss1, root) && GoodSettings(ss2, root) && |ss1| == |ss2|
    requires forall i :: 0 <= i < |ss1| ==> ss1[i].tag == ss2[i].tag
    ensures SetAll(SetAll(doc, ss1, root), ss2, root) == SetAll(doc, ss2, root)
  {
    hide MatchLen, Hits, Rewrite, SetAll, Insertions;
    var d := OnePass(doc, ss1, root);
    SetAllIsOnePass(doc, ss1, root);
    SetAllIsOnePass(d, ss2, root);
    SetAllIsOnePass(doc, ss2, root);
    GoodPrefix(ss2, root, 0);
    RewriteOnePass(doc, ss1, Values(ss2), root);
    SameKeys(ss1, ss2, root);
    assert Values(ss1) + Values(ss2) == Values(ss2);
    assert Updated(ss1, Values(ss2)) == ss2 by {
      forall i | 0 <= i < |ss1| ensures Updated(ss1, Values(ss2))[i] == ss2[i] { ValueOf(ss2, root, i); }
    }
    AllPresent(doc, ss1, ss2, root);
  }

  lemma SameKeys(ss1: seq<Setting>, ss2: seq<Setting>, root: string)
    requires |ss1| == |ss2| && forall i :: 0 <= i < |ss1| ==> ss1[i].tag == ss2[i].tag
    ensures Values(ss1).Keys == Values(ss2).Keys
  {
    forall t ensures t in Values(ss1) <==> t in Values(ss2) {
      if i :| 0 <= i < |ss1| && ss1[i].tag == t { assert ss2[i].tag == t; }
      if i :| 0 <= i < |ss2| && ss2[i].tag == t { assert ss1[i].tag == t; }
    }
  }

  /** A second pass over a one-pass result has nothing to insert. */
  lemma {:induction false} AllPresent(doc: string, ss1: seq<Setting>, ss2: seq<Setting>, root: string)
    requires GoodSettings(ss1, root) && GoodSettings(ss2, root) && |ss1| == |ss2|
    requires forall i :: 0 <= i < |ss1| ==> ss1[i].tag == ss2[i].tag
    ensures var d := OnePass(doc, ss1, root); OnePass(d, ss2, root) == Rewrite(d, Values(ss2))
  {
    var d := OnePass(doc, ss1, root);
    RootOfOnePass(doc, ss1, root);
    if LastIndex(doc, Close(root)) >= 0 {
      GoodPrefix(ss2, root, 0);
      RootSplit(d, Values(ss2), root);
      forall i | 0 <= i < |ss2| ensures Hits(d, ss2[i].tag) != [] {
        SetAllIsOnePass(doc, ss1, root);
        SettingsApplied(doc, ss1, root, i);
      }
      NothingToInsert(d, ss2);
      NoTail(Rewrite(d[..LastIndex(d, Close(root))], Values(ss2)));
    }
  }

  lemma {:induction false} NothingToInsert(d: string, ss: seq<Setting>)
    requires forall i :: 0 <= i < |ss| ==> Hits(d, ss[i].tag) != []
    ensures Insertions(d, ss) == ""
  {
    if ss != [] {
      NothingToInsert(d, ss[..|ss| - 1]);
      InsertionsStep(d, ss);
    }
  }

  // ---- the API key -----------------------------------------------------------------------

  /** The group captured by `<t>([^<]+)</t>` at the head of s. */
  function CaptureAt(s: string, t: string): Option<string> {
    if Open(t) <= s then
      var rest := s[|Open(t)|..];
      var k := TextLen(rest);
      if k > 0 && Close(t) <= rest[k..] then Some(rest[..k]) else None
    else None
  }

  /** `FindSubmatch`: the capture of the leftmost match. */
  function FindCapture(s: string, t: string): Option<string> {
    if s == "" then None else if CaptureAt(s, t).Some? then CaptureAt(s, t) else FindCapture(s[1..], t)
  }

  /** `Config.ArrAPIKey` on the file's content; None stands for its error. */
  function ArrApiKey(doc: string): Option<string> {
    match FindCapture(doc, "ApiKey")
    case None => None
    case Some(key) => Some(Trim(key))
  }

  function FirstCapture(hits: seq<string>, t: string): Option<string> {
    if hits == [] then None
    else if CaptureAt(hits[0], t).Some? then CaptureAt(hits[0], t)
    else FirstCapture(hits[1..], t)
  }

  lemma CaptureIsMatch(s: string, t: string)
    requires CaptureAt(s, t).Some?
    ensures MatchLen(s, t) > 0
  {
    var rest := s[|Open(t)|..];
    var text := rest[..TextLen(rest)];
    var tail := rest[|text|..];
    assert Open(t) <= s && Close(t) <= tail && '<' !in text && |Open(t)| > 0;
    hide CaptureAt, MatchLen, Open, Close, TextLen;
    var x := tail[|Close(t)|..];
    Glue(Close(t), x, tail);
    Glue(Open(t), rest, s);
    Glue(text, tail, rest);
    FourParts(Open(t), text, Close(t), x);
    MatchOpenForm(t, text, x);
  }

  lemma {:induction false} CaptureInMatch(s: string, t: string)
    requires PlainTag(t) && MatchLen(s, t) > 0
    ensures CaptureAt(s[..MatchLen(s, t)], t) == CaptureAt(s, t)
  {
    var n := MatchLen(s, t);
    var open, mid := MatchShape(s, t);
    var x := s[n..];
    Glue(s[..n], x, s);
    if open {
      OpenCapture(t, mid, x);
      OpenCapture(t, mid, "");
      NoTail(s[..n]);
    } else {
      NameEnds(s, t);
      SelfClosingCapture(t, mid, x);
      SelfClosingCapture(t, mid, "");
      NoTail(s[..n]);
    }
  }

  lemma {:induction false} OpenCapture(t: string, mid: string, x: string)
    requires '<' !in mid
    ensures CaptureAt(Open(t) + mid + Close(t) + x, t) == if mid == "" then None else Some(mid)
  {
    var s := Open(t) + mid + Close(t) + x;
    var tail := Close(t) + x;
    assert s == Open(t) + (mid + tail);
    assert s[|Open(t)|..] == mid + tail;
    TextLenIs(mid, tail);
    assert (mid + tail)[|mid|..] == tail && (mid + tail)[..|mid|] == mid;
  }

  lemma {:induction false} SelfClosingCapture(t: string, sp: string, x: string)
    requires AllSpace(sp)
    ensures CaptureAt("<" + t + sp + "/>" + x, t) == None
  {
    var s := "<" + t + sp + "/>" + x;
    assert s[|t| + 1] == (sp + "/>")[0];
    assert Open(t)[|t| + 1] == '>';
  }

  /** The capture at the head of s is the text of an element that is not empty. */
  lemma CaptureExactly(s: string, t: string)
    ensures forall text, x :: OpenAt(s, t, text, x) && text != "" ==> CaptureAt(s, t) == Some(text)
    ensures CaptureAt(s, t).Some? ==> exists text, x :: OpenAt(s, t, text, x) && text != ""
  {
    hide CaptureAt;
    forall text, x | OpenAt(s, t, text, x) && text != ""
      ensures CaptureAt(s, t) == Some(text)
    {
      assert s == Open(t) + text + Close(t) + x;
      OpenCapture(t, text, x);
    }
    if CaptureAt(s, t).Some? { CaptureParts(s, t); }
  }

  lemma CaptureParts(s: string, t: string)
    requires CaptureAt(s, t).Some?
    ensures exists text, x :: OpenAt(s, t, text, x) && text != ""
  {
    var rest := s[|Open(t)|..];
    var text := rest[..TextLen(rest)];
    var tail := rest[|text|..];
    assert Open(t) <= s && Close(t) <= tail && '<' !in text && text != "";
    hide CaptureAt, TextLen;
    var x := tail[|Close(t)|..];
    Glue(Close(t), x, tail);
    Glue(Open(t), rest, s);
    Glue(text, tail, rest);
    FourParts(Open(t), text, Close(t), x);
    OpenIsAt(s, t, text, x);
  }

  /** MAIN: the key read is the trimmed text of the first `<ApiKey>` element that is not empty, if there is one. */
  lemma {:induction false} KeyRead(doc: string, k: nat)
    requires k <= |doc|
    requires forall j, w, z :: 0 <= j < k ==> !(OpenAt(doc[j..], "ApiKey", w, z) && w != "")
    ensures forall text, y :: OpenAt(doc[k..], "ApiKey", text, y) && text != "" ==> ArrApiKey(doc) == Some(Trim(text))
    ensures k == |doc| ==> ArrApiKey(doc) == None
  {
    var t := "ApiKey";
    hide CaptureAt, OpenAt, Trim;
    assert doc[0..] == doc;
    if doc != "" {
      CaptureExactly(doc, t);
      if k > 0 {
        assert CaptureAt(doc, t).None?;
        assert forall j :: 0 <= j < |doc| ==> doc[1..][j..] == doc[j + 1..];
        KeyRead(doc[1..], k - 1);
        assert doc[1..][k - 1..] == doc[k..];
      }
    } else {
      NoOpenAt(t);
    }
  }

  lemma NoOpenAt(t: string)
    ensures forall text, y :: !OpenAt("", t, text, y)
  {
  }

  /** The key is determined by the list of <ApiKey> elements. */
  lemma {:induction false} CaptureFromHits(s: string, t: string)
    requires PlainTag(t)
    ensures FindCapture(s, t) == FirstCapture(Hits(s, t), t)
  {
    if s != "" {
      var n := MatchLen(s, t);
      if n > 0 {
        CaptureFromHits(s[n..], t);
        CaptureInMatch(s, t);
        if CaptureAt(s, t).None? { SkipInside(s, t, n, 1); }
      } else {
        CaptureFromHits(s[1..], t);
        if CaptureAt(s, t).Some? { CaptureIsMatch(s, t); }
      }
    }
  }

  lemma {:induction false} SkipInside(s: string, t: string, n: nat, k: nat)
    requires PlainTag(t) && 0 < k <= n == MatchLen(s, t)
    ensures FindCapture(s[k..], t) == FindCapture(s[n..], t)
    decreases n - k
  {
    if k < n {
      InsideQuiet(s, t, t, k);
      if CaptureAt(s[k..], t).Some? { CaptureIsMatch(s[k..], t); }
      assert s[k..][1..] == s[k + 1..];
      SkipInside(s, t, n, k + 1);
    }
  }

  // ---- the *arr configuration ------------------------------------------------------------

  const ROOT := "Config"

  function ArrSettings(urlBase: string): seq<Setting> {
    [ Setting("UrlBase", urlBase),
      Setting("AuthenticationMethod", "External"),
      Setting("AuthenticationRequired", "DisabledForLocalAddresses"),
      Setting("AnalyticsEnabled", "False") ]
  }

  /** The text transformation of `enforceArrConfig`. */
  function EnforceArr(doc: string, urlBase: string): string { SetAll(doc, ArrSettings(urlBase), ROOT) }

  lemma ArrSettingsGood(urlBase: string)
    ensures GoodSettings(ArrSettings(urlBase), ROOT)
  {
    assert PlainTag("UrlBase");
    assert PlainTag("AuthenticationMethod");
    assert PlainTag("AuthenticationRequired");
    assert PlainTag("AnalyticsEnabled");
    assert PlainTag("Config");
    assert "AuthenticationMethod"[14] == 'M' && "AuthenticationRequired"[14] == 'R';
    assert |"UrlBase"| == 7 && |"AuthenticationMethod"| == 20 && |"AuthenticationRequired"| == 22
        && |"AnalyticsEnabled"| == 16 && |"Config"| == 6;
  }

  /** An element of a set tag, wherever it stands in the enforced document, reads as its setting. */
  lemma SettingRead(doc: string, ss: seq<Setting>, root: string, i: nat, x: string, text: string, y: string)
    requires GoodSettings(ss, root) && i < |ss| && '<' !in text
    requires SetAll(doc, ss, root) == x + ("<" + ss[i].tag + ">" + text + "</" + ss[i].tag + ">" + y)
    ensures text == XmlEscape(ss[i].value)
  {
    hide SetAll, Hits, MatchLen, GoodSettings, XmlEscape;
    var s, t := SetAll(doc, ss, root), ss[i].tag;
    var z := "<" + t + ">" + text + "</" + t + ">" + y;
    SettingsApplied(doc, ss, root, i);
    assert s[|x|..] == z && OpenAt(z, t, text, y);
    OpenMatches(z, t, text, y);
    GoodTag(ss, root, i);
    HitAt(s, t, |x|);
    assert z[..2 * |t| + |text| + 5] == Elem(t, ss[i].value);
    ElemRead(t, text, y, XmlEscape(ss[i].value));
  }

  lemma GoodTag(ss: seq<Setting>, root: string, i: nat)
    requires GoodSettings(ss, root) && i < |ss|
    ensures PlainTag(ss[i].tag)
  {
  }

  lemma ElemRead(t: string, text: string, y: string, v: string)
    requires ("<" + t + ">" + text + "</" + t + ">" + y)[..2 * |t| + |text| + 5] == Open(t) + v + Close(t)
    ensures text == v
  {
    var a, b := "<" + t + ">" + text + "</" + t + ">", Open(t) + v + Close(t);
    assert ("<" + t + ">" + text + "</" + t + ">" + y)[..|a|] == a;
    assert |text| == |v|;
    assert a[|t| + 2..][..|text|] == text && b[|t| + 2..][..|v|] == v;
  }

  /** What each of the four tags is to read. */
  function Wanted(t: string, urlBase: string): string {
    match t
    case "UrlBase" => urlBase
    case "AuthenticationMethod" => "External"
    case "AuthenticationRequired" => "DisabledForLocalAddresses"
    case _ => "False"
  }

  lemma WantedAt(t: string, urlBase: string) returns (i: nat)
    requires t in {"UrlBase", "AuthenticationMethod", "AuthenticationRequired", "AnalyticsEnabled"}
    ensures i < |ArrSettings(urlBase)| && ArrSettings(urlBase)[i] == Setting(t, Wanted(t, urlBase))
  {
    i := if t == "UrlBase" then 0 else if t == "AuthenticationMethod" then 1
         else if t == "AuthenticationRequired" then 2 else 3;
  }

  /** MAIN: in the enforced document every element of the four tags reads as *arr needs it, */
  lemma ArrConfigReads(doc: string, urlBase: string, t: string, x: string, text: string, y: string)
    requires t in {"UrlBase", "AuthenticationMethod", "AuthenticationRequired", "AnalyticsEnabled"} && '<' !in text
    requires EnforceArr(doc, urlBase) == x + ("<" + t + ">" + text + "</" + t + ">" + y)
    ensures XmlUnescape(text) == Wanted(t, urlBase)
  {
    ArrSettingsGood(urlBase);
    var i := WantedAt(t, urlBase);
    hide ArrSettings, Wanted, SetAll, GoodSettings, XmlEscape, XmlUnescape;
    SettingRead(doc, ArrSettings(urlBase), ROOT, i, x, text, y);
    EscapeRoundTrip(Wanted(t, urlBase));
  }

  /** MAIN: and there is one when there was one before, or when the root's closing tag is there to put it before. */
  lemma ArrConfigHas(doc: string, urlBase: string, t: string) returns (x: string, y: string)
    requires t in {"UrlBase", "AuthenticationMethod", "AuthenticationRequired", "AnalyticsEnabled"}
    requires Hits(doc, t) != [] || LastIndex(doc, "</Config>") >= 0
    ensures EnforceArr(doc, urlBase) ==
            x + ("<" + t + ">" + XmlEscape(Wanted(t, urlBase)) + "</" + t + ">" + y)
  {
    ArrSettingsGood(urlBase);
    var i := WantedAt(t, urlBase);
    assert Close(ROOT) == "</Config>";
    hide ArrSettings, Wanted, SetAll, GoodSettings, XmlEscape, Hits, LastIndex;
    SettingsApplied(doc, ArrSettings(urlBase), ROOT, i);
    var s := EnforceArr(doc, urlBase);
    var h := Hits(s, t)[0];
    assert h in Hits(s, t);
    x, y := HitIn(s, t, h);
    assert h == Elem(t, Wanted(t, urlBase));
    ElemParts(x, t, XmlEscape(Wanted(t, urlBase)), y);
  }

  lemma ElemParts(x: string, t: string, v: string, y: string)
    ensures x + (Open(t) + v + Close(t)) + y == x + ("<" + t + ">" + v + "</" + t + ">" + y)
  {
    assert Open(t) + v + Close(t) == "<" + t + ">" + v + "</" + t + ">";
  }

  lemma {:induction false} HitIn(s: string, t: string, h: string) returns (x: string, y: string)
    requires h in Hits(s, t)
    ensures s == x + h + y
  {
    NothingInEmpty(t, map[]);
    hide MatchLen, Hits;
    HitsStep(s, t);
    var n := MatchLen(s, t);
    if n > 0 && h == s[..n] {
      x, y := "", s[n..];
    } else {
      var k := if n > 0 then n else 1;
      var w;
      w, y := HitIn(s[k..], t, h);
      x := s[..k] + w;
      AfterCut(s, k, w, h, y);
    }
  }

  lemma AfterCut(s: string, k: nat, w: string, h: string, y: string)
    requires k <= |s| && s[k..] == w + h + y
    ensures s == s[..k] + w + h + y
  {
    assert s == s[..k] + s[k..];
  }

  /** MAIN: enforcing never changes the API key that is read from the file, or its absence. */
  lemma ApiKeyKept(doc: string, urlBase: string)
    ensures ArrApiKey(EnforceArr(doc, urlBase)) == ArrApiKey(doc)
  {
    ArrSettingsGood(urlBase);
    assert PlainTag("ApiKey");
    assert |"ApiKey"| == 6 && "ApiKey"[0] != "Config"[0];
    OthersKept(doc, ArrSettings(urlBase), ROOT, "ApiKey");
    CaptureFromHits(doc, "ApiKey");
    CaptureFromHits(EnforceArr(doc, urlBase), "ApiKey");
  }

  /** MAIN: enforcing again changes nothing, and a new URL base replaces the old one cleanly. */
  lemma EnforceArrSettles(doc: string, urlBase: string, newBase: string)
    ensures EnforceArr(EnforceArr(doc, urlBase), newBase) == EnforceArr(doc, newBase)
    ensures EnforceArr(EnforceArr(doc, urlBase), urlBase) == EnforceArr(doc, urlBase)
  {
    ArrSettingsGood(urlBase);
    ArrSettingsGood(newBase);
    LastValuesWin(doc, ArrSettings(urlBase), ArrSettings(newBase), ROOT);
    LastValuesWin(doc, ArrSettings(urlBase), ArrSettings(urlBase), ROOT);
  }

  /** A file that may not exist yet; `writes` counts how often it has been written. */
  class ConfigFile {
    var content: Option<string>
    var writes: nat

    constructor (content: Option<string>)
      ensures this.content == content && writes == 0
    {
      this.content, writes := content, 0;
    }

    /** `enforceArrConfig` through `patchFile`. */
    method EnforceArrConfig(urlBase: string)
      modifies this
      ensures old(content).None? ==> content.None?
      ensures old(content).Some? ==> content == Some(EnforceArr(old(content).value, urlBase))
      ensures writes == old(writes) + if content == old(content) then 0 else 1
    {
      if content.None? { return; }
      var doc := content.value;
      doc := SetXmlElement(doc, "UrlBase", urlBase, ROOT);
      doc := SetXmlElement(doc, "AuthenticationMethod", "External", ROOT);
      doc := SetXmlElement(doc, "AuthenticationRequired", "DisabledForLocalAddresses", ROOT);
      doc := SetXmlElement(doc, "AnalyticsEnabled", "False", ROOT);
      SetAllUnfolds(content.value, urlBase);
      if doc != content.value {
        content, writes := Some(doc), writes + 1;
      }
    }

    /** Two runs of `up` in a row: the writes and the content are those of the first alone. */
    method EnforceTwice(urlBase: string)
      modifies this
      ensures old(content).Some? ==> content == Some(EnforceArr(old(content).value, urlBase))
      ensures writes == old(writes) + if content == old(content) then 0 else 1
    {
      EnforceArrConfig(urlBase);
      if old(content).Some? { EnforceArrSettles(old(content).value, urlBase, urlBase); }
      EnforceArrConfig(urlBase);
    }
  }

  lemma SetAllUnfolds(doc: string, urlBase: string)
    ensures var d1 := SetXmlElement(doc, "UrlBase", urlBase, ROOT);
            var d2 := SetXmlElement(d1, "AuthenticationMethod", "External", ROOT);
            var d3 := SetXmlElement(d2, "AuthenticationRequired", "DisabledForLocalAddresses", ROOT);
            EnforceArr(doc, urlBase) == SetXmlElement(d3, "AnalyticsEnabled", "False", ROOT)
  {
    var ss := ArrSettings(urlBase);
    SetAllFour(doc, ss[0], ss[1], ss[2], ss[3]);
  }

  lemma {:induction false} SetAllFour(doc: string, a: Setting, b: Setting, c: Setting, d: Setting)
    ensures SetAll(doc, [a, b, c, d], ROOT) == Set(Set(Set(Set(doc, a), b), c), d)
  {
    hide SetAll, Set;
    SetAllNone(doc);
    SetAllStep(doc, [], a);
    SetAllStep(doc, [a], b);
    SetAllStep(doc, [a, b], c);
    SetAllStep(doc, [a, b, c], d);
    assert [] + [a] == [a] && [a] + [b] == [a, b] && [a, b] + [c] == [a, b, c] && [a, b, c] + [d] == [a, b, c, d];
  }

  lemma SetAllNone(doc: string)
    ensures SetAll(doc, [], ROOT) == doc
  {
  }

  function Set(doc: string, s: Setting): string { SetXmlElement(doc, s.tag, s.value, ROOT) }

  lemma {:induction false} SetAllStep(doc: string, ss: seq<Setting>, s: Setting)
    ensures SetAll(doc, ss + [s], ROOT) == Set(SetAll(doc, ss, ROOT), s)
  {
    assert (ss + [s])[..|ss|] == ss;
  }
}
