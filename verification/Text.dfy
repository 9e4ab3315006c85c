/** The string operations of Go's `strings` package that the file formats below rely on. */
module Text {
  import opened Prelude

  /** The white space that `strings.TrimSpace` removes (Unicode's White_Space property). */
  predicate IsSpace(c: char) {
    || c == '\t' || c == '\n' || c == '\U{0B}' || c == '\U{0C}' || c == '\r' || c == ' '
    || c == '\U{85}' || c == '\U{A0}' || c == '\U{1680}' || '\U{2000}' <= c <= '\U{200A}'
    || c == '\U{2028}' || c == '\U{2029}' || c == '\U{202F}' || c == '\U{205F}' || c == '\U{3000}'
  }

  function TrimLeft(s: string): (r: string)
    ensures |r| <= |s| && r == s[|s| - |r|..]
    ensures r != "" ==> !IsSpace(r[0])
  {
    if s != "" && IsSpace(s[0]) then TrimLeft(s[1..]) else s
  }

  function TrimRight(s: string): (r: string)
    ensures r <= s
    ensures r != "" ==> !IsSpace(r[|r| - 1])
    ensures s != "" && !IsSpace(s[0]) ==> r != "" && r[0] == s[0]
  {
    if s != "" && IsSpace(s[|s| - 1]) then TrimRight(s[..|s| - 1]) else s
  }

  /** `strings.TrimSpace`. */
  function Trim(s: string): (r: string)
    ensures r != "" ==> !IsSpace(r[0]) && !IsSpace(r[|r| - 1])
    ensures |r| <= |s|
  {
    TrimRight(TrimLeft(s))
  }

  /** A string with no white space at either end is what trimming leaves alone. */
  lemma TrimFixed(s: string)
    ensures Trim(s) == s <==> (s == "" || (!IsSpace(s[0]) && !IsSpace(s[|s| - 1])))
  {
  }

  predicate Blank(s: string) { forall i :: 0 <= i < |s| ==> IsSpace(s[i]) }

  lemma {:induction false} TrimLeftAll(a: string, s: string)
    requires Blank(a) && (s == "" || !IsSpace(s[0]))
    ensures TrimLeft(a + s) == s
  {
    hide IsSpace;
    if a == "" {
      assert a + s == s;
    } else {
      assert (a + s)[1..] == a[1..] + s && (a + s)[0] == a[0];
      TrimLeftAll(a[1..], s);
    }
  }

  lemma {:induction false} TrimRightAll(s: string, b: string)
    requires Blank(b) && (s == "" || !IsSpace(s[|s| - 1]))
    ensures TrimRight(s + b) == s
  {
    hide IsSpace;
    if b == "" {
      assert s + b == s;
    } else {
      var n := |b| - 1;
      assert (s + b)[..|s| + n] == s + b[..n] && (s + b)[|s| + n] == b[n];
      TrimRightAll(s, b[..n]);
    }
  }

  /** Trimming takes the white space from both ends and nothing else. */
  lemma TrimIs(a: string, s: string, b: string)
    requires Blank(a) && Blank(b) && (s == "" || (!IsSpace(s[0]) && !IsSpace(s[|s| - 1])))
    ensures Trim(a + s + b) == s
  {
    hide IsSpace, TrimLeft, TrimRight;
    if s == "" {
      assert a + s + b == (a + b) + "";
      TrimLeftAll(a + b, "");
      assert "" + "" == "";
      TrimRightAll("", "");
    } else {
      assert a + s + b == a + (s + b);
      TrimLeftAll(a, s + b);
      TrimRightAll(s, b);
    }
  }

  /** Every string is what trimming leaves, between white space. */
  lemma TrimParts(s: string) returns (a: string, b: string)
    ensures Blank(a) && Blank(b) && s == a + Trim(s) + b
  {
    hide IsSpace, TrimLeft, TrimRight, Blank;
    BlankHead(s);
    BlankTail(TrimLeft(s));
    var l := TrimLeft(s);
    var r := TrimRight(l);
    a, b := s[..|s| - |l|], l[|r|..];
    Rejoined(s, a, l, r, b);
  }

  lemma Rejoined(s: string, a: string, l: string, r: string, b: string)
    requires s == a + l && l == r + b
    ensures s == a + r + b
  {
  }

  lemma {:induction false} BlankHead(s: string)
    ensures Blank(s[..|s| - |TrimLeft(s)|])
  {
    hide IsSpace;
    if s != "" && IsSpace(s[0]) {
      BlankHead(s[1..]);
      var n := |s| - |TrimLeft(s)|;
      assert s[..n] == [s[0]] + s[1..][..n - 1];
    }
  }

  lemma {:induction false} BlankTail(s: string)
    ensures Blank(s[|TrimRight(s)|..])
  {
    hide IsSpace;
    if s != "" && IsSpace(s[|s| - 1]) {
      var n := |s| - 1;
      BlankTail(s[..n]);
      assert s[|TrimRight(s)|..] == s[..n][|TrimRight(s)|..] + [s[n]];
    }
  }

  lemma TrimKeepsHead(s: string)
    requires s != "" && !IsSpace(s[0])
    ensures Trim(s) != "" && Trim(s)[0] == s[0]
  {
    hide TrimRight, IsSpace;
  }

  /** `strings.Index` for one character: the first occurrence, or -1. */
  function IndexChar(s: string, c: char): (r: int)
    ensures -1 <= r < |s|
    ensures r >= 0 ==> s[r] == c && c !in s[..r]
    ensures r < 0 ==> c !in s
  {
    if s == "" then -1
    else if s[0] == c then 0
    else
      var r := IndexChar(s[1..], c);
      if r < 0 then -1
      else
        assert s[..r + 1] == [s[0]] + s[1..][..r];
        r + 1
  }

  /** `strings.LastIndex` for a non-empty pattern: the last occurrence, or -1. */
  function LastIndex(s: string, p: string): (r: int)
    requires p != ""
    ensures -1 <= r <= |s|
    ensures r >= 0 ==> p <= s[r..]
    ensures forall j :: 0 <= j <= |s| && r < j ==> !(p <= s[j..])
  {
    if s == "" then -1
    else
      var r := LastIndex(s[1..], p);
      assert forall j :: 1 <= j <= |s| ==> s[j..] == s[1..][j - 1..];
      assert s[0..] == s;
      if r >= 0 then r + 1 else if p <= s then 0 else -1
  }

  /** `strings.Split(s, "\n")`. */
  function Lines(s: string): (r: seq<string>)
    ensures |r| >= 1
    ensures forall l :: l in r ==> '\n' !in l
  {
    var i := IndexChar(s, '\n');
    if i < 0 then [s] else [s[..i]] + Lines(s[i + 1..])
  }

  /** `strings.Join(ls, "\n")`. */
  function Unlines(ls: seq<string>): string
  {
    if |ls| == 0 then "" else if |ls| == 1 then ls[0] else ls[0] + "\n" + Unlines(ls[1..])
  }

  lemma LinesAtBreak(s: string)
    requires IndexChar(s, '\n') >= 0
    ensures var i := IndexChar(s, '\n'); Lines(s) == [s[..i]] + Lines(s[i + 1..])
  {
  }

  lemma UnlinesCons(l: string, ls: seq<string>)
    requires |ls| > 0
    ensures Unlines([l] + ls) == l + "\n" + Unlines(ls)
  {
    assert ([l] + ls)[1..] == ls;
  }

  lemma {:induction false} UnlinesLines(s: string)
    ensures Unlines(Lines(s)) == s
  {
    hide Lines, Unlines, IndexChar;
    var i := IndexChar(s, '\n');
    if i < 0 {
      LinesOne(s);
      UnlinesOne(s);
    } else {
      UnlinesLines(s[i + 1..]);
      LinesAtBreak(s);
      UnlinesCons(s[..i], Lines(s[i + 1..]));
      assert s == s[..i] + "\n" + s[i + 1..];
    }
  }

  lemma UnlinesOne(s: string)
    ensures Unlines([s]) == s
  {
  }

  /** The first line break of `l + "\n" + t` is the one after l. */
  lemma FirstBreak(l: string, t: string)
    requires '\n' !in l
    ensures IndexChar(l + "\n" + t, '\n') == |l|
  {
    var s := l + "\n" + t;
    var i := IndexChar(s, '\n');
    assert s[|l|] == '\n';
    assert forall k :: 0 <= k < |l| ==> s[k] == l[k] && s[k] != '\n';
    assert forall k :: 0 <= k < i ==> s[k] in s[..i];
  }

  lemma {:induction false} LinesUnlines(ls: seq<string>)
    requires |ls| >= 1
    requires forall l :: l in ls ==> '\n' !in l
    ensures Lines(Unlines(ls)) == ls
  {
    if |ls| == 1 {
      assert '\n' !in ls[0];
      assert IndexChar(ls[0], '\n') < 0;
      assert ls == [ls[0]];
    } else {
      var t := Unlines(ls[1..]);
      var s := ls[0] + "\n" + t;
      LinesUnlines(ls[1..]);
      FirstBreak(ls[0], t);
      assert s[..|ls[0]|] == ls[0] && s[|ls[0]| + 1..] == t;
      assert ls == [ls[0]] + ls[1..];
    }
  }

  lemma {:induction false} LinesCons(l: string, t: string)
    requires '\n' !in l
    ensures Lines(l + "\n" + t) == [l] + Lines(t)
  {
    FirstBreak(l, t);
    var s := l + "\n" + t;
    assert s[..|l|] == l && s[|l| + 1..] == t;
  }

  lemma Regroup(a: string, b: string, c: string, d: string, e: string)
    ensures (a + b + c) + d + e == a + b + (c + d + e)
    ensures a + b + (c + d + e) == a + b + c + d + e
  {
  }

  lemma LinesOne(s: string)
    requires '\n' !in s
    ensures Lines(s) == [s]
  {
  }

  /** Splitting at line breaks distributes over joining with one. */
  lemma {:induction false} LinesAppend(a: string, b: string)
    ensures Lines(a + "\n" + b) == Lines(a) + Lines(b)
  {
    hide Lines;
    var i := IndexChar(a, '\n');
    if i < 0 {
      LinesOne(a);
      LinesCons(a, b);
    } else {
      var l, t := a[..i], a[i + 1..];
      LinesAppend(t, b);
      assert a == l + "\n" + t;
      Regroup(l, "\n", t, "\n", b);
      LinesCons(l, t);
      LinesCons(l, t + "\n" + b);
    }
  }

  lemma {:induction false} LastLine(s: string)
    ensures var ls := Lines(s); ls[|ls| - 1] == "" <==> (s == "" || s[|s| - 1] == '\n')
  {
    hide Lines, IndexChar;
    var i := IndexChar(s, '\n');
    if i >= 0 {
      LastLine(s[i + 1..]);
      LinesAtBreak(s);
    } else {
      LinesOne(s);
      assert s != "" ==> s[|s| - 1] in s;
    }
  }

  lemma EmptyLine()
    ensures Lines("") == [""]
  {
  }

  /** The order of `sort.Strings` and of SQLite's BINARY collation; on UTF-8 text, byte order is code point order. */
  predicate StrLe(a: string, b: string) {
    a == "" || (b != "" && (a[0] < b[0] || (a[0] == b[0] && StrLe(a[1..], b[1..]))))
  }

  lemma {:induction false} StrLeOrder(a: string, b: string)
    ensures StrLe(a, b) || StrLe(b, a)
    ensures StrLe(a, b) && StrLe(b, a) ==> a == b
  {
    if a != "" && b != "" {
      StrLeOrder(a[1..], b[1..]);
      assert a == [a[0]] + a[1..] && b == [b[0]] + b[1..];
    }
  }

  lemma {:induction false} StrLeTransitive(a: string, b: string, c: string)
    requires StrLe(a, b) && StrLe(b, c)
    ensures StrLe(a, c)
  {
    if a != "" && b != "" && c != "" && a[0] == b[0] == c[0] { StrLeTransitive(a[1..], b[1..], c[1..]); }
  }

  predicate StrLess(a: string, b: string) { StrLe(a, b) && a != b }

  /** Strings that differ in a prefix of the same length are ordered by it. */
  lemma {:induction false} OrderByPrefix(p: string, q: string, x: string, y: string)
    requires |p| == |q|
    ensures p != q ==> (StrLe(p + x, q + y) <==> StrLe(p, q)) && p + x != q + y
    ensures p == q ==> (StrLe(p + x, q + y) <==> StrLe(x, y)) && (p + x == q + y <==> x == y)
  {
    if p == "" {
      assert p + x == x && q + y == y;
    } else {
      assert (p + x)[1..] == p[1..] + x && (q + y)[1..] == q[1..] + y;
      assert p == [p[0]] + p[1..] && q == [q[0]] + q[1..];
      assert p + x == [p[0]] + (p[1..] + x) && q + y == [q[0]] + (q[1..] + y);
      OrderByPrefix(p[1..], q[1..], x, y);
    }
  }

  // ---- digits ----------------------------------------------------------------------------

  predicate IsDigit(c: char) { '0' <= c <= '9' }

  function DigitValue(c: char): (d: nat)
    requires IsDigit(c)
    ensures d < 10
  {
    (c - '0') as nat
  }

  /** The value of a string of digits. */
  function Decimal(s: string): Option<nat> {
    if s == "" then Some(0)
    else
      var c := s[|s| - 1];
      if !IsDigit(c) then None
      else
        var v :- Decimal(s[..|s| - 1]);
        Some(10 * v + DigitValue(c))
  }
}
