/**
 * Reconciling the *arr apps with the configuration (internal/autowire/arr.go): resources are
 * patched in place, and each wire function lists, then adds or updates. The app on the other side
 * stores what it is sent, but may drop fields that are only enforced when present, may add members
 * and fill in defaults, may rewrite a URL into an equivalent one, may refuse, and may lose its reply
 * after it has stored.
 */
module Autowire {
  import opened Prelude
  import opened Json
  import Retry

  /** A decoded resource. */
  type Res = map<string, Json>

  // ---- the fields of a resource ----------------------------------------------------------

  function Fields(m: Res): seq<Json> {
    var f := Member(Obj(m), "fields");
    if f.Arr? then f.items else []
  }

  predicate Named(f: Json, name: string) { f.Obj? && "name" in f.members && f.members["name"] == Str(name) }

  /** The value of the first field called name. */
  function Lookup(fs: seq<Json>, name: string): Option<Json> {
    if fs == [] then None
    else if Named(fs[0], name) then Some(Member(fs[0], "value"))
    else Lookup(fs[1..], name)
  }

  function NewField(name: string, v: Json): Json { Obj(map["name" := Str(name), "value" := v]) }

  /** Set the first field called name, or append one. */
  function Put(fs: seq<Json>, name: string, v: Json): seq<Json> {
    if fs == [] then [NewField(name, v)]
    else if Named(fs[0], name) then [Obj(fs[0].members["value" := v])] + fs[1..]
    else [fs[0]] + Put(fs[1..], name, v)
  }

  lemma {:induction false} LookupPut(fs: seq<Json>, name: string, v: Json, other: string)
    ensures Lookup(Put(fs, name, v), other) == if other == name then Some(v) else Lookup(fs, other)
  {
    if fs == [] {
      assert Put(fs, name, v)[1..] == [];
    } else if Named(fs[0], name) {
      assert Put(fs, name, v)[1..] == fs[1..];
    } else {
      assert Put(fs, name, v)[1..] == Put(fs[1..], name, v);
      LookupPut(fs[1..], name, v, other);
    }
  }

  /** f' is f, or f is called one of the names and they differ in its value at most. */
  predicate FieldKept(f: Json, f': Json, names: set<string>) {
    || f' == f
    || (f.Obj? && f'.Obj? && f.members - {"value"} == f'.members - {"value"} && exists n :: n in names && Named(f, n))
  }

  predicate FieldOf(f: Json, names: set<string>) { exists n :: n in names && Named(f, n) }

  /** Only fields with these names are changed, in their value, or appended. */
  ghost predicate OnlyFields(fs: seq<Json>, fs': seq<Json>, names: set<string>) {
    && |fs| <= |fs'|
    && (forall j :: 0 <= j < |fs| ==> FieldKept(fs[j], fs'[j], names))
    && (forall j :: |fs| <= j < |fs'| ==> FieldOf(fs'[j], names))
  }

  lemma {:induction false} PutOnly(fs: seq<Json>, name: string, v: Json)
    ensures OnlyFields(fs, Put(fs, name, v), {name})
  {
    if fs == [] {
      assert Named(NewField(name, v), name);
    } else if Named(fs[0], name) {
    } else {
      PutOnly(fs[1..], name, v);
      var r := Put(fs[1..], name, v);
      assert Put(fs, name, v) == [fs[0]] + r;
      assert forall j :: 1 <= j < |fs| ==> fs[j] == fs[1..][j - 1];
    }
  }

  lemma NamedKept(f: Json, f': Json, names: set<string>, n: string)
    requires FieldKept(f, f', names) && Named(f, n)
    ensures Named(f', n)
  {
    if f' != f {
      assert (f.members - {"value"})["name"] == Str(n);
      assert "name" in f'.members - {"value"};
    }
  }

  lemma OnlyFieldsCompose(a: seq<Json>, b: seq<Json>, c: seq<Json>, names: set<string>, name: string)
    requires OnlyFields(a, b, names) && OnlyFields(b, c, {name}) && name in names
    ensures OnlyFields(a, c, names)
  {
    forall j | 0 <= j < |a|
      ensures FieldKept(a[j], c[j], names)
    {
      FieldKeptCompose(a[j], b[j], c[j], names, name);
    }
    forall j | |a| <= j < |c|
      ensures FieldOf(c[j], names)
    {
      if j < |b| {
        var n :| n in names && Named(b[j], n);
        NamedKept(b[j], c[j], {name}, n);
      } else {
        var n :| n in {name} && Named(c[j], n);
      }
    }
  }

  lemma FieldKeptCompose(f: Json, g: Json, h: Json, names: set<string>, name: string)
    requires FieldKept(f, g, names) && FieldKept(g, h, {name}) && name in names
    ensures FieldKept(f, h, names)
  {
  }

  lemma PutStep(fs: seq<Json>, i: nat, name: string, v: Json)
    requires i < |fs| && Put(fs, name, v) == fs[..i] + Put(fs[i..], name, v)
    ensures if Named(fs[i], name) then Put(fs, name, v) == fs[i := Obj(fs[i].members["value" := v])]
            else Put(fs, name, v) == fs[..i + 1] + Put(fs[i + 1..], name, v)
  {
    PutHead(fs[i..], name, v);
    hide Put, Named;
    assert fs[i..][0] == fs[i] && fs[i..][1..] == fs[i + 1..];
    var x := if Named(fs[i], name) then Obj(fs[i].members["value" := v]) else fs[i];
    Regroup(fs, i, x, if Named(fs[i], name) then fs[i + 1..] else Put(fs[i + 1..], name, v));
  }

  lemma PutHead(fs: seq<Json>, name: string, v: Json)
    requires fs != []
    ensures Put(fs, name, v) ==
            if Named(fs[0], name) then [Obj(fs[0].members["value" := v])] + fs[1..] else [fs[0]] + Put(fs[1..], name, v)
    ensures Named(fs[0], name) ==> fs[0].Obj?
  {
  }

  lemma Regroup(fs: seq<Json>, i: nat, x: Json, rest: seq<Json>)
    requires i < |fs|
    ensures rest == fs[i + 1..] ==> fs[..i] + ([x] + rest) == fs[i := x]
    ensures x == fs[i] ==> fs[..i] + ([x] + rest) == fs[..i + 1] + rest
  {
  }

  // ---- what is wanted --------------------------------------------------------------------

  /** A field to enforce: to the value, perhaps only when present; or to a text equal up to norm. */
  datatype Want =
    | Exact(name: string, value: Json, ifPresent: bool)
    | Like(name: string, want: string, norm: string -> string)
  {
    function Value(): Json { if Exact? then value else Str(want) }
  }

  function AsStr(v: Json): string { if v.Str? then v.s else "" }

  predicate Satisfied(m: Res, w: Want) {
    var got := Lookup(Fields(m), w.name);
    match w
    case Exact(_, value, ifPresent) => if got.None? then ifPresent else got.value == value
    case Like(_, want, norm) => got.Some? && norm(AsStr(got.value)) == norm(want)
  }

  function Names(ws: seq<Want>): set<string> { set i | 0 <= i < |ws| :: ws[i].name }

  predicate Distinct(ws: seq<Want>) { forall i, j :: 0 <= i < j < |ws| ==> ws[i].name != ws[j].name }

  function WithField(m: Res, name: string, v: Json): Res { m["fields" := Arr(Put(Fields(m), name, v))] }

  const HEADER := "X-Webhook-Secret"

  /** The value of the first header that is called HEADER, case folded. */
  function SecretIn(hs: seq<Json>, fold: string -> string): string {
    if hs == [] then ""
    else if fold(StrOf(hs[0], "key")) == fold(HEADER) then StrOf(hs[0], "value")
    else SecretIn(hs[1..], fold)
  }

  /** That is, of the first one at all; without one it is empty. */
  lemma {:induction false} SecretFirst(hs: seq<Json>, fold: string -> string, i: nat)
    requires i <= |hs|
    requires forall j :: 0 <= j < i ==> fold(StrOf(hs[j], "key")) != fold("X-Webhook-Secret")
    requires i < |hs| ==> fold(StrOf(hs[i], "key")) == fold("X-Webhook-Secret")
    ensures SecretIn(hs, fold) == if i < |hs| then StrOf(hs[i], "value") else ""
  {
    if i > 0 { SecretFirst(hs[1..], fold, i - 1); }
  }

  function SecretOf(m: Res, fold: string -> string): string {
    match Lookup(Fields(m), "headers")
    case Some(Arr(hs)) => SecretIn(hs, fold)
    case _ => ""
  }

  function SecretHeaders(secret: string): Json {
    if secret == "" then Arr([]) else Arr([Obj(map["key" := Str(HEADER), "value" := Str(secret)])])
  }

  /**
   * m is m0 with the first i wants enforced and nothing else changed; drift says whether one of them was not
   * satisfied.
   */
  ghost predicate Patched(m0: Res, m: Res, ws: seq<Want>, i: nat, drift: bool)
    requires i <= |ws|
  {
    && (forall j :: 0 <= j < i ==> Satisfied(m, ws[j]))
    && (drift <==> exists j :: 0 <= j < i && !Satisfied(m0, ws[j]))
    && m - {"fields"} == m0 - {"fields"}
    && OnlyFields(Fields(m0), Fields(m), Names(ws))
    && (forall n :: (forall j :: 0 <= j < i ==> ws[j].name != n) ==> Lookup(Fields(m), n) == Lookup(Fields(m0), n))
    && (!drift ==> m == m0)
  }

  lemma NotPatchedYet(m: Res, ws: seq<Want>)
    ensures Patched(m, m, ws, 0, false)
  {
    hide Satisfied, Lookup, Fields;
  }

  lemma PatchNext(m0: Res, m: Res, ws: seq<Want>, i: nat, drift: bool)
    requires i < |ws| && Distinct(ws) && Patched(m0, m, ws, i, drift)
    ensures if Satisfied(m, ws[i]) then Patched(m0, m, ws, i + 1, drift)
            else Patched(m0, WithField(m, ws[i].name, ws[i].Value()), ws, i + 1, true)
  {
    hide Satisfied, Lookup, Fields, WithField, OnlyFields, Patched;
    SameNext(m0, m, ws, i, drift);
    if Satisfied(m, ws[i]) {
      PatchSkip(m0, m, ws, i, drift);
    } else {
      PatchSet(m0, m, ws, i, drift);
    }
  }

  lemma SameNext(m0: Res, m: Res, ws: seq<Want>, i: nat, drift: bool)
    requires i < |ws| && Distinct(ws) && Patched(m0, m, ws, i, drift)
    ensures Satisfied(m0, ws[i]) == Satisfied(m, ws[i])
  {
    hide Satisfied, Lookup, Fields, OnlyFields;
    SameWant(m0, m, ws[i]);
  }

  lemma PatchSkip(m0: Res, m: Res, ws: seq<Want>, i: nat, drift: bool)
    requires i < |ws| && Patched(m0, m, ws, i, drift) && Satisfied(m0, ws[i]) && Satisfied(m, ws[i])
    ensures Patched(m0, m, ws, i + 1, drift)
  {
    hide Satisfied, Lookup, Fields, OnlyFields;
  }

  lemma PatchSet(m0: Res, m: Res, ws: seq<Want>, i: nat, drift: bool)
    requires i < |ws| && Distinct(ws) && Patched(m0, m, ws, i, drift) && !Satisfied(m0, ws[i])
    ensures Patched(m0, WithField(m, ws[i].name, ws[i].Value()), ws, i + 1, true)
  {
    PatchField(m, ws, i);
    var m' := WithField(m, ws[i].name, ws[i].Value());
    OnlyFieldsCompose(Fields(m0), Fields(m), Fields(m'), Names(ws), ws[i].name);
    hide Satisfied, Lookup, Fields, WithField, OnlyFields, Names, Distinct;
  }

  lemma SameWant(m0: Res, m: Res, w: Want)
    requires Lookup(Fields(m), w.name) == Lookup(Fields(m0), w.name)
    ensures Satisfied(m0, w) == Satisfied(m, w)
  {
    hide Lookup, Fields;
  }

  /** `got, _ := m[key].(bool)`. */
  predicate FlagOf(m: Res, key: string) {
    var v := Member(Obj(m), key);
    v.Bool? && v.b
  }

  /** A resource being patched. */
  class Resource {
    var members: Res

    /** `clone`. */
    constructor (m: Res)
      ensures members == m
    {
      members := m;
    }

    method FieldValue(name: string) returns (v: Option<Json>)
      ensures v == Lookup(Fields(members), name)
    {
      var fs := Fields(members);
      for i := 0 to |fs|
        invariant Lookup(fs, name) == Lookup(fs[i..], name)
      {
        if Named(fs[i], name) { return Some(Member(fs[i], "value")); }
      }
      v := None;
    }

    method SetField(name: string, v: Json)
      modifies this
      ensures members == WithField(old(members), name, v)
    {
      var fs := Fields(members);
      for i := 0 to |fs|
        invariant members == old(members)
        invariant Put(fs, name, v) == fs[..i] + Put(fs[i..], name, v)
      {
        PutStep(fs, i, name, v);
        if Named(fs[i], name) {
          members := members["fields" := Arr(fs[i := Obj(fs[i].members["value" := v])])];
          return;
        }
      }
      assert fs[..|fs|] == fs && fs[|fs|..] == [];
      members := members["fields" := Arr(fs + [NewField(name, v)])];
    }

    /**
     * `reconcileFields`, and the same loop in wireProwlarrApp: afterwards every want is satisfied,
     * drift says whether some was not, and nothing but wanted fields has changed.
     */
    method ReconcileFields(ws: seq<Want>) returns (drift: bool)
      requires Distinct(ws)
      modifies this
      ensures Patched(old(members), members, ws, |ws|, drift)
    {
      hide Patched, OnlyFields, Lookup, Put, Fields;
      drift := false;
      NotPatchedYet(members, ws);
      for i := 0 to |ws|
        invariant Patched(old(members), members, ws, i, drift)
      {
        var w := ws[i];
        var got := FieldValue(w.name);
        var fine := match w
          case Exact(_, value, ifPresent) => if got.None? then ifPresent else got.value == value
          case Like(_, want, norm) => got.Some? && norm(AsStr(got.value)) == norm(want);
        PatchNext(old(members), members, ws, i, drift);
        if !fine {
          SetField(w.name, w.Value());
          drift := true;
        }
      }
    }

    /** `headerSecret`. */
    method HeaderSecret(fold: string -> string) returns (secret: string)
      ensures secret == SecretOf(members, fold)
    {
      var v := FieldValue("headers");
      var headers := if v.Some? && v.value.Arr? then v.value.items else [];
      for i := 0 to |headers|
        invariant SecretIn(headers, fold) == SecretIn(headers[i..], fold)
      {
        if fold(StrOf(headers[i], "key")) == fold(HEADER) { return StrOf(headers[i], "value"); }
      }
      secret := "";
    }

    /** `reconcileFlag`. */
    method ReconcileFlag(key: string, want: bool) returns (drift: bool)
      modifies this
      ensures FlagOf(members, key) == want && (drift <==> FlagOf(old(members), key) != want)
      ensures members - {key} == old(members) - {key} && (!drift ==> members == old(members))
    {
      var got := FlagOf(members, key);
      if got == want { return false; }
      members := members[key := Bool(want)];
      drift := true;
    }
  }

  /** Setting the field of want i satisfies it and disturbs no other. */
  lemma PatchField(m: Res, ws: seq<Want>, i: nat)
    requires i < |ws| && Distinct(ws)
    ensures var m' := WithField(m, ws[i].name, ws[i].Value());
      && Satisfied(m', ws[i])
      && (forall j :: 0 <= j < |ws| && j != i ==> Satisfied(m', ws[j]) == Satisfied(m, ws[j]))
      && (forall n :: n != ws[i].name ==> Lookup(Fields(m'), n) == Lookup(Fields(m), n))
      && m' - {"fields"} == m - {"fields"}
      && OnlyFields(Fields(m), Fields(m'), {ws[i].name}) && ws[i].name in Names(ws)
  {
    hide Lookup, Put, OnlyFields;
    var w := ws[i];
    PutOnly(Fields(m), w.name, w.Value());
    forall n
      ensures Lookup(Put(Fields(m), w.name, w.Value()), n) ==
              if n == w.name then Some(w.Value()) else Lookup(Fields(m), n)
    {
      LookupPut(Fields(m), w.name, w.Value(), n);
    }
  }

  // ---- the four kinds of resource --------------------------------------------------------

  /** What one wire function keeps in place, with the library functions it compares by. */
  datatype Kind =
    | RootFolder(path: string)
    | DownloadClient(category: string, catFields: seq<string>)
    | Webhook(url: string, secret: string, fold: string -> string)
    | Application(app: string, prowlarrURL: string, appURL: string, appKey: string, norm: string -> string)
  {
    /** The category fields are not the other fields, nor twice the same; an application has a name. */
    predicate Valid() {
      && (Application? ==> app != "")
      && (DownloadClient? ==>
        && (forall i :: 0 <= i < |catFields| ==> catFields[i] !in {"host", "port", "useSsl", "username", "password"})
        && (forall i, j :: 0 <= i < j < |catFields| ==> catFields[i] != catFields[j]))
    }
  }

  function Identity(s: string): string { s }

  function Wants(k: Kind): seq<Want> {
    match k
    case RootFolder(_) => []
    case DownloadClient(category, catFields) =>
      [Exact("host", Str("gluetun"), false), Exact("port", Num(8080.0), false), Exact("useSsl", Bool(false), true)]
      + seq(|catFields|, i requires 0 <= i < |catFields| => Exact(catFields[i], Str(category), true))
    case Webhook(url, _, _) => [Exact("url", Str(url), false), Exact("method", Num(1.0), false)]
    case Application(_, prowlarrURL, appURL, appKey, norm) =>
      [Like("prowlarrUrl", prowlarrURL, norm), Like("baseUrl", appURL, norm), Like("apiKey", appKey, Identity)]
  }

  lemma WantsDistinct(k: Kind)
    requires k.Valid()
    ensures Distinct(Wants(k))
  {
  }

  function TrimSlash(s: string): string {
    if s != "" && s[|s| - 1] == '/' then TrimSlash(s[..|s| - 1]) else s
  }

  /** `strings.TrimRight(s, "/")`. */
  lemma {:induction false} SlashesTrimmed(s: string)
    ensures var r := TrimSlash(s);
      r <= s && (r == "" || r[|r| - 1] != '/') && forall i :: |r| <= i < |s| ==> s[i] == '/'
  {
    if s != "" && s[|s| - 1] == '/' { SlashesTrimmed(s[..|s| - 1]); }
  }

  function Text(m: Res, key: string): string { StrOf(Obj(m), key) }

  /** The entry a wire function looks for. */
  predicate Matches(k: Kind, e: Res) {
    match k
    case RootFolder(path) => TrimSlash(Text(e, "path")) == TrimSlash(path)
    case DownloadClient(_, _) => Text(e, "implementation") == "QBittorrent"
    case Webhook(_, _, _) => Text(e, "name") == "Pelicula"
    case Application(app, _, _, _, _) => Text(e, "name") == app
  }

  /** The entry needs no update. */
  predicate Good(k: Kind, e: Res) {
    && (forall i :: 0 <= i < |Wants(k)| ==> Satisfied(e, Wants(k)[i]))
    && (k.Webhook? ==>
          SecretOf(e, k.fold) == k.secret && Member(Obj(e), "onDownload") == Bool(true)
              && Member(Obj(e), "onUpgrade") == Bool(true))
  }

  predicate First(k: Kind, es: seq<Res>, i: nat) {
    i < |es| && Matches(k, es[i]) && forall j :: 0 <= j < i ==> !Matches(k, es[j])
  }

  /** The entry that counts, the first match, is as wanted. */
  ghost predicate Settled(k: Kind, es: seq<Res>) { exists i: nat :: First(k, es, i) && Good(k, es[i]) }

  function Count(k: Kind, es: seq<Res>): nat {
    if es == [] then 0 else Count(k, es[..|es| - 1]) + if Matches(k, es[|es| - 1]) then 1 else 0
  }

  // ---- the app ---------------------------------------------------------------------------

  /** The names of the fields that are enforced. */
  function Enforced(k: Kind): set<string> { Names(Wants(k)) + if k.Webhook? then {"headers"} else {} }

  ghost predicate Optional(k: Kind, name: string) {
    exists i :: 0 <= i < |Wants(k)| && Wants(k)[i].Exact? && Wants(k)[i].ifPresent && Wants(k)[i].name == name
  }

  /** A URL may come back in another form that compares equal. */
  ghost predicate SameURL(k: Kind, name: string, a: Json, b: Json) {
    exists i :: 0 <= i < |Wants(k)| && Wants(k)[i].Like? && Wants(k)[i].name == name
        && Wants(k)[i].norm(AsStr(a)) == Wants(k)[i].norm(AsStr(b))
  }

  /**
   * A value the app may fill in for a field it was not sent: any for other fields, for an enforced one only a
   * default that is as wanted.
   */
  ghost predicate Defaulted(k: Kind, name: string, v: Json) {
    || name !in Enforced(k)
    || (k.Webhook? && name == "headers" && v == Arr([]))
    || exists i :: 0 <= i < |Wants(k)| && Wants(k)[i].Exact? && Wants(k)[i].name == name && Wants(k)[i].value == v
  }

  ghost predicate FieldStored(k: Kind, name: string, a: Option<Json>, b: Option<Json>) {
    || a == b
    || (b.None? && Optional(k, name))
    || (a.None? && b.Some? && Defaulted(k, name, b.value))
    || (a.Some? && b.Some? && SameURL(k, name, a.value, b.value))
  }

  /** How the app may store what it is sent: members may be added, fields dropped, filled in or rewritten. */
  ghost predicate StoredAs(k: Kind, sent: Res, stored: Res) {
    && (forall key :: key in sent && key !in {"id", "fields", "path"} ==> key in stored && stored[key] == sent[key])
    && TrimSlash(Text(stored, "path")) == TrimSlash(Text(sent, "path"))
    && (forall name :: FieldStored(k, name, Lookup(Fields(sent), name), Lookup(Fields(stored), name)))
  }

  function IdOf(m: Res): Option<int> {
    var v := Member(Obj(m), "id");
    if v.Num? then Some(Trunc(v.n)) else None
  }

  /** What is as wanted when it is sent is as wanted when it is stored. */
  lemma StoredKeeps(k: Kind, sent: Res, stored: Res)
    requires k.Valid() && StoredAs(k, sent, stored) && Matches(k, sent) && Good(k, sent)
    ensures Matches(k, stored) && Good(k, stored)
  {
    WantsDistinct(k);
    forall i | 0 <= i < |Wants(k)|
      ensures Satisfied(stored, Wants(k)[i])
    {
      StoredSatisfies(k, sent, stored, i);
    }
    if k.Webhook? { StoredSecret(k, sent, stored); }
    hide StoredAs, Satisfied, SecretOf, Wants;
    StoredMembers(k, sent, stored);
  }

  lemma StoredMembers(k: Kind, sent: Res, stored: Res)
    requires StoredAs(k, sent, stored)
    ensures TrimSlash(Text(stored, "path")) == TrimSlash(Text(sent, "path"))
    ensures Text(sent, "name") != "" ==> Text(stored, "name") == Text(sent, "name")
    ensures Text(sent, "implementation") != "" ==> Text(stored, "implementation") == Text(sent, "implementation")
    ensures Member(Obj(sent), "onDownload") != Null ==>
        Member(Obj(stored), "onDownload") == Member(Obj(sent), "onDownload")
    ensures Member(Obj(sent), "onUpgrade") != Null ==>
        Member(Obj(stored), "onUpgrade") == Member(Obj(sent), "onUpgrade")
  {
    hide FieldStored, TrimSlash, Lookup, Fields;
  }

  lemma StoredSecret(k: Kind, sent: Res, stored: Res)
    requires k.Webhook? && StoredAs(k, sent, stored)
    ensures SecretOf(stored, k.fold) == SecretOf(sent, k.fold)
  {
    hide Lookup, Fields, TrimSlash;
    assert FieldStored(k, "headers", Lookup(Fields(sent), "headers"), Lookup(Fields(stored), "headers"));
    assert forall i :: 0 <= i < |Wants(k)| ==> Wants(k)[i].Exact? && Wants(k)[i].name != "headers";
  }

  lemma StoredSatisfies(k: Kind, sent: Res, stored: Res, i: nat)
    requires Distinct(Wants(k)) && StoredAs(k, sent, stored) && i < |Wants(k)| && Satisfied(sent, Wants(k)[i])
    ensures Satisfied(stored, Wants(k)[i])
  {
    var w := Wants(k)[i];
    assert w.name in Enforced(k);
    assert k.Webhook? ==> w.name != "headers";
    hide Wants, Lookup, Fields, Enforced, TrimSlash;
    assert FieldStored(k, w.name, Lookup(Fields(sent), w.name), Lookup(Fields(stored), w.name));
  }

  lemma IdSet(k: Kind, sent: Res, stored: Res, id: Json)
    requires StoredAs(k, sent, stored)
    ensures StoredAs(k, sent, stored["id" := id])
  {
    var m := stored["id" := id];
    assert Fields(m) == Fields(stored) && Text(m, "path") == Text(stored, "path");
    hide Lookup, FieldStored, Fields, TrimSlash, Text;
  }

  /**
   * The entries an app holds, the bodies sent to it so far, and how often it answered a POST with a
   * complete 5xx after it had stored the entry: the client repeats such a POST (internal/httpx).
   */
  datatype App = App(entries: seq<Res>, sent: seq<Res>, late: nat)

  const ATTEMPTS := 3

  /** One attempt of a POST: what the client met, and the entry the app stored, if it did. */
  datatype Try = Try(attempt: Retry.Attempt, stored: Option<Res>)

  predicate Accepted(a: Retry.Attempt) { a.Reply? && a.status < 400 }

  /** An attempt that was not sent, or was refused, stores nothing; one that was accepted did store. */
  ghost predicate TryOk(k: Kind, body: Res, t: Try) {
    && (t.attempt.NotBuilt? || Retry.DialFailure(t.attempt) ==> t.stored.None?)
    && (t.attempt.Reply? && 400 <= t.attempt.status < 500 ==> t.stored.None?)
    && (Accepted(t.attempt) ==> t.stored.Some?)
    && (t.stored.Some? ==> StoredAs(k, body, t.stored.value))
  }

  /** The attempts of one POST; all but the last were ones to repeat, and the context may end between them. */
  ghost predicate Posted(k: Kind, body: Res, tries: seq<Try>, ok: bool) {
    && |tries| <= ATTEMPTS
    && (forall i :: 0 <= i < |tries| ==> TryOk(k, body, tries[i]))
    && (forall i :: 0 <= i < |tries| - 1 ==> Retry.Repeats(tries[i].attempt, false))
    && (ok <==> tries != [] && Accepted(tries[|tries| - 1].attempt))
  }

  lemma RepeatsRefused(a: Retry.Attempt)
    ensures Retry.Repeats(a, false) ==> !Accepted(a)
  {
  }

  /** What the app stored, in order. */
  function Kept(tries: seq<Try>): seq<Res> {
    if tries == [] then []
    else
      Kept(tries[..|tries| - 1]) + match tries[|tries| - 1].stored case None => [] case Some(e) => [e]
  }

  /** How often it stored and the client repeats all the same: after a complete 5xx. */
  function LateIn(tries: seq<Try>): nat {
    if tries == [] then 0
    else
      var t := tries[|tries| - 1];
      LateIn(tries[..|tries| - 1]) + if t.stored.Some? && Retry.Repeats(t.attempt, false) then 1 else 0
  }

  lemma OneMoreTry(tries: seq<Try>, t: Try)
    ensures Kept(tries + [t]) == Kept(tries) + match t.stored case None => [] case Some(e) => [e]
    ensures LateIn(tries + [t]) == LateIn(tries) + if t.stored.Some? && Retry.Repeats(t.attempt, false) then 1 else 0
  {
    assert (tries + [t])[..|tries|] == tries;
  }

  lemma {:induction false} AllRepeated(k: Kind, body: Res, tries: seq<Try>)
    requires forall i :: 0 <= i < |tries| ==> TryOk(k, body, tries[i])
    ensures LateIn(tries) <= |Kept(tries)| && forall e :: e in Kept(tries) ==> StoredAs(k, body, e)
    ensures (forall i :: 0 <= i < |tries| ==> Retry.Repeats(tries[i].attempt, false)) ==> |Kept(tries)| == LateIn(tries)
  {
    hide StoredAs, Retry.Repeats;
    if tries != [] { AllRepeated(k, body, tries[..|tries| - 1]); }
  }

  /** A POST stores its body once and once more for each late 5xx; exactly so if it succeeds. */
  lemma PostStores(k: Kind, body: Res, tries: seq<Try>, ok: bool)
    requires Posted(k, body, tries, ok)
    ensures LateIn(tries) <= |Kept(tries)| <= 1 + LateIn(tries)
    ensures ok ==> |Kept(tries)| == 1 + LateIn(tries)
    ensures forall e :: e in Kept(tries) ==> StoredAs(k, body, e)
  {
    hide StoredAs;
    AllRepeated(k, body, tries);
    if tries != [] { AllRepeated(k, body, tries[..|tries| - 1]); }
  }

  /** What a wire function asks of the app, and what it is answered; None stands for an error. */
  datatype Call =
    | Listed(answer: Option<seq<Res>>)
    | Updated(id: int, body: Res, done: bool)
    | Added(body: Res, done: bool)

  /** The bodies that were sent. */
  function Bodies(calls: seq<Call>): seq<Res> {
    if calls == [] then []
    else
      var c := calls[|calls| - 1];
      Bodies(calls[..|calls| - 1]) + if c.Listed? then [] else [c.body]
  }

  lemma OneMoreCall(calls: seq<Call>, c: Call)
    ensures Bodies(calls + [c]) == Bodies(calls) + if c.Listed? then [] else [c.body]
  {
    assert (calls + [c])[..|calls|] == calls;
  }

  /** One collection of one app. */
  class Server {
    const kind: Kind
    const keep: (nat, Res) -> Res
    var entries: seq<Res>
    var nextId: nat
    var calls: seq<Call>
    var late: nat

    function View(): App
      reads this
    {
      App(entries, Bodies(calls), late)
    }

    /** What is stored answers StoredAs; ids are unique and below nextId. */
    ghost predicate Valid()
      reads this`entries, this`nextId
    {
      && kind.Valid()
      && (forall n: nat, r: Res :: StoredAs(kind, r, keep(n, r)))
      && (forall i :: 0 <= i < |entries| && IdOf(entries[i]).Some? ==> IdOf(entries[i]).value < nextId)
      && (forall i, j :: 0 <= i < j < |entries| && IdOf(entries[i]).Some? ==> IdOf(entries[i]) != IdOf(entries[j]))
    }

    constructor (kind: Kind, keep: (nat, Res) -> Res)
      requires kind.Valid() && forall n: nat, r: Res :: StoredAs(kind, r, keep(n, r))
      ensures Valid() && View() == App([], [], 0) && this.kind == kind
    {
      this.kind, this.keep := kind, keep;
      entries, nextId, calls, late := [], 1, [], 0;
    }

    method List() returns (r: Option<seq<Res>>)
      requires Valid()
      modifies this
      ensures Valid() && View() == old(View())
      ensures calls == old(calls) + [Listed(r)] && (r.Some? ==> r.value == old(entries))
    {
      hide Valid, Bodies;
      var up: bool := *;
      r := if up then Some(entries) else None;
      OneMoreCall(calls, Listed(r));
      calls := calls + [Listed(r)];
    }

    /** One POST with its repetitions. */
    method Add(body: Res) returns (ok: bool, ghost tries: seq<Try>)
      requires Valid()
      modifies this
      ensures Valid() && calls == old(calls) + [Added(body, ok)]
      ensures Posted(kind, body, tries, ok)
      ensures View() == App(old(entries) + Kept(tries), old(View()).sent + [body], old(late) + LateIn(tries))
    {
      hide Valid, Bodies, Posted, Kept, LateIn;
      ok, tries := Send(body);
      OneMoreCall(calls, Added(body, ok));
      calls := calls + [Added(body, ok)];
    }

    method Send(body: Res) returns (ok: bool, ghost tries: seq<Try>)
      requires Valid()
      modifies this
      ensures Valid() && calls == old(calls)
      ensures Posted(kind, body, tries, ok)
      ensures entries == old(entries) + Kept(tries) && late == old(late) + LateIn(tries)
    {
      ok, tries := false, [];
      assert Kept(tries) == [] && LateIn(tries) == 0;
      hide TryOk, Valid, Kept, LateIn, Accepted, Retry.Repeats;
      for i := 0 to ATTEMPTS
        invariant Valid() && calls == old(calls) && !ok && |tries| == i
        invariant forall j :: 0 <= j < i ==> TryOk(kind, body, tries[j]) && Retry.Repeats(tries[j].attempt, false)
        invariant i > 0 ==> !Accepted(tries[i - 1].attempt)
        invariant entries == old(entries) + Kept(tries) && late == old(late) + LateIn(tries)
      {
        var cancelled: bool := *;
        if cancelled { return; }
        var t := Attempt(body);
        OneMoreTry(tries, t);
        tries := tries + [t];
        RepeatsRefused(t.attempt);
        if !Retry.Repeats(t.attempt, false) {
          ok := Accepted(t.attempt);
          return;
        }
      }
    }

    method Attempt(body: Res) returns (t: Try)
      requires Valid()
      modifies this
      ensures Valid() && calls == old(calls) && TryOk(kind, body, t)
      ensures entries == old(entries) + match t.stored case None => [] case Some(e) => [e]
      ensures late == old(late) + if t.stored.Some? && Retry.Repeats(t.attempt, false) then 1 else 0
    {
      hide StoredAs, IdOf;
      var a: Retry.Attempt, stores: bool := *, *;
      if a.NotBuilt? || Retry.DialFailure(a) || (a.Reply? && 400 <= a.status < 500) { stores := false; }
      if Accepted(a) { stores := true; }
      if !stores { return Try(a, None); }
      var e := Store(body);
      if Retry.Repeats(a, false) { late := late + 1; }
      t := Try(a, Some(e));
    }

    method Store(body: Res) returns (e: Res)
      requires Valid()
      modifies this
      ensures Valid() && calls == old(calls) && late == old(late)
      ensures StoredAs(kind, body, e) && entries == old(entries) + [e]
    {
      IdSet(kind, body, keep(nextId, body), Num(nextId as real));
      e := keep(nextId, body)["id" := Num(nextId as real)];
      assert IdOf(e) == Some(nextId);
      entries, nextId := entries + [e], nextId + 1;
    }

    /** One PUT; repeating it stores the same body in the same place again. */
    method Update(id: int, body: Res) returns (ok: bool)
      requires Valid()
      modifies this
      ensures Valid() && calls == old(calls) + [Updated(id, body, ok)] && View().sent == old(View()).sent + [body]
      ensures late == old(late)
      ensures entries == old(entries)
        || exists i, e ::
             0 <= i < |old(entries)| && IdOf(old(entries)[i]) == Some(id)
             && StoredAs(kind, body, e) && entries == old(entries)[i := e]
      ensures ok ==>
                exists i :: 0 <= i < |entries| && IdOf(old(entries)[i]) == Some(id) && StoredAs(kind, body, entries[i])
    {
      hide Valid, Bodies, StoredAs;
      ok := Replace(id, body);
      OneMoreCall(calls, Updated(id, body, ok));
      calls := calls + [Updated(id, body, ok)];
    }

    method Replace(id: int, body: Res) returns (ok: bool)
      requires Valid()
      modifies this
      ensures Valid() && calls == old(calls) && late == old(late)
      ensures entries == old(entries)
        || exists i, e ::
             0 <= i < |old(entries)| && IdOf(old(entries)[i]) == Some(id)
             && StoredAs(kind, body, e) && entries == old(entries)[i := e]
      ensures ok ==>
                exists i :: 0 <= i < |entries| && IdOf(old(entries)[i]) == Some(id) && StoredAs(kind, body, entries[i])
    {
      var stored, replied: bool := *, *;
      var n := |calls|;
      ok := false;
      for i := 0 to |entries|
        invariant !ok && entries == old(entries) && nextId == old(nextId) && calls == old(calls) && late == old(late)
      {
        if stored && IdOf(entries[i]) == Some(id) {
          IdSet(kind, body, keep(n, body), entries[i]["id"]);
          var e := keep(n, body)["id" := entries[i]["id"]];
          assert IdOf(e) == Some(id);
          entries := entries[i := e];
          return replied;
        }
      }
    }
  }

  // ---- what a wire function does ---------------------------------------------------------

  function FieldList(ws: seq<(string, Json)>): Json {
    Arr(seq(|ws|, i requires 0 <= i < |ws| => NewField(ws[i].0, ws[i].1)))
  }

  function ClientFields(category: string, catFields: seq<string>): seq<(string, Json)> {
    [("host", Str("gluetun")), ("port", Num(8080.0)), ("username", Str("")), ("password", Str(""))]
    + seq(|catFields|, i requires 0 <= i < |catFields| => (catFields[i], Str(category)))
  }

  function ClientPayload(category: string, catFields: seq<string>): Res {
    map["name" := Str("qBittorrent"), "implementation" := Str("QBittorrent"),
        "configContract" := Str("QBittorrentSettings"),
        "protocol" := Str("torrent"), "enable" := Bool(true), "priority" := Num(1.0),
        "fields" := FieldList(ClientFields(category, catFields))]
  }

  function WebhookPayload(url: string, secret: string): Res {
    var common := [("url", Str(url)), ("method", Num(1.0)), ("username", Str("")), ("password", Str(""))];
    map["name" := Str("Pelicula"), "implementation" := Str("Webhook"), "configContract" := Str("WebhookSettings"),
        "onGrab" := Bool(false), "onDownload" := Bool(true), "onUpgrade" := Bool(true),
        "onHealthIssue" := Bool(false), "onApplicationUpdate" := Bool(false),
        "fields" := FieldList(if secret == "" then common else common + [("headers", SecretHeaders(secret))])]
  }

  function AppPayload(app: string, prowlarrURL: string, appURL: string, appKey: string): Res {
    map["name" := Str(app), "implementation" := Str(app), "configContract" := Str(app + "Settings"),
        "syncLevel" := Str("fullSync"),
        "fields" := FieldList([("prowlarrUrl", Str(prowlarrURL)), ("baseUrl", Str(appURL)), ("apiKey", Str(appKey))])]
  }

  /** What is posted where no entry matches. */
  function Payload(k: Kind): Res {
    match k
    case RootFolder(path) => map["path" := Str(path)]
    case DownloadClient(category, catFields) => ClientPayload(category, catFields)
    case Webhook(url, secret, _) => WebhookPayload(url, secret)
    case Application(app, prowlarrURL, appURL, appKey, _) => AppPayload(app, prowlarrURL, appURL, appKey)
  }

  lemma {:induction false} ListedField(ws: seq<(string, Json)>, i: nat)
    requires i < |ws| && forall j :: 0 <= j < i ==> ws[j].0 != ws[i].0
    ensures Lookup(FieldList(ws).items, ws[i].0) == Some(ws[i].1)
  {
    var items := FieldList(ws).items;
    if i > 0 {
      assert FieldList(ws[1..]).items == items[1..];
      ListedField(ws[1..], i - 1);
    }
  }

  lemma {:induction false} UnlistedField(ws: seq<(string, Json)>, name: string)
    requires forall j :: 0 <= j < |ws| ==> ws[j].0 != name
    ensures Lookup(FieldList(ws).items, name) == None
  {
    var items := FieldList(ws).items;
    if ws != [] {
      assert FieldList(ws[1..]).items == items[1..];
      UnlistedField(ws[1..], name);
    }
  }

  lemma PayloadGood(category: string, catFields: seq<string>)
    requires DownloadClient(category, catFields).Valid()
    ensures Good(DownloadClient(category, catFields), ClientPayload(category, catFields))
    ensures Matches(DownloadClient(category, catFields), ClientPayload(category, catFields))
  {
    hide Lookup;
    var k, body := DownloadClient(category, catFields), ClientPayload(category, catFields);
    var ws := ClientFields(category, catFields);
    assert Fields(body) == FieldList(ws).items;
    assert forall j :: 4 <= j < |ws| ==> ws[j].0 == catFields[j - 4];
    forall i | 0 <= i < |Wants(k)|
      ensures Satisfied(body, Wants(k)[i])
    {
      if i < 2 {
        ListedField(ws, i);
      } else if i == 2 {
        UnlistedField(ws, "useSsl");
      } else {
        ListedField(ws, i + 1);
      }
    }
  }

  lemma WebhookPayloadGood(url: string, secret: string, fold: string -> string)
    ensures Good(Webhook(url, secret, fold), WebhookPayload(url, secret))
    ensures Matches(Webhook(url, secret, fold), WebhookPayload(url, secret))
  {
    hide Lookup;
    var k, body := Webhook(url, secret, fold), WebhookPayload(url, secret);
    var common := [("url", Str(url)), ("method", Num(1.0)), ("username", Str("")), ("password", Str(""))];
    var ws := if secret == "" then common else common + [("headers", SecretHeaders(secret))];
    assert Fields(body) == FieldList(ws).items;
    ListedField(ws, 0);
    ListedField(ws, 1);
    if secret == "" { UnlistedField(ws, "headers"); } else { ListedField(ws, 4); }
  }

  lemma AppPayloadGood(app: string, prowlarrURL: string, appURL: string, appKey: string, norm: string -> string)
    ensures Good(Application(app, prowlarrURL, appURL, appKey, norm), AppPayload(app, prowlarrURL, appURL, appKey))
    ensures Matches(Application(app, prowlarrURL, appURL, appKey, norm), AppPayload(app, prowlarrURL, appURL, appKey))
  {
    hide Lookup;
    var ws := [("prowlarrUrl", Str(prowlarrURL)), ("baseUrl", Str(appURL)), ("apiKey", Str(appKey))];
    assert Fields(AppPayload(app, prowlarrURL, appURL, appKey)) == FieldList(ws).items;
    ListedField(ws, 0);
    ListedField(ws, 1);
    ListedField(ws, 2);
  }

  /** The payload of a kind is found again, and is as wanted. */
  lemma PayloadWanted(k: Kind)
    requires k.Valid()
    ensures Matches(k, Payload(k)) && Good(k, Payload(k))
  {
    match k
    case RootFolder(_) =>
    case DownloadClient(category, catFields) =>
      PayloadGood(category, catFields);
    case Webhook(url, secret, fold) =>
      WebhookPayloadGood(url, secret, fold);
    case Application(app, prowlarrURL, appURL, appKey, norm) =>
      AppPayloadGood(app, prowlarrURL, appURL, appKey, norm);
  }

  /** What the payloads say, read back as the app reads them. */
  lemma ClientPayloadSays(category: string, catFields: seq<string>, i: nat)
    requires DownloadClient(category, catFields).Valid() && i < |catFields|
    ensures var p := ClientPayload(category, catFields);
      && Text(p, "name") == "qBittorrent" && Text(p, "implementation") == "QBittorrent"
      && Text(p, "configContract") == "QBittorrentSettings" && Text(p, "protocol") == "torrent"
      && FlagOf(p, "enable") && Member(Obj(p), "priority") == Num(1.0)
      && Lookup(Fields(p), "username") == Some(Str("")) && Lookup(Fields(p), "password") == Some(Str(""))
      && Lookup(Fields(p), catFields[i]) == Some(Str(category))
  {
    hide Lookup;
    var ws := ClientFields(category, catFields);
    assert Fields(ClientPayload(category, catFields)) == FieldList(ws).items;
    assert forall j :: 4 <= j < |ws| ==> ws[j].0 == catFields[j - 4];
    ListedField(ws, 2);
    ListedField(ws, 3);
    ListedField(ws, i + 4);
  }

  lemma WebhookPayloadSays(url: string, secret: string)
    ensures var p := WebhookPayload(url, secret);
      && Text(p, "name") == "Pelicula" && Text(p, "implementation") == "Webhook"
      && Text(p, "configContract") == "WebhookSettings"
      && FlagOf(p, "onDownload") && FlagOf(p, "onUpgrade")
      && (forall flag :: flag in {"onGrab", "onHealthIssue", "onApplicationUpdate"} ==>
            Member(Obj(p), flag) == Bool(false))
  {
    hide FieldList;
  }

  lemma WebhookFieldsSay(url: string, secret: string)
    ensures var fs := Fields(WebhookPayload(url, secret));
      && Lookup(fs, "username") == Some(Str("")) && Lookup(fs, "password") == Some(Str(""))
      && Lookup(fs, "headers") ==
         if secret == "" then None
         else Some(Arr([Obj(map["key" := Str("X-Webhook-Secret"), "value" := Str(secret)])]))
  {
    hide Lookup;
    var common := [("url", Str(url)), ("method", Num(1.0)), ("username", Str("")), ("password", Str(""))];
    var ws := if secret == "" then common else common + [("headers", SecretHeaders(secret))];
    assert Fields(WebhookPayload(url, secret)) == FieldList(ws).items;
    ListedField(ws, 2);
    ListedField(ws, 3);
    if secret == "" { UnlistedField(ws, "headers"); } else { ListedField(ws, 4); }
  }

  lemma AppPayloadSays(app: string, prowlarrURL: string, appURL: string, appKey: string)
    ensures var p := AppPayload(app, prowlarrURL, appURL, appKey);
      && Text(p, "name") == app && Text(p, "implementation") == app && Text(p, "configContract") == app + "Settings"
      && Text(p, "syncLevel") == "fullSync"
      && Lookup(Fields(p), "prowlarrUrl") == Some(Str(prowlarrURL))
      && Lookup(Fields(p), "baseUrl") == Some(Str(appURL)) && Lookup(Fields(p), "apiKey") == Some(Str(appKey))
  {
    hide Lookup;
    var ws := [("prowlarrUrl", Str(prowlarrURL)), ("baseUrl", Str(appURL)), ("apiKey", Str(appKey))];
    assert Fields(AppPayload(app, prowlarrURL, appURL, appKey)) == FieldList(ws).items;
    ListedField(ws, 0);
    ListedField(ws, 1);
    ListedField(ws, 2);
  }

  /** What is wanted, said of the fields themselves. */
  lemma GoodClient(category: string, catFields: seq<string>, e: Res)
    ensures Good(DownloadClient(category, catFields), e) <==>
            && Lookup(Fields(e), "host") == Some(Str("gluetun"))
            && Lookup(Fields(e), "port") == Some(Num(8080.0))
            && Lookup(Fields(e), "useSsl") in {None, Some(Bool(false))}
            && forall name :: name in catFields ==> Lookup(Fields(e), name) in {None, Some(Str(category))}
  {
    hide Lookup, Fields, Wants, Satisfied;
    var k := DownloadClient(category, catFields);
    ClientWants(category, catFields);
    forall i | 0 <= i < |Wants(k)|
      ensures Satisfied(e, Wants(k)[i]) <==> Met(category, catFields, e, i)
    {
      MetExactly(category, catFields, e, i);
    }
    if Good(k, e) {
      assert forall i :: 0 <= i < |catFields| + 3 ==> Met(category, catFields, e, i);
      assert Met(category, catFields, e, 0) && Met(category, catFields, e, 1) && Met(category, catFields, e, 2);
      forall name | name in catFields
        ensures Lookup(Fields(e), name) in {None, Some(Str(category))}
      {
        var i :| 0 <= i < |catFields| && catFields[i] == name;
        assert Met(category, catFields, e, i + 3);
      }
    } else {
      var i :| 0 <= i < |Wants(k)| && !Satisfied(e, Wants(k)[i]);
      assert !Met(category, catFields, e, i) && (i >= 3 ==> catFields[i - 3] in catFields);
    }
  }

  lemma ClientWants(category: string, catFields: seq<string>)
    ensures |Wants(DownloadClient(category, catFields))| == |catFields| + 3
  {
  }

  /** Want i of a download client. */
  predicate Met(category: string, catFields: seq<string>, e: Res, i: nat)
    requires i < |catFields| + 3
  {
    if i == 0 then Lookup(Fields(e), "host") == Some(Str("gluetun"))
    else if i == 1 then Lookup(Fields(e), "port") == Some(Num(8080.0))
    else if i == 2 then Lookup(Fields(e), "useSsl") in {None, Some(Bool(false))}
    else Lookup(Fields(e), catFields[i - 3]) in {None, Some(Str(category))}
  }

  lemma MetExactly(category: string, catFields: seq<string>, e: Res, i: nat)
    requires i < |catFields| + 3 == |Wants(DownloadClient(category, catFields))|
    ensures Satisfied(e, Wants(DownloadClient(category, catFields))[i]) <==> Met(category, catFields, e, i)
  {
    hide Lookup, Fields;
  }

  lemma GoodWebhook(url: string, secret: string, fold: string -> string, e: Res)
    ensures Good(Webhook(url, secret, fold), e) <==>
            && Lookup(Fields(e), "url") == Some(Str(url)) && Lookup(Fields(e), "method") == Some(Num(1.0))
            && SecretOf(e, fold) == secret
            && Member(Obj(e), "onDownload") == Bool(true) && Member(Obj(e), "onUpgrade") == Bool(true)
  {
    hide Lookup, Fields, SecretOf;
    var ws := Wants(Webhook(url, secret, fold));
    assert ws[0] == Exact("url", Str(url), false) && ws[1] == Exact("method", Num(1.0), false);
  }

  lemma GoodApplication(app: string, prowlarrURL: string, appURL: string, appKey: string, norm: string -> string,
      e: Res)
    ensures Good(Application(app, prowlarrURL, appURL, appKey, norm), e) <==>
            && (var v := Lookup(Fields(e), "prowlarrUrl"); v.Some? && norm(AsStr(v.value)) == norm(prowlarrURL))
            && (var v := Lookup(Fields(e), "baseUrl"); v.Some? && norm(AsStr(v.value)) == norm(appURL))
            && (var v := Lookup(Fields(e), "apiKey"); v.Some? && AsStr(v.value) == appKey)
  {
    hide Lookup, Fields;
    var ws := Wants(Application(app, prowlarrURL, appURL, appKey, norm));
    assert ws[0] == Like("prowlarrUrl", prowlarrURL, norm) && ws[1] == Like("baseUrl", appURL, norm);
    assert ws[2] == Like("apiKey", appKey, Identity);
  }

  function Flags(k: Kind): set<string> { if k.Webhook? then {"onDownload", "onUpgrade"} else {} }

  /** An update sends back the entry as listed, but for the wanted fields and flags. */
  ghost predicate OnlyWanted(k: Kind, listed: Res, body: Res) {
    && body - ({"fields"} + Flags(k)) == listed - ({"fields"} + Flags(k))
    && OnlyFields(Fields(listed), Fields(body), Enforced(k))
  }

  /**
   * The effect of one run on the entries and on what was sent, ok or not: success means settled; a
   * settled app is left alone; a matching entry is created only when there was none, and with the
   * payload of its kind; an update changes only what is wanted of the first match, and no other entry.
   */
  ghost predicate Wired(k: Kind, a: App, b: App, ok: bool) {
    var es, es' := a.entries, b.entries;
    && (ok ==> Settled(k, es'))
    && (Settled(k, es) ==> b == a)
    && a.late <= b.late
    && (Count(k, es') == Count(k, es) || (Count(k, es) == 0 && Count(k, es') <= 1 + b.late - a.late))
    && (ok && Count(k, es) == 0 ==> Count(k, es') == 1 + b.late - a.late)
    && |es| <= |es'| && (forall i: nat :: i < |es| && !First(k, es, i) ==> es'[i] == es[i])
    && (b.sent == a.sent || exists body ::
          && b.sent == a.sent + [body]
          && (forall i: nat :: First(k, es, i) ==> OnlyWanted(k, es[i], body))
          && (Count(k, es) == 0 ==> body == Payload(k)))
  }

  /** What the listing's first match e calls for: nothing, an update that repairs it, or, without an id, giving up. */
  ghost predicate Repaired(k: Kind, e: Res, calls: seq<Call>, ok: bool) {
    if Good(k, e) then calls == [] && ok
    else
      match IdOf(e)
      case None => calls == [] && !ok
      case Some(id) =>
        && |calls| == 1 && calls[0].Updated? && calls[0].id == id && ok == calls[0].done
        && Good(k, calls[0].body) && OnlyWanted(k, e, calls[0].body)
  }

  /**
   * The calls of one run, and its result. The listing decides: an error ends the run, a first match is
   * left alone when it is as wanted and repaired otherwise, and without a match the payload is added.
   */
  ghost predicate Answered(k: Kind, calls: seq<Call>, ok: bool) {
    && |calls| >= 1 && calls[0].Listed?
    && match calls[0].answer
       case None => |calls| == 1 && !ok
       case Some(es) =>
         if exists i: nat :: First(k, es, i)
         then exists i: nat :: First(k, es, i) && Repaired(k, es[i], calls[1..], ok)
         else |calls| == 2 && calls[1].Added? && calls[1].body == Payload(k) && ok == calls[1].done
  }

  predicate Keyed(k: Kind) { k.Application? ==> k.appKey != "" }

  /** One run, from a to b: its calls and its effect. Only without a key for the application nothing is asked. */
  ghost predicate Run(k: Kind, a: App, b: App, calls: seq<Call>, ok: bool) {
    && Wired(k, a, b, ok)
    && b.sent == a.sent + Bodies(calls)
    && if !Keyed(k) then calls == [] && !ok
       else Answered(k, calls, ok) && (calls[0].answer.Some? ==> calls[0].answer.value == a.entries)
  }

  lemma {:induction false} CountUpdate(k: Kind, es: seq<Res>, i: nat, e: Res)
    requires i < |es| && Matches(k, e) == Matches(k, es[i])
    ensures Count(k, es[i := e]) == Count(k, es)
  {
    hide Matches;
    var es' := es[i := e];
    var n := |es| - 1;
    if i < n {
      assert es'[..n] == es[..n][i := e];
      CountUpdate(k, es[..n], i, e);
    } else {
      assert es'[..n] == es[..n];
    }
  }

  lemma {:induction false} CountNone(k: Kind, es: seq<Res>)
    ensures Count(k, es) == 0 <==> forall i :: 0 <= i < |es| ==> !Matches(k, es[i])
  {
    hide Matches;
    if es != [] {
      var n := |es| - 1;
      CountNone(k, es[..n]);
      assert forall i :: 0 <= i < n ==> es[i] == es[..n][i];
      assert Matches(k, es[n]) ==> Count(k, es) > 0;
    }
  }

  /** The update of a first match that was not good. */
  lemma UpdateWires(k: Kind, a: App, b: App, i: nat, body: Res, ok: bool)
    requires k.Valid() && First(k, a.entries, i) && !Good(k, a.entries[i])
    requires Good(k, body) && Matches(k, body) && OnlyWanted(k, a.entries[i], body)
    requires b.sent == a.sent + [body] && b.late == a.late
    requires b.entries == a.entries || exists e :: StoredAs(k, body, e) && b.entries == a.entries[i := e]
    requires ok ==> |b.entries| == |a.entries| && StoredAs(k, body, b.entries[i])
    ensures Wired(k, a, b, ok)
  {
    hide Matches, Good, OnlyWanted, StoredAs, Count;
    var es, es' := a.entries, b.entries;
    if es' != es {
      var e :| StoredAs(k, body, e) && es' == es[i := e];
      StoredKeeps(k, body, e);
      CountUpdate(k, es, i, e);
      assert First(k, es', i);
    }
    if ok {
      StoredKeeps(k, body, es'[i]);
      assert First(k, es', i);
    }
    CountNone(k, es);
    FirstUnique(k, es, i);
  }

  lemma FirstUnique(k: Kind, es: seq<Res>, i: nat)
    requires First(k, es, i)
    ensures forall j: nat :: First(k, es, j) ==> j == i
  {
    hide Matches;
  }

  /** The creation of an entry where none matched. */
  lemma AddWires(k: Kind, a: App, b: App, tries: seq<Try>, ok: bool)
    requires k.Valid() && (forall i :: 0 <= i < |a.entries| ==> !Matches(k, a.entries[i]))
    requires Posted(k, Payload(k), tries, ok)
    requires b == App(a.entries + Kept(tries), a.sent + [Payload(k)], a.late + LateIn(tries))
    ensures Wired(k, a, b, ok)
    ensures Count(k, b.entries) == |Kept(tries)|
  {
    hide Matches, Good, OnlyWanted, StoredAs, Payload, Posted, Kept, LateIn;
    var es, es' := a.entries, b.entries;
    PayloadWanted(k);
    PostStores(k, Payload(k), tries, ok);
    forall i | |es| <= i < |es'|
      ensures Matches(k, es'[i]) && Good(k, es'[i])
    {
      assert es'[i] in Kept(tries);
      StoredKeeps(k, Payload(k), es'[i]);
    }
    CountNone(k, es);
    CountGrown(k, es', |es|);
    assert es'[..|es|] == es;
    if |es'| > |es| { assert First(k, es', |es|); }
    hide Count;
  }

  lemma {:induction false} CountGrown(k: Kind, es: seq<Res>, n: nat)
    requires n <= |es| && forall i :: n <= i < |es| ==> Matches(k, es[i])
    ensures Count(k, es) == Count(k, es[..n]) + |es| - n
  {
    hide Matches;
    if n == |es| {
      assert es[..n] == es;
    } else {
      assert es[..|es| - 1][..n] == es[..n];
      CountGrown(k, es[..|es| - 1], n);
    }
  }

  lemma NothingWires(k: Kind, a: App)
    ensures Wired(k, a, a, false)
    ensures Settled(k, a.entries) ==> Wired(k, a, a, true)
  {
    hide Matches, Good;
    CountNone(k, a.entries);
  }

  lemma NoKey(k: Kind, a: App)
    requires !Keyed(k)
    ensures Run(k, a, a, [], false)
  {
    hide Wired, Answered;
    NothingWires(k, a);
    assert a.sent + [] == a.sent;
  }

  lemma NoListing(k: Kind, a: App)
    requires Keyed(k)
    ensures Run(k, a, a, [Listed(None)], false)
  {
    hide Wired;
    NothingWires(k, a);
    OneMoreCall([], Listed(None));
    assert [] + [Listed(None)] == [Listed(None)] && a.sent + [] == a.sent;
  }

  /** A first match that is as wanted, or has no id to be updated by. */
  lemma LeftAlone(k: Kind, a: App, i: nat)
    requires Keyed(k) && First(k, a.entries, i) && (Good(k, a.entries[i]) || IdOf(a.entries[i]).None?)
    ensures Run(k, a, a, [Listed(Some(a.entries))], Good(k, a.entries[i]))
  {
    hide Wired, Good, IdOf, Matches;
    NothingWires(k, a);
    OneMoreCall([], Listed(Some(a.entries)));
    var calls := [Listed(Some(a.entries))];
    assert [] + calls == calls && a.sent + [] == a.sent && calls[1..] == [];
    assert Repaired(k, a.entries[i], calls[1..], Good(k, a.entries[i]));
  }

  lemma WasRepaired(k: Kind, a: App, b: App, i: nat, body: Res, ok: bool)
    requires Keyed(k) && k.Valid() && First(k, a.entries, i) && !Good(k, a.entries[i]) && IdOf(a.entries[i]).Some?
    requires Good(k, body) && Matches(k, body) && OnlyWanted(k, a.entries[i], body)
    requires b.sent == a.sent + [body] && b.late == a.late
    requires b.entries == a.entries || exists e :: StoredAs(k, body, e) && b.entries == a.entries[i := e]
    requires ok ==> |b.entries| == |a.entries| && StoredAs(k, body, b.entries[i])
    ensures Run(k, a, b, [Listed(Some(a.entries))] + [Updated(IdOf(a.entries[i]).value, body, ok)], ok)
  {
    hide Wired, Good, IdOf, Matches, OnlyWanted, StoredAs;
    UpdateWires(k, a, b, i, body, ok);
    var listed, put := Listed(Some(a.entries)), Updated(IdOf(a.entries[i]).value, body, ok);
    OneMoreCall([], listed);
    OneMoreCall([listed], put);
    assert [] + [listed] == [listed] && [listed] + [put] == [listed, put] && [listed, put][1..] == [put];
    assert Repaired(k, a.entries[i], [put], ok);
  }

  lemma WasAdded(k: Kind, a: App, b: App, tries: seq<Try>, ok: bool)
    requires Keyed(k) && k.Valid() && (forall i :: 0 <= i < |a.entries| ==> !Matches(k, a.entries[i]))
    requires Posted(k, Payload(k), tries, ok)
    requires b == App(a.entries + Kept(tries), a.sent + [Payload(k)], a.late + LateIn(tries))
    ensures Run(k, a, b, [Listed(Some(a.entries))] + [Added(Payload(k), ok)], ok)
  {
    hide Wired, Payload, Matches, Repaired, Posted, Kept, LateIn, Count;
    AddWires(k, a, b, tries, ok);
    var listed, post := Listed(Some(a.entries)), Added(Payload(k), ok);
    OneMoreCall([], listed);
    OneMoreCall([listed], post);
    assert [] + [listed] == [listed] && [listed] + [post] == [listed, post];
  }

  // ---- the four wire functions -----------------------------------------------------------

  /** The end of a run whose listing's first match has drifted: the patched entry goes back under its id. */
  method UpdateListed(server: Server, ghost i: nat, body: Res) returns (ok: bool, ghost made: seq<Call>)
    requires server.Valid() && Keyed(server.kind) && First(server.kind, server.entries, i)
    requires !Good(server.kind, server.entries[i]) && IdOf(body) == IdOf(server.entries[i])
    requires Good(server.kind, body) && Matches(server.kind, body)
        && OnlyWanted(server.kind, server.entries[i], body)
    modifies server
    ensures server.Valid() && server.calls == old(server.calls) + made
    ensures Run(server.kind, old(server.View()), server.View(), [Listed(Some(old(server.entries)))] + made, ok)
  {
    hide Run, Wired, StoredAs, Good, Matches, OnlyWanted, IdOf, Bodies;
    ghost var a := server.View();
    var id := IdOf(body);
    if id.None? {
      LeftAlone(server.kind, a, i);
      made := [];
      assert [Listed(Some(a.entries))] + made == [Listed(Some(a.entries))];
      return false, made;
    }
    ok := server.Update(id.value, body);
    made := [Updated(id.value, body, ok)];
    WasRepaired(server.kind, a, server.View(), i, body, ok);
  }

  /** The part of wireDownloadClient and wireProwlarrApp after a match. */
  method ReconcileListed(server: Server, ghost i: nat, listed: Res) returns (ok: bool, ghost made: seq<Call>)
    requires server.Valid() && Keyed(server.kind) && (server.kind.DownloadClient? || server.kind.Application?)
    requires First(server.kind, server.entries, i) && listed == server.entries[i]
    modifies server
    ensures server.Valid() && server.calls == old(server.calls) + made
    ensures Run(server.kind, old(server.View()), server.View(), [Listed(Some(old(server.entries)))] + made, ok)
  {
    hide Run, Wired, OnlyFields, Lookup, Fields, Put, Wants, Good, OnlyWanted, Satisfied, IdOf, Bodies;
    var k := server.kind;
    var res := new Resource(listed);
    WantsDistinct(k);
    var drift := res.ReconcileFields(Wants(k));
    PatchedMeans(k, listed, res.members, drift);
    if !drift {
      LeftAlone(k, server.View(), i);
      made := [];
      assert [Listed(Some(server.entries))] + made == [Listed(Some(server.entries))];
      return true, made;
    }
    ok, made := UpdateListed(server, i, res.members);
  }

  /** The part of wireImportWebhook after a match. */
  method ReconcileWebhook(server: Server, ghost i: nat, listed: Res) returns (ok: bool, ghost made: seq<Call>)
    requires server.Valid() && Keyed(server.kind) && server.kind.Webhook?
    requires First(server.kind, server.entries, i) && listed == server.entries[i]
    modifies server
    ensures server.Valid() && server.calls == old(server.calls) + made
    ensures Run(server.kind, old(server.View()), server.View(), [Listed(Some(old(server.entries)))] + made, ok)
  {
    hide Run, Wired, OnlyFields, Lookup, Fields, Put, Wants, Good, OnlyWanted, Satisfied, IdOf, Bodies;
    var k := server.kind;
    var res := new Resource(listed);
    var drift := PatchWebhook(k, res);
    if !drift {
      LeftAlone(k, server.View(), i);
      made := [];
      assert [Listed(Some(server.entries))] + made == [Listed(Some(server.entries))];
      return true, made;
    }
    ok, made := UpdateListed(server, i, res.members);
  }

  /** The end of a run whose listing has no match. */
  method AddPayload(server: Server, body: Res) returns (ok: bool, ghost made: seq<Call>)
    requires server.Valid() && Keyed(server.kind) && body == Payload(server.kind)
    requires forall j :: 0 <= j < |server.entries| ==> !Matches(server.kind, server.entries[j])
    modifies server
    ensures server.Valid() && server.calls == old(server.calls) + made
    ensures Run(server.kind, old(server.View()), server.View(), [Listed(Some(old(server.entries)))] + made, ok)
  {
    hide Run, Wired, StoredAs, Matches, Posted, Kept, LateIn, Bodies, Payload;
    ghost var a := server.View();
    ghost var tries;
    ok, tries := server.Add(body);
    made := [Added(body, ok)];
    WasAdded(server.kind, a, server.View(), tries, ok);
  }

  /** `wireRootFolder`. */
  method WireRootFolder(server: Server, path: string)
    returns (ok: bool, ghost made: seq<Call>)
    requires server.Valid() && server.kind == RootFolder(path)
    modifies server
    ensures server.Valid() && server.calls == old(server.calls) + made
    ensures Run(server.kind, old(server.View()), server.View(), made, ok)
  {
    hide Run, Wired, StoredAs, Posted, Kept, LateIn, Bodies;
    var k := server.kind;
    ghost var a := server.View();
    NoListing(k, a);
    var folders := server.List();
    made := [Listed(folders)];
    if folders.None? { return false, made; }
    for i := 0 to |folders.value|
      invariant server.Valid() && server.View() == a && server.calls == old(server.calls) + made
      invariant forall j :: 0 <= j < i ==> !Matches(server.kind, folders.value[j])
    {
      if TrimSlash(Text(folders.value[i], "path")) == TrimSlash(path) {
        LeftAlone(k, a, i);
        return true, made;
      }
    }
    var body: Res := map["path" := Str(path)];
    ghost var more;
    ok, more := AddPayload(server, body);
    made := made + more;
  }

  /** `wireDownloadClient`. */
  method WireDownloadClient(server: Server, category: string, catFields: seq<string>)
    returns (ok: bool, ghost made: seq<Call>)
    requires server.Valid() && server.kind == DownloadClient(category, catFields)
    modifies server
    ensures server.Valid() && server.calls == old(server.calls) + made
    ensures Run(server.kind, old(server.View()), server.View(), made, ok)
  {
    hide Run, Wired, StoredAs, OnlyFields, Lookup, Fields, Put, Wants, Good, OnlyWanted, Satisfied, IdOf, Posted, Kept,
        LateIn, Count, Bodies;
    var k := server.kind;
    ghost var a := server.View();
    NoListing(k, a);
    var listed := server.List();
    made := [Listed(listed)];
    if listed.None? { return false, made; }
    var existing := listed.value;
    for i := 0 to |existing|
      invariant server.Valid() && server.View() == a && server.calls == old(server.calls) + made
      invariant forall j :: 0 <= j < i ==> !Matches(k, existing[j])
    {
      if Text(existing[i], "implementation") != "QBittorrent" { continue; }
      assert First(k, existing, i);
      ghost var more;
      ok, more := ReconcileListed(server, i, existing[i]);
      return ok, made + more;
    }
    var body := ClientPayload(category, catFields);
    ghost var more;
    ok, more := AddPayload(server, body);
    made := made + more;
  }

  /** A patched entry, for the kinds whose entry has only wanted fields to enforce. */
  lemma PatchedMeans(k: Kind, listed: Res, m: Res, drift: bool)
    requires !k.Webhook? && Patched(listed, m, Wants(k), |Wants(k)|, drift)
    ensures Good(k, m) && OnlyWanted(k, listed, m) && drift == !Good(k, listed)
    ensures !drift ==> m == listed
    ensures k.DownloadClient? || k.Application? ==> Matches(k, m) == Matches(k, listed)
    ensures IdOf(m) == IdOf(listed)
  {
    hide Wants, Satisfied, OnlyFields, Lookup;
    SameMember(listed, m, "name");
    SameMember(listed, m, "implementation");
    SameMember(listed, m, "id");
    assert {"fields"} + Flags(k) == {"fields"} && Enforced(k) == Names(Wants(k));
  }

  lemma SameMember(a: Res, b: Res, key: string)
    requires a - {"fields"} == b - {"fields"} && key != "fields"
    ensures Member(Obj(a), key) == Member(Obj(b), key)
  {
    assert key in a <==> key in a - {"fields"};
    assert key in b <==> key in b - {"fields"};
    if key in a { assert a[key] == (a - {"fields"})[key] && b[key] == (b - {"fields"})[key]; }
  }

  /** `wireImportWebhook`, for the URL it has put together. */
  method WireImportWebhook(server: Server, url: string, secret: string, fold: string -> string)
    returns (ok: bool, ghost made: seq<Call>)
    requires server.Valid() && server.kind == Webhook(url, secret, fold)
    modifies server
    ensures server.Valid() && server.calls == old(server.calls) + made
    ensures Run(server.kind, old(server.View()), server.View(), made, ok)
  {
    hide Run, Wired, StoredAs, OnlyFields, Lookup, Fields, Put, Wants, Good, OnlyWanted, Satisfied, IdOf, Posted, Kept,
        LateIn, Count, Bodies;
    var k := server.kind;
    ghost var a := server.View();
    NoListing(k, a);
    var listed := server.List();
    made := [Listed(listed)];
    if listed.None? { return false, made; }
    var existing := listed.value;
    for i := 0 to |existing|
      invariant server.Valid() && server.View() == a && server.calls == old(server.calls) + made
      invariant forall j :: 0 <= j < i ==> !Matches(k, existing[j])
    {
      if Text(existing[i], "name") != "Pelicula" { continue; }
      assert First(k, existing, i);
      ghost var more;
      ok, more := ReconcileWebhook(server, i, existing[i]);
      return ok, made + more;
    }
    var body := WebhookPayload(url, secret);
    ghost var more;
    ok, more := AddPayload(server, body);
    made := made + more;
  }

  /** The wanted fields and the secret, after reconcileFields (m1) and setting the headers where they differ (m2). */
  lemma HeadersPatched(k: Kind, m0: Res, m1: Res, drift: bool, m2: Res)
    requires k.Webhook? && Patched(m0, m1, Wants(k), |Wants(k)|, drift)
    requires m2 == if SecretOf(m1, k.fold) == k.secret then m1 else WithField(m1, "headers", SecretHeaders(k.secret))
    ensures forall i :: 0 <= i < |Wants(k)| ==> Satisfied(m2, Wants(k)[i])
    ensures SecretOf(m2, k.fold) == k.secret && SecretOf(m1, k.fold) == SecretOf(m0, k.fold)
    ensures m2 - {"fields"} == m0 - {"fields"} && OnlyFields(Fields(m0), Fields(m2), Enforced(k))
    ensures drift <==> !forall i :: 0 <= i < |Wants(k)| ==> Satisfied(m0, Wants(k)[i])
  {
    hide OnlyFields, Lookup, Put;
    assert "headers" !in Names(Wants(k));
    assert forall j :: 0 <= j < |Wants(k)| ==> Wants(k)[j].name != "headers";
    assert Lookup(Fields(m1), "headers") == Lookup(Fields(m0), "headers");
    SecretSame(m0, m1, k.fold);
    WidenNames(Fields(m0), Fields(m1), Names(Wants(k)), Enforced(k));
    if SecretOf(m1, k.fold) != k.secret {
      var fs := Fields(m1);
      PutOnly(fs, "headers", SecretHeaders(k.secret));
      OnlyFieldsCompose(Fields(m0), fs, Fields(m2), Enforced(k), "headers");
      forall n
        ensures Lookup(Fields(m2), n) == if n == "headers" then Some(SecretHeaders(k.secret)) else Lookup(fs, n)
      {
        LookupPut(fs, "headers", SecretHeaders(k.secret), n);
      }
      SecretFound(m2, k.secret, k.fold);
    }
  }

  lemma SecretRead(secret: string, fold: string -> string)
    ensures SecretHeaders(secret).Arr? && SecretIn(SecretHeaders(secret).items, fold) == secret
  {
    if secret != "" {
      var h := SecretHeaders(secret).items[0];
      assert StrOf(h, "key") == HEADER && StrOf(h, "value") == secret;
    }
  }

  lemma SecretFound(m: Res, secret: string, fold: string -> string)
    requires Lookup(Fields(m), "headers") == Some(SecretHeaders(secret))
    ensures SecretOf(m, fold) == secret
  {
    hide Lookup, Fields, SecretIn, SecretHeaders;
    SecretRead(secret, fold);
  }

  lemma SecretSame(m: Res, m': Res, fold: string -> string)
    requires Lookup(Fields(m'), "headers") == Lookup(Fields(m), "headers")
    ensures SecretOf(m', fold) == SecretOf(m, fold)
  {
    hide Lookup, Fields, SecretIn;
  }

  lemma SameFields(m: Res, m': Res, w: Want, fold: string -> string)
    requires Fields(m') == Fields(m)
    ensures Satisfied(m', w) == Satisfied(m, w) && SecretOf(m', fold) == SecretOf(m, fold)
  {
    hide Fields, Lookup;
  }

  lemma WidenNames(a: seq<Json>, b: seq<Json>, names: set<string>, more: set<string>)
    requires OnlyFields(a, b, names) && names <= more
    ensures OnlyFields(a, b, more)
  {
    hide Named;
    forall j | 0 <= j < |a|
      ensures FieldKept(a[j], b[j], more)
    {
      assert FieldKept(a[j], b[j], names);
    }
    forall j | |a| <= j < |b|
      ensures FieldOf(b[j], more)
    {
      assert FieldOf(b[j], names);
    }
  }

  /** Setting a flag changes nothing else. */
  lemma FlagPatched(m: Res, m': Res, key: string, other: string)
    requires m - {key} == m' - {key} && key != other
    ensures Member(Obj(m'), other) == Member(Obj(m), other)
    ensures key != "fields" ==> Fields(m') == Fields(m)
  {
    SameBut(m, m', key, other);
    if key != "fields" { SameBut(m, m', key, "fields"); }
  }

  lemma SameBut(m: Res, m': Res, key: string, other: string)
    requires m - {key} == m' - {key} && key != other
    ensures other in m <==> other in m'
    ensures other in m ==> m[other] == m'[other]
  {
    assert other in m <==> other in m - {key};
    assert other in m' <==> other in m' - {key};
    if other in m { assert m[other] == (m - {key})[other] && m'[other] == (m' - {key})[other]; }
  }

  /** The patching inside wireImportWebhook. */
  method PatchWebhook(k: Kind, res: Resource) returns (drift: bool)
    requires k.Webhook? && k.Valid()
    modifies res
    ensures Good(k, res.members) && OnlyWanted(k, old(res.members), res.members) && drift == !Good(k, old(res.members))
    ensures Matches(k, res.members) == Matches(k, old(res.members)) && IdOf(res.members) == IdOf(old(res.members))
  {
    hide OnlyFields, Lookup, Put, Satisfied, Patched, Fields, Wants;
    WantsDistinct(k);
    ghost var m0 := res.members;
    drift := res.ReconcileFields(Wants(k));
    ghost var m1, d1 := res.members, drift;
    var got := res.HeaderSecret(k.fold);
    if got != k.secret {
      res.SetField("headers", SecretHeaders(k.secret));
      drift := true;
    }
    ghost var m2 := res.members;
    HeadersPatched(k, m0, m1, d1, m2);
    var d3 := res.ReconcileFlag("onDownload", true);
    if d3 { drift := true; }
    ghost var m3 := res.members;
    var d4 := res.ReconcileFlag("onUpgrade", true);
    if d4 { drift := true; }
    FlagsPatched(k, m0, m2, m3, res.members);
    forall i | 0 <= i < |Wants(k)|
      ensures Satisfied(res.members, Wants(k)[i]) == Satisfied(m2, Wants(k)[i])
    {
      SameFields(m2, res.members, Wants(k)[i], k.fold);
    }
    SecretSame(m2, res.members, k.fold);
  }

  /** The rest of the entry through the patches. */
  lemma FlagsPatched(k: Kind, m0: Res, m2: Res, m3: Res, m4: Res)
    requires k.Webhook? && m2 - {"fields"} == m0 - {"fields"} && OnlyFields(Fields(m0), Fields(m2), Enforced(k))
    requires m3 - {"onDownload"} == m2 - {"onDownload"} && m4 - {"onUpgrade"} == m3 - {"onUpgrade"}
    ensures OnlyWanted(k, m0, m4) && Matches(k, m4) == Matches(k, m0) && IdOf(m4) == IdOf(m0)
        && Fields(m4) == Fields(m2)
    ensures Member(Obj(m2), "onDownload") == Member(Obj(m0), "onDownload")
    ensures Member(Obj(m4), "onDownload") == Member(Obj(m3), "onDownload")
    ensures Member(Obj(m3), "onUpgrade") == Member(Obj(m0), "onUpgrade")
  {
    hide OnlyFields, Fields;
    SameMember(m0, m2, "name");
    SameMember(m0, m2, "id");
    SameMember(m0, m2, "onDownload");
    SameMember(m0, m2, "onUpgrade");
    FlagPatched(m2, m3, "onDownload", "name");
    FlagPatched(m2, m3, "onDownload", "id");
    FlagPatched(m2, m3, "onDownload", "onUpgrade");
    FlagPatched(m3, m4, "onUpgrade", "name");
    FlagPatched(m3, m4, "onUpgrade", "id");
    FlagPatched(m3, m4, "onUpgrade", "onDownload");
    var rest := {"fields"} + Flags(k);
    assert m2 - rest == (m2 - {"fields"}) - Flags(k);
    assert m0 - rest == (m0 - {"fields"}) - Flags(k);
    assert m3 - rest == (m3 - {"onDownload"}) - rest;
    assert m2 - rest == (m2 - {"onDownload"}) - rest;
    assert m4 - rest == (m4 - {"onUpgrade"}) - rest;
    assert m3 - rest == (m3 - {"onUpgrade"}) - rest;
  }

  /** `wireProwlarrApp`; without a key it gives up before it asks anything. */
  method WireProwlarrApp(server: Server, app: string, prowlarrURL: string, appURL: string, appKey: string,
      norm: string -> string)
    returns (ok: bool, ghost made: seq<Call>)
    requires server.Valid() && server.kind == Application(app, prowlarrURL, appURL, appKey, norm)
    modifies server
    ensures server.Valid() && server.calls == old(server.calls) + made
    ensures Run(server.kind, old(server.View()), server.View(), made, ok)
  {
    hide Run, Wired, StoredAs, OnlyFields, Lookup, Fields, Put, Wants, Good, OnlyWanted, Satisfied, IdOf, Posted, Kept,
        LateIn, Count, Bodies;
    var k := server.kind;
    ghost var a := server.View();
    made := [];
    if appKey == "" {
      NoKey(k, a);
      return false, made;
    }
    NoListing(k, a);
    var listed := server.List();
    made := [Listed(listed)];
    if listed.None? { return false, made; }
    var existing := listed.value;
    for i := 0 to |existing|
      invariant server.Valid() && server.View() == a && server.calls == old(server.calls) + made
      invariant forall j :: 0 <= j < i ==> !Matches(k, existing[j])
    {
      if Text(existing[i], "name") != app { continue; }
      assert First(k, existing, i);
      ghost var more;
      ok, more := ReconcileListed(server, i, existing[i]);
      return ok, made + more;
    }
    var body := AppPayload(app, prowlarrURL, appURL, appKey);
    ghost var more;
    ok, more := AddPayload(server, body);
    made := made + more;
  }

  // ---- over many runs --------------------------------------------------------------------

  /** apps[i] to apps[i + 1] is one run of a wire function, which made the calls made[i] and returned ok[i]. */
  ghost predicate Runs(k: Kind, apps: seq<App>, made: seq<seq<Call>>, ok: seq<bool>) {
    && |apps| == |ok| + 1 && |made| == |ok|
    && forall i :: 0 <= i < |ok| ==> Run(k, apps[i], apps[i + 1], made[i], ok[i])
  }

  /** Every call of the run was answered with success. */
  predicate Responsive(calls: seq<Call>) {
    calls != [] && forall i :: 0 <= i < |calls| ==> if calls[i].Listed? then calls[i].answer.Some? else calls[i].done
  }

  /** The first match needs an update and has no id to make it by. */
  ghost predicate Stuck(k: Kind, es: seq<Res>) {
    exists i: nat :: First(k, es, i) && !Good(k, es[i]) && IdOf(es[i]).None?
  }

  lemma SucceedsExactly(k: Kind, a: App, b: App, calls: seq<Call>, ok: bool)
    requires Run(k, a, b, calls, ok)
    ensures ok <==> Responsive(calls) && !Stuck(k, a.entries)
    ensures ok ==> Settled(k, b.entries)
  {
    hide Good, Matches, IdOf, OnlyWanted, Payload, Count, Bodies;
    if calls != [] && calls[0].answer.Some? {
      var es := a.entries;
      if exists i: nat :: First(k, es, i) {
        var i: nat :| First(k, es, i) && Repaired(k, es[i], calls[1..], ok);
        FirstUnique(k, es, i);
        assert |calls| == 2 ==> calls[1..][0] == calls[1];
      }
    }
  }

  /**
   * MAIN: from any app, the first run whose calls are all answered with success repairs or creates the entry, for
   * good, unless a drifted entry has no id; and only such a run reports success.
   */
  lemma RepairedForGood(k: Kind, apps: seq<App>, made: seq<seq<Call>>, ok: seq<bool>, i: nat, j: nat)
    requires Runs(k, apps, made, ok) && i < j <= |ok|
    ensures ok[i] <==> Responsive(made[i]) && !Stuck(k, apps[i].entries)
    ensures ok[i] ==> Settled(k, apps[j].entries) && apps[j] == apps[i + 1]
  {
    hide Run, Stuck, Settled;
    assert Run(k, apps[i], apps[i + 1], made[i], ok[i]);
    SucceedsExactly(k, apps[i], apps[i + 1], made[i], ok[i]);
    if ok[i] { Converges(k, apps, made, ok, i, j); }
  }

  /** MAIN: runs converge. After a successful run nothing is sent and nothing changes any more. */
  lemma {:induction false} Converges(k: Kind, apps: seq<App>, made: seq<seq<Call>>, ok: seq<bool>, i: nat,
      j: nat)
    requires Runs(k, apps, made, ok) && i < j <= |ok| && ok[i]
    ensures apps[j] == apps[i + 1]
  {
    hide Settled, Count, Answered;
    assert Run(k, apps[i], apps[i + 1], made[i], ok[i]);
    if j > i + 1 {
      Converges(k, apps, made, ok, i, j - 1);
      assert Run(k, apps[j - 1], apps[j], made[j - 1], ok[j - 1]);
    }
  }

  /**
   * MAIN: however many runs fail or lose their replies, they create one matching entry at most, and
   * only where none was; one more for each POST that was answered with a 5xx after it was stored.
   */
  lemma {:induction false} CreatesAtMostOne(k: Kind, apps: seq<App>, made: seq<seq<Call>>, ok: seq<bool>,
      j: nat)
    requires Runs(k, apps, made, ok) && j <= |ok|
    ensures apps[0].late <= apps[j].late
    ensures var before, after := Count(k, apps[0].entries), Count(k, apps[j].entries);
      after == before || (before == 0 && after <= 1 + apps[j].late - apps[0].late)
  {
    hide Settled, Count, Answered;
    if j > 0 {
      CreatesAtMostOne(k, apps, made, ok, j - 1);
      assert Run(k, apps[j - 1], apps[j], made[j - 1], ok[j - 1]);
    }
  }

  /** A reply of 500 to a POST that was stored, and then one of 200. */
  lemma LateReply(k: Kind, body: Res) returns (tries: seq<Try>)
    ensures |tries| == 2 && tries[0].attempt == Retry.Reply(500, "") && tries[1].attempt == Retry.Reply(200, "")
    ensures Posted(k, body, tries, true) && |Kept(tries)| == 2 && LateIn(tries) == 1
  {
    StoredAsSent(k, body);
    hide StoredAs;
    var first, second := Try(Retry.Reply(500, ""), Some(body)), Try(Retry.Reply(200, ""), Some(body));
    OneMoreTry([], first);
    OneMoreTry([first], second);
    tries := [first] + [second];
    assert [] + [first] == [first];
  }

  /** MAIN: that bound is met. One late reply leaves two matching entries, whatever the kind and the other entries. */
  lemma LateReplyDuplicates(k: Kind, a: App) returns (tries: seq<Try>, b: App)
    requires k.Valid() && Count(k, a.entries) == 0
    ensures |tries| == 2 && tries[0].attempt == Retry.Reply(500, "") && tries[1].attempt == Retry.Reply(200, "")
    ensures Posted(k, Payload(k), tries, true)
    ensures b == App(a.entries + Kept(tries), a.sent + [Payload(k)], a.late + LateIn(tries))
    ensures Wired(k, a, b, true) && Count(k, b.entries) == 2 && b.late == a.late + 1
  {
    hide Payload, Matches, Good, Wired, Count, Posted, Kept, LateIn;
    tries := LateReply(k, Payload(k));
    b := App(a.entries + Kept(tries), a.sent + [Payload(k)], a.late + LateIn(tries));
    CountNone(k, a.entries);
    AddWires(k, a, b, tries, true);
  }

  lemma StoredAsSent(k: Kind, e: Res)
    ensures StoredAs(k, e, e)
  {
    hide Lookup, Fields, TrimSlash, Text;
  }

  /** MAIN: and entries that do not match stay as they were. */
  lemma {:induction false} OthersUntouched(k: Kind, apps: seq<App>, made: seq<seq<Call>>, ok: seq<bool>, j: nat,
      i: nat)
    requires Runs(k, apps, made, ok) && j <= |ok| && i < |apps[0].entries| && !Matches(k, apps[0].entries[i])
    ensures i < |apps[j].entries| && apps[j].entries[i] == apps[0].entries[i]
  {
    hide Settled, Count, Matches, Answered;
    if j > 0 {
      OthersUntouched(k, apps, made, ok, j - 1, i);
      assert Run(k, apps[j - 1], apps[j], made[j - 1], ok[j - 1]);
    }
  }
}
