/**
 * The life of a media request (internal/api/requests.go, internal/store/requests.go, and the *arr
 * calls of internal/api/arr.go). Handlers read a request, talk to *arr and write the outcome without
 * looking again, so they may interleave.
 */
module Requests {
  import opened Prelude
  import opened Json

  // ---- adding a title to *arr ------------------------------------------------------------

  datatype Call =
    | Lookup(key: string, id: int, results: Option<seq<Json>>)   // by the title's TMDB or TVDB id
    | Search(id: int, done: bool)
    | Profiles(profiles: Option<seq<Json>>)
    | Add(payload: map<string, Json>, added: Option<Json>)

  /** A Radarr or Sonarr client that answers anything; `calls` records the exchange. */
  class ArrClient {
    var calls: seq<Call>

    constructor ()
      ensures calls == []
    {
      calls := [];
    }

    method LookupTitle(key: string, id: int) returns (r: Option<seq<Json>>)
      modifies this
      ensures calls == old(calls) + [Lookup(key, id, r)]
    {
      r := *;
      calls := calls + [Lookup(key, id, r)];
    }

    method TriggerSearch(id: int) returns (done: bool)
      modifies this
      ensures calls == old(calls) + [Search(id, done)]
    {
      done := *;
      calls := calls + [Search(id, done)];
    }

    method GetQualityProfiles() returns (r: Option<seq<Json>>)
      modifies this
      ensures calls == old(calls) + [Profiles(r)]
    {
      r := *;
      calls := calls + [Profiles(r)];
    }

    method AddTitle(payload: map<string, Json>) returns (r: Option<Json>)
      modifies this
      ensures calls == old(calls) + [Add(payload, r)]
    {
      r := *;
      calls := calls + [Add(payload, r)];
    }
  }

  /** The id of the first quality profile that has one. */
  function ProfileId(profiles: seq<Json>): (id: Option<int>)
    ensures id.None? <==> forall j :: 0 <= j < |profiles| ==> NumOf(profiles[j], "id") == 0
  {
    if profiles == [] then None
    else if NumOf(profiles[0], "id") != 0 then Some(NumOf(profiles[0], "id"))
    else
      assert forall j :: 1 <= j < |profiles| ==> profiles[j] == profiles[1..][j - 1];
      ProfileId(profiles[1..])
  }

  lemma {:induction false} ProfileFirst(profiles: seq<Json>, i: nat)
    requires i < |profiles| && NumOf(profiles[i], "id") != 0
    requires forall j :: 0 <= j < i ==> NumOf(profiles[j], "id") == 0
    ensures ProfileId(profiles) == Some(NumOf(profiles[i], "id"))
  {
    if i > 0 {
      assert forall j :: 1 <= j < |profiles| ==> profiles[j] == profiles[1..][j - 1];
      ProfileFirst(profiles[1..], i - 1);
    }
  }

  function ProfileOf(answer: Option<seq<Json>>): Option<int> {
    match answer
    case None => None
    case Some(profiles) => ProfileId(profiles)
  }

  /** `firstProfileID`. */
  method FirstProfileID(c: ArrClient) returns (id: Option<int>, ghost answer: Option<seq<Json>>)
    modifies c
    ensures c.calls == old(c.calls) + [Profiles(answer)] && id == ProfileOf(answer)
    ensures id.Some? ==> answer.Some? && exists i ::
              0 <= i < |answer.value| && id.value == NumOf(answer.value[i], "id") != 0
              && forall j :: 0 <= j < i ==> NumOf(answer.value[j], "id") == 0
  {
    var profiles := c.GetQualityProfiles();
    answer := profiles;
    if profiles.None? { return None, answer; }
    for i := 0 to |profiles.value|
      invariant ProfileId(profiles.value) == ProfileId(profiles.value[i..])
      invariant forall j :: 0 <= j < i ==> NumOf(profiles.value[j], "id") == 0
    {
      assert profiles.value[i..][1..] == profiles.value[i + 1..];
      var n := NumOf(profiles.value[i], "id");
      if n != 0 { return Some(n), answer; }
    }
    id := None;
  }

  function Copied(src: Json, keys: seq<string>): map<string, Json> {
    map k | k in keys && Member(src, k) != Null :: Member(src, k)
  }

  /** `copyKeys`: the non-null members of src under the keys. */
  method CopyKeys(src: Json, keys: seq<string>) returns (dst: map<string, Json>)
    ensures dst == Copied(src, keys)
  {
    dst := map[];
    for i := 0 to |keys|
      invariant dst == Copied(src, keys[..i])
    {
      if Member(src, keys[i]) != Null { dst := dst[keys[i] := Member(src, keys[i])]; }
    }
    assert keys[..|keys|] == keys;
  }

  /** How the title is added: what is copied from the lookup, and what is set. */
  datatype Title = Title(idKey: string, id: int, copied: seq<string>, root: string, extra: map<string, Json>)

  function Movie(tmdb: int, root: string): Title {
    Title("tmdbId", tmdb, ["title", "year", "titleSlug", "images"], root,
          map["monitored" := Bool(true), "minimumAvailability" := Str("released"),
              "addOptions" := Obj(map["searchForMovie" := Bool(true)])])
  }

  function Series(tvdb: int, root: string): Title {
    Title("tvdbId", tvdb, ["title", "year", "titleSlug", "images", "seasons"], root,
          map["seasonFolder" := Bool(true), "monitored" := Bool(true),
              "addOptions" := Obj(map["searchForMissingEpisodes" := Bool(true)])])
  }

  /** What is posted for a title: members of the lookup's answer, and what the server decides. */
  function Payload(t: Title, m: Json, profile: int): map<string, Json> {
    Copied(m, t.copied)
    + map[t.idKey := Num(t.id as real), "qualityProfileId" := Num(profile as real), "rootFolderPath" := Str(t.root)]
    + t.extra
  }

  /** It is made by one assignment after the other. */
  lemma PayloadMade(t: Title, m: Json, profile: int)
    requires t.idKey !in {"qualityProfileId", "rootFolderPath"}
    ensures Payload(t, m, profile) ==
            Copied(m, t.copied)[t.idKey := Num(t.id as real)]["qualityProfileId" := Num(profile as real)]
            ["rootFolderPath" := Str(t.root)] + t.extra
  {
    hide Copied;
  }

  /** An id of 0 in the answer to an addition counts as none. */
  function AddedId(answer: Option<Json>): Option<int> {
    match answer
    case None => None
    case Some(added) => if NumOf(added, "id") == 0 then None else Some(NumOf(added, "id"))
  }

  /** The exchange after a lookup that found m: a title *arr has is searched for, another one is added. */
  predicate Exchanged(t: Title, m: Json, calls: seq<Call>, id: Option<int>) {
    var known := NumOf(m, "id");
    if known != 0 then
      |calls| == 1 && calls[0].Search? && calls[0].id == known && id == if calls[0].done then Some(known) else None
    else
      && |calls| >= 1 && calls[0].Profiles?
      && match ProfileOf(calls[0].profiles)
         case None => |calls| == 1 && id == None
         case Some(profile) =>
           |calls| == 2 && calls[1].Add? && calls[1].payload == Payload(t, m, profile) && id == AddedId(calls[1].added)
  }

  /** The calls of addToArr, and the id they come to: None stands for its error. */
  predicate Exchange(t: Title, calls: seq<Call>, id: Option<int>) {
    if t.id <= 0 then calls == [] && id == None
    else
      && |calls| >= 1 && calls[0].Lookup? && calls[0].key == t.idKey && calls[0].id == t.id
      && var answer := calls[0].results;
         if answer.None? || answer.value == [] then |calls| == 1 && id == None
         else Exchanged(t, answer.value[0], calls[1..], id)
  }

  /** What is posted for a movie and for a series, member by member. */
  lemma MoviePayload(tmdb: int, root: string, m: Json, profile: int)
    ensures var p := Payload(Movie(tmdb, root), m, profile);
      && p["tmdbId"] == Num(tmdb as real) && p["qualityProfileId"] == Num(profile as real)
      && p["rootFolderPath"] == Str(root) && p["monitored"] == Bool(true)
      && p["minimumAvailability"] == Str("released")
      && p["addOptions"] == Obj(map["searchForMovie" := Bool(true)])
  {
    hide Copied;
  }

  lemma SeriesPayload(tvdb: int, root: string, m: Json, profile: int)
    ensures var p := Payload(Series(tvdb, root), m, profile);
      && p["tvdbId"] == Num(tvdb as real) && p["qualityProfileId"] == Num(profile as real)
      && p["rootFolderPath"] == Str(root) && p["monitored"] == Bool(true) && p["seasonFolder"] == Bool(true)
      && p["addOptions"] == Obj(map["searchForMissingEpisodes" := Bool(true)])
  {
    hide Copied;
  }

  lemma CopiedSays(tmdb: int, tvdb: int, root: string, key: string)
    ensures key in Movie(tmdb, root).copied <==> key in {"title", "year", "titleSlug", "images"}
    ensures key in Series(tvdb, root).copied <==> key in {"title", "year", "titleSlug", "images", "seasons"}
  {
  }

  /** The copied members are the lookup's, where it has them. */
  lemma CopiedIn(t: Title, m: Json, profile: int, key: string)
    requires key in t.copied && key !in t.extra && key !in {t.idKey, "qualityProfileId", "rootFolderPath"}
    ensures var p := Payload(t, m, profile);
      if Member(m, key) != Null then key in p && p[key] == Member(m, key) else key !in p
  {
    hide Member;
  }

  /**
   * MAIN: an exchange that came to an id found a title with that id and searched for it, or found one without an id
   * and added it; nothing is added but a title that was looked up and that *arr does not have.
   */
  lemma ExchangeSays(t: Title, calls: seq<Call>, id: Option<int>)
    requires Exchange(t, calls, id)
    ensures t.id <= 0 ==> calls == [] && id == None
    ensures forall i :: 0 <= i < |calls| && calls[i].Lookup? ==>
              i == 0 && calls[0].key == t.idKey && calls[0].id == t.id
    ensures id.Some? ==>
              && |calls| >= 2 && calls[0].Lookup? && calls[0].results.Some? && calls[0].results.value != []
              && var known := NumOf(calls[0].results.value[0], "id");
              if known != 0 then id.value == known && calls[1] == Search(known, true)
              else |calls| == 3 && calls[2].Add? && calls[2].added.Some?
                   && id.value == NumOf(calls[2].added.value, "id") != 0
    ensures forall i :: 0 <= i < |calls| && calls[i].Add? ==>
              && i == 2 && calls[0].results.Some? && calls[0].results.value != []
              && NumOf(calls[0].results.value[0], "id") == 0 && calls[1].Profiles? && calls[1].profiles.Some?
              && exists profile ::
                   ProfileId(calls[1].profiles.value) == Some(profile)
                   && calls[2].payload == Payload(t, calls[0].results.value[0], profile)
  {
    hide ProfileId, NumOf, Payload;
    if calls != [] {
      var rest := calls[1..];
      assert forall i :: 1 <= i < |calls| ==> calls[i] == rest[i - 1];
    }
  }

  /** `addMovie` and `addSeries`: an id they return is never zero. */
  method AddToArr(c: ArrClient, t: Title) returns (id: Option<int>, ghost made: seq<Call>)
    requires t.idKey !in {"qualityProfileId", "rootFolderPath"}
    modifies c
    ensures c.calls == old(c.calls) + made && Exchange(t, made, id)
    ensures id.Some? ==> id.value != 0
  {
    if t.id <= 0 { return None, []; }
    var results := c.LookupTitle(t.idKey, t.id);
    made := [Lookup(t.idKey, t.id, results)];
    if results.None? || results.value == [] { return None, made; }
    ghost var rest;
    id, rest := AddFound(c, t, results.value[0]);
    made := made + rest;
    assert made[1..] == rest;
  }

  /** The part of addMovie and addSeries after the lookup. */
  method AddFound(c: ArrClient, t: Title, m: Json) returns (id: Option<int>, ghost made: seq<Call>)
    requires t.idKey !in {"qualityProfileId", "rootFolderPath"}
    modifies c
    ensures c.calls == old(c.calls) + made && Exchanged(t, m, made, id)
    ensures id.Some? ==> id.value != 0
  {
    hide Copied, Payload, ProfileId, NumOf;
    var known := NumOf(m, "id");
    if known != 0 {
      var done := c.TriggerSearch(known);
      return (if done then Some(known) else None), [Search(known, done)];
    }
    var profile;
    ghost var answer;
    profile, answer := FirstProfileID(c);
    made := [Profiles(answer)];
    if profile.None? { return None, made; }
    var payload := CopyKeys(m, t.copied);
    payload := payload[t.idKey := Num(t.id as real)];
    payload := payload["qualityProfileId" := Num(profile.value as real)];
    payload := payload["rootFolderPath" := Str(t.root)];
    payload := payload + t.extra;
    PayloadMade(t, m, profile.value);
    var added := c.AddTitle(payload);
    made := made + [Add(payload, added)];
    if added.None? { return None, made; }
    var n := NumOf(added.value, "id");
    if n == 0 { return None, made; }
    id := Some(n);
  }

  // ---- the table -------------------------------------------------------------------------

  datatype Status = Pending | Approved | Declined | Available

  datatype Request = Request(mediaType: string, tmdb: int, tvdb: int, status: Status, arrId: int, decidedBy: string,
      note: string)

  datatype Table = Table(rows: map<nat, Request>, nextId: nat) {
    function Ids(status: Status): set<nat> { set id | id in rows && rows[id].status == status }
  }

  function Created(t: Table, r: Request): Table { Table(t.rows[t.nextId := r], t.nextId + 1) }

  /** The UPDATE of UpdateRequestStatus on one row; an arrId of 0 leaves the old one. */
  function Decided(r: Request, status: Status, who: string, note: string, arrId: int): Request {
    r.(status := status, decidedBy := who, note := note, arrId := if arrId != 0 then arrId else r.arrId)
  }

  function Updated(t: Table, id: nat, status: Status, who: string, note: string, arrId: int): Table {
    if id in t.rows then t.(rows := t.rows[id := Decided(t.rows[id], status, who, note, arrId)]) else t
  }

  function MediaType(arrType: string): string { if arrType == "sonarr" then "series" else "movie" }

  predicate AwaitsFile(r: Request, mediaType: string, arrId: int) {
    r.mediaType == mediaType && r.arrId == arrId && r.status == Approved
  }

  function Marked(t: Table, arrType: string, arrId: int): Table {
    t.(rows := map id | id in t.rows ::
         if AwaitsFile(t.rows[id], MediaType(arrType), arrId) then t.rows[id].(status := Available) else t.rows[id])
  }

  predicate OpenFor(r: Request, mediaType: string, tmdb: int, tvdb: int) {
    r.mediaType == mediaType && (r.status == Pending || r.status == Approved)
    && ((r.tmdb != 0 && r.tmdb == tmdb) || (r.tvdb != 0 && r.tvdb == tvdb))
  }

  function Open(t: Table, mediaType: string, tmdb: int, tvdb: int): set<nat> {
    set id | id in t.rows && OpenFor(t.rows[id], mediaType, tmdb, tvdb)
  }

  /** What the UPDATE of MarkRequestsAvailable does to the rows. */
  lemma MarkedRows(t: Table, arrType: string, arrId: int, hit: set<nat>)
    requires hit == set id | id in t.rows && AwaitsFile(t.rows[id], MediaType(arrType), arrId)
    ensures var t' := Marked(t, arrType, arrId);
      && t'.rows.Keys == t.rows.Keys
      && (forall id :: id in t.rows && id !in hit ==> t'.rows[id] == t.rows[id])
      && (forall id :: id in hit ==> t'.rows[id].status == Available && t'.rows[id].arrId == arrId)
      && (forall id :: id in t'.rows ==> !AwaitsFile(t'.rows[id], MediaType(arrType), arrId))
  {
    hide MediaType;
  }

  lemma MarkedIds(t: Table, arrType: string, arrId: int, hit: set<nat>)
    requires hit == set id | id in t.rows && AwaitsFile(t.rows[id], MediaType(arrType), arrId)
    ensures var t' := Marked(t, arrType, arrId);
      t'.Ids(Available) == t.Ids(Available) + hit && |t'.Ids(Available)| == |t.Ids(Available)| + |hit|
  {
    var t' := Marked(t, arrType, arrId);
    forall id
      ensures id in t'.Ids(Available) <==> id in t.Ids(Available) || id in hit
      ensures id in hit ==> id !in t.Ids(Available)
    {
      MarkedRow(t, arrType, arrId, id);
    }
    hide Marked, AwaitsFile, MediaType;
    assert t'.Ids(Available) == t.Ids(Available) + hit;
  }

  lemma MarkedRow(t: Table, arrType: string, arrId: int, id: nat)
    ensures var t' := Marked(t, arrType, arrId);
      var awaits := id in t.rows && AwaitsFile(t.rows[id], MediaType(arrType), arrId);
      && (id in t'.Ids(Available) <==> id in t.Ids(Available) || awaits)
      && (awaits ==> id !in t.Ids(Available))
  {
    hide MediaType;
  }

  class Store {
    var rows: map<nat, Request>
    var nextId: nat

    function View(): Table
      reads this
    {
      Table(rows, nextId)
    }

    constructor ()
      ensures View() == Table(map[], 1)
    {
      rows, nextId := map[], 1;
    }

    method CreateRequest(r: Request) returns (id: nat)
      modifies this
      ensures View() == Created(old(View()), r) && id == old(nextId)
    {
      id := nextId;
      rows, nextId := rows[id := r], nextId + 1;
    }

    method UpdateRequestStatus(id: nat, status: Status, who: string, note: string, arrId: int) returns (found: bool)
      modifies this
      ensures View() == Updated(old(View()), id, status, who, note, arrId) && (found <==> id in old(rows))
      ensures found ==>
                var was, row := old(rows)[id], rows[id];
                && row.status == status && row.decidedBy == who && row.note == note
                && row.arrId == (if arrId == 0 then was.arrId else arrId)
                && row.mediaType == was.mediaType && row.tmdb == was.tmdb && row.tvdb == was.tvdb
      ensures rows.Keys == old(rows).Keys && forall k :: k in rows && k != id ==> rows[k] == old(rows)[k]
    {
      if id !in rows { return false; }
      var row := rows[id].(status := status, decidedBy := who, note := note);
      if arrId != 0 { row := row.(arrId := arrId); }
      rows := rows[id := row];
      found := true;
    }

    method MarkRequestsAvailable(arrType: string, arrId: int) returns (n: nat)
      modifies this
      ensures View() == Marked(old(View()), arrType, arrId)
      ensures rows.Keys == old(rows).Keys
      ensures var media := if arrType == "sonarr" then "series" else "movie";
              forall id :: id in rows ==>
                var was, row := old(rows)[id], rows[id];
                if was.mediaType == media && was.arrId == arrId && was.status == Approved
                then row == was.(status := Available) else row == was
      ensures n == |View().Ids(Available)| - |old(View()).Ids(Available)|
    {
      var mediaType := if arrType == "sonarr" then "series" else "movie";
      var hit := set id | id in rows && AwaitsFile(rows[id], mediaType, arrId);
      n := |hit|;
      rows := map id | id in rows :: if id in hit then rows[id].(status := Available) else rows[id];
      MarkedRows(old(View()), arrType, arrId, hit);
      MarkedIds(old(View()), arrType, arrId, hit);
      assert rows == Marked(old(View()), arrType, arrId).rows;
      hide Marked, AwaitsFile, Table.Ids;
    }
  }

  // ---- the handlers, one at a time -------------------------------------------------------

  datatype Outcome = Done(id: nat) | NotFound | Conflict | Failure

  function TitleOf(mediaType: string, tmdb: int, tvdb: int, movies: string, tv: string): Title {
    if mediaType == "movie" then Movie(tmdb, movies) else Series(tvdb, tv)
  }

  function TitleOfRequest(r: Request, movies: string, tv: string): Title {
    TitleOf(r.mediaType, r.tmdb, r.tvdb, movies, tv)
  }

  /** A new request: approved by the server itself when *arr gave an id, pending otherwise. */
  function NewRequest(mediaType: string, tmdb: int, tvdb: int, arrId: Option<int>): Request {
    match arrId
    case None => Request(mediaType, tmdb, tvdb, Pending, 0, "", "")
    case Some(id) => Request(mediaType, tmdb, tvdb, Approved, id, "auto", "")
  }

  lemma OpenSays(t: Table, mediaType: string, tmdb: int, tvdb: int)
    ensures Open(t, mediaType, tmdb, tvdb) != {} <==> exists id ::
              && id in t.rows && t.rows[id].mediaType == mediaType && t.rows[id].status in {Pending, Approved}
              && ((tmdb != 0 && t.rows[id].tmdb == tmdb) || (tvdb != 0 && t.rows[id].tvdb == tvdb))
  {
    if Open(t, mediaType, tmdb, tvdb) != {} {
      var id :| id in Open(t, mediaType, tmdb, tvdb);
    }
    if id :| id in t.rows && OpenFor(t.rows[id], mediaType, tmdb, tvdb) {
      assert id in Open(t, mediaType, tmdb, tvdb);
    }
  }

  /** `handleCreateRequest` for a body that passed validation. */
  method HandleCreate(store: Store, c: ArrClient, mediaType: string, tmdb: int, tvdb: int, autoApprove: bool,
      movies: string, tv: string)
    returns (r: Outcome, ghost made: seq<Call>)
    modifies store, c
    ensures c.calls == old(c.calls) + made
    ensures r == Conflict || r == Done(old(store.nextId))
    ensures r == Conflict <==> Open(old(store.View()), mediaType, tmdb, tvdb) != {}
    ensures r == Conflict <==> exists id ::
              && id in old(store.rows) && old(store.rows)[id].mediaType == mediaType
              && old(store.rows)[id].status in {Pending, Approved}
              && ((tmdb != 0 && old(store.rows)[id].tmdb == tmdb) || (tvdb != 0 && old(store.rows)[id].tvdb == tvdb))
    ensures r == Conflict ==> made == [] && store.View() == old(store.View())
    ensures r.Done? ==>
              && r.id in store.rows
              && var row := store.rows[r.id];
              && row.mediaType == mediaType && row.tmdb == tmdb && row.tvdb == tvdb && row.note == ""
              && if row.status == Pending then row.arrId == 0 && row.decidedBy == ""
                 else row.status == Approved && row.arrId != 0 && row.decidedBy == "auto" && autoApprove
    ensures r.Done? ==> exists arrId ::
              && store.View() == Created(old(store.View()), NewRequest(mediaType, tmdb, tvdb, arrId))
              && (arrId.Some? ==> arrId.value != 0)
              && if autoApprove then Exchange(TitleOf(mediaType, tmdb, tvdb, movies, tv), made, arrId)
                 else made == [] && arrId.None?
  {
    made := [];
    OpenSays(store.View(), mediaType, tmdb, tvdb);
    hide Open, OpenFor;
    if Open(store.View(), mediaType, tmdb, tvdb) != {} { return Conflict, made; }
    var req := Request(mediaType, tmdb, tvdb, Pending, 0, "", "");
    ghost var found := None;
    if autoApprove {
      var arrId;
      arrId, made := AddToArr(c, TitleOf(mediaType, tmdb, tvdb, movies, tv));
      found := arrId;
      if arrId.Some? { req := req.(status := Approved, arrId := arrId.value, decidedBy := "auto"); }
    }
    var id := store.CreateRequest(req);
    assert req == NewRequest(mediaType, tmdb, tvdb, found);
    r := Done(id);
  }

  /** `handleApproveRequest`. */
  method HandleApprove(store: Store, c: ArrClient, id: nat, who: string, movies: string, tv: string)
    returns (r: Outcome, ghost made: seq<Call>)
    modifies store, c
    ensures c.calls == old(c.calls) + made && (r.NotFound? || r.Conflict? ==> made == [])
    ensures r == NotFound <==> id !in old(store.rows)
    ensures r == Conflict <==> id in old(store.rows) && old(store.rows)[id].status in {Approved, Available}
    ensures r.Done? ==> exists arrId ::
              && arrId != 0 && id in old(store.rows)
              && store.View() == Updated(old(store.View()), id, Approved, who, "", arrId)
              && Exchange(TitleOfRequest(old(store.rows)[id], movies, tv), made, Some(arrId))
    ensures r.Done? ==>
              && id in store.rows
              && var was, row := old(store.rows)[id], store.rows[id];
              && was.status in {Pending, Declined} && row.status == Approved && row.arrId != 0
              && row.decidedBy == who && row.note == ""
              && row.mediaType == was.mediaType && row.tmdb == was.tmdb && row.tvdb == was.tvdb
              && made != [] && made[0].Lookup?
              && (was.mediaType == "movie" ==> made[0].key == "tmdbId" && made[0].id == was.tmdb)
              && (was.mediaType != "movie" ==> made[0].key == "tvdbId" && made[0].id == was.tvdb)
    ensures r == Failure ==>
              id in old(store.rows) && Exchange(TitleOfRequest(old(store.rows)[id], movies, tv), made, None)
    ensures !r.Done? ==> store.View() == old(store.View())
  {
    made := [];
    if id !in store.rows { return NotFound, made; }
    var req := store.rows[id];
    if req.status != Pending && req.status != Declined { return Conflict, made; }
    var arrId;
    arrId, made := AddToArr(c, TitleOfRequest(req, movies, tv));
    if arrId.None? { return Failure, made; }
    var found := store.UpdateRequestStatus(id, Approved, who, "", arrId.value);
    r := Done(id);
  }

  /** `handleDeclineRequest`; the *arr id stays. */
  method HandleDecline(store: Store, id: nat, who: string, note: string) returns (r: Outcome)
    modifies store
    ensures r == NotFound <==> id !in old(store.rows)
    ensures r == Conflict <==> id in old(store.rows) && old(store.rows)[id].status != Pending
    ensures r.Done? ==>
              && store.View() == Updated(old(store.View()), id, Declined, who, note, 0)
              && store.rows[id].arrId == old(store.rows)[id].arrId && store.rows[id].status == Declined
              && store.rows[id].decidedBy == who && store.rows[id].note == note
    ensures !r.Done? ==> store.View() == old(store.View())
  {
    if id !in store.rows { return NotFound; }
    if store.rows[id].status != Pending { return Conflict; }
    var found := store.UpdateRequestStatus(id, Declined, who, note, 0);
    r := Done(id);
  }

  // ---- the handlers, interleaved ---------------------------------------------------------

  /** A handler between its read and its write. */
  datatype Handler =
    | Creating(request: Request)                        // no open request was found; *arr may be asked
    | Approving(id: nat, loaded: Status, arrId: int)    // 0 until *arr has answered
    | Declining(id: nat, loaded: Status, who: string, note: string)

  datatype State = State(table: Table, handlers: map<nat, Handler>)

  datatype Event =
    | BeginCreate(h: nat, mediaType: string, tmdb: int, tvdb: int)
    | AutoApproved(h: nat, arrId: int)         // addToArr returned an id
    | Insert(h: nat)
    | BeginApprove(h: nat, id: nat)
    | Added(h: nat, arrId: int)                // addToArr returned an id
    | CommitApprove(h: nat, who: string)
    | BeginDecline(h: nat, id: nat, who: string, note: string)
    | CommitDecline(h: nat)
    | Drop(h: nat)                             // an error, at any point
    | MarkAvailable(arrType: string, arrId: int)

  predicate Enabled(s: State, e: Event) {
    match e
    case BeginCreate(h, mediaType, tmdb, tvdb) =>
      h !in s.handlers && mediaType in {"movie", "series"} && Open(s.table, mediaType, tmdb, tvdb) == {}
    case AutoApproved(h, arrId) =>
      h in s.handlers && s.handlers[h].Creating? && s.handlers[h].request.status == Pending && arrId != 0
    case Insert(h) => h in s.handlers && s.handlers[h].Creating?
    case BeginApprove(h, id) =>
      && h !in s.handlers && id in s.table.rows
      && (s.table.rows[id].status == Pending || s.table.rows[id].status == Declined)
    case Added(h, arrId) => h in s.handlers && s.handlers[h].Approving? && s.handlers[h].arrId == 0 && arrId != 0
    case CommitApprove(h, _) => h in s.handlers && s.handlers[h].Approving? && s.handlers[h].arrId != 0
    case BeginDecline(h, id, _, _) => h !in s.handlers && id in s.table.rows && s.table.rows[id].status == Pending
    case CommitDecline(h) => h in s.handlers && s.handlers[h].Declining?
    case Drop(h) => h in s.handlers
    case MarkAvailable(_, _) => true
  }

  function Apply(s: State, e: Event): State
    requires Enabled(s, e)
  {
    match e
    case BeginCreate(h, mediaType, tmdb, tvdb) =>
      s.(handlers := s.handlers[h := Creating(Request(mediaType, tmdb, tvdb, Pending, 0, "", ""))])
    case AutoApproved(h, arrId) =>
      var request := s.handlers[h].request.(status := Approved, arrId := arrId, decidedBy := "auto");
      s.(handlers := s.handlers[h := Creating(request)])
    case Insert(h) => State(Created(s.table, s.handlers[h].request), s.handlers - {h})
    case BeginApprove(h, id) => s.(handlers := s.handlers[h := Approving(id, s.table.rows[id].status, 0)])
    case Added(h, arrId) => s.(handlers := s.handlers[h := s.handlers[h].(arrId := arrId)])
    case CommitApprove(h, who) =>
      State(Updated(s.table, s.handlers[h].id, Approved, who, "", s.handlers[h].arrId), s.handlers - {h})
    case BeginDecline(h, id, who, note) =>
      s.(handlers := s.handlers[h := Declining(id, s.table.rows[id].status, who, note)])
    case CommitDecline(h) =>
      var d := s.handlers[h];
      State(Updated(s.table, d.id, Declined, d.who, d.note, 0), s.handlers - {h})
    case Drop(h) => s.(handlers := s.handlers - {h})
    case MarkAvailable(arrType, arrId) => s.(table := Marked(s.table, arrType, arrId))
  }

  const START := State(Table(map[], 1), map[])

  ghost predicate IsRun(states: seq<State>, events: seq<Event>) {
    && |states| == |events| + 1 && states[0] == START
    && forall i :: 0 <= i < |events| ==> Enabled(states[i], events[i]) && states[i + 1] == Apply(states[i], events[i])
  }

  predicate RequestOk(r: Request) { r.status == Approved || r.status == Available ==> r.arrId != 0 }

  predicate HandlerOk(t: Table, d: Handler) {
    match d
    case Creating(r) => RequestOk(r) && (r.status == Pending || r.status == Approved)
    case Approving(id, loaded, _) => id in t.rows && (loaded == Pending || loaded == Declined)
    case Declining(id, loaded, _, _) => id in t.rows && loaded == Pending
  }

  predicate Inv(s: State) {
    && (forall id :: id in s.table.rows ==> id < s.table.nextId && RequestOk(s.table.rows[id]))
    && (forall h :: h in s.handlers ==> HandlerOk(s.table, s.handlers[h]))
  }

  lemma StepInv(s: State, e: Event)
    requires Inv(s) && Enabled(s, e)
    ensures Inv(Apply(s, e))
  {
    hide Open;
  }

  lemma StartInv()
    ensures Inv(START)
  {
  }

  lemma {:induction false} RunInv(states: seq<State>, events: seq<Event>, i: nat)
    requires IsRun(states, events) && i <= |events|
    ensures Inv(states[i])
  {
    hide Enabled, Apply, Inv;
    if i == 0 {
      StartInv();
    } else {
      RunInv(states, events, i - 1);
      StepInv(states[i - 1], events[i - 1]);
    }
  }

  /** MAIN: under every interleaving an approved or available request has a non-zero *arr id. */
  lemma ApprovedHasId(states: seq<State>, events: seq<Event>, i: nat, id: nat)
    requires IsRun(states, events) && i <= |events| && id in states[i].table.rows
    requires states[i].table.rows[id].status == Approved || states[i].table.rows[id].status == Available
    ensures states[i].table.rows[id].arrId != 0
  {
    hide IsRun;
    RunInv(states, events, i);
  }

  /** MAIN: a request stays, asks for the same title, and an *arr id once known never returns to 0. */
  lemma {:induction false} IdStays(states: seq<State>, events: seq<Event>, i: nat, j: nat, id: nat)
    requires IsRun(states, events) && i <= j <= |events| && id in states[i].table.rows
    ensures id in states[j].table.rows
    ensures var a, b := states[i].table.rows[id], states[j].table.rows[id];
      (a.mediaType, a.tmdb, a.tvdb) == (b.mediaType, b.tmdb, b.tvdb) && (a.arrId != 0 ==> b.arrId != 0)
  {
    hide Enabled, Apply, Inv;
    if i < j {
      IdStays(states, events, i, j - 1, id);
      RunInv(states, events, j - 1);
      StepRow(states[j - 1], events[j - 1], id);
    }
  }

  /** A commit that finds the row's status changed since the handler loaded it. */
  predicate Stale(s: State, e: Event) {
    match e
    case CommitApprove(h, _) => h in s.handlers && s.handlers[h].Approving? && s.handlers[h].id in s.table.rows
      && s.table.rows[s.handlers[h].id].status != s.handlers[h].loaded
    case CommitDecline(h) => h in s.handlers && s.handlers[h].Declining? && s.handlers[h].id in s.table.rows
      && s.table.rows[s.handlers[h].id].status != s.handlers[h].loaded
    case _ => false
  }

  /** The intended life cycle. */
  predicate Follows(a: Status, b: Status) {
    a == b || (a == Pending && b != Available) || (a == Declined && b == Approved) || (a == Approved && b == Available)
  }

  predicate FollowsAt(states: seq<State>, k: int, id: nat) {
    && 0 <= k < |states| - 1 && id in states[k].table.rows && id in states[k + 1].table.rows
    && Follows(states[k].table.rows[id].status, states[k + 1].table.rows[id].status)
  }

  predicate CommitsTo(s: State, e: Event, id: nat) {
    (e.CommitApprove? || e.CommitDecline?) && e.h in s.handlers && !s.handlers[e.h].Creating?
        && s.handlers[e.h].id == id
  }

  /** One step of one row: it leaves the life cycle only by a stale commit. */
  lemma StepRow(s: State, e: Event, id: nat)
    requires Inv(s) && Enabled(s, e) && id in s.table.rows
    ensures id in Apply(s, e).table.rows
    ensures var a, b := s.table.rows[id], Apply(s, e).table.rows[id];
      && (a.mediaType, a.tmdb, a.tvdb) == (b.mediaType, b.tmdb, b.tvdb) && (a.arrId != 0 ==> b.arrId != 0)
      && (!Stale(s, e) ==> Follows(a.status, b.status))
      && (a.status == Available ==> (b.status != Available <==> CommitsTo(s, e, id)))
      && (a.status == Available && CommitsTo(s, e, id) ==> Stale(s, e))
  {
    hide Open;
  }

  /**
   * MAIN: without stale commits (handlers that run one at a time have none) available is final and every
   * change follows the life cycle.
   */
  lemma {:induction false} AvailableIsFinal(states: seq<State>, events: seq<Event>, i: nat, j: nat, id: nat)
    requires IsRun(states, events) && i <= j <= |events| && id in states[i].table.rows
    requires forall k :: i <= k < j ==> !Stale(states[k], events[k])
    ensures id in states[j].table.rows
    ensures states[i].table.rows[id].status == Available ==> states[j].table.rows[id].status == Available
    ensures forall k :: i <= k < j ==> FollowsAt(states, k, id)
  {
    hide Enabled, Apply, Inv, Stale;
    if i < j {
      AvailableIsFinal(states, events, i, j - 1, id);
      RunInv(states, events, j - 1);
      StepRow(states[j - 1], events[j - 1], id);
    }
  }

  /** MAIN: exactly the stale commits take an available request back. */
  lemma AvailableLost(states: seq<State>, events: seq<Event>, i: nat, id: nat)
    requires IsRun(states, events) && i < |events| && id in states[i].table.rows
        && states[i].table.rows[id].status == Available
    ensures id in states[i + 1].table.rows
    ensures states[i + 1].table.rows[id].status != Available <==>
        CommitsTo(states[i], events[i], id) && Stale(states[i], events[i])
  {
    RunInv(states, events, i);
    hide Inv, Apply, Stale;
    StepRow(states[i], events[i], id);
  }

  predicate Awaits(t: Table, id: nat, mediaType: string, arrId: int) {
    id in t.rows && AwaitsFile(t.rows[id], mediaType, arrId)
  }

  /** A commit or an insert that approves request id for the item. */
  predicate Brings(s: State, e: Event, id: nat, mediaType: string, arrId: int) {
    match e
    case CommitApprove(h, _) =>
      && h in s.handlers && s.handlers[h].Approving? && s.handlers[h].id == id && s.handlers[h].arrId == arrId
      && id in s.table.rows && s.table.rows[id].mediaType == mediaType
    case Insert(h) =>
      && h in s.handlers && s.handlers[h].Creating? && id == s.table.nextId
      && AwaitsFile(s.handlers[h].request, mediaType, arrId)
    case _ => false
  }

  /** A mark of the item, or a commit of request id to something else. */
  predicate TakesAway(s: State, e: Event, id: nat, mediaType: string, arrId: int) {
    || (e.MarkAvailable? && MediaType(e.arrType) == mediaType && e.arrId == arrId)
    || (CommitsTo(s, e, id) && !Brings(s, e, id, mediaType, arrId))
  }

  /** One step decides whether a request awaits the item's file. */
  lemma StepAwaits(s: State, e: Event, id: nat, mediaType: string, arrId: int)
    requires Inv(s) && Enabled(s, e)
    ensures Awaits(Apply(s, e).table, id, mediaType, arrId) <==>
            Brings(s, e, id, mediaType, arrId)
            || (Awaits(s.table, id, mediaType, arrId) && !TakesAway(s, e, id, mediaType, arrId))
  {
    hide Open;
  }

  /** Two managers approve the same pending request; *arr gives both the same id. */
  lemma TwoApprovals(pending: Request) returns (states: seq<State>, events: seq<Event>)
    requires pending == Request("movie", 603, 0, Pending, 0, "", "")
    ensures IsRun(states, events) && |states| == 7 && |events| == 6
    ensures states[6] == State(Table(map[1 := pending], 2),
        map[1 := Approving(1, Pending, 7), 2 := Approving(1, Pending, 7)])
  {
    states, events := [START], [];
    assert IsRun(states, events);
    hide IsRun;
    var t := Table(map[1 := pending], 2);
    assert Open(START.table, "movie", 603, 0) == {};
    states, events := Extend(states, events, BeginCreate(0, "movie", 603, 0),
        State(Table(map[], 1), map[0 := Creating(pending)]));
    states, events := Extend(states, events, Insert(0), State(t, map[]));
    states, events := Extend(states, events, BeginApprove(1, 1), State(t, map[1 := Approving(1, Pending, 0)]));
    states, events := Extend(states, events, BeginApprove(2, 1),
        State(t, map[1 := Approving(1, Pending, 0), 2 := Approving(1, Pending, 0)]));
    states, events := Extend(states, events, Added(1, 7),
        State(t, map[1 := Approving(1, Pending, 7), 2 := Approving(1, Pending, 0)]));
    states, events := Extend(states, events, Added(2, 7),
        State(t, map[1 := Approving(1, Pending, 7), 2 := Approving(1, Pending, 7)]));
  }

  lemma CommitsApproval(r: Request, hs: map<nat, Handler>, h: nat, who: string)
    requires h in hs && hs[h] == Approving(1, Pending, 7)
    ensures var s := State(Table(map[1 := r], 2), hs);
      && Enabled(s, CommitApprove(h, who))
      && Apply(s, CommitApprove(h, who)) == State(Table(map[1 := Decided(r, Approved, who, "", 7)], 2), hs - {h})
  {
  }

  lemma BecomesAvailable(r: Request, hs: map<nat, Handler>)
    requires AwaitsFile(r, "movie", 7)
    ensures var s := State(Table(map[1 := r], 2), hs);
      && Enabled(s, MarkAvailable("radarr", 7))
      && Apply(s, MarkAvailable("radarr", 7)) == State(Table(map[1 := r.(status := Available)], 2), hs)
  {
  }

  /** The second of two racing approvals takes an available request back to approved. */
  lemma RacingApprovals() returns (states: seq<State>, events: seq<Event>)
    ensures IsRun(states, events) && |events| == 9
    ensures states[8].table.rows.Keys == {1} && states[8].table.rows[1].status == Available
    ensures states[9].table.rows.Keys == {1} && states[9].table.rows[1].status == Approved
  {
    hide IsRun, Enabled, Apply;
    var pending := Request("movie", 603, 0, Pending, 0, "", "");
    var taken := Decided(pending, Approved, "a", "", 7);
    states, events := TwoApprovals(pending);
    var both, rest := states[6].handlers, map[2 := Approving(1, Pending, 7)];
    CommitsApproval(pending, both, 1, "a");
    states, events := Extend(states, events, CommitApprove(1, "a"), State(Table(map[1 := taken], 2), rest));
    BecomesAvailable(taken, rest);
    var marked := taken.(status := Available);
    states, events := Extend(states, events, MarkAvailable("radarr", 7), State(Table(map[1 := marked], 2), rest));
    CommitsApproval(marked, rest, 2, "b");
    var last := State(Table(map[1 := Decided(marked, Approved, "b", "", 7)], 2), rest - {2});
    states, events := Extend(states, events, CommitApprove(2, "b"), last);
  }

  lemma Extend(states: seq<State>, events: seq<Event>, e: Event, next: State)
      returns (states': seq<State>, events': seq<Event>)
    requires IsRun(states, events) && Enabled(states[|events|], e) && next == Apply(states[|events|], e)
    ensures IsRun(states', events') && states' == states + [next] && events' == events + [e]
        && |states'| == |events'| + 1
  {
    hide Enabled, Apply;
    states', events' := states + [next], events + [e];
  }
}
