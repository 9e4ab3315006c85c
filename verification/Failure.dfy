/**
 * The reaction to a job that failed validation (internal/pipeline/failure.go): mark the grabbed
 * release failed, delete the bad file, search again. The *arr application is an arbitrary responder:
 * any call may succeed with any reply, fail, or panic.
 */
module Failure {
  import opened Prelude
  import opened Json

  datatype Reply<+T> = Ok(value: T) | Err | Panic

  datatype Call =
    | GetHistory(query: Query, records: Reply<seq<Json>>)
    | MarkHistoryFailed(historyId: int, done: Reply<()>)
    | GetMovie(movieId: int, movie: Reply<Json>)
    | GetEpisodeFiles(seriesId: int, files: Reply<seq<Json>>)
    | DeleteMovieFile(fileId: int, done: Reply<()>)
    | DeleteEpisodeFile(fileId: int, done: Reply<()>)
    | SearchMovie(searchId: int, done: Reply<()>)
    | SearchEpisode(searchId: int, done: Reply<()>)
  {
    predicate IsDelete() { DeleteMovieFile? || DeleteEpisodeFile? }

    predicate Panics() {
      match this
      case GetHistory(_, r) => r.Panic?
      case GetMovie(_, r) => r.Panic?
      case GetEpisodeFiles(_, r) => r.Panic?
      case _ => done.Panic?
    }

    predicate Fails() {
      match this
      case GetHistory(_, r) => r.Err?
      case GetMovie(_, r) => r.Err?
      case GetEpisodeFiles(_, r) => r.Err?
      case _ => done.Err?
    }
  }

  /** How the function of a sub-step ends: it returns nil, it returns an error, or it panics. */
  datatype Outcome = Returned | Errored | Panicked

  datatype Query =
    | MovieHistory(movieId: int)
    | EpisodeHistory(seriesId: int, episodeId: int)
    | SeriesHistory(seriesId: int)

  /** The fields of a job the reaction reads. */
  datatype Target = Target(arrType: string, arrId: int, episodeId: int, path: string, downloadId: string)

  /** Library functions left abstract: simple case folding, and `time.Parse` (any value for bad input). */
  datatype Lib = Lib(fold: string -> string, date: string -> int)

  /** An *arr client; `calls` records what was asked and what came back. */
  class ArrClient {
    var calls: seq<Call>

    constructor ()
      ensures calls == []
    {
      calls := [];
    }

    method History(query: Query) returns (r: Reply<seq<Json>>)
      modifies this
      ensures calls == old(calls) + [GetHistory(query, r)]
    {
      r := *;
      calls := calls + [GetHistory(query, r)];
    }

    method MarkFailed(id: int) returns (r: Reply<()>)
      modifies this
      ensures calls == old(calls) + [MarkHistoryFailed(id, r)]
    {
      r := *;
      calls := calls + [MarkHistoryFailed(id, r)];
    }

    method Movie(id: int) returns (r: Reply<Json>)
      modifies this
      ensures calls == old(calls) + [GetMovie(id, r)]
    {
      r := *;
      calls := calls + [GetMovie(id, r)];
    }

    method EpisodeFiles(id: int) returns (r: Reply<seq<Json>>)
      modifies this
      ensures calls == old(calls) + [GetEpisodeFiles(id, r)]
    {
      r := *;
      calls := calls + [GetEpisodeFiles(id, r)];
    }

    method DeleteMovie(id: int) returns (r: Reply<()>)
      modifies this
      ensures calls == old(calls) + [DeleteMovieFile(id, r)]
    {
      r := *;
      calls := calls + [DeleteMovieFile(id, r)];
    }

    method DeleteEpisode(id: int) returns (r: Reply<()>)
      modifies this
      ensures calls == old(calls) + [DeleteEpisodeFile(id, r)]
    {
      r := *;
      calls := calls + [DeleteEpisodeFile(id, r)];
    }

    method Search(c: Call)
      requires c.SearchMovie? || c.SearchEpisode?
      modifies this
      ensures calls == old(calls) + [c]
    {
      calls := calls + [c];
    }
  }

  // ---- choosing the grab -----------------------------------------------------------------

  predicate SameDownload(lib: Lib, r: Json, downloadId: string) {
    lib.fold(StrOf(r, "downloadId")) == lib.fold(downloadId)
  }

  function GrabTime(lib: Lib, r: Json): int { lib.date(StrOf(r, "date")) }

  function GrabId(r: Json): int {
    match ToInt(Member(r, "id"))
    case Some(id) => id
    case None => 0
  }

  /** Record a was grabbed after record b; a larger id breaks ties. */
  predicate Newer(lib: Lib, a: Json, b: Json) {
    GrabTime(lib, a) > GrabTime(lib, b) || (GrabTime(lib, a) == GrabTime(lib, b) && GrabId(a) > GrabId(b))
  }

  /** What `pickGrab` promises of its choice: the first record of the download, else the newest record. */
  ghost predicate IsGrab(lib: Lib, records: seq<Json>, downloadId: string, i: nat) {
    && i < |records|
    && if downloadId != "" && exists j :: 0 <= j < |records| && SameDownload(lib, records[j], downloadId)
       then && SameDownload(lib, records[i], downloadId)
            && forall j :: 0 <= j < i ==> !SameDownload(lib, records[j], downloadId)
       else && (forall j :: 0 <= j < |records| ==> !Newer(lib, records[j], records[i]))
            && (forall j :: 0 <= j < i ==> Newer(lib, records[i], records[j]))
  }

  /** The same, said of the members of the records. */
  lemma GrabSays(lib: Lib, records: seq<Json>, downloadId: string, i: nat)
    requires IsGrab(lib, records, downloadId, i)
    ensures var named :=
        set j | 0 <= j < |records| && lib.fold(StrOf(records[j], "downloadId")) == lib.fold(downloadId);
      if downloadId != "" && named != {} then i in named && forall j :: j in named ==> i <= j
      else forall j :: 0 <= j < |records| ==>
             var at, best := lib.date(StrOf(records[j], "date")), lib.date(StrOf(records[i], "date"));
             at < best || (at == best && GrabId(records[j]) <= GrabId(records[i]))
    ensures GrabId(records[i]) == match ToInt(Member(records[i], "id")) case Some(id) => id case None => 0
  {
    var named := set j | 0 <= j < |records| && lib.fold(StrOf(records[j], "downloadId")) == lib.fold(downloadId);
    assert forall j :: j in named <==> 0 <= j < |records| && SameDownload(lib, records[j], downloadId);
  }

  lemma GrabUnique(lib: Lib, records: seq<Json>, downloadId: string, i: nat, j: nat)
    requires IsGrab(lib, records, downloadId, i) && IsGrab(lib, records, downloadId, j)
    ensures i == j
  {
    hide SameDownload, Newer;
    var a, b := records[i], records[j];
    if downloadId != "" && exists j :: 0 <= j < |records| && SameDownload(lib, records[j], downloadId) {
      assert SameDownload(lib, a, downloadId) && SameDownload(lib, b, downloadId);
    } else {
      assert !Newer(lib, a, b) && !Newer(lib, b, a);
    }
  }

  /** `pickGrab`; the index of the record, or None for no records at all. */
  method PickGrab(lib: Lib, records: seq<Json>, downloadId: string) returns (pick: Option<nat>)
    ensures pick.None? <==> records == []
    ensures pick.Some? ==> IsGrab(lib, records, downloadId, pick.value)
  {
    if downloadId != "" {
      for i := 0 to |records|
        invariant forall j :: 0 <= j < i ==> !SameDownload(lib, records[j], downloadId)
      {
        if SameDownload(lib, records[i], downloadId) { return Some(i); }
      }
    }
    var best: Option<nat> := None;
    var bestAt, bestId := 0, 0;
    for i := 0 to |records|
      invariant best.None? <==> i == 0
      invariant best.Some? ==> best.value < i
      invariant best.Some? ==>
                  && bestAt == GrabTime(lib, records[best.value]) && bestId == GrabId(records[best.value])
                  && (forall j :: 0 <= j < i ==> !Newer(lib, records[j], records[best.value]))
                  && (forall j :: 0 <= j < best.value ==> Newer(lib, records[best.value], records[j]))
    {
      var at, id := GrabTime(lib, records[i]), GrabId(records[i]);
      if best.None? || at > bestAt || (at == bestAt && id > bestId) {
        best, bestAt, bestId := Some(i), at, id;
      }
    }
    pick := best;
  }

  // ---- the three sub-steps ---------------------------------------------------------------

  /** The calls of `markFailed`. */
  ghost predicate MarkCalls(lib: Lib, query: Query, downloadId: string, calls: seq<Call>) {
    && |calls| >= 1 && calls[0].GetHistory? && calls[0].query == query
    && if calls[0].records.Ok? && calls[0].records.value != [] then
         var records := calls[0].records.value;
         exists i: nat :: IsGrab(lib, records, downloadId, i)
           && match ToInt(Member(records[i], "id"))
              case Some(id) => if id > 0 then |calls| == 2 && calls[1].MarkHistoryFailed? && calls[1].historyId == id
                               else |calls| == 1
              case None => |calls| == 1
       else |calls| == 1
  }

  /** A file *arr reports under the job's own path, with a usable id. */
  predicate Deletable(file: Json, path: string, id: int) {
    StrOf(file, "path") == path && id > 0 && ToInt(Member(file, "id")) == Some(id)
  }

  /** The calls of the movie deletion step: look the file up, delete it only if its path is the job's. */
  ghost predicate DeleteMovieCalls(t: Target, calls: seq<Call>) {
    && |calls| >= 1 && calls[0].GetMovie? && calls[0].movieId == t.arrId
    && var file := if calls[0].movie.Ok? then Member(calls[0].movie.value, "movieFile") else Null;
       if file.Obj? && StrOf(file, "path") == t.path
       then match ToInt(Member(file, "id"))
            case Some(id) => if id > 0 then |calls| == 2 && calls[1].DeleteMovieFile? && calls[1].fileId == id
                             else |calls| == 1
            case None => |calls| == 1
       else |calls| == 1
  }

  predicate FirstWithPath(files: seq<Json>, path: string, i: nat) {
    i < |files| && StrOf(files[i], "path") == path && forall j :: 0 <= j < i ==> StrOf(files[j], "path") != path
  }

  /** The same for an episode: the first listed file with the job's path. */
  ghost predicate DeleteEpisodeCalls(t: Target, calls: seq<Call>) {
    && |calls| >= 1 && calls[0].GetEpisodeFiles? && calls[0].seriesId == t.arrId
    && if calls[0].files.Ok? && exists i: nat :: FirstWithPath(calls[0].files.value, t.path, i)
       then exists i: nat :: FirstWithPath(calls[0].files.value, t.path, i)
              && match ToInt(Member(calls[0].files.value[i], "id"))
                 case Some(id) => if id > 0 then |calls| == 2 && calls[1].DeleteEpisodeFile? && calls[1].fileId == id
                                  else |calls| == 1
                 case None => |calls| == 1
       else |calls| == 1
  }

  predicate SearchCalls(t: Target, calls: seq<Call>) {
    if t.arrType == "radarr" then |calls| == 1 && calls[0].SearchMovie? && calls[0].searchId == t.arrId
    else if t.episodeId == 0 then calls == []
    else |calls| == 1 && calls[0].SearchEpisode? && calls[0].searchId == t.episodeId
  }

  function HistoryQuery(t: Target): Query {
    if t.arrType == "radarr" then MovieHistory(t.arrId)
    else if t.episodeId == 0 then SeriesHistory(t.arrId)
    else EpisodeHistory(t.arrId, t.episodeId)
  }

  /** The calls of sub-step k: 0 marks, 1 deletes, 2 searches. */
  ghost predicate StepCalls(lib: Lib, t: Target, k: nat, calls: seq<Call>) {
    match k
    case 0 => MarkCalls(lib, HistoryQuery(t), t.downloadId, calls)
    case 1 => if t.arrType == "radarr" then DeleteMovieCalls(t, calls) else DeleteEpisodeCalls(t, calls)
    case _ => SearchCalls(t, calls)
  }

  /** How a sub-step with these calls may end. It can also fail by itself, over a file without an id. */
  predicate EndsIn(calls: seq<Call>, how: Outcome) {
    && (how.Panicked? <==> calls != [] && calls[|calls| - 1].Panics())
    && (calls != [] && calls[|calls| - 1].Fails() ==> how.Errored?)
  }

  /** `markFailed` inside `step`: whatever goes wrong in it ends here. */
  method MarkStep(lib: Lib, c: ArrClient, t: Target) returns (ghost made: seq<Call>)
    modifies c
    ensures c.calls == old(c.calls) + made && StepCalls(lib, t, 0, made)
  {
    var query := HistoryQuery(t);
    var reply := c.History(query);
    made := [GetHistory(query, reply)];
    if !reply.Ok? { return; }
    var pick := PickGrab(lib, reply.value, t.downloadId);
    if pick.None? { return; }
    var id := ToInt(Member(reply.value[pick.value], "id"));
    if id.None? || id.value <= 0 { return; }
    var done := c.MarkFailed(id.value);
    made := made + [MarkHistoryFailed(id.value, done)];
  }

  method DeleteMovieStep(c: ArrClient, t: Target) returns (ghost made: seq<Call>)
    modifies c
    ensures c.calls == old(c.calls) + made && DeleteMovieCalls(t, made)
  {
    var reply := c.Movie(t.arrId);
    made := [GetMovie(t.arrId, reply)];
    if !reply.Ok? { return; }
    var file := Member(reply.value, "movieFile");
    if !file.Obj? { return; }
    if StrOf(file, "path") != t.path { return; }
    var id := ToInt(Member(file, "id"));
    if id.None? || id.value <= 0 { return; }
    var done := c.DeleteMovie(id.value);
    made := made + [DeleteMovieFile(id.value, done)];
    assert Deletable(file, t.path, id.value);
  }

  method DeleteEpisodeStep(c: ArrClient, t: Target) returns (ghost made: seq<Call>)
    modifies c
    ensures c.calls == old(c.calls) + made && DeleteEpisodeCalls(t, made)
  {
    var reply := c.EpisodeFiles(t.arrId);
    made := [GetEpisodeFiles(t.arrId, reply)];
    if !reply.Ok? { return; }
    var files := reply.value;
    for i := 0 to |files|
      invariant c.calls == old(c.calls) + made && made == [GetEpisodeFiles(t.arrId, reply)]
      invariant forall j :: 0 <= j < i ==> StrOf(files[j], "path") != t.path
    {
      if StrOf(files[i], "path") != t.path { continue; }
      assert FirstWithPath(files, t.path, i);
      var id := ToInt(Member(files[i], "id"));
      if id.None? || id.value <= 0 { return; }
      var done := c.DeleteEpisode(id.value);
      made := made + [DeleteEpisodeFile(id.value, done)];
      return;
    }
  }

  method SearchStep(c: ArrClient, t: Target) returns (ghost made: seq<Call>)
    modifies c
    ensures c.calls == old(c.calls) + made && SearchCalls(t, made)
  {
    var done: Reply<()> := *;
    made := [];
    if t.arrType == "radarr" {
      made := [SearchMovie(t.arrId, done)];
      c.Search(SearchMovie(t.arrId, done));
    } else if t.episodeId != 0 {
      made := [SearchEpisode(t.episodeId, done)];
      c.Search(SearchEpisode(t.episodeId, done));
    }
  }

  /** The first sub-step asks for the history, and the last one searches unless an episode's job names no episode. */
  lemma CallsMade(lib: Lib, t: Target, k: nat, calls: seq<Call>)
    requires StepCalls(lib, t, k, calls)
    ensures k == 0 ==> calls != [] && calls[0].GetHistory?
    ensures k >= 2 ==>
              if t.arrType == "radarr" || t.episodeId != 0
              then |calls| == 1 && (calls[0].SearchMovie? || calls[0].SearchEpisode?)
              else calls == []
  {
  }

  /** MAIN: the file is looked up under the job's own title, and deleted when it can be. */
  lemma DeletionMade(lib: Lib, t: Target, calls: seq<Call>)
    requires StepCalls(lib, t, 1, calls)
    ensures t.arrType == "radarr" ==>
              && calls != [] && calls[0].GetMovie? && calls[0].movieId == t.arrId
              && forall id :: calls[0].movie.Ok? && Deletable(Member(calls[0].movie.value, "movieFile"), t.path, id) ==>
                   |calls| == 2 && calls[1].DeleteMovieFile? && calls[1].fileId == id
    ensures t.arrType != "radarr" ==>
              && calls != [] && calls[0].GetEpisodeFiles? && calls[0].seriesId == t.arrId
              && forall i: nat, id ::
                   calls[0].files.Ok? && FirstWithPath(calls[0].files.value, t.path, i)
                   && Deletable(calls[0].files.value[i], t.path, id) ==>
                   |calls| == 2 && calls[1].DeleteEpisodeFile? && calls[1].fileId == id
  {
  }

  /** MAIN: a failure mark goes to the grab that was picked from the records just listed. */
  lemma MarkAsked(lib: Lib, t: Target, k: nat, calls: seq<Call>, i: nat)
    requires StepCalls(lib, t, k, calls) && i < |calls| && calls[i].MarkHistoryFailed?
    ensures k == 0 && i == 1 && calls[0].GetHistory? && calls[0].records.Ok?
    ensures calls[i].historyId > 0
    ensures exists g: nat :: IsGrab(lib, calls[0].records.value, t.downloadId, g)
              && ToInt(Member(calls[0].records.value[g], "id")) == Some(calls[i].historyId)
  {
    if k == 1 && t.arrType != "radarr" && |calls| == 2 { EpisodeFileListed(t, calls); }
  }

  /**
   * MAIN: each call is about what was imported: the grab is looked for in the history of the movie, of the very
   * episode when the job names one, and of the whole series only when it does not; so are the lookups and searches.
   */
  lemma CallsAsk(lib: Lib, t: Target, k: nat, calls: seq<Call>, i: nat)
    requires StepCalls(lib, t, k, calls) && i < |calls|
    ensures match calls[i]
      case GetHistory(query, _) =>
        && (t.arrType == "radarr" ==> query == MovieHistory(t.arrId))
        && (t.arrType != "radarr" && t.episodeId != 0 ==> query == EpisodeHistory(t.arrId, t.episodeId))
        && (t.arrType != "radarr" && t.episodeId == 0 ==> query == SeriesHistory(t.arrId))
      case GetMovie(id, _) => t.arrType == "radarr" && id == t.arrId
      case GetEpisodeFiles(id, _) => t.arrType != "radarr" && id == t.arrId
      case SearchMovie(id, _) => t.arrType == "radarr" && id == t.arrId
      case SearchEpisode(id, _) => t.arrType != "radarr" && id == t.episodeId != 0
      case DeleteMovieFile(_, _) => t.arrType == "radarr"
      case DeleteEpisodeFile(_, _) => t.arrType != "radarr"
      case MarkHistoryFailed(id, _) =>
        && i == 1 && id > 0 && calls[0].GetHistory? && calls[0].records.Ok?
        && exists g: nat :: IsGrab(lib, calls[0].records.value, t.downloadId, g)
             && ToInt(Member(calls[0].records.value[g], "id")) == Some(id)
  {
    if calls[i].MarkHistoryFailed? { MarkAsked(lib, t, k, calls, i); }
    if k == 1 && t.arrType != "radarr" && |calls| == 2 { EpisodeFileListed(t, calls); }
  }

  /** The client the job's type selects; a type that is unknown has none. */
  function ClientFor(t: Target, sonarr: ArrClient?, radarr: ArrClient?): ArrClient? {
    if t.arrType == "radarr" then radarr else if t.arrType == "sonarr" then sonarr else null
  }

  /**
   * `handleFailure`: with a client, all three sub-steps run in order, whatever each of them meets;
   * without one, nothing happens.
   */
  method HandleFailure(lib: Lib, t: Target, sonarr: ArrClient?, radarr: ArrClient?)
    returns (ghost mark: seq<Call>, ghost delete: seq<Call>, ghost search: seq<Call>)
    modifies sonarr, radarr
    ensures t.arrType == "radarr" && radarr != null ==> radarr.calls == old(radarr.calls) + mark + delete + search
    ensures t.arrType == "sonarr" && sonarr != null ==> sonarr.calls == old(sonarr.calls) + mark + delete + search
    ensures (t.arrType == "radarr" && radarr != null) || (t.arrType == "sonarr" && sonarr != null) ==>
              StepCalls(lib, t, 0, mark) && StepCalls(lib, t, 1, delete) && StepCalls(lib, t, 2, search)
    ensures sonarr != null && sonarr != radarr && t.arrType != "sonarr" ==> sonarr.calls == old(sonarr.calls)
    ensures radarr != null && sonarr != radarr && t.arrType != "radarr" ==> radarr.calls == old(radarr.calls)
    ensures sonarr == radarr && sonarr != null && t.arrType !in {"radarr", "sonarr"} ==>
              sonarr.calls == old(sonarr.calls)
  {
    mark, delete, search := [], [], [];
    var c := ClientFor(t, sonarr, radarr);
    if c == null { return; }
    mark := MarkStep(lib, c, t);
    if t.arrType == "radarr" {
      delete := DeleteMovieStep(c, t);
    } else {
      delete := DeleteEpisodeStep(c, t);
    }
    search := SearchStep(c, t);
  }

  // ---- what may be deleted ---------------------------------------------------------------

  /** Call i of the sub-step's calls asks for a file *arr reported, under the job's own path, in the call before it. */
  ghost predicate Justified(t: Target, calls: seq<Call>, i: nat)
    requires i < |calls|
  {
    && i == 1
    && match calls[1]
       case DeleteMovieFile(id, _) =>
         && calls[0].GetMovie? && calls[0].movie.Ok?
         && Deletable(Member(calls[0].movie.value, "movieFile"), t.path, id)
       case DeleteEpisodeFile(id, _) =>
         && calls[0].GetEpisodeFiles? && calls[0].files.Ok?
         && exists f :: f in calls[0].files.value && Deletable(f, t.path, id)
       case _ => false
  }

  lemma EpisodeFileListed(t: Target, calls: seq<Call>)
    requires DeleteEpisodeCalls(t, calls) && |calls| == 2
    ensures calls[1].DeleteEpisodeFile? && calls[0].files.Ok?
    ensures exists f :: f in calls[0].files.value && Deletable(f, t.path, calls[1].fileId)
  {
    var files := calls[0].files.value;
    var n: nat :| FirstWithPath(files, t.path, n)
      && match ToInt(Member(files[n], "id"))
         case Some(id) => if id > 0 then |calls| == 2 && calls[1].DeleteEpisodeFile? && calls[1].fileId == id
                          else |calls| == 1
         case None => |calls| == 1;
    assert files[n] in files && Deletable(files[n], t.path, calls[1].fileId);
  }

  /** MAIN: only the middle sub-step deletes, at most once, and only a file reported under the job's path. */
  lemma DeletionsJustified(lib: Lib, t: Target, k: nat, calls: seq<Call>, i: nat)
    requires StepCalls(lib, t, k, calls) && i < |calls| && calls[i].IsDelete()
    ensures k == 1 && Justified(t, calls, i)
    ensures forall j :: 0 <= j < |calls| && calls[j].IsDelete() ==> j == i
  {
    if k == 1 {
      if t.arrType != "radarr" {
        EpisodeFileListed(t, calls);
      }
    }
  }

  /** With a non-empty path, the file's own path member says so: a file without one is never deleted. */
  lemma ReportedPath(t: Target, file: Json, id: int)
    requires t.path != "" && Deletable(file, t.path, id)
    ensures Member(file, "path") == Str(t.path)
  {
  }
}
