/** What an import webhook turns into (internal/api/hooks.go). */
module Hooks {
  import opened Prelude
  import opened Json
  import opened JobStore

  /** The members of the title and the file that d carries. */
  predicate TitleAndFile(title: Json, file: Json, d: Draft) {
    && d.arrId == NumOf(title, "id") && d.title == StrOf(title, "title")
    && d.path == StrOf(file, "path") && d.size == NumOf(file, "size")
  }

  predicate FirstEpisode(raw: Json, d: Draft) {
    var eps := Member(raw, "episodes");
    if eps.Arr? && eps.items != [] then d.episodeId == NumOf(eps.items[0], "id") else d.episodeId == 0
  }

  /** d is what the payload says: a movie, or else an episode of a series. */
  predicate Describes(raw: Json, d: Draft) {
    && d.downloadId == StrOf(raw, "downloadId") && d.runtimeMin == 0
    && if Member(raw, "movie").Obj?
       then d.arrType == "radarr" && d.episodeId == 0 && TitleAndFile(Member(raw, "movie"), Member(raw, "movieFile"), d)
       else d.arrType == "sonarr" && Member(raw, "series").Obj? && FirstEpisode(raw, d)
            && TitleAndFile(Member(raw, "series"), Member(raw, "episodeFile"), d)
  }

  /** A job the pipeline may act on: it names a title and a file. */
  predicate Actionable(d: Draft) { (d.arrType == "radarr" || d.arrType == "sonarr") && d.arrId != 0 && d.path != "" }

  /** `jobFromPayload`: it accepts exactly the payloads that describe an actionable job, and returns that job. */
  method JobFromPayload(raw: Json) returns (r: Option<Draft>)
    ensures r.Some? ==> Describes(raw, r.value) && Actionable(r.value)
    ensures r.None? ==> forall d :: Describes(raw, d) ==> !Actionable(d)
    ensures r.Some? ==>
              && r.value.arrId != 0 && r.value.path != ""
              && if Member(raw, "movie").Obj?
                 then && r.value.arrType == "radarr" && r.value.arrId == NumOf(Member(raw, "movie"), "id")
                      && r.value.path == StrOf(Member(raw, "movieFile"), "path")
                 else && r.value.arrType == "sonarr" && r.value.arrId == NumOf(Member(raw, "series"), "id")
                      && r.value.path == StrOf(Member(raw, "episodeFile"), "path")
  {
    var job := Draft("", 0, 0, "", "", 0, StrOf(raw, "downloadId"), 0);
    if Member(raw, "movie").Obj? {
      var movie, file := Member(raw, "movie"), Member(raw, "movieFile");
      job := job.(arrType := "radarr", arrId := NumOf(movie, "id"), title := StrOf(movie, "title"));
      job := job.(path := StrOf(file, "path"), size := NumOf(file, "size"));
    } else if Member(raw, "series").Obj? {
      var series, file := Member(raw, "series"), Member(raw, "episodeFile");
      job := job.(arrType := "sonarr", arrId := NumOf(series, "id"), title := StrOf(series, "title"));
      job := job.(path := StrOf(file, "path"), size := NumOf(file, "size"));
      var eps := Member(raw, "episodes");
      if eps.Arr? && eps.items != [] && eps.items[0].Obj? { job := job.(episodeId := NumOf(eps.items[0], "id")); }
    } else {
      return None;
    }
    if job.arrId == 0 || job.path == "" { return None; }
    r := Some(job);
  }
}
