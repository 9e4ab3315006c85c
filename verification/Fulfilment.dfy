/**
 * How a passed job fulfils requests (internal/pipeline/worker.go with internal/store/requests.go):
 * the pass is committed first, and the requests of its item are marked available in a step of its
 * own, which an error, a panic, a shutdown or a crash can cut. The job queue of Pipeline and the
 * requests of Requests run side by side.
 */
module Fulfilment {
  import opened Timestamps
  import opened JobStore
  import Hooks
  import P = Pipeline
  import R = Requests

  datatype System = System(jobs: P.State, requests: R.State)

  /** Marked and MarkFails are the two ways through the step that Pipeline calls Accept. */
  datatype Step = Queue(e: P.Event) | Marked | MarkFails | Request(r: R.Event)

  const START := System(P.START, R.START)

  ghost predicate Enabled(cfg: P.Config, s: System, step: Step) {
    match step
    case Queue(e) => !e.Accept? && P.Enabled(cfg, s.jobs, e)
    case Marked => P.Enabled(cfg, s.jobs, P.Accept)
    case MarkFails => P.Enabled(cfg, s.jobs, P.Accept)
    case Request(e) => !s.jobs.worker.Down? && !e.MarkAvailable? && R.Enabled(s.requests, e)
  }

  function MarkOf(c: P.Claim): R.Event { R.MarkAvailable(c.job.draft.arrType, c.job.draft.arrId) }

  /** A crash ends the HTTP handlers too. */
  ghost function Apply(cfg: P.Config, s: System, step: Step): System
    requires Enabled(cfg, s, step)
  {
    match step
    case Queue(e) => System(P.Apply(cfg, s.jobs, e), if e.Crash? then s.requests.(handlers := map[]) else s.requests)
    case Marked => System(P.Apply(cfg, s.jobs, P.Accept), R.Apply(s.requests, MarkOf(s.jobs.worker.claim)))
    case MarkFails => System(P.Apply(cfg, s.jobs, P.Accept), s.requests)
    case Request(e) => s.(requests := R.Apply(s.requests, e))
  }

  ghost predicate IsRun(cfg: P.Config, states: seq<System>, steps: seq<Step>) {
    && |states| == |steps| + 1 && states[0] == START
    && forall i :: 0 <= i < |steps| ==>
        Enabled(cfg, states[i], steps[i]) && states[i + 1] == Apply(cfg, states[i], steps[i])
  }

  ghost predicate Inv(cfg: P.Config, s: System) { P.Inv(cfg, s.jobs) && R.Inv(s.requests) }

  lemma StepInv(cfg: P.Config, s: System, step: Step)
    requires Inv(cfg, s) && Enabled(cfg, s, step)
    ensures Inv(cfg, Apply(cfg, s, step))
  {
    hide P.Inv, P.Enabled, P.Apply, R.Enabled, R.Apply;
    match step
    case Queue(e) => P.StepInv(cfg, s.jobs, e);
    case Marked =>
      P.StepInv(cfg, s.jobs, P.Accept);
      MarkReached(cfg, s);
      AlwaysMarks(s.requests, s.jobs.worker);
      R.StepInv(s.requests, MarkOf(s.jobs.worker.claim));
    case MarkFails => P.StepInv(cfg, s.jobs, P.Accept);
    case Request(e) => R.StepInv(s.requests, e);
  }

  lemma MarkReached(cfg: P.Config, s: System)
    requires P.Enabled(cfg, s.jobs, P.Accept)
    ensures s.jobs.worker.Ended? && s.jobs.worker.passed && s.jobs.worker.Holds()
  {
  }

  lemma AlwaysMarks(s: R.State, w: P.Worker)
    requires w.Holds()
    ensures R.Enabled(s, MarkOf(w.claim))
  {
  }

  lemma {:induction false} RunInv(cfg: P.Config, states: seq<System>, steps: seq<Step>, i: nat)
    requires IsRun(cfg, states, steps) && i <= |steps|
    ensures Inv(cfg, states[i])
  {
    if i == 0 {
      hide P.Inv, R.Inv, Enabled, Apply;
      P.StartInv(cfg);
      R.StartInv();
    } else {
      hide Enabled, Apply, Inv;
      RunInv(cfg, states, steps, i - 1);
      StepInv(cfg, states[i - 1], steps[i - 1]);
    }
  }

  // ---- the mark of a pass ----------------------------------------------------------------

  /** The worker is at the mark: its job has passed, and it has not left the step yet. */
  predicate AtMark(s: System) { s.jobs.worker.Ended? && s.jobs.worker.passed }

  /** The step ends without having marked anything: an error or panic inside it, a panic around it, or a crash. */
  predicate Cut(s: System, step: Step) {
    AtMark(s) && (step.MarkFails? || (step.Queue? && (step.e.Panic? || step.e.Crash?)))
  }

  /** At the mark the worker stays, with its claim, until the mark is made or cut. */
  lemma LeavesMark(cfg: P.Config, s: System, step: Step)
    requires Enabled(cfg, s, step) && AtMark(s)
    ensures var s' := Apply(cfg, s, step);
      if step.Marked? || Cut(s, step) then !AtMark(s') else s'.jobs.worker == s.jobs.worker
  {
    hide P.TableAfter, P.HandlersAfter, P.LogAfter, P.KickAfter, P.CutShort, R.Enabled, R.Apply;
  }

  predicate Approves(s: System, step: Step, id: nat, mediaType: string, arrId: int) {
    step.Request? && R.Brings(s.requests, step.r, id, mediaType, arrId)
  }

  predicate Marks(s: System, step: Step, mediaType: string, arrId: int) {
    && step.Marked? && AtMark(s)
    && R.MediaType(s.jobs.worker.claim.job.draft.arrType) == mediaType && s.jobs.worker.claim.job.draft.arrId == arrId
  }

  predicate Takes(s: System, step: Step, id: nat, mediaType: string, arrId: int) {
    Marks(s, step, mediaType, arrId) || (step.Request? && R.TakesAway(s.requests, step.r, id, mediaType, arrId))
  }

  /** Request id is approved for the item. */
  predicate Waits(s: System, id: nat, mediaType: string, arrId: int) {
    R.Awaits(s.requests.table, id, mediaType, arrId)
  }

  lemma StepWaits(cfg: P.Config, s: System, step: Step, id: nat, mediaType: string, arrId: int)
    requires Inv(cfg, s) && Enabled(cfg, s, step)
    ensures Waits(Apply(cfg, s, step), id, mediaType, arrId) <==>
            Approves(s, step, id, mediaType, arrId)
            || (Waits(s, id, mediaType, arrId) && !Takes(s, step, id, mediaType, arrId))
  {
    hide P.Inv, P.Apply, R.Inv, R.Enabled, R.Apply, R.Brings, R.TakesAway, R.Awaits;
    match step
    case Queue(e) =>
    case Marked =>
      MarkReached(cfg, s);
      AlwaysMarks(s.requests, s.jobs.worker);
      R.StepAwaits(s.requests, MarkOf(s.jobs.worker.claim), id, mediaType, arrId);
      MarkTakes(s.requests, s.jobs.worker.claim, id, mediaType, arrId);
    case MarkFails =>
    case Request(r) => R.StepAwaits(s.requests, r, id, mediaType, arrId);
  }

  lemma MarkTakes(s: R.State, c: P.Claim, id: nat, mediaType: string, arrId: int)
    ensures !R.Brings(s, MarkOf(c), id, mediaType, arrId)
    ensures R.TakesAway(s, MarkOf(c), id, mediaType, arrId) <==>
            R.MediaType(c.job.draft.arrType) == mediaType && c.job.draft.arrId == arrId
  {
  }

  /** The approval at b is the last word on the request up to state j. */
  ghost predicate Standing(states: seq<System>, steps: seq<Step>, b: nat, j: nat, id: nat, mediaType: string,
      arrId: int)
    requires j <= |steps| < |states|
  {
    b < j && Approves(states[b], steps[b], id, mediaType, arrId)
    && forall n :: b < n < j ==> !Takes(states[n], steps[n], id, mediaType, arrId)
  }

  /** A request waits for an item exactly when an approval of it for the item still stands. */
  lemma {:induction false} History(cfg: P.Config, states: seq<System>, steps: seq<Step>, j: nat, id: nat,
      mediaType: string, arrId: int)
    requires IsRun(cfg, states, steps) && j <= |steps|
    ensures Waits(states[j], id, mediaType, arrId) <==>
            exists b: nat :: Standing(states, steps, b, j, id, mediaType, arrId)
  {
    hide Enabled, Apply, Inv, Approves, Takes;
    if j > 0 {
      hide Waits;
      History(cfg, states, steps, j - 1, id, mediaType, arrId);
      RunInv(cfg, states, steps, j - 1);
      StepWaits(cfg, states[j - 1], steps[j - 1], id, mediaType, arrId);
      if Approves(states[j - 1], steps[j - 1], id, mediaType, arrId) {
        assert Standing(states, steps, j - 1, j, id, mediaType, arrId);
      } else {
        if Waits(states[j], id, mediaType, arrId) {
          var b: nat :| Standing(states, steps, b, j - 1, id, mediaType, arrId);
          assert Standing(states, steps, b, j, id, mediaType, arrId);
        }
        if exists b: nat :: Standing(states, steps, b, j, id, mediaType, arrId) {
          var b: nat :| Standing(states, steps, b, j, id, mediaType, arrId);
          assert Standing(states, steps, b, j - 1, id, mediaType, arrId);
        }
      }
    }
  }

  /** The step commits the pass of the job the worker holds. */
  predicate CommitsPass(s: System, step: Step) {
    step.Queue? && step.e.Finish? && s.jobs.worker.Ending? && s.jobs.worker.passed
  }

  /** From the commit of the pass at i to the end of its mark at e the worker is at the mark, with the same claim. */
  lemma {:induction false} MarkOfPass(cfg: P.Config, states: seq<System>, steps: seq<Step>, i: nat, e: nat)
    requires IsRun(cfg, states, steps) && i < e < |steps| && CommitsPass(states[i], steps[i])
    requires forall n :: i < n < e ==> !steps[n].Marked? && !Cut(states[n], steps[n])
    ensures AtMark(states[e]) && states[e].jobs.worker.claim == states[i].jobs.worker.claim
  {
    hide Enabled, Apply, Cut;
    if e == i + 1 {
      AfterCommit(cfg, states[i], steps[i]);
    } else {
      MarkOfPass(cfg, states, steps, i, e - 1);
      LeavesMark(cfg, states[e - 1], steps[e - 1]);
    }
  }

  lemma AfterCommit(cfg: P.Config, s: System, step: Step)
    requires Enabled(cfg, s, step) && CommitsPass(s, step)
    ensures AtMark(Apply(cfg, s, step)) && Apply(cfg, s, step).jobs.worker.claim == s.jobs.worker.claim
  {
    hide P.TableAfter, P.HandlersAfter, P.LogAfter, P.KickAfter, P.CutShort;
  }

  /**
   * MAIN: over every run, after the pass committed at i, whose mark ends at e, a request is approved
   * for the pass's item if and only if an approval of it for the item stands that came after the
   * mark, or that came before a mark that was cut.
   */
  lemma WaitingAfterPass(cfg: P.Config, states: seq<System>, steps: seq<Step>, i: nat, e: nat, j: nat, id: nat)
    requires IsRun(cfg, states, steps) && i < e < j <= |steps| && CommitsPass(states[i], steps[i])
    requires forall n :: i < n < e ==> !steps[n].Marked? && !Cut(states[n], steps[n])
    requires steps[e].Marked? || Cut(states[e], steps[e])
    ensures var d := states[i].jobs.worker.claim.job.draft;
            var mediaType := R.MediaType(d.arrType);
      Waits(states[j], id, mediaType, d.arrId) <==>
      exists b: nat :: Standing(states, steps, b, j, id, mediaType, d.arrId) && (Cut(states[e], steps[e]) || e < b)
  {
    var d := states[i].jobs.worker.claim.job.draft;
    var mediaType := R.MediaType(d.arrType);
    MarkOfPass(cfg, states, steps, i, e);
    History(cfg, states, steps, j, id, mediaType, d.arrId);
    hide IsRun, Waits, R.TakesAway, R.Brings;
    if steps[e].Marked? {
      assert Takes(states[e], steps[e], id, mediaType, d.arrId);
      forall b: nat | Standing(states, steps, b, j, id, mediaType, d.arrId)
        ensures e < b
      {
        assert b != e;
      }
    }
  }

  /**
   * MAIN: so a mark that is made leaves none, until one is approved again; and a cut mark leaves exactly
   * those there were.
   */
  lemma NoneWaiting(cfg: P.Config, states: seq<System>, steps: seq<Step>, i: nat, e: nat, j: nat, id: nat)
    requires IsRun(cfg, states, steps) && i < e < j <= |steps| && CommitsPass(states[i], steps[i])
    requires forall n :: i < n < e ==> !steps[n].Marked? && !Cut(states[n], steps[n])
    requires steps[e].Marked? || Cut(states[e], steps[e])
    ensures var d := states[i].jobs.worker.claim.job.draft;
            var mediaType := R.MediaType(d.arrType);
      && (steps[e].Marked? && (forall n :: e < n < j ==> !Approves(states[n], steps[n], id, mediaType, d.arrId)) ==>
            !Waits(states[j], id, mediaType, d.arrId))
      && (Cut(states[e], steps[e]) ==>
            (Waits(states[e + 1], id, mediaType, d.arrId) <==> Waits(states[e], id, mediaType, d.arrId)))
  {
    hide Inv, Enabled, Apply, Waits, R.MediaType, R.Brings, R.TakesAway;
    var d := states[i].jobs.worker.claim.job.draft;
    var mediaType := R.MediaType(d.arrType);
    WaitingAfterPass(cfg, states, steps, i, e, j, id);
    RunInv(cfg, states, steps, e);
    assert Enabled(cfg, states[e], steps[e]) && states[e + 1] == Apply(cfg, states[e], steps[e]);
    hide IsRun;
    StepWaits(cfg, states[e], steps[e], id, mediaType, d.arrId);
  }

  // ---- the job has passed all the same ---------------------------------------------------

  lemma PassCommitted(cfg: P.Config, s: System, step: Step)
    requires Inv(cfg, s) && Enabled(cfg, s, step) && CommitsPass(s, step)
    ensures Apply(cfg, s, step).jobs.table.Is(s.jobs.worker.claim.id, Passed)
  {
    hide P.Inv, P.Enabled, P.Apply, P.RunningOk, R.Inv, Table.Is, Updated;
    P.InvParts(cfg, s.jobs);
    var id := s.jobs.worker.claim.id;
    var row := P.FinishedRow(cfg, s.jobs, step.e);
    UpdateStatus(s.jobs.table, id, row, id, Passed);
  }

  predicate Reopens(step: Step, id: nat) { step.Queue? && (step.e.Prune? || (step.e.Retry? && step.e.id == id)) }

  /**
   * MAIN: a pass that has been committed stays: only a retry of the job or a prune ends it, no crash or
   * restart requeues the job to make up for a mark that was cut.
   */
  lemma PassedStays(cfg: P.Config, states: seq<System>, steps: seq<Step>, i: nat, j: nat)
    requires IsRun(cfg, states, steps) && i < j <= |steps| && CommitsPass(states[i], steps[i])
    requires forall n :: i < n < j ==> !Reopens(steps[n], states[i].jobs.worker.claim.id)
    ensures states[j].jobs.table.Is(states[i].jobs.worker.claim.id, Passed)
  {
    hide Inv, Enabled, Apply, Table.Is;
    RunInv(cfg, states, steps, i);
    PassCommitted(cfg, states[i], steps[i]);
    StillPassed(cfg, states, steps, i + 1, j, states[i].jobs.worker.claim.id);
  }

  lemma {:induction false} StillPassed(cfg: P.Config, states: seq<System>, steps: seq<Step>, i: nat, j: nat, id: nat)
    requires IsRun(cfg, states, steps) && i <= j <= |steps| && states[i].jobs.table.Is(id, Passed)
    requires forall n :: i <= n < j ==> !Reopens(steps[n], id)
    ensures states[j].jobs.table.Is(id, Passed)
  {
    hide Inv, Enabled, Apply, Table.Is;
    if i < j {
      StillPassed(cfg, states, steps, i, j - 1, id);
      RunInv(cfg, states, steps, j - 1);
      StepPassed(cfg, states[j - 1], steps[j - 1], id);
    }
  }

  lemma StepPassed(cfg: P.Config, s: System, step: Step, id: nat)
    requires Inv(cfg, s) && Enabled(cfg, s, step) && s.jobs.table.Is(id, Passed) && !Reopens(step, id)
    ensures Apply(cfg, s, step).jobs.table.Is(id, Passed)
  {
    hide P.Inv, P.Enabled, P.Apply, R.Inv, R.Enabled, R.Apply, Table.Is;
    P.InvParts(cfg, s.jobs);
    match step
    case Queue(e) => P.StepPassed(cfg, s.jobs, e, id);
    case Marked => P.StepPassed(cfg, s.jobs, P.Accept, id);
    case MarkFails => P.StepPassed(cfg, s.jobs, P.Accept, id);
    case Request(_) =>
  }

  // ---- a run in which it happens ---------------------------------------------------------

  lemma Extend(cfg: P.Config, states: seq<System>, steps: seq<Step>, step: Step)
      returns (states': seq<System>, steps': seq<Step>)
    requires IsRun(cfg, states, steps) && Enabled(cfg, states[|steps|], step)
    ensures IsRun(cfg, states', steps') && steps' == steps + [step] && |states'| == |steps'| + 1
    ensures states'[|steps'|] == Apply(cfg, states[|steps|], step)
  {
    hide Enabled, Apply;
    states', steps' := states + [Apply(cfg, states[|steps|], step)], steps + [step];
  }

  const NOON := Time(2024, 1, 1, 12, 0, 0, 0)

  const FILM := Draft("radarr", 7, 0, "", "/film", 0, "", 0)

  lemma Booted(cfg: P.Config) returns (states: seq<System>, steps: seq<Step>)
    ensures IsRun(cfg, states, steps)
    ensures var s := states[|steps|];
      && s.requests == R.START
      && s.jobs.worker.Top? && s.jobs.table == EMPTY && s.jobs.handlers == map[] && !s.jobs.stopping
  {
    hide P.LogAfter, P.CutShort;
    states, steps := [START], [];
    assert IsRun(cfg, states, steps);
    hide IsRun;
    assert Released(EMPTY).rows == map[];
    states, steps := Extend(cfg, states, steps, Queue(P.Restart));
  }

  /** The process has started and a request is approved on creation. */
  lemma Approved(cfg: P.Config) returns (states: seq<System>, steps: seq<Step>)
    ensures IsRun(cfg, states, steps)
    ensures var s := states[|steps|];
      && Waits(s, 1, "movie", 7)
      && s.jobs.worker.Top? && s.jobs.table == EMPTY && s.jobs.handlers == map[] && !s.jobs.stopping
  {
    hide IsRun, P.Enabled, P.Apply;
    states, steps := Booted(cfg);
    assert R.Open(R.START.table, "movie", 603, 0) == {};
    states, steps := Extend(cfg, states, steps, Request(R.BeginCreate(0, "movie", 603, 0)));
    states, steps := Extend(cfg, states, steps, Request(R.AutoApproved(0, 7)));
    states, steps := Extend(cfg, states, steps, Request(R.Insert(0)));
  }

  /** The film is imported: a job for it is queued. */
  lemma Hooked(cfg: P.Config, states: seq<System>, steps: seq<Step>) returns (states': seq<System>, steps': seq<Step>)
    requires IsRun(cfg, states, steps)
    requires var s := states[|steps|];
      s.jobs.worker.Top? && s.jobs.table == EMPTY && s.jobs.handlers == map[] && !s.jobs.stopping
    ensures IsRun(cfg, states', steps')
    ensures var s, s' := states[|steps|], states'[|steps'|];
      && s'.requests == s.requests && s'.jobs.worker.Top? && !s'.jobs.stopping
      && s'.jobs.table == Inserted(EMPTY, FILM, NOON)
  {
    hide IsRun, Inserted, P.LogAfter, P.CutShort;
    assert EMPTY.Active(FILM.path) == {};
    states', steps' := Extend(cfg, states, steps, Queue(P.HookSelect(0, FILM)));
    states', steps' := Extend(cfg, states', steps', Queue(P.HookInsert(0, NOON)));
  }

  lemma FilmQueued()
    ensures var t := Inserted(EMPTY, FILM, NOON);
      t.rows.Keys == {1} && t.Ids(Queued) == {1} && t.rows[1].draft == FILM
  {
    hide Stamp;
  }

  /** And the worker claims it. */
  lemma Imported(cfg: P.Config, states: seq<System>, steps: seq<Step>) returns (states': seq<System>, steps': seq<Step>)
    requires IsRun(cfg, states, steps)
    requires var s := states[|steps|];
      s.jobs.worker.Top? && s.jobs.table == EMPTY && s.jobs.handlers == map[] && !s.jobs.stopping
    ensures IsRun(cfg, states', steps')
    ensures var s, s' := states[|steps|], states'[|steps'|];
      && s'.requests == s.requests && !s'.jobs.stopping
      && s'.jobs.worker.Working? && s'.jobs.worker.claim.id == 1 && s'.jobs.worker.claim.job.draft == FILM
      && s'.jobs.table.rows.Keys == {1} && s'.jobs.table.Is(1, Running)
  {
    hide IsRun, Inserted, P.LogAfter, P.CutShort, Stamp;
    FilmQueued();
    states', steps' := Hooked(cfg, states, steps);
    states', steps' := Extend(cfg, states', steps', Queue(P.LoopCheck));
    states', steps' := Extend(cfg, states', steps', Queue(P.ClaimNext(NOON)));
  }

  /** It passes, and the process crashes before the mark. */
  lemma CrashedAtMark(cfg: P.Config, states: seq<System>, steps: seq<Step>)
      returns (states': seq<System>, steps': seq<Step>)
    requires IsRun(cfg, states, steps)
    requires var s := states[|steps|];
      s.jobs.worker.Working? && s.jobs.worker.claim.id == 1 && s.jobs.table.rows.Keys == {1} && !s.jobs.stopping
    ensures IsRun(cfg, states', steps')
    ensures var s, s' := states[|steps|], states'[|steps'|];
      && s'.requests.table == s.requests.table && s'.jobs.worker.Top?
      && s'.jobs.table.rows.Keys == {1} && s'.jobs.table.Is(1, Passed)
  {
    hide IsRun, P.LogAfter, Stamp;
    states', steps' := Extend(cfg, states, steps, Queue(P.Validated(true)));
    states', steps' := Extend(cfg, states', steps', Queue(P.Proceed));
    states', steps' := Extend(cfg, states', steps', Queue(P.Finish("", "", NOON)));
    states', steps' := Extend(cfg, states', steps', Queue(P.Crash([])));
    states', steps' := Extend(cfg, states', steps', Queue(P.Restart));
  }

  /** So a crash between the pass and its mark leaves a request approved, with the job passed and nothing queued. */
  lemma RequestLeftApproved(cfg: P.Config) returns (states: seq<System>, steps: seq<Step>)
    ensures IsRun(cfg, states, steps)
    ensures var s := states[|steps|];
      Waits(s, 1, "movie", 7) && s.jobs.worker.Top? && s.jobs.table.Is(1, Passed) && s.jobs.table.Ids(Queued) == {}
  {
    hide IsRun;
    states, steps := Approved(cfg);
    states, steps := Imported(cfg, states, steps);
    states, steps := CrashedAtMark(cfg, states, steps);
  }
}
