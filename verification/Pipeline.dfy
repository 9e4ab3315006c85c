/**
 * The job queue as a protocol (internal/pipeline/worker.go with internal/store/jobs.go,
 * internal/api/hooks.go and internal/api/jobs.go): HTTP handlers, one worker, a kick channel of
 * capacity one, shutdown, crash and restart. A step is one store statement, one channel operation
 * or one sub-step of the failure reaction. Store statements succeed, except that those made under
 * the worker's context may fail once that context is cancelled, that a claim may fail, and that a
 * request may die before its INSERT.
 */
module Pipeline {
  import opened Prelude
  import opened Timestamps
  import opened JobStore
  import opened Failure
  import opened Json
  import opened Hooks

  /** What ClaimNextJob returned: a row and its id. */
  datatype Claim = Claim(id: nat, job: Job)

  /** Where the worker is. */
  datatype Worker =
    | Down                                   // the process is not running
    | Top                                    // the loop condition
    | Claiming
    | FoundEmpty                             // the claim returned no job
    | ClaimFailed
    | Idle(empty: bool)                      // inside wait; empty when the claim had found no job
    | Working(claim: Claim)                  // process, until validation returns
    | Checked(claim: Claim, passed: bool)    // about to look at the context
    | Ending(claim: Claim, passed: bool)     // about to call FinishJob
    | Recovering(claim: Claim)               // panicked before finishing: about to call FinishJob
    | Ended(claim: Claim, passed: bool)      // finished is true
    | Reacting(claim: Claim, k: nat)         // handleFailure, before sub-step k
    | Leaving(claim: Claim, k: nat, how: Outcome)  // inside step, sub-step k has returned or panicked
    | Stopped                                // Run returned
  {
    predicate Holds() { Working? || Checked? || Ending? || Recovering? || Ended? || InReaction() }

    /** Between the claim and the end of FinishJob. */
    predicate Busy() { Working? || Checked? || Ending? || Recovering? }

    predicate InReaction() { Reacting? || Leaving? }

    /** How many sub-steps of the reaction have been made. */
    function Made(): nat
      requires InReaction()
    {
      if Leaving? then k + 1 else k
    }
  }

  /** An HTTP handler: its SELECT found no active job, or it has committed and will kick. */
  datatype Handler = Selected(draft: Draft) | Committed

  /** Sub-step k of the reaction to attempt `attempt` of job `id`. */
  datatype Reaction = Reaction(id: nat, attempt: nat, target: Target, k: nat, calls: seq<Call>)

  /** What has happened since the database was created. */
  datatype Log = Log(drafts: map<nat, Draft>, claims: multiset<nat>, resets: multiset<nat>, ended: multiset<nat>,
                     finishes: multiset<(nat, nat)>, failed: set<(nat, nat)>, approved: set<(nat, nat)>,
                     reactions: seq<Reaction>)

  datatype State = State(table: Table, worker: Worker, kick: bool, stopping: bool, handlers: map<nat, Handler>,
      log: Log)

  /** The library functions, and the *arr types a client is configured for. */
  datatype Config = Config(lib: Lib, clients: set<string>)

  datatype WakeUp = ByKick | ByTimer | ByContext

  datatype Event =
    | HookFound(h: nat, path: string)        // EnqueueJob's SELECT finds an active job
    | HookSelect(h: nat, draft: Draft)       // EnqueueJob's SELECT finds none
    | HookInsert(h: nat, at: Time)           // EnqueueJob's INSERT
    | HookDrop(h: nat)
    | Retry(h: nat, id: nat)                 // RequeueJob
    | Kick(h: nat)
    | Prune(before: Time)
    | Stop                                   // the context is cancelled
    | Crash(cut: seq<Call>)                  // the process dies, perhaps in the middle of a sub-step
    | Restart                                // ResetRunningJobs, then Run
    | LoopCheck
    | ClaimNext(at: Time)
    | ClaimFails
    | BeginWait
    | Wake(why: WakeUp)
    | Validated(passed: bool)
    | Interrupt
    | Proceed
    | Finish(result: string, error: string, at: Time)
    | FinishCancelled
    | Panic
    | FinishPanicked(result: string, error: string, at: Time)
    | Accept                                 // MarkRequestsAvailable and scheduleRefresh
    | ReadBlocklist(on: bool)
    | React(calls: seq<Call>, how: Outcome)  // a sub-step returns or panics
    | LeaveStep                              // step logs the error or recovers the panic, and returns
    | ReactDone

  function TargetOf(d: Draft): Target { Target(d.arrType, d.arrId, d.episodeId, d.path, d.downloadId) }

  function Tag(c: Claim): (nat, nat) { (c.id, c.job.attempts) }

  const START := State(EMPTY, Down, false, false, map[],
      Log(map[], multiset{}, multiset{}, multiset{}, multiset{}, {}, {}, []))

  /** The calls a crash leaves behind: the sub-step under way, cut short. */
  ghost predicate CutShort(cfg: Config, w: Worker, cut: seq<Call>) {
    if w.Reacting? && w.k < 3 && w.claim.job.draft.arrType in cfg.clients
    then exists full :: StepCalls(cfg.lib, TargetOf(w.claim.job.draft), w.k, full) && cut <= full
    else cut == []
  }

  ghost predicate Enabled(cfg: Config, s: State, e: Event) {
    var w := s.worker;
    match e
    case HookFound(h, path) => !w.Down? && h !in s.handlers && s.table.Active(path) != {}
    case HookSelect(h, d) => !w.Down? && h !in s.handlers && Actionable(d) && s.table.Active(d.path) == {}
    case HookInsert(h, at) => !w.Down? && h in s.handlers && s.handlers[h].Selected? && at.Valid()
    case HookDrop(h) => !w.Down? && h in s.handlers && s.handlers[h].Selected?
    case Retry(h, id) => !w.Down? && h !in s.handlers && id in s.table.rows && s.table.rows[id].Finished()
    case Kick(h) => !w.Down? && h in s.handlers && s.handlers[h].Committed?
    case Prune(before) => !w.Down? && before.Valid()
    case Stop => !w.Down?
    case Crash(cut) => !w.Down? && CutShort(cfg, w, cut)
    case Restart => w.Down?
    case LoopCheck => w.Top?
    case ClaimNext(at) => w.Claiming? && at.Valid()
    case ClaimFails => w.Claiming?
    case BeginWait => w.FoundEmpty? || w.ClaimFailed?
    case Wake(why) => w.Idle? && (why.ByKick? ==> s.kick) && (why.ByContext? ==> s.stopping)
    case Validated(passed) => w.Working?
    case Interrupt => w.Checked? && s.stopping
    case Proceed => w.Checked? && !s.stopping
    case Finish(result, error, at) => w.Ending? && at.Valid()
    case FinishCancelled => w.Ending? && s.stopping
    case Panic => w.Working? || w.Ended?
    case FinishPanicked(result, error, at) => w.Recovering? && at.Valid()
    case Accept => w.Ended? && w.passed
    case ReadBlocklist(on) => w.Ended? && !w.passed
    case React(calls, how) =>
      w.Reacting? && w.k < 3 && w.claim.job.draft.arrType in cfg.clients
      && StepCalls(cfg.lib, TargetOf(w.claim.job.draft), w.k, calls) && EndsIn(calls, how)
    case LeaveStep => w.Leaving?
    case ReactDone => w.Reacting? && (w.k == 3 || w.claim.job.draft.arrType !in cfg.clients) // there may be no client
  }

  /** FinishJob for the claim c; it would do nothing if the row were gone. */
  function FinishRow(t: Table, c: Claim, status: Status, result: string, error: string, at: Time): Table {
    if c.id in t.rows then Updated(t, c.id, WithOutcome(t.rows[c.id], status, result, error, at)) else t
  }

  /** The events that change the table, and how. */
  ghost function TableAfter(cfg: Config, s: State, e: Event): Table
    requires Enabled(cfg, s, e)
  {
    match e
    case HookInsert(h, at) => Inserted(s.table, s.handlers[h].draft, at)
    case Retry(h, id) => Updated(s.table, id, Waiting(s.table.rows[id]))
    case Prune(before) => Pruned(s.table, Stamp(before))
    case Restart => Released(s.table)
    case ClaimNext(at) =>
      var queued := s.table.Ids(Queued);
      if queued == {} then s.table else Updated(s.table, Least(queued), Started(s.table.rows[Least(queued)], at))
    case Finish(result, error, at) =>
      FinishRow(s.table, s.worker.claim, if s.worker.passed then Passed else Failed, result, error, at)
    case FinishPanicked(result, error, at) => FinishRow(s.table, s.worker.claim, Failed, result, error, at)
    case _ => s.table
  }

  /** The events that move the worker, and where to. */
  ghost function WorkerAfter(cfg: Config, s: State, e: Event): Worker
    requires Enabled(cfg, s, e)
  {
    var w := s.worker;
    match e
    case Crash(_) => Down
    case Restart => Top
    case LoopCheck => if s.stopping then Stopped else Claiming
    case ClaimNext(at) =>
      var queued := s.table.Ids(Queued);
      if queued == {} then FoundEmpty else Working(Claim(Least(queued), Started(s.table.rows[Least(queued)], at)))
    case ClaimFails => ClaimFailed
    case BeginWait => Idle(w.FoundEmpty?)
    case Wake(_) => Top
    case Validated(passed) => Checked(w.claim, passed)
    case Interrupt => Top
    case Proceed => Ending(w.claim, w.passed)
    case Finish(_, _, _) => Ended(w.claim, w.passed)
    case FinishCancelled => Ended(w.claim, w.passed)
    case Panic => if w.Ended? then Top else Recovering(w.claim)
    case FinishPanicked(_, _, _) => Top
    case Accept => Top
    case ReadBlocklist(on) => if on then Reacting(w.claim, 0) else Top
    case React(_, how) => Leaving(w.claim, w.k, how)
    case LeaveStep => Reacting(w.claim, w.k + 1)
    case ReactDone => Top
    case _ => w
  }

  /** The handlers that come, commit and go. */
  function HandlersAfter(s: State, e: Event): map<nat, Handler> {
    match e
    case HookFound(h, _) => s.handlers[h := Committed]
    case HookSelect(h, d) => s.handlers[h := Selected(d)]
    case HookInsert(h, _) => s.handlers[h := Committed]
    case HookDrop(h) => s.handlers - {h}
    case Retry(h, _) => s.handlers[h := Committed]
    case Kick(h) => s.handlers - {h}
    case Crash(_) => map[]
    case _ => s.handlers
  }

  /** The channel holds at most one kick; a restarted process has a new one. */
  predicate KickAfter(s: State, e: Event) {
    match e
    case Kick(_) => true
    case Wake(why) => s.kick && !why.ByKick?
    case Crash(_) => false
    case _ => s.kick
  }

  predicate StoppingAfter(s: State, e: Event) { if e.Crash? then false else s.stopping || e.Stop? }

  ghost predicate TakesJob(s: State, e: Event, id: nat) {
    e.ClaimNext? && s.table.Ids(Queued) != {} && id == Least(s.table.Ids(Queued))
  }

  function NewDrafts(s: State, e: Event): map<nat, Draft> {
    if e.HookInsert? && e.h in s.handlers && s.handlers[e.h].Selected?
    then map[s.table.nextId := s.handlers[e.h].draft]
    else map[]
  }

  ghost function NewClaims(s: State, e: Event): multiset<nat> {
    if e.ClaimNext? && s.table.Ids(Queued) != {} then multiset{Least(s.table.Ids(Queued))} else multiset{}
  }

  function NewResets(s: State, e: Event): multiset<nat> {
    if e.Restart? then multiset(s.table.Ids(Running)) else multiset{}
  }

  predicate Finishes(s: State, e: Event) { (e.Finish? || e.FinishPanicked?) && s.worker.Holds() }

  /** A validation that failed under a live context. */
  function NewFailures(s: State, e: Event): set<(nat, nat)> {
    if e.Proceed? && s.worker.Checked? && !s.worker.passed then {Tag(s.worker.claim)} else {}
  }

  /** An auto-blocklist read that returned true. */
  function NewApprovals(s: State, e: Event): set<(nat, nat)> {
    if e == ReadBlocklist(true) && s.worker.Ended? then {Tag(s.worker.claim)} else {}
  }

  function NewReactions(s: State, e: Event): seq<Reaction> {
    var w := s.worker;
    if !w.Reacting? then []
    else if e.React? then [Reaction(w.claim.id, w.claim.job.attempts, TargetOf(w.claim.job.draft), w.k, e.calls)]
    else if e.Crash? && e.cut != []
        then [Reaction(w.claim.id, w.claim.job.attempts, TargetOf(w.claim.job.draft), w.k, e.cut)]
    else []
  }

  /** The log only grows. */
  ghost function LogAfter(s: State, e: Event): Log {
    Log(s.log.drafts + NewDrafts(s, e),
        s.log.claims + NewClaims(s, e),
        s.log.resets + NewResets(s, e),
        s.log.ended + (if Finishes(s, e) then multiset{s.worker.claim.id} else multiset{}),
        s.log.finishes + (if Finishes(s, e) then multiset{Tag(s.worker.claim)} else multiset{}),
        s.log.failed + NewFailures(s, e),
        s.log.approved + NewApprovals(s, e),
        s.log.reactions + NewReactions(s, e))
  }

  ghost function Apply(cfg: Config, s: State, e: Event): State
    requires Enabled(cfg, s, e)
  {
    State(TableAfter(cfg, s, e), WorkerAfter(cfg, s, e), KickAfter(s, e), StoppingAfter(s, e), HandlersAfter(s, e),
        LogAfter(s, e))
  }

  /** states[0] is a fresh database; each event leads from one state to the next. */
  ghost predicate IsRun(cfg: Config, states: seq<State>, events: seq<Event>) {
    && |states| == |events| + 1 && states[0] == START
    && forall i :: 0 <= i < |events| ==>
        Enabled(cfg, states[i], events[i]) && states[i + 1] == Apply(cfg, states[i], events[i])
  }

  // ---- the invariant ---------------------------------------------------------------------

  ghost predicate RowFacts(t: Table, log: Log, id: nat) {
    id in t.rows ==> id in log.drafts && t.rows[id].draft == log.drafts[id] && t.rows[id].attempts == log.claims[id]
  }

  /** Attempts count claims, drafts never change, and ids not yet used have no past. */
  ghost predicate RowsOk(s: State) {
    && TableOk(s.table)
    && (forall id :: RowFacts(s.table, s.log, id))
    && (forall id :: id in s.log.drafts ==> id < s.table.nextId && s.log.drafts[id].path != "")
    && (forall id :: id in s.log.claims ==> id < s.table.nextId)
    && (forall h :: h in s.handlers && s.handlers[h].Selected? ==> Actionable(s.handlers[h].draft))
  }

  /** Neither busy, nor down or stopped, nor on the way there after a shutdown cut a job short. */
  predicate Quiet(s: State) {
    var w := s.worker;
    !w.Busy() && !w.Down? && !w.Stopped? && !(s.stopping && (w.Top? || w.Ended? || w.InReaction()))
  }

  /** Running rows: the worker's own while it is busy; left over only by a shutdown or a crash. */
  ghost predicate RunningOk(s: State) {
    var w := s.worker;
    && (forall i, j :: s.table.Is(i, Running) && s.table.Is(j, Running) ==> i == j)
    && (w.Busy() ==>
          w.claim.id in s.table.rows && s.table.rows[w.claim.id] == w.claim.job && w.claim.job.status == Running)
    && (Quiet(s) ==> forall i :: !s.table.Is(i, Running))
  }

  /** The worker's copy of a job stays its latest claim. */
  ghost predicate HeldOk(s: State) {
    s.worker.Holds() ==>
      var c := s.worker.claim;
      && c.id in s.log.drafts && c.job.draft == s.log.drafts[c.id]
      && c.job.attempts == s.log.claims[c.id] && c.job.attempts > 0
  }

  ghost predicate Balanced(t: Table, log: Log, id: nat) {
    log.claims[id] == log.ended[id] + log.resets[id] + if t.Is(id, Running) then 1 else 0
  }

  /** Each claim ended in one FinishJob, or was undone by a reset, or is still running. */
  ghost predicate CountsOk(s: State) {
    && (forall id :: Balanced(s.table, s.log, id))
    && (forall tag :: s.log.finishes[tag] <= 1)
    && (forall tag :: tag in s.log.finishes ==> tag.1 <= s.log.claims[tag.0])
    && (s.worker.Busy() ==> Tag(s.worker.claim) !in s.log.finishes)
  }

  ghost predicate KickDue(handlers: map<nat, Handler>) { exists h :: h in handlers && handlers[h].Committed? }

  predicate SawEmpty(w: Worker) { w.FoundEmpty? || (w.Idle? && w.empty) }

  /** A worker that has seen an empty queue will hear of every job that has been committed since. */
  ghost predicate WakeOk(s: State) {
    SawEmpty(s.worker) && (exists id :: s.table.Is(id, Queued)) ==> s.kick || KickDue(s.handlers)
  }

  /** What a logged sub-step may be: the reaction to an approved failure, with the calls of that sub-step. */
  ghost predicate ReactionOk(cfg: Config, log: Log, r: Reaction) {
    && r.k < 3 && (r.id, r.attempt) in log.approved
    && r.id in log.drafts && r.target == TargetOf(log.drafts[r.id])
    && exists full :: StepCalls(cfg.lib, r.target, r.k, full) && r.calls <= full
  }

  ghost predicate Done(log: Log, tag: (nat, nat), k: nat) {
    exists p :: 0 <= p < |log.reactions| && (log.reactions[p].id, log.reactions[p].attempt) == tag
        && log.reactions[p].k == k
  }

  /** What the tag of the job it holds says about where the worker is. */
  ghost predicate TagsOf(w: Worker, log: Log) {
    && (w.Holds() ==> (Tag(w.claim) in log.approved <==> w.InReaction()))
    && (w.Holds() ==> (Tag(w.claim) in log.failed <==> w.InReaction() || ((w.Ending? || w.Ended?) && !w.passed)))
  }

  /** Only failures that ended validation undisturbed are approved for a reaction, at ReadBlocklist. */
  ghost predicate ApprovalsOk(s: State) {
    var log, w := s.log, s.worker;
    && log.approved <= log.failed
    && (forall tag :: tag in log.failed ==> tag.1 <= log.claims[tag.0])
    && TagsOf(w, log)
  }

  ghost predicate ReactionsOk(cfg: Config, log: Log) {
    && (forall p :: 0 <= p < |log.reactions| ==> ReactionOk(cfg, log, log.reactions[p]))
    && (forall p, q :: 0 <= p < q < |log.reactions| ==>
          (log.reactions[p].id, log.reactions[p].attempt, log.reactions[p].k)
          != (log.reactions[q].id, log.reactions[q].attempt, log.reactions[q].k))
  }

  /** The sub-steps of a reaction come one after the other, none left out. */
  ghost predicate ProgressOk(s: State) {
    var w := s.worker;
    w.InReaction() ==>
      w.Made() <= 3 && forall k: nat :: k < 3 ==> (Done(s.log, Tag(w.claim), k) <==> k < w.Made())
  }

  ghost predicate Inv(cfg: Config, s: State) {
    RowsOk(s) && RunningOk(s) && HeldOk(s) && CountsOk(s) && WakeOk(s) && ApprovalsOk(s) && ReactionsOk(cfg, s.log)
        && ProgressOk(s)
  }

  const NEVER := Time(0, 0, 0, 0, 0, 0, 0)

  lemma RowsParts(s: State)
    requires RowsOk(s)
    ensures TableOk(s.table)
    ensures forall h :: h in s.handlers && s.handlers[h].Selected? ==> Actionable(s.handlers[h].draft)
  {
  }

  /** The table an event leaves behind. */
  lemma StepTable(cfg: Config, s: State, e: Event)
    requires RowsOk(s) && RunningOk(s) && Enabled(cfg, s, e)
    ensures TableOk(Apply(cfg, s, e).table)
  {
    hide StepCalls, CutShort, Stamp, RowOk, RowsOk, TableOk, WorkerAfter, HandlersAfter, LogAfter, KickAfter;
    RowsParts(s);
    match e
    case HookInsert(h, at) =>
      InsertKeepsTable(s.table, s.handlers[h].draft, at);
    case Retry(h, id) => RewriteKeepsTable(s.table, id, Queued, "", "", NEVER);
    case Prune(before) => PruneKeepsTable(s.table, Stamp(before));
    case Restart => ReleaseKeepsTable(s.table);
    case ClaimNext(at) =>
      var queued := s.table.Ids(Queued);
      if queued != {} { RewriteKeepsTable(s.table, Least(queued), Queued, "", "", at); }
    case Finish(result, error, at) =>
      RewriteKeepsTable(s.table, s.worker.claim.id, if s.worker.passed then Passed else Failed, result, error, at);
    case FinishPanicked(result, error, at) =>
      RewriteKeepsTable(s.table, s.worker.claim.id, Failed, result, error, at);
    case _ =>
  }

  /** Only a claim makes a row running; only FinishJob and a reset end that. */
  ghost predicate RunsAfter(s: State, e: Event, id: nat) {
    match e
    case Restart => false
    case Finish(_, _, _) => s.table.Is(id, Running) && s.worker.Holds() && id != s.worker.claim.id
    case FinishPanicked(_, _, _) => s.table.Is(id, Running) && s.worker.Holds() && id != s.worker.claim.id
    case ClaimNext(_) =>
      s.table.Is(id, Running) || (s.table.Ids(Queued) != {} && id == Least(s.table.Ids(Queued)))
    case _ => s.table.Is(id, Running)
  }

  lemma StepRuns(cfg: Config, s: State, e: Event, id: nat)
    requires RowsOk(s) && RunningOk(s) && Enabled(cfg, s, e)
    ensures var t := Apply(cfg, s, e).table;
      && (t.Is(id, Running) <==> RunsAfter(s, e, id))
      && (t.Is(id, Running) && s.table.Is(id, Running) && !e.ClaimNext? ==> t.rows[id] == s.table.rows[id])
  {
    hide WorkerAfter, HandlersAfter, LogAfter, KickAfter, RowsOk, TableOk, Inserted, Updated, Released, Pruned,
        Stamp, StepCalls, CutShort;
    RowsParts(s);
    FreshId(s.table);
    if e.Finish? || e.FinishPanicked? {
      var row := FinishedRow(cfg, s, e);
      UpdateStatus(s.table, s.worker.claim.id, row, id, Running);
    } else if e.ClaimNext? {
      RunsClaimed(cfg, s, e, id);
    } else if e.HookInsert? {
      InsertStatus(s.table, s.handlers[e.h].draft, e.at, id, Running);
    } else if e.Retry? {
      UpdateStatus(s.table, e.id, Waiting(s.table.rows[e.id]), id, Running);
    } else if e.Prune? {
      PruneStatus(s.table, Stamp(e.before), id, Running);
    } else if e.Restart? {
      ReleaseStatus(s.table, id);
    } else {
      SameTable(cfg, s, e);
    }
  }

  lemma RunsClaimed(cfg: Config, s: State, e: Event, id: nat)
    requires Enabled(cfg, s, e) && e.ClaimNext?
    ensures Apply(cfg, s, e).table.Is(id, Running) <==> RunsAfter(s, e, id)
  {
    hide WorkerAfter, HandlersAfter, LogAfter, KickAfter, Stamp, StepCalls, CutShort;
    var queued := s.table.Ids(Queued);
    if queued != {} { UpdateStatus(s.table, Least(queued), Started(s.table.rows[Least(queued)], e.at), id, Running); }
  }

  /** How the worker comes to be quiet. */
  lemma QuietAfter(cfg: Config, s: State, e: Event)
    requires Enabled(cfg, s, e) && Quiet(Apply(cfg, s, e))
    ensures if e.ClaimNext? then Quiet(s) && s.table.Ids(Queued) == {}
            else Quiet(s) || e.Restart? || ((e.Finish? || e.FinishPanicked?) && s.worker.Busy())
  {
    hide StepCalls, CutShort, Stamp, Actionable;
  }

  lemma StepRunning(cfg: Config, s: State, e: Event)
    requires RowsOk(s) && RunningOk(s) && Enabled(cfg, s, e)
    ensures RunningOk(Apply(cfg, s, e))
  {
    hide WorkerAfter, HandlersAfter, LogAfter, KickAfter, TableAfter, Enabled, TableOk, RowsOk, Table.Is, Quiet;
    var t := Apply(cfg, s, e).table;
    forall id
      ensures t.Is(id, Running) <==> RunsAfter(s, e, id)
    {
      StepRuns(cfg, s, e, id);
    }
    StepBusy(cfg, s, e);
    if Quiet(Apply(cfg, s, e)) { QuietAfter(cfg, s, e); }
    WhoClaims(cfg, s, e);
  }

  /** Claims are made while nothing runs. */
  lemma WhoClaims(cfg: Config, s: State, e: Event)
    requires RunningOk(s) && Enabled(cfg, s, e)
    ensures e.ClaimNext? ==> forall i :: !s.table.Is(i, Running)
  {
  }

  lemma StepBusy(cfg: Config, s: State, e: Event)
    requires RowsOk(s) && RunningOk(s) && Enabled(cfg, s, e)
    ensures var w := Apply(cfg, s, e).worker;
      w.Busy() ==>
        && w.claim.id in Apply(cfg, s, e).table.rows && Apply(cfg, s, e).table.rows[w.claim.id] == w.claim.job
        && w.claim.job.status == Running
    ensures s.worker.Busy() ==> s.table.Is(s.worker.claim.id, Running)
  {
    if e.ClaimNext? {
      hide StepCalls, CutShort, Stamp, Actionable, TableOk, RowsOk;
    } else {
      StillBusy(cfg, s, e);
      if s.worker.Busy() { StepRuns(cfg, s, e, s.worker.claim.id); }
      hide Enabled, StepCalls, CutShort, Stamp, Actionable, TableOk, RowsOk;
    }
  }

  lemma StillBusy(cfg: Config, s: State, e: Event)
    requires Enabled(cfg, s, e) && !e.ClaimNext?
    ensures var w := Apply(cfg, s, e).worker;
      w.Busy() ==> s.worker.Busy() && w.claim == s.worker.claim && !e.Finish? && !e.FinishPanicked? && !e.Restart?
  {
    hide StepCalls, CutShort, Stamp, Actionable;
  }

  /** Logged drafts stay, and only a claim counts as one. */
  lemma StepPast(cfg: Config, s: State, e: Event, id: nat)
    requires Enabled(cfg, s, e)
    ensures var log := Apply(cfg, s, e).log;
      && (id in s.log.drafts && id != s.table.nextId ==> id in log.drafts && log.drafts[id] == s.log.drafts[id])
      && log.claims[id] == s.log.claims[id] + if TakesJob(s, e, id) then 1 else 0
  {
    hide StepCalls, CutShort, Stamp, Actionable, TableOk, RowsOk, RunningOk, Updated, WorkerAfter, HandlersAfter,
        TableAfter, KickAfter;
  }

  lemma ClaimsGrow(cfg: Config, s: State, e: Event)
    requires Enabled(cfg, s, e)
    ensures forall id :: s.log.claims[id] <= Apply(cfg, s, e).log.claims[id]
  {
    hide Enabled, TableAfter, WorkerAfter, HandlersAfter, KickAfter, LogAfter, TakesJob;
    forall id
      ensures s.log.claims[id] <= Apply(cfg, s, e).log.claims[id]
    {
      StepPast(cfg, s, e, id);
    }
  }

  /** How the row of id changes: drafts never, attempts only by a claim; only a prune takes it away. */
  lemma StepRow(cfg: Config, s: State, e: Event, id: nat)
    requires TableOk(s.table) && RunningOk(s) && Enabled(cfg, s, e)
    ensures var t := Apply(cfg, s, e).table;
      && (id in t.rows && id in s.table.rows ==>
            && t.rows[id].draft == s.table.rows[id].draft
            && t.rows[id].attempts == s.table.rows[id].attempts + if TakesJob(s, e, id) then 1 else 0)
      && (id in t.rows && id !in s.table.rows ==>
            && e.HookInsert? && id == s.table.nextId
            && t.rows[id].draft == s.handlers[e.h].draft && t.rows[id].attempts == 0)
      && (id !in t.rows && id in s.table.rows ==> e.Prune? && Prunable(s.table.rows[id], Stamp(e.before)))
  {
    hide WorkerAfter, HandlersAfter, LogAfter, KickAfter, RowOk, Inserted, Updated, Released, Pruned, Stamp,
        StepCalls, CutShort;
    FreshId(s.table);
    if e.Finish? || e.FinishPanicked? {
      var row := FinishedRow(cfg, s, e);
      UpdateRows(s.table, s.worker.claim.id, row, id);
    } else if e.ClaimNext? {
      RowClaimed(cfg, s, e, id);
    } else if e.HookInsert? {
      InsertRows(s.table, s.handlers[e.h].draft, e.at, id);
    } else if e.Retry? {
      UpdateRows(s.table, e.id, Waiting(s.table.rows[e.id]), id);
    } else if e.Prune? {
      PruneRows(s.table, Stamp(e.before), id);
    } else if e.Restart? {
      ReleaseRows(s.table, id);
    } else {
      SameTable(cfg, s, e);
    }
  }

  lemma RowClaimed(cfg: Config, s: State, e: Event, id: nat)
    requires Enabled(cfg, s, e) && e.ClaimNext?
    ensures var t := Apply(cfg, s, e).table;
      && (id in t.rows <==> id in s.table.rows)
      && (id in t.rows ==>
            && t.rows[id].draft == s.table.rows[id].draft
            && t.rows[id].attempts == s.table.rows[id].attempts + if TakesJob(s, e, id) then 1 else 0)
  {
    hide WorkerAfter, HandlersAfter, LogAfter, KickAfter, Stamp, StepCalls, CutShort;
    var queued := s.table.Ids(Queued);
    if queued != {} {
      LeastIs(s.table, Queued);
      UpdateRows(s.table, Least(queued), Started(s.table.rows[Least(queued)], e.at), id);
    }
  }

  lemma StepRowFacts(cfg: Config, s: State, e: Event, id: nat)
    requires RowsOk(s) && RunningOk(s) && Enabled(cfg, s, e)
    ensures RowFacts(Apply(cfg, s, e).table, Apply(cfg, s, e).log, id)
  {
    hide WorkerAfter, HandlersAfter, KickAfter, TableAfter;
    StepRow(cfg, s, e, id);
    StepPast(cfg, s, e, id);
    FreshId(s.table);
    assert RowFacts(s.table, s.log, id);
    assert s.table.nextId !in s.log.claims && s.table.nextId !in s.table.rows;
    hide StepCalls, CutShort, Stamp, Actionable, TableOk, RowsOk, RunningOk;
  }

  lemma StepRows(cfg: Config, s: State, e: Event)
    requires RowsOk(s) && RunningOk(s) && Enabled(cfg, s, e)
    ensures RowsOk(Apply(cfg, s, e))
  {
    StepTable(cfg, s, e);
    forall id
      ensures RowFacts(Apply(cfg, s, e).table, Apply(cfg, s, e).log, id)
    {
      StepRowFacts(cfg, s, e, id);
    }
    StepIds(cfg, s, e);
    StepHandlers(cfg, s, e);
    hide TableOk, StepCalls, CutShort, Actionable;
  }

  lemma NextIdAfter(cfg: Config, s: State, e: Event)
    requires Enabled(cfg, s, e)
    ensures Apply(cfg, s, e).table.nextId == s.table.nextId + if e.HookInsert? then 1 else 0
    ensures e.HookInsert? ==> e.h in s.handlers && s.handlers[e.h].Selected?
  {
    hide WorkerAfter, HandlersAfter, LogAfter, KickAfter, Stamp, NewJob, StepCalls, CutShort;
  }

  lemma StepIds(cfg: Config, s: State, e: Event)
    requires RowsOk(s) && RunningOk(s) && Enabled(cfg, s, e)
    ensures var s' := Apply(cfg, s, e);
      && s.table.nextId <= s'.table.nextId
      && (forall id :: id in s'.log.drafts ==> id < s'.table.nextId && s'.log.drafts[id].path != "")
      && (forall id :: id in s'.log.claims ==> id < s'.table.nextId)
  {
    NextIdAfter(cfg, s, e);
    if s.table.Ids(Queued) != {} {
      var m := Least(s.table.Ids(Queued));
      assert m in s.table.rows;
    }
    hide Enabled, RowOk, RunningOk, TableAfter, WorkerAfter, HandlersAfter, KickAfter, Table.Ids;
  }

  lemma StepHandlers(cfg: Config, s: State, e: Event)
    requires RowsOk(s) && Enabled(cfg, s, e)
    ensures var hs := Apply(cfg, s, e).handlers;
      forall h :: h in hs && hs[h].Selected? ==> Actionable(hs[h].draft)
  {
    hide StepCalls, CutShort, Stamp, RowOk, Actionable, TableOk, Inserted, Released, Pruned, Updated;
  }

  /** The worker keeps the job it holds until it claims another. */
  lemma StepHolds(cfg: Config, s: State, e: Event)
    requires Enabled(cfg, s, e)
    ensures var w := Apply(cfg, s, e).worker;
      w.Holds() ==>
        if e.ClaimNext? then
          && s.table.Ids(Queued) != {} && w.claim.id == Least(s.table.Ids(Queued))
          && w.claim.job.draft == s.table.rows[w.claim.id].draft
              && w.claim.job.attempts == s.table.rows[w.claim.id].attempts + 1
          && w.Working?
        else s.worker.Holds() && w.claim == s.worker.claim && (w.Busy() ==> s.worker.Busy())
  {
    hide StepCalls, CutShort, Stamp, Actionable, Updated, HandlersAfter, LogAfter, TableAfter, KickAfter;
  }

  lemma StepHeld(cfg: Config, s: State, e: Event)
    requires RowsOk(s) && RunningOk(s) && HeldOk(s) && Enabled(cfg, s, e)
    ensures HeldOk(Apply(cfg, s, e))
  {
    StepHolds(cfg, s, e);
    var w := Apply(cfg, s, e).worker;
    if w.Holds() {
      StepPast(cfg, s, e, w.claim.id);
      assert RowFacts(s.table, s.log, w.claim.id);
      assert w.claim.id in s.log.drafts ==> w.claim.id < s.table.nextId;
    }
    hide StepCalls, CutShort, Stamp, Actionable, TableOk, RunningOk, RowsOk;
  }

  // ---- the counters ----------------------------------------------------------------------

  lemma FinishIsBusy(cfg: Config, s: State, e: Event)
    requires Enabled(cfg, s, e) && Finishes(s, e)
    ensures s.worker.Busy() && !Apply(cfg, s, e).worker.Busy()
  {
    hide TableAfter, HandlersAfter, LogAfter;
  }

  lemma CountsAfter(s: State, e: Event, id: nat)
    ensures var log := LogAfter(s, e);
      && log.claims[id] == s.log.claims[id] + (if TakesJob(s, e, id) then 1 else 0)
      && log.ended[id] == s.log.ended[id] + (if Finishes(s, e) && s.worker.claim.id == id then 1 else 0)
      && log.resets[id] == s.log.resets[id] + (if e.Restart? && s.table.Is(id, Running) then 1 else 0)
  {
    hide NewDrafts, NewFailures, NewApprovals, NewReactions;
    IdsAre(s.table, Running, id);
  }

  lemma StepBalance(cfg: Config, s: State, e: Event, id: nat)
    requires RowsOk(s) && RunningOk(s) && Balanced(s.table, s.log, id) && Enabled(cfg, s, e)
    ensures Balanced(Apply(cfg, s, e).table, Apply(cfg, s, e).log, id)
  {
    hide WorkerAfter, HandlersAfter, TableAfter, KickAfter, LogAfter, Table.Ids, Table.Is, RowsOk;
    CountsAfter(s, e, id);
    StepRuns(cfg, s, e, id);
    StepBusy(cfg, s, e);
    if Finishes(s, e) { FinishIsBusy(cfg, s, e); }
    WhoClaims(cfg, s, e);
    hide Enabled, RunningOk;
  }

  lemma StepFinishes(cfg: Config, s: State, e: Event)
    requires RowsOk(s) && RunningOk(s) && HeldOk(s) && CountsOk(s) && Enabled(cfg, s, e)
    ensures var s' := Apply(cfg, s, e);
      && (forall tag :: s'.log.finishes[tag] <= 1)
      && (forall tag :: tag in s'.log.finishes ==> tag.1 <= s'.log.claims[tag.0])
      && (s'.worker.Busy() ==> Tag(s'.worker.claim) !in s'.log.finishes)
  {
    hide WorkerAfter, HandlersAfter, TableAfter, KickAfter;
    if Finishes(s, e) { FinishIsBusy(cfg, s, e); }
    StepHolds(cfg, s, e);
    var w := Apply(cfg, s, e).worker;
    ClaimsGrow(cfg, s, e);
    if w.Busy() { assert e.ClaimNext? ==> RowFacts(s.table, s.log, w.claim.id); }
    hide StepCalls, CutShort, Stamp, Actionable, TableOk, RunningOk, RowsOk, Enabled;
  }

  lemma StepCounts(cfg: Config, s: State, e: Event)
    requires RowsOk(s) && RunningOk(s) && HeldOk(s) && CountsOk(s) && Enabled(cfg, s, e)
    ensures CountsOk(Apply(cfg, s, e))
  {
    forall id
      ensures Balanced(Apply(cfg, s, e).table, Apply(cfg, s, e).log, id)
    {
      StepBalance(cfg, s, e, id);
    }
    StepFinishes(cfg, s, e);
    hide StepCalls, CutShort, Stamp, Actionable, TableOk, RunningOk, RowsOk;
  }

  // ---- the kick --------------------------------------------------------------------------

  /** A kick is due or given after an event that queued a job, and does not get lost before the worker wakes. */
  lemma StepKick(cfg: Config, s: State, e: Event)
    requires Enabled(cfg, s, e) && SawEmpty(Apply(cfg, s, e).worker)
    ensures var s' := Apply(cfg, s, e);
      && ((s.kick || KickDue(s.handlers)) && SawEmpty(s.worker) ==> s'.kick || KickDue(s'.handlers))
      && (e.HookInsert? || e.Retry? ==> KickDue(s'.handlers))
      && (SawEmpty(s.worker) || (e.ClaimNext? && s.table.Ids(Queued) == {}))
  {
    var s' := Apply(cfg, s, e);
    hide StepCalls, CutShort, Stamp, Actionable, Table.Ids, TableAfter, LogAfter, StoppingAfter;
    if e.HookInsert? || e.Retry? || e.HookFound? {
      assert e.h in s'.handlers && s'.handlers[e.h].Committed?;
    } else if KickDue(s.handlers) {
      var h :| h in s.handlers && s.handlers[h].Committed?;
      assert SawEmpty(s.worker) && !e.Kick? ==> h in s'.handlers && s'.handlers[h] == s.handlers[h];
    }
  }

  /** Only an insert and a retry add to an empty queue while the worker sits there. */
  lemma StepQueued(cfg: Config, s: State, e: Event, id: nat)
    requires TableOk(s.table) && Enabled(cfg, s, e)
    requires SawEmpty(Apply(cfg, s, e).worker) && Apply(cfg, s, e).table.Is(id, Queued)
    ensures e.HookInsert? || e.Retry? || (s.table.Is(id, Queued) && !e.ClaimNext?)
  {
    IdsAre(s.table, Queued, id);
    hide StepCalls, CutShort, Stamp, Actionable, TableOk, Inserted, Updated, Released, Table.Ids;
  }

  lemma StepWake(cfg: Config, s: State, e: Event)
    requires TableOk(s.table) && WakeOk(s) && Enabled(cfg, s, e)
    ensures WakeOk(Apply(cfg, s, e))
  {
    var s' := Apply(cfg, s, e);
    hide StepCalls, CutShort, Stamp, Actionable, TableOk, Table.Is, KickDue, SawEmpty;
    if SawEmpty(s'.worker) && exists id :: s'.table.Is(id, Queued) {
      var id :| s'.table.Is(id, Queued);
      StepQueued(cfg, s, e, id);
      StepKick(cfg, s, e);
    }
  }

  // ---- the reaction ----------------------------------------------------------------------

  /** Where in the reaction an event leaves the worker. */
  lemma ReactingAfter(cfg: Config, s: State, e: Event)
    requires Enabled(cfg, s, e)
    ensures var w, w' := s.worker, Apply(cfg, s, e).worker;
      && (w'.InReaction() ==>
            if w.InReaction()
            then && w'.claim == w.claim && w'.Made() == w.Made() + (if e.React? then 1 else 0)
                 && (e.React? ==> w.Reacting? && w.k < 3) && !e.Crash?
            else e.ReadBlocklist? && e.on && w.Ended? && !w.passed && w' == Reacting(w.claim, 0))
      && (w'.Holds() && !w'.InReaction() && !e.ClaimNext? ==>
            && !w.InReaction() && !(e.ReadBlocklist? && e.on)
            && ((w'.Ending? || w'.Ended?) && !w'.passed <==>
                ((w.Ending? || w.Ended?) && !w.passed) || (e.Proceed? && !w.passed)))
  {
    hide StepCalls, Stamp, Actionable, CutShort, TableAfter, HandlersAfter, LogAfter, KickAfter;
  }

  lemma StepTags(cfg: Config, s: State, e: Event)
    requires RowsOk(s) && HeldOk(s) && ApprovalsOk(s) && Enabled(cfg, s, e)
    ensures var log := Apply(cfg, s, e).log;
      log.approved <= log.failed && forall tag :: tag in log.failed ==> tag.1 <= log.claims[tag.0]
  {
    hide WorkerAfter, HandlersAfter, TableAfter, KickAfter, Enabled, TableOk, RunningOk, RowsOk, NewDrafts, NewClaims,
        NewResets, NewReactions;
    WhenRead(cfg, s, e);
    ClaimsGrow(cfg, s, e);
  }

  lemma ClaimTags(cfg: Config, s: State, e: Event)
    requires RowsOk(s) && ApprovalsOk(s) && Enabled(cfg, s, e) && e.ClaimNext?
    ensures TagsOf(Apply(cfg, s, e).worker, Apply(cfg, s, e).log)
  {
    hide TableAfter, WorkerAfter, HandlersAfter, RowsOk, Enabled, NewDrafts, NewClaims, NewResets, NewReactions;
    if Apply(cfg, s, e).worker.Holds() {
      StepTag(cfg, s, e);
      StepHolds(cfg, s, e);
    }
  }

  lemma HeldTags(cfg: Config, s: State, e: Event)
    requires ApprovalsOk(s) && Enabled(cfg, s, e) && !e.ClaimNext?
    ensures TagsOf(Apply(cfg, s, e).worker, Apply(cfg, s, e).log)
  {
    hide TableAfter, WorkerAfter, HandlersAfter, Enabled, NewDrafts, NewClaims, NewResets, NewReactions;
    if Apply(cfg, s, e).worker.Holds() {
      WhenRead(cfg, s, e);
      ReactingAfter(cfg, s, e);
      StepHolds(cfg, s, e);
    }
  }

  lemma StepApprovals(cfg: Config, s: State, e: Event)
    requires RowsOk(s) && HeldOk(s) && ApprovalsOk(s) && Enabled(cfg, s, e)
    ensures ApprovalsOk(Apply(cfg, s, e))
  {
    hide TableAfter, WorkerAfter, HandlersAfter, LogAfter, RowsOk, HeldOk, Enabled;
    StepTags(cfg, s, e);
    if e.ClaimNext? { ClaimTags(cfg, s, e); } else { HeldTags(cfg, s, e); }
  }

  /** A new claim's tag is above every tag that failed. */
  lemma StepTag(cfg: Config, s: State, e: Event)
    requires RowsOk(s) && Enabled(cfg, s, e) && Apply(cfg, s, e).worker.Holds()
    ensures var c := Apply(cfg, s, e).worker.claim;
      e.ClaimNext? ==> c.job.attempts == s.log.claims[c.id] + 1
    ensures (e.Proceed? || e.ReadBlocklist?) ==> s.worker.Holds()
  {
    StepHolds(cfg, s, e);
    assert RowFacts(s.table, s.log, Apply(cfg, s, e).worker.claim.id);
    hide StepCalls, CutShort, Stamp, Actionable, TableOk, RunningOk, RowsOk;
  }

  /** A logged reaction stays in order as the log grows. */
  lemma ReactionKept(cfg: Config, s: State, e: Event, r: Reaction)
    requires RowsOk(s) && Enabled(cfg, s, e) && ReactionOk(cfg, s.log, r)
    ensures ReactionOk(cfg, Apply(cfg, s, e).log, r)
  {
    StepPast(cfg, s, e, r.id);
    assert r.id < s.table.nextId;
    hide StepCalls, Stamp, Actionable, TableOk, RunningOk, RowsOk, Enabled, TargetOf;
  }

  /** The reaction an event logs, if it logs one, is in order and new. */
  lemma ReactionAdded(cfg: Config, s: State, e: Event, r: Reaction)
    requires RowsOk(s) && HeldOk(s) && ApprovalsOk(s) && ProgressOk(s) && Enabled(cfg, s, e)
    requires Apply(cfg, s, e).log.reactions == s.log.reactions + [r]
    ensures ReactionOk(cfg, s.log, r)
    ensures s.worker.Reacting? && (r.id, r.attempt) == Tag(s.worker.claim) && r.k == s.worker.k < 3
    ensures !Done(s.log, (r.id, r.attempt), r.k)
  {
    hide StepCalls, Stamp, Actionable, TableOk, RunningOk, RowsOk, Done, TargetOf;
    assert e.React? || e.Crash?;
    assert s.log.reactions + [r] != s.log.reactions;
    var w := s.worker;
    assert w.Reacting? && r == Reaction(w.claim.id, w.claim.job.attempts, TargetOf(w.claim.job.draft), w.k,
        if e.React? then e.calls else e.cut) by {
      assert (s.log.reactions + [r])[|s.log.reactions|] == r;
    }
    if e.React? { assert StepCalls(cfg.lib, r.target, r.k, e.calls) && r.calls <= e.calls; }
  }

  /** An event of the reaction logs the sub-step it makes; only a crash logs another. */
  lemma ReactionsAfter(cfg: Config, s: State, e: Event)
    requires Enabled(cfg, s, e)
    ensures e.React? ==> s.worker.Reacting?
    ensures var w, rs, rs' := s.worker, s.log.reactions, Apply(cfg, s, e).log.reactions;
      && rs <= rs' && |rs'| <= |rs| + 1
      && (!e.React? && !e.Crash? ==> rs' == rs)
      && (e.React? ==>
            rs' == rs + [Reaction(w.claim.id, w.claim.job.attempts, TargetOf(w.claim.job.draft), w.k, e.calls)])
  {
    hide StepCalls, Stamp, Actionable, CutShort, TargetOf, TableAfter, WorkerAfter, HandlersAfter, KickAfter;
  }

  lemma StepReactions(cfg: Config, s: State, e: Event)
    requires RowsOk(s) && HeldOk(s) && ApprovalsOk(s) && ReactionsOk(cfg, s.log) && ProgressOk(s) && Enabled(cfg, s, e)
    ensures ReactionsOk(cfg, Apply(cfg, s, e).log)
  {
    hide TableOk, RunningOk, RowsOk, HeldOk, ApprovalsOk, ProgressOk, Enabled, TargetOf, ReactionOk, TableAfter,
        WorkerAfter, HandlersAfter, LogAfter, KickAfter;
    var rs, rs' := s.log.reactions, Apply(cfg, s, e).log.reactions;
    ReactionsAfter(cfg, s, e);
    if rs' != rs {
      var r := rs'[|rs|];
      assert rs' == rs + [r];
      ReactionAdded(cfg, s, e, r);
      ReactionKept(cfg, s, e, r);
    }
    forall p | 0 <= p < |rs|
      ensures ReactionOk(cfg, Apply(cfg, s, e).log, rs[p])
    {
      ReactionKept(cfg, s, e, rs[p]);
    }
  }

  lemma StepProgress(cfg: Config, s: State, e: Event)
    requires RowsOk(s) && HeldOk(s) && ApprovalsOk(s) && ReactionsOk(cfg, s.log) && ProgressOk(s) && Enabled(cfg, s, e)
    ensures ProgressOk(Apply(cfg, s, e))
  {
    hide TableOk, RunningOk, RowsOk, HeldOk, Enabled, TargetOf, TableAfter, WorkerAfter, HandlersAfter, LogAfter,
        KickAfter, Done, ReactionsOk;
    ReactingAfter(cfg, s, e);
    var w' := Apply(cfg, s, e).worker;
    if w'.InReaction() {
      ReactionsAfter(cfg, s, e);
      forall k: nat | k < 3
        ensures Done(Apply(cfg, s, e).log, Tag(w'.claim), k) <==> k < w'.Made()
      {
        DoneAfter(s.log, Apply(cfg, s, e).log, Tag(w'.claim), k);
        if !s.worker.InReaction() { NotApprovedNotDone(cfg, s.log, Tag(w'.claim), k); }
      }
    }
  }

  lemma DoneAfter(log: Log, log': Log, tag: (nat, nat), k: nat)
    requires log.reactions <= log'.reactions && |log'.reactions| <= |log.reactions| + 1
    ensures var n := |log.reactions|;
      Done(log', tag, k) <==>
      (Done(log, tag, k)
       || (|log'.reactions| > n && (log'.reactions[n].id, log'.reactions[n].attempt) == tag
           && log'.reactions[n].k == k))
  {
    if Done(log, tag, k) {
      var p :| 0 <= p < |log.reactions| && (log.reactions[p].id, log.reactions[p].attempt) == tag
          && log.reactions[p].k == k;
      assert log'.reactions[p] == log.reactions[p];
    }
  }

  lemma NotApprovedNotDone(cfg: Config, log: Log, tag: (nat, nat), k: nat)
    requires ReactionsOk(cfg, log) && tag !in log.approved
    ensures !Done(log, tag, k)
  {
    hide StepCalls;
  }

  // ---- over every run --------------------------------------------------------------------

  lemma StartInv(cfg: Config)
    ensures Inv(cfg, START)
  {
  }

  /** MAIN: every step keeps the invariant. */
  lemma StepInv(cfg: Config, s: State, e: Event)
    requires Inv(cfg, s) && Enabled(cfg, s, e)
    ensures Inv(cfg, Apply(cfg, s, e))
  {
    assert TableOk(s.table);
    hide Enabled, RowsOk, TableOk, RunningOk, HeldOk, CountsOk, WakeOk, ApprovalsOk, ReactionsOk, ProgressOk;
    StepRows(cfg, s, e);
    StepRunning(cfg, s, e);
    StepHeld(cfg, s, e);
    StepCounts(cfg, s, e);
    StepWake(cfg, s, e);
    StepApprovals(cfg, s, e);
    StepReactions(cfg, s, e);
    StepProgress(cfg, s, e);
  }

  lemma InvParts(cfg: Config, s: State)
    requires Inv(cfg, s)
    ensures TableOk(s.table) && RowsOk(s) && RunningOk(s) && HeldOk(s) && CountsOk(s) && WakeOk(s)
    ensures ApprovalsOk(s) && ReactionsOk(cfg, s.log) && ProgressOk(s)
  {
  }

  lemma {:induction false} RunInv(cfg: Config, states: seq<State>, events: seq<Event>, i: nat)
    requires IsRun(cfg, states, events) && i <= |events|
    ensures Inv(cfg, states[i])
  {
    hide Enabled, Inv, TableAfter, WorkerAfter, HandlersAfter, KickAfter, LogAfter;
    if i == 0 {
      StartInv(cfg);
    } else {
      RunInv(cfg, states, events, i - 1);
      StepInv(cfg, states[i - 1], events[i - 1]);
    }
  }

  /** MAIN: at most one job is running. */
  lemma OneRunning(cfg: Config, states: seq<State>, events: seq<Event>, i: nat, a: nat, b: nat)
    requires IsRun(cfg, states, events) && i <= |events|
    requires states[i].table.Is(a, Running) && states[i].table.Is(b, Running)
    ensures a == b
  {
    hide IsRun;
    RunInv(cfg, states, events, i);
  }

  /**
   * MAIN: each FinishJob the worker issues ends a running row, the very claim it holds, and no claim is ended
   * twice.
   */
  lemma FinishesHit(cfg: Config, states: seq<State>, events: seq<Event>, i: nat)
    requires IsRun(cfg, states, events) && i < |events| && (events[i].Finish? || events[i].FinishPanicked?)
    ensures states[i].worker.Holds()
    ensures var c := states[i].worker.claim;
            states[i].table.Is(c.id, Running) && states[i].table.rows[c.id] == c.job
                && Tag(c) !in states[i].log.finishes
    ensures var id, e := states[i].worker.claim.id, events[i];
      && id in states[i + 1].table.rows
      && var row := states[i + 1].table.rows[id];
      && row.status == (if e.Finish? && states[i].worker.passed then Passed else Failed)
      && row.result == e.result && row.error == e.error && row.finishedAt == Some(Stamp(e.at))
  {
    hide Inv, WorkerAfter, HandlersAfter, LogAfter, KickAfter;
    RunInv(cfg, states, events, i);
    InvParts(cfg, states[i]);
    assert states[i + 1] == Apply(cfg, states[i], events[i]) && Enabled(cfg, states[i], events[i]);
    hide IsRun, Enabled, RunningOk, TableAfter, Updated;
    var row := FinishedRow(cfg, states[i], events[i]);
    RowIs(states[i].table, states[i].worker.claim.id, row);
  }

  lemma RowIs(t: Table, id: nat, row: Job)
    ensures id in Updated(t, id, row).rows && Updated(t, id, row).rows[id] == row
  {
  }

  /** MAIN: in every state, attempts are claims, and every claim was ended once, or reset, or is running. */
  lemma AttemptsBalance(cfg: Config, states: seq<State>, events: seq<Event>, i: nat, id: nat)
    requires IsRun(cfg, states, events) && i <= |events| && id in states[i].table.rows
    ensures var s := states[i];
      && s.table.rows[id].attempts == s.log.ended[id] + s.log.resets[id] + (if s.table.Is(id, Running) then 1 else 0)
      && RowOk(s.table.rows[id])
  {
    var s := states[i];
    hide IsRun;
    RunInv(cfg, states, events, i);
    assert RowFacts(s.table, s.log, id) && Balanced(s.table, s.log, id);
  }

  /** MAIN: no lost wakeup. A worker about to sleep, or asleep, over a queue with a job in it has a kick coming. */
  lemma NoLostWakeup(cfg: Config, states: seq<State>, events: seq<Event>, i: nat, id: nat)
    requires IsRun(cfg, states, events) && i <= |events| && SawEmpty(states[i].worker) && states[i].table.Is(id, Queued)
    ensures states[i].kick || KickDue(states[i].handlers)
    ensures states[i].worker.Idle? && !KickDue(states[i].handlers) ==> Enabled(cfg, states[i], Wake(ByKick))
  {
    hide IsRun;
    RunInv(cfg, states, events, i);
  }

  // ---- deletions -------------------------------------------------------------------------

  /** Call i of a logged sub-step deletes a file. */
  predicate Deletes(r: Reaction, i: nat) { i < |r.calls| && r.calls[i].IsDelete() }

  /** MAIN: every deletion is of a file *arr reported under the path the job was enqueued with. */
  lemma DeletionsSafe(cfg: Config, states: seq<State>, events: seq<Event>, n: nat, p: nat, i: nat)
    requires IsRun(cfg, states, events) && n <= |events| && p < |states[n].log.reactions|
        && Deletes(states[n].log.reactions[p], i)
    ensures var r, log := states[n].log.reactions[p], states[n].log;
      && r.k == 1 && Justified(r.target, r.calls, i)
      && r.id in log.drafts && r.target == TargetOf(log.drafts[r.id]) && r.target.path != ""
      && (r.id, r.attempt) in log.approved && (r.id, r.attempt) in log.failed
  {
    var s := states[n];
    hide IsRun, Inv;
    RunInv(cfg, states, events, n);
    var r := s.log.reactions[p];
    InvParts(cfg, s);
    hide StepCalls, Justified;
    assert ReactionOk(cfg, s.log, r);
    var full :| StepCalls(cfg.lib, r.target, r.k, full) && r.calls <= full;
    DeletionsJustified(cfg.lib, r.target, r.k, full, i);
    JustifiedPrefix(r.target, r.calls, full, i);
  }

  /**
   * MAIN: every lookup, history query and search of a reaction is about what the job was enqueued for: the movie, or
   * the series and, when it names one, the very episode.
   */
  lemma ReactionAsks(cfg: Config, states: seq<State>, events: seq<Event>, n: nat, p: nat, i: nat)
    requires IsRun(cfg, states, events) && n <= |events| && p < |states[n].log.reactions|
        && i < |states[n].log.reactions[p].calls|
    ensures var r, log := states[n].log.reactions[p], states[n].log;
      r.id in log.drafts
      && var d := log.drafts[r.id];
      match r.calls[i]
      case GetHistory(query, _) =>
        && (d.arrType == "radarr" ==> query == MovieHistory(d.arrId))
        && (d.arrType != "radarr" && d.episodeId != 0 ==> query == EpisodeHistory(d.arrId, d.episodeId))
        && (d.arrType != "radarr" && d.episodeId == 0 ==> query == SeriesHistory(d.arrId))
      case GetMovie(id, _) => d.arrType == "radarr" && id == d.arrId
      case GetEpisodeFiles(id, _) => d.arrType != "radarr" && id == d.arrId
      case SearchMovie(id, _) => d.arrType == "radarr" && id == d.arrId
      case SearchEpisode(id, _) => d.arrType != "radarr" && id == d.episodeId != 0
      case DeleteMovieFile(_, _) => d.arrType == "radarr"
      case DeleteEpisodeFile(_, _) => d.arrType != "radarr"
      case MarkHistoryFailed(id, _) =>
        && i == 1 && id > 0 && r.calls[0].GetHistory? && r.calls[0].records.Ok?
        && exists g: nat :: IsGrab(cfg.lib, r.calls[0].records.value, d.downloadId, g)
             && ToInt(Member(r.calls[0].records.value[g], "id")) == Some(id)
  {
    var s := states[n];
    hide IsRun, Inv;
    RunInv(cfg, states, events, n);
    var r := s.log.reactions[p];
    InvParts(cfg, s);
    hide StepCalls;
    assert ReactionOk(cfg, s.log, r);
    var full :| StepCalls(cfg.lib, r.target, r.k, full) && r.calls <= full;
    assert r.calls[i] == full[i] && r.calls[0] == full[0];
    CallsAsk(cfg.lib, r.target, r.k, full, i);
  }

  lemma JustifiedPrefix(t: Target, calls: seq<Call>, full: seq<Call>, i: nat)
    requires calls <= full && i < |calls| && Justified(t, full, i)
    ensures Justified(t, calls, i)
  {
    hide Deletable;
    assert calls[0] == full[0] && calls[1] == full[1];
  }

  lemma JustifiedSecond(t: Target, calls: seq<Call>, i: nat)
    requires i < |calls| && Justified(t, calls, i)
    ensures i == 1
  {
  }

  /** MAIN: at most one file is deleted per claim. */
  lemma OneDeletionPerClaim(cfg: Config, states: seq<State>, events: seq<Event>, n: nat, p: nat, i: nat, q: nat, j: nat)
    requires IsRun(cfg, states, events) && n <= |events| && p < |states[n].log.reactions|
        && q < |states[n].log.reactions|
    requires Deletes(states[n].log.reactions[p], i) && Deletes(states[n].log.reactions[q], j)
    requires states[n].log.reactions[p].id == states[n].log.reactions[q].id
    requires states[n].log.reactions[p].attempt == states[n].log.reactions[q].attempt
    ensures p == q && i == j
  {
    var s := states[n];
    hide IsRun, Inv, Justified, StepCalls;
    RunInv(cfg, states, events, n);
    DeletionsSafe(cfg, states, events, n, p, i);
    DeletionsSafe(cfg, states, events, n, q, j);
    JustifiedSecond(s.log.reactions[p].target, s.log.reactions[p].calls, i);
    JustifiedSecond(s.log.reactions[q].target, s.log.reactions[q].calls, j);
    InvParts(cfg, s);
    hide ReactionOk;
  }

  /** MAIN: a reaction that runs to its end has made all three sub-steps, whatever errors or panics they met. */
  lemma ReactionComplete(cfg: Config, states: seq<State>, events: seq<Event>, i: nat, k: nat)
    requires IsRun(cfg, states, events) && i < |events| && events[i].ReactDone? && k < 3
    requires states[i].worker.Reacting? && states[i].worker.claim.job.draft.arrType in cfg.clients
    ensures Done(states[i].log, Tag(states[i].worker.claim), k)
  {
    hide Inv;
    RunInv(cfg, states, events, i);
    InvParts(cfg, states[i]);
    hide Done;
  }

  lemma WhenRead(cfg: Config, s: State, e: Event)
    requires Enabled(cfg, s, e)
    ensures e.ReadBlocklist? ==> s.worker.Ended? && !s.worker.passed
    ensures e.Proceed? ==> s.worker.Checked? && !s.stopping
  {
  }

  /** An approval goes back to the auto-blocklist read that gave it. */
  lemma {:induction false} ApprovedBy(cfg: Config, states: seq<State>, events: seq<Event>, n: nat, tag: (nat, nat))
      returns (j: nat)
    requires IsRun(cfg, states, events) && n <= |events| && tag in states[n].log.approved
    ensures j < n && events[j] == ReadBlocklist(true) && states[j].worker.Ended? && Tag(states[j].worker.claim) == tag
    ensures tag in states[j].log.failed
  {
    hide Inv, StepCalls, CutShort, Actionable, Enabled, TableAfter, WorkerAfter, HandlersAfter, KickAfter;
    if tag in states[n - 1].log.approved {
      j := ApprovedBy(cfg, states, events, n - 1, tag);
    } else {
      j := n - 1;
      WhenRead(cfg, states[j], events[j]);
      RunInv(cfg, states, events, j);
      InvParts(cfg, states[j]);
    }
  }

  /** MAIN: and a failure goes back to a validation that failed under a live context. */
  lemma {:induction false} FailedBy(cfg: Config, states: seq<State>, events: seq<Event>, n: nat, tag: (nat, nat))
      returns (j: nat)
    requires IsRun(cfg, states, events) && n <= |events| && tag in states[n].log.failed
    ensures j < n && events[j] == Proceed && !states[j].stopping
    ensures states[j].worker.Checked? && !states[j].worker.passed && Tag(states[j].worker.claim) == tag
  {
    hide Inv, StepCalls, CutShort, Actionable, Enabled, TableAfter, WorkerAfter, HandlersAfter, KickAfter;
    if tag in states[n - 1].log.failed {
      j := FailedBy(cfg, states, events, n - 1, tag);
    } else {
      j := n - 1;
      WhenRead(cfg, states[j], events[j]);
    }
  }

  // ---- shutdown --------------------------------------------------------------------------

  lemma StepStopping(cfg: Config, s: State, e: Event)
    requires Enabled(cfg, s, e) && (s.stopping || e.Stop?) && !e.Crash?
    ensures var s' := Apply(cfg, s, e);
      && s'.stopping && (s.stopping ==> !e.Proceed?)
      && (if s'.worker.Claiming? then 1 else 0) + (if e.ClaimNext? then 1 else 0) <= if s.worker.Claiming? then 1 else 0
  {
    hide TableAfter, HandlersAfter, LogAfter, KickAfter, StepCalls, CutShort, Actionable;
    assert s.stopping || e.Stop?;
  }

  /**
   * MAIN: a shutdown at i ends the process's work: until it dies no validation counts any more, and at most the one
   * claim that was under way is made.
   */
  lemma {:induction false} ShutdownStops(cfg: Config, states: seq<State>, events: seq<Event>, i: nat, j: nat)
    requires IsRun(cfg, states, events) && i < j <= |events| && events[i].Stop?
    requires forall n :: i < n < j ==> !events[n].Crash?
    ensures states[j].stopping && forall n :: i < n < j ==> !events[n].Proceed?
    ensures ClaimsIn(events, i, j) + (if states[j].worker.Claiming? then 1 else 0)
         <= if states[i].worker.Claiming? then 1 else 0
  {
    hide Enabled, Apply;
    if j == i + 1 {
      assert ClaimsIn(events, i, i) == 0;
      StepStopping(cfg, states[i], events[i]);
    } else {
      ShutdownStops(cfg, states, events, i, j - 1);
      StepStopping(cfg, states[j - 1], events[j - 1]);
    }
  }

  // ---- nothing is lost -------------------------------------------------------------------

  /** A passed row stays passed but for a retry of it or a prune; a restart does not requeue it. */
  lemma StepPassed(cfg: Config, s: State, e: Event, id: nat)
    requires RunningOk(s) && TableOk(s.table) && Enabled(cfg, s, e) && s.table.Is(id, Passed)
    ensures Apply(cfg, s, e).table.Is(id, Passed) || e.Prune? || (e.Retry? && e.id == id)
  {
    hide WorkerAfter, HandlersAfter, LogAfter, KickAfter, Stamp, StepCalls, CutShort, TableOk;
    FreshId(s.table);
    if e.Finish? || e.FinishPanicked? {
      var row := FinishedRow(cfg, s, e);
      UpdateStatus(s.table, s.worker.claim.id, row, id, Passed);
    } else if e.ClaimNext? {
      if s.table.Ids(Queued) != {} {
        LeastIs(s.table, Queued);
        UpdateStatus(s.table, Least(s.table.Ids(Queued)), Started(s.table.rows[Least(s.table.Ids(Queued))], e.at),
            id, Passed);
      }
    } else if e.HookInsert? {
      InsertStatus(s.table, s.handlers[e.h].draft, e.at, id, Passed);
    } else if e.Retry? {
      UpdateStatus(s.table, e.id, Waiting(s.table.rows[e.id]), id, Passed);
    } else if !e.Restart? && !e.Prune? {
      SameTable(cfg, s, e);
    }
  }

  /** MAIN: a job stays, with what it was enqueued with, until a prune that finds it finished. */
  lemma {:induction false} NothingLost(cfg: Config, states: seq<State>, events: seq<Event>, i: nat, j: nat, id: nat)
      returns (gone: Option<nat>)
    requires IsRun(cfg, states, events) && i <= j <= |events| && id in states[i].table.rows
    ensures gone.None? ==>
              id in states[j].table.rows && states[j].table.rows[id].draft == states[i].table.rows[id].draft
    ensures gone.Some? ==>
      && i <= gone.value < j && events[gone.value].Prune? && id in states[gone.value].table.rows
      && Prunable(states[gone.value].table.rows[id], Stamp(events[gone.value].before))
  {
    hide Enabled, Inv, Stamp, Prunable, TableAfter, WorkerAfter, HandlersAfter, KickAfter, LogAfter, TableOk, RunningOk;
    if i == j { return None; }
    gone := NothingLost(cfg, states, events, i, j - 1, id);
    if gone.None? {
      RunInv(cfg, states, events, j - 1);
      InvParts(cfg, states[j - 1]);
      StepRow(cfg, states[j - 1], events[j - 1], id);
      if id !in states[j].table.rows { gone := Some(j - 1); }
    }
  }

  // ---- waiting is bounded ----------------------------------------------------------------

  /** How many jobs an event puts back ahead of id. */
  function Returned(s: State, e: Event, id: nat): nat {
    match e
    case Retry(_, k) => if k < id then 1 else 0
    case Restart => |RunningAhead(s.table, id)|
    case _ => 0
  }

  /** Enqueues, finishes and prunes leave a waiting job where it is. */
  lemma AheadSame(cfg: Config, s: State, e: Event, id: nat)
    requires TableOk(s.table) && RunningOk(s) && Enabled(cfg, s, e)
    requires s.table.Is(id, Queued) && !e.ClaimNext? && !e.Retry? && !e.Restart?
    ensures Ahead(Apply(cfg, s, e).table, id) == Ahead(s.table, id)
  {
    hide WorkerAfter, HandlersAfter, LogAfter, KickAfter, Ahead, RunningOk, Inserted, Pruned, Stamp, StepCalls,
        CutShort;
    if e.Finish? || e.FinishPanicked? {
      AheadFinished(cfg, s, e, id);
    } else if e.HookInsert? {
      FreshId(s.table);
      InsertAhead(s.table, s.handlers[e.h].draft, e.at, id);
    } else if e.Prune? {
      PruneAhead(s.table, Stamp(e.before), id);
    } else {
      SameTable(cfg, s, e);
    }
  }

  /** The remaining events do not touch the table. */
  lemma SameTable(cfg: Config, s: State, e: Event)
    requires Enabled(cfg, s, e)
    requires !e.HookInsert? && !e.Retry? && !e.Prune? && !e.Restart?
    requires !e.ClaimNext? && !e.Finish? && !e.FinishPanicked?
    ensures Apply(cfg, s, e).table == s.table
  {
    hide Enabled, WorkerAfter, HandlersAfter, LogAfter, KickAfter;
  }

  /** FinishJob on the busy worker's row, which is running. */
  lemma FinishedRow(cfg: Config, s: State, e: Event) returns (row: Job)
    requires RunningOk(s) && Enabled(cfg, s, e) && (e.Finish? || e.FinishPanicked?)
    ensures s.worker.Busy() && s.table.Is(s.worker.claim.id, Running)
    ensures row.status == if e.Finish? && s.worker.passed then Passed else Failed
    ensures row.result == e.result && row.error == e.error && row.finishedAt == Some(Stamp(e.at))
    ensures row.draft == s.worker.claim.job.draft && row.attempts == s.worker.claim.job.attempts
    ensures s.table.rows[s.worker.claim.id] == s.worker.claim.job
    ensures Apply(cfg, s, e).table == Updated(s.table, s.worker.claim.id, row)
  {
    hide WorkerAfter, HandlersAfter, LogAfter, KickAfter, Stamp, StepCalls, CutShort;
    var c := s.worker.claim;
    row := Apply(cfg, s, e).table.rows[c.id];
  }

  lemma AheadFinished(cfg: Config, s: State, e: Event, id: nat)
    requires RunningOk(s) && Enabled(cfg, s, e) && (e.Finish? || e.FinishPanicked?)
    ensures Ahead(Apply(cfg, s, e).table, id) == Ahead(s.table, id)
  {
    var row := FinishedRow(cfg, s, e);
    UpdateAhead(s.table, s.worker.claim.id, row, id);
    hide Enabled, RunningOk, TableAfter, WorkerAfter, HandlersAfter, LogAfter, KickAfter, Ahead, Updated;
  }

  /** A claim of another job takes that one away. */
  lemma AheadClaimed(cfg: Config, s: State, e: Event, id: nat)
    requires Enabled(cfg, s, e) && e.ClaimNext?
    requires s.table.Is(id, Queued) && Apply(cfg, s, e).table.Is(id, Queued)
    ensures var queued, a := s.table.Ids(Queued), Ahead(s.table, id);
      queued != {} && Least(queued) in a && Ahead(Apply(cfg, s, e).table, id) == a - {Least(queued)}
  {
    hide WorkerAfter, HandlersAfter, LogAfter, KickAfter;
    IdsAre(s.table, Queued, id);
    var m := Least(s.table.Ids(Queued));
    var row := Started(s.table.rows[m], e.at);
    assert s.table.Is(m, Queued);
    assert TableAfter(cfg, s, e) == Updated(s.table, m, row);
    UpdateAhead(s.table, m, row, id);
    UpdateStatus(s.table, m, row, id, Queued);
    hide StepCalls, CutShort, Stamp, Actionable, Ahead, Updated, Table.Is, Table.Ids;
  }

  /** A retry and a restart put jobs back, some of them ahead. */
  lemma AheadReturned(cfg: Config, s: State, e: Event, id: nat)
    requires Enabled(cfg, s, e) && (e.Retry? || e.Restart?)
    ensures var a, a' := Ahead(s.table, id), Ahead(Apply(cfg, s, e).table, id);
      if e.Restart? then a' == a + RunningAhead(s.table, id) && a !! RunningAhead(s.table, id)
      else e.id !in a && a' == if e.id < id then a + {e.id} else a
  {
    assert e.Retry? ==> !s.table.Is(e.id, Queued);
    hide Ahead, RunningAhead, Table.Is, Updated, Released, WorkerAfter, HandlersAfter, LogAfter, KickAfter;
    if e.Restart? {
      ReleaseAhead(s.table, id);
    } else {
      UpdateAhead(s.table, e.id, Waiting(s.table.rows[e.id]), id);
    }
  }

  lemma StepAhead(cfg: Config, s: State, e: Event, id: nat)
    requires TableOk(s.table) && RunningOk(s) && Enabled(cfg, s, e)
    requires s.table.Is(id, Queued) && Apply(cfg, s, e).table.Is(id, Queued)
    ensures |Ahead(Apply(cfg, s, e).table, id)| + (if e.ClaimNext? then 1 else 0) == |Ahead(s.table, id)|
        + Returned(s, e, id)
  {
    hide Enabled, TableOk, RunningOk, Ahead, RunningAhead, Table.Is, Table.Ids, TableAfter, WorkerAfter,
        HandlersAfter, LogAfter, KickAfter;
    if e.ClaimNext? {
      AheadClaimed(cfg, s, e, id);
    } else if e.Retry? || e.Restart? {
      AheadReturned(cfg, s, e, id);
    } else {
      AheadSame(cfg, s, e, id);
    }
  }

  ghost function ClaimsIn(events: seq<Event>, i: nat, j: nat): nat
    requires i <= j <= |events|
  {
    if i == j then 0 else ClaimsIn(events, i, j - 1) + if events[j - 1].ClaimNext? then 1 else 0
  }

  ghost function ReturnsIn(states: seq<State>, events: seq<Event>, i: nat, j: nat, id: nat): nat
    requires i <= j <= |events| < |states|
  {
    if i == j then 0 else ReturnsIn(states, events, i, j - 1, id) + Returned(states[j - 1], events[j - 1], id)
  }

  /**
   * MAIN: while a job waits, each claim brings it one forward and only returns of smaller ids set it
   * back; so it sees at most as many claims as were ahead of it or came back ahead of it.
   */
  lemma {:induction false} BoundedWaiting(cfg: Config, states: seq<State>, events: seq<Event>, i: nat, j: nat, id: nat)
    requires IsRun(cfg, states, events) && i <= j <= |events|
    requires forall k :: i <= k <= j ==> states[k].table.Is(id, Queued)
    ensures |Ahead(states[j].table, id)| + ClaimsIn(events, i, j) == |Ahead(states[i].table, id)|
        + ReturnsIn(states, events, i, j, id)
  {
    hide Enabled, Inv, Ahead, Returned, Table.Is, TableAfter, WorkerAfter, HandlersAfter, KickAfter, LogAfter,
        TableOk, RunningOk;
    if i < j {
      BoundedWaiting(cfg, states, events, i, j - 1, id);
      RunInv(cfg, states, events, j - 1);
      InvParts(cfg, states[j - 1]);
      assert states[j] == Apply(cfg, states[j - 1], events[j - 1]);
      StepAhead(cfg, states[j - 1], events[j - 1], id);
    }
  }

  /** With nothing ahead, the next claim is this job's. */
  lemma NextInLine(t: Table, id: nat)
    requires t.Is(id, Queued) && Ahead(t, id) == {}
    ensures t.Ids(Queued) != {} && Least(t.Ids(Queued)) == id
  {
    assert id in t.Ids(Queued);
    var m := Least(t.Ids(Queued));
    assert m < id ==> m in Ahead(t, id);
  }

  // ---- the counters are counts of events -------------------------------------------------

  ghost predicate EndsClaim(s: State, e: Event, tag: (nat, nat)) {
    Finishes(s, e) && Tag(s.worker.claim) == tag
  }

  ghost function TimesClaimed(states: seq<State>, events: seq<Event>, n: nat, id: nat): nat
    requires n <= |events| < |states|
  {
    if n == 0 then 0
    else TimesClaimed(states, events, n - 1, id) + if TakesJob(states[n - 1], events[n - 1], id) then 1 else 0
  }

  ghost function TimesEnded(states: seq<State>, events: seq<Event>, n: nat, tag: (nat, nat)): nat
    requires n <= |events| < |states|
  {
    if n == 0 then 0
    else TimesEnded(states, events, n - 1, tag) + if EndsClaim(states[n - 1], events[n - 1], tag) then 1 else 0
  }

  /** What the log counts is what happened in the run. */
  lemma {:induction false} LogCounts(cfg: Config, states: seq<State>, events: seq<Event>, n: nat, id: nat,
      tag: (nat, nat))
    requires IsRun(cfg, states, events) && n <= |events|
    ensures states[n].log.claims[id] == TimesClaimed(states, events, n, id)
    ensures states[n].log.finishes[tag] == TimesEnded(states, events, n, tag)
  {
    hide Enabled, TableAfter, WorkerAfter, HandlersAfter, KickAfter;
    if n > 0 {
      LogCounts(cfg, states, events, n - 1, id, tag);
      assert states[n] == Apply(cfg, states[n - 1], events[n - 1]);
      StepPast(cfg, states[n - 1], events[n - 1], id);
    }
  }

  /** MAIN: attempts of a row are the claims made of it in the run, and no claim is ended twice. */
  lemma AttemptsAreClaims(cfg: Config, states: seq<State>, events: seq<Event>, n: nat, id: nat, tag: (nat, nat))
    requires IsRun(cfg, states, events) && n <= |events|
    ensures id in states[n].table.rows ==> states[n].table.rows[id].attempts == TimesClaimed(states, events, n, id)
    ensures TimesEnded(states, events, n, tag) <= 1
  {
    var s := states[n];
    LogCounts(cfg, states, events, n, id, tag);
    hide IsRun;
    RunInv(cfg, states, events, n);
    assert RowFacts(s.table, s.log, id);
  }

  // ---- deduplication ---------------------------------------------------------------------

  /** A late INSERT, or a retry, of a path that has an active job. */
  predicate Duplicates(s: State, e: Event) {
    match e
    case HookInsert(h, _) =>
      h in s.handlers && s.handlers[h].Selected? && s.table.Active(s.handlers[h].draft.path) != {}
    case Retry(_, id) => id in s.table.rows && s.table.Active(s.table.rows[id].draft.path) != {}
    case _ => false
  }

  /** Only those two events make a row active. */
  lemma StepActive(cfg: Config, s: State, e: Event, id: nat)
    requires TableOk(s.table) && RunningOk(s) && Enabled(cfg, s, e) && !e.HookInsert? && !e.Retry?
    requires id in Apply(cfg, s, e).table.rows && !Apply(cfg, s, e).table.rows[id].Finished()
    ensures id in s.table.rows && !s.table.rows[id].Finished()
        && Apply(cfg, s, e).table.rows[id].draft == s.table.rows[id].draft
  {
    hide WorkerAfter, HandlersAfter, LogAfter, KickAfter, RowOk, Updated, Released, Pruned, Stamp, StepCalls,
        CutShort, TableOk;
    if e.Finish? || e.FinishPanicked? {
      var row := FinishedRow(cfg, s, e);
      UpdateRows(s.table, s.worker.claim.id, row, id);
    } else if e.ClaimNext? {
      ActiveClaimed(cfg, s, e, id);
    } else if e.Prune? {
      PruneRows(s.table, Stamp(e.before), id);
    } else if e.Restart? {
      ReleaseRows(s.table, id);
    } else {
      SameTable(cfg, s, e);
    }
  }

  lemma ActiveClaimed(cfg: Config, s: State, e: Event, id: nat)
    requires Enabled(cfg, s, e) && e.ClaimNext?
    requires id in Apply(cfg, s, e).table.rows && !Apply(cfg, s, e).table.rows[id].Finished()
    ensures id in s.table.rows && !s.table.rows[id].Finished()
        && Apply(cfg, s, e).table.rows[id].draft == s.table.rows[id].draft
  {
    hide WorkerAfter, HandlersAfter, LogAfter, KickAfter, Updated, Stamp, StepCalls, CutShort;
    var queued := s.table.Ids(Queued);
    if queued != {} {
      LeastIs(s.table, Queued);
      UpdateRows(s.table, Least(queued), Started(s.table.rows[Least(queued)], e.at), id);
    }
  }

  /** MAIN: of the steps from a table with at most one active job per path, exactly those two break it. */
  lemma StepDedupes(cfg: Config, s: State, e: Event)
    requires TableOk(s.table) && RunningOk(s) && Enabled(cfg, s, e) && Deduped(s.table)
    ensures Deduped(Apply(cfg, s, e).table) <==> !Duplicates(s, e)
  {
    hide StepCalls, CutShort, Stamp, TableOk, RunningOk, Deduped, WorkerAfter, HandlersAfter, LogAfter, KickAfter;
    if e.HookInsert? {
      EnqueueDedupes(s.table, s.handlers[e.h].draft, e.at);
    } else if e.Retry? {
      RequeueDedupes(s.table, e.id);
    } else {
      var t := Apply(cfg, s, e).table;
      forall id | id in t.rows && !t.rows[id].Finished()
        ensures id in s.table.rows && !s.table.rows[id].Finished() && t.rows[id].draft == s.table.rows[id].draft
      {
        StepActive(cfg, s, e, id);
      }
      hide TableAfter;
      QuietDedupes(s.table, t);
    }
  }

  /** So two active jobs of one path in a run go back to the first such event. */
  lemma {:induction false} DuplicatedBy(cfg: Config, states: seq<State>, events: seq<Event>, n: nat) returns (k: nat)
    requires IsRun(cfg, states, events) && n <= |events| && !Deduped(states[n].table)
    ensures k < n && Deduped(states[k].table) && Duplicates(states[k], events[k])
  {
    hide Enabled, Inv, TableAfter, WorkerAfter, HandlersAfter, KickAfter, LogAfter, TableOk, RunningOk, Duplicates;
    assert n > 0;
    if !Deduped(states[n - 1].table) {
      k := DuplicatedBy(cfg, states, events, n - 1);
    } else {
      k := n - 1;
      RunInv(cfg, states, events, k);
      InvParts(cfg, states[k]);
      StepDedupes(cfg, states[k], events[k]);
    }
  }
}
