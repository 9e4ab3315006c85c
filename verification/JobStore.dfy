/**
 * The jobs table (internal/store/jobs.go). Each statement is a function on the table; the class
 * holds the table and runs the statements on it. Times are stored as text, as SQLite sees them.
 */
module JobStore {
  import opened Prelude
  import opened Text
  import opened Timestamps

  datatype Status = Queued | Running | Passed | Failed

  /** What a caller of EnqueueJob fills in. */
  datatype Draft = Draft(arrType: string, arrId: int, episodeId: int, title: string, path: string,
                         size: int, downloadId: string, runtimeMin: int)

  datatype Job = Job(draft: Draft, status: Status, result: string, error: string, attempts: nat,
                     createdAt: string, startedAt: Option<string>, finishedAt: Option<string>)
  {
    predicate Finished() { status == Passed || status == Failed }
  }

  /** Ids come from AUTOINCREMENT: nextId was never used before. */
  datatype Table = Table(rows: map<nat, Job>, nextId: nat) {
    predicate Is(id: nat, status: Status) { id in rows && rows[id].status == status }

    function Ids(status: Status): set<nat> { set id | id in rows && rows[id].status == status }

    function Active(path: string): set<nat> {
      set id | id in rows && rows[id].draft.path == path && !rows[id].Finished()
    }
  }

  const EMPTY := Table(map[], 1)

  ghost function Least(s: set<nat>): (m: nat)
    requires s != {}
    ensures m in s && forall x :: x in s ==> m <= x
  {
    var x :| x in s;
    assert s == {x} + (s - {x});
    if s == {x} then x else
      var y := Least(s - {x});
      if x < y then x else y
  }

  ghost function Greatest(s: set<nat>): (m: nat)
    requires s != {}
    ensures m in s && forall x :: x in s ==> x <= m
  {
    var x :| x in s;
    assert s == {x} + (s - {x});
    if s == {x} then x else
      var y := Greatest(s - {x});
      if x < y then y else x
  }

  // ---- the statements --------------------------------------------------------------------

  function NewJob(d: Draft, now: Time): Job { Job(d, Queued, "", "", 0, Stamp(now), None, None) }

  function Inserted(t: Table, d: Draft, now: Time): Table {
    Table(t.rows[t.nextId := NewJob(d, now)], t.nextId + 1)
  }

  function Updated(t: Table, id: nat, row: Job): Table { t.(rows := t.rows[id := row]) }

  function Started(row: Job, now: Time): Job {
    row.(status := Running, attempts := row.attempts + 1, startedAt := Some(Stamp(now)), finishedAt := None,
        error := "")
  }

  function WithOutcome(row: Job, status: Status, result: string, error: string, now: Time): Job {
    row.(status := status, result := result, error := error, finishedAt := Some(Stamp(now)))
  }

  function Waiting(row: Job): Job { row.(status := Queued, error := "", startedAt := None, finishedAt := None) }

  function Released(t: Table): Table {
    t.(rows := map id | id in t.rows ::
        if t.rows[id].status == Running then t.rows[id].(status := Queued, startedAt := None)
                                        else t.rows[id])
  }

  predicate Prunable(row: Job, before: string) {
    row.Finished() && row.finishedAt.Some? && StrLess(row.finishedAt.value, before)
  }

  function Stale(t: Table, before: string): set<nat> { set id | id in t.rows && Prunable(t.rows[id], before) }

  function Pruned(t: Table, before: string): Table { t.(rows := t.rows - Stale(t, before)) }

  // ---- the store -------------------------------------------------------------------------

  class Store {
    var rows: map<nat, Job>
    var nextId: nat

    function View(): Table
      reads this
    {
      Table(rows, nextId)
    }

    constructor ()
      ensures View() == EMPTY
    {
      rows, nextId := map[], 1;
    }

    /** The SELECT of EnqueueJob: the newest active job of the path. */
    method FindActive(path: string) returns (id: Option<nat>)
      ensures id.None? <==> View().Active(path) == {}
      ensures id.Some? ==> id.value in View().Active(path) && forall k :: k in View().Active(path) ==> k <= id.value
    {
      var active := View().Active(path);
      if active == {} { return None; }
      assert Greatest(active) in active;
      var newest :| newest in active && forall k :: k in active ==> k <= newest;
      id := Some(newest);
    }

    /** EnqueueJob as one caller sees it; concurrent callers interleave between its two statements. */
    method EnqueueJob(j: Draft, now: Time) returns (id: nat)
      modifies this
      ensures var active := old(View()).Active(j.path);
              if active == {} then id == old(nextId) && View() == Inserted(old(View()), j, now)
              else id in active && (forall k :: k in active ==> k <= id) && View() == old(View())
      ensures id in View().Active(j.path)
      ensures id !in old(rows) ==>
                var row := rows[id];
                && row.draft == j && row.status == Queued && row.attempts == 0 && row.result == "" && row.error == ""
                && row.createdAt == Stamp(now) && row.startedAt == None && row.finishedAt == None
      ensures forall k :: k in old(rows) && k < old(nextId) ==> k in rows && rows[k] == old(rows)[k]
    {
      var existing := FindActive(j.path);
      if existing.Some? { return existing.value; }
      id := nextId;
      rows, nextId := rows[id := NewJob(j, now)], nextId + 1;
    }

    method ClaimNextJob(now: Time) returns (claimed: Option<nat>)
      modifies this
      ensures var queued := old(View()).Ids(Queued);
              if queued == {} then claimed == None && View() == old(View())
              else claimed == Some(Least(queued))
                   && View() == Updated(old(View()), claimed.value, Started(old(rows)[claimed.value], now))
      ensures claimed.Some? ==>
                var was, row := old(rows)[claimed.value], rows[claimed.value];
                && was.status == Queued
                && (forall k :: k in old(rows) && old(rows)[k].status == Queued ==> claimed.value <= k)
                && row.status == Running && row.attempts == was.attempts + 1
                && row.startedAt == Some(Stamp(now)) && row.finishedAt == None && row.error == ""
                && row.draft == was.draft && row.result == was.result && row.createdAt == was.createdAt
      ensures rows.Keys == old(rows).Keys && forall k :: k in rows && claimed != Some(k) ==> rows[k] == old(rows)[k]
    {
      var queued := View().Ids(Queued);
      if queued == {} { return None; }
      assert Least(queued) in queued;
      assert forall k :: k in rows && rows[k].status == Queued ==> k in queued;
      var id :| id in queued && forall k :: k in queued ==> id <= k;
      var row := rows[id].(status := Running, attempts := rows[id].attempts + 1);
      rows := rows[id := row.(startedAt := Some(Stamp(now)), finishedAt := None, error := "")];
      claimed := Some(id);
    }

    method FinishJob(id: nat, status: Status, result: string, error: string, now: Time) returns (found: bool)
      modifies this
      ensures found <==> id in old(rows)
      ensures View() == if !found then old(View())
                        else Updated(old(View()), id, WithOutcome(old(rows)[id], status, result, error, now))
      ensures found ==>
                var was, row := old(rows)[id], rows[id];
                && row.status == status && row.result == result && row.error == error
                && row.finishedAt == Some(Stamp(now)) && row.startedAt == was.startedAt
                && row.createdAt == was.createdAt
                && row.draft == was.draft && row.attempts == was.attempts
      ensures rows.Keys == old(rows).Keys && forall k :: k in rows && k != id ==> rows[k] == old(rows)[k]
    {
      if id !in rows { return false; }
      rows := rows[id := rows[id].(status := status, result := result, error := error, finishedAt := Some(Stamp(now)))];
      found := true;
    }

    method RequeueJob(id: nat) returns (found: bool)
      modifies this
      ensures found <==> id in old(rows) && old(rows)[id].Finished()
      ensures View() == if found then Updated(old(View()), id, Waiting(old(rows)[id])) else old(View())
      ensures found ==>
                var was, row := old(rows)[id], rows[id];
                && row.status == Queued && row.error == "" && row.startedAt == None && row.finishedAt == None
                && row.draft == was.draft && row.attempts == was.attempts && row.result == was.result
                && row.createdAt == was.createdAt
      ensures rows.Keys == old(rows).Keys && forall k :: k in rows && k != id ==> rows[k] == old(rows)[k]
    {
      if id !in rows || rows[id].status !in {Passed, Failed} { return false; }
      rows := rows[id := rows[id].(status := Queued, error := "", startedAt := None, finishedAt := None)];
      found := true;
    }

    method ResetRunningJobs() returns (n: nat)
      modifies this
      ensures View() == Released(old(View()))
      ensures rows.Keys == old(rows).Keys && View().Ids(Running) == {}
      ensures View().Ids(Queued) == old(View()).Ids(Queued) + old(View()).Ids(Running)
      ensures forall id :: id in rows && old(rows)[id].status != Running ==> rows[id] == old(rows)[id]
      ensures forall id :: id in rows && old(rows)[id].status == Running ==>
                rows[id].draft == old(rows)[id].draft && rows[id].attempts == old(rows)[id].attempts
                    && rows[id].startedAt.None?
      ensures n == |View().Ids(Queued)| - |old(View()).Ids(Queued)|
    {
      n := |View().Ids(Running)|;
      rows := map id | id in rows ::
        if rows[id].status == Running then rows[id].(status := Queued, startedAt := None) else rows[id];
    }

    method PruneJobs(before: Time) returns (n: nat)
      modifies this
      ensures View() == Pruned(old(View()), Stamp(before))
      ensures forall id :: id in rows ==> id in old(rows) && rows[id] == old(rows)[id]
      ensures forall id :: id in old(rows) && !old(rows)[id].Finished() ==> id in rows
      ensures forall id :: id in old(rows) && old(rows)[id].Finished() ==>
                var at := old(rows)[id].finishedAt;
                id in rows <==> at.None? || !StrLess(at.value, Stamp(before))
      ensures n == |old(rows)| - |rows|
    {
      hide StrLess, Stamp;
      var gone := set id | id in rows && Prunable(rows[id], Stamp(before));
      n := |gone|;
      Removed(rows, gone);
      rows := rows - gone;
      assert gone == Stale(old(View()), Stamp(before));
    }
  }

  lemma Removed(rows: map<nat, Job>, gone: set<nat>)
    requires gone <= rows.Keys
    ensures |rows - gone| == |rows| - |gone|
  {
    assert (rows - gone).Keys == rows.Keys - gone;
    assert |(rows - gone).Keys| == |rows.Keys| - |gone|;
  }

  // ---- what the table keeps --------------------------------------------------------------

  /** Queued and running rows have no finish time, finished rows have one; only rows handed out were started. */
  predicate RowOk(row: Job) {
    && (row.startedAt.None? <==> row.status == Queued)
    && (row.finishedAt.Some? <==> row.Finished())
    && row.draft.path != "" && row.draft.arrId != 0
  }

  predicate TableOk(t: Table) { forall id :: id in t.rows ==> id < t.nextId && RowOk(t.rows[id]) }

  lemma FreshId(t: Table)
    requires TableOk(t)
    ensures t.nextId !in t.rows
  {
  }

  lemma InsertKeepsTable(t: Table, d: Draft, now: Time)
    requires TableOk(t) && d.path != "" && d.arrId != 0
    ensures TableOk(Inserted(t, d, now))
  {
    hide Stamp;
  }

  lemma UpdateKeepsTable(t: Table, id: nat, row: Job)
    requires TableOk(t) && id in t.rows && RowOk(row)
    ensures TableOk(Updated(t, id, row))
  {
    hide RowOk;
  }

  /** The row updates keep rows well-formed; FinishJob does so when it ends a running row. */
  lemma RowUpdates(row: Job, status: Status, result: string, error: string, now: Time)
    requires RowOk(row)
    ensures RowOk(Started(row, now)) && RowOk(Waiting(row))
    ensures RowOk(WithOutcome(row, status, result, error, now)) <==>
        row.status != Queued && (status == Passed || status == Failed)
  {
    hide Stamp;
  }

  /** So do the statements that use them. */
  lemma RewriteKeepsTable(t: Table, id: nat, status: Status, result: string, error: string, now: Time)
    requires TableOk(t) && id in t.rows
    ensures TableOk(Updated(t, id, Started(t.rows[id], now))) && TableOk(Updated(t, id, Waiting(t.rows[id])))
    ensures t.Is(id, Running) && (status == Passed || status == Failed) ==>
              TableOk(Updated(t, id, WithOutcome(t.rows[id], status, result, error, now)))
  {
    hide RowOk, Started, Waiting, WithOutcome, Updated;
    RowUpdates(t.rows[id], status, result, error, now);
    UpdateKeepsTable(t, id, Started(t.rows[id], now));
    UpdateKeepsTable(t, id, Waiting(t.rows[id]));
    var ended := WithOutcome(t.rows[id], status, result, error, now);
    if RowOk(ended) { UpdateKeepsTable(t, id, ended); }
  }

  lemma ReleaseKeepsTable(t: Table)
    requires TableOk(t)
    ensures TableOk(Released(t))
  {
    forall id | id in t.rows
      ensures RowOk(Released(t).rows[id])
    {
      assert RowOk(t.rows[id]);
    }
  }

  lemma PruneKeepsTable(t: Table, before: string)
    requires TableOk(t)
    ensures TableOk(Pruned(t, before))
  {
    hide RowOk, Prunable;
  }

  // ---- who is queued, who is running -----------------------------------------------------

  lemma InsertRows(t: Table, d: Draft, now: Time, id: nat)
    requires t.nextId !in t.rows
    ensures id in Inserted(t, d, now).rows <==> id == t.nextId || id in t.rows
    ensures id in Inserted(t, d, now).rows ==>
              Inserted(t, d, now).rows[id] == if id in t.rows then t.rows[id] else NewJob(d, now)
  {
    hide Stamp, NewJob;
  }

  lemma UpdateRows(t: Table, k: nat, row: Job, id: nat)
    requires k in t.rows
    ensures id in Updated(t, k, row).rows <==> id in t.rows
    ensures id in t.rows ==> Updated(t, k, row).rows[id] == if id == k then row else t.rows[id]
  {
  }

  lemma ReleaseRows(t: Table, id: nat)
    ensures id in Released(t).rows <==> id in t.rows
    ensures id in t.rows ==>
              && Released(t).rows[id].draft == t.rows[id].draft && Released(t).rows[id].attempts == t.rows[id].attempts
              && (Released(t).rows[id].Finished() <==> t.rows[id].Finished())
  {
  }

  lemma PruneRows(t: Table, before: string, id: nat)
    ensures id in Pruned(t, before).rows <==> id in t.rows && !Prunable(t.rows[id], before)
    ensures id in Pruned(t, before).rows ==> Pruned(t, before).rows[id] == t.rows[id]
  {
    hide Prunable;
  }

  lemma LeastIs(t: Table, status: Status)
    requires t.Ids(status) != {}
    ensures t.Is(Least(t.Ids(status)), status) && Least(t.Ids(status)) in t.rows
  {
    assert Least(t.Ids(status)) in t.Ids(status);
  }

  lemma IdsAre(t: Table, status: Status, id: nat)
    ensures id in t.Ids(status) <==> t.Is(id, status)
  {
  }

  lemma InsertStatus(t: Table, d: Draft, now: Time, id: nat, status: Status)
    requires t.nextId !in t.rows
    ensures Inserted(t, d, now).Is(id, status) <==> t.Is(id, status) || (id == t.nextId && status == Queued)
    ensures id in t.rows ==> id in Inserted(t, d, now).rows && Inserted(t, d, now).rows[id] == t.rows[id]
  {
    hide Stamp;
  }

  lemma UpdateStatus(t: Table, k: nat, row: Job, id: nat, status: Status)
    ensures Updated(t, k, row).Is(id, status) <==> if id == k then row.status == status else t.Is(id, status)
    ensures id != k && id in t.rows ==> id in Updated(t, k, row).rows && Updated(t, k, row).rows[id] == t.rows[id]
  {
  }

  lemma ReleaseStatus(t: Table, id: nat)
    ensures !Released(t).Is(id, Running)
    ensures Released(t).Is(id, Queued) <==> t.Is(id, Queued) || t.Is(id, Running)
  {
  }

  lemma PruneStatus(t: Table, before: string, id: nat, status: Status)
    requires status == Queued || status == Running
    ensures Pruned(t, before).Is(id, status) <==> t.Is(id, status)
    ensures t.Is(id, status) ==> Pruned(t, before).rows[id] == t.rows[id]
  {
  }

  /** The queued jobs ahead of id. */
  function Ahead(t: Table, id: nat): set<nat> { set j | j in t.rows && j < id && t.rows[j].status == Queued }

  function RunningAhead(t: Table, id: nat): set<nat> { set j | j in t.rows && j < id && t.rows[j].status == Running }

  lemma InsertAhead(t: Table, d: Draft, now: Time, id: nat)
    requires t.nextId !in t.rows && id < t.nextId
    ensures Ahead(Inserted(t, d, now), id) == Ahead(t, id)
  {
    hide Stamp;
  }

  lemma UpdateAhead(t: Table, k: nat, row: Job, id: nat)
    ensures Ahead(Updated(t, k, row), id) == (Ahead(t, id) - {k}) + (if k < id && row.status == Queued then {k} else {})
    ensures k in Ahead(t, id) <==> t.Is(k, Queued) && k < id
  {
  }

  lemma ReleaseAhead(t: Table, id: nat)
    ensures Ahead(Released(t), id) == Ahead(t, id) + RunningAhead(t, id)
    ensures Ahead(t, id) !! RunningAhead(t, id)
  {
  }

  lemma PruneAhead(t: Table, before: string, id: nat)
    ensures Ahead(Pruned(t, before), id) == Ahead(t, id)
  {
    hide StrLess;
  }

  /** At most one active job per path. */
  predicate Deduped(t: Table) {
    forall i, j ::
      (i in t.rows && j in t.rows && !t.rows[i].Finished() && !t.rows[j].Finished()
          && t.rows[i].draft.path == t.rows[j].draft.path)
      ==> i == j
  }

  /**
   * Redelivered webhooks: an INSERT keeps at most one active job per path exactly when the path has none at
   * that moment.
   */
  lemma EnqueueDedupes(t: Table, d: Draft, now: Time)
    requires TableOk(t) && Deduped(t)
    ensures Deduped(Inserted(t, d, now)) <==> t.Active(d.path) == {}
  {
    hide Stamp, RowOk;
    var t' := Inserted(t, d, now);
    assert forall k :: k in t.rows && t.rows[k].draft.path == d.path && !t.rows[k].Finished() ==> k in t.Active(d.path);
    if t.Active(d.path) != {} {
      var k :| k in t.Active(d.path);
      assert t'.rows[k] == t.rows[k] && t'.rows[t.nextId].draft.path == t'.rows[k].draft.path;
    }
  }

  /** A requeue likewise: exactly when no other active job has the path. */
  lemma RequeueDedupes(t: Table, id: nat)
    requires Deduped(t) && id in t.rows && t.rows[id].Finished()
    ensures Deduped(Updated(t, id, Waiting(t.rows[id]))) <==> t.Active(t.rows[id].draft.path) == {}
  {
    var t' := Updated(t, id, Waiting(t.rows[id]));
    var path := t.rows[id].draft.path;
    assert forall k :: k in t.rows && t.rows[k].draft.path == path && !t.rows[k].Finished() ==> k in t.Active(path);
    if t.Active(path) != {} {
      var k :| k in t.Active(path);
      assert t'.rows[k] == t.rows[k] && t'.rows[id].draft.path == t'.rows[k].draft.path;
    }
  }

  /** The other statements give no finished or missing row back to the active ones, so they keep it. */
  lemma QuietDedupes(t: Table, t': Table)
    requires Deduped(t)
    requires forall id :: id in t'.rows && !t'.rows[id].Finished() ==>
               id in t.rows && !t.rows[id].Finished() && t'.rows[id].draft == t.rows[id].draft
    ensures Deduped(t')
  {
  }

  /** Callers that interleave the two statements do not: both may see no active job, then both insert. */
  lemma InterleavedEnqueuesDuplicate(d: Draft, now: Time)
    ensures EMPTY.Active(d.path) == {}
    ensures Deduped(EMPTY) && !Deduped(Inserted(Inserted(EMPTY, d, now), d, now))
  {
    hide Stamp;
    var t := Inserted(Inserted(EMPTY, d, now), d, now);
    assert t.rows[1].draft.path == t.rows[2].draft.path;
  }

  /** Pruning compares texts; it is right for every job that finished in another second than the cut. */
  lemma PruneWithinASecond(row: Job, finished: Time, before: Time)
    requires finished.Valid() && before.Valid() && row.Finished() && row.finishedAt == Some(Stamp(finished))
    ensures finished.Seconds() < before.Seconds() ==> Prunable(row, Stamp(before))
    ensures finished.Seconds() > before.Seconds() ==> !Prunable(row, Stamp(before))
    ensures finished == before ==> !Prunable(row, Stamp(before))
  {
    hide StrLe, Stamp;
    FieldsOrderTime(finished, before);
    FieldsOrderTime(before, finished);
    StampOrder(finished, before);
  }
}
