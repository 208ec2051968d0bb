/** The scheduler: a queue of delayed runs re-derived from the stored workflows. The queue
    store keys its jobs by id, so the queue is a map from id to job. When a cron expression
    next fires is a parameter (`NextFire`) that fails on an expression it cannot parse. */
module Scheduler {
  import opened Wrappers
  import opened Text
  import opened Json
  import opened Workflow
  import Executor

  datatype JobState = Delayed | Waiting | Active | Completed | Failed

  /** `job.data`: the snapshot of the workflow the worker will run. */
  datatype JobData = JobData(workflowId: string, userId: int, workflowJson: WorkflowDefinition)

  datatype Job = Job(id: string, name: string, data: JobData, state: JobState, delay: int)

  /** The next fire time, in milliseconds, of a cron expression after `now`; `None` when the
      expression does not parse. */
  type NextFire = (string, int) -> Option<int>

  /** The states `scheduleWorkflow` clears: jobs not yet picked up by the worker. */
  const PendingStates: set<JobState> := {Delayed, Waiting}

  /** The states `unscheduleWorkflow` clears: pending jobs and the one being run. */
  const LiveStates: set<JobState> := {Delayed, Waiting, JobState.Active}

  predicate KeyedById(jobs: map<string, Job>)
  {
    forall id :: id in jobs ==> jobs[id].id == id
  }

  /** `${workflowId}-${runAt}`: the same workflow scheduled for the same instant gets the
      same id. */
  function JobId(workflowId: string, runAt: int): string
  {
    workflowId + "-" + IntText(runAt)
  }

  /** The job `queue.add` creates: delayed when its delay is positive, waiting otherwise. */
  function NewJob(workflowId: string, userId: int, workflowJson: WorkflowDefinition, runAt: int, now: int): (j: Job)
    ensures j.id == JobId(workflowId, runAt) && j.data == JobData(workflowId, userId, workflowJson)
    ensures j.state in PendingStates && j.delay == runAt - now
  {
    Job(JobId(workflowId, runAt), "workflow-" + workflowId, JobData(workflowId, userId, workflowJson),
        if runAt - now > 0 then Delayed else Waiting, runAt - now)
  }

  /** The jobs left once every job of `workflowId` in one of `states` is removed. */
  function RemoveFor(jobs: map<string, Job>, workflowId: string, states: set<JobState>): (r: map<string, Job>)
    ensures forall id :: id in r <==> id in jobs && !(jobs[id].state in states && jobs[id].data.workflowId == workflowId)
    ensures forall id :: id in r ==> r[id] == jobs[id]
  {
    map id | id in jobs && !(jobs[id].state in states && jobs[id].data.workflowId == workflowId) :: jobs[id]
  }

  /** `queue.add`: a job whose id is already taken is not added again. */
  function AddJob(jobs: map<string, Job>, job: Job): map<string, Job>
  {
    if job.id in jobs then jobs else jobs[job.id := job]
  }

  /** `scheduleWorkflow`: the pending jobs of the workflow are removed first; then, when the
      cron expression parses, the job for its next fire time is added. */
  function Scheduled(jobs: map<string, Job>, workflowId: string, userId: int, workflowJson: WorkflowDefinition,
                    cron: string, now: int, nextFire: NextFire): map<string, Job>
  {
    var kept := RemoveFor(jobs, workflowId, PendingStates);
    match nextFire(cron, now)
    case None => kept
    case Some(runAt) => AddJob(kept, NewJob(workflowId, userId, workflowJson, runAt, now))
  }

  /** `unscheduleWorkflow`. */
  function Unscheduled(jobs: map<string, Job>, workflowId: string): map<string, Job>
  {
    RemoveFor(jobs, workflowId, LiveStates)
  }

  /** The rows the reload query returns: active workflows whose trigger is a schedule, in
      table order. */
  function SelectScheduled(table: seq<Workflow>): (rows: seq<Workflow>)
    ensures forall w :: w in rows <==> w in table && w.status == WorkflowStatus.Active && w.workflowJson.trigger.kind == TriggerKind.Schedule
    ensures |rows| <= |table|
  {
    if table == [] then []
    else
      var rest := SelectScheduled(table[1..]);
      assert forall w :: w in table <==> w == table[0] || w in table[1..];
      if table[0].status == WorkflowStatus.Active && table[0].workflowJson.trigger.kind == TriggerKind.Schedule then [table[0]] + rest else rest
  }

  /** `if (cronExpression)`: a missing or empty expression is skipped. */
  predicate HasCron(w: Workflow)
  {
    w.workflowJson.trigger.cron.Some? && w.workflowJson.trigger.cron.value != ""
  }

  /** What the reload does with one row: schedule it when it has a cron expression. */
  function LoadRow(jobs: map<string, Job>, w: Workflow, now: int, nextFire: NextFire): map<string, Job>
  {
    if HasCron(w) then Scheduled(jobs, w.id, w.userId, w.workflowJson, w.workflowJson.trigger.cron.value, now, nextFire)
    else jobs
  }

  /** The reload loop over the selected rows, in order. */
  function Loaded(jobs: map<string, Job>, rows: seq<Workflow>, now: int, nextFire: NextFire): map<string, Job>
    decreases |rows|
  {
    if rows == [] then jobs
    else Loaded(LoadRow(jobs, rows[0], now, nextFire), rows[1..], now, nextFire)
  }

  /** The ids of `found` that belong to `workflowId`. */
  function Removed(found: seq<Job>, workflowId: string): set<string>
  {
    set k | 0 <= k < |found| && found[k].data.workflowId == workflowId :: found[k].id
  }

  function IdsOf(found: seq<Job>): set<string>
  {
    set k | 0 <= k < |found| :: found[k].id
  }

  // ---------------------------------------------------------------- the queue

  class JobQueue {
    var jobs: map<string, Job>

    predicate Valid()
      reads this
    {
      KeyedById(jobs)
    }

    constructor ()
      ensures jobs == map[] && Valid()
    {
      jobs := map[];
    }

    /** `getJobs(states)`: every job in one of `states`, in some order. */
    method GetJobs(states: set<JobState>) returns (found: seq<Job>)
      requires Valid()
      ensures forall k :: 0 <= k < |found| ==> found[k].id in jobs && jobs[found[k].id] == found[k] && found[k].state in states
      ensures forall id :: id in jobs && jobs[id].state in states ==> id in IdsOf(found)
    {
      found := [];
      var left := jobs.Keys;
      while left != {}
        invariant left <= jobs.Keys
        invariant forall k :: 0 <= k < |found| ==> found[k].id in jobs && jobs[found[k].id] == found[k] && found[k].state in states
        invariant forall id :: id in jobs && id !in left && jobs[id].state in states ==> id in IdsOf(found)
        decreases left
      {
        var id :| id in left;
        if jobs[id].state in states {
          IdsOfAppend(found, jobs[id]);
          found := found + [jobs[id]];
        }
        left := left - {id};
      }
    }

    /** `job.remove()`. */
    method Remove(id: string)
      requires Valid()
      modifies this
      ensures Valid() && jobs == old(jobs) - {id}
    {
      jobs := jobs - {id};
    }

    /** `queue.add`. */
    method Add(job: Job)
      requires Valid()
      modifies this
      ensures Valid() && jobs == AddJob(old(jobs), job)
    {
      if job.id !in jobs {
        jobs := jobs[job.id := job];
      }
    }
  }

  lemma IdsOfAppend(found: seq<Job>, j: Job)
    ensures IdsOf(found + [j]) == IdsOf(found) + {j.id}
  {
    var s := found + [j];
    assert s[|found|] == j;
    forall id | id in IdsOf(found) ensures id in IdsOf(s) {
      var k :| 0 <= k < |found| && found[k].id == id;
      assert s[k] == found[k];
    }
  }

  lemma RemovedAppend(found: seq<Job>, i: nat, workflowId: string)
    requires i < |found|
    ensures Removed(found[..i + 1], workflowId) ==
      Removed(found[..i], workflowId) + (if found[i].data.workflowId == workflowId then {found[i].id} else {})
  {
    var a := found[..i];
    var b := found[..i + 1];
    assert b[i] == found[i];
    forall id | id in Removed(a, workflowId) ensures id in Removed(b, workflowId) {
      var k :| 0 <= k < |a| && a[k].data.workflowId == workflowId && a[k].id == id;
      assert b[k] == a[k];
    }
  }

  /** Removing, one by one, the jobs of `workflowId` that `getJobs(states)` found removes
      exactly the jobs of that workflow in those states. */
  lemma RemovedIsRemoveFor(jobs: map<string, Job>, found: seq<Job>, workflowId: string, states: set<JobState>)
    requires forall k :: 0 <= k < |found| ==> found[k].id in jobs && jobs[found[k].id] == found[k] && found[k].state in states
    requires forall id :: id in jobs && jobs[id].state in states ==> id in IdsOf(found)
    ensures jobs - Removed(found, workflowId) == RemoveFor(jobs, workflowId, states)
  {
    var left := jobs - Removed(found, workflowId);
    var spec := RemoveFor(jobs, workflowId, states);
    forall id | id in jobs
      ensures id in Removed(found, workflowId) <==> (jobs[id].state in states && jobs[id].data.workflowId == workflowId)
    {
      if id in Removed(found, workflowId) {
        var k :| 0 <= k < |found| && found[k].data.workflowId == workflowId && found[k].id == id;
      }
      if jobs[id].state in states && jobs[id].data.workflowId == workflowId {
        assert id in IdsOf(found);
        var k :| 0 <= k < |found| && found[k].id == id;
        assert found[k].data.workflowId == workflowId;
      }
    }
    assert left.Keys == spec.Keys;
  }

  // ---------------------------------------------------------------- the scheduler

  class WorkflowScheduler {
    const queue: JobQueue

    constructor ()
      ensures fresh(queue) && queue.jobs == map[] && queue.Valid()
    {
      queue := new JobQueue();
    }

    /** The loop both `scheduleWorkflow` and `unscheduleWorkflow` run: fetch the jobs in
        `states`, remove those of `workflowId`. */
    method RemoveJobs(workflowId: string, states: set<JobState>)
      requires queue.Valid()
      modifies queue
      ensures queue.Valid()
      ensures queue.jobs == RemoveFor(old(queue.jobs), workflowId, states)
    {
      var found := queue.GetJobs(states);
      ghost var before := queue.jobs;
      var i := 0;
      while i < |found|
        invariant i <= |found|
        invariant queue.Valid()
        invariant queue.jobs == before - Removed(found[..i], workflowId)
        decreases |found| - i
      {
        RemovedAppend(found, i, workflowId);
        if found[i].data.workflowId == workflowId {
          queue.Remove(found[i].id);
        }
        i := i + 1;
      }
      assert found[..i] == found;
      RemovedIsRemoveFor(before, found, workflowId, states);
    }

    /** `scheduleWorkflow`; a cron expression that does not parse is caught after the
        removal, so nothing is added. */
    method ScheduleWorkflow(workflowId: string, userId: int, workflowJson: WorkflowDefinition,
                            cronExpression: string, now: int, nextFire: NextFire)
      requires queue.Valid()
      modifies queue
      ensures queue.Valid()
      ensures queue.jobs == Scheduled(old(queue.jobs), workflowId, userId, workflowJson, cronExpression, now, nextFire)
    {
      RemoveJobs(workflowId, PendingStates);
      var nextRun := nextFire(cronExpression, now);
      if nextRun.None? {
        return;
      }
      queue.Add(NewJob(workflowId, userId, workflowJson, nextRun.value, now));
    }

    method UnscheduleWorkflow(workflowId: string)
      requires queue.Valid()
      modifies queue
      ensures queue.Valid()
      ensures queue.jobs == Unscheduled(old(queue.jobs), workflowId)
    {
      RemoveJobs(workflowId, LiveStates);
    }

    /** `loadScheduledWorkflows`: `table` is the stored workflows, or the error the query
        fails with, which is caught and leaves the queue alone. */
    method LoadScheduledWorkflows(table: Result<seq<Workflow>>, now: int, nextFire: NextFire)
      requires queue.Valid()
      modifies queue
      ensures queue.Valid()
      ensures table.Err? ==> queue.jobs == old(queue.jobs)
      ensures table.Ok? ==> queue.jobs == Loaded(old(queue.jobs), SelectScheduled(table.value), now, nextFire)
    {
      if table.Err? {
        return;
      }
      var rows := SelectScheduled(table.value);
      var i := 0;
      while i < |rows|
        invariant i <= |rows|
        invariant queue.Valid()
        invariant Loaded(queue.jobs, rows[i..], now, nextFire) == Loaded(old(queue.jobs), rows, now, nextFire)
        decreases |rows| - i
      {
        var w := rows[i];
        assert rows[i..][0] == w && rows[i..][1..] == rows[i + 1..];
        var cron := w.workflowJson.trigger.cron;
        if cron.Some? && cron.value != "" {
          ScheduleWorkflow(w.id, w.userId, w.workflowJson, cron.value, now, nextFire);
        }
        i := i + 1;
      }
    }

    /** The worker: runs the job's snapshot with no trigger data; a failed run is re-thrown. */
    method ProcessJob(job: Job, executionId: nat, svc: Executor.Services)
      returns (record: Executor.ExecutionRecord, outcome: Result<Executor.ExecutionSummary>)
      ensures fresh(record)
      ensures var o := Executor.Run(job.data.workflowJson.steps, map[], Executor.Engine(None, svc));
        record.executionLog == o.log && record.triggerData == JObj([]) &&
        (outcome.Err? <==> o.error.Some?) && (outcome.Err? ==> outcome.error == o.error.value)
    {
      var data := job.data;
      record, outcome := Executor.Execute(data.workflowJson, data.userId, None, executionId, svc);
    }
  }

  // ---------------------------------------------------------------- properties

  /** Scheduling touches only the pending jobs of its own workflow: every other job, and the
      workflow's own running or finished jobs, stay as they were. */
  lemma ScheduleKeepsOthers(jobs: map<string, Job>, workflowId: string, userId: int, workflowJson: WorkflowDefinition,
                            cron: string, now: int, nextFire: NextFire, id: string)
    requires id in jobs && (jobs[id].data.workflowId != workflowId || jobs[id].state !in PendingStates)
    ensures var r := Scheduled(jobs, workflowId, userId, workflowJson, cron, now, nextFire);
      id in r && r[id] == jobs[id]
  {
  }

  /** After scheduling, the workflow's only pending job is the one for the next fire time,
      present whenever its id was free; when the expression does not parse it has none. */
  lemma SchedulePending(jobs: map<string, Job>, workflowId: string, userId: int, workflowJson: WorkflowDefinition,
                        cron: string, now: int, nextFire: NextFire)
    ensures var r := Scheduled(jobs, workflowId, userId, workflowJson, cron, now, nextFire);
      forall id :: id in r && r[id].data.workflowId == workflowId && r[id].state in PendingStates ==>
        nextFire(cron, now).Some? && r[id] == NewJob(workflowId, userId, workflowJson, nextFire(cron, now).value, now)
    ensures var r := Scheduled(jobs, workflowId, userId, workflowJson, cron, now, nextFire);
      nextFire(cron, now).Some? && JobId(workflowId, nextFire(cron, now).value) !in RemoveFor(jobs, workflowId, PendingStates) ==>
        var j := NewJob(workflowId, userId, workflowJson, nextFire(cron, now).value, now);
        j.id in r && r[j.id] == j
  {
  }

  /** Scheduling twice with the same arguments leaves the queue as scheduling once. */
  lemma ScheduleIdempotent(jobs: map<string, Job>, workflowId: string, userId: int, workflowJson: WorkflowDefinition,
                           cron: string, now: int, nextFire: NextFire)
    ensures var once := Scheduled(jobs, workflowId, userId, workflowJson, cron, now, nextFire);
      Scheduled(once, workflowId, userId, workflowJson, cron, now, nextFire) == once
  {
    var kept := RemoveFor(jobs, workflowId, PendingStates);
    var once := Scheduled(jobs, workflowId, userId, workflowJson, cron, now, nextFire);
    assert RemoveFor(kept, workflowId, PendingStates) == kept;
    match nextFire(cron, now)
    case None =>
    case Some(runAt) =>
      var j := NewJob(workflowId, userId, workflowJson, runAt, now);
      if j.id !in kept {
        assert RemoveFor(once, workflowId, PendingStates) == kept;
      }
  }

  /** Unscheduling leaves the workflow no pending or running job and keeps every other job. */
  lemma UnscheduleRemoves(jobs: map<string, Job>, workflowId: string)
    ensures var r := Unscheduled(jobs, workflowId);
      (forall id :: id in r && r[id].data.workflowId == workflowId ==> r[id].state !in LiveStates) &&
      (forall id :: id in jobs && (jobs[id].data.workflowId != workflowId || jobs[id].state !in LiveStates) ==>
         id in r && r[id] == jobs[id])
  {
  }

  /** Reloading touches only workflows that are selected and carry a cron expression: a job
      of any other workflow stays as it was. */
  lemma {:induction false} LoadKeepsOthers(jobs: map<string, Job>, rows: seq<Workflow>, now: int, nextFire: NextFire, id: string)
    requires id in jobs
    requires forall k :: 0 <= k < |rows| && HasCron(rows[k]) ==> rows[k].id != jobs[id].data.workflowId
    ensures var r := Loaded(jobs, rows, now, nextFire);
      id in r && r[id] == jobs[id]
    decreases |rows|
  {
    if rows != [] {
      var w := rows[0];
      if HasCron(w) {
        ScheduleKeepsOthers(jobs, w.id, w.userId, w.workflowJson, w.workflowJson.trigger.cron.value, now, nextFire, id);
      }
      assert forall k :: 0 <= k < |rows[1..]| ==> rows[1..][k] == rows[k + 1];
      LoadKeepsOthers(LoadRow(jobs, w, now, nextFire), rows[1..], now, nextFire, id);
    }
  }

  // ---------------------------------------------------------------- reload is idempotent

  /** The clock is not before the epoch, and an expression that parses next fires after
      `now`, as a cron iterator started at `now` does. */
  ghost predicate FiresAfter(nextFire: NextFire, now: int)
  {
    now >= 0 && forall cron :: nextFire(cron, now).Some? ==> nextFire(cron, now).value > now
  }

  /** Every job whose id reads `${workflowId}-${runAt}` belongs to that workflow: the queue
      holds no job under an id another workflow's next run would take. */
  ghost predicate OwnedIds(jobs: map<string, Job>)
  {
    forall x: string, t: nat :: JobId(x, t) in jobs ==> jobs[JobId(x, t)].data.workflowId == x
  }

  /** The ids of distinct workflows at times not before the epoch are distinct: the digits of
      the time hold no `-`, so the last `-` of an id ends the workflow id. */
  lemma JobIdInjective(a: string, t: nat, b: string, u: nat)
    requires JobId(a, t) == JobId(b, u)
    ensures a == b && t == u
  {
    LastDash(a, NatText(t), b, NatText(u));
    DigitsValueOfNatText(t);
    DigitsValueOfNatText(u);
  }

  lemma LastDash(a: string, d: string, b: string, e: string)
    requires AllDigits(d) && AllDigits(e) && a + "-" + d == b + "-" + e
    ensures a == b && d == e
  {
    var s := a + "-" + d;
    var n := |s|;
    assert s[n - |d| - 1] == '-' && s[n - |e| - 1] == '-';
    assert forall i :: n - |d| <= i < n ==> s[i] == d[i - (n - |d|)] && IsDigit(s[i]);
    assert forall i :: n - |e| <= i < n ==> s[i] == e[i - (n - |e|)] && IsDigit(s[i]);
    assert d == s[n - |d|..] == e;
    assert a == s[..|a|] == b;
  }

  predicate DistinctIds(rows: seq<Workflow>)
  {
    forall a, b :: 0 <= a < b < |rows| ==> rows[a].id != rows[b].id
  }

  /** The job a row adds, if any. */
  function RowJob(w: Workflow, now: int, nextFire: NextFire): Option<Job>
  {
    if !HasCron(w) then None
    else match nextFire(w.workflowJson.trigger.cron.value, now)
      case None => None
      case Some(runAt) => Some(NewJob(w.id, w.userId, w.workflowJson, runAt, now))
  }

  function RowKept(jobs: map<string, Job>, w: Workflow): map<string, Job>
  {
    if HasCron(w) then RemoveFor(jobs, w.id, PendingStates) else jobs
  }

  function AddOpt(jobs: map<string, Job>, job: Option<Job>): map<string, Job>
  {
    if job.Some? then AddJob(jobs, job.value) else jobs
  }

  /** One row of the reload is a removal followed by at most one addition. */
  lemma LoadRowSplit(jobs: map<string, Job>, w: Workflow, now: int, nextFire: NextFire)
    ensures LoadRow(jobs, w, now, nextFire) == AddOpt(RowKept(jobs, w), RowJob(w, now, nextFire))
  {
  }

  /** The job a row adds is owned by the row's workflow, under a time not before the epoch. */
  lemma RowJobOwned(w: Workflow, now: int, nextFire: NextFire) returns (t: nat)
    requires FiresAfter(nextFire, now)
    requires RowJob(w, now, nextFire).Some?
    ensures RowJob(w, now, nextFire).value.id == JobId(w.id, t)
    ensures RowJob(w, now, nextFire).value.data.workflowId == w.id
    ensures RowJob(w, now, nextFire).value.state in PendingStates
  {
    t := nextFire(w.workflowJson.trigger.cron.value, now).value;
  }

  lemma AddOwned(jobs: map<string, Job>, job: Job, t: nat)
    requires OwnedIds(jobs) && job.id == JobId(job.data.workflowId, t)
    ensures OwnedIds(AddJob(jobs, job))
  {
    var r := AddJob(jobs, job);
    forall x: string, u: nat | JobId(x, u) in r ensures r[JobId(x, u)].data.workflowId == x {
      if JobId(x, u) == job.id && job.id !in jobs {
        JobIdInjective(x, u, job.data.workflowId, t);
      }
    }
  }

  /** One row of the reload keeps every id owned by its workflow. */
  lemma LoadRowOwned(jobs: map<string, Job>, w: Workflow, now: int, nextFire: NextFire)
    requires FiresAfter(nextFire, now) && OwnedIds(jobs)
    ensures OwnedIds(LoadRow(jobs, w, now, nextFire))
  {
    LoadRowSplit(jobs, w, now, nextFire);
    var kept := RowKept(jobs, w);
    assert OwnedIds(kept);
    if RowJob(w, now, nextFire).Some? {
      var t := RowJobOwned(w, now, nextFire);
      AddOwned(kept, RowJob(w, now, nextFire).value, t);
    }
  }

  lemma KeptCommute(jobs: map<string, Job>, w: Workflow, v: Workflow)
    ensures RowKept(RowKept(jobs, w), v) == RowKept(RowKept(jobs, v), w)
  {
  }

  /** Removing one workflow's pending jobs and adding another's next job commute. */
  lemma KeptAddCommute(jobs: map<string, Job>, w: Workflow, v: Workflow, now: int, nextFire: NextFire)
    requires FiresAfter(nextFire, now) && OwnedIds(jobs) && w.id != v.id
    ensures RowKept(AddOpt(jobs, RowJob(v, now, nextFire)), w) == AddOpt(RowKept(jobs, w), RowJob(v, now, nextFire))
  {
    if RowJob(v, now, nextFire).Some? && HasCron(w) {
      var job := RowJob(v, now, nextFire).value;
      var t := RowJobOwned(v, now, nextFire);
      assert job.id in jobs ==> jobs[job.id].data.workflowId == v.id;
    }
  }

  lemma AddCommute(jobs: map<string, Job>, w: Workflow, v: Workflow, now: int, nextFire: NextFire)
    requires FiresAfter(nextFire, now) && w.id != v.id
    ensures AddOpt(AddOpt(jobs, RowJob(w, now, nextFire)), RowJob(v, now, nextFire)) ==
            AddOpt(AddOpt(jobs, RowJob(v, now, nextFire)), RowJob(w, now, nextFire))
  {
    if RowJob(w, now, nextFire).Some? && RowJob(v, now, nextFire).Some? {
      var a := RowJobOwned(w, now, nextFire);
      var b := RowJobOwned(v, now, nextFire);
      if JobId(w.id, a) == JobId(v.id, b) {
        JobIdInjective(w.id, a, v.id, b);
      }
    }
  }

  /** Reloads and unscheduling keep every `${workflowId}-${runAt}` id with its workflow, so a
      queue that starts empty always has owned ids. */
  lemma {:induction false} LoadOwned(jobs: map<string, Job>, rows: seq<Workflow>, now: int, nextFire: NextFire)
    requires FiresAfter(nextFire, now) && OwnedIds(jobs)
    ensures OwnedIds(Loaded(jobs, rows, now, nextFire))
    decreases |rows|
  {
    if rows != [] {
      LoadRowOwned(jobs, rows[0], now, nextFire);
      LoadOwned(LoadRow(jobs, rows[0], now, nextFire), rows[1..], now, nextFire);
    }
  }

  lemma UnscheduleOwned(jobs: map<string, Job>, workflowId: string)
    requires OwnedIds(jobs)
    ensures OwnedIds(Unscheduled(jobs, workflowId))
  {
  }

  /** Rows of two different workflows can be reloaded in either order. */
  lemma LoadRowCommute(jobs: map<string, Job>, w: Workflow, v: Workflow, now: int, nextFire: NextFire)
    requires FiresAfter(nextFire, now) && OwnedIds(jobs) && w.id != v.id
    ensures LoadRow(LoadRow(jobs, w, now, nextFire), v, now, nextFire) ==
            LoadRow(LoadRow(jobs, v, now, nextFire), w, now, nextFire)
  {
    var jw, jv := RowJob(w, now, nextFire), RowJob(v, now, nextFire);
    var kw, kv := RowKept(jobs, w), RowKept(jobs, v);
    LoadRowSplit(jobs, w, now, nextFire);
    LoadRowSplit(jobs, v, now, nextFire);
    LoadRowSplit(AddOpt(kw, jw), v, now, nextFire);
    LoadRowSplit(AddOpt(kv, jv), w, now, nextFire);
    assert OwnedIds(kw) && OwnedIds(kv);
    KeptAddCommute(kw, v, w, now, nextFire);
    KeptAddCommute(kv, w, v, now, nextFire);
    KeptCommute(jobs, w, v);
    AddCommute(RowKept(kw, v), w, v, now, nextFire);
  }

  /** A row can be moved past rows of other workflows. */
  lemma {:induction false} LoadRowThrough(jobs: map<string, Job>, w: Workflow, rows: seq<Workflow>, now: int, nextFire: NextFire)
    requires FiresAfter(nextFire, now) && OwnedIds(jobs)
    requires forall k :: 0 <= k < |rows| ==> rows[k].id != w.id
    ensures LoadRow(Loaded(jobs, rows, now, nextFire), w, now, nextFire) ==
            Loaded(LoadRow(jobs, w, now, nextFire), rows, now, nextFire)
    decreases |rows|
  {
    if rows != [] {
      var v := rows[0];
      LoadRowOwned(jobs, v, now, nextFire);
      assert forall k :: 0 <= k < |rows[1..]| ==> rows[1..][k] == rows[k + 1];
      LoadRowThrough(LoadRow(jobs, v, now, nextFire), w, rows[1..], now, nextFire);
      LoadRowCommute(jobs, v, w, now, nextFire);
    }
  }

  lemma LoadRowIdempotent(jobs: map<string, Job>, w: Workflow, now: int, nextFire: NextFire)
    ensures LoadRow(LoadRow(jobs, w, now, nextFire), w, now, nextFire) == LoadRow(jobs, w, now, nextFire)
  {
    if HasCron(w) {
      ScheduleIdempotent(jobs, w.id, w.userId, w.workflowJson, w.workflowJson.trigger.cron.value, now, nextFire);
    }
  }

  /** Reloading twice at the same instant leaves the queue as reloading once: the rows are
      distinct workflows and the ids in the queue are owned by their workflows. */
  lemma {:induction false} LoadIdempotent(jobs: map<string, Job>, rows: seq<Workflow>, now: int, nextFire: NextFire)
    requires FiresAfter(nextFire, now) && OwnedIds(jobs) && DistinctIds(rows)
    ensures Loaded(Loaded(jobs, rows, now, nextFire), rows, now, nextFire) == Loaded(jobs, rows, now, nextFire)
    decreases |rows|
  {
    if rows != [] {
      var w, rest := rows[0], rows[1..];
      var first := LoadRow(jobs, w, now, nextFire);
      var once := Loaded(first, rest, now, nextFire);
      assert forall k :: 0 <= k < |rest| ==> rest[k] == rows[k + 1] && rows[k + 1].id != w.id;
      assert DistinctIds(rest);
      LoadRowOwned(jobs, w, now, nextFire);
      calc {
        LoadRow(once, w, now, nextFire);
        { LoadRowThrough(first, w, rest, now, nextFire); }
        Loaded(LoadRow(first, w, now, nextFire), rest, now, nextFire);
        { LoadRowIdempotent(jobs, w, now, nextFire); }
        once;
      }
      LoadIdempotent(first, rest, now, nextFire);
    }
  }

  /** A reload adds no job to a workflow it does not schedule: every job of such a workflow
      afterwards was in the queue before. */
  lemma {:induction false} LoadAddsNoOther(jobs: map<string, Job>, rows: seq<Workflow>, now: int, nextFire: NextFire, id: string)
    requires var r := Loaded(jobs, rows, now, nextFire);
      id in r && forall k :: 0 <= k < |rows| && HasCron(rows[k]) ==> rows[k].id != r[id].data.workflowId
    ensures id in jobs && jobs[id] == Loaded(jobs, rows, now, nextFire)[id]
    decreases |rows|
  {
    if rows != [] {
      var w := rows[0];
      var next := LoadRow(jobs, w, now, nextFire);
      assert forall k :: 0 <= k < |rows[1..]| ==> rows[1..][k] == rows[k + 1];
      LoadAddsNoOther(next, rows[1..], now, nextFire, id);
    }
  }

  /** After a reload, a scheduled row's workflow has no pending job but the one for its next
      fire time: later rows neither add nor remove its jobs. */
  lemma {:induction false} LoadPending(jobs: map<string, Job>, rows: seq<Workflow>, now: int, nextFire: NextFire, k: nat, id: string)
    requires DistinctIds(rows) && k < |rows| && HasCron(rows[k])
    requires var r := Loaded(jobs, rows, now, nextFire);
      id in r && r[id].data.workflowId == rows[k].id && r[id].state in PendingStates
    ensures RowJob(rows[k], now, nextFire).Some? && Loaded(jobs, rows, now, nextFire)[id] == RowJob(rows[k], now, nextFire).value
    decreases |rows|
  {
    var w, rest := rows[0], rows[1..];
    var next := LoadRow(jobs, w, now, nextFire);
    assert forall i :: 0 <= i < |rest| ==> rest[i] == rows[i + 1];
    if k == 0 {
      assert forall i :: 0 <= i < |rest| ==> rest[i] == rows[i + 1] && rest[i].id != w.id;
      LoadAddsNoOther(next, rest, now, nextFire, id);
      SchedulePending(jobs, w.id, w.userId, w.workflowJson, w.workflowJson.trigger.cron.value, now, nextFire);
    } else {
      assert DistinctIds(rest);
      LoadPending(next, rest, now, nextFire, k - 1, id);
    }
  }
}
