/** The job queue of services/EnhancedDockerRunner.js: submitted runs get a
    `queued` record and wait in a FIFO queue, and a drain loop takes them from
    the front, one at a time, through `running` to `done` or `error`. The
    `runs` table is a map from run id to record; the container runner is an
    oracle from (language, code, input) to what its `runCode` settles with. */
module JobQueue {
  import opened Wrappers

  /** The `status` ENUM of the `runs` table. */
  datatype RunStatus = Queued | Running | Done | Error

  /** A row of `runs`; the nullable columns are options. */
  datatype RunRecord = RunRecord(
    userId: Option<int>, language: string, input: string,
    stdout: Option<string>, stderr: Option<string>, status: RunStatus)

  /** `{ runId, userId, language, code, input }`. */
  datatype Job = Job(runId: nat, userId: Option<int>, language: string, code: string, input: string)

  /** What `this.runCode(language, code, input)` settles with. */
  datatype RunnerResult =
    | Returned(stdout: string, stderr: string, exitCode: int)
    | Threw(message: string)

  /** The record `Run.create` inserts. */
  function QueuedRecord(userId: Option<int>, language: string, input: string): (r: RunRecord)
    ensures r.status == Queued && r.stdout == None && r.stderr == None
    ensures r.userId == userId && r.language == language && r.input == input
  {
    RunRecord(userId, language, input, None, None, Queued)
  }

  /** The status the second `Run.update` writes. */
  function TerminalStatus(r: RunnerResult): RunStatus
  {
    match r
    case Returned(_, _, exitCode) => if exitCode == 0 then Done else Error
    case Threw(_) => Error
  }

  /** The row after the terminal `Run.update` of `executeJob`: a returned
      result overwrites status and both streams, a thrown one only status and
      stderr. */
  function Finish(rec: RunRecord, r: RunnerResult): RunRecord
  {
    match r
    case Returned(stdout, stderr, _) => rec.(status := TerminalStatus(r), stdout := Some(stdout), stderr := Some(stderr))
    case Threw(message) => rec.(status := Error, stderr := Some(message))
  }

  /** `Run.update(…, { where: { id } })`: no row changes when there is none
      with that id. */
  function Update(records: map<nat, RunRecord>, id: nat, f: RunRecord -> RunRecord): map<nat, RunRecord>
  {
    if id in records then records[id := f(records[id])] else records
  }

  /** `executeJob(job)` on the table: `running`, then the terminal row. */
  function Execute(records: map<nat, RunRecord>, job: Job, runner: (string, string, string) -> RunnerResult): map<nat, RunRecord>
  {
    var running := Update(records, job.runId, (rec: RunRecord) => rec.(status := Running));
    Update(running, job.runId, (rec: RunRecord) => Finish(rec, runner(job.language, job.code, job.input)))
  }

  /** The table after the jobs ran in order from the front. */
  function Drain(records: map<nat, RunRecord>, jobs: seq<Job>, runner: (string, string, string) -> RunnerResult): map<nat, RunRecord>
    decreases |jobs|
  {
    if jobs == [] then records else Drain(Execute(records, jobs[0], runner), jobs[1..], runner)
  }

  /** The status writes `executeJob` makes, in order. */
  function ExecuteWrites(job: Job, runner: (string, string, string) -> RunnerResult): seq<(nat, RunStatus)>
  {
    [(job.runId, Running), (job.runId, TerminalStatus(runner(job.language, job.code, job.input)))]
  }

  function DrainWrites(jobs: seq<Job>, runner: (string, string, string) -> RunnerResult): seq<(nat, RunStatus)>
    decreases |jobs|
  {
    if jobs == [] then [] else ExecuteWrites(jobs[0], runner) + DrainWrites(jobs[1..], runner)
  }

  function Ids(jobs: seq<Job>): seq<nat>
    decreases |jobs|
  {
    if jobs == [] then [] else [jobs[0].runId] + Ids(jobs[1..])
  }

  predicate DistinctIds(jobs: seq<Job>)
  {
    forall i, j :: 0 <= i < j < |jobs| ==> jobs[i].runId != jobs[j].runId
  }

  // -------------------------------------------------------------- lemmas

  /** `done` exactly when the runner returned exit code 0; the timeout's -1
      and a thrown error are both `error`. */
  lemma TerminalStatusSpec(r: RunnerResult)
    ensures TerminalStatus(r) == Done <==> r.Returned? && r.exitCode == 0
    ensures TerminalStatus(r) != Queued && TerminalStatus(r) != Running
  {
  }

  /** A returned result's streams are copied unchanged; a thrown error puts
      its message in stderr and leaves stdout as it was. */
  lemma FinishSpec(rec: RunRecord, r: RunnerResult)
    ensures Finish(rec, r).status == TerminalStatus(r)
    ensures r.Returned? ==> Finish(rec, r).stdout == Some(r.stdout) && Finish(rec, r).stderr == Some(r.stderr)
    ensures r.Threw? ==> Finish(rec, r).stdout == rec.stdout && Finish(rec, r).stderr == Some(r.message)
    ensures Finish(rec, r).(status := rec.status, stdout := rec.stdout, stderr := rec.stderr) == rec
  {
  }

  /** Running a job touches only its own row. */
  lemma ExecuteFrame(records: map<nat, RunRecord>, job: Job, runner: (string, string, string) -> RunnerResult)
    ensures Execute(records, job, runner).Keys == records.Keys
    ensures forall id :: id in records && id != job.runId ==> Execute(records, job, runner)[id] == records[id]
    ensures job.runId in records ==>
      Execute(records, job, runner)[job.runId] == Finish(records[job.runId].(status := Running), runner(job.language, job.code, job.input))
  {
  }

  /** Rows of ids outside the drained jobs are unchanged, and no row is
      added or removed. */
  lemma {:induction false} DrainFrame(records: map<nat, RunRecord>, jobs: seq<Job>, runner: (string, string, string) -> RunnerResult, id: nat)
    ensures Drain(records, jobs, runner).Keys == records.Keys
    ensures id in records && id !in Ids(jobs) ==> Drain(records, jobs, runner)[id] == records[id]
    decreases |jobs|
  {
    if jobs != [] {
      ExecuteFrame(records, jobs[0], runner);
      DrainFrame(Execute(records, jobs[0], runner), jobs[1..], runner, id);
    }
  }

  lemma {:induction false} IdsIndex(jobs: seq<Job>)
    ensures |Ids(jobs)| == |jobs|
    ensures forall k :: 0 <= k < |jobs| ==> Ids(jobs)[k] == jobs[k].runId
    decreases |jobs|
  {
    if jobs != [] {
      IdsIndex(jobs[1..]);
    }
  }

  lemma {:induction false} IdsConcat(a: seq<Job>, b: seq<Job>)
    ensures Ids(a + b) == Ids(a) + Ids(b)
    decreases |a|
  {
    if a != [] {
      assert (a + b)[0] == a[0] && (a + b)[1..] == a[1..] + b;
      IdsConcat(a[1..], b);
    } else {
      assert a + b == b;
    }
  }

  /** Every drained job with distinct ids ends in the row its own run
      produced: `done` exactly when its exit code was 0, with the streams
      copied, or `error` with the thrown message. */
  lemma {:induction false} DrainOutcome(records: map<nat, RunRecord>, jobs: seq<Job>, runner: (string, string, string) -> RunnerResult, k: int)
    requires DistinctIds(jobs)
    requires 0 <= k < |jobs| && jobs[k].runId in records
    ensures jobs[k].runId in Drain(records, jobs, runner)
    ensures Drain(records, jobs, runner)[jobs[k].runId]
         == Finish(records[jobs[k].runId].(status := Running), runner(jobs[k].language, jobs[k].code, jobs[k].input))
    decreases |jobs|
  {
    var e := Execute(records, jobs[0], runner);
    ExecuteFrame(records, jobs[0], runner);
    DrainFrame(records, jobs, runner, jobs[k].runId);
    if k == 0 {
      IdsIndex(jobs[1..]);
      assert jobs[0].runId !in Ids(jobs[1..]) by {
        forall m | 0 <= m < |jobs[1..]| ensures Ids(jobs[1..])[m] != jobs[0].runId {
          assert jobs[1..][m] == jobs[m + 1];
        }
      }
      DrainFrame(e, jobs[1..], runner, jobs[0].runId);
    } else {
      assert jobs[1..][k - 1] == jobs[k];
      DrainOutcome(e, jobs[1..], runner, k - 1);
    }
  }

  /** Each job's statuses go `running` then terminal, adjacent, and jobs
      follow queue order. */
  lemma {:induction false} DrainWritesOrder(jobs: seq<Job>, runner: (string, string, string) -> RunnerResult, k: int)
    requires 0 <= k < |jobs|
    ensures |DrainWrites(jobs, runner)| == 2 * |jobs|
    ensures DrainWrites(jobs, runner)[2 * k] == (jobs[k].runId, Running)
    ensures DrainWrites(jobs, runner)[2 * k + 1] == (jobs[k].runId, TerminalStatus(runner(jobs[k].language, jobs[k].code, jobs[k].input)))
    decreases |jobs|
  {
    if k > 0 {
      assert jobs[1..][k - 1] == jobs[k];
      DrainWritesOrder(jobs[1..], runner, k - 1);
    } else if |jobs| > 1 {
      DrainWritesOrder(jobs[1..], runner, 0);
    }
  }

  lemma {:induction false} DrainConcat(records: map<nat, RunRecord>, a: seq<Job>, b: seq<Job>, runner: (string, string, string) -> RunnerResult)
    ensures Drain(records, a + b, runner) == Drain(Drain(records, a, runner), b, runner)
    ensures DrainWrites(a + b, runner) == DrainWrites(a, runner) + DrainWrites(b, runner)
    decreases |a|
  {
    if a == [] {
      assert a + b == b;
    } else {
      assert (a + b)[1..] == a[1..] + b;
      DrainConcat(Execute(records, a[0], runner), a[1..], b, runner);
    }
  }

  lemma DrainOne(records: map<nat, RunRecord>, done: seq<Job>, job: Job, runner: (string, string, string) -> RunnerResult)
    ensures Drain(records, done + [job], runner) == Execute(Drain(records, done, runner), job, runner)
    ensures DrainWrites(done + [job], runner) == DrainWrites(done, runner) + ExecuteWrites(job, runner)
    ensures Ids(done + [job]) == Ids(done) + [job.runId]
  {
    DrainConcat(records, done, [job], runner);
    IdsConcat(done, [job]);
  }

  // --------------------------------------------------------------- the class

  /** `EnhancedDockerRunner`: the queue, the processing flag and, as state of
      this model, the `runs` table it writes through Sequelize. */
  class Runner {
    var jobQueue: seq<Job>
    var isProcessing: bool
    var records: map<nat, RunRecord>
    /** The id the table's auto-increment hands out next. */
    var nextId: nat
    /** The ids of the jobs `executeJob` has run, in order, and the status
        writes it made. */
    ghost var executed: seq<nat>
    ghost var writes: seq<(nat, RunStatus)>

    /** Every queued job has its own `queued` row, and every row id was
        handed out. */
    ghost predicate Valid()
      reads this
    {
      DistinctIds(jobQueue) &&
      (forall k :: 0 <= k < |jobQueue| ==> jobQueue[k].runId in records && records[jobQueue[k].runId].status == Queued) &&
      (forall id :: id in records ==> id < nextId)
    }

    constructor()
      ensures Valid()
      ensures jobQueue == [] && !isProcessing && records == map[] && executed == [] && writes == []
    {
      jobQueue := [];
      isProcessing := false;
      records := map[];
      nextId := 0;
      executed := [];
      writes := [];
    }

    /** `executeJob(job)`. */
    method ExecuteJob(job: Job, runner: (string, string, string) -> RunnerResult)
      modifies this
      ensures records == Execute(old(records), job, runner)
      ensures executed == old(executed) + [job.runId]
      ensures writes == old(writes) + ExecuteWrites(job, runner)
      ensures jobQueue == old(jobQueue) && isProcessing == old(isProcessing) && nextId == old(nextId)
    {
      records := Update(records, job.runId, (rec: RunRecord) => rec.(status := Running));
      writes := writes + [(job.runId, Running)];
      var result := runner(job.language, job.code, job.input);
      records := Update(records, job.runId, (rec: RunRecord) => Finish(rec, result));
      writes := writes + [(job.runId, TerminalStatus(result))];
      executed := executed + [job.runId];
    }

    /** `processQueue()`: nothing while a drain is under way or the queue is
        empty; otherwise every job runs, from the front, and the flag is
        cleared at the end. */
    method ProcessQueue(runner: (string, string, string) -> RunnerResult)
      requires Valid()
      modifies this
      ensures Valid()
      ensures old(isProcessing) || old(jobQueue) == [] ==>
        jobQueue == old(jobQueue) && isProcessing == old(isProcessing) && records == old(records) &&
        executed == old(executed) && writes == old(writes)
      ensures !old(isProcessing) ==>
        jobQueue == [] && !isProcessing &&
        records == Drain(old(records), old(jobQueue), runner) &&
        executed == old(executed) + Ids(old(jobQueue)) &&
        writes == old(writes) + DrainWrites(old(jobQueue), runner)
      ensures nextId == old(nextId)
    {
      if isProcessing || |jobQueue| == 0 {
        return;
      }
      isProcessing := true;
      ghost var queue0, records0, executed0, writes0 := jobQueue, records, executed, writes;
      ghost var n := 0;
      while |jobQueue| > 0
        invariant 0 <= n <= |queue0| && jobQueue == queue0[n..]
        invariant records == Drain(records0, queue0[..n], runner)
        invariant executed == executed0 + Ids(queue0[..n])
        invariant writes == writes0 + DrainWrites(queue0[..n], runner)
        invariant nextId == old(nextId) && isProcessing
        decreases |jobQueue|
      {
        var job := jobQueue[0];
        jobQueue := jobQueue[1..];
        assert queue0[..n + 1] == queue0[..n] + [job];
        DrainOne(records0, queue0[..n], job, runner);
        ExecuteJob(job, runner);
        n := n + 1;
      }
      isProcessing := false;
      assert queue0[..n] == queue0;
      DrainFrame(records0, queue0, runner, 0);
    }

    /** `queueCodeExecution(userId, language, code, input)`: a fresh `queued`
        row, the job at the tail of the queue, a drain when none is under way,
        and the row's id. */
    method QueueCodeExecution(userId: Option<int>, language: string, code: string, input: string,
                              runner: (string, string, string) -> RunnerResult)
      returns (runId: nat)
      requires Valid()
      modifies this
      ensures Valid()
      ensures runId == old(nextId) && runId !in old(records) && nextId == old(nextId) + 1
      ensures old(isProcessing) ==>
        jobQueue == old(jobQueue) + [Job(runId, userId, language, code, input)] &&
        records == old(records)[runId := QueuedRecord(userId, language, input)] &&
        executed == old(executed) && writes == old(writes) && isProcessing
      ensures !old(isProcessing) ==>
        jobQueue == [] && !isProcessing &&
        records == Drain(old(records)[runId := QueuedRecord(userId, language, input)],
                         old(jobQueue) + [Job(runId, userId, language, code, input)], runner) &&
        executed == old(executed) + Ids(old(jobQueue)) + [runId] &&
        writes == old(writes) + DrainWrites(old(jobQueue) + [Job(runId, userId, language, code, input)], runner)
    {
      runId := nextId;
      nextId := nextId + 1;
      records := records[runId := QueuedRecord(userId, language, input)];
      var job := Job(runId, userId, language, code, input);
      forall k | 0 <= k < |jobQueue|
        ensures jobQueue[k].runId != runId
      {
      }
      jobQueue := jobQueue + [job];
      ghost var queue1 := jobQueue;
      if !isProcessing {
        ProcessQueue(runner);
        IdsConcat(queue1[..|queue1| - 1], [job]);
        assert queue1[..|queue1| - 1] + [job] == queue1;
      }
    }

    /** `getJobStatus(runId)`: the row, or `null` when there is none. */
    method GetJobStatus(runId: nat) returns (r: Option<RunRecord>)
      ensures r.Some? <==> runId in records
      ensures r.Some? ==> r.value == records[runId]
    {
      r := if runId in records then Some(records[runId]) else None;
    }
  }

  /** FIFO: the jobs two submissions queue run in submission order, each
      reaching its terminal row after being `running`. */
  lemma SubmissionOrder(records: map<nat, RunRecord>, a: Job, b: Job, runner: (string, string, string) -> RunnerResult)
    ensures DrainWrites([a, b], runner)
         == [(a.runId, Running), (a.runId, TerminalStatus(runner(a.language, a.code, a.input))),
             (b.runId, Running), (b.runId, TerminalStatus(runner(b.language, b.code, b.input)))]
    ensures Ids([a, b]) == [a.runId, b.runId]
  {
    assert [a, b][1..] == [b] && [b][1..] == [];
    assert DrainWrites([b], runner) == ExecuteWrites(b, runner);
    assert Ids([b]) == [b.runId];
  }
}
