/**
 Reports and job completion, call by call: what a report, a poll or a completion check does to the
 tables when no other call interferes.
 */
module ResultHandling {
  import opened Basics
  import opened RetryPolicy
  import opened JobRows
  import opened Store
  import opened Protocol

  /** A controller-side runner started by a completion check. */
  datatype Launch = LaunchConcat(task: nat, paths: seq<string>) | LaunchVmaf(task: nat)

  datatype Outcome = Outcome(db: Db, launch: Option<Launch>)

  const SKIPPED_CONCAT := "skipped: chunk tasks failed"
  const SKIPPED_VMAF := "skipped: predecessor tasks failed"

  // ----- the completion check as a function; `row` is the job row as read at its start -----

  function Settled(db: Db, j: nat, row: Job): Outcome {
    if row.counts.pending > 0 || row.counts.running > 0 then Outcome(db, None)
    else if row.counts.failed > 0 then Outcome(SetJobStatus(db, j, Failed), None)
    else Outcome(UnblockDependents(SetJobStatus(db, j, Completed), j), None)
  }

  predicate TriesConcat(cfg: Config, row: Job) {
    cfg.concatRunner && row.counts.pending == 1 && row.counts.running == 0
  }

  predicate TriesVmaf(cfg: Config, row: Job) {
    cfg.vmafRunner && row.counts.running == 0 && row.counts.pending > 0
  }

  function Pick(db: Db, j: nat, kind: Kind): Option<nat> {
    FirstPending(db.tasks, ListByJob(db.tasks, j), kind)
  }

  function Skip(db: Db, j: nat, t: nat, message: string): Db {
    Recount(FailTask(db, t, -1, message), j)
  }

  function VmafPart(cfg: Config, db: Db, j: nat, row: Job): Outcome {
    if !TriesVmaf(cfg, row) then Settled(db, j, row)
    else match Pick(db, j, VmafTarget)
      case None => Settled(db, j, row)
      case Some(t) =>
        if row.counts.failed > 0 then Settled(Skip(db, j, t, SKIPPED_VMAF), j, row)
        else Outcome(ClaimRow(db, t), Some(LaunchVmaf(t)))
  }

  function Checked(cfg: Config, db: Db, j: nat): Outcome {
    if !HasJob(db, j) then Outcome(db, None)
    else
      var row := db.jobs[j];
      if !TriesConcat(cfg, row) then VmafPart(cfg, db, j, row)
      else match Pick(db, j, Concat)
        case None => VmafPart(cfg, db, j, row)
        case Some(t) =>
          if row.counts.failed > 0 then VmafPart(cfg, Skip(db, j, t, SKIPPED_CONCAT), j, row)
          else Outcome(ClaimRow(db, t), Some(LaunchConcat(t, ChunkPaths(db.tasks, ListByJob(db.tasks, j)))))
  }

  /** A recount followed by the check, as every caller does it. */
  function RecountedCheck(cfg: Config, db: Db, j: nat): Outcome {
    Checked(cfg, Recount(db, j), j)
  }

  // ----- which other jobs a check changes -----

  lemma SettledReleases(db: Db, j: nat, row: Job)
    ensures ReleasesWaiting(db.jobs, Settled(db, j, row).db.jobs, j, Closes(row.counts))
  {
  }

  lemma VmafPartReleases(cfg: Config, db: Db, j: nat, row: Job)
    ensures ReleasesWaiting(db.jobs, VmafPart(cfg, db, j, row).db.jobs, j, VmafPart(cfg, db, j, row).launch.None? && Closes(row.counts))
  {
    SettledReleases(db, j, row);
    if TriesVmaf(cfg, row) && Pick(db, j, VmafTarget).Some? {
      SettledReleases(Skip(db, j, Pick(db, j, VmafTarget).value, SKIPPED_VMAF), j, row);
    }
  }

  /** A check queues exactly the jobs that are waiting for j, and only if the counters it read show
      nothing pending, running or failed; it changes no other job than those and j. */
  lemma CheckedReleases(cfg: Config, db: Db, j: nat)
    ensures ReleasesWaiting(db.jobs, Checked(cfg, db, j).db.jobs, j, HasJob(db, j) && Closes(db.jobs[j].counts))
  {
    if HasJob(db, j) {
      var row := db.jobs[j];
      VmafPartReleases(cfg, db, j, row);
      if TriesConcat(cfg, row) && Pick(db, j, Concat).Some? {
        VmafPartReleases(cfg, Skip(db, j, Pick(db, j, Concat).value, SKIPPED_CONCAT), j, row);
      }
    }
  }

  // ----- reports as functions -----

  predicate GetsRetry(db: Db, r: Result) {
    && HasTask(db, r.task) && HasJob(db, r.job)
    && db.tasks[r.task].retryCount
       < RetryBudgetFor(db.jobs[r.job], OrZero(db.tasks[r.task].exitCode), OrEmpty(db.tasks[r.task].errorMsg))
  }

  /** maybeRetryTask. */
  function Retried(db: Db, r: Result, now: int, jitter: nat): Db {
    if GetsRetry(db, r) then InsertTask(db, RetryRow(db, r.task, db.tasks[r.task].retryCount, now, jitter)) else db
  }

  /** processResult. */
  function Processed(db: Db, r: Result, now: int, jitter: nat): Db {
    if r.success then CompleteTask(db, r.task, r.exit)
    else Retried(FailTask(db, r.task, r.exit, r.message), r, now, jitter)
  }

  /** ReportResult. */
  function Reported(cfg: Config, db: Db, r: Result, now: int, jitter: nat): Outcome {
    RecountedCheck(cfg, Processed(db, r, now, jitter), r.job)
  }

  // ----- a stream of journaled results as a function -----

  /** A result as the stream carries it, with the clock and the jitter for its retry. */
  datatype Arrival = Arrival(r: Result, now: int, jitter: nat)

  /** What a stream came to: the tables, the runners started, how many results were handled, which were
      rejected, and whether the stream was handled to its end. */
  datatype Synced = Synced(db: Db, launches: seq<Launch>, accepted: nat, rejected: seq<nat>, ok: bool)

  /** A result for a finished row is rejected, unless it was journaled. */
  predicate Rejects(db: Db, r: Result) {
    HasTask(db, r.task) && db.tasks[r.task].status in {Completed, Failed} && !r.offline
  }

  function SyncOne(cfg: Config, s: Synced, a: Arrival): Synced {
    if !s.ok then s
    else if !HasTask(s.db, a.r.task) then s.(ok := false)
    else if Rejects(s.db, a.r) then s.(rejected := s.rejected + [a.r.task])
    else var o := Reported(cfg, s.db, a.r, a.now, a.jitter);
         s.(db := o.db, accepted := s.accepted + 1,
            launches := s.launches + if o.launch.Some? then [o.launch.value] else [])
  }

  function SyncAll(cfg: Config, db: Db, arrivals: seq<Arrival>): Synced {
    if arrivals == [] then Synced(db, [], 0, [], true)
    else SyncOne(cfg, SyncAll(cfg, db, arrivals[..|arrivals| - 1]), arrivals[|arrivals| - 1])
  }

  // ----- what a check and a report do to the rows -----

  /** A row after a check of job j: as it was, or a pending merge or vmaf_target row of the job that the
      check claimed or skipped. */
  predicate LeftByCheck(before: Task, after: Task, j: nat) {
    || after == before
    || (before.live && before.job == j && before.status == Pending && (before.kind == Concat || before.kind == VmafTarget)
        && (after == before.(status := Running)
            || after == before.(status := Failed, exitCode := Some(-1),
                                errorMsg := Some(if before.kind == Concat then "skipped: chunk tasks failed"
                                                 else "skipped: predecessor tasks failed"))))
  }

  ghost predicate RowsLeftByCheck(before: seq<Task>, after: seq<Task>, j: nat) {
    |before| == |after| && forall t :: 0 <= t < |before| ==> LeftByCheck(before[t], after[t], j)
  }

  lemma LeftTwice(a: seq<Task>, b: seq<Task>, c: seq<Task>, j: nat)
    requires RowsLeftByCheck(a, b, j) && RowsLeftByCheck(b, c, j)
    ensures RowsLeftByCheck(a, c, j)
  {
    forall t | 0 <= t < |a| ensures LeftByCheck(a[t], c[t], j) {
      assert LeftByCheck(a[t], b[t], j) && LeftByCheck(b[t], c[t], j);
    }
  }

  lemma SkipLeaves(db: Db, j: nat, t: nat, kind: Kind, message: string)
    requires Claimable(db, t) && RowOf(db.tasks, t, j) && db.tasks[t].kind == kind
    requires (kind == Concat && message == SKIPPED_CONCAT) || (kind == VmafTarget && message == SKIPPED_VMAF)
    ensures RowsLeftByCheck(db.tasks, Skip(db, j, t, message).tasks, j)
  {
  }

  lemma VmafPartLeaves(cfg: Config, db: Db, j: nat, row: Job)
    ensures RowsLeftByCheck(db.tasks, VmafPart(cfg, db, j, row).db.tasks, j)
  {
    PickedIsClaimable(db, j, VmafTarget);
    var t := Pick(db, j, VmafTarget);
    if TriesVmaf(cfg, row) && t.Some? && row.counts.failed > 0 { SkipLeaves(db, j, t.value, VmafTarget, SKIPPED_VMAF); }
  }

  lemma CheckedLeaves(cfg: Config, db: Db, j: nat)
    ensures RowsLeftByCheck(db.tasks, Checked(cfg, db, j).db.tasks, j)
  {
    if HasJob(db, j) {
      var row, t := db.jobs[j], Pick(db, j, Concat);
      VmafPartLeaves(cfg, db, j, row);
      PickedIsClaimable(db, j, Concat);
      if TriesConcat(cfg, row) && t.Some? && row.counts.failed > 0 {
        var d := Skip(db, j, t.value, SKIPPED_CONCAT);
        SkipLeaves(db, j, t.value, Concat, SKIPPED_CONCAT);
        VmafPartLeaves(cfg, d, j, row);
        LeftTwice(db.tasks, d.tasks, VmafPart(cfg, d, j, row).db.tasks, j);
      }
    }
  }

  /** A row as a report of it leaves it. */
  function RowAfter(row: Task, r: Result): Task {
    if r.success then row.(status := Completed, exitCode := Some(r.exit))
    else row.(status := Failed, exitCode := Some(r.exit), errorMsg := Some(r.message))
  }

  /** The failure is retried: the row and the job exist, and the row's retry count is below the budget
      that the job has for the error. */
  predicate GetsNewRow(db: Db, r: Result) {
    && !r.success && r.task < |db.tasks| && db.tasks[r.task].live && r.job < |db.jobs|
    && db.tasks[r.task].retryCount < RetryBudgetFor(db.jobs[r.job], r.exit, r.message)
  }

  /** The retry of a row: pending, of the same job and kind with the same output, and due later. */
  function NewRow(row: Task, t: nat, chunk: nat, now: int, jitter: nat): Task {
    Task(row.job, chunk, row.kind, Pending, None, row.retryCount + 1, Some(now + BackoffSeconds(row.retryCount, jitter)),
         row.output, None, None, Some(t), true)
  }

  /** The rows a report of r leaves: its row, if it exists, is completed or failed with the reported
      exit code; a retry is added exactly if it gets one; and nothing else changes but what the check
      claims or skips, which may be the retry itself. */
  ghost predicate ReportLeaves(before: Db, after: Db, r: Result, now: int, jitter: nat) {
    var n := |before.tasks|;
    && |after.tasks| == n + (if GetsNewRow(before, r) then 1 else 0)
    && (forall t :: 0 <= t < n && !(t == r.task && before.tasks[t].live) ==> LeftByCheck(before.tasks[t], after.tasks[t], r.job))
    && (r.task < n && before.tasks[r.task].live ==> after.tasks[r.task] == RowAfter(before.tasks[r.task], r))
    && (GetsNewRow(before, r) ==>
          && !ChunkTaken(before, before.tasks[r.task].job, after.tasks[n].chunk)
          && LeftByCheck(NewRow(before.tasks[r.task], r.task, after.tasks[n].chunk, now, jitter), after.tasks[n], r.job))
  }

  lemma ProcessedLeaves(db: Db, r: Result, now: int, jitter: nat)
    ensures ReportLeaves(db, Processed(db, r, now, jitter), r, now, jitter)
  {
    if HasTask(db, r.task) {
      var d := FailTask(db, r.task, r.exit, r.message);
      RetryChunkIsFree(d, r.task, db.tasks[r.task].retryCount, now, jitter);
      if GetsNewRow(db, r) { FreeBeforeToo(db, d, RetryRow(d, r.task, db.tasks[r.task].retryCount, now, jitter)); }
    }
  }

  lemma FreeBeforeToo(db: Db, d: Db, row: Task)
    requires |d.tasks| == |db.tasks| && forall t :: 0 <= t < |db.tasks| ==>
               d.tasks[t].live == db.tasks[t].live && d.tasks[t].job == db.tasks[t].job && d.tasks[t].chunk == db.tasks[t].chunk
    requires !ChunkTaken(d, row.job, row.chunk)
    ensures !ChunkTaken(db, row.job, row.chunk)
  {
    forall t: nat ensures !(RowOf(db.tasks, t, row.job) && db.tasks[t].chunk == row.chunk) {
      assert RowOf(db.tasks, t, row.job) ==> RowOf(d.tasks, t, row.job);
    }
  }

  lemma LeavesThenCheck(a: Db, b: Db, c: Db, r: Result, now: int, jitter: nat)
    requires ReportLeaves(a, b, r, now, jitter) && RowsLeftByCheck(b.tasks, c.tasks, r.job)
    ensures ReportLeaves(a, c, r, now, jitter)
  {
    forall t | 0 <= t < |a.tasks| && !(t == r.task && a.tasks[t].live) ensures LeftByCheck(a.tasks[t], c.tasks[t], r.job) {
      assert LeftByCheck(a.tasks[t], b.tasks[t], r.job) && LeftByCheck(b.tasks[t], c.tasks[t], r.job);
    }
  }

  /** A whole report, recount and check included. */
  lemma ReportedLeaves(cfg: Config, db: Db, r: Result, now: int, jitter: nat)
    ensures ReportLeaves(db, Reported(cfg, db, r, now, jitter).db, r, now, jitter)
  {
    var d := Processed(db, r, now, jitter);
    ProcessedLeaves(db, r, now, jitter);
    CheckedLeaves(cfg, Recount(d, r.job), r.job);
    LeavesThenCheck(db, d, Reported(cfg, db, r, now, jitter).db, r, now, jitter);
  }

  /** One result of a stream: a missing row ends it, a finished row rejects a result that was not
      journaled, both without a change to the tables, and any other result is handled like a report. */
  lemma SyncOneDoes(cfg: Config, s: Synced, a: Arrival)
    requires s.ok
    ensures var s', t := SyncOne(cfg, s, a), a.r.task;
            if t >= |s.db.tasks| || !s.db.tasks[t].live then s' == s.(ok := false)
            else if (s.db.tasks[t].status == Completed || s.db.tasks[t].status == Failed) && !a.r.offline
            then s' == s.(rejected := s.rejected + [t])
            else s'.ok && s'.accepted == s.accepted + 1 && s'.rejected == s.rejected
                 && ReportLeaves(s.db, s'.db, a.r, a.now, a.jitter)
  {
    ReportedLeaves(cfg, s.db, a.r, a.now, a.jitter);
  }

  // ----- the server object -----

  class Server {
    const cfg: Config
    const store: JobStore

    constructor (cfg: Config, store: JobStore)
      ensures this.cfg == cfg && this.store == store
    {
      this.cfg, this.store := cfg, store;
    }

    /** ListTasksByJob, reduced to the row ids. */
    method ListTasksByJob(j: nat) returns (ids: seq<nat>)
      ensures ids == ListByJob(store.tasks, j)
    {
      ids := [];
      for c := 0 to MaxChunk(store.tasks, j) + 1
        invariant ids == ListBelow(store.tasks, j, c)
      {
        ids := ids + RowsAt(store.tasks, j, c);
      }
    }

    method FindPending(ids: seq<nat>, kind: Kind) returns (found: Option<nat>)
      requires forall i :: 0 <= i < |ids| ==> ids[i] < |store.tasks|
      ensures found == FirstPending(store.tasks, ids, kind)
    {
      for i := 0 to |ids|
        invariant FirstPending(store.tasks, ids, kind) == FirstPending(store.tasks, ids[i..], kind)
      {
        assert ids[i..][1..] == ids[i + 1..];
        if store.tasks[ids[i]].kind == kind && store.tasks[ids[i]].status == Pending { return Some(ids[i]); }
      }
      return None;
    }

    method CompletedPaths(ids: seq<nat>) returns (paths: seq<string>)
      requires forall i :: 0 <= i < |ids| ==> ids[i] < |store.tasks|
      ensures paths == ChunkPaths(store.tasks, ids)
    {
      paths := [];
      for i := 0 to |ids|
        invariant paths == ChunkPaths(store.tasks, ids[..i])
      {
        assert ids[..i + 1][..i] == ids[..i];
        var row := store.tasks[ids[i]];
        if row.kind != Concat && row.status == Completed { paths := paths + [row.output]; }
      }
      assert ids[..|ids|] == ids;
    }

    method Settle(j: nat, row: Job)
      modifies store
      ensures Outcome(store.Now(), None) == Settled(old(store.Now()), j, row)
      ensures ReleasesWaiting(old(store.jobs), store.jobs, j, Closes(row.counts))
    {
      SettledReleases(store.Now(), j, row);
      if row.counts.pending > 0 || row.counts.running > 0 { return; }
      var newStatus := if row.counts.failed > 0 then Failed else Completed;
      var found := store.UpdateJobStatus(j, newStatus);
      if newStatus == Completed { store.UnblockDependentJobs(j); }
    }

    /** The part of the check for a pending vmaf_target row, and what follows it. */
    method CheckVmaf(j: nat, row: Job) returns (launch: Option<Launch>)
      modifies store
      ensures Outcome(store.Now(), launch) == VmafPart(cfg, old(store.Now()), j, row)
    {
      launch := None;
      if cfg.vmafRunner && row.counts.running == 0 && row.counts.pending > 0 {
        var tasks := ListTasksByJob(j);
        var vmafTask := FindPending(tasks, VmafTarget);
        if vmafTask.Some? {
          if row.counts.failed > 0 {
            store.Fail(vmafTask.value, -1, SKIPPED_VMAF);
            store.UpdateJobTaskCounts(j);
          } else {
            PickedIsClaimable(store.Now(), j, VmafTarget);
            var won := store.ClaimConcatTask(vmafTask.value);
            return Some(LaunchVmaf(vmafTask.value));
          }
        }
      }
      Settle(j, row);
    }

    /** checkJobCompletion. */
    method CheckJobCompletion(j: nat) returns (launch: Option<Launch>)
      modifies store
      ensures Outcome(store.Now(), launch) == Checked(cfg, old(store.Now()), j)
      ensures ReleasesWaiting(old(store.jobs), store.jobs, j, HasJob(old(store.Now()), j) && Closes(old(store.jobs)[j].counts))
    {
      CheckedReleases(cfg, store.Now(), j);
      if j >= |store.jobs| { return None; }
      var row := store.jobs[j];
      if cfg.concatRunner && row.counts.pending == 1 && row.counts.running == 0 {
        var tasks := ListTasksByJob(j);
        var concatTask := FindPending(tasks, Concat);
        if concatTask.Some? {
          if row.counts.failed > 0 {
            store.Fail(concatTask.value, -1, SKIPPED_CONCAT);
            store.UpdateJobTaskCounts(j);
          } else {
            var paths := CompletedPaths(tasks);
            PickedIsClaimable(store.Now(), j, Concat);
            var won := store.ClaimConcatTask(concatTask.value);
            return Some(LaunchConcat(concatTask.value, paths));
          }
        }
      }
      launch := CheckVmaf(j, row);
    }

    method MaybeRetryTask(r: Result, now: int, jitter: nat)
      modifies store
      ensures store.Now() == Retried(old(store.Now()), r, now, jitter)
    {
      if r.task >= |store.tasks| || !store.tasks[r.task].live || r.job >= |store.jobs| { return; }
      var row, job := store.tasks[r.task], store.jobs[r.job];
      if job.maxRetries <= 0 { return; }
      var exit := if row.exitCode.Some? then row.exitCode.value else 0;
      var message := if row.errorMsg.Some? then row.errorMsg.value else "";
      var effectiveMax := MaxRetriesFor(ClassifyError(exit, message), job.maxRetries);
      if effectiveMax <= 0 || row.retryCount >= effectiveMax { return; }
      var created := store.RetryTask(r.task, row.retryCount, now, jitter);
    }

    /** ReportResult. */
    method ReportResult(r: Result, now: int, jitter: nat) returns (launch: Option<Launch>)
      modifies store
      ensures Outcome(store.Now(), launch) == Reported(cfg, old(store.Now()), r, now, jitter)
      ensures ReportLeaves(old(store.Now()), store.Now(), r, now, jitter)
    {
      ReportedLeaves(cfg, store.Now(), r, now, jitter);
      if r.success {
        store.Complete(r.task, r.exit);
      } else {
        store.Fail(r.task, r.exit, r.message);
        MaybeRetryTask(r, now, jitter);
      }
      store.UpdateJobTaskCounts(r.job);
      launch := CheckJobCompletion(r.job);
    }

    /** SyncOfflineResults: results are handled in arrival order, like reports, up to the first whose
        row is missing; only a stream handled to its end is acknowledged. */
    method SyncOfflineResults(arrivals: seq<Arrival>)
      returns (launches: seq<Launch>, accepted: nat, rejected: seq<nat>, ok: bool)
      modifies store
      ensures Synced(store.Now(), launches, accepted, rejected, ok) == SyncAll(cfg, old(store.Now()), arrivals)
    {
      launches, accepted, rejected, ok := [], 0, [], true;
      ghost var db := store.Now();
      for i := 0 to |arrivals|
        invariant ok && Synced(store.Now(), launches, accepted, rejected, ok) == SyncAll(cfg, db, arrivals[..i])
      {
        SyncNext(cfg, db, arrivals, i);
        var a := arrivals[i];
        if a.r.task >= |store.tasks| || !store.tasks[a.r.task].live {
          ok := false;
          return;
        }
        var row := store.tasks[a.r.task];
        if (row.status == Completed || row.status == Failed) && !a.r.offline {
          rejected := rejected + [a.r.task];
          continue;
        }
        var launch := ReportResult(a.r, a.now, a.jitter);
        if launch.Some? { launches := launches + [launch.value]; }
        accepted := accepted + 1;
      }
      assert arrivals[..|arrivals|] == arrivals;
    }

    /** The goroutine of a controller-side runner, once the runner has returned. */
    method FinishRun(j: nat, t: nat, ok: bool, message: string) returns (launch: Option<Launch>)
      modifies store
      ensures Outcome(store.Now(), launch)
           == RecountedCheck(cfg, if ok then CompleteTask(old(store.Now()), t, 0) else FailTask(old(store.Now()), t, 1, message), j)
      ensures |store.tasks| == |old(store.tasks)|
      ensures HasTask(old(store.Now()), t) ==>
                store.tasks[t] == if ok then old(store.tasks)[t].(status := Completed, exitCode := Some(0))
                                  else old(store.tasks)[t].(status := Failed, exitCode := Some(1), errorMsg := Some(message))
    {
      if ok { store.Complete(t, 0); } else { store.Fail(t, 1, message); }
      store.UpdateJobTaskCounts(j);
      CheckedLeaves(cfg, store.Now(), j);
      launch := CheckJobCompletion(j);
    }

    /** The status change of a job that is `assigned`. */
    method StartAssigned(j: nat)
      modifies store
      ensures store.tasks == old(store.tasks) && |store.jobs| == |old(store.jobs)|
      ensures forall i :: 0 <= i < |store.jobs| ==>
                store.jobs[i] == if i == j && old(store.jobs)[i].status == Assigned
                                 then old(store.jobs)[i].(status := Running) else old(store.jobs)[i]
    {
      if j < |store.jobs| && store.jobs[j].status == Assigned { var found := store.UpdateJobStatus(j, Running); }
    }

    /** PollTask: the first eligible row is assigned and its job recounted.  The status change for
        an `assigned` job is the code's; no job ever has that status (PollsLeaveJobsAlone). */
    method PollTask(agent: nat, tags: set<string>, now: int) returns (claimed: Option<nat>)
      modifies store
      ensures claimed.None? ==> store.Now() == old(store.Now()) && forall t: nat :: !Eligible(old(store.Now()), t, tags, now)
      ensures claimed.Some? ==> NextClaim(old(store.Now()), claimed.value, tags, now)
      ensures claimed.Some? ==> MayTake(old(store.jobs), old(store.tasks), claimed.value, tags, now)
      ensures claimed.None? ==> forall t: nat :: !MayTake(store.jobs, store.tasks, t, tags, now)
      ensures claimed.Some? ==>
                var j := old(store.tasks)[claimed.value].job;
                var d := Recount(AssignTask(old(store.Now()), claimed.value, agent), j);
                store.Now() == if old(store.jobs)[j].status == Assigned then SetJobStatus(d, j, Running) else d
    {
      claimed := store.ClaimNextTask(agent, tags, now);
      if claimed.None? { return; }
      var j := store.tasks[claimed.value].job;
      store.UpdateJobTaskCounts(j);
      StartAssigned(j);
    }

    /** ReportProgress: the first update of a stream for a task sets it running, whatever its status;
        an update for a missing task ends the stream. */
    method ReportProgress(updates: seq<nat>) returns (ok: bool)
      modifies store
      ensures store.Now() == AllRunning(old(store.Now()), updates)
      ensures ok <==> forall i :: 0 <= i < |updates| ==> HasTask(old(store.Now()), updates[i])
    {
      var seen: set<nat> := {};
      ghost var db := store.Now();
      for i := 0 to |updates|
        invariant store.Now() == AllRunning(db, updates[..i])
        invariant forall k :: 0 <= k < i ==> HasTask(db, updates[k])
        invariant seen == SeenIn(updates[..i])
      {
        NextUpdate(db, updates, i);
        if updates[i] !in seen {
          seen := seen + {updates[i]};
          var found := store.SetRunning(updates[i]);
          if !found { return false; }
        }
      }
      assert updates[..|updates|] == updates;
      return true;
    }
  }

  lemma SyncNext(cfg: Config, db: Db, arrivals: seq<Arrival>, i: nat)
    requires i < |arrivals|
    ensures SyncAll(cfg, db, arrivals[..i + 1]) == SyncOne(cfg, SyncAll(cfg, db, arrivals[..i]), arrivals[i])
    ensures !SyncAll(cfg, db, arrivals[..i + 1]).ok ==> SyncAll(cfg, db, arrivals) == SyncAll(cfg, db, arrivals[..i + 1])
  {
    assert arrivals[..i + 1][..i] == arrivals[..i];
    if !SyncAll(cfg, db, arrivals[..i + 1]).ok { SyncStops(cfg, db, arrivals, i + 1); }
  }

  lemma {:induction false} SyncStops(cfg: Config, db: Db, arrivals: seq<Arrival>, i: nat)
    requires i <= |arrivals| && !SyncAll(cfg, db, arrivals[..i]).ok
    ensures SyncAll(cfg, db, arrivals) == SyncAll(cfg, db, arrivals[..i])
    decreases |arrivals|
  {
    if i == |arrivals| {
      assert arrivals[..i] == arrivals;
    } else {
      assert arrivals[..|arrivals| - 1][..i] == arrivals[..i];
      SyncStops(cfg, db, arrivals[..|arrivals| - 1], i);
    }
  }

  /** No row disappears. */
  predicate KeepsRows(db: Db, d: Db) {
    |db.tasks| <= |d.tasks| && forall t :: 0 <= t < |db.tasks| ==> d.tasks[t].live == db.tasks[t].live
  }

  lemma VmafPartKeepsRows(cfg: Config, db: Db, j: nat, row: Job)
    ensures KeepsRows(db, VmafPart(cfg, db, j, row).db)
  {
  }

  lemma ReportKeepsRows(cfg: Config, db: Db, r: Result, now: int, jitter: nat)
    ensures KeepsRows(db, Reported(cfg, db, r, now, jitter).db)
  {
    var d := Recount(Processed(db, r, now, jitter), r.job);
    assert KeepsRows(db, d);
    CheckKeepsRows(cfg, d, r.job);
  }

  lemma CheckKeepsRows(cfg: Config, db: Db, j: nat)
    ensures KeepsRows(db, Checked(cfg, db, j).db)
  {
    if HasJob(db, j) {
      VmafPartKeepsRows(cfg, db, j, db.jobs[j]);
      if Pick(db, j, Concat).Some? { VmafPartKeepsRows(cfg, Skip(db, j, Pick(db, j, Concat).value, SKIPPED_CONCAT), j, db.jobs[j]); }
    }
  }

  lemma OfflineOne(cfg: Config, db: Db, s: Synced, a: Arrival)
    requires KeepsRows(db, s.db) && a.r.offline && a.r.task < |db.tasks|
    ensures var s' := SyncOne(cfg, s, a);
            && KeepsRows(db, s'.db) && s'.rejected == s.rejected
            && (s'.ok <==> s.ok && HasTask(db, a.r.task))
            && s'.accepted == if s'.ok then s.accepted + 1 else s.accepted
  {
    assert HasTask(s.db, a.r.task) == HasTask(db, a.r.task);
    ReportKeepsRows(cfg, s.db, a.r, a.now, a.jitter);
  }

  ghost predicate OfflineSoFar(db: Db, s: Synced, arrivals: seq<Arrival>, n: nat)
    requires n <= |arrivals|
  {
    && KeepsRows(db, s.db) && s.rejected == [] && s.accepted <= n
    && (s.ok <==> forall i :: 0 <= i < n ==> HasTask(db, arrivals[i].r.task))
    && (s.ok <==> s.accepted == n)
  }

  lemma OfflineNext(db: Db, s: Synced, s': Synced, arrivals: seq<Arrival>, n: nat)
    requires n < |arrivals| && OfflineSoFar(db, s, arrivals, n)
    requires KeepsRows(db, s'.db) && s'.rejected == s.rejected
    requires s'.ok <==> s.ok && HasTask(db, arrivals[n].r.task)
    requires s'.accepted == if s'.ok then s.accepted + 1 else s.accepted
    ensures OfflineSoFar(db, s', arrivals, n + 1)
  {
  }

  lemma {:induction false} OfflineUpTo(cfg: Config, db: Db, arrivals: seq<Arrival>, n: nat)
    requires forall i :: 0 <= i < |arrivals| ==> arrivals[i].r.offline && arrivals[i].r.task < |db.tasks|
    requires n <= |arrivals|
    ensures OfflineSoFar(db, SyncAll(cfg, db, arrivals[..n]), arrivals, n)
  {
    if n > 0 {
      OfflineUpTo(cfg, db, arrivals, n - 1);
      var s, s' := SyncAll(cfg, db, arrivals[..n - 1]), SyncAll(cfg, db, arrivals[..n]);
      OfflineOne(cfg, db, s, arrivals[n - 1]);
      assert s' == SyncOne(cfg, s, arrivals[n - 1]) by { SyncNext(cfg, db, arrivals, n - 1); }
      OfflineNext(db, s, s', arrivals, n - 1);
    }
  }

  /** Of a stream of journaled results none is ever rejected, whatever the status of its row; all are
      handled, and the stream acknowledged, exactly if every row exists, where rows are those that were
      there at the start. */
  lemma OfflineResultsAreNeverRejected(cfg: Config, db: Db, arrivals: seq<Arrival>)
    requires forall i :: 0 <= i < |arrivals| ==> arrivals[i].r.offline && arrivals[i].r.task < |db.tasks|
    ensures var s := SyncAll(cfg, db, arrivals);
            && KeepsRows(db, s.db) && s.rejected == []
            && (s.ok <==> forall i :: 0 <= i < |arrivals| ==> HasTask(db, arrivals[i].r.task))
            && (s.ok <==> s.accepted == |arrivals|)
  {
    OfflineUpTo(cfg, db, arrivals, |arrivals|);
    assert arrivals[..|arrivals|] == arrivals;
  }

  /** Progress updates up to the first one for a missing task. */
  function AllRunning(db: Db, updates: seq<nat>): Db {
    if updates == [] then db
    else
      var n := |updates| - 1;
      var d := AllRunning(db, updates[..n]);
      if forall i :: 0 <= i < n ==> HasTask(db, updates[i]) then MarkRunning(d, updates[n]) else d
  }

  lemma {:induction false} RunningFrame(db: Db, updates: seq<nat>)
    ensures var d := AllRunning(db, updates);
            d.jobs == db.jobs && |d.tasks| == |db.tasks|
            && forall t :: 0 <= t < |db.tasks| ==> d.tasks[t].live == db.tasks[t].live
  {
    if updates != [] { RunningFrame(db, updates[..|updates| - 1]); }
  }

  /** Progress for existing tasks sets exactly these running, also if they were completed, failed or
      cancelled before. */
  lemma {:induction false} ProgressSetsRunning(db: Db, updates: seq<nat>, t: nat)
    requires t < |db.tasks| && forall i :: 0 <= i < |updates| ==> HasTask(db, updates[i])
    ensures var d := AllRunning(db, updates);
            d.jobs == db.jobs && |d.tasks| == |db.tasks|
            && d.tasks[t] == if t in updates then db.tasks[t].(status := Running) else db.tasks[t]
  {
    RunningFrame(db, updates);
    if updates != [] {
      var n := |updates| - 1;
      ProgressSetsRunning(db, updates[..n], t);
      RunningFrame(db, updates[..n]);
      assert updates == updates[..n] + [updates[n]];
    }
  }

  lemma {:induction false} AlreadyRunning(db: Db, updates: seq<nat>, t: nat)
    requires t in updates && forall i :: 0 <= i < |updates| ==> HasTask(db, updates[i])
    ensures MarkRunning(AllRunning(db, updates), t) == AllRunning(db, updates)
  {
    var n := |updates| - 1;
    RunningFrame(db, updates[..n]);
    if updates[n] != t { AlreadyRunning(db, updates[..n], t); }
  }

  lemma {:induction false} StopsAtMissing(db: Db, updates: seq<nat>, i: nat)
    requires i < |updates| && !HasTask(db, updates[i])
    requires forall k :: 0 <= k < i ==> HasTask(db, updates[k])
    ensures AllRunning(db, updates) == AllRunning(db, updates[..i])
    decreases |updates|
  {
    var n := |updates| - 1;
    RunningFrame(db, updates[..n]);
    if n > i {
      StopsAtMissing(db, updates[..n], i);
      assert updates[..n][..i] == updates[..i];
    }
  }

  function SeenIn(updates: seq<nat>): set<nat> { set t | t in updates }

  /** What the loop of ReportProgress needs to know about update i. */
  lemma NextUpdate(db: Db, updates: seq<nat>, i: nat)
    requires i < |updates| && forall k :: 0 <= k < i ==> HasTask(db, updates[k])
    ensures var d, t, seen := AllRunning(db, updates[..i]), updates[i], SeenIn(updates[..i]);
            && HasTask(d, t) == HasTask(db, t)
            && (t in seen ==> HasTask(db, t) && AllRunning(db, updates[..i + 1]) == d && SeenIn(updates[..i + 1]) == seen)
            && (HasTask(db, t) ==> AllRunning(db, updates[..i + 1]) == MarkRunning(d, t) && SeenIn(updates[..i + 1]) == seen + {t})
            && (!HasTask(db, t) ==> AllRunning(db, updates) == d == MarkRunning(d, t))
  {
    assert updates[..i + 1][..i] == updates[..i] && updates[..i + 1] == updates[..i] + [updates[i]];
    RunningFrame(db, updates[..i]);
    if updates[i] in updates[..i] { AlreadyRunning(db, updates[..i], updates[i]); }
    if !HasTask(db, updates[i]) { StopsAtMissing(db, updates, i); }
  }

  lemma PickedIsClaimable(db: Db, j: nat, kind: Kind)
    ensures var t := Pick(db, j, kind); t.Some? ==> Claimable(db, t.value) && RowOf(db.tasks, t.value, j) && db.tasks[t.value].kind == kind
  {
    ListByJobSound(db.tasks, j);
  }
}
