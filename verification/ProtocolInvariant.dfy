/**
 The inductive invariant of the job protocol, proved rely/guarantee style: a thread only takes
 actions that its own history justifies, justified actions keep the tables consistent with the
 history, and no action of one thread can unjustify another.
 */
module ProtocolInvariant {
  import opened JobRows
  import opened Protocol

  function LastTally(counted: seq<Counting>, j: nat): Counts {
    if counted == [] then ZERO
    else var last := counted[|counted| - 1];
         if last.job == j then Tally(last.tasks, j) else LastTally(counted[..|counted| - 1], j)
  }

  predicate TaskOk(db: Db, t: nat)
    requires t < |db.tasks|
  {
    var row := db.tasks[t];
    && HasJob(db, row.job)
    && row.status !in {Waiting, Queued}
    && (row.retryCount == 0 || row.retryCount <= db.jobs[row.job].maxRetries)
    && (match row.parent
        case None => row.retryCount == 0
        case Some(q) => q < t && db.tasks[q].job == row.job && db.tasks[q].kind == row.kind
                        && row.retryCount == db.tasks[q].retryCount + 1)
  }

  /** The tables agree with the history. */
  ghost predicate TablesOk(db: Db, h: History) {
    && (forall t :: 0 <= t < |db.tasks| ==> db.tasks[t].job in h.released && TaskOk(db, t))
    && (forall j :: j in h.released ==> HasJob(db, j))
    && (forall j :: j in h.completed ==> j in h.released)
    && (forall j :: 0 <= j < |db.jobs| ==> JobOk(db.jobs[j], j, h))
    && (forall t :: t in h.handed ==> t < |db.tasks|)
    && (forall k :: 0 <= k < |h.counted| ==> h.counted[k].job in h.released)
  }

  ghost predicate JobOk(job: Job, j: nat, h: History) {
    && (!Holds(job.status) ==> j in h.released)
    && (job.status == Completed ==> j in h.completed)
    && job.status != Assigned
    && (job.sawDependency ==> job.dependsOn.Some?)
    && (job.sawDependency && j in h.released ==> job.dependsOn.value in h.completed)
    && (job.dependsOn.Some? ==> job.dependsOn.value < j)
    && job.counts == LastTally(h.counted, j)
  }

  /** The history justifies the action. */
  ghost predicate Allowed(db: Db, h: History, a: Action) {
    match a
    case SetStatus(j, s) => s != Waiting && s != Assigned && (Holds(s) || j in h.released)
    case Unblock(p) => p in h.completed
    case AddJob(job) =>
      && job.counts == ZERO && job.status in {Waiting, Queued}
      && (job.dependsOn.Some? ==> HasJob(db, job.dependsOn.value))
      && (job.sawDependency ==> job.dependsOn.Some?)
      && (job.sawDependency && job.status == Queued ==> job.dependsOn.value in h.completed)
    case AddTask(row) =>
      && row.job in h.released && HasJob(db, row.job)
      && row.live && row.status == Pending
      && (match row.parent
          case None => row.retryCount == 0
          case Some(q) => q < |db.tasks| && db.tasks[q].job == row.job && db.tasks[q].kind == row.kind
                          && row.retryCount == db.tasks[q].retryCount + 1
                          && row.retryCount <= db.jobs[row.job].maxRetries)
    case Assign(t, _) => Claimable(db, t) && db.tasks[t].kind != Concat
    case CountTasks(j) => j in h.released
    case _ => true
  }

  /** Nothing already established is ever lost: rows keep their identity and the history grows. */
  ghost predicate Grows(db: Db, h: History, db': Db, h': History) {
    && |db.jobs| <= |db'.jobs| && |db.tasks| <= |db'.tasks|
    && (forall j :: 0 <= j < |db.jobs| ==> SameJob(db.jobs[j], db'.jobs[j]))
    && (forall t :: 0 <= t < |db.tasks| ==> SameTask(db.tasks[t], db'.tasks[t]))
    && h.released <= h'.released && h.completed <= h'.completed && h.handed <= h'.handed
    && h.counted <= h'.counted && h.claims <= h'.claims && h.started <= h'.started
  }

  predicate SameJob(a: Job, b: Job) {
    b == a.(status := b.status, counts := b.counts, priority := b.priority)
  }

  predicate SameTask(a: Task, b: Task) {
    && a.job == b.job && a.kind == b.kind && a.chunk == b.chunk && a.output == b.output
    && a.retryCount == b.retryCount && a.parent == b.parent && a.retryAfter == b.retryAfter
    && (b.live ==> a.live)
  }

  lemma ActionGrows(db: Db, h: History, a: Action)
    ensures Grows(db, h, Apply(db, a), Remember(db, h, a))
  {
  }

  lemma LastTallyAppend(counted: seq<Counting>, c: Counting, j: nat)
    ensures LastTally(counted + [c], j) == if c.job == j then Tally(c.tasks, j) else LastTally(counted, j)
  {
    assert (counted + [c])[..|counted|] == counted;
  }

  lemma {:induction false} NeverCounted(counted: seq<Counting>, j: nat)
    requires forall k :: 0 <= k < |counted| ==> counted[k].job != j
    ensures LastTally(counted, j) == ZERO
  {
    if counted != [] { NeverCounted(counted[..|counted| - 1], j); }
  }

  /** Justified actions keep the tables consistent with the history. */
  lemma ActionKeepsJobs(db: Db, h: History, a: Action, j: nat)
    requires TablesOk(db, h) && Allowed(db, h, a)
    requires j < |Apply(db, a).jobs|
    ensures JobOk(Apply(db, a).jobs[j], j, Remember(db, h, a))
  {
    if j < |db.jobs| { assert JobOk(db.jobs[j], j, h); }
    match a
    case CountTasks(i) => LastTallyAppend(h.counted, Counting(i, db.tasks), j);
    case AddJob(_) => if j == |db.jobs| { NeverCounted(h.counted, j); }
    case _ =>
  }

  lemma OldTaskStaysOk(db: Db, h: History, db': Db, h': History, t: nat)
    requires Grows(db, h, db', h') && t < |db.tasks|
    requires db.tasks[t].job in h.released && TaskOk(db, t)
    requires db'.tasks[t].status !in {Waiting, Queued}
    ensures db'.tasks[t].job in h'.released && TaskOk(db', t)
  {
    assert SameTask(db.tasks[t], db'.tasks[t]);
    assert SameJob(db.jobs[db.tasks[t].job], db'.jobs[db.tasks[t].job]);
  }

  lemma TaskStatusStays(db: Db, a: Action, t: nat)
    requires t < |db.tasks| && db.tasks[t].status !in {Waiting, Queued}
    ensures Apply(db, a).tasks[t].status !in {Waiting, Queued}
  {
  }

  lemma ActionKeepsTasks(db: Db, h: History, a: Action, t: nat)
    requires TablesOk(db, h) && Allowed(db, h, a)
    requires t < |Apply(db, a).tasks|
    ensures Apply(db, a).tasks[t].job in Remember(db, h, a).released && TaskOk(Apply(db, a), t)
  {
    ActionGrows(db, h, a);
    if t < |db.tasks| {
      TaskStatusStays(db, a, t);
      OldTaskStaysOk(db, h, Apply(db, a), Remember(db, h, a), t);
    } else {
      assert a.AddTask?;
    }
  }

  lemma ActionKeepsTables(db: Db, h: History, a: Action)
    requires TablesOk(db, h) && Allowed(db, h, a)
    ensures TablesOk(Apply(db, a), Remember(db, h, a))
  {
    var db', h' := Apply(db, a), Remember(db, h, a);
    forall t: nat | t < |db'.tasks| ensures db'.tasks[t].job in h'.released && TaskOk(db', t) {
      ActionKeepsTasks(db, h, a, t);
    }
    forall j: nat | j < |db'.jobs| ensures JobOk(db'.jobs[j], j, h') {
      ActionKeepsJobs(db, h, a, j);
    }
    ActionKeepsHistory(db, h, a);
  }

  lemma ActionKeepsHistory(db: Db, h: History, a: Action)
    requires TablesOk(db, h) && Allowed(db, h, a)
    ensures var db', h' := Apply(db, a), Remember(db, h, a);
            && (forall j :: j in h'.released ==> HasJob(db', j))
            && (forall j :: j in h'.completed ==> j in h'.released)
            && (forall t :: t in h'.handed ==> t < |db'.tasks|)
            && (forall k :: 0 <= k < |h'.counted| ==> h'.counted[k].job in h'.released)
  {
  }

  // ----- what a thread knows -----

  ghost predicate ResultOk(db: Db, h: History, r: Result) {
    r.task < |db.tasks| && db.tasks[r.task].job == r.job && r.job in h.released && HasJob(db, r.job)
  }

  /** The job row a completion check works with carries the result of a recount that happened
      at or after the call's own one. */
  ghost predicate Recounted(h: History, j: nat, row: Job, since: nat) {
    exists m :: since <= m < |h.counted| && h.counted[m].job == j && row.counts == Tally(h.counted[m].tasks, j)
  }

  ghost predicate RunnerRow(db: Db, h: History, j: nat, t: nat, kind: Kind) {
    j in h.released && t < |db.tasks| && db.tasks[t].job == j && db.tasks[t].kind == kind
  }

  ghost predicate ThreadOk(db: Db, h: History, th: Thread) {
    match th
    case Done => true
    case SyncLookup(r) => ResultOk(db, h, r)
    case Record(r) => ResultOk(db, h, r)
    case RetryRead(r) => ResultOk(db, h, r)
    case RetryJobRead(r, retries, _, _) => ResultOk(db, h, r) && db.tasks[r.task].retryCount == retries
    case RetryInsert(r, retries) =>
      ResultOk(db, h, r) && db.tasks[r.task].retryCount == retries && retries < db.jobs[r.job].maxRetries
    case Count(j) => j in h.released
    case CheckRead(j, since) => j in h.released && since < |h.counted| && h.counted[since].job == j
    case ConcatList(j, row, since) =>
      j in h.released && Recounted(h, j, row, since) && row.counts.pending == 1 && row.counts.running == 0
    case ConcatSkip(j, row, since, _) => j in h.released && Recounted(h, j, row, since)
    case ConcatSkipCount(j, row, since) => j in h.released && Recounted(h, j, row, since)
    case ConcatClaim(j, t, _) => RunnerRow(db, h, j, t, Concat)
    case VmafList(j, row, since) => j in h.released && Recounted(h, j, row, since)
    case VmafSkip(j, row, since, _) => j in h.released && Recounted(h, j, row, since)
    case VmafSkipCount(j, row, since) => j in h.released && Recounted(h, j, row, since)
    case VmafClaim(j, t) => RunnerRow(db, h, j, t, VmafTarget)
    case Settle(j, row, since) =>
      j in h.released && Recounted(h, j, row, since) && row.counts.pending == 0 && row.counts.running == 0
    case Release(j) => j in h.completed
    case RunConcat(j, t, _, n) => RunnerRow(db, h, j, t, Concat) && n < |h.claims| && h.claims[n] == t
    case RunVmaf(j, t, n) => RunnerRow(db, h, j, t, VmafTarget) && n < |h.claims| && h.claims[n] == t
    case FinishRun(j, _, _) => j in h.released
    case PollCount(j) => j in h.released
    case PollRead(j) => j in h.released
    case PollRun(_) => false
    case CreateInsert(spec, seen, _) =>
      && (seen.Met? || seen.Unmet? ==> spec.dependsOn.Some?)
      && (seen.Met? ==> spec.dependsOn.value in h.completed)
    case RetryTasks(j) => j in h.released
    case RetryQueue(j) => j in h.released
    case Reset(_, j) => j in h.released
    case ResetCount(j) => j in h.released
    case ExpandRows(j, _) => j in h.released && HasJob(db, j)
    case ExpandScripts(j, _, _) => j in h.released && HasJob(db, j)
    case ExpandCount(j) => j in h.released
    case ExpandQueue(j) => j in h.released
    case ExpandCleanup(j) => j in h.released
    case ExpandFail(j) => j in h.released
    case AnalysisStart(j) => j in h.released
    case AnalysisRun(j) => j in h.released
    case AnalysisDone(j) => j in h.released
    case _ => true
  }

  lemma RecountedGrows(h: History, h': History, j: nat, row: Job, since: nat)
    requires Recounted(h, j, row, since) && h.counted <= h'.counted
    ensures Recounted(h', j, row, since)
  {
    var m :| since <= m < |h.counted| && h.counted[m].job == j && row.counts == Tally(h.counted[m].tasks, j);
    assert h'.counted[m] == h.counted[m];
  }

  /** What a thread knows stays true whatever other threads do. */
  lemma ThreadOkIsStable(db: Db, h: History, db': Db, h': History, th: Thread)
    requires ThreadOk(db, h, th) && Grows(db, h, db', h')
    ensures ThreadOk(db', h', th)
  {
    match th
    case ConcatList(j, row, since) => RecountedGrows(h, h', j, row, since);
    case ConcatSkip(j, row, since, _) => RecountedGrows(h, h', j, row, since);
    case ConcatSkipCount(j, row, since) => RecountedGrows(h, h', j, row, since);
    case VmafList(j, row, since) => RecountedGrows(h, h', j, row, since);
    case VmafSkip(j, row, since, _) => RecountedGrows(h, h', j, row, since);
    case VmafSkipCount(j, row, since) => RecountedGrows(h, h', j, row, since);
    case Settle(j, row, since) => RecountedGrows(h, h', j, row, since);
    case CheckRead(j, since) => assert h'.counted[since] == h.counted[since];
    case RunConcat(_, _, _, n) => assert h'.claims[n] == h.claims[n];
    case RunVmaf(_, _, n) => assert h'.claims[n] == h.claims[n];
    case _ =>
  }
}
