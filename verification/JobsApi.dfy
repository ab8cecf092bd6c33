/**
 The job endpoints, call by call: creating jobs and chains, cancelling, retrying and preempting.
 */
module JobsApi {
  import opened Basics
  import opened JobRows
  import opened Store
  import opened Protocol
  import opened ProtocolTheorems
  import opened ResultHandling
  import opened Completion

  // ----- creating -----

  predicate CanInsert(db: Db, spec: JobSpec) {
    spec.dependsOn.Some? ==> HasJob(db, spec.dependsOn.value)
  }

  /** CreateJob: `queryOk` is whether the status lookup of the predecessor succeeds, `insertOk`
      whether the insert does. */
  method CreateJob(store: JobStore, spec: JobSpec, queryOk: bool, insertOk: bool) returns (id: Option<nat>)
    modifies store
    ensures id == if insertOk && CanInsert(old(store.Now()), spec) then Some(|old(store.jobs)|) else None
    ensures store.tasks == old(store.tasks)
    ensures store.jobs == old(store.jobs)
                          + if id.None? then [] else [NewJob(spec, LookAtDependency(old(store.Now()), spec, queryOk))]
    ensures id.Some? ==>
              var row, p := store.jobs[id.value], spec.dependsOn;
              && row.priority == spec.priority && row.tags == spec.tags && row.maxRetries == spec.maxRetries && row.dependsOn == p
              && row.status == (if p.Some? && queryOk && old(store.jobs)[p.value].status != Completed then Waiting else Queued)
  {
    var status, saw := Queued, false;
    if spec.dependsOn.Some? && queryOk && spec.dependsOn.value < |store.jobs| {
      saw := true;
      if store.jobs[spec.dependsOn.value].status != Completed { status := Waiting; }
    }
    if !insertOk || (spec.dependsOn.Some? && spec.dependsOn.value >= |store.jobs|) { return None; }
    var n := store.InsertJob(Job(status, spec.priority, spec.tags, spec.maxRetries, spec.dependsOn, saw, ZERO));
    return Some(n);
  }

  /** A chain step: its priority and tags.  Chains are created without retries. */
  datatype ChainStep = ChainStep(priority: int, tags: set<string>)

  /** The row of chain step i when the chain's first job has id `first`. */
  function ChainJob(step: ChainStep, first: nat, i: nat, queryOk: bool): Job {
    Job(if i > 0 && queryOk then Waiting else Queued, step.priority, step.tags, 0,
        if i == 0 then None else Some(first + i - 1), i > 0 && queryOk, ZERO)
  }

  /** handleCreateJobChain: each step depends on the one before it.  A failing insert ends the
      request with an error and leaves the jobs created so far. */
  method CreateJobChain(store: JobStore, steps: seq<ChainStep>, queryOk: seq<bool>, insertOk: seq<bool>)
    returns (created: nat, ok: bool)
    requires |queryOk| == |insertOk| == |steps|
    modifies store
    ensures created <= |steps| && (forall i :: 0 <= i < created ==> insertOk[i])
    ensures ok <==> steps != [] && created == |steps|
    ensures created < |steps| ==> !insertOk[created]
    ensures store.tasks == old(store.tasks) && |store.jobs| == |old(store.jobs)| + created
    ensures forall k :: 0 <= k < |old(store.jobs)| ==> store.jobs[k] == old(store.jobs)[k]
    ensures forall i :: 0 <= i < created ==>
              store.jobs[|old(store.jobs)| + i] == ChainJob(steps[i], |old(store.jobs)|, i, queryOk[i])
  {
    created := 0;
    if |steps| == 0 { return 0, false; }
    ghost var first := |store.jobs|;
    var prevJob: Option<nat> := None;
    while created < |steps|
      invariant 0 <= created <= |steps| && |store.jobs| == first + created && store.tasks == old(store.tasks)
      invariant prevJob == if created == 0 then None else Some(first + created - 1)
      invariant forall i :: 0 <= i < created ==> insertOk[i]
      invariant forall k :: 0 <= k < first ==> store.jobs[k] == old(store.jobs)[k]
      invariant forall i :: 0 <= i < created ==> store.jobs[first + i] == ChainJob(steps[i], first, i, queryOk[i])
    {
      if created > 0 {
        assert store.jobs[first + (created - 1)] == ChainJob(steps[created - 1], first, created - 1, queryOk[created - 1]);
      }
      var spec := JobSpec(steps[created].priority, steps[created].tags, 0, prevJob);
      var id := CreateJob(store, spec, queryOk[created], insertOk[created]);
      if id.None? { return created, false; }
      created := created + 1;
      prevJob := id;
    }
    ok := true;
  }

  function Iota(first: nat, n: nat): (ids: seq<nat>)
    ensures |ids| == n && forall i :: 0 <= i < n ==> ids[i] == first + i
  {
    seq(n, i requires 0 <= i < n => first + i)
  }

  /** The jobs of a chain request are a chain in the sense of ChainReleasesInOrder exactly if every
      lookup after the first succeeded; a step whose lookup failed is released at once. */
  lemma ChainRequestsMakeChains(db: Db, steps: seq<ChainStep>, queryOk: seq<bool>, first: nat, n: nat)
    requires |queryOk| == |steps| && n <= |steps| && first + n == |db.jobs|
    requires forall i :: 0 <= i < n ==> db.jobs[first + i] == ChainJob(steps[i], first, i, queryOk[i])
    ensures IsChain(db, Iota(first, n)) <==> forall i :: 0 < i < n ==> queryOk[i]
    ensures forall i :: 0 < i < n && !queryOk[i] ==> IsReleased(db, first + i)
  {
    var chain := Iota(first, n);
    forall i | 0 < i < n
      ensures db.jobs[chain[i]].dependsOn == Some(chain[i - 1]) && (db.jobs[chain[i]].sawDependency <==> queryOk[i])
    {
      assert db.jobs[first + i] == ChainJob(steps[i], first, i, queryOk[i]);
    }
    if IsChain(db, chain) {
      forall i | 0 < i < n ensures queryOk[i] {
        var p := i - 1;
        assert chain[p] == first + p && db.jobs[chain[i]].sawDependency;
      }
    }
  }

  // ----- cancelling, retrying, preempting -----

  predicate CanCancel(db: Db, j: nat) {
    HasJob(db, j) && db.jobs[j].status != Cancelled && db.jobs[j].status != Completed
  }

  function AfterCancel(db: Db, j: nat): Db {
    CancelPendingTasks(SetJobStatus(db, j, Cancelled), j)
  }

  /** handleCancelJob. */
  method CancelJob(store: JobStore, j: nat) returns (ok: bool)
    modifies store
    ensures ok == CanCancel(old(store.Now()), j)
    ensures ok <==> j < |old(store.jobs)| && old(store.jobs)[j].status != Cancelled && old(store.jobs)[j].status != Completed
    ensures store.jobs == if ok then old(store.jobs)[j := old(store.jobs)[j].(status := Cancelled)] else old(store.jobs)
    ensures store.Now() == if ok then AfterCancel(old(store.Now()), j) else old(store.Now())
  {
    if j >= |store.jobs| { return false; }
    if store.jobs[j].status == Cancelled || store.jobs[j].status == Completed { return false; }
    var found := store.UpdateJobStatus(j, Cancelled);
    store.CancelPendingTasksForJob(j);
    return true;
  }

  /** After a cancellation no row of the job can be claimed by an agent or a runner: exactly its
      pending and assigned rows are cancelled, and every other row is as it was. */
  lemma CancelStopsClaims(db: Db, j: nat, t: nat, tags: set<string>, now: int)
    requires HasJob(db, j) && t < |db.tasks|
    ensures var d := AfterCancel(db, j);
            && |d.tasks| == |db.tasks|
            && (RowOf(d.tasks, t, j) ==> !Eligible(d, t, tags, now) && !Claimable(d, t) && d.tasks[t].status != Assigned)
            && (d.tasks[t] != db.tasks[t] <==> RowOf(db.tasks, t, j) && db.tasks[t].status in {Pending, Assigned})
            && (d.tasks[t] != db.tasks[t] ==> d.tasks[t] == db.tasks[t].(status := Cancelled))
  {
  }

  ghost predicate HasRowIn(db: Db, j: nat, s: Status) { exists t: nat :: RowOf(db.tasks, t, j) && db.tasks[t].status == s }

  lemma CancelLeavesCounts(db: Db, j: nat, s: Status)
    requires s != Pending && s != Assigned && s != Cancelled
    ensures CountStatus(AfterCancel(db, j).tasks, j, s) > 0 <==> HasRowIn(db, j, s)
  {
    var d := AfterCancel(db, j);
    CountStatusZero(d.tasks, j, s);
    if t: nat :| RowOf(db.tasks, t, j) && db.tasks[t].status == s { assert RowOf(d.tasks, t, j) && d.tasks[t].status == s; }
    if t: nat :| RowOf(d.tasks, t, j) && d.tasks[t].status == s { assert RowOf(db.tasks, t, j) && db.tasks[t].status == s; }
  }

  /** A cancellation is not final: rows that were running go on, and the first check that finds none
      running overwrites the status, with failed if some row failed and completed otherwise. */
  lemma CancelIsOverwritten(cfg: Config, db: Db, j: nat)
    requires CanCancel(db, j)
    ensures var d := RecountedCheck(cfg, AfterCancel(db, j), j).db;
            && HasJob(d, j)
            && d.jobs[j].status == if HasRowIn(db, j, Running) then Cancelled else if HasRowIn(db, j, Failed) then Failed else Completed
  {
    var d := AfterCancel(db, j);
    CheckSettlesExactly(cfg, d, j);
    CountStatusZero(d.tasks, j, Pending);
    CancelLeavesCounts(db, j, Running);
    CancelLeavesCounts(db, j, Failed);
  }

  predicate CanRetry(db: Db, j: nat) { HasJob(db, j) && db.jobs[j].status == Failed }

  /** handleRetryJob: the failed rows are pending again, the job is queued, and the stored counters
      stay as they were. */
  method RetryJob(store: JobStore, j: nat) returns (ok: bool)
    modifies store
    ensures ok == CanRetry(old(store.Now()), j)
    ensures ok <==> j < |old(store.jobs)| && old(store.jobs)[j].status == Failed
    ensures store.jobs == if ok then old(store.jobs)[j := old(store.jobs)[j].(status := Queued)] else old(store.jobs)
    ensures store.Now() == if ok then SetJobStatus(RetryFailedTasks(old(store.Now()), j), j, Queued) else old(store.Now())
  {
    if j >= |store.jobs| || store.jobs[j].status != Failed { return false; }
    store.RetryFailedTasksForJob(j);
    var found := store.UpdateJobStatus(j, Queued);
    return true;
  }

  /** A manual retry opens exactly the failed rows of the job again, including failed rows that an
      automatic retry has repeated already. */
  lemma RetryReopensFailedRows(db: Db, j: nat, t: nat)
    requires CanRetry(db, j) && t < |db.tasks|
    ensures var d := SetJobStatus(RetryFailedTasks(db, j), j, Queued);
            && HasJob(d, j) && d.jobs[j].status == Queued && d.jobs[j].counts == db.jobs[j].counts
            && |d.tasks| == |db.tasks|
            && (RowOf(d.tasks, t, j) ==> d.tasks[t].status != Failed)
            && (d.tasks[t] != db.tasks[t] <==> RowOf(db.tasks, t, j) && db.tasks[t].status == Failed)
            && (d.tasks[t] != db.tasks[t] ==> Claimable(d, t) && d.tasks[t].agent.None? && d.tasks[t].exitCode.None?
                                              && d.tasks[t].errorMsg.None? && d.tasks[t].retryCount == db.tasks[t].retryCount)
  {
  }

  /** handlePreemptTask. */
  method PreemptTask(store: JobStore, t: nat) returns (ok: bool)
    modifies store
    ensures ok == Preemptible(old(store.Now()), t)
    ensures ok <==> t < |old(store.tasks)| && old(store.tasks)[t].live
                    && (old(store.tasks)[t].status == Assigned || old(store.tasks)[t].status == Running)
    ensures store.Now() == if ok then RequeueTask(old(store.Now()), t) else old(store.Now())
  {
    ok := store.PreemptTask(t);
  }
}
