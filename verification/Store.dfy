/**
 The store object: its tables are updated in place by one method per statement.  Each method is
 tied to the statement's function in JobRows.
 */
module Store {
  import opened Basics
  import opened JobRows

  class JobStore {
    var jobs: seq<Job>
    var tasks: seq<Task>

    function Now(): Db
      reads this
    {
      Db(jobs, tasks)
    }

    constructor ()
      ensures Now() == Db([], [])
    {
      jobs, tasks := [], [];
    }

    // ----- jobs -----

    method InsertJob(job: Job) returns (id: nat)
      modifies this
      ensures id == |old(jobs)| && jobs == old(jobs) + [job] && tasks == old(tasks)
    {
      id := |jobs|;
      jobs := jobs + [job];
    }

    method UpdateJobStatus(j: nat, s: Status) returns (found: bool)
      modifies this
      ensures Now() == SetJobStatus(old(Now()), j, s) && found == HasJob(old(Now()), j)
    {
      found := j < |jobs|;
      if found { jobs := jobs[j := jobs[j].(status := s)]; }
    }

    method UpdateJobPriority(j: nat, p: int) returns (found: bool)
      modifies this
      ensures Now() == SetPriority(old(Now()), j, p) && found == HasJob(old(Now()), j)
    {
      found := j < |jobs|;
      if found { jobs := jobs[j := jobs[j].(priority := p)]; }
    }

    method UnblockDependentJobs(p: nat)
      modifies this
      ensures Now() == UnblockDependents(old(Now()), p)
      ensures ReleasesWaiting(old(jobs), jobs, p, true)
    {
      for i := 0 to |jobs|
        invariant tasks == old(tasks) && |jobs| == |old(jobs)|
        invariant forall k :: i <= k < |jobs| ==> jobs[k] == old(jobs)[k]
        invariant forall k :: 0 <= k < i ==> jobs[k] == UnblockDependents(old(Now()), p).jobs[k]
      {
        if jobs[i].dependsOn == Some(p) && jobs[i].status == Waiting {
          jobs := jobs[i := jobs[i].(status := Queued)];
        }
      }
      assert jobs == UnblockDependents(old(Now()), p).jobs;
    }

    method CountWithStatus(j: nat, s: Status) returns (n: nat)
      ensures n == CountStatus(tasks, j, s)
    {
      n := 0;
      for i := 0 to |tasks|
        invariant n == CountStatus(tasks[..i], j, s)
      {
        assert tasks[..i + 1][..i] == tasks[..i];
        assert RowOf(tasks[..i + 1], i, j) == RowOf(tasks, i, j);
        if tasks[i].live && tasks[i].job == j && tasks[i].status == s { n := n + 1; }
      }
      assert tasks[..|tasks|] == tasks;
    }

    method CountAll(j: nat) returns (n: nat)
      ensures n == CountRows(tasks, j)
    {
      n := 0;
      for i := 0 to |tasks|
        invariant n == CountRows(tasks[..i], j)
      {
        assert tasks[..i + 1][..i] == tasks[..i];
        assert RowOf(tasks[..i + 1], i, j) == RowOf(tasks, i, j);
        if tasks[i].live && tasks[i].job == j { n := n + 1; }
      }
      assert tasks[..|tasks|] == tasks;
    }

    method UpdateJobTaskCounts(j: nat)
      modifies this
      ensures Now() == Recount(old(Now()), j)
    {
      if j >= |jobs| { return; }
      var total := CountAll(j);
      var pending := CountWithStatus(j, Pending);
      var running := CountWithStatus(j, Running);
      var completed := CountWithStatus(j, Completed);
      var failed := CountWithStatus(j, Failed);
      jobs := jobs[j := jobs[j].(counts := Counts(total, pending, running, completed, failed))];
    }

    // ----- tasks -----

    /** CreateTask: refused when the job already has the chunk index, or by a failing database. */
    method CreateTask(j: nat, chunk: nat, kind: Kind, output: string, ok: bool) returns (created: bool)
      modifies this
      ensures created == (ok && !ChunkTaken(old(Now()), j, chunk))
      ensures Now() == if created then InsertTask(old(Now()), NewTask(j, chunk, kind, output)) else old(Now())
    {
      if !ok { return false; }
      for i := 0 to |tasks|
        invariant forall t :: 0 <= t < i ==> !(RowOf(tasks, t, j) && tasks[t].chunk == chunk)
      {
        if tasks[i].live && tasks[i].job == j && tasks[i].chunk == chunk {
          assert RowOf(tasks, i, j);
          return false;
        }
      }
      tasks := tasks + [NewTask(j, chunk, kind, output)];
      return true;
    }

    /** ClaimNextTask without contention: the first eligible row in claim order, if any. */
    method ClaimNextTask(agent: nat, tags: set<string>, now: int) returns (claimed: Option<nat>)
      modifies this
      ensures claimed.None? ==> Now() == old(Now()) && forall t: nat :: !Eligible(old(Now()), t, tags, now)
      ensures claimed.Some? ==> NextClaim(old(Now()), claimed.value, tags, now)
                                && Now() == AssignTask(old(Now()), claimed.value, agent)
      ensures claimed.Some? ==> MayTake(old(jobs), old(tasks), claimed.value, tags, now)
                                && tasks[claimed.value] == old(tasks)[claimed.value].(status := Assigned, agent := Some(agent))
      ensures claimed.None? ==> forall t: nat :: !MayTake(jobs, tasks, t, tags, now)
    {
      forall t: nat ensures Eligible(Now(), t, tags, now) <==> MayTake(jobs, tasks, t, tags, now) {
        EligibleExactly(Now(), t, tags, now);
      }
      claimed := None;
      for i := 0 to |tasks|
        invariant claimed.None? ==> forall t: nat :: t < i ==> !Eligible(Now(), t, tags, now)
        invariant claimed.Some? ==> claimed.value < i && Eligible(Now(), claimed.value, tags, now)
        invariant claimed.Some? ==> forall t: nat :: t < i && Eligible(Now(), t, tags, now) ==>
                                      !ClaimedBefore(Now(), t, claimed.value)
      {
        if Eligible(Now(), i, tags, now) && (claimed.None? || ClaimedBefore(Now(), i, claimed.value)) {
          claimed := Some(i);
        }
      }
      if claimed.Some? {
        var t := claimed.value;
        tasks := tasks[t := tasks[t].(status := Assigned, agent := Some(agent))];
      }
    }

    method ClaimConcatTask(t: nat) returns (won: bool)
      modifies this
      ensures won == Claimable(old(Now()), t) && Now() == ClaimRow(old(Now()), t)
    {
      won := t < |tasks| && tasks[t].live && tasks[t].status == Pending;
      if won { tasks := tasks[t := tasks[t].(status := Running)]; }
    }

    method SetRunning(t: nat) returns (found: bool)
      modifies this
      ensures found == HasTask(old(Now()), t) && Now() == MarkRunning(old(Now()), t)
    {
      found := t < |tasks| && tasks[t].live;
      if found { tasks := tasks[t := tasks[t].(status := Running)]; }
    }

    method Complete(t: nat, exit: int)
      modifies this
      ensures Now() == CompleteTask(old(Now()), t, exit)
    {
      if t < |tasks| && tasks[t].live {
        tasks := tasks[t := tasks[t].(status := Completed, exitCode := Some(exit))];
      }
    }

    method Fail(t: nat, exit: int, message: string)
      modifies this
      ensures Now() == FailTask(old(Now()), t, exit, message)
    {
      if t < |tasks| && tasks[t].live {
        tasks := tasks[t := tasks[t].(status := Failed, exitCode := Some(exit), errorMsg := Some(message))];
      }
    }

    method CancelPendingTasksForJob(j: nat)
      modifies this
      ensures Now() == CancelPendingTasks(old(Now()), j)
    {
      for i := 0 to |tasks|
        invariant jobs == old(jobs) && |tasks| == |old(tasks)|
        invariant forall k :: i <= k < |tasks| ==> tasks[k] == old(tasks)[k]
        invariant forall k :: 0 <= k < i ==> tasks[k] == CancelledRow(old(tasks)[k], j)
      {
        if tasks[i].live && tasks[i].job == j && (tasks[i].status == Pending || tasks[i].status == Assigned) {
          tasks := tasks[i := tasks[i].(status := Cancelled)];
        }
      }
      assert tasks == CancelPendingTasks(old(Now()), j).tasks;
    }

    method DeleteTasksByJobID(j: nat)
      modifies this
      ensures Now() == DeleteTasks(old(Now()), j)
    {
      for i := 0 to |tasks|
        invariant jobs == old(jobs) && |tasks| == |old(tasks)|
        invariant forall k :: i <= k < |tasks| ==> tasks[k] == old(tasks)[k]
        invariant forall k :: 0 <= k < i ==> tasks[k] == DeletedRow(old(tasks)[k], j)
      {
        if tasks[i].job == j { tasks := tasks[i := tasks[i].(live := false)]; }
      }
      assert tasks == DeleteTasks(old(Now()), j).tasks;
    }

    method RetryFailedTasksForJob(j: nat)
      modifies this
      ensures Now() == RetryFailedTasks(old(Now()), j)
    {
      for i := 0 to |tasks|
        invariant jobs == old(jobs) && |tasks| == |old(tasks)|
        invariant forall k :: i <= k < |tasks| ==> tasks[k] == old(tasks)[k]
        invariant forall k :: 0 <= k < i ==> tasks[k] == RetriedRow(old(tasks)[k], j)
      {
        if tasks[i].live && tasks[i].job == j && tasks[i].status == Failed {
          tasks := tasks[i := tasks[i].(status := Pending, agent := None, exitCode := None, errorMsg := None)];
        }
      }
      assert tasks == RetryFailedTasks(old(Now()), j).tasks;
    }

    /** PreemptTask. */
    method PreemptTask(t: nat) returns (found: bool)
      modifies this
      ensures found == Preemptible(old(Now()), t)
      ensures Now() == if found then RequeueTask(old(Now()), t) else old(Now())
      ensures found <==> t < |old(tasks)| && old(tasks)[t].live && (old(tasks)[t].status == Assigned || old(tasks)[t].status == Running)
      ensures jobs == old(jobs)
      ensures tasks == if found then old(tasks)[t := old(tasks)[t].(status := Pending, agent := None)] else old(tasks)
    {
      found := t < |tasks| && tasks[t].live && (tasks[t].status == Assigned || tasks[t].status == Running);
      if found { tasks := tasks[t := tasks[t].(status := Pending, agent := None)]; }
    }

    /** ResetTask: any existing row goes back to pending; callers check the status. */
    method ResetTask(t: nat) returns (found: bool)
      modifies this
      ensures found == HasTask(old(Now()), t) && Now() == RequeueTask(old(Now()), t)
      ensures jobs == old(jobs) && (found <==> t < |old(tasks)| && old(tasks)[t].live)
      ensures tasks == if found then old(tasks)[t := old(tasks)[t].(status := Pending, agent := None)] else old(tasks)
    {
      found := t < |tasks| && tasks[t].live;
      if found { tasks := tasks[t := tasks[t].(status := Pending, agent := None)]; }
    }

    /** RetryTaskWithBackoffJitter. */
    method RetryTask(t: nat, retryCount: nat, now: int, jitter: nat) returns (created: bool)
      modifies this
      ensures created == HasTask(old(Now()), t)
      ensures Now() == if created then InsertTask(old(Now()), RetryRow(old(Now()), t, retryCount, now, jitter)) else old(Now())
    {
      created := t < |tasks| && tasks[t].live;
      if created { tasks := tasks + [RetryRow(Now(), t, retryCount, now, jitter)]; }
    }
  }
}
