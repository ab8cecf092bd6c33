/**
 What a completion check means: exactly when it settles a job, what a skipped merge leaves behind,
 what the merge is given, and that the call is the protocol's thread run without interference.
 */
module Completion {
  import opened Basics
  import opened RetryPolicy
  import opened JobRows
  import opened Protocol
  import opened ResultHandling
  import opened Chunks
  import opened Frames

  // ----- settling -----

  /** The status a completion check gives a job whose rows were counted as n. */
  function SettledStatus(n: Counts, was: Status): Status {
    if n.pending > 0 || n.running > 0 then was else if n.failed > 0 then Failed else Completed
  }

  lemma SettledSets(db: Db, j: nat, row: Job)
    requires HasJob(db, j)
    ensures HasJob(Settled(db, j, row).db, j)
    ensures Settled(db, j, row).db.jobs[j].status == SettledStatus(row.counts, db.jobs[j].status)
  {
  }

  lemma VmafPartSets(cfg: Config, db: Db, j: nat, row: Job)
    requires HasJob(db, j)
    ensures HasJob(VmafPart(cfg, db, j, row).db, j)
    ensures VmafPart(cfg, db, j, row).db.jobs[j].status == SettledStatus(row.counts, db.jobs[j].status)
  {
    SettledSets(db, j, row);
    if TriesVmaf(cfg, row) && Pick(db, j, VmafTarget).Some? {
      SettledSets(Skip(db, j, Pick(db, j, VmafTarget).value, SKIPPED_VMAF), j, row);
    }
  }

  /** A recounted check settles the job exactly if the recount shows no pending and no running row
      (failed if one failed, completed otherwise), and queues the jobs that wait for it exactly if it
      completes the job.  No other job changes. */
  lemma CheckSettlesExactly(cfg: Config, db: Db, j: nat)
    requires HasJob(db, j)
    ensures var o, n := RecountedCheck(cfg, db, j), Tally(db.tasks, j);
            && HasJob(o.db, j) && o.db.jobs[j].status == SettledStatus(n, db.jobs[j].status)
            && ReleasesWaiting(db.jobs, o.db.jobs, j, Closes(n))
  {
    var d := Recount(db, j);
    var row := d.jobs[j];
    CheckedReleases(cfg, d, j);
    VmafPartSets(cfg, d, j, row);
    if TriesConcat(cfg, row) && Pick(d, j, Concat).Some? {
      VmafPartSets(cfg, Skip(d, j, Pick(d, j, Concat).value, SKIPPED_CONCAT), j, row);
    }
  }

  /** Another job i changes in a recounted check of j exactly if it is waiting for j and no row of j is
      pending, running or failed; it is then queued. */
  lemma CheckReleasesExactly(cfg: Config, db: Db, j: nat, i: nat)
    requires HasJob(db, j) && HasJob(db, i) && i != j
    ensures var d := RecountedCheck(cfg, db, j).db;
            && HasJob(d, i)
            && (d.jobs[i] != db.jobs[i] <==>
                  db.jobs[i].status == Waiting && db.jobs[i].dependsOn == Some(j)
                  && forall t: nat :: RowOf(db.tasks, t, j) ==>
                       db.tasks[t].status != Pending && db.tasks[t].status != Running && db.tasks[t].status != Failed)
            && (d.jobs[i] != db.jobs[i] ==> d.jobs[i] == db.jobs[i].(status := Queued))
  {
    CheckSettlesExactly(cfg, db, j);
    CountStatusZero(db.tasks, j, Pending);
    CountStatusZero(db.tasks, j, Running);
    CountStatusZero(db.tasks, j, Failed);
  }

  /** The counters overlook assigned and cancelled rows: a check completes a job exactly if none of
      its rows is pending, running or failed, so also under a row an agent still works on. */
  lemma CheckCompletesExactly(cfg: Config, db: Db, j: nat)
    requires HasJob(db, j) && db.jobs[j].status != Completed
    ensures HasJob(RecountedCheck(cfg, db, j).db, j)
    ensures RecountedCheck(cfg, db, j).db.jobs[j].status == Completed <==>
            forall t: nat :: RowOf(db.tasks, t, j) ==>
              db.tasks[t].status != Pending && db.tasks[t].status != Running && db.tasks[t].status != Failed
  {
    CheckSettlesExactly(cfg, db, j);
    CountStatusZero(db.tasks, j, Pending);
    CountStatusZero(db.tasks, j, Running);
    CountStatusZero(db.tasks, j, Failed);
  }

  // ----- a skipped row -----

  lemma {:induction false} StatusMoves(tasks: seq<Task>, j: nat, t: nat, to: Status, s: Status, row: Task)
    requires RowOf(tasks, t, j) && tasks[t].status != to
    requires row.job == j && row.live && row.status == to
    ensures CountStatus(tasks[t := row], j, s)
         == CountStatus(tasks, j, s) + (if s == to then 1 else 0) - (if s == tasks[t].status then 1 else 0)
  {
    var n := |tasks| - 1;
    var tasks' := tasks[t := row];
    if t == n {
      assert tasks'[..n] == tasks[..n];
      assert RowOf(tasks', n, j);
    } else {
      assert tasks'[..n] == tasks[..n][t := row] && RowOf(tasks[..n], t, j);
      StatusMoves(tasks[..n], j, t, to, s, row);
      assert RowOf(tasks', n, j) == RowOf(tasks, n, j);
    }
  }

  ghost predicate PendingOfKind(tasks: seq<Task>, j: nat, kind: Kind) {
    exists t: nat :: RowOf(tasks, t, j) && tasks[t].kind == kind && tasks[t].status == Pending
  }

  lemma PickFindsPending(db: Db, j: nat, kind: Kind)
    ensures Pick(db, j, kind).Some? <==> PendingOfKind(db.tasks, j, kind)
  {
    ListByJobSound(db.tasks, j);
    if t: nat :| RowOf(db.tasks, t, j) && db.tasks[t].kind == kind && db.tasks[t].status == Pending {
      assert t in ListByJob(db.tasks, j);
    }
  }

  /** The one pending row is a merge or vmaf_target row whose runner is wired in, and a row failed. */
  ghost predicate SkipsLastRow(cfg: Config, db: Db, j: nat) {
    var n := Tally(db.tasks, j);
    && n.running == 0 && n.pending == 1 && n.failed > 0
    && ((cfg.concatRunner && PendingOfKind(db.tasks, j, Concat)) || (cfg.vmafRunner && PendingOfKind(db.tasks, j, VmafTarget)))
  }

  lemma NoSecondPending(db: Db, j: nat, kind: Kind)
    requires CountStatus(db.tasks, j, Pending) == 0
    ensures Pick(db, j, kind).None?
  {
    CountStatusZero(db.tasks, j, Pending);
    ListByJobSound(db.tasks, j);
  }

  lemma SkippedRows(db: Db, j: nat, t: nat, message: string)
    requires RowOf(db.tasks, t, j) && db.tasks[t].status == Pending
    ensures var n, n' := Tally(db.tasks, j), Tally(Skip(db, j, t, message).tasks, j);
            n.pending == n'.pending + 1 && n'.running == n.running && n'.failed == n.failed + 1
  {
    var row := db.tasks[t].(status := Failed, exitCode := Some(-1), errorMsg := Some(message));
    StatusMoves(db.tasks, j, t, Failed, Pending, row);
    StatusMoves(db.tasks, j, t, Failed, Running, row);
    StatusMoves(db.tasks, j, t, Failed, Failed, row);
  }

  /** Nothing is open any more, and some row failed. */
  predicate Broken(n: Counts) { n.pending == 0 && n.running == 0 && n.failed > 0 }

  lemma SkippedMerge(cfg: Config, db: Db, j: nat)
    requires HasJob(db, j) && SkipsLastRow(cfg, db, j) && cfg.concatRunner && PendingOfKind(db.tasks, j, Concat)
    ensures RecountedCheck(cfg, db, j).launch.None? && Broken(Tally(RecountedCheck(cfg, db, j).db.tasks, j))
  {
    PickFindsPending(db, j, Concat);
    PickedIsClaimable(db, j, Concat);
    var d, t := Recount(db, j), Pick(db, j, Concat).value;
    SkippedRows(d, j, t, SKIPPED_CONCAT);
    var e := Skip(d, j, t, SKIPPED_CONCAT);
    NoSecondPending(e, j, VmafTarget);
    assert RecountedCheck(cfg, db, j) == VmafPart(cfg, e, j, d.jobs[j]) == Outcome(e, None);
  }

  lemma SkippedVmaf(cfg: Config, db: Db, j: nat)
    requires HasJob(db, j) && SkipsLastRow(cfg, db, j) && !(cfg.concatRunner && PendingOfKind(db.tasks, j, Concat))
    ensures RecountedCheck(cfg, db, j).launch.None? && Broken(Tally(RecountedCheck(cfg, db, j).db.tasks, j))
  {
    var d := Recount(db, j);
    PickFindsPending(d, j, Concat);
    PickFindsPending(d, j, VmafTarget);
    PickedIsClaimable(d, j, VmafTarget);
    var t := Pick(d, j, VmafTarget).value;
    SkippedRows(d, j, t, SKIPPED_VMAF);
    assert RecountedCheck(cfg, db, j) == VmafPart(cfg, d, j, d.jobs[j]) == Outcome(Skip(d, j, t, SKIPPED_VMAF), None);
  }

  /** After a skipped row the check goes on with the job row it read before: the row is failed and
      nothing is pending or running any more, yet the job keeps its status. */
  lemma SkippedRowLeavesJobOpen(cfg: Config, db: Db, j: nat)
    requires HasJob(db, j) && SkipsLastRow(cfg, db, j)
    ensures var o := RecountedCheck(cfg, db, j);
            HasJob(o.db, j) && o.db.jobs[j].status == db.jobs[j].status && o.launch.None? && Broken(Tally(o.db.tasks, j))
  {
    if cfg.concatRunner && PendingOfKind(db.tasks, j, Concat) { SkippedMerge(cfg, db, j); } else { SkippedVmaf(cfg, db, j); }
    CheckSettlesExactly(cfg, db, j);
  }

  lemma SecondToLastSkip(cfg: Config, db: Db, j: nat)
    requires HasJob(db, j) && Tally(db.tasks, j).pending > 1 && RecountedCheck(cfg, db, j).launch.None?
    ensures Tally(RecountedCheck(cfg, db, j).db.tasks, j).pending > 0
  {
    var d := Recount(db, j);
    assert RecountedCheck(cfg, db, j) == VmafPart(cfg, d, j, d.jobs[j]);
    if TriesVmaf(cfg, d.jobs[j]) && Pick(d, j, VmafTarget).Some? && d.jobs[j].counts.failed > 0 {
      PickedIsClaimable(d, j, VmafTarget);
      SkippedRows(d, j, Pick(d, j, VmafTarget).value, SKIPPED_VMAF);
    }
  }

  /** A check that neither starts nor skips anything changes no row. */
  lemma QuietCheck(cfg: Config, db: Db, j: nat)
    requires HasJob(db, j) && RecountedCheck(cfg, db, j).launch.None? && Tally(db.tasks, j).pending <= 1
    requires !SkipsLastRow(cfg, db, j)
    ensures RecountedCheck(cfg, db, j).db.tasks == db.tasks
  {
    PickFindsPending(Recount(db, j), j, Concat);
    PickFindsPending(Recount(db, j), j, VmafTarget);
  }

  /** The check starts nothing and leaves nothing pending or running, but not with the status that its
      rows then call for. */
  ghost predicate LeftOpen(cfg: Config, db: Db, j: nat)
    requires HasJob(db, j)
  {
    var o := RecountedCheck(cfg, db, j);
    var n := Tally(o.db.tasks, j);
    o.launch.None? && n.pending == 0 && n.running == 0
    && HasJob(o.db, j) && o.db.jobs[j].status != SettledStatus(n, db.jobs[j].status)
  }

  /** A recounted check that leaves nothing open settles the job, except exactly when it skips the
      last pending row of a job that is not failed yet. */
  lemma ChecksLeftOpen(cfg: Config, db: Db, j: nat)
    requires HasJob(db, j)
    ensures LeftOpen(cfg, db, j) <==> SkipsLastRow(cfg, db, j) && db.jobs[j].status != Failed
  {
    CheckSettlesExactly(cfg, db, j);
    if SkipsLastRow(cfg, db, j) {
      SkippedRowLeavesJobOpen(cfg, db, j);
    } else if RecountedCheck(cfg, db, j).launch.None? {
      if Tally(db.tasks, j).pending > 1 { SecondToLastSkip(cfg, db, j); } else { QuietCheck(cfg, db, j); }
    }
  }

  /** A further check sets it failed. */
  lemma LaterCheckSettlesIt(cfg: Config, db: Db, j: nat)
    requires HasJob(db, j) && SkipsLastRow(cfg, db, j)
    ensures var o := RecountedCheck(cfg, db, j);
            HasJob(o.db, j) && HasJob(RecountedCheck(cfg, o.db, j).db, j)
            && RecountedCheck(cfg, o.db, j).db.jobs[j].status == Failed
  {
    SkippedRowLeavesJobOpen(cfg, db, j);
    CheckSettlesExactly(cfg, RecountedCheck(cfg, db, j).db, j);
  }

  // ----- the merge -----

  /** For an encode job's rows with only the merge row pending, the check starts the merge on that
      row, with every chunk file in order exactly if no row is assigned or cancelled. */
  lemma CheckStartsTheMerge(cfg: Config, db: Db, j: nat, ids: seq<nat>, at: Target)
    requires cfg.concatRunner && HasJob(db, j)
    requires EncodeRows(db.tasks, j, ids, at) && OnlyRows(db.tasks, j, ids) && ReadyToMerge(Tally(db.tasks, j))
    requires forall i :: 0 <= i < |ids| ==> db.tasks[ids[i]].status != Waiting && db.tasks[ids[i]].status != Queued
    requires db.tasks[ids[|ids| - 1]].status == Pending
    ensures var launch := RecountedCheck(cfg, db, j).launch;
            && launch.Some? && launch.value.LaunchConcat? && launch.value.task == ids[|ids| - 1]
            && (launch.value.paths == AllPaths(at, |ids| - 1) <==> NoneAssignedOrCancelled(db.tasks, ids))
  {
    MergeListIsComplete(db.tasks, j, ids, at);
    var d := Recount(db, j);
    assert d.tasks == db.tasks && Pick(d, j, Concat) == Some(ids[|ids| - 1]);
  }

  /** End to end: boundaries that tile frames 0..total-1, all chunks encoded, no row assigned or
      cancelled: the merge the check starts yields frames 0..total-1 in order. */
  lemma StartedMergeYieldsTheSource(cfg: Config, db: Db, j: nat, ids: seq<nat>, at: Target, bs: seq<Boundary>,
                                    total: nat, disk: Disk, order: seq<nat>)
    requires cfg.concatRunner && HasJob(db, j)
    requires EncodeRows(db.tasks, j, ids, at) && OnlyRows(db.tasks, j, ids) && ReadyToMerge(Tally(db.tasks, j))
    requires forall i :: 0 <= i < |ids| ==> db.tasks[ids[i]].status != Waiting && db.tasks[ids[i]].status != Queued
    requires db.tasks[ids[|ids| - 1]].status == Pending && NoneAssignedOrCancelled(db.tasks, ids)
    requires |ids| == |bs| + 1 && TilesFrom(bs, 0, total)
    requires forall k :: 0 <= k < |order| ==> order[k] < |bs|
    requires forall i: nat :: i < |bs| ==> i in order
    ensures var launch, d := RecountedCheck(cfg, db, j).launch, WriteChunks(disk, at, bs, order);
            && launch.Some? && launch.value.LaunchConcat?
            && (forall i :: 0 <= i < |launch.value.paths| ==> launch.value.paths[i] in d)
            && Merge(d, launch.value.paths) == FrameRange(0, total)
  {
    CheckStartsTheMerge(cfg, db, j, ids, at);
    MergeListIsComplete(db.tasks, j, ids, at);
    MergedFileIsTheSource(db.tasks, j, ids, at, bs, total, disk, order);
  }

  // ----- which checks start a runner -----

  predicate Idle(n: Counts) { n.running == 0 && n.failed == 0 }

  lemma SomePending(tasks: seq<Task>, j: nat, kind: Kind)
    requires PendingOfKind(tasks, j, kind)
    ensures CountStatus(tasks, j, Pending) > 0
  {
    CountStatusZero(tasks, j, Pending);
  }

  lemma VmafPartLaunches(cfg: Config, db: Db, j: nat, row: Job)
    ensures VmafPart(cfg, db, j, row).launch.Some? <==>
              TriesVmaf(cfg, row) && row.counts.failed == 0 && PendingOfKind(db.tasks, j, VmafTarget)
  {
    PickFindsPending(db, j, VmafTarget);
  }

  lemma MergeLaunches(cfg: Config, db: Db, j: nat)
    requires HasJob(db, j) && cfg.concatRunner && PendingOfKind(db.tasks, j, Concat)
    requires Tally(db.tasks, j).pending == 1 && Tally(db.tasks, j).running == 0
    ensures RecountedCheck(cfg, db, j).launch.Some? <==> Tally(db.tasks, j).failed == 0
  {
    PickFindsPending(db, j, Concat);
    if Tally(db.tasks, j).failed > 0 { SkippedRowLeavesJobOpen(cfg, db, j); }
  }

  /** A recounted check starts a runner exactly if the job has no running and no failed row and
      either its one pending row is a merge row, or some pending row is a vmaf_target row, and the
      runner for it is wired in. */
  lemma CheckLaunchesExactly(cfg: Config, db: Db, j: nat)
    requires HasJob(db, j)
    ensures var n := Tally(db.tasks, j);
            RecountedCheck(cfg, db, j).launch.Some? <==>
              Idle(n) && ((cfg.concatRunner && n.pending == 1 && PendingOfKind(db.tasks, j, Concat))
                          || (cfg.vmafRunner && PendingOfKind(db.tasks, j, VmafTarget)))
  {
    var d, n := Recount(db, j), Tally(db.tasks, j);
    if cfg.concatRunner && n.pending == 1 && n.running == 0 && PendingOfKind(db.tasks, j, Concat) {
      MergeLaunches(cfg, db, j);
    } else {
      PickFindsPending(d, j, Concat);
      assert RecountedCheck(cfg, db, j) == VmafPart(cfg, d, j, d.jobs[j]);
      VmafPartLaunches(cfg, d, j, d.jobs[j]);
      if PendingOfKind(db.tasks, j, VmafTarget) { SomePending(db.tasks, j, VmafTarget); }
    }
  }

  /** The row a runner is started on belongs to the job, was pending, and is running afterwards;
      every other row is as it was. */
  lemma LaunchedRowIsClaimed(cfg: Config, db: Db, j: nat, u: nat)
    requires HasJob(db, j) && RecountedCheck(cfg, db, j).launch.Some? && u < |db.tasks|
    ensures var o := RecountedCheck(cfg, db, j);
            && RowOf(db.tasks, o.launch.value.task, j) && db.tasks[o.launch.value.task].status == Pending
            && |o.db.tasks| == |db.tasks|
            && o.db.tasks[u] == if u == o.launch.value.task then db.tasks[u].(status := Running) else db.tasks[u]
  {
    var d := Recount(db, j);
    PickedIsClaimable(d, j, Concat);
    PickedIsClaimable(d, j, VmafTarget);
    PickFindsPending(db, j, Concat);
    if SkipsLastRow(cfg, db, j) { SkippedRowLeavesJobOpen(cfg, db, j); }
  }

  // ----- retries -----

  /** The row an automatic retry adds is due within 15 seconds after the documented delay exactly
      for retry counts up to 58. */
  lemma RetryDelay(db: Db, r: Result, now: int, jitter: nat)
    requires GetsRetry(db, r) && jitter <= 15
    ensures var d := Retried(db, r, now, jitter);
            && |d.tasks| == |db.tasks| + 1
            && var row, count := d.tasks[|db.tasks|], db.tasks[r.task].retryCount;
               && row.status == Pending && row.retryCount == count + 1 && row.retryAfter.Some?
               && !ChunkTaken(db, row.job, row.chunk)
               && (now + DocumentedBase(count) <= row.retryAfter.value <= now + DocumentedBase(count) + 15 <==> count <= 58)
  {
    var count := db.tasks[r.task].retryCount;
    BackoffIsDocumentedUpTo58(count, jitter);
    RetryChunkIsFree(db, r.task, count, now, jitter);
    if count > 58 { DocumentedBaseIsLarge(count); }
  }

  lemma DocumentedBaseIsLarge(n: nat)
    requires n > 58
    ensures DocumentedBase(n) == 3600
  {
    Pow2OfSeven(n - (n - 7));
    Pow2Mono(n - (n - 7), n);
  }
}
