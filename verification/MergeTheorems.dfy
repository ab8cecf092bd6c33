/**
 What the merge is given in every run, however calls interleave between the recount, the listing
 and the claim.
 */
module MergeTheorems {
  import opened Basics
  import opened Chunks
  import opened Frames
  import opened JobRows
  import opened Protocol
  import opened ProtocolInvariant
  import opened ProtocolSteps
  import opened ProtocolTheorems

  /** The listing turn that leads to the claim th'. */
  predicate Listed(db: Db, th: Thread, th': Thread) {
    && th.ConcatList? && th'.ConcatClaim? && th.job == th'.job && th.row.counts.failed == 0
    && FirstPending(db.tasks, ListByJob(db.tasks, th.job), Concat) == Some(th'.task)
    && th'.paths == ChunkPaths(db.tasks, ListByJob(db.tasks, th.job))
  }

  /** Only a listing leads to a claim of a merge row, and only a claim to a merge, with its paths. */
  ghost predicate ClaimsByListing(db: Db, th: Thread, turn: Turn) {
    forall k :: Look(k) ==>
      && (turn.next.ConcatClaim? ==> Listed(db, th, turn.next))
      && !turn.next.RunConcat?
      && (turn.spawn.Some? ==> !turn.spawn.value.ConcatClaim?)
      && (turn.spawn.Some? && turn.spawn.value.RunConcat? ==> Claims(th, turn.spawn.value))
  }

  /** The thread th' merges what th is about to claim. */
  predicate Claims(th: Thread, th': Thread) {
    th.ConcatClaim? && th'.RunConcat? && th.job == th'.job && th.task == th'.task && th.paths == th'.paths
  }

  lemma ReportClaims(db: Db, th: Thread, c: Choice)
    requires IsReport(th)
    ensures ClaimsByListing(db, th, ReportTurn(db, th, c))
  {
  }

  lemma ListClaims(cfg: Config, db: Db, h: History, th: Thread)
    requires th.ConcatList?
    ensures ClaimsByListing(db, th, CheckTurn(cfg, db, h, th))
  {
  }

  lemma VmafClaims(cfg: Config, db: Db, h: History, th: Thread)
    requires th.VmafList?
    ensures ClaimsByListing(db, th, CheckTurn(cfg, db, h, th))
  {
  }

  lemma GateClaims(cfg: Config, db: Db, h: History, th: Thread)
    requires th.CheckRead? || th.ConcatSkipCount? || th.VmafSkipCount?
    ensures ClaimsByListing(db, th, CheckTurn(cfg, db, h, th))
  {
  }

  lemma CheckClaims(cfg: Config, db: Db, h: History, th: Thread)
    requires IsCheck(th)
    ensures ClaimsByListing(db, th, CheckTurn(cfg, db, h, th))
  {
    if th.ConcatList? { ListClaims(cfg, db, h, th); }
    else if th.VmafList? { VmafClaims(cfg, db, h, th); }
    else if th.CheckRead? || th.ConcatSkipCount? || th.VmafSkipCount? { GateClaims(cfg, db, h, th); }
  }

  lemma RunnerClaims(db: Db, th: Thread, c: Choice)
    requires IsRunner(th)
    ensures ClaimsByListing(db, th, RunnerTurn(th, c))
  {
  }

  lemma PollClaims(db: Db, th: Thread, c: Choice)
    requires IsPoll(th)
    ensures ClaimsByListing(db, th, PollTurn(db, th, c))
  {
  }

  lemma CreateClaims(db: Db, th: Thread, c: Choice)
    requires IsCreate(th)
    ensures ClaimsByListing(db, th, CreateTurn(db, th, c))
  {
  }

  lemma AdminClaims(db: Db, th: Thread)
    requires IsAdmin(th)
    ensures ClaimsByListing(db, th, AdminTurn(db, th))
  {
  }

  lemma ExpandClaims(db: Db, th: Thread, c: Choice)
    requires IsExpand(th)
    ensures ClaimsByListing(db, th, ExpandTurn(db, th, c))
  {
  }

  lemma AnalysisClaims(db: Db, th: Thread, c: Choice)
    requires IsAnalysis(th)
    ensures ClaimsByListing(db, th, AnalysisTurn(db, th, c))
  {
  }

  lemma TurnClaims(cfg: Config, db: Db, h: History, th: Thread, c: Choice)
    ensures ClaimsByListing(db, th, Next(cfg, db, h, th, c))
  {
    if IsReport(th) { ReportClaims(db, th, c); }
    else if IsCheck(th) { CheckClaims(cfg, db, h, th); }
    else if IsRunner(th) { RunnerClaims(db, th, c); }
    else if IsPoll(th) { PollClaims(db, th, c); }
    else if IsCreate(th) { CreateClaims(db, th, c); }
    else if IsAdmin(th) { AdminClaims(db, th); }
    else if IsExpand(th) { ExpandClaims(db, th, c); }
    else if IsAnalysis(th) { AnalysisClaims(db, th, c); }
  }

  lemma StepToClaim(cfg: Config, s: Sys, l: Label, s': Sys, id: nat)
    requires SysStep(cfg, s, l, s') && id in s'.threads && s'.threads[id].ConcatClaim?
    ensures id in s.threads
    ensures s.threads[id] == s'.threads[id] || Listed(s.db, s.threads[id], s'.threads[id])
  {
    assert Look(0);
    if l.Step? {
      TurnClaims(cfg, s.db, s.h, s.threads[l.id], l.c);
    }
  }

  /** The state in which the paths of a waiting claim were listed. */
  lemma {:induction false} ClaimWasListed(cfg: Config, ss: seq<Sys>, ls: seq<Label>, n: nat, id: nat) returns (x: nat)
    requires IsRun(cfg, ss, ls) && n < |ss| && id in ss[n].threads && ss[n].threads[id].ConcatClaim?
    ensures x < n && id in ss[x].threads && Listed(ss[x].db, ss[x].threads[id], ss[n].threads[id])
    decreases n
  {
    assert n > 0;
    assert SysStep(cfg, ss[n - 1], ls[n - 1], ss[n]);
    StepToClaim(cfg, ss[n - 1], ls[n - 1], ss[n], id);
    if ss[n - 1].threads[id] == ss[n].threads[id] {
      x := ClaimWasListed(cfg, ss, ls, n - 1, id);
    } else {
      x := n - 1;
    }
  }

  /** A listing works with the counters of some recount before it. */
  lemma ListingWasRecounted(cfg: Config, ss: seq<Sys>, ls: seq<Label>, x: nat, id: nat) returns (y: nat)
    requires IsRun(cfg, ss, ls) && x < |ss| && id in ss[x].threads && ss[x].threads[id].ConcatList?
    requires ss[x].threads[id].row.counts.failed == 0
    ensures y < x && ActionOf(ls[y]) == CountTasks(ss[x].threads[id].job)
    ensures |ss[y].h.counted| >= ss[x].threads[id].since
    ensures ReadyToMerge(Tally(ss[y].db.tasks, ss[x].threads[id].job))
  {
    RunInvariant(cfg, ss, ls, x);
    var th := ss[x].threads[id];
    assert ThreadOk(ss[x].db, ss[x].h, th) by { assert Look(0); }
    var m :| th.since <= m < |ss[x].h.counted| && ss[x].h.counted[m].job == th.job
             && th.row.counts == Tally(ss[x].h.counted[m].tasks, th.job);
    y := CountingHappened(cfg, ss, ls, x, m);
  }

  /** Recount y and listing x from which the merge of job j got its row and its paths: at y there was
      one pending row and nothing running or failed. */
  ghost predicate MergeGiven(ss: seq<Sys>, ls: seq<Label>, j: nat, task: nat, paths: seq<string>, y: nat, x: nat)
    requires |ss| == |ls| + 1
  {
    && y < x < |ss| && ActionOf(ls[y]) == CountTasks(j) && ReadyToMerge(Tally(ss[y].db.tasks, j))
    && FirstPending(ss[x].db.tasks, ListByJob(ss[x].db.tasks, j), Concat) == Some(task)
    && paths == ChunkPaths(ss[x].db.tasks, ListByJob(ss[x].db.tasks, j))
  }

  lemma ClaimIsGiven(cfg: Config, ss: seq<Sys>, ls: seq<Label>, n: nat, id: nat) returns (y: nat, x: nat)
    requires IsRun(cfg, ss, ls) && n < |ss| && id in ss[n].threads && ss[n].threads[id].ConcatClaim?
    ensures x < n && MergeGiven(ss, ls, ss[n].threads[id].job, ss[n].threads[id].task, ss[n].threads[id].paths, y, x)
  {
    x := ClaimWasListed(cfg, ss, ls, n, id);
    y := ListingWasRecounted(cfg, ss, ls, x, id);
  }

  lemma StepToMerge(cfg: Config, s: Sys, l: Label, s': Sys, id: nat)
    requires SysStep(cfg, s, l, s') && id in s'.threads && s'.threads[id].RunConcat?
    requires id in s.threads ==> s.threads[id] != s'.threads[id]
    ensures l.Step? && l.id in s.threads && Claims(s.threads[l.id], s'.threads[id])
  {
    assert Look(0);
    if l.Step? {
      TurnClaims(cfg, s.db, s.h, s.threads[l.id], l.c);
    }
  }

  /** In every run, a merge that is about to be claimed or to run has its row and its paths from one
      recount and one later listing. */
  lemma {:induction false} MergeListOfRun(cfg: Config, ss: seq<Sys>, ls: seq<Label>, n: nat, id: nat) returns (y: nat, x: nat)
    requires IsRun(cfg, ss, ls) && n < |ss| && id in ss[n].threads
    requires ss[n].threads[id].ConcatClaim? || ss[n].threads[id].RunConcat?
    ensures x < n && MergeGiven(ss, ls, ss[n].threads[id].job, ss[n].threads[id].task, ss[n].threads[id].paths, y, x)
    decreases n
  {
    var th := ss[n].threads[id];
    if th.ConcatClaim? {
      y, x := ClaimIsGiven(cfg, ss, ls, n, id);
    } else {
      assert n > 0;
      if id in ss[n - 1].threads && ss[n - 1].threads[id] == th {
        y, x := MergeListOfRun(cfg, ss, ls, n - 1, id);
      } else {
        assert SysStep(cfg, ss[n - 1], ls[n - 1], ss[n]);
        StepToMerge(cfg, ss[n - 1], ls[n - 1], ss[n], id);
        y, x := ClaimIsGiven(cfg, ss, ls, n - 1, ls[n - 1].id);
      }
    }
  }

  // ----- when the paths are all chunk files -----

  /** The rows of an encode job and nothing else. */
  ghost predicate MergeShape(tasks: seq<Task>, j: nat, ids: seq<nat>, at: Target) {
    EncodeRows(tasks, j, ids, at) && OnlyRows(tasks, j, ids)
  }

  ghost predicate ChunksDone(tasks: seq<Task>, ids: seq<nat>)
    requires forall i :: 0 <= i < |ids| ==> ids[i] < |tasks|
  {
    forall i :: 0 <= i < |ids| - 1 ==> tasks[ids[i]].status == Completed
  }

  lemma PathsOfShape(tasks: seq<Task>, j: nat, ids: seq<nat>, at: Target)
    requires MergeShape(tasks, j, ids, at)
    ensures ListByJob(tasks, j) == ids
    ensures ChunkPaths(tasks, ids) == AllPaths(at, |ids| - 1) <==> ChunksDone(tasks, ids)
  {
    var n := |ids| - 1;
    ListingIsRows(tasks, j, ids, at);
    PathsOfPrefix(tasks, ids[..n], AllPaths(at, n));
    ConcatIsLast(tasks, ids);
  }

  lemma MergeRowIsLast(tasks: seq<Task>, j: nat, ids: seq<nat>, at: Target, task: nat)
    requires MergeShape(tasks, j, ids, at) && FirstPending(tasks, ids, Concat) == Some(task)
    ensures task == ids[|ids| - 1]
  {
    var i :| 0 <= i < |ids| && ids[i] == task;
  }

  /** Whatever happened before, during and after the listing: the merge works on the merge row, and it
      is given all chunk files in order, each once, exactly if every chunk row was completed when the
      rows were listed. */
  lemma MergePathsAreAll(ss: seq<Sys>, ls: seq<Label>, j: nat, task: nat, paths: seq<string>, y: nat, x: nat, ids: seq<nat>, at: Target)
    requires |ss| == |ls| + 1 && MergeGiven(ss, ls, j, task, paths, y, x) && MergeShape(ss[x].db.tasks, j, ids, at)
    ensures task == ids[|ids| - 1]
    ensures paths == AllPaths(at, |ids| - 1) <==> ChunksDone(ss[x].db.tasks, ids)
  {
    PathsOfShape(ss[x].db.tasks, j, ids, at);
    MergeRowIsLast(ss[x].db.tasks, j, ids, at, task);
  }

  /** Job j has the same rows in both tables. */
  ghost predicate RowsSame(a: seq<Task>, b: seq<Task>, j: nat) {
    forall t: nat :: (RowOf(a, t, j) <==> RowOf(b, t, j)) && (RowOf(a, t, j) ==> a[t] == b[t])
  }

  lemma {:induction false} ClosedWindow(ss: seq<Sys>, j: nat, y: nat, x: nat)
    requires y <= x < |ss| && forall m: nat :: y <= m < x ==> RowsSame(ss[m].db.tasks, ss[m + 1].db.tasks, j)
    ensures RowsSame(ss[y].db.tasks, ss[x].db.tasks, j)
    decreases x
  {
    if y < x {
      ClosedWindow(ss, j, y, x - 1);
      assert RowsSame(ss[x - 1].db.tasks, ss[x].db.tasks, j);
    }
  }

  lemma ShapeBefore(a: seq<Task>, b: seq<Task>, j: nat, ids: seq<nat>, at: Target)
    requires RowsSame(a, b, j) && MergeShape(b, j, ids, at)
    ensures MergeShape(a, j, ids, at) && forall i :: 0 <= i < |ids| ==> a[ids[i]] == b[ids[i]]
  {
    forall i | 0 <= i < |ids| ensures RowOf(a, ids[i], j) && a[ids[i]] == b[ids[i]] {
      assert RowOf(b, ids[i], j);
    }
  }

  /** If no step between the recount and the listing adds, removes or changes a row of the job, the
      rows at the recount decide: the merge is given all chunk files exactly if none of them was
      assigned or cancelled then. */
  lemma MergePathsInWindow(cfg: Config, ss: seq<Sys>, ls: seq<Label>, j: nat, task: nat, paths: seq<string>, y: nat, x: nat,
                           ids: seq<nat>, at: Target)
    requires IsRun(cfg, ss, ls) && MergeGiven(ss, ls, j, task, paths, y, x)
    requires forall m: nat :: y <= m < x ==> RowsSame(ss[m].db.tasks, ss[m + 1].db.tasks, j)
    requires MergeShape(ss[x].db.tasks, j, ids, at)
    ensures MergeShape(ss[y].db.tasks, j, ids, at)
    ensures paths == AllPaths(at, |ids| - 1) <==> NoneAssignedOrCancelled(ss[y].db.tasks, ids)
  {
    ClosedWindow(ss, j, y, x);
    ShapeBefore(ss[y].db.tasks, ss[x].db.tasks, j, ids, at);
    MergePathsAreAll(ss, ls, j, task, paths, y, x, ids, at);
    RunInvariant(cfg, ss, ls, y);
    StatusesAreTaskStatuses(ss[y], ids);
    AllChunksCompleted(ss[y].db.tasks, j, ids, at);
  }

  /** The files listed in one state yield all frames only if every chunk row is completed, unless some
      chunk is empty. */
  lemma FewerFrames(tasks: seq<Task>, j: nat, ids: seq<nat>, at: Target, bs: seq<Boundary>, total: nat, disk: Disk)
    requires MergeShape(tasks, j, ids, at) && |ids| == |bs| + 1 && TilesFrom(bs, 0, total) && HasChunkFiles(disk, at, bs)
    ensures var paths := ChunkPaths(tasks, ids);
            AllIn(disk, paths) && (NoneEmpty(bs) && Merge(disk, paths) == FrameRange(0, total) ==> ChunksDone(tasks, ids))
  {
    MergeOfSome(tasks, j, ids, at, bs, total, disk);
    if RowsDone(tasks, ids[..|bs|]) { AllButLastDone(tasks, ids); }
  }

  /** The frames of the files listed in one state. */
  lemma ListedFrames(tasks: seq<Task>, j: nat, ids: seq<nat>, at: Target, bs: seq<Boundary>, total: nat, disk: Disk, order: seq<nat>)
    requires MergeShape(tasks, j, ids, at) && |ids| == |bs| + 1 && TilesFrom(bs, 0, total)
    requires forall k :: 0 <= k < |order| ==> order[k] < |bs|
    requires forall i: nat :: i < |bs| ==> i in order
    ensures var paths, d := ChunkPaths(tasks, ids), WriteChunks(disk, at, bs, order);
            && AllIn(d, paths)
            && (ChunksDone(tasks, ids) ==> Merge(d, paths) == FrameRange(0, total))
            && (NoneEmpty(bs) && Merge(d, paths) == FrameRange(0, total) ==> ChunksDone(tasks, ids))
  {
    AllWritten(disk, at, bs, order);
    FewerFrames(tasks, j, ids, at, bs, total, WriteChunks(disk, at, bs, order));
    PathsOfShape(tasks, j, ids, at);
    AllPathsAreTheSource(at, bs, total, disk, order);
  }

  lemma AllButLastDone(tasks: seq<Task>, ids: seq<nat>)
    requires ids != [] && forall i :: 0 <= i < |ids| ==> ids[i] < |tasks|
    requires RowsDone(tasks, ids[..|ids| - 1])
    ensures ChunksDone(tasks, ids)
  {
    forall i | 0 <= i < |ids| - 1 ensures tasks[ids[i]].status == Completed { assert ids[..|ids| - 1][i] == ids[i]; }
  }

  /** End to end: once every chunk's file has been written, and the boundaries tile frames 0..total-1,
      the merge that runs in a run yields these frames in order if every chunk row was completed when
      the rows were listed; if no chunk is empty, exactly then. */
  lemma MergeOfRunYieldsTheSource(cfg: Config, ss: seq<Sys>, ls: seq<Label>, n: nat, id: nat, ids: seq<nat>, at: Target,
                                  bs: seq<Boundary>, total: nat, disk: Disk, order: seq<nat>)
    returns (y: nat, x: nat)
    requires IsRun(cfg, ss, ls) && n < |ss| && id in ss[n].threads && ss[n].threads[id].RunConcat?
    requires |ids| == |bs| + 1 && TilesFrom(bs, 0, total)
    requires forall k :: 0 <= k < |order| ==> order[k] < |bs|
    requires forall i: nat :: i < |bs| ==> i in order
    ensures x < n && MergeGiven(ss, ls, ss[n].threads[id].job, ss[n].threads[id].task, ss[n].threads[id].paths, y, x)
    ensures MergeShape(ss[x].db.tasks, ss[n].threads[id].job, ids, at) ==>
              var paths, d := ss[n].threads[id].paths, WriteChunks(disk, at, bs, order);
              && AllIn(d, paths)
              && (ChunksDone(ss[x].db.tasks, ids) ==> Merge(d, paths) == FrameRange(0, total))
              && (NoneEmpty(bs) && Merge(d, paths) == FrameRange(0, total) ==> ChunksDone(ss[x].db.tasks, ids))
  {
    y, x := MergeListOfRun(cfg, ss, ls, n, id);
    var th := ss[n].threads[id];
    if MergeShape(ss[x].db.tasks, th.job, ids, at) {
      PathsOfShape(ss[x].db.tasks, th.job, ids, at);
      ListedFrames(ss[x].db.tasks, th.job, ids, at, bs, total, disk, order);
    }
  }

  lemma StatusesAreTaskStatuses(s: Sys, ids: seq<nat>)
    requires Invariant(s) && forall i :: 0 <= i < |ids| ==> ids[i] < |s.db.tasks|
    ensures forall i :: 0 <= i < |ids| ==> s.db.tasks[ids[i]].status != Waiting && s.db.tasks[ids[i]].status != Queued
  {
    assert Look(0);
    forall i | 0 <= i < |ids| ensures s.db.tasks[ids[i]].status != Waiting && s.db.tasks[ids[i]].status != Queued {
      assert TaskOk(s.db, ids[i]);
    }
  }
}
