/**
 Expanding an encode job into its chunk rows and merge row, with every step able to fail.
 */
module Expansion {
  import opened Chunks
  import opened Frames
  import opened JobRows
  import opened Store
  import opened Protocol
  import opened ProtocolInvariant

  /** Which of the fallible steps succeed: inserting and rendering each chunk, inserting the merge
      row, and generating its scripts. */
  datatype Luck = Luck(create: seq<bool>, render: seq<bool>, merge: bool, scripts: bool)

  datatype Expansion = Skipped | RolledBack | MergeRowFailed | MergeScriptsFailed | Expanded

  function ChunkRow(j: nat, at: Target, i: nat): Task { NewTask(j, i, Encode, ChunkPath(at, i)) }

  /** The tables with the first n chunk rows of the job added. */
  function WithChunks(db: Db, j: nat, at: Target, n: nat): Db {
    if n == 0 then db else InsertTask(WithChunks(db, j, at, n - 1), ChunkRow(j, at, n - 1))
  }

  function WithMerge(db: Db, j: nat, at: Target, n: nat): Db {
    InsertTask(WithChunks(db, j, at, n), NewTask(j, n, Concat, FinalPath(at)))
  }

  lemma {:induction false} WithChunksRows(db: Db, j: nat, at: Target, n: nat)
    ensures var d := WithChunks(db, j, at, n);
            && d.jobs == db.jobs && |d.tasks| == |db.tasks| + n
            && (forall t :: 0 <= t < |db.tasks| ==> d.tasks[t] == db.tasks[t])
            && (forall t :: |db.tasks| <= t < |d.tasks| ==> d.tasks[t] == ChunkRow(j, at, t - |db.tasks|))
  {
    if n > 0 { WithChunksRows(db, j, at, n - 1); }
  }

  lemma TakenByOldRow(db: Db, j: nat, at: Target, n: nat, c: nat)
    requires n <= c
    ensures ChunkTaken(WithChunks(db, j, at, n), j, c) == ChunkTaken(db, j, c)
  {
    var d := WithChunks(db, j, at, n);
    WithChunksRows(db, j, at, n);
    forall t: nat ensures RowOf(d.tasks, t, j) && d.tasks[t].chunk == c <==> RowOf(db.tasks, t, j) && db.tasks[t].chunk == c {
    }
  }

  /** Chunk i cannot be added. */
  predicate ChunkFails(db: Db, j: nat, luck: Luck, i: nat)
    requires i < |luck.create| == |luck.render|
  {
    !luck.create[i] || !luck.render[i] || ChunkTaken(db, j, i)
  }

  ghost predicate SomeChunkFails(db: Db, j: nat, luck: Luck, n: nat)
    requires n <= |luck.create| == |luck.render|
  {
    exists i: nat :: i < n && ChunkFails(db, j, luck, i)
  }

  /** The merge row cannot be added. */
  predicate MergeFails(db: Db, j: nat, luck: Luck, n: nat) { !luck.merge || ChunkTaken(db, j, n) }

  /** What the expansion of job j comes to. */
  ghost function OutcomeOf(db: Db, j: nat, luck: Luck, n: nat, concatRunner: bool): Expansion
    requires n == |luck.create| == |luck.render|
  {
    if n == 0 then Skipped
    else if SomeChunkFails(db, j, luck, n) then RolledBack
    else if MergeFails(db, j, luck, n) then MergeRowFailed
    else if !concatRunner && !luck.scripts then MergeScriptsFailed
    else Expanded
  }

  /** The tables it leaves; `made` chunk rows were added before a rollback. */
  function Left(out: Expansion, db: Db, j: nat, at: Target, n: nat, made: nat): Db {
    match out
    case Skipped => db
    case RolledBack => SetJobStatus(DeleteTasks(WithChunks(db, j, at, made), j), j, Failed)
    case MergeRowFailed => SetJobStatus(WithChunks(db, j, at, n), j, Failed)
    case MergeScriptsFailed => SetJobStatus(WithMerge(db, j, at, n), j, Failed)
    case Expanded => SetJobStatus(Recount(WithMerge(db, j, at, n), j), j, Queued)
  }

  /** An expansion succeeds exactly if there is a boundary, no chunk index up to that of the merge row is
      taken, no insert and no chunk script fails, and the scripts of the merge are rendered or a runner
      needs none.  The job is then queued; without a boundary it is left alone; otherwise it is failed. */
  lemma ExpandsExactly(db: Db, j: nat, luck: Luck, at: Target, n: nat, concatRunner: bool, made: nat)
    requires n == |luck.create| == |luck.render| && HasJob(db, j)
    ensures var out := OutcomeOf(db, j, luck, n, concatRunner);
            && (out.Expanded? <==>
                  n > 0 && luck.merge && (concatRunner || luck.scripts) && false !in luck.create && false !in luck.render
                  && forall i: nat :: i <= n ==> !ChunkTaken(db, j, i))
            && (out.Skipped? <==> n == 0)
            && HasJob(Left(out, db, j, at, n, made), j)
            && Left(out, db, j, at, n, made).jobs[j].status
               == if n == 0 then db.jobs[j].status else if out.Expanded? then Queued else Failed
  {
    NothingFails(db, j, luck, n);
    WithChunksRows(db, j, at, n);
    WithChunksRows(db, j, at, made);
  }

  lemma NothingFails(db: Db, j: nat, luck: Luck, n: nat)
    requires n == |luck.create| == |luck.render|
    ensures !SomeChunkFails(db, j, luck, n) && !MergeFails(db, j, luck, n)
       <==> luck.merge && false !in luck.create && false !in luck.render && forall i: nat :: i <= n ==> !ChunkTaken(db, j, i)
  {
    if !SomeChunkFails(db, j, luck, n) {
      forall i: nat | i < n ensures luck.create[i] && luck.render[i] && !ChunkTaken(db, j, i) {
        assert !ChunkFails(db, j, luck, i);
      }
    } else {
      var i: nat :| i < n && ChunkFails(db, j, luck, i);
      assert luck.create[i] in luck.create && luck.render[i] in luck.render;
    }
  }

  /** The chunk rows, added up to the first that fails. */
  method AddChunks(store: JobStore, j: nat, bs: seq<Boundary>, at: Target, luck: Luck) returns (ok: bool, ghost made: nat)
    requires |luck.create| == |luck.render| == |bs|
    modifies store
    ensures made <= |bs| && store.Now() == WithChunks(old(store.Now()), j, at, made)
    ensures ok <==> !SomeChunkFails(old(store.Now()), j, luck, |bs|)
    ensures ok ==> made == |bs|
  {
    made := 0;
    ghost var db := store.Now();
    for i := 0 to |bs|
      invariant made == i && store.Now() == WithChunks(db, j, at, i)
      invariant forall k: nat :: k < i ==> !ChunkFails(db, j, luck, k)
    {
      TakenByOldRow(db, j, at, i, i);
      var created := store.CreateTask(j, i, Encode, ChunkPath(at, i), luck.create[i]);
      made := if created then i + 1 else i;
      if !created || !luck.render[i] {
        assert ChunkFails(db, j, luck, i);
        return false, made;
      }
    }
    ok := true;
  }

  /** expandEncodeJob, for the boundaries it has settled on. */
  method ExpandEncodeJob(store: JobStore, concatRunner: bool, j: nat, bs: seq<Boundary>, at: Target, luck: Luck)
    returns (out: Expansion, ghost made: nat)
    requires |luck.create| == |luck.render| == |bs|
    modifies store
    ensures out == OutcomeOf(old(store.Now()), j, luck, |bs|, concatRunner)
    ensures made <= |bs| && store.Now() == Left(out, old(store.Now()), j, at, |bs|, made)
  {
    made := 0;
    if |bs| == 0 { return Skipped, 0; }
    var ok;
    ok, made := AddChunks(store, j, bs, at, luck);
    if !ok {
      store.DeleteTasksByJobID(j);
      var found := store.UpdateJobStatus(j, Failed);
      return RolledBack, made;
    }
    TakenByOldRow(old(store.Now()), j, at, |bs|, |bs|);
    var created := store.CreateTask(j, |bs|, Concat, FinalPath(at), luck.merge);
    if !created {
      var found := store.UpdateJobStatus(j, Failed);
      return MergeRowFailed, made;
    }
    if !concatRunner && !luck.scripts {
      var found := store.UpdateJobStatus(j, Failed);
      return MergeScriptsFailed, made;
    }
    store.UpdateJobTaskCounts(j);
    var found := store.UpdateJobStatus(j, Queued);
    return Expanded, made;
  }

  // ----- what the outcomes leave behind -----

  /** A rollback leaves no row of the job and touches no other job's rows. */
  lemma RollbackLeavesNothing(db: Db, j: nat, at: Target, k: nat)
    ensures var d := SetJobStatus(DeleteTasks(WithChunks(db, j, at, k), j), j, Failed);
            && (forall t: nat :: !RowOf(d.tasks, t, j))
            && |db.tasks| <= |d.tasks|
            && (forall t :: 0 <= t < |db.tasks| && db.tasks[t].job != j ==> d.tasks[t] == db.tasks[t])
  {
    var d := WithChunks(db, j, at, k);
    WithChunksRows(db, j, at, k);
  }

  ghost predicate HasRow(db: Db, j: nat) { exists t: nat :: RowOf(db.tasks, t, j) }

  lemma ChunkRowsStay(db: Db, j: nat, at: Target, n: nat)
    requires n > 0
    ensures RowOf(WithChunks(db, j, at, n).tasks, |db.tasks|, j) && RowOf(WithMerge(db, j, at, n).tasks, |db.tasks|, j)
  {
    WithChunksRows(db, j, at, n);
    assert WithChunks(db, j, at, n).tasks[|db.tasks|] == ChunkRow(j, at, 0);
  }

  /** An expansion that fails the job leaves rows behind exactly if all chunk rows were added and then
      the merge row or its scripts failed: the only failures that are not rolled back. */
  lemma FailedExpansionLeavesRows(db: Db, j: nat, at: Target, luck: Luck, concatRunner: bool, made: nat)
    requires HasJob(db, j) && |luck.create| == |luck.render| > 0 && made <= |luck.create|
    ensures var n := |luck.create|;
            var d := Left(OutcomeOf(db, j, luck, n, concatRunner), db, j, at, n, made);
            && HasJob(d, j)
            && (OutcomeOf(db, j, luck, n, concatRunner).Expanded? <==> d.jobs[j].status == Queued)
            && (!OutcomeOf(db, j, luck, n, concatRunner).Expanded? <==> d.jobs[j].status == Failed)
            && (d.jobs[j].status == Failed && HasRow(d, j) <==>
                  !SomeChunkFails(db, j, luck, n) && (MergeFails(db, j, luck, n) || (!concatRunner && !luck.scripts)))
  {
    var n := |luck.create|;
    WithChunksRows(db, j, at, n);
    WithChunksRows(db, j, at, made);
    ChunkRowsStay(db, j, at, n);
    RollbackLeavesNothing(db, j, at, made);
  }

  /** Then all chunk rows are pending, and so is the merge row if only its scripts failed. */
  lemma FailedMergeRowLeavesChunks(db: Db, j: nat, at: Target, n: nat, i: nat)
    requires HasJob(db, j) && i <= n
    ensures var c, m := SetJobStatus(WithChunks(db, j, at, n), j, Failed), SetJobStatus(WithMerge(db, j, at, n), j, Failed);
            && |c.tasks| == |db.tasks| + n && |m.tasks| == |db.tasks| + n + 1
            && (i < n ==> RowOf(c.tasks, |db.tasks| + i, j) && c.tasks[|db.tasks| + i].status == Pending)
            && RowOf(m.tasks, |db.tasks| + i, j) && m.tasks[|db.tasks| + i].status == Pending
  {
    WithChunksRows(db, j, at, n);
  }

  function RowIds(db: Db, n: nat): (ids: seq<nat>)
    ensures |ids| == n + 1 && forall i :: 0 <= i <= n ==> ids[i] == |db.tasks| + i
  {
    seq(n + 1, i requires 0 <= i < n + 1 => |db.tasks| + i)
  }

  /** Row i of the job, chunk rows first and the merge row last. */
  function MergeRow(j: nat, at: Target, n: nat, i: nat): Task {
    if i == n then NewTask(j, n, Concat, FinalPath(at)) else ChunkRow(j, at, i)
  }

  lemma MergeRowAt(db: Db, j: nat, at: Target, n: nat, i: nat)
    requires i <= n
    ensures var d := WithMerge(db, j, at, n);
            |d.tasks| == |db.tasks| + n + 1 && d.tasks[|db.tasks| + i] == MergeRow(j, at, n, i)
  {
    WithChunksRows(db, j, at, n);
  }

  lemma RowsAreEncode(tasks: seq<Task>, j: nat, ids: seq<nat>, at: Target)
    requires ids != []
    requires forall i :: 0 <= i < |ids| ==> ids[i] < |tasks| && tasks[ids[i]] == MergeRow(j, at, |ids| - 1, i)
    ensures EncodeRows(tasks, j, ids, at)
  {
  }

  lemma MergeRowsAre(db: Db, j: nat, at: Target, n: nat)
    ensures var d, ids := WithMerge(db, j, at, n), RowIds(db, n);
            EncodeRows(d.tasks, j, ids, at) && forall i :: 0 <= i <= n ==> d.tasks[ids[i]].status == Pending
  {
    var d, ids := WithMerge(db, j, at, n), RowIds(db, n);
    forall i | 0 <= i <= n ensures ids[i] < |d.tasks| && d.tasks[ids[i]] == MergeRow(j, at, n, i) {
      MergeRowAt(db, j, at, n, i);
    }
    RowsAreEncode(d.tasks, j, ids, at);
  }

  lemma OnlyMergeRows(db: Db, j: nat, at: Target, n: nat)
    requires forall t: nat :: !RowOf(db.tasks, t, j)
    ensures OnlyRows(WithMerge(db, j, at, n).tasks, j, RowIds(db, n))
  {
    var d, ids := WithMerge(db, j, at, n), RowIds(db, n);
    WithChunksRows(db, j, at, n);
    forall t: nat | RowOf(d.tasks, t, j) ensures t in ids {
      assert t < |db.tasks| ==> RowOf(db.tasks, t, j);
      assert ids[t - |db.tasks|] == t;
    }
  }

  /** A job without rows is expanded into exactly one row per boundary and the merge row, all
      pending: the shape on which the merge theorems rest. */
  lemma ExpandedRows(db: Db, j: nat, at: Target, n: nat)
    requires HasJob(db, j) && forall t: nat :: !RowOf(db.tasks, t, j)
    ensures var d, ids := SetJobStatus(Recount(WithMerge(db, j, at, n), j), j, Queued), RowIds(db, n);
            && EncodeRows(d.tasks, j, ids, at) && OnlyRows(d.tasks, j, ids)
            && (forall i :: 0 <= i <= n ==> d.tasks[ids[i]].status == Pending)
            && HasJob(d, j) && d.jobs[j].status == Queued
  {
    MergeRowsAre(db, j, at, n);
    OnlyMergeRows(db, j, at, n);
    WithChunksRows(db, j, at, n);
  }

  /** Whatever happens to the tables afterwards, the rows keep that shape while they are not deleted
      and no row is added to the job. */
  lemma EncodeRowsStay(db: Db, h: History, db': Db, h': History, j: nat, ids: seq<nat>, at: Target)
    requires EncodeRows(db.tasks, j, ids, at) && Grows(db, h, db', h')
    requires forall i :: 0 <= i < |ids| ==> ids[i] < |db'.tasks| && db'.tasks[ids[i]].live
    ensures EncodeRows(db'.tasks, j, ids, at)
  {
    forall i | 0 <= i < |ids|
      ensures RowOf(db'.tasks, ids[i], j) && SameTask(db.tasks[ids[i]], db'.tasks[ids[i]])
    {
      assert RowOf(db.tasks, ids[i], j);
    }
  }
}
