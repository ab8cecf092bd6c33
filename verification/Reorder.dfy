/**
 Reordering the queue: the priorities handleReorderJobs gives, and the order in which agents then
 drain the pending rows.
 */
module Reorder {
  import opened Basics
  import opened JobRows
  import opened Store

  /** The first of n listed jobs gets n, the last gets 1, and nobody more than 100. */
  function PriorityAt(n: nat, i: nat): int
    requires i < n
  {
    if n - i > 100 then 100 else n - i
  }

  /** The tables after the first `done` ids of the list have been handled. */
  function Reordered(db: Db, ids: seq<nat>, done: nat): Db
    requires done <= |ids|
  {
    if done == 0 then db
    else SetPriority(Reordered(db, ids, done - 1), ids[done - 1], PriorityAt(|ids|, done - 1))
  }

  /** handleReorderJobs: an empty list is refused, unknown ids are skipped. */
  method ReorderJobs(store: JobStore, ids: seq<nat>) returns (ok: bool)
    modifies store
    ensures ok == (ids != [])
    ensures store.Now() == Reordered(old(store.Now()), ids, |ids|)
  {
    if |ids| == 0 { return false; }
    var total := |ids|;
    for i := 0 to total
      invariant store.Now() == Reordered(old(store.Now()), ids, i)
    {
      var priority := total - i;
      if priority > 100 { priority := 100; }
      var found := store.UpdateJobPriority(ids[i], priority);
    }
    return true;
  }

  lemma {:induction false} ReorderedFrame(db: Db, ids: seq<nat>, done: nat)
    requires done <= |ids|
    ensures var d := Reordered(db, ids, done);
            d.tasks == db.tasks && |d.jobs| == |db.jobs|
            && forall j :: 0 <= j < |db.jobs| ==> d.jobs[j] == db.jobs[j].(priority := d.jobs[j].priority)
  {
    if done > 0 { ReorderedFrame(db, ids, done - 1); }
  }

  lemma {:induction false} ReorderedPriority(db: Db, ids: seq<nat>, done: nat, k: nat)
    requires Distinct(ids) && k < done <= |ids| && HasJob(db, ids[k])
    ensures var d := Reordered(db, ids, done); HasJob(d, ids[k]) && d.jobs[ids[k]].priority == PriorityAt(|ids|, k)
  {
    ReorderedFrame(db, ids, done - 1);
    if k < done - 1 { ReorderedPriority(db, ids, done - 1, k); }
  }

  lemma SameEligible(db: Db, ids: seq<nat>, t: nat, tags: set<string>, now: int)
    ensures Eligible(Reordered(db, ids, |ids|), t, tags, now) <==> Eligible(db, t, tags, now)
  {
    ReorderedFrame(db, ids, |ids|);
  }

  // ----- draining the queue -----

  /** Claims made one after the other, by the agents `who`, until nothing is left to claim. */
  ghost predicate IsDrain(db: Db, ts: seq<nat>, who: seq<nat>, tags: set<string>, now: int)
    requires |who| == |ts|
    decreases |ts|
  {
    if ts == [] then forall t: nat :: !Eligible(db, t, tags, now)
    else NextClaim(db, ts[0], tags, now) && IsDrain(AssignTask(db, ts[0], who[0]), ts[1..], who[1..], tags, now)
  }

  lemma AssignLeavesOthers(db: Db, t: nat, agent: nat, tags: set<string>, now: int)
    requires t < |db.tasks|
    ensures var d := AssignTask(db, t, agent);
            && d.jobs == db.jobs && |d.tasks| == |db.tasks|
            && (forall u :: 0 <= u < |db.tasks| ==> d.tasks[u].job == db.tasks[u].job && d.tasks[u].chunk == db.tasks[u].chunk)
            && (forall u: nat :: Eligible(d, u, tags, now) <==> Eligible(db, u, tags, now) && u != t)
  {
  }

  /** Whatever the priorities: a drain claims exactly the eligible rows, each once, and never a row
      after one that goes behind it. */
  lemma {:induction false} DrainInClaimOrder(db: Db, ts: seq<nat>, who: seq<nat>, tags: set<string>, now: int)
    requires |who| == |ts| && IsDrain(db, ts, who, tags, now)
    ensures forall t: nat :: t in ts <==> Eligible(db, t, tags, now)
    ensures Distinct(ts)
    ensures forall a, b :: 0 <= a < b < |ts| ==>
              Eligible(db, ts[a], tags, now) && Eligible(db, ts[b], tags, now) && !ClaimedBefore(db, ts[b], ts[a])
    decreases |ts|
  {
    if ts != [] {
      var d := AssignTask(db, ts[0], who[0]);
      AssignLeavesOthers(db, ts[0], who[0], tags, now);
      DrainInClaimOrder(d, ts[1..], who[1..], tags, now);
      forall t: nat ensures t in ts <==> Eligible(db, t, tags, now) {
        assert t in ts <==> t == ts[0] || t in ts[1..];
      }
      forall a, b | 0 <= a < b < |ts|
        ensures ts[a] != ts[b] && Eligible(db, ts[a], tags, now) && Eligible(db, ts[b], tags, now)
        ensures !ClaimedBefore(db, ts[b], ts[a])
      {
        assert ts[b] == ts[1..][b - 1] && ts[b] in ts[1..] && ts[a] in ts && ts[b] in ts;
        if a > 0 { assert ts[a] == ts[1..][a - 1]; }
      }
    }
  }

  /** Of two jobs at positions i and k, rows of the first are claimed before rows of the second. */
  predicate GoesFirst(ids: seq<nat>, i: nat, k: nat)
    requires i < |ids| && k < |ids|
  {
    var p, q := PriorityAt(|ids|, i), PriorityAt(|ids|, k);
    p > q || (p == q && ids[i] < ids[k])
  }

  lemma OrderOfTwo(db: Db, ids: seq<nat>, t: nat, u: nat, i: nat, k: nat)
    requires Distinct(ids) && i < |ids| && k < |ids| && t < |db.tasks| && u < |db.tasks|
    requires db.tasks[t].job == ids[i] && db.tasks[u].job == ids[k] && HasJob(db, ids[i]) && HasJob(db, ids[k])
    requires var d := Reordered(db, ids, |ids|);
             d.tasks == db.tasks && |d.jobs| == |db.jobs| && !ClaimedBefore(d, u, t)
    ensures i == k ==> db.tasks[t].chunk <= db.tasks[u].chunk
    ensures i != k ==> GoesFirst(ids, i, k)
  {
    ReorderedPriority(db, ids, |ids|, i);
    ReorderedPriority(db, ids, |ids|, k);
  }

  /** After a reordering that lists every job with an eligible row, agents drain exactly the
      eligible rows: job by job in the order GoesFirst, and within a job by ascending chunk. */
  lemma ReorderedDrain(db: Db, ids: seq<nat>, ts: seq<nat>, who: seq<nat>, tags: set<string>, now: int)
    requires Distinct(ids) && UniqueChunks(db)
    requires forall t: nat :: Eligible(db, t, tags, now) ==> db.tasks[t].job in ids
    requires |who| == |ts| && IsDrain(Reordered(db, ids, |ids|), ts, who, tags, now)
    ensures forall t: nat :: t in ts <==> Eligible(db, t, tags, now)
    ensures Distinct(ts)
    ensures forall a, b :: 0 <= a < b < |ts| ==> InOrder(db, ids, ts[a], ts[b])
  {
    var d := Reordered(db, ids, |ids|);
    ReorderedFrame(db, ids, |ids|);
    DrainInClaimOrder(d, ts, who, tags, now);
    forall t: nat ensures Eligible(d, t, tags, now) <==> Eligible(db, t, tags, now) { SameEligible(db, ids, t, tags, now); }
    forall a, b | 0 <= a < b < |ts| ensures InOrder(db, ids, ts[a], ts[b]) {
      var t, u := ts[a], ts[b];
      assert Eligible(db, t, tags, now) && Eligible(db, u, tags, now);
      var i :| 0 <= i < |ids| && ids[i] == db.tasks[t].job;
      var k :| 0 <= k < |ids| && ids[k] == db.tasks[u].job;
      OrderOfTwo(db, ids, t, u, i, k);
      assert RowsInOrder(db, ids, t, u, i, k);
    }
  }

  ghost predicate InOrder(db: Db, ids: seq<nat>, t: nat, u: nat) {
    exists i: nat, k: nat :: RowsInOrder(db, ids, t, u, i, k)
  }

  predicate RowsInOrder(db: Db, ids: seq<nat>, t: nat, u: nat, i: nat, k: nat) {
    && i < |ids| && k < |ids| && t < |db.tasks| && u < |db.tasks|
    && db.tasks[t].job == ids[i] && db.tasks[u].job == ids[k]
    && if i == k then db.tasks[t].chunk < db.tasks[u].chunk else GoesFirst(ids, i, k)
  }

  /** That order is the list's own exactly if the jobs that share the top priority, which are the
      first |ids| - 99 of a list longer than 100, are listed in creation order. */
  lemma ListOrderKeptExactly(ids: seq<nat>)
    requires Distinct(ids)
    ensures (forall i, k :: 0 <= i < k < |ids| ==> GoesFirst(ids, i, k)) <==>
            (forall i, k :: 0 <= i < k <= |ids| - 100 ==> ids[i] < ids[k])
  {
    forall i, k | 0 <= i < k < |ids| ensures GoesFirst(ids, i, k) <==> (k > |ids| - 100 || ids[i] < ids[k]) {
    }
    if forall i, k :: 0 <= i < k < |ids| ==> GoesFirst(ids, i, k) {
      forall i, k | 0 <= i < k <= |ids| - 100 ensures ids[i] < ids[k] { assert GoesFirst(ids, i, k); }
    }
  }

  /** On at most 100 ids the list order is always kept. */
  lemma ShortListsKeepOrder(ids: seq<nat>)
    requires Distinct(ids) && |ids| <= 100
    ensures forall i, k :: 0 <= i < |ids| && 0 <= k < |ids| && i != k ==> (GoesFirst(ids, i, k) <==> i < k)
  {
  }
}
