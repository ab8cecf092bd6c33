/**
 What holds in every run of the job protocol, however its calls interleave and die.
 */
module ProtocolTheorems {
  import opened Basics
  import opened JobRows
  import opened Protocol
  import opened ProtocolInvariant
  import opened ProtocolSteps

  lemma {:induction false} RunGrows(cfg: Config, ss: seq<Sys>, ls: seq<Label>, m: nat, n: nat)
    requires IsRun(cfg, ss, ls) && m <= n < |ss|
    ensures Grows(ss[m].db, ss[m].h, ss[n].db, ss[n].h)
    decreases n
  {
    if m < n {
      RunGrows(cfg, ss, ls, m, n - 1);
      StepOf(cfg, ss, ls, n - 1);
      ActionGrows(ss[n - 1].db, ss[n - 1].h, ActionOf(ls[n - 1]));
      GrowsTransitive(ss[m], ss[n - 1], ss[n]);
    }
  }

  lemma GrowsTransitive(a: Sys, b: Sys, c: Sys)
    requires Grows(a.db, a.h, b.db, b.h) && Grows(b.db, b.h, c.db, c.h)
    ensures Grows(a.db, a.h, c.db, c.h)
  {
    forall j | 0 <= j < |a.db.jobs| ensures SameJob(a.db.jobs[j], c.db.jobs[j]) {
      assert SameJob(a.db.jobs[j], b.db.jobs[j]) && SameJob(b.db.jobs[j], c.db.jobs[j]);
    }
    forall t | 0 <= t < |a.db.tasks| ensures SameTask(a.db.tasks[t], c.db.tasks[t]) {
      assert SameTask(a.db.tasks[t], b.db.tasks[t]) && SameTask(b.db.tasks[t], c.db.tasks[t]);
    }
  }

  // ----- job chains -----

  /** The job has left its waiting state other than by cancellation, or has a task row. */
  ghost predicate IsReleased(db: Db, j: nat) {
    HasJob(db, j) && (!Holds(db.jobs[j].status) || exists t: nat :: RowOf(db.tasks, t, j))
  }

  ghost predicate IsCompleted(db: Db, j: nat) {
    HasJob(db, j) && db.jobs[j].status == Completed
  }

  lemma {:induction false} CompletionHappened(cfg: Config, ss: seq<Sys>, ls: seq<Label>, n: nat, p: nat) returns (m: nat)
    requires IsRun(cfg, ss, ls) && n < |ss| && p in ss[n].h.completed
    ensures m <= n && IsCompleted(ss[m].db, p)
    decreases n
  {
    assert n > 0;
    if p in ss[n - 1].h.completed {
      m := CompletionHappened(cfg, ss, ls, n - 1, p);
    } else {
      StepOf(cfg, ss, ls, n - 1);
      m := n;
    }
  }

  /** A job whose predecessor's status was read at creation is released only after the
      predecessor has been completed. */
  lemma ReleaseWaitsForPredecessor(cfg: Config, ss: seq<Sys>, ls: seq<Label>, n: nat, j: nat) returns (m: nat)
    requires IsRun(cfg, ss, ls) && n < |ss|
    requires IsReleased(ss[n].db, j) && ss[n].db.jobs[j].sawDependency
    ensures ss[n].db.jobs[j].dependsOn.Some?
    ensures m <= n && IsCompleted(ss[m].db, ss[n].db.jobs[j].dependsOn.value)
  {
    RunInvariant(cfg, ss, ls, n);
    assert Look(0);
    assert JobOk(ss[n].db.jobs[j], j, ss[n].h);
    m := CompletionHappened(cfg, ss, ls, n, ss[n].db.jobs[j].dependsOn.value);
  }

  ghost predicate IsChain(db: Db, chain: seq<nat>) {
    && (forall i :: 0 <= i < |chain| ==> HasJob(db, chain[i]))
    && (forall i, k :: 0 <= i < |chain| && 0 <= k < |chain| && k == i + 1 ==>
          db.jobs[chain[k]].dependsOn == Some(chain[i]) && db.jobs[chain[k]].sawDependency)
  }

  /** The released jobs of a chain form a prefix: when one is released, every job before it was
      completed by then. */
  lemma {:induction false} ChainReleasesInOrder(cfg: Config, ss: seq<Sys>, ls: seq<Label>, n: nat, m: nat,
                                                chain: seq<nat>, k: nat, i: nat)
    returns (x: nat)
    requires IsRun(cfg, ss, ls) && m <= n < |ss|
    requires IsChain(ss[n].db, chain) && i < k < |chain|
    requires IsReleased(ss[m].db, chain[k])
    ensures x <= m && IsCompleted(ss[x].db, chain[i]) && IsReleased(ss[x].db, chain[i])
    decreases k
  {
    RunGrows(cfg, ss, ls, m, n);
    assert SameJob(ss[m].db.jobs[chain[k]], ss[n].db.jobs[chain[k]]);
    var p := chain[k - 1];
    assert ss[n].db.jobs[chain[k]].dependsOn == Some(p) && ss[n].db.jobs[chain[k]].sawDependency;
    x := ReleaseWaitsForPredecessor(cfg, ss, ls, m, chain[k]);
    if i < k - 1 {
      x := ChainReleasesInOrder(cfg, ss, ls, n, x, chain, k - 1, i);
    }
  }

  // ----- hand-outs and claims -----

  /** The action takes pending row t, for an agent or for a controller-side runner. */
  predicate TakesRow(db: Db, a: Action, t: nat) {
    (a.Assign? && a.task == t) || (a.Claim? && a.task == t && Claimable(db, t))
  }

  /** The action puts row t back to pending: a preempt, a reset or a manual job retry. */
  predicate RequeuesRow(db: Db, a: Action, t: nat) {
    (a.Requeue? && a.task == t) || (a.RetryRows? && RowOf(db.tasks, t, a.job) && db.tasks[t].status == Failed)
  }

  lemma NotClaimableStays(db: Db, a: Action, t: nat)
    requires t < |db.tasks| && !Claimable(db, t) && !RequeuesRow(db, a, t)
    ensures t < |Apply(db, a).tasks| && !Claimable(Apply(db, a), t)
  {
  }

  lemma {:induction false} TakenStaysTaken(cfg: Config, ss: seq<Sys>, ls: seq<Label>, i: nat, k: nat, t: nat)
    requires IsRun(cfg, ss, ls) && i <= k < |ss|
    requires t < |ss[i].db.tasks| && !Claimable(ss[i].db, t)
    requires forall m :: i <= m < k ==> !RequeuesRow(ss[m].db, ActionOf(ls[m]), t)
    ensures t < |ss[k].db.tasks| && !Claimable(ss[k].db, t)
    decreases k
  {
    if i < k {
      TakenStaysTaken(cfg, ss, ls, i, k - 1, t);
      StepOf(cfg, ss, ls, k - 1);
      NotClaimableStays(ss[k - 1].db, ActionOf(ls[k - 1]), t);
    }
  }

  /** Between two takings of one row there is a preempt, a reset or a manual job retry of it. */
  lemma TakenTwiceOnlyAfterRequeue(cfg: Config, ss: seq<Sys>, ls: seq<Label>, i: nat, k: nat, t: nat) returns (m: nat)
    requires IsRun(cfg, ss, ls) && i < k < |ls|
    requires TakesRow(ss[i].db, ActionOf(ls[i]), t) && TakesRow(ss[k].db, ActionOf(ls[k]), t)
    ensures i < m < k && RequeuesRow(ss[m].db, ActionOf(ls[m]), t)
  {
    StepOf(cfg, ss, ls, i);
    StepOf(cfg, ss, ls, k);
    if forall x :: i + 1 <= x < k ==> !RequeuesRow(ss[x].db, ActionOf(ls[x]), t) {
      TakenStaysTaken(cfg, ss, ls, i + 1, k, t);
      assert false;
    }
    m :| i + 1 <= m < k && RequeuesRow(ss[m].db, ActionOf(ls[m]), t);
  }

  /** Agents only ever receive pending rows that are not concat rows. */
  lemma ConcatRowsStayOnController(cfg: Config, ss: seq<Sys>, ls: seq<Label>, i: nat, t: nat)
    requires IsRun(cfg, ss, ls) && i < |ls|
    requires ActionOf(ls[i]).Assign? && ActionOf(ls[i]).task == t
    ensures Claimable(ss[i].db, t) && ss[i].db.tasks[t].kind != Concat
    ensures t in ss[i + 1].h.handed
  {
    StepOf(cfg, ss, ls, i);
  }

  /** No job is ever `assigned`, so a poll never changes a job's status. */
  lemma PollsLeaveJobsAlone(cfg: Config, ss: seq<Sys>, ls: seq<Label>, i: nat)
    requires IsRun(cfg, ss, ls) && i < |ls| && ls[i].Step? && ls[i].id in ss[i].threads
    requires IsPoll(ss[i].threads[ls[i].id])
    ensures forall j :: 0 <= j < |ss[i].db.jobs| ==> ss[i].db.jobs[j].status != Assigned
    ensures !ls[i].action.SetStatus?
  {
    RunInvariant(cfg, ss, ls, i);
    assert SysStep(cfg, ss[i], ls[i], ss[i + 1]);
    assert Look(0);
    assert ThreadOk(ss[i].db, ss[i].h, ss[i].threads[ls[i].id]);
    forall j: nat | j < |ss[i].db.jobs| ensures ss[i].db.jobs[j].status != Assigned { assert JobOk(ss[i].db.jobs[j], j, ss[i].h); }
  }

  // ----- runner goroutines -----

  predicate IsStart(th: Thread) { th.RunConcat? || th.RunVmaf? }

  /** A goroutine that has not started its runner yet holds a claim number nobody else holds. */
  ghost predicate SerialsOk(s: Sys) {
    && (forall n :: n in s.h.started ==> n < |s.h.claims|)
    && (forall id :: id in s.threads && IsStart(s.threads[id]) ==>
          s.threads[id].serial !in s.h.started && s.threads[id].serial < |s.h.claims|)
    && (forall a, b :: a in s.threads && b in s.threads && a != b && IsStart(s.threads[a]) && IsStart(s.threads[b])
                       ==> s.threads[a].serial != s.threads[b].serial)
  }

  /** Runners are spawned by claims only, under the next claim number, and start under their own. */
  ghost predicate SpawnsByClaim(db: Db, h: History, th: Thread, turn: Turn) {
    forall k :: Look(k) ==>
      && !IsStart(turn.next)
      && (turn.spawn.Some? && IsStart(turn.spawn.value) ==>
            turn.spawn.value.serial == |h.claims| && turn.action.Claim? && Claimable(db, turn.action.task))
      && (turn.action.StartRunner? <==> IsStart(th))
      && (IsStart(th) ==> turn.action == StartRunner(th.serial))
  }

  lemma CheckSpawnsByClaim(cfg: Config, db: Db, h: History, th: Thread)
    requires IsCheck(th)
    ensures SpawnsByClaim(db, h, th, CheckTurn(cfg, db, h, th))
  {
    if th.ConcatList? { ConcatListSpawnsNothing(cfg, db, h, th); }
    else if th.VmafList? { VmafListSpawnsNothing(cfg, db, h, th); }
    else if th.CheckRead? || th.ConcatSkipCount? || th.VmafSkipCount? { GateSpawnsNothing(cfg, db, h, th); }
  }

  lemma ConcatListSpawnsNothing(cfg: Config, db: Db, h: History, th: Thread)
    requires th.ConcatList?
    ensures SpawnsByClaim(db, h, th, CheckTurn(cfg, db, h, th))
  {
  }

  lemma VmafListSpawnsNothing(cfg: Config, db: Db, h: History, th: Thread)
    requires th.VmafList?
    ensures SpawnsByClaim(db, h, th, CheckTurn(cfg, db, h, th))
  {
  }

  lemma GateSpawnsNothing(cfg: Config, db: Db, h: History, th: Thread)
    requires th.CheckRead? || th.ConcatSkipCount? || th.VmafSkipCount?
    ensures SpawnsByClaim(db, h, th, CheckTurn(cfg, db, h, th))
  {
  }

  lemma ReportSpawns(db: Db, h: History, th: Thread, c: Choice)
    requires IsReport(th)
    ensures SpawnsByClaim(db, h, th, ReportTurn(db, th, c))
  {
  }

  lemma RunnerSpawns(db: Db, h: History, th: Thread, c: Choice)
    requires IsRunner(th)
    ensures SpawnsByClaim(db, h, th, RunnerTurn(th, c))
  {
  }

  lemma PollSpawns(db: Db, h: History, th: Thread, c: Choice)
    requires IsPoll(th)
    ensures SpawnsByClaim(db, h, th, PollTurn(db, th, c))
  {
  }

  lemma CreateSpawns(db: Db, h: History, th: Thread, c: Choice)
    requires IsCreate(th)
    ensures SpawnsByClaim(db, h, th, CreateTurn(db, th, c))
  {
  }

  lemma AdminSpawns(db: Db, h: History, th: Thread, c: Choice)
    requires IsAdmin(th)
    ensures SpawnsByClaim(db, h, th, AdminTurn(db, th))
  {
  }

  lemma ExpandSpawns(db: Db, h: History, th: Thread, c: Choice)
    requires IsExpand(th)
    ensures SpawnsByClaim(db, h, th, ExpandTurn(db, th, c))
  {
  }

  lemma AnalysisSpawns(db: Db, h: History, th: Thread, c: Choice)
    requires IsAnalysis(th)
    ensures SpawnsByClaim(db, h, th, AnalysisTurn(db, th, c))
  {
  }

  lemma TurnSpawns(cfg: Config, db: Db, h: History, th: Thread, c: Choice)
    ensures SpawnsByClaim(db, h, th, Next(cfg, db, h, th, c))
  {
    if IsReport(th) { ReportSpawns(db, h, th, c); }
    else if IsCheck(th) { CheckSpawnsByClaim(cfg, db, h, th); }
    else if IsRunner(th) { RunnerSpawns(db, h, th, c); }
    else if IsPoll(th) { PollSpawns(db, h, th, c); }
    else if IsCreate(th) { CreateSpawns(db, h, th, c); }
    else if IsAdmin(th) { AdminSpawns(db, h, th, c); }
    else if IsExpand(th) { ExpandSpawns(db, h, th, c); }
    else if IsAnalysis(th) { AnalysisSpawns(db, h, th, c); }
  }

  lemma TurnKeepsSerials(s: Sys, id: nat, child: nat, turn: Turn)
    requires SerialsOk(s) && id in s.threads && child !in s.threads
    requires SpawnsByClaim(s.db, s.h, s.threads[id], turn)
    ensures SerialsOk(AfterTurn(s, id, child, turn))
  {
    assert Look(0);
  }

  lemma StepKeepsSerials(cfg: Config, s: Sys, l: Label, s': Sys)
    requires SerialsOk(s) && SysStep(cfg, s, l, s')
    ensures SerialsOk(s')
  {
    assert Look(0);
    if l.Step? {
      TurnSpawns(cfg, s.db, s.h, s.threads[l.id], l.c);
      TurnKeepsSerials(s, l.id, l.child, Next(cfg, s.db, s.h, s.threads[l.id], l.c));
    }
  }

  lemma {:induction false} RunSerials(cfg: Config, ss: seq<Sys>, ls: seq<Label>, i: nat)
    requires IsRun(cfg, ss, ls) && i < |ss|
    ensures SerialsOk(ss[i])
  {
    if i > 0 {
      RunSerials(cfg, ss, ls, i - 1);
      StepKeepsSerials(cfg, ss[i - 1], ls[i - 1], ss[i]);
    }
  }

  /** The step that made claim number x. */
  lemma {:induction false} ClaimHappened(cfg: Config, ss: seq<Sys>, ls: seq<Label>, n: nat, x: nat) returns (i: nat)
    requires IsRun(cfg, ss, ls) && n < |ss| && x < |ss[n].h.claims|
    ensures i < n && |ss[i].h.claims| == x
    ensures TakesRow(ss[i].db, ActionOf(ls[i]), ss[n].h.claims[x])
    decreases n
  {
    assert n > 0;
    StepOf(cfg, ss, ls, n - 1);
    if x < |ss[n - 1].h.claims| {
      i := ClaimHappened(cfg, ss, ls, n - 1, x);
    } else {
      i := n - 1;
    }
  }

  /** Step i starts the runner of row t. */
  ghost predicate StartsRunner(ss: seq<Sys>, ls: seq<Label>, i: nat, t: nat)
    requires i < |ls| && i < |ss|
  {
    ls[i].Step? && ls[i].id in ss[i].threads && IsStart(ss[i].threads[ls[i].id]) && ss[i].threads[ls[i].id].task == t
  }

  lemma StartFacts(cfg: Config, ss: seq<Sys>, ls: seq<Label>, i: nat, t: nat) returns (x: nat)
    requires IsRun(cfg, ss, ls) && i < |ls| && StartsRunner(ss, ls, i, t)
    ensures x < |ss[i].h.claims| && ss[i].h.claims[x] == t
    ensures x in ss[i + 1].h.started && x !in ss[i].h.started
  {
    StepOf(cfg, ss, ls, i);
    RunSerials(cfg, ss, ls, i);
    assert Look(0);
    var th := ss[i].threads[ls[i].id];
    assert ThreadOk(ss[i].db, ss[i].h, th);
    TurnSpawns(cfg, ss[i].db, ss[i].h, th, ls[i].c);
    x := th.serial;
  }

  /** However many completion checks interleave, a runner starts twice on one row only if the row
      was preempted, reset or retried in between its two claims. */
  lemma RunnerStartsOncePerClaim(cfg: Config, ss: seq<Sys>, ls: seq<Label>, i: nat, k: nat, t: nat) returns (m: nat)
    requires IsRun(cfg, ss, ls) && i < k < |ls|
    requires StartsRunner(ss, ls, i, t) && StartsRunner(ss, ls, k, t)
    ensures m < k && RequeuesRow(ss[m].db, ActionOf(ls[m]), t)
  {
    var x := StartFacts(cfg, ss, ls, i, t);
    var y := StartFacts(cfg, ss, ls, k, t);
    RunGrows(cfg, ss, ls, i, k);
    RunGrows(cfg, ss, ls, i + 1, k);
    assert x != y && ss[k].h.claims[x] == t;
    var a := ClaimHappened(cfg, ss, ls, k, x);
    var b := ClaimHappened(cfg, ss, ls, k, y);
    if a < b {
      m := TakenTwiceOnlyAfterRequeue(cfg, ss, ls, a, b, t);
    } else {
      assert a != b;
      m := TakenTwiceOnlyAfterRequeue(cfg, ss, ls, b, a, t);
    }
  }

  // ----- completion -----

  ghost predicate OpenRow(tasks: seq<Task>, t: nat, j: nat) {
    RowOf(tasks, t, j) && tasks[t].status in {Pending, Running, Failed}
  }

  /** The step at which recount number m was made. */
  lemma {:induction false} CountingHappened(cfg: Config, ss: seq<Sys>, ls: seq<Label>, n: nat, m: nat) returns (x: nat)
    requires IsRun(cfg, ss, ls) && n < |ss| && m < |ss[n].h.counted|
    ensures x < n && |ss[x].h.counted| == m && ss[n].h.counted[m].tasks == ss[x].db.tasks
    ensures ActionOf(ls[x]) == CountTasks(ss[n].h.counted[m].job)
    decreases n
  {
    assert n > 0;
    StepOf(cfg, ss, ls, n - 1);
    if m < |ss[n - 1].h.counted| {
      x := CountingHappened(cfg, ss, ls, n - 1, m);
    } else {
      x := n - 1;
    }
  }

  lemma SettleFacts(cfg: Config, s: Sys, l: Label, s': Sys)
    requires Invariant(s) && SysStep(cfg, s, l, s') && l.Step? && l.id in s.threads && s.threads[l.id].Settle?
    requires l.action == SetStatus(s.threads[l.id].job, Completed)
    ensures Recounted(s.h, s.threads[l.id].job, s.threads[l.id].row, s.threads[l.id].since)
    ensures Closes(s.threads[l.id].row.counts)
  {
    assert Look(0);
    assert ThreadOk(s.db, s.h, s.threads[l.id]);
  }

  ghost predicate NothingOpen(tasks: seq<Task>, j: nat) {
    forall t: nat :: !OpenRow(tasks, t, j)
  }

  lemma NoOpenRows(tasks: seq<Task>, j: nat)
    requires Closes(Tally(tasks, j))
    ensures NothingOpen(tasks, j)
  {
    CountStatusZero(tasks, j, Pending);
    CountStatusZero(tasks, j, Running);
    CountStatusZero(tasks, j, Failed);
  }

  /** When a completion check sets a job to completed, then at some moment between the call's own
      recount and this step the job had no pending, running or failed row. */
  lemma CompletionSawNoOpenRow(cfg: Config, ss: seq<Sys>, ls: seq<Label>, i: nat) returns (x: nat)
    requires IsRun(cfg, ss, ls) && i < |ls| && ls[i].Step? && ls[i].id in ss[i].threads
    requires ss[i].threads[ls[i].id].Settle?
    requires ls[i].action == SetStatus(ss[i].threads[ls[i].id].job, Completed)
    ensures x < i && ActionOf(ls[x]) == CountTasks(ss[i].threads[ls[i].id].job)
    ensures |ss[x].h.counted| >= ss[i].threads[ls[i].id].since
    ensures NothingOpen(ss[x].db.tasks, ss[i].threads[ls[i].id].job)
  {
    StepOf(cfg, ss, ls, i);
    var th := ss[i].threads[ls[i].id];
    SettleFacts(cfg, ss[i], ls[i], ss[i + 1]);
    var m :| th.since <= m < |ss[i].h.counted| && ss[i].h.counted[m].job == th.job
             && th.row.counts == Tally(ss[i].h.counted[m].tasks, th.job);
    x := CountingHappened(cfg, ss, ls, i, m);
    NoOpenRows(ss[x].db.tasks, th.job);
  }

  ghost predicate AllCompleted(tasks: seq<Task>, j: nat) {
    forall t: nat :: RowOf(tasks, t, j) ==> tasks[t].status == Completed
  }

  ghost predicate NoneUncounted(tasks: seq<Task>, j: nat) {
    forall t: nat :: RowOf(tasks, t, j) ==> tasks[t].status != Assigned && tasks[t].status != Cancelled
  }

  /** In every reachable state, a job without an open row has only completed rows exactly if none
      of its rows is in one of the two statuses the recount ignores. */
  lemma NothingOpenMeansCompleted(cfg: Config, ss: seq<Sys>, ls: seq<Label>, x: nat, j: nat)
    requires IsRun(cfg, ss, ls) && x < |ss| && NothingOpen(ss[x].db.tasks, j)
    ensures AllCompleted(ss[x].db.tasks, j) <==> NoneUncounted(ss[x].db.tasks, j)
  {
    RunInvariant(cfg, ss, ls, x);
    assert Look(0);
    var tasks := ss[x].db.tasks;
    forall t: nat | RowOf(tasks, t, j)
      ensures tasks[t].status == Completed || tasks[t].status == Assigned || tasks[t].status == Cancelled
    {
      assert !OpenRow(tasks, t, j) && TaskOk(ss[x].db, t);
      match tasks[t].status case _ =>
    }
  }

  // ----- automatic retries -----

  /** A row, the retry of it, the retry of that, and so on. */
  ghost predicate Lineage(db: Db, ts: seq<nat>) {
    && ts != [] && (forall i :: 0 <= i < |ts| ==> ts[i] < |db.tasks|)
    && db.tasks[ts[0]].parent == None
    && (forall i, k :: 0 <= i < |ts| && 0 <= k < |ts| && k == i + 1 ==> db.tasks[ts[k]].parent == Some(ts[i]))
  }

  /** Retries count up from zero within one job and one kind, and never past the job's budget. */
  lemma {:induction false} LineageCountsUp(cfg: Config, ss: seq<Sys>, ls: seq<Label>, n: nat, ts: seq<nat>, i: nat)
    requires IsRun(cfg, ss, ls) && n < |ss|
    requires Lineage(ss[n].db, ts) && i < |ts|
    ensures var db := ss[n].db;
            && HasJob(db, db.tasks[ts[i]].job)
            && db.tasks[ts[i]].retryCount == i
            && db.tasks[ts[i]].job == db.tasks[ts[0]].job && db.tasks[ts[i]].kind == db.tasks[ts[0]].kind
            && (i > 0 ==> i <= db.jobs[db.tasks[ts[0]].job].maxRetries)
    decreases i
  {
    RunInvariant(cfg, ss, ls, n);
    assert Look(0);
    assert TaskOk(ss[n].db, ts[i]);
    if i > 0 { LineageCountsUp(cfg, ss, ls, n, ts, i - 1); }
  }

  lemma LineagesAreShort(cfg: Config, ss: seq<Sys>, ls: seq<Label>, n: nat, ts: seq<nat>)
    requires IsRun(cfg, ss, ls) && n < |ss| && Lineage(ss[n].db, ts)
    ensures HasJob(ss[n].db, ss[n].db.tasks[ts[0]].job)
    ensures var budget := ss[n].db.jobs[ss[n].db.tasks[ts[0]].job].maxRetries;
            |ts| <= (if budget < 0 then 0 else budget) + 1
  {
    LineageCountsUp(cfg, ss, ls, n, ts, |ts| - 1);
  }
}
