/**
 Every turn of every thread takes a justified action and leaves a thread whose knowledge holds;
 hence the invariant holds in every state of every run.
 */
module ProtocolSteps {
  import opened Basics
  import opened RetryPolicy
  import opened JobRows
  import opened Protocol
  import opened ProtocolInvariant

  ghost predicate TurnOk(db: Db, h: History, turn: Turn) {
    forall k :: Look(k) ==>
      var db', h' := Apply(db, turn.action), Remember(db, h, turn.action);
      && Allowed(db, h, turn.action)
      && ThreadOk(db', h', turn.next)
      && (turn.spawn.Some? ==> ThreadOk(db', h', turn.spawn.value))
  }

  lemma BudgetWithinJob(job: Job, exit: int, message: string)
    ensures RetryBudgetFor(job, exit, message) <= if job.maxRetries <= 0 then 0 else job.maxRetries
  {
    if job.maxRetries > 0 { RetryBudget(exit, message, job.maxRetries); }
  }

  lemma ReportTurnOk(db: Db, h: History, th: Thread, c: Choice)
    requires TablesOk(db, h) && ThreadOk(db, h, th) && IsReport(th)
    ensures TurnOk(db, h, ReportTurn(db, th, c))
  {
    if th.RetryJobRead? {
      BudgetWithinJob(db.jobs[th.r.job], th.exit, th.message);
    }
  }

  lemma ListedRowsBelong(db: Db, j: nat, kind: Kind)
    ensures var found := FirstPending(db.tasks, ListByJob(db.tasks, j), kind);
            found.Some? ==> RowOf(db.tasks, found.value, j)
  {
    ListByJobSound(db.tasks, j);
  }

  lemma GatesOk(cfg: Config, db: Db, h: History, j: nat, row: Job, since: nat)
    requires j in h.released && Recounted(h, j, row, since)
    ensures ThreadOk(db, h, VmafGate(cfg, j, row, since))
    ensures ThreadOk(db, h, AfterRead(cfg, j, row, since))
    ensures ThreadOk(db, h, SettleGate(j, row, since))
  {
  }

  lemma CheckReadOk(cfg: Config, db: Db, h: History, th: Thread)
    requires TablesOk(db, h) && ThreadOk(db, h, th) && th.CheckRead?
    ensures TurnOk(db, h, CheckTurn(cfg, db, h, th))
  {
    assert JobOk(db.jobs[th.job], th.job, h);
    LastTallyIsRecent(h.counted, th.job, th.since);
    GatesOk(cfg, db, h, th.job, db.jobs[th.job], th.since);
  }

  lemma ConcatListOk(cfg: Config, db: Db, h: History, th: Thread)
    requires ThreadOk(db, h, th) && th.ConcatList?
    ensures TurnOk(db, h, CheckTurn(cfg, db, h, th))
  {
    ListedRowsBelong(db, th.job, Concat);
    GatesOk(cfg, db, h, th.job, th.row, th.since);
  }

  lemma VmafListOk(cfg: Config, db: Db, h: History, th: Thread)
    requires ThreadOk(db, h, th) && th.VmafList?
    ensures TurnOk(db, h, CheckTurn(cfg, db, h, th))
  {
    ListedRowsBelong(db, th.job, VmafTarget);
    GatesOk(cfg, db, h, th.job, th.row, th.since);
  }

  lemma CountTurnOk(cfg: Config, db: Db, h: History, th: Thread)
    requires ThreadOk(db, h, th) && (th.Count? || th.ConcatSkipCount? || th.VmafSkipCount?)
    ensures TurnOk(db, h, CheckTurn(cfg, db, h, th))
  {
    if !th.Count? {
      var a := CountTasks(th.job);
      RecountedGrows(h, Remember(db, h, a), th.job, th.row, th.since);
      GatesOk(cfg, Apply(db, a), Remember(db, h, a), th.job, th.row, th.since);
    }
  }

  lemma SettleTurnOk(cfg: Config, db: Db, h: History, th: Thread)
    requires ThreadOk(db, h, th) && (th.Settle? || th.Release?) && HasJob(db, th.job)
    ensures TurnOk(db, h, CheckTurn(cfg, db, h, th))
  {
  }

  lemma SkipTurnOk(cfg: Config, db: Db, h: History, th: Thread)
    requires ThreadOk(db, h, th) && (th.ConcatSkip? || th.VmafSkip?)
    ensures TurnOk(db, h, CheckTurn(cfg, db, h, th))
  {
  }

  lemma ClaimTurnOk(cfg: Config, db: Db, h: History, th: Thread)
    requires ThreadOk(db, h, th) && (th.ConcatClaim? || th.VmafClaim?)
    ensures TurnOk(db, h, CheckTurn(cfg, db, h, th))
  {
  }

  lemma CheckTurnOk(cfg: Config, db: Db, h: History, th: Thread)
    requires TablesOk(db, h) && ThreadOk(db, h, th) && IsCheck(th)
    ensures TurnOk(db, h, CheckTurn(cfg, db, h, th))
  {
    if th.CheckRead? { CheckReadOk(cfg, db, h, th); }
    else if th.ConcatList? { ConcatListOk(cfg, db, h, th); }
    else if th.VmafList? { VmafListOk(cfg, db, h, th); }
    else if th.Count? || th.ConcatSkipCount? || th.VmafSkipCount? { CountTurnOk(cfg, db, h, th); }
    else if th.ConcatClaim? || th.VmafClaim? { ClaimTurnOk(cfg, db, h, th); }
    else if th.ConcatSkip? || th.VmafSkip? { SkipTurnOk(cfg, db, h, th); }
    else { SettleTurnOk(cfg, db, h, th); }
  }

  /** The counters of a job come from its latest recount, which is no older than any given one. */
  lemma {:induction false} LastTallyIsRecent(counted: seq<Counting>, j: nat, since: nat)
    requires since < |counted| && counted[since].job == j
    ensures exists m :: since <= m < |counted| && counted[m].job == j && LastTally(counted, j) == Tally(counted[m].tasks, j)
  {
    var n := |counted| - 1;
    if counted[n].job != j {
      LastTallyIsRecent(counted[..n], j, since);
      var m :| since <= m < n && counted[..n][m].job == j && LastTally(counted[..n], j) == Tally(counted[..n][m].tasks, j);
      assert counted[m] == counted[..n][m];
    }
  }

  lemma RunnerTurnOk(db: Db, h: History, th: Thread, c: Choice)
    requires ThreadOk(db, h, th) && IsRunner(th)
    ensures TurnOk(db, h, RunnerTurn(th, c))
  {
  }

  lemma PollTurnOk(db: Db, h: History, th: Thread, c: Choice)
    requires TablesOk(db, h) && ThreadOk(db, h, th) && IsPoll(th)
    ensures TurnOk(db, h, PollTurn(db, th, c))
  {
    if th.PollRead? && HasJob(db, th.job) { assert JobOk(db.jobs[th.job], th.job, h); }
  }

  lemma CreateTurnOk(db: Db, h: History, th: Thread, c: Choice)
    requires TablesOk(db, h) && ThreadOk(db, h, th) && IsCreate(th)
    ensures TurnOk(db, h, CreateTurn(db, th, c))
  {
    if th.CreateCheck? && th.spec.dependsOn.Some? && HasJob(db, th.spec.dependsOn.value) {
      var p := th.spec.dependsOn.value;
      assert JobOk(db.jobs[p], p, h);
    }
  }

  lemma AdminTurnOk(db: Db, h: History, th: Thread)
    requires TablesOk(db, h) && ThreadOk(db, h, th) && IsAdmin(th)
    ensures TurnOk(db, h, AdminTurn(db, th))
  {
    if th.RetryGate? {
      if HasJob(db, th.job) { assert JobOk(db.jobs[th.job], th.job, h); }
    } else if th.ResetRead? {
    } else {
      AdminWritesOk(db, h, th);
    }
  }

  lemma AdminWritesOk(db: Db, h: History, th: Thread)
    requires ThreadOk(db, h, th) && IsAdmin(th) && !th.RetryGate? && !th.ResetRead?
    ensures TurnOk(db, h, AdminTurn(db, th))
  {
  }

  lemma ExpandTurnOk(db: Db, h: History, th: Thread, c: Choice)
    requires TablesOk(db, h) && ThreadOk(db, h, th) && IsExpand(th)
    ensures TurnOk(db, h, ExpandTurn(db, th, c))
  {
    if th.ExpandRead? {
      if HasJob(db, th.job) { assert JobOk(db.jobs[th.job], th.job, h); }
    } else if th.ExpandRows? {
      ExpandRowsOk(db, h, th, c);
    } else {
      ExpandTailOk(db, h, th, c);
    }
  }

  lemma ExpandRowsOk(db: Db, h: History, th: Thread, c: Choice)
    requires ThreadOk(db, h, th) && th.ExpandRows?
    ensures TurnOk(db, h, ExpandTurn(db, th, c))
  {
  }

  lemma ExpandTailOk(db: Db, h: History, th: Thread, c: Choice)
    requires ThreadOk(db, h, th) && (th.ExpandScripts? || th.ExpandCount? || th.ExpandQueue? || th.ExpandCleanup? || th.ExpandFail?)
    ensures TurnOk(db, h, ExpandTurn(db, th, c))
  {
  }

  lemma AnalysisTurnOk(db: Db, h: History, th: Thread, c: Choice)
    requires TablesOk(db, h) && ThreadOk(db, h, th) && IsAnalysis(th)
    ensures TurnOk(db, h, AnalysisTurn(db, th, c))
  {
    if th.AnalysisRead? {
      if HasJob(db, th.job) { assert JobOk(db.jobs[th.job], th.job, h); }
    } else {
      assert HasJob(db, th.job);
      AnalysisWritesOk(db, h, th, c);
    }
  }

  lemma AnalysisWritesOk(db: Db, h: History, th: Thread, c: Choice)
    requires ThreadOk(db, h, th) && IsAnalysis(th) && !th.AnalysisRead? && HasJob(db, th.job)
    ensures TurnOk(db, h, AnalysisTurn(db, th, c))
  {
  }

  lemma NextOk(cfg: Config, db: Db, h: History, th: Thread, c: Choice)
    requires TablesOk(db, h) && ThreadOk(db, h, th)
    ensures TurnOk(db, h, Next(cfg, db, h, th, c))
  {
    if IsReport(th) { ReportTurnOk(db, h, th, c); }
    else if IsCheck(th) { CheckTurnOk(cfg, db, h, th); }
    else if IsRunner(th) { RunnerTurnOk(db, h, th, c); }
    else if IsPoll(th) { PollTurnOk(db, h, th, c); }
    else if IsCreate(th) { CreateTurnOk(db, h, th, c); }
    else if IsAdmin(th) { AdminTurnOk(db, h, th); }
    else if IsExpand(th) { ExpandTurnOk(db, h, th, c); }
    else if IsAnalysis(th) { AnalysisTurnOk(db, h, th, c); }
  }

  // ----- the invariant of every run -----

  ghost predicate Invariant(s: Sys) {
    forall k :: Look(k) ==>
      TablesOk(s.db, s.h) && forall id :: id in s.threads ==> ThreadOk(s.db, s.h, s.threads[id])
  }

  lemma TurnKeepsInvariant(s: Sys, id: nat, child: nat, turn: Turn)
    requires Invariant(s) && id in s.threads && child !in s.threads && TurnOk(s.db, s.h, turn)
    ensures Invariant(AfterTurn(s, id, child, turn))
    ensures Allowed(s.db, s.h, turn.action)
  {
    assert Look(0);
    var s' := AfterTurn(s, id, child, turn);
    ActionKeepsTables(s.db, s.h, turn.action);
    ActionGrows(s.db, s.h, turn.action);
    forall x | x in s'.threads ensures ThreadOk(s'.db, s'.h, s'.threads[x]) {
      if x in s.threads { ThreadOkIsStable(s.db, s.h, s'.db, s'.h, s.threads[x]); }
    }
  }

  lemma MayBeginOk(s: Sys, th: Thread)
    requires Invariant(s) && MayBegin(s.db, s.h, th)
    ensures ThreadOk(s.db, s.h, th)
  {
    assert Look(0);
  }

  lemma StepKeepsInvariant(cfg: Config, s: Sys, l: Label, s': Sys)
    requires Invariant(s) && SysStep(cfg, s, l, s')
    ensures Invariant(s')
    ensures s'.db == Apply(s.db, ActionOf(l)) && s'.h == Remember(s.db, s.h, ActionOf(l))
    ensures Allowed(s.db, s.h, ActionOf(l))
  {
    assert Look(0);
    match l
    case Begin(id, call) => MayBeginOk(s, call);
    case Die(id) =>
    case Step(id, child, c, action) =>
      NextOk(cfg, s.db, s.h, s.threads[id], c);
      TurnKeepsInvariant(s, id, child, Next(cfg, s.db, s.h, s.threads[id], c));
  }

  lemma {:induction false} RunInvariant(cfg: Config, ss: seq<Sys>, ls: seq<Label>, i: nat)
    requires IsRun(cfg, ss, ls) && i < |ss|
    ensures Invariant(ss[i])
  {
    if i > 0 {
      RunInvariant(cfg, ss, ls, i - 1);
      StepKeepsInvariant(cfg, ss[i - 1], ls[i - 1], ss[i]);
    }
  }

  /** Everything the theorems need to know about one step of a run. */
  lemma StepOf(cfg: Config, ss: seq<Sys>, ls: seq<Label>, i: nat)
    requires IsRun(cfg, ss, ls) && i < |ls|
    ensures SysStep(cfg, ss[i], ls[i], ss[i + 1]) && Invariant(ss[i]) && Invariant(ss[i + 1])
    ensures ss[i + 1].db == Apply(ss[i].db, ActionOf(ls[i]))
    ensures ss[i + 1].h == Remember(ss[i].db, ss[i].h, ActionOf(ls[i]))
    ensures Allowed(ss[i].db, ss[i].h, ActionOf(ls[i]))
  {
    RunInvariant(cfg, ss, ls, i);
    StepKeepsInvariant(cfg, ss[i], ls[i], ss[i + 1]);
  }
}
