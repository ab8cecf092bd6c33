/**
 Automatic retries in every run: a row is retried at most once per reported failure of it.
 */
module RetryTheorems {
  import opened Basics
  import opened RetryPolicy
  import opened JobRows
  import opened Protocol
  import opened ProtocolInvariant
  import opened ProtocolSteps
  import opened ProtocolTheorems

  predicate Retrying(th: Thread, t: nat) {
    (th.RetryRead? || th.RetryJobRead? || th.RetryInsert?) && th.r.task == t
  }

  predicate AddsRetryOf(a: Action, t: nat) { a.AddTask? && a.newTask.parent == Some(t) }

  predicate FailsRow(th: Thread, t: nat) { th.Record? && !th.r.success && th.r.task == t }

  function Retries(tasks: seq<Task>, t: nat): nat {
    if tasks == [] then 0
    else Retries(tasks[..|tasks| - 1], t) + if tasks[|tasks| - 1].parent == Some(t) then 1 else 0
  }

  function InFlight(s: Sys, t: nat): set<nat> {
    set id | id in s.threads && Retrying(s.threads[id], t)
  }

  /** How many of the first i steps recorded a failure reported for row t. */
  ghost function Reports(ss: seq<Sys>, ls: seq<Label>, i: nat, t: nat): nat
    requires i <= |ls| && |ss| == |ls| + 1
  {
    if i == 0 then 0
    else Reports(ss, ls, i - 1, t)
         + if ls[i - 1].Step? && ls[i - 1].id in ss[i - 1].threads && FailsRow(ss[i - 1].threads[ls[i - 1].id], t) then 1 else 0
  }

  /** What a turn does to the retries of row t: only a thread that is retrying adds one, and then it
      stops retrying; only a recorded failure starts retrying. */
  ghost predicate RetriesByReport(th: Thread, turn: Turn, t: nat) {
    forall k :: Look(k) ==>
      && (AddsRetryOf(turn.action, t) ==> Retrying(th, t) && !Retrying(turn.next, t))
      && (Retrying(turn.next, t) && !Retrying(th, t) ==> FailsRow(th, t))
      && (turn.spawn.Some? ==> !Retrying(turn.spawn.value, t))
  }

  lemma ReportRetries(db: Db, th: Thread, c: Choice, t: nat)
    requires IsReport(th)
    ensures RetriesByReport(th, ReportTurn(db, th, c), t)
  {
  }

  lemma GateRetries(cfg: Config, db: Db, h: History, th: Thread, t: nat)
    requires th.CheckRead? || th.ConcatSkipCount? || th.VmafSkipCount?
    ensures RetriesByReport(th, CheckTurn(cfg, db, h, th), t)
  {
  }

  lemma WriteRetries(cfg: Config, db: Db, h: History, th: Thread, t: nat)
    requires th.Count? || th.ConcatSkip? || th.ConcatClaim? || th.VmafSkip? || th.VmafClaim? || th.Settle? || th.Release?
    ensures RetriesByReport(th, CheckTurn(cfg, db, h, th), t)
  {
  }

  lemma CheckRetries(cfg: Config, db: Db, h: History, th: Thread, t: nat)
    requires IsCheck(th)
    ensures RetriesByReport(th, CheckTurn(cfg, db, h, th), t)
  {
    if th.ConcatList? { ConcatListRetries(cfg, db, h, th, t); }
    else if th.VmafList? { VmafListRetries(cfg, db, h, th, t); }
    else if th.CheckRead? || th.ConcatSkipCount? || th.VmafSkipCount? { GateRetries(cfg, db, h, th, t); }
    else { WriteRetries(cfg, db, h, th, t); }
  }

  lemma ConcatListRetries(cfg: Config, db: Db, h: History, th: Thread, t: nat)
    requires th.ConcatList?
    ensures RetriesByReport(th, CheckTurn(cfg, db, h, th), t)
  {
  }

  lemma VmafListRetries(cfg: Config, db: Db, h: History, th: Thread, t: nat)
    requires th.VmafList?
    ensures RetriesByReport(th, CheckTurn(cfg, db, h, th), t)
  {
  }

  lemma RunnerRetries(cfg: Config, db: Db, h: History, th: Thread, c: Choice, t: nat)
    requires IsRunner(th)
    ensures RetriesByReport(th, RunnerTurn(th, c), t)
  {
  }

  lemma PollRetries(cfg: Config, db: Db, h: History, th: Thread, c: Choice, t: nat)
    requires IsPoll(th)
    ensures RetriesByReport(th, PollTurn(db, th, c), t)
  {
  }

  lemma CreateRetries(cfg: Config, db: Db, h: History, th: Thread, c: Choice, t: nat)
    requires IsCreate(th)
    ensures RetriesByReport(th, CreateTurn(db, th, c), t)
  {
  }

  lemma AdminRetries(cfg: Config, db: Db, h: History, th: Thread, c: Choice, t: nat)
    requires IsAdmin(th)
    ensures RetriesByReport(th, AdminTurn(db, th), t)
  {
  }

  lemma ExpandRetries(cfg: Config, db: Db, h: History, th: Thread, c: Choice, t: nat)
    requires IsExpand(th)
    ensures RetriesByReport(th, ExpandTurn(db, th, c), t)
  {
  }

  lemma AnalysisRetries(cfg: Config, db: Db, h: History, th: Thread, c: Choice, t: nat)
    requires IsAnalysis(th)
    ensures RetriesByReport(th, AnalysisTurn(db, th, c), t)
  {
  }

  lemma TurnRetries(cfg: Config, db: Db, h: History, th: Thread, c: Choice, t: nat)
    ensures RetriesByReport(th, Next(cfg, db, h, th, c), t)
  {
    if IsReport(th) { ReportRetries(db, th, c, t); }
    else if IsCheck(th) { CheckRetries(cfg, db, h, th, t); }
    else if IsRunner(th) { RunnerRetries(cfg, db, h, th, c, t); }
    else if IsPoll(th) { PollRetries(cfg, db, h, th, c, t); }
    else if IsCreate(th) { CreateRetries(cfg, db, h, th, c, t); }
    else if IsAdmin(th) { AdminRetries(cfg, db, h, th, c, t); }
    else if IsExpand(th) { ExpandRetries(cfg, db, h, th, c, t); }
    else if IsAnalysis(th) { AnalysisRetries(cfg, db, h, th, c, t); }
  }

  lemma {:induction false} SameParents(a: seq<Task>, b: seq<Task>, t: nat)
    requires |a| == |b| && forall i :: 0 <= i < |a| ==> a[i].parent == b[i].parent
    ensures Retries(a, t) == Retries(b, t)
  {
    if a != [] { SameParents(a[..|a| - 1], b[..|b| - 1], t); }
  }

  lemma ActionAddsRetry(db: Db, h: History, a: Action, t: nat)
    ensures Retries(Apply(db, a).tasks, t) == Retries(db.tasks, t) + if AddsRetryOf(a, t) then 1 else 0
  {
    var tasks' := Apply(db, a).tasks;
    if a.AddTask? {
      assert tasks'[..|tasks'| - 1] == db.tasks;
    } else {
      ActionGrows(db, h, a);
      assert |tasks'| == |db.tasks|;
      forall i | 0 <= i < |db.tasks| ensures db.tasks[i].parent == tasks'[i].parent {
        assert SameTask(db.tasks[i], tasks'[i]);
      }
      SameParents(db.tasks, tasks', t);
    }
  }

  lemma TurnInFlight(s: Sys, id: nat, child: nat, turn: Turn, t: nat)
    requires id in s.threads && child !in s.threads && RetriesByReport(s.threads[id], turn, t)
    ensures InFlight(AfterTurn(s, id, child, turn), t)
         == if Retrying(turn.next, t) then InFlight(s, t) + {id} else InFlight(s, t) - {id}
  {
    assert Look(0);
  }

  lemma TurnCounts(s: Sys, id: nat, child: nat, turn: Turn, t: nat)
    requires id in s.threads && child !in s.threads && RetriesByReport(s.threads[id], turn, t)
    ensures var s' := AfterTurn(s, id, child, turn);
            Retries(s'.db.tasks, t) + |InFlight(s', t)|
            <= Retries(s.db.tasks, t) + |InFlight(s, t)| + if FailsRow(s.threads[id], t) then 1 else 0
  {
    TurnInFlight(s, id, child, turn, t);
    ActionAddsRetry(s.db, s.h, turn.action, t);
    assert Look(0);
    var f := InFlight(s, t);
    assert Retrying(s.threads[id], t) <==> id in f;
    assert id in f ==> f + {id} == f && |f - {id}| == |f| - 1;
    assert id !in f ==> f - {id} == f && |f + {id}| == |f| + 1;
  }

  lemma StepCounts(cfg: Config, s: Sys, l: Label, s': Sys, t: nat)
    requires SysStep(cfg, s, l, s')
    ensures Retries(s'.db.tasks, t) + |InFlight(s', t)|
         <= Retries(s.db.tasks, t) + |InFlight(s, t)|
            + if l.Step? && l.id in s.threads && FailsRow(s.threads[l.id], t) then 1 else 0
  {
    assert Look(0);
    match l
    case Begin(id, call) => assert InFlight(s', t) == InFlight(s, t);
    case Die(id) =>
      assert InFlight(s, t) == InFlight(s', t) + (InFlight(s, t) * {id});
    case Step(id, child, c, action) =>
      TurnRetries(cfg, s.db, s.h, s.threads[id], c, t);
      TurnCounts(s, id, child, Next(cfg, s.db, s.h, s.threads[id], c), t);
  }

  /** In every run a row has at most as many retries as failures were recorded for it. */
  lemma {:induction false} RetriesAreReported(cfg: Config, ss: seq<Sys>, ls: seq<Label>, i: nat, t: nat)
    requires IsRun(cfg, ss, ls) && i < |ss|
    ensures Retries(ss[i].db.tasks, t) + |InFlight(ss[i], t)| <= Reports(ss, ls, i, t)
  {
    if i == 0 {
      assert InFlight(ss[0], t) == {};
    } else {
      RetriesAreReported(cfg, ss, ls, i - 1, t);
      StepCounts(cfg, ss[i - 1], ls[i - 1], ss[i], t);
    }
  }

  lemma {:induction false} RetryIsCounted(tasks: seq<Task>, t: nat, u: nat)
    requires u < |tasks| && tasks[u].parent == Some(t)
    ensures Retries(tasks, t) >= 1
  {
    if u < |tasks| - 1 { RetryIsCounted(tasks[..|tasks| - 1], t, u); }
  }

  lemma {:induction false} TwoRetriesAreCounted(tasks: seq<Task>, t: nat, u: nat, v: nat)
    requires u < v < |tasks| && tasks[u].parent == Some(t) && tasks[v].parent == Some(t)
    ensures Retries(tasks, t) >= 2
  {
    if v < |tasks| - 1 {
      TwoRetriesAreCounted(tasks[..|tasks| - 1], t, u, v);
    } else {
      RetryIsCounted(tasks[..v], t, u);
    }
  }

  /** If every row's failure is recorded at most once, the retries of a row form a single lineage,
      which LineagesAreShort bounds by the job's retry limit plus one. */
  lemma {:induction false} OneLineagePerRow(cfg: Config, ss: seq<Sys>, ls: seq<Label>, i: nat,
                                            ts: seq<nat>, us: seq<nat>, k: nat)
    requires IsRun(cfg, ss, ls) && i < |ss| && forall t: nat :: Reports(ss, ls, i, t) <= 1
    requires Lineage(ss[i].db, ts) && Lineage(ss[i].db, us) && ts[0] == us[0]
    requires k < |ts| && k < |us|
    ensures ts[k] == us[k]
    decreases k
  {
    if k > 0 {
      OneLineagePerRow(cfg, ss, ls, i, ts, us, k - 1);
      RetriesAreReported(cfg, ss, ls, i, ts[k - 1]);
      if ts[k] < us[k] { TwoRetriesAreCounted(ss[i].db.tasks, ts[k - 1], ts[k], us[k]); }
      else if us[k] < ts[k] { TwoRetriesAreCounted(ss[i].db.tasks, ts[k - 1], us[k], ts[k]); }
    }
  }

  // ----- permanent errors -----

  ghost predicate PermanentError(exit: int, message: string) {
    forall k :: Look(k) ==> ClassifyError(exit, message).Permanent?
  }

  /** While the row exists, the error stored with it is permanent. */
  ghost predicate StoredPermanent(db: Db, t: nat) {
    HasTask(db, t) ==>
      db.tasks[t].exitCode.Some? && db.tasks[t].errorMsg.Some?
      && PermanentError(db.tasks[t].exitCode.value, db.tasks[t].errorMsg.value)
  }

  /** The action removes the error stored with row t: it completes the row, or is a manual retry of it. */
  ghost predicate Clears(db: Db, a: Action, t: nat) {
    (a.Finish? && a.task == t) || (a.RetryRows? && RowOf(db.tasks, t, a.job) && db.tasks[t].status == Failed)
  }

  ghost predicate FailsForGood(a: Action, t: nat) { a.Fault? && a.task == t ==> PermanentError(a.exit, a.message) }

  /** The action writes no error with row t, or a permanent one. */
  ghost predicate WritesPermanent(db: Db, a: Action, t: nat) { FailsForGood(a, t) && !Clears(db, a, t) }

  predicate ReadsBack(th: Thread, t: nat) { th.RetryRead? && th.r.task == t }

  /** A failure that the action records for row t is permanent, and it removes no error that a report of
      the row has recorded and not read back yet. */
  ghost predicate SparesReports(s: Sys, a: Action, t: nat) {
    FailsForGood(a, t) && (Clears(s.db, a, t) ==> forall id :: id in s.threads ==> !ReadsBack(s.threads[id], t))
  }

  /** What a thread that reports a failure of row t knows of its error. */
  ghost predicate KnowsPermanent(db: Db, th: Thread, t: nat) {
    && (ReadsBack(th, t) ==> t < |db.tasks| && StoredPermanent(db, t))
    && (th.RetryJobRead? && th.r.task == t ==> PermanentError(th.exit, th.message))
    && !(th.RetryInsert? && th.r.task == t)
  }

  lemma StoredStaysPermanent(db: Db, a: Action, t: nat)
    requires t < |db.tasks| && StoredPermanent(db, t) && WritesPermanent(db, a, t)
    ensures t < |Apply(db, a).tasks| && StoredPermanent(Apply(db, a), t)
  {
  }

  lemma FailureStoresPermanent(db: Db, r: Result)
    requires r.task < |db.tasks| && PermanentError(r.exit, r.message)
    ensures StoredPermanent(FailTask(db, r.task, r.exit, r.message), r.task)
  {
  }

  lemma NoBudget(job: Job, exit: int, message: string)
    requires PermanentError(exit, message)
    ensures RetryBudgetFor(job, exit, message) == 0
  {
    assert Look(0);
  }

  lemma ReportKnowsPermanent(db: Db, th: Thread, c: Choice, t: nat)
    requires IsReport(th) && KnowsPermanent(db, th, t) && (th.Record? ==> th.r.task < |db.tasks|)
    requires FailsForGood(ReportTurn(db, th, c).action, t)
    ensures KnowsPermanent(Apply(db, ReportTurn(db, th, c).action), ReportTurn(db, th, c).next, t)
    ensures !AddsRetryOf(ReportTurn(db, th, c).action, t)
  {
    if th.Record? && !th.r.success && th.r.task == t {
      FailureStoresPermanent(db, th.r);
    } else if th.RetryJobRead? && th.r.task == t && HasJob(db, th.r.job) {
      NoBudget(db.jobs[th.r.job], th.exit, th.message);
    }
  }

  lemma TurnKnowsPermanent(cfg: Config, db: Db, h: History, th: Thread, c: Choice, t: nat)
    requires ThreadOk(db, h, th) && KnowsPermanent(db, th, t)
    requires FailsForGood(Next(cfg, db, h, th, c).action, t)
    ensures KnowsPermanent(Apply(db, Next(cfg, db, h, th, c).action), Next(cfg, db, h, th, c).next, t)
    ensures !AddsRetryOf(Next(cfg, db, h, th, c).action, t)
  {
    if IsReport(th) {
      ReportKnowsPermanent(db, th, c, t);
    } else {
      TurnRetries(cfg, db, h, th, c, t);
      assert Look(0);
    }
  }

  /** No retry of row t has been made or is being made. */
  ghost predicate NeverRetried(s: Sys, t: nat) {
    Retries(s.db.tasks, t) == 0 && forall id :: id in s.threads ==> KnowsPermanent(s.db, s.threads[id], t)
  }

  lemma KnowledgeStays(db: Db, a: Action, th: Thread, t: nat)
    requires KnowsPermanent(db, th, t) && (ReadsBack(th, t) ==> WritesPermanent(db, a, t))
    ensures KnowsPermanent(Apply(db, a), th, t)
  {
    if ReadsBack(th, t) { StoredStaysPermanent(db, a, t); }
  }

  lemma TurnKeepsUnretried(s: Sys, id: nat, child: nat, turn: Turn, t: nat)
    requires NeverRetried(s, t) && id in s.threads && child !in s.threads
    requires SparesReports(s, turn.action, t) && !AddsRetryOf(turn.action, t)
    requires KnowsPermanent(Apply(s.db, turn.action), turn.next, t)
    requires turn.spawn.Some? ==> !Retrying(turn.spawn.value, t)
    ensures NeverRetried(AfterTurn(s, id, child, turn), t)
  {
    var s' := AfterTurn(s, id, child, turn);
    ActionAddsRetry(s.db, s.h, turn.action, t);
    forall x | x in s'.threads ensures KnowsPermanent(s'.db, s'.threads[x], t) {
      if x in s.threads && x != id { KnowledgeStays(s.db, turn.action, s.threads[x], t); }
    }
  }

  lemma SpawnsNoRetry(cfg: Config, db: Db, h: History, th: Thread, c: Choice, t: nat)
    ensures var spawn := Next(cfg, db, h, th, c).spawn; spawn.Some? ==> !Retrying(spawn.value, t)
  {
    TurnRetries(cfg, db, h, th, c, t);
    assert Look(0);
  }

  lemma StepKeepsUnretried(cfg: Config, s: Sys, l: Label, s': Sys, t: nat)
    requires Invariant(s) && NeverRetried(s, t) && SysStep(cfg, s, l, s') && SparesReports(s, ActionOf(l), t)
    ensures NeverRetried(s', t)
  {
    if l.Step? {
      assert l.id in s.threads && l.child !in s.threads && l.action == Next(cfg, s.db, s.h, s.threads[l.id], l.c).action
             && s' == AfterTurn(s, l.id, l.child, Next(cfg, s.db, s.h, s.threads[l.id], l.c)) by { assert Look(0); }
      var turn := Next(cfg, s.db, s.h, s.threads[l.id], l.c);
      assert ThreadOk(s.db, s.h, s.threads[l.id]) by { assert Look(0); }
      TurnKnowsPermanent(cfg, s.db, s.h, s.threads[l.id], l.c, t);
      SpawnsNoRetry(cfg, s.db, s.h, s.threads[l.id], l.c, t);
      TurnKeepsUnretried(s, l.id, l.child, turn, t);
    } else {
      assert Look(0);
    }
  }

  /** In every run in which the errors recorded for a row are all permanent, and none is removed between
      a report's recording it and its reading it back, the row is never retried automatically: its
      lineage stops there.  Completions and manual retries of the row at any other moment do not matter. */
  lemma {:induction false} PermanentErrorEndsLineage(cfg: Config, ss: seq<Sys>, ls: seq<Label>, n: nat, t: nat)
    requires IsRun(cfg, ss, ls) && n < |ss|
    requires forall i :: 0 <= i < n ==> SparesReports(ss[i], ActionOf(ls[i]), t)
    ensures NeverRetried(ss[n], t) && Retries(ss[n].db.tasks, t) == 0
    ensures forall id :: id in ss[n].threads ==> !(ss[n].threads[id].RetryInsert? && ss[n].threads[id].r.task == t)
  {
    if n > 0 {
      PermanentErrorEndsLineage(cfg, ss, ls, n - 1, t);
      RunInvariant(cfg, ss, ls, n - 1);
      assert SysStep(cfg, ss[n - 1], ls[n - 1], ss[n]);
      StepKeepsUnretried(cfg, ss[n - 1], ls[n - 1], ss[n], t);
    }
  }

  lemma RecordStoresPermanent(cfg: Config, s: Sys, l: Label, s': Sys, r: Result)
    requires Invariant(s) && SysStep(cfg, s, l, s') && l.Step? && l.id in s.threads && s.threads[l.id] == Record(r)
    requires !r.success && PermanentError(r.exit, r.message)
    ensures r.task < |s'.db.tasks| && StoredPermanent(s'.db, r.task)
  {
    assert r.task < |s.db.tasks| && s'.db == FailTask(s.db, r.task, r.exit, r.message) by { assert Look(0); assert ThreadOk(s.db, s.h, Record(r)); }
    FailureStoresPermanent(s.db, r);
  }

  /** The error a report reads back is the permanent one it recorded, in every run in which nothing in
      between removes it or records another one that is not permanent. */
  lemma {:induction false} ReadBackIsPermanent(cfg: Config, ss: seq<Sys>, ls: seq<Label>, m: nat, n: nat, r: Result)
    requires IsRun(cfg, ss, ls) && m < n < |ss| && ls[m].Step? && ls[m].id in ss[m].threads
    requires ss[m].threads[ls[m].id] == Record(r) && !r.success && PermanentError(r.exit, r.message)
    requires forall i :: m < i < n ==> WritesPermanent(ss[i].db, ActionOf(ls[i]), r.task)
    ensures r.task < |ss[n].db.tasks| && StoredPermanent(ss[n].db, r.task)
    decreases n
  {
    if n == m + 1 {
      RunInvariant(cfg, ss, ls, m);
      assert SysStep(cfg, ss[m], ls[m], ss[m + 1]);
      RecordStoresPermanent(cfg, ss[m], ls[m], ss[m + 1], r);
    } else {
      ReadBackIsPermanent(cfg, ss, ls, m, n - 1, r);
      StepOf(cfg, ss, ls, n - 1);
      StoredStaysPermanent(ss[n - 1].db, ActionOf(ls[n - 1]), r.task);
    }
  }

  // ----- and the other way round: a stored error with budget left is retried -----

  lemma FreshId(threads: map<nat, Thread>) returns (id: nat)
    ensures id !in threads
  {
    id := AboveAll(threads.Keys);
  }

  lemma {:induction false} AboveAll(ids: set<nat>) returns (id: nat)
    ensures forall x :: x in ids ==> x < id
  {
    id := 0;
    if ids != {} {
      var x :| x in ids;
      var below := AboveAll(ids - {x});
      id := if below > x then below else x + 1;
      forall y | y in ids ensures y < id { assert y == x || y in ids - {x}; }
    }
  }

  lemma ExtendRun(cfg: Config, ss: seq<Sys>, ls: seq<Label>, l: Label, s: Sys) returns (ss': seq<Sys>, ls': seq<Label>)
    requires IsRun(cfg, ss, ls) && SysStep(cfg, ss[|ss| - 1], l, s)
    ensures IsRun(cfg, ss', ls') && ss' == ss + [s] && ls' == ls + [l]
  {
    ss', ls' := ss + [s], ls + [l];
    forall i | 0 <= i < |ls'| ensures SysStep(cfg, ss'[i], ls'[i], ss'[i + 1]) {
      if i < |ls| { assert SysStep(cfg, ss[i], ls[i], ss[i + 1]); }
    }
  }

  /** A turn of a report that only reads. */
  lemma ReadTurn(cfg: Config, ss: seq<Sys>, ls: seq<Label>, id: nat, c: Choice, next: Thread) returns (ss': seq<Sys>, ls': seq<Label>)
    requires IsRun(cfg, ss, ls) && c.jitter <= 15
    requires id in ss[|ss| - 1].threads && IsReport(ss[|ss| - 1].threads[id])
    requires ReportTurn(ss[|ss| - 1].db, ss[|ss| - 1].threads[id], c) == Do(Nothing, next)
    ensures IsRun(cfg, ss', ls') && ss <= ss' && |ss'| == |ss| + 1
    ensures var s := ss[|ss| - 1]; ss'[|ss|] == s.(threads := s.threads[id := next])
  {
    var s := ss[|ss| - 1];
    var child := FreshId(s.threads);
    var turn := Do(Nothing, next);
    ss', ls' := ExtendRun(cfg, ss, ls, Step(id, child, c, Nothing), AfterTurn(s, id, child, turn));
  }

  /** A report that reads back an error with budget left, in whatever way it came to be stored, goes on
      to retry the row if nothing else happens: so what the theorem above excludes is what has to be
      excluded. */
  lemma ReadBackRetries(cfg: Config, ss: seq<Sys>, ls: seq<Label>, id: nat, c: Choice) returns (ss': seq<Sys>, ls': seq<Label>)
    requires IsRun(cfg, ss, ls) && c.jitter <= 15 && id in ss[|ss| - 1].threads && ss[|ss| - 1].threads[id].RetryRead?
    requires var s := ss[|ss| - 1];
             var r := s.threads[id].r;
             && HasTask(s.db, r.task) && HasJob(s.db, r.job)
             && s.db.tasks[r.task].retryCount
                < RetryBudgetFor(s.db.jobs[r.job], OrZero(s.db.tasks[r.task].exitCode), OrEmpty(s.db.tasks[r.task].errorMsg))
    ensures IsRun(cfg, ss', ls') && ss <= ss' && |ss'| == |ss| + 2
    ensures var s, r := ss[|ss| - 1], ss[|ss| - 1].threads[id].r;
            ss'[|ss'| - 1] == s.(threads := s.threads[id := RetryInsert(r, s.db.tasks[r.task].retryCount)])
  {
    var s := ss[|ss| - 1];
    var r := s.threads[id].r;
    var row := s.db.tasks[r.task];
    var read := RetryJobRead(r, row.retryCount, OrZero(row.exitCode), OrEmpty(row.errorMsg));
    ss', ls' := ReadTurn(cfg, ss, ls, id, c, read);
    ss', ls' := ReadTurn(cfg, ss', ls', id, c, RetryInsert(r, row.retryCount));
    assert s.threads[id := read][id := RetryInsert(r, row.retryCount)] == s.threads[id := RetryInsert(r, row.retryCount)];
  }
}
