/**
 The calls of the API, the polls, the expansions and the ends of the runners, as the protocol's
 threads run without interference: what each of them leaves in the tables.
 */
module SoloCalls {
  import opened Basics
  import opened JobRows
  import opened Protocol
  import opened ResultHandling
  import opened SoloRuns
  import opened JobsApi

  // ----- turns -----

  /** The thread takes this turn, whatever the environment chooses. */
  ghost predicate Takes(cfg: Config, s: Solo, turn: Turn) {
    forall k, c :: Look(k) ==> Next(cfg, s.db, s.h, s.th, c) == turn
  }

  /** The thread takes this turn if the environment chooses c. */
  ghost predicate TakesFor(cfg: Config, s: Solo, c: Choice, turn: Turn) {
    forall k :: Look(k) ==> Next(cfg, s.db, s.h, s.th, c) == turn
  }

  /** After n + 1 turns, the first of them with choice c, the thread is done with the outcome. */
  ghost predicate EndsFor(cfg: Config, s: Solo, c: Choice, j: nat, o: Outcome, n: nat) {
    forall k, cs: seq<Choice> :: Look(k) && |cs| == n + 1 && cs[0] == c ==> EndsWith(TakeTurns(cfg, s, cs), j, o)
  }

  lemma EndsAfterAny(cfg: Config, s: Solo, j: nat, o: Outcome, n: nat, turn: Turn)
    requires Takes(cfg, s, turn) && EndsIn(cfg, After(s, turn), j, o, n)
    ensures EndsIn(cfg, s, j, o, n + 1)
  {
    forall cs: seq<Choice> | |cs| == n + 1 ensures EndsWith(TakeTurns(cfg, s, cs), j, o) {
      assert Look(0);
      assert |cs[1..]| == n && Next(cfg, s.db, s.h, s.th, cs[0]) == turn;
    }
  }

  lemma EndsAfterChoice(cfg: Config, s: Solo, c: Choice, j: nat, o: Outcome, n: nat, turn: Turn)
    requires TakesFor(cfg, s, c, turn) && EndsIn(cfg, After(s, turn), j, o, n)
    ensures EndsFor(cfg, s, c, j, o, n)
  {
    forall cs: seq<Choice> | |cs| == n + 1 && cs[0] == c ensures EndsWith(TakeTurns(cfg, s, cs), j, o) {
      assert Look(0);
      assert |cs[1..]| == n && Next(cfg, s.db, s.h, s.th, cs[0]) == turn;
    }
  }

  /** The last turn of a thread. */
  lemma LastTurn(cfg: Config, s: Solo, j: nat, action: Action)
    requires Takes(cfg, s, Do(action, Done)) && s.spawned == []
    ensures EndsIn(cfg, s, j, Outcome(Apply(s.db, action), None), 1)
  {
    EndsAtOnce(cfg, After(s, Do(action, Done)), j, Outcome(Apply(s.db, action), None));
    EndsAfterAny(cfg, s, j, Outcome(Apply(s.db, action), None), 0, Do(action, Done));
  }

  /** A turn before the last one. */
  lemma LastTwoTurns(cfg: Config, s: Solo, j: nat, action: Action, next: Thread, last: Action)
    requires Takes(cfg, s, Do(action, next)) && Takes(cfg, After(s, Do(action, next)), Do(last, Done)) && s.spawned == []
    ensures EndsIn(cfg, s, j, Outcome(Apply(Apply(s.db, action), last), None), 2)
  {
    LastTurn(cfg, After(s, Do(action, next)), j, last);
    EndsAfterAny(cfg, s, j, Outcome(Apply(Apply(s.db, action), last), None), 1, Do(action, next));
  }

  // ----- the API -----

  lemma AdminTakes(cfg: Config, s: Solo)
    requires IsAdmin(s.th)
    ensures Takes(cfg, s, AdminTurn(s.db, s.th))
  {
    forall c ensures Next(cfg, s.db, s.h, s.th, c) == AdminTurn(s.db, s.th) {}
  }

  lemma CancelEnds(cfg: Config, s: Solo, j: nat)
    requires s.th == CancelSet(j) && s.spawned == []
    ensures EndsIn(cfg, s, j, Outcome(AfterCancel(s.db, j), None), 2)
  {
    AdminTakes(cfg, s);
    AdminTakes(cfg, After(s, Do(SetStatus(j, Cancelled), CancelTasks(j))));
    LastTwoTurns(cfg, s, j, SetStatus(j, Cancelled), CancelTasks(j), CancelRows(j));
  }

  /** The thread of a cancellation leaves the tables of CancelJob. */
  lemma CancelRunsAlone(cfg: Config, db: Db, h: History, j: nat) returns (n: nat)
    ensures var ok := j < |db.jobs| && db.jobs[j].status != Cancelled && db.jobs[j].status != Completed;
            EndsIn(cfg, Solo(db, h, CancelRead(j), []), j, Outcome(if ok then AfterCancel(db, j) else db, None), n)
  {
    var s := Solo(db, h, CancelRead(j), []);
    AdminTakes(cfg, s);
    if CanCancel(db, j) {
      CancelEnds(cfg, After(s, Do(Nothing, CancelSet(j))), j);
      EndsAfterAny(cfg, s, j, Outcome(AfterCancel(db, j), None), 2, Do(Nothing, CancelSet(j)));
      n := 3;
    } else {
      LastTurn(cfg, s, j, Nothing);
      n := 1;
    }
  }

  lemma RetryEnds(cfg: Config, s: Solo, j: nat)
    requires s.th == RetryTasks(j) && s.spawned == []
    ensures EndsIn(cfg, s, j, Outcome(SetJobStatus(RetryFailedTasks(s.db, j), j, Queued), None), 2)
  {
    AdminTakes(cfg, s);
    AdminTakes(cfg, After(s, Do(RetryRows(j), RetryQueue(j))));
    LastTwoTurns(cfg, s, j, RetryRows(j), RetryQueue(j), SetStatus(j, Queued));
  }

  /** The thread of a manual retry leaves the tables of RetryJob. */
  lemma RetryRunsAlone(cfg: Config, db: Db, h: History, j: nat) returns (n: nat)
    ensures var ok := j < |db.jobs| && db.jobs[j].status == Failed;
            var d := if ok then SetJobStatus(RetryFailedTasks(db, j), j, Queued) else db;
            EndsIn(cfg, Solo(db, h, RetryGate(j), []), j, Outcome(d, None), n)
  {
    var s := Solo(db, h, RetryGate(j), []);
    AdminTakes(cfg, s);
    if CanRetry(db, j) {
      RetryEnds(cfg, After(s, Do(Nothing, RetryTasks(j))), j);
      EndsAfterAny(cfg, s, j, Outcome(SetJobStatus(RetryFailedTasks(db, j), j, Queued), None), 2, Do(Nothing, RetryTasks(j)));
      n := 3;
    } else {
      LastTurn(cfg, s, j, Nothing);
      n := 1;
    }
  }

  /** The row is pending again, without an agent. */
  function PutBack(db: Db, t: nat): Db
    requires t < |db.tasks|
  {
    db.(tasks := db.tasks[t := db.tasks[t].(status := Pending, agent := None)])
  }

  /** The thread of a preemption puts an assigned or running row back, and no other. */
  lemma PreemptRunsAlone(cfg: Config, db: Db, h: History, t: nat)
    ensures var ok := t < |db.tasks| && db.tasks[t].live && (db.tasks[t].status == Assigned || db.tasks[t].status == Running);
            EndsIn(cfg, Solo(db, h, Preempt(t), []), 0, Outcome(if ok then PutBack(db, t) else db, None), 1)
  {
    AdminTakes(cfg, Solo(db, h, Preempt(t), []));
    LastTurn(cfg, Solo(db, h, Preempt(t), []), 0, if Preemptible(db, t) then Requeue(t) else Nothing);
  }

  lemma ResetTakes(cfg: Config, s: Solo, t: nat, j: nat)
    requires s.th == Reset(t, j) && HasTask(s.db, t)
    ensures Takes(cfg, s, Do(Requeue(t), ResetCount(j))) && Takes(cfg, After(s, Do(Requeue(t), ResetCount(j))), Do(CountTasks(j), Done))
  {
    AdminTakes(cfg, s);
    AdminTakes(cfg, After(s, Do(Requeue(t), ResetCount(j))));
  }

  lemma ResetLeaves(db: Db, t: nat, j: nat)
    requires HasTask(db, t)
    ensures Apply(Apply(db, Requeue(t)), CountTasks(j)) == Recount(PutBack(db, t), j)
  {
  }

  lemma ResetEnds(cfg: Config, s: Solo, t: nat, j: nat)
    requires s.th == Reset(t, j) && s.spawned == [] && HasTask(s.db, t)
    ensures EndsIn(cfg, s, 0, Outcome(Recount(PutBack(s.db, t), j), None), 2)
  {
    ResetTakes(cfg, s, t, j);
    ResetLeaves(s.db, t, j);
    LastTwoTurns(cfg, s, 0, Requeue(t), ResetCount(j), CountTasks(j));
  }

  /** The thread of a reset puts back a row that is neither completed nor failed, and recounts its job. */
  lemma ResetRunsAlone(cfg: Config, db: Db, h: History, t: nat) returns (n: nat)
    ensures var ok := t < |db.tasks| && db.tasks[t].live && db.tasks[t].status != Completed && db.tasks[t].status != Failed;
            EndsIn(cfg, Solo(db, h, ResetRead(t), []), 0, Outcome(if ok then Recount(PutBack(db, t), db.tasks[t].job) else db, None), n)
  {
    var s := Solo(db, h, ResetRead(t), []);
    AdminTakes(cfg, s);
    if HasTask(db, t) && db.tasks[t].status != Completed && db.tasks[t].status != Failed {
      var j := db.tasks[t].job;
      ResetEnds(cfg, After(s, Do(Nothing, Reset(t, j))), t, j);
      EndsAfterAny(cfg, s, 0, Outcome(Recount(PutBack(db, t), j), None), 2, Do(Nothing, Reset(t, j)));
      n := 3;
    } else {
      LastTurn(cfg, s, 0, Nothing);
      n := 1;
    }
  }

  // ----- the ends of the runners -----

  lemma FinishTakes(cfg: Config, s: Solo, j: nat, t: nat, ok: bool)
    requires s.th == FinishRun(j, t, ok)
    ensures Takes(cfg, s, Do(if ok then Finish(t, 0) else Fault(t, 1, "runner failed"), Count(j)))
  {
    forall c ensures Next(cfg, s.db, s.h, s.th, c) == RunnerTurn(s.th, c) {}
  }

  /** The end of a runner leaves its row completed with exit code 0, or failed with exit code 1, and then
      the tables of a recounted check. */
  lemma FinishRunsAlone(cfg: Config, db: Db, h: History, j: nat, t: nat, ok: bool) returns (n: nat)
    ensures var d := if ok then CompleteTask(db, t, 0) else FailTask(db, t, 1, "runner failed");
            EndsIn(cfg, Solo(db, h, FinishRun(j, t, ok), []), j, RecountedCheck(cfg, d, j), n)
  {
    var s, turn := Solo(db, h, FinishRun(j, t, ok), []), Do(if ok then Finish(t, 0) else Fault(t, 1, "runner failed"), Count(j));
    var d := After(s, turn).db;
    FinishTakes(cfg, s, j, t, ok);
    n := CheckRunsAlone(cfg, d, h, j);
    EndsAfterAny(cfg, s, j, RecountedCheck(cfg, d, j), n, turn);
    n := n + 1;
  }

  lemma RunTakes(cfg: Config, s: Solo, c: Choice)
    requires s.th.RunConcat? || s.th.RunVmaf?
    ensures TakesFor(cfg, s, c, Do(StartRunner(s.th.serial), FinishRun(s.th.job, s.th.task, c.ok)))
  {
    assert Next(cfg, s.db, s.h, s.th, c) == RunnerTurn(s.th, c);
  }

  /** A runner ends in this way whether it merges or searches, and however it comes out. */
  lemma RunnerRunsAlone(cfg: Config, db: Db, h: History, th: Thread, c: Choice) returns (n: nat)
    requires th.RunConcat? || th.RunVmaf?
    ensures var d := if c.ok then CompleteTask(db, th.task, 0) else FailTask(db, th.task, 1, "runner failed");
            EndsFor(cfg, Solo(db, h, th, []), c, th.job, RecountedCheck(cfg, d, th.job), n)
  {
    var h' := Remember(db, h, StartRunner(th.serial));
    n := FinishRunsAlone(cfg, db, h', th.job, th.task, c.ok);
    var d := if c.ok then CompleteTask(db, th.task, 0) else FailTask(db, th.task, 1, "runner failed");
    StartEnds(cfg, db, h, th, c, RecountedCheck(cfg, d, th.job), n);
  }

  lemma StartEnds(cfg: Config, db: Db, h: History, th: Thread, c: Choice, o: Outcome, n: nat)
    requires th.RunConcat? || th.RunVmaf?
    requires EndsIn(cfg, Solo(db, Remember(db, h, StartRunner(th.serial)), FinishRun(th.job, th.task, c.ok), []), th.job, o, n)
    ensures EndsFor(cfg, Solo(db, h, th, []), c, th.job, o, n)
  {
    var s := Solo(db, h, th, []);
    RunTakes(cfg, s, c);
    EndsAfterChoice(cfg, s, c, th.job, o, n, Do(StartRunner(th.serial), FinishRun(th.job, th.task, c.ok)));
  }

  // ----- polls -----

  lemma PollTakes(cfg: Config, s: Solo, turn: Turn)
    requires IsPoll(s.th) && !s.th.PollClaim?
    requires forall c :: PollTurn(s.db, s.th, c) == turn
    ensures Takes(cfg, s, turn)
  {
    forall c ensures Next(cfg, s.db, s.h, s.th, c) == PollTurn(s.db, s.th, c) {}
  }

  /** A job that is assigned is set running. */
  function Started(db: Db, j: nat): Db {
    if j < |db.jobs| && db.jobs[j].status == Assigned then db.(jobs := db.jobs[j := db.jobs[j].(status := Running)]) else db
  }

  lemma PollReadEnds(cfg: Config, s: Solo, j: nat) returns (n: nat)
    requires s.th == PollRead(j) && s.spawned == []
    ensures EndsIn(cfg, s, j, Outcome(Started(s.db, j), None), n)
  {
    if HasJob(s.db, j) && s.db.jobs[j].status == Assigned {
      PollTakes(cfg, s, Do(Nothing, PollRun(j)));
      PollTakes(cfg, After(s, Do(Nothing, PollRun(j))), Do(SetStatus(j, Running), Done));
      LastTwoTurns(cfg, s, j, Nothing, PollRun(j), SetStatus(j, Running));
      n := 2;
    } else {
      PollTakes(cfg, s, Stop());
      LastTurn(cfg, s, j, Nothing);
      n := 1;
    }
  }

  lemma PollCountTakes(cfg: Config, s: Solo, j: nat) returns (s1: Solo)
    requires s.th == PollCount(j)
    ensures Takes(cfg, s, Do(CountTasks(j), PollRead(j))) && s1 == After(s, Do(CountTasks(j), PollRead(j)))
    ensures s1.th == PollRead(j) && s1.db == Recount(s.db, j) && s1.spawned == s.spawned
  {
    PollTakes(cfg, s, Do(CountTasks(j), PollRead(j)));
    s1 := After(s, Do(CountTasks(j), PollRead(j)));
  }

  lemma PollCountEnds(cfg: Config, s: Solo, j: nat, d: Db) returns (n: nat)
    requires s.th == PollCount(j) && s.spawned == [] && d == Recount(s.db, j)
    ensures EndsIn(cfg, s, j, Outcome(Started(d, j), None), n)
  {
    var s1 := PollCountTakes(cfg, s, j);
    n := PollReadEnds(cfg, s1, j);
    EndsAfterAny(cfg, s, j, Outcome(Started(d, j), None), n, Do(CountTasks(j), PollRead(j)));
    n := n + 1;
  }

  lemma PickTakes(cfg: Config, s: Solo, agent: nat, tags: set<string>, c: Choice)
    requires s.th == PollClaim(agent, tags)
    ensures TakesFor(cfg, s, c, if MayTake(s.db.jobs, s.db.tasks, c.pick, tags, c.now)
                                then Do(Assign(c.pick, agent), PollCount(s.db.tasks[c.pick].job)) else Stop())
  {
    EligibleExactly(s.db, c.pick, tags, c.now);
    assert Next(cfg, s.db, s.h, s.th, c) == PollTurn(s.db, s.th, c);
  }

  lemma HandedEnds(cfg: Config, s: Solo, agent: nat, c: Choice, j: nat, d: Db) returns (n: nat)
    requires s.th.PollClaim? && s.spawned == [] && HasTask(s.db, c.pick) && d == Recount(AssignTask(s.db, c.pick, agent), j)
    requires TakesFor(cfg, s, c, Do(Assign(c.pick, agent), PollCount(j)))
    ensures EndsFor(cfg, s, c, j, Outcome(Started(d, j), None), n)
  {
    n := PollCountEnds(cfg, After(s, Do(Assign(c.pick, agent), PollCount(j))), j, d);
    EndsAfterChoice(cfg, s, c, j, Outcome(Started(d, j), None), n, Do(Assign(c.pick, agent), PollCount(j)));
  }

  /** The thread of a poll, in whose first turn the database picks a row, leaves the tables of PollTask for
      that row, and unchanged tables if the agent may not take it. */
  lemma PollRunsAlone(cfg: Config, db: Db, h: History, agent: nat, tags: set<string>, c: Choice) returns (j: nat, n: nat)
    ensures var d := if !MayTake(db.jobs, db.tasks, c.pick, tags, c.now) then db
                     else Started(Recount(AssignTask(db, c.pick, agent), db.tasks[c.pick].job), db.tasks[c.pick].job);
            EndsFor(cfg, Solo(db, h, PollClaim(agent, tags), []), c, j, Outcome(d, None), n)
  {
    var s := Solo(db, h, PollClaim(agent, tags), []);
    PickTakes(cfg, s, agent, tags, c);
    if MayTake(db.jobs, db.tasks, c.pick, tags, c.now) {
      j := db.tasks[c.pick].job;
      n := HandedEnds(cfg, s, agent, c, j, Recount(AssignTask(db, c.pick, agent), j));
    } else {
      j, n := 0, 0;
      EndsAtOnce(cfg, After(s, Stop()), j, Outcome(db, None));
      EndsAfterChoice(cfg, s, c, j, Outcome(db, None), n, Stop());
    }
  }

  /** The thread of a progress update sets an existing row running, whatever its status. */
  lemma ProgressRunsAlone(cfg: Config, db: Db, h: History, t: nat)
    ensures var d := if t < |db.tasks| && db.tasks[t].live then db.(tasks := db.tasks[t := db.tasks[t].(status := Running)]) else db;
            EndsIn(cfg, Solo(db, h, Progress(t), []), 0, Outcome(d, None), 1)
  {
    var s := Solo(db, h, Progress(t), []);
    PollTakes(cfg, s, Do(Progressed(t), Done));
    LastTurn(cfg, s, 0, Progressed(t));
  }

  // ----- creations -----

  lemma CreateTakes(cfg: Config, s: Solo, c: Choice, turn: Turn)
    requires IsCreate(s.th) && CreateTurn(s.db, s.th, c) == turn
    ensures TakesFor(cfg, s, c, turn)
    ensures s.th.CreateInsert? ==> Takes(cfg, s, turn)
  {
    forall e: Choice ensures Next(cfg, s.db, s.h, s.th, e) == CreateTurn(s.db, s.th, e) {}
  }

  /** The job a creation adds: it waits exactly if the status of its predecessor was read and was not
      completed. */
  function CreatedJob(db: Db, spec: JobSpec, queryOk: bool): Job
    requires spec.dependsOn.Some? ==> spec.dependsOn.value < |db.jobs|
  {
    var read := spec.dependsOn.Some? && queryOk;
    var status := if read && db.jobs[spec.dependsOn.value].status != Completed then Waiting else Queued;
    Job(status, spec.priority, spec.tags, spec.maxRetries, spec.dependsOn, read, ZERO)
  }

  /** The thread of a creation, in whose first turn the predecessor is looked up, adds that job, and none
      if there is no such predecessor. */
  lemma CreateRunsAlone(cfg: Config, db: Db, h: History, spec: JobSpec, c: Choice)
    ensures var d := if spec.dependsOn.Some? && spec.dependsOn.value >= |db.jobs| then db
                     else db.(jobs := db.jobs + [CreatedJob(db, spec, c.ok)]);
            EndsFor(cfg, Solo(db, h, CreateCheck(spec, []), []), c, 0, Outcome(d, None), 1)
  {
    var s, seen := Solo(db, h, CreateCheck(spec, []), []), LookAtDependency(db, spec, c.ok);
    var turn := Do(Nothing, CreateInsert(spec, seen, []));
    var s1 := After(s, turn);
    var action := if spec.dependsOn.Some? && !HasJob(db, spec.dependsOn.value) then Nothing else AddJob(NewJob(spec, seen));
    CreateTakes(cfg, s, c, turn);
    CreateTakes(cfg, s1, c, Do(action, Done));
    LastTurn(cfg, s1, 0, action);
    EndsAfterChoice(cfg, s, c, 0, Outcome(Apply(db, action), None), 1, turn);
  }

  // ----- expansions -----

  lemma ExpandTakes(cfg: Config, s: Solo, turn: Turn)
    requires IsExpand(s.th) && forall c :: ExpandTurn(s.db, s.th, c) == turn
    ensures Takes(cfg, s, turn)
  {
    forall c ensures Next(cfg, s.db, s.h, s.th, c) == ExpandTurn(s.db, s.th, c) {}
  }

  lemma FailedRowEnds(cfg: Config, s: Solo, j: nat, kind: Kind) returns (n: nat)
    requires s.th == FailedRow(j, kind) && s.spawned == []
    ensures EndsIn(cfg, s, j, Outcome(SetJobStatus(if kind == Concat then s.db else DeleteTasks(s.db, j), j, Failed), None), n)
  {
    if kind == Concat {
      ExpandTakes(cfg, s, Do(SetStatus(j, Failed), Done));
      LastTurn(cfg, s, j, SetStatus(j, Failed));
      n := 1;
    } else {
      ExpandTakes(cfg, s, Do(DeleteRows(j), ExpandFail(j)));
      ExpandTakes(cfg, After(s, Do(DeleteRows(j), ExpandFail(j))), Do(SetStatus(j, Failed), Done));
      LastTwoTurns(cfg, s, j, DeleteRows(j), ExpandFail(j), SetStatus(j, Failed));
      n := 2;
    }
  }

  /** The environment, or a taken chunk index, fails the next row of an expansion or its scripts. */
  predicate RowFails(db: Db, th: Thread, c: Choice) {
    (th.ExpandRows? && th.plan != [] && (!c.ok || ChunkTaken(db, th.job, th.plan[0].chunk))) || (th.ExpandScripts? && !c.ok)
  }

  lemma RowFailsTakes(cfg: Config, s: Solo, c: Choice)
    requires RowFails(s.db, s.th, c)
    ensures TakesFor(cfg, s, c, Do(Nothing, FailedRow(s.th.job, if s.th.ExpandRows? then s.th.plan[0].kind else s.th.kind)))
  {
    assert Next(cfg, s.db, s.h, s.th, c) == ExpandTurn(s.db, s.th, c);
  }

  /** When a row cannot be added, or its scripts not rendered, the thread of an expansion fails the job,
      and first deletes its rows unless that was the merge row. */
  lemma FailedExpansionRunsAlone(cfg: Config, db: Db, h: History, th: Thread, c: Choice) returns (n: nat)
    requires RowFails(db, th, c)
    ensures var kind := if th.ExpandRows? then th.plan[0].kind else th.kind;
            var d := SetJobStatus(if kind == Concat then db else DeleteTasks(db, th.job), th.job, Failed);
            EndsFor(cfg, Solo(db, h, th, []), c, th.job, Outcome(d, None), n)
  {
    var s, j, kind := Solo(db, h, th, []), th.job, if th.ExpandRows? then th.plan[0].kind else th.kind;
    var turn := Do(Nothing, FailedRow(j, kind));
    RowFailsTakes(cfg, s, c);
    n := FailedRowEnds(cfg, After(s, turn), j, kind);
    EndsAfterChoice(cfg, s, c, j, Outcome(SetJobStatus(if kind == Concat then db else DeleteTasks(db, j), j, Failed), None), n, turn);
  }

  /** After the last row the thread of an expansion recounts and queues the job. */
  lemma ExpansionEndsAlone(cfg: Config, db: Db, h: History, j: nat)
    ensures EndsIn(cfg, Solo(db, h, ExpandRows(j, []), []), j, Outcome(SetJobStatus(Recount(db, j), j, Queued), None), 3)
  {
    var s := Solo(db, h, ExpandRows(j, []), []);
    var s1 := After(s, Do(Nothing, ExpandCount(j)));
    ExpandTakes(cfg, s, Do(Nothing, ExpandCount(j)));
    ExpandTakes(cfg, s1, Do(CountTasks(j), ExpandQueue(j)));
    ExpandTakes(cfg, After(s1, Do(CountTasks(j), ExpandQueue(j))), Do(SetStatus(j, Queued), Done));
    LastTwoTurns(cfg, s1, j, CountTasks(j), ExpandQueue(j), SetStatus(j, Queued));
    EndsAfterAny(cfg, s, j, Outcome(SetJobStatus(Recount(db, j), j, Queued), None), 2, Do(Nothing, ExpandCount(j)));
  }

  // ----- analyses on the controller -----

  lemma AnalysisTakes(cfg: Config, s: Solo, c: Choice, turn: Turn)
    requires IsAnalysis(s.th) && AnalysisTurn(s.db, s.th, c) == turn
    ensures TakesFor(cfg, s, c, turn)
    ensures !s.th.AnalysisRun? ==> Takes(cfg, s, turn)
  {
    forall e: Choice ensures Next(cfg, s.db, s.h, s.th, e) == AnalysisTurn(s.db, s.th, e) {}
  }

  lemma ReleaseTakes(cfg: Config, s: Solo, j: nat)
    requires s.th == Release(j)
    ensures Takes(cfg, s, Do(Unblock(j), Done))
  {
    forall c ensures Next(cfg, s.db, s.h, s.th, c) == CheckTurn(cfg, s.db, s.h, s.th) {}
  }

  /** An analysis is started exactly for a queued job without rows; starting it sets the job running. */
  lemma AnalysisStartsAlone(cfg: Config, db: Db, h: History, j: nat)
    ensures var s := Solo(db, h, AnalysisRead(j), []);
            if j < |db.jobs| && db.jobs[j].status == Queued && db.jobs[j].counts.total == 0
            then Takes(cfg, s, Do(Nothing, AnalysisStart(j)))
                 && Takes(cfg, s.(th := AnalysisStart(j)), Turn(SetStatus(j, Running), Done, Some(AnalysisRun(j))))
            else EndsIn(cfg, s, j, Outcome(db, None), 1)
  {
    var s, c := Solo(db, h, AnalysisRead(j), []), Choice(0, 0, 0, true);
    if NeedsExpansion(db, j) {
      AnalysisTakes(cfg, s, c, Do(Nothing, AnalysisStart(j)));
      AnalysisTakes(cfg, s.(th := AnalysisStart(j)), c, Turn(SetStatus(j, Running), Done, Some(AnalysisRun(j))));
    } else {
      AnalysisTakes(cfg, s, c, Stop());
      LastTurn(cfg, s, j, Nothing);
    }
  }

  /** The end of an analysis completes the job and queues the jobs waiting for it, or fails it. */
  lemma AnalysisEndsAlone(cfg: Config, db: Db, h: History, j: nat, c: Choice) returns (n: nat)
    ensures var d := if c.ok then UnblockDependents(SetJobStatus(db, j, Completed), j) else SetJobStatus(db, j, Failed);
            EndsFor(cfg, Solo(db, h, AnalysisRun(j), []), c, j, Outcome(d, None), n)
  {
    var s := Solo(db, h, AnalysisRun(j), []);
    if c.ok {
      var turn, last := Do(Nothing, AnalysisDone(j)), Do(SetStatus(j, Completed), Release(j));
      var s1 := After(s, turn);
      AnalysisTakes(cfg, s, c, turn);
      AnalysisTakes(cfg, s1, c, last);
      ReleaseTakes(cfg, After(s1, last), j);
      LastTwoTurns(cfg, s1, j, SetStatus(j, Completed), Release(j), Unblock(j));
      n := 2;
      EndsAfterChoice(cfg, s, c, j, Outcome(UnblockDependents(SetJobStatus(db, j, Completed), j), None), n, turn);
    } else {
      var turn := Do(SetStatus(j, Failed), Done);
      AnalysisTakes(cfg, s, c, turn);
      n := 0;
      EndsAtOnce(cfg, After(s, turn), j, Outcome(SetJobStatus(db, j, Failed), None));
      EndsAfterChoice(cfg, s, c, j, Outcome(SetJobStatus(db, j, Failed), None), n, turn);
    }
  }
}
