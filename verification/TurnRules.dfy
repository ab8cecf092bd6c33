/**
 Who may do what in a turn, in every run: rows are handed out by polls only, by the rules of the claim
 statement; rows are added under free chunk indices; and a check changes no other job than its own and
 those that wait for it.
 */
module TurnRules {
  import opened Basics
  import opened JobRows
  import opened Protocol

  /** The row is due for a retry added at the clock of the turn, or is no retry. */
  ghost predicate AddsByRule(db: Db, c: Choice, row: Task) {
    && !ChunkTaken(db, row.job, row.chunk)
    && (row.parent.Some? ==> exists t: nat, retries: nat :: t < |db.tasks| && row == RetryRow(db, t, retries, c.now, c.jitter))
  }

  predicate ChecksOwnJob(j: nat, a: Action) {
    match a
    case SetStatus(i, _) => i == j
    case CountTasks(i) => i == j
    case Unblock(i) => i == j
    case AddJob(_) => false
    case _ => true
  }

  ghost predicate FollowsRules(db: Db, th: Thread, c: Choice, turn: Turn) {
    forall k :: Look(k) ==>
      && (turn.action.Assign? ==>
            th.PollClaim? && turn.action.agent == th.agent && Eligible(db, turn.action.task, th.tags, c.now))
      && (turn.action.AddTask? ==> AddsByRule(db, c, turn.action.newTask))
      && (IsCheck(th) ==> ChecksOwnJob(th.job, turn.action))
  }

  lemma ReportFollows(db: Db, th: Thread, c: Choice)
    requires IsReport(th)
    ensures FollowsRules(db, th, c, ReportTurn(db, th, c))
  {
    if th.RetryInsert? && HasTask(db, th.r.task) {
      RetryChunkIsFree(db, th.r.task, th.retries, c.now, c.jitter);
      assert ReportTurn(db, th, c).action.newTask == RetryRow(db, th.r.task, th.retries, c.now, c.jitter);
    }
  }

  lemma ConcatListFollows(cfg: Config, db: Db, h: History, th: Thread, c: Choice)
    requires th.ConcatList?
    ensures FollowsRules(db, th, c, CheckTurn(cfg, db, h, th))
  {
  }

  lemma VmafListFollows(cfg: Config, db: Db, h: History, th: Thread, c: Choice)
    requires th.VmafList?
    ensures FollowsRules(db, th, c, CheckTurn(cfg, db, h, th))
  {
  }

  lemma GateFollows(cfg: Config, db: Db, h: History, th: Thread, c: Choice)
    requires th.CheckRead? || th.ConcatSkipCount? || th.VmafSkipCount?
    ensures FollowsRules(db, th, c, CheckTurn(cfg, db, h, th))
  {
  }

  lemma WriteFollows(cfg: Config, db: Db, h: History, th: Thread, c: Choice)
    requires th.Count? || th.ConcatSkip? || th.ConcatClaim? || th.VmafSkip? || th.VmafClaim? || th.Settle? || th.Release?
    ensures FollowsRules(db, th, c, CheckTurn(cfg, db, h, th))
  {
  }

  lemma CheckFollows(cfg: Config, db: Db, h: History, th: Thread, c: Choice)
    requires IsCheck(th)
    ensures FollowsRules(db, th, c, CheckTurn(cfg, db, h, th))
  {
    if th.ConcatList? { ConcatListFollows(cfg, db, h, th, c); }
    else if th.VmafList? { VmafListFollows(cfg, db, h, th, c); }
    else if th.CheckRead? || th.ConcatSkipCount? || th.VmafSkipCount? { GateFollows(cfg, db, h, th, c); }
    else { WriteFollows(cfg, db, h, th, c); }
  }

  lemma RunnerFollows(db: Db, th: Thread, c: Choice)
    requires IsRunner(th)
    ensures FollowsRules(db, th, c, RunnerTurn(th, c))
  {
  }

  lemma PollFollows(db: Db, th: Thread, c: Choice)
    requires IsPoll(th)
    ensures FollowsRules(db, th, c, PollTurn(db, th, c))
  {
  }

  lemma CreateFollows(db: Db, th: Thread, c: Choice)
    requires IsCreate(th)
    ensures FollowsRules(db, th, c, CreateTurn(db, th, c))
  {
  }

  lemma AdminFollows(db: Db, th: Thread, c: Choice)
    requires IsAdmin(th)
    ensures FollowsRules(db, th, c, AdminTurn(db, th))
  {
  }

  lemma ExpandFollows(db: Db, th: Thread, c: Choice)
    requires IsExpand(th)
    ensures FollowsRules(db, th, c, ExpandTurn(db, th, c))
  {
  }

  lemma AnalysisFollows(db: Db, th: Thread, c: Choice)
    requires IsAnalysis(th)
    ensures FollowsRules(db, th, c, AnalysisTurn(db, th, c))
  {
  }

  lemma TurnFollows(cfg: Config, db: Db, h: History, th: Thread, c: Choice)
    ensures FollowsRules(db, th, c, Next(cfg, db, h, th, c))
  {
    if IsReport(th) { ReportFollows(db, th, c); }
    else if IsCheck(th) { CheckFollows(cfg, db, h, th, c); }
    else if IsRunner(th) { RunnerFollows(db, th, c); }
    else if IsPoll(th) { PollFollows(db, th, c); }
    else if IsCreate(th) { CreateFollows(db, th, c); }
    else if IsAdmin(th) { AdminFollows(db, th, c); }
    else if IsExpand(th) { ExpandFollows(db, th, c); }
    else if IsAnalysis(th) { AnalysisFollows(db, th, c); }
  }

  /** The rules, for a step of a run. */
  lemma StepFollows(cfg: Config, s: Sys, l: Label, s': Sys)
    requires SysStep(cfg, s, l, s') && l.Step?
    ensures l.id in s.threads && l.c.jitter <= 15 && s'.db == Apply(s.db, l.action)
    ensures l.action.Assign? ==>
              s.threads[l.id].PollClaim? && l.action.agent == s.threads[l.id].agent
              && Eligible(s.db, l.action.task, s.threads[l.id].tags, l.c.now)
    ensures l.action.AddTask? ==> AddsByRule(s.db, l.c, l.action.newTask)
    ensures IsCheck(s.threads[l.id]) ==> ChecksOwnJob(s.threads[l.id].job, l.action)
  {
    assert Look(0);
    TurnFollows(cfg, s.db, s.h, s.threads[l.id], l.c);
  }

  // ----- in every run -----

  /** Every hand-out is made by a poll, to its agent, of a pending row that is no merge row and is due, of
      a queued or running job that is open to all agents or shares a tag with the agent. */
  lemma HandOutsFollowTags(cfg: Config, ss: seq<Sys>, ls: seq<Label>, i: nat)
    requires IsRun(cfg, ss, ls) && i < |ls| && ActionOf(ls[i]).Assign?
    ensures ls[i].Step? && ls[i].id in ss[i].threads && ss[i].threads[ls[i].id].PollClaim?
    ensures ls[i].action.agent == ss[i].threads[ls[i].id].agent
    ensures MayTake(ss[i].db.jobs, ss[i].db.tasks, ls[i].action.task, ss[i].threads[ls[i].id].tags, ls[i].c.now)
    ensures var tasks, t := ss[i].db.tasks, ls[i].action.task;
            ss[i + 1].db.tasks == tasks[t := tasks[t].(status := Assigned, agent := Some(ls[i].action.agent))]
  {
    assert SysStep(cfg, ss[i], ls[i], ss[i + 1]);
    StepFollows(cfg, ss[i], ls[i], ss[i + 1]);
    EligibleExactly(ss[i].db, ls[i].action.task, ss[i].threads[ls[i].id].tags, ls[i].c.now);
  }

  /** A step of a completion check changes of the other jobs only those that are waiting for its job, and
      only to queued: a cancelled, failed or completed job is never reopened by the check of another. */
  lemma ChecksLeaveOthersAlone(cfg: Config, ss: seq<Sys>, ls: seq<Label>, i: nat, k: nat)
    requires IsRun(cfg, ss, ls) && i < |ls| && ls[i].Step? && ls[i].id in ss[i].threads && IsCheck(ss[i].threads[ls[i].id])
    requires k < |ss[i].db.jobs| && k != ss[i].threads[ls[i].id].job
    ensures |ss[i + 1].db.jobs| == |ss[i].db.jobs|
    ensures ss[i + 1].db.jobs[k] != ss[i].db.jobs[k] ==>
              && ss[i].db.jobs[k].status == Waiting && ss[i].db.jobs[k].dependsOn == Some(ss[i].threads[ls[i].id].job)
              && ss[i + 1].db.jobs[k] == ss[i].db.jobs[k].(status := Queued)
  {
    assert SysStep(cfg, ss[i], ls[i], ss[i + 1]);
    StepFollows(cfg, ss[i], ls[i], ss[i + 1]);
    OwnJobOnly(ss[i].db, ls[i].action, ss[i].threads[ls[i].id].job, k);
  }

  lemma OwnJobOnly(db: Db, a: Action, j: nat, k: nat)
    requires ChecksOwnJob(j, a) && k < |db.jobs| && k != j
    ensures |Apply(db, a).jobs| == |db.jobs|
    ensures Apply(db, a).jobs[k] != db.jobs[k] ==>
              db.jobs[k].status == Waiting && db.jobs[k].dependsOn == Some(j)
              && Apply(db, a).jobs[k] == db.jobs[k].(status := Queued)
  {
  }
}
