/**
 What the rows of a job look like in every run: no two share a chunk index, and the rows of an encode
 job that one expansion adds have the shape the merge theorems speak of.
 */
module RunShapes {
  import opened Basics
  import opened ChainRuns
  import opened Frames
  import opened JobRows
  import opened MergeTheorems
  import opened Protocol
  import opened ProtocolInvariant
  import opened ProtocolSteps
  import opened TurnRules

  // ----- chunk indices -----

  lemma AddKeepsUnique(db: Db, row: Task)
    requires UniqueChunks(db) && !ChunkTaken(db, row.job, row.chunk)
    ensures UniqueChunks(InsertTask(db, row))
  {
    forall t: nat | t < |db.tasks| && db.tasks[t].live ensures db.tasks[t].job != row.job || db.tasks[t].chunk != row.chunk {
      assert RowOf(db.tasks, t, db.tasks[t].job);
    }
  }

  lemma ActionKeepsUnique(db: Db, h: History, a: Action)
    requires UniqueChunks(db) && (a.AddTask? ==> !ChunkTaken(db, a.newTask.job, a.newTask.chunk))
    ensures UniqueChunks(Apply(db, a))
  {
    if a.AddTask? {
      AddKeepsUnique(db, a.newTask);
    } else {
      ActionGrows(db, h, a);
      var d := Apply(db, a);
      assert |d.tasks| == |db.tasks|;
      forall t: nat | t < |db.tasks| ensures SameTask(db.tasks[t], d.tasks[t]) {}
    }
  }

  /** In every state of every run no two rows of a job share a chunk index, so ReorderedDrain applies. */
  lemma {:induction false} ChunksAreUnique(cfg: Config, ss: seq<Sys>, ls: seq<Label>, i: nat)
    requires IsRun(cfg, ss, ls) && i < |ss|
    ensures UniqueChunks(ss[i].db)
  {
    if i > 0 {
      ChunksAreUnique(cfg, ss, ls, i - 1);
      StepOf(cfg, ss, ls, i - 1);
      if ActionOf(ls[i - 1]).AddTask? { StepFollows(cfg, ss[i - 1], ls[i - 1], ss[i]); }
      ActionKeepsUnique(ss[i - 1].db, ss[i - 1].h, ActionOf(ls[i - 1]));
    }
  }

  // ----- the rows of an encode job -----

  /** What expandEncodeJob plans for n chunks: scripts for every chunk row, and for the merge row unless
      the controller runs the merge itself. */
  function EncodePlan(at: Target, n: nat, scripts: bool): (plan: seq<RowPlan>)
    ensures |plan| == n + 1 && plan[n] == RowPlan(n, Concat, FinalPath(at), scripts)
    ensures forall i :: 0 <= i < n ==> plan[i] == RowPlan(i, Encode, ChunkPath(at, i), true)
  {
    seq(n, i requires 0 <= i < n => RowPlan(i, Encode, ChunkPath(at, i), true)) + [RowPlan(n, Concat, FinalPath(at), scripts)]
  }

  /** The rows that thread id added between states b and x. */
  ghost function RowsBy(ss: seq<Sys>, ls: seq<Label>, b: nat, x: nat, id: nat): seq<nat>
    requires b <= x < |ss|
    decreases x
  {
    if x == b then []
    else RowsBy(ss, ls, b, x - 1, id) + if TurnOf(ls, x - 1, id) && ls[x - 1].action.AddTask? then [|ss[x - 1].db.tasks|] else []
  }

  /** Between step b and state x thread id did not die, only it added rows to job j, and none was deleted. */
  ghost predicate OnlyExpander(ls: seq<Label>, b: nat, x: nat, id: nat, j: nat) {
    forall m :: b < m < x && m < |ls| ==>
      && ls[m] != Die(id) && ActionOf(ls[m]) != DeleteRows(j)
      && (ActionOf(ls[m]).AddTask? && ActionOf(ls[m]).newTask.job == j ==> TurnOf(ls, m, id))
  }

  predicate IsPlanned(row: Task, p: RowPlan) { row.chunk == p.chunk && row.kind == p.kind && row.output == p.output }

  /** The rows of job j are exactly `made`, the first rows of the plan. */
  ghost predicate Planned(db: Db, j: nat, plan: seq<RowPlan>, made: seq<nat>) {
    && |made| <= |plan| && OnlyRows(db.tasks, j, made)
    && forall i :: 0 <= i < |made| ==> RowOf(db.tasks, made[i], j) && IsPlanned(db.tasks[made[i]], plan[i])
  }

  /** How far the expansion of job j has got: k rows of the plan are added, or it adds no more. */
  ghost predicate Expanding(th: Thread, j: nat, plan: seq<RowPlan>, k: nat)
    requires k <= |plan|
  {
    forall x :: Look(x) ==>
      || (th == ExpandRead(j, plan) && k == 0)
      || th == ExpandRows(j, plan[k..])
      || (th.ExpandScripts? && th.job == j && th.plan == plan[k..])
      || th.ExpandCount? || th.ExpandQueue? || th.ExpandCleanup? || th.ExpandFail? || th.Done?
  }

  /** The turn adds the next row of the plan, or none. */
  ghost predicate Progresses(turn: Turn, j: nat, plan: seq<RowPlan>, k: nat)
    requires k <= |plan|
  {
    forall x :: Look(x) ==>
      && turn.spawn.None?
      && if turn.action.AddTask?
         then k < |plan| && turn.action.newTask == NewTask(j, plan[k].chunk, plan[k].kind, plan[k].output)
              && Expanding(turn.next, j, plan, k + 1)
         else Expanding(turn.next, j, plan, k)
  }

  lemma ExpandProgress(db: Db, th: Thread, c: Choice, j: nat, plan: seq<RowPlan>, k: nat)
    requires k <= |plan| && IsExpand(th) && Expanding(th, j, plan, k)
    ensures Progresses(ExpandTurn(db, th, c), j, plan, k)
  {
    assert Look(0);
    if th == ExpandRead(j, plan) && k == 0 { assert plan[0..] == plan; }
    if th.ExpandRows? && k < |plan| { assert plan[k..][0] == plan[k] && plan[k..][1..] == plan[k + 1..]; }
  }

  /** Rows are added, and deleted, but never moved to another job or brought back. */
  lemma RowsFollow(db: Db, h: History, a: Action, j: nat, t: nat)
    requires a != DeleteRows(j)
    ensures RowOf(db.tasks, t, j) ==> RowOf(Apply(db, a).tasks, t, j) && SameTask(db.tasks[t], Apply(db, a).tasks[t])
    ensures RowOf(Apply(db, a).tasks, t, j) ==> RowOf(db.tasks, t, j) || (a.AddTask? && a.newTask.job == j && t == |db.tasks|)
  {
    ActionGrows(db, h, a);
    if t < |db.tasks| { assert SameTask(db.tasks[t], Apply(db, a).tasks[t]); }
  }

  lemma PlannedStays(db: Db, h: History, a: Action, j: nat, plan: seq<RowPlan>, made: seq<nat>)
    requires Planned(db, j, plan, made) && a != DeleteRows(j) && !(a.AddTask? && a.newTask.job == j)
    ensures Planned(Apply(db, a), j, plan, made)
  {
    forall t: nat | RowOf(Apply(db, a).tasks, t, j) ensures t in made { RowsFollow(db, h, a, j, t); }
    forall i | 0 <= i < |made|
      ensures RowOf(Apply(db, a).tasks, made[i], j) && IsPlanned(Apply(db, a).tasks[made[i]], plan[i])
    {
      RowsFollow(db, h, a, j, made[i]);
    }
  }

  lemma PlannedGrows(db: Db, j: nat, plan: seq<RowPlan>, made: seq<nat>, row: Task)
    requires Planned(db, j, plan, made) && |made| < |plan|
    requires row == NewTask(j, plan[|made|].chunk, plan[|made|].kind, plan[|made|].output)
    ensures Planned(InsertTask(db, row), j, plan, made + [|db.tasks|])
  {
    var d := InsertTask(db, row);
    forall t: nat | RowOf(d.tasks, t, j) ensures t in made + [|db.tasks|] {
      if t < |db.tasks| { assert RowOf(db.tasks, t, j); }
    }
    forall i | 0 <= i < |made| ensures RowOf(d.tasks, made[i], j) && IsPlanned(d.tasks[made[i]], plan[i]) {
      assert RowOf(db.tasks, made[i], j);
    }
  }

  lemma ExpandNext(cfg: Config, db: Db, h: History, th: Thread, c: Choice, j: nat, plan: seq<RowPlan>, k: nat)
    requires k <= |plan| && IsExpand(th) && Expanding(th, j, plan, k)
    ensures Progresses(Next(cfg, db, h, th, c), j, plan, k)
  {
    ExpandProgress(db, th, c, j, plan, k);
  }

  lemma DoneNext(cfg: Config, db: Db, h: History, c: Choice, j: nat, plan: seq<RowPlan>, k: nat)
    requires k <= |plan|
    ensures Progresses(Next(cfg, db, h, Done, c), j, plan, k)
  {
  }

  /** The tables after a turn of the expansion. */
  lemma TurnPlans(db: Db, h: History, turn: Turn, j: nat, plan: seq<RowPlan>, made: seq<nat>)
    requires Planned(db, j, plan, made) && turn.action != DeleteRows(j) && Progresses(turn, j, plan, |made|)
    ensures var made' := made + if turn.action.AddTask? then [|db.tasks|] else [];
            Planned(Apply(db, turn.action), j, plan, made') && Expanding(turn.next, j, plan, |made'|)
  {
    assert Look(0);
    if turn.action.AddTask? {
      PlannedGrows(db, j, plan, made, turn.action.newTask);
    } else {
      assert made + [] == made;
      PlannedStays(db, h, turn.action, j, plan, made);
    }
  }

  /** A turn of the expansion itself. */
  lemma ExpanderTurn(cfg: Config, s: Sys, l: Label, s': Sys, j: nat, plan: seq<RowPlan>, made: seq<nat>)
    requires SysStep(cfg, s, l, s') && l.Step? && l.id in s.threads && s'.db == Apply(s.db, l.action)
    requires l.action != DeleteRows(j) && Planned(s.db, j, plan, made) && Expanding(s.threads[l.id], j, plan, |made|)
    ensures var made' := made + if l.action.AddTask? then [|s.db.tasks|] else [];
            && Planned(s'.db, j, plan, made') && l.id in s'.threads && Expanding(s'.threads[l.id], j, plan, |made'|)
  {
    var turn := Next(cfg, s.db, s.h, s.threads[l.id], l.c);
    if IsExpand(s.threads[l.id]) {
      ExpandNext(cfg, s.db, s.h, s.threads[l.id], l.c, j, plan, |made|);
    } else {
      assert s.threads[l.id].Done? by { assert Look(0); }
      DoneNext(cfg, s.db, s.h, l.c, j, plan, |made|);
    }
    assert turn.spawn.None? by { assert Look(0); }
    OwnStep(cfg, s, l, s');
    TurnPlans(s.db, s.h, turn, j, plan, made);
  }

  lemma ExpanderStep(cfg: Config, s: Sys, l: Label, s': Sys, id: nat, j: nat, plan: seq<RowPlan>, made: seq<nat>)
    requires SysStep(cfg, s, l, s') && id in s.threads && s'.db == Apply(s.db, ActionOf(l))
    requires l != Die(id) && ActionOf(l) != DeleteRows(j)
    requires ActionOf(l).AddTask? && ActionOf(l).newTask.job == j ==> l.Step? && l.id == id
    requires Planned(s.db, j, plan, made) && Expanding(s.threads[id], j, plan, |made|)
    ensures var made' := made + if l.Step? && l.id == id && l.action.AddTask? then [|s.db.tasks|] else [];
            && Planned(s'.db, j, plan, made') && id in s'.threads && Expanding(s'.threads[id], j, plan, |made'|)
  {
    if l.Step? && l.id == id {
      ExpanderTurn(cfg, s, l, s', j, plan, made);
    } else {
      assert made + [] == made;
      OtherStep(cfg, s, l, s', id);
      PlannedStays(s.db, s.h, ActionOf(l), j, plan, made);
    }
  }

  /** The rows of a job that one expansion adds are the first rows of its plan, however other calls
      interfere. */
  lemma {:induction false} ExpansionRows(cfg: Config, ss: seq<Sys>, ls: seq<Label>, b: nat, x: nat, id: nat, j: nat, plan: seq<RowPlan>)
    requires IsRun(cfg, ss, ls) && b < x < |ss| && ls[b] == Begin(id, ExpandRead(j, plan))
    requires (forall t: nat :: !RowOf(ss[b].db.tasks, t, j)) && OnlyExpander(ls, b, x, id, j)
    ensures Planned(ss[x].db, j, plan, RowsBy(ss, ls, b + 1, x, id))
    ensures id in ss[x].threads && Expanding(ss[x].threads[id], j, plan, |RowsBy(ss, ls, b + 1, x, id)|)
    decreases x
  {
    assert SysStep(cfg, ss[x - 1], ls[x - 1], ss[x]);
    if x == b + 1 {
      assert Look(0);
    } else {
      ExpansionRows(cfg, ss, ls, b, x - 1, id, j, plan);
      StepOf(cfg, ss, ls, x - 1);
      ExpanderStep(cfg, ss[x - 1], ls[x - 1], ss[x], id, j, plan, RowsBy(ss, ls, b + 1, x - 1, id));
    }
  }

  lemma PlannedShape(db: Db, j: nat, at: Target, n: nat, scripts: bool, made: seq<nat>)
    requires Planned(db, j, EncodePlan(at, n, scripts), made)
    ensures (exists t: nat :: RowOf(db.tasks, t, j) && db.tasks[t].kind == Concat) <==> |made| == n + 1
    ensures |made| == n + 1 ==> MergeShape(db.tasks, j, made, at)
  {
    var plan := EncodePlan(at, n, scripts);
    forall i | 0 <= i < |made| ensures RowOf(db.tasks, made[i], j) && (db.tasks[made[i]].kind == Concat <==> i == n) {
      assert IsPlanned(db.tasks[made[i]], plan[i]);
    }
    if t: nat :| RowOf(db.tasks, t, j) && db.tasks[t].kind == Concat {
      var i :| 0 <= i < |made| && made[i] == t;
    }
  }

  /** In every run, a merge of a job whose rows one encode expansion added is given all its chunk files
      in order exactly if every chunk row was completed when they were listed: the shape that
      MergePathsAreAll asks for is there as soon as there is a merge row to merge. */
  lemma MergeOfExpansion(cfg: Config, ss: seq<Sys>, ls: seq<Label>, b: nat, x: nat, id: nat, j: nat, at: Target, n: nat, scripts: bool,
                         task: nat, paths: seq<string>, y: nat)
    requires IsRun(cfg, ss, ls) && b < x < |ss| && ls[b] == Begin(id, ExpandRead(j, EncodePlan(at, n, scripts)))
    requires (forall t: nat :: !RowOf(ss[b].db.tasks, t, j)) && OnlyExpander(ls, b, x, id, j)
    requires MergeGiven(ss, ls, j, task, paths, y, x)
    ensures var made := RowsBy(ss, ls, b + 1, x, id);
            && |made| == n + 1 && MergeShape(ss[x].db.tasks, j, made, at) && task == made[n]
            && (paths == AllPaths(at, n) <==> ChunksDone(ss[x].db.tasks, made))
  {
    var made := RowsBy(ss, ls, b + 1, x, id);
    ExpansionRows(cfg, ss, ls, b, x, id, j, EncodePlan(at, n, scripts));
    PlannedShape(ss[x].db, j, at, n, scripts, made);
    ListByJobSound(ss[x].db.tasks, j);
    assert RowOf(ss[x].db.tasks, task, j) && ss[x].db.tasks[task].kind == Concat;
    MergePathsAreAll(ss, ls, j, task, paths, y, x, made, at);
  }
}
