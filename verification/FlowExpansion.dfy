/**
 Expanding a flow job: the walk of the flow graph turned into task rows.
 */
module FlowExpansion {
  import opened Basics
  import opened Digraph
  import opened FlowGraph
  import opened FlowExecute
  import opened JobRows
  import opened Store
  import Protocol

  /** The rows a step becomes: none for webhooks and conditions, two for two-pass encodes. */
  function RowKinds(nodeKind: string): seq<Kind> {
    if nodeKind == "notify_webhook" || nodeKind == "webhook" || nodeKind == "condition" then []
    else if nodeKind == "encode_twopass" || nodeKind == "encode_twopass_x264" then [Plain, Plain]
    else if nodeKind == "encode_vmaf_target" then [VmafTarget]
    else [Encode]
  }

  /** The rows of all steps, by chunk index. */
  function Plan(steps: seq<TaskStep>): seq<Kind> {
    if steps == [] then [] else Plan(steps[..|steps| - 1]) + RowKinds(steps[|steps| - 1].nodeKind)
  }

  /** The rows of a plan, under chunk indices from 0 on. */
  function PlanRows(j: nat, plan: seq<Kind>): (rows: seq<Task>)
    ensures |rows| == |plan| && forall i :: 0 <= i < |plan| ==> rows[i] == NewTask(j, i, plan[i], "")
  {
    seq(|plan|, i requires 0 <= i < |plan| => NewTask(j, i, plan[i], ""))
  }

  /** The tables with the rows of a plan added. */
  function WithRows(db: Db, j: nat, plan: seq<Kind>): Db { db.(tasks := db.tasks + PlanRows(j, plan)) }

  lemma WithRowsAppend(db: Db, j: nat, plan: seq<Kind>, kind: Kind)
    ensures WithRows(db, j, plan + [kind]) == InsertTask(WithRows(db, j, plan), NewTask(j, |plan|, kind, ""))
  {
    assert PlanRows(j, plan + [kind]) == PlanRows(j, plan) + [NewTask(j, |plan|, kind, "")];
  }

  lemma PlanAppend(steps: seq<TaskStep>, k: nat)
    requires k < |steps|
    ensures Plan(steps[..k + 1]) == Plan(steps[..k]) + RowKinds(steps[k].nodeKind)
  {
    assert steps[..k + 1][..k] == steps[..k];
  }

  datatype Expansion = FlowFailed(why: Outcome) | RolledBack(steps: seq<TaskStep>) | Expanded(steps: seq<TaskStep>)

  lemma RowsOfPlan(db: Db, j: nat, plan: seq<Kind>)
    ensures var d := WithRows(db, j, plan);
            && d.jobs == db.jobs && |d.tasks| == |db.tasks| + |plan|
            && (forall t :: 0 <= t < |db.tasks| ==> d.tasks[t] == db.tasks[t])
            && (forall i :: 0 <= i < |plan| ==> d.tasks[|db.tasks| + i] == NewTask(j, i, plan[i], ""))
  {
  }

  /** The row with chunk index i cannot be added; `fails` are the indices whose insert fails. */
  predicate InsertFails(db: Db, j: nat, fails: set<nat>, i: nat) {
    i in fails || ChunkTaken(db, j, i)
  }

  lemma TakenByOldRow(db: Db, j: nat, plan: seq<Kind>)
    ensures ChunkTaken(WithRows(db, j, plan), j, |plan|) == ChunkTaken(db, j, |plan|)
  {
    var d, n := WithRows(db, j, plan), |plan|;
    RowsOfPlan(db, j, plan);
    forall t: nat | |db.tasks| <= t < |d.tasks| ensures d.tasks[t].chunk < n {
      assert d.tasks[|db.tasks| + (t - |db.tasks|)] == NewTask(j, t - |db.tasks|, plan[t - |db.tasks|], "");
    }
    if ChunkTaken(db, j, n) {
      var t :| 0 <= t < |db.tasks| && RowOf(db.tasks, t, j) && db.tasks[t].chunk == n;
      assert RowOf(d.tasks, t, j);
    }
    if ChunkTaken(d, j, n) {
      var t :| 0 <= t < |d.tasks| && RowOf(d.tasks, t, j) && d.tasks[t].chunk == n;
      assert RowOf(db.tasks, t, j);
    }
  }

  /** One CreateTask of the expansion. */
  method AddRow(store: JobStore, ghost db: Db, j: nat, ghost plan: seq<Kind>, index: nat, kind: Kind, fails: set<nat>)
    returns (created: bool)
    requires store.Now() == WithRows(db, j, plan) && index == |plan|
    modifies store
    ensures created == !InsertFails(db, j, fails, index)
    ensures store.Now() == WithRows(db, j, if created then plan + [kind] else plan)
  {
    WithRowsAppend(db, j, plan, kind);
    TakenByOldRow(db, j, plan);
    created := store.CreateTask(j, index, kind, "", index !in fails);
  }

  ghost predicate Becomes(kind: string, rows: seq<Kind>) {
    forall k :: Look(k) ==> rows == RowKinds(kind)
  }

  /** The switch over the node type: whether a step makes rows at all, whether it makes two, and of
      which kind the first one is. */
  method Classify(kind: string, ghost rows: seq<Kind>) returns (makes: bool, twoPass: bool, rowKind: Kind)
    requires Becomes(kind, rows)
    ensures rows == if !makes then [] else if twoPass then [rowKind, Plain] else [rowKind]
  {
    assert Look(0);
    makes := !(kind == "notify_webhook" || kind == "webhook" || kind == "condition");
    twoPass := kind == "encode_twopass" || kind == "encode_twopass_x264";
    rowKind := if twoPass then Plain else if kind == "encode_vmaf_target" then VmafTarget else Encode;
  }

  /** The rows of one step, added under consecutive chunk indices up to the first that cannot be. */
  method AddStepRows(store: JobStore, ghost db: Db, j: nat, ghost plan: seq<Kind>, index: nat, kind: string,
                     ghost rows: seq<Kind>, fails: set<nat>)
    returns (ok: bool, next: nat)
    requires store.Now() == WithRows(db, j, plan) && index == |plan| && Becomes(kind, rows)
    modifies store
    ensures index <= next <= index + |rows| && (ok <==> next == index + |rows|)
    ensures forall i: nat :: index <= i < next ==> !InsertFails(db, j, fails, i)
    ensures !ok ==> InsertFails(db, j, fails, next)
    ensures store.Now() == WithRows(db, j, plan + rows[..next - index])
  {
    ok, next := true, index;
    assert plan + rows[..0] == plan;
    var makes, twoPass, rowKind := Classify(kind, rows);
    if !makes { return; }
    ok := AddRow(store, db, j, plan, next, rowKind, fails);
    if !ok { return; }
    next := next + 1;
    assert plan + rows[..1] == plan + [rowKind];
    if twoPass {
      ok := AddRow(store, db, j, plan + [rowKind], next, Plain, fails);
      if !ok { return; }
      next := next + 1;
      assert plan + rows[..2] == plan + [rowKind] + [Plain];
    }
  }

  /** The plan of the first steps is the first part of the plan. */
  lemma {:induction false} PlanPrefix(steps: seq<TaskStep>, k: nat)
    requires k <= |steps|
    ensures |Plan(steps[..k])| <= |Plan(steps)| && Plan(steps[..k]) == Plan(steps)[..|Plan(steps[..k])|]
    decreases |steps|
  {
    if k < |steps| {
      PlanPrefix(steps[..|steps| - 1], k);
      assert steps[..|steps| - 1][..k] == steps[..k];
    } else {
      assert steps[..k] == steps;
    }
  }

  /** The chunk index of the first row of step k, and the one after its last. */
  function FirstRow(steps: seq<TaskStep>, k: nat): nat
    requires k <= |steps|
  {
    |Plan(steps[..k])|
  }

  /** The rows of the first s steps and the first of those of step s, as a part of the plan. */
  lemma PlanPart(steps: seq<TaskStep>, s: nat) returns (rows: seq<Kind>)
    requires s < |steps|
    ensures Becomes(steps[s].nodeKind, rows)
    ensures FirstRow(steps, s + 1) == FirstRow(steps, s) + |rows| <= |Plan(steps)|
    ensures forall n :: 0 <= n <= |rows| ==> Plan(steps[..s]) + rows[..n] == Plan(steps)[..FirstRow(steps, s) + n]
  {
    rows := RowKinds(steps[s].nodeKind);
    PlanAppend(steps, s);
    PlanPrefix(steps, s + 1);
    forall n | 0 <= n <= |rows| ensures Plan(steps[..s]) + rows[..n] == Plan(steps)[..FirstRow(steps, s) + n] {
      PartOf(Plan(steps[..s]), rows, Plan(steps), n);
    }
  }

  lemma PartOf(a: seq<Kind>, b: seq<Kind>, c: seq<Kind>, n: nat)
    requires |a + b| <= |c| && c[..|a + b|] == a + b && n <= |b|
    ensures a + b[..n] == c[..|a| + n]
  {
    assert c[..|a| + n] == c[..|a + b|][..|a| + n];
  }

  /** One pass of the loop: the rows of step s. */
  method AddStep(store: JobStore, ghost db: Db, j: nat, steps: seq<TaskStep>, s: nat, taskIndex: nat, fails: set<nat>)
    returns (ok: bool, next: nat)
    requires s < |steps| && taskIndex == FirstRow(steps, s)
    requires taskIndex <= |Plan(steps)| && store.Now() == WithRows(db, j, Plan(steps)[..taskIndex])
    modifies store
    ensures taskIndex <= next <= |Plan(steps)| && store.Now() == WithRows(db, j, Plan(steps)[..next])
    ensures forall i: nat :: taskIndex <= i < next ==> !InsertFails(db, j, fails, i)
    ensures if ok then next == FirstRow(steps, s + 1) else next < |Plan(steps)| && InsertFails(db, j, fails, next)
  {
    ghost var rows := PlanPart(steps, s);
    assert Plan(steps[..s]) + rows[..0] == Plan(steps[..s]);
    ok, next := AddStepRows(store, db, j, Plan(steps[..s]), taskIndex, steps[s].nodeKind, rows, fails);
  }

  /** The loop of expandFlowJob over the steps: rows are added in plan order up to the first that
      cannot be. */
  method AddAllRows(store: JobStore, ghost db: Db, j: nat, steps: seq<TaskStep>, fails: set<nat>)
    returns (ok: bool, taskIndex: nat)
    requires store.Now() == db
    modifies store
    ensures taskIndex <= |Plan(steps)| && store.Now() == WithRows(db, j, Plan(steps)[..taskIndex])
    ensures forall i: nat :: i < taskIndex ==> !InsertFails(db, j, fails, i)
    ensures if ok then taskIndex == |Plan(steps)| else taskIndex < |Plan(steps)| && InsertFails(db, j, fails, taskIndex)
  {
    ok, taskIndex := true, 0;
    assert Plan(steps)[..0] == [];
    for s := 0 to |steps|
      invariant ok && taskIndex == FirstRow(steps, s) && taskIndex <= |Plan(steps)|
      invariant store.Now() == WithRows(db, j, Plan(steps)[..taskIndex])
      invariant forall i: nat :: i < taskIndex ==> !InsertFails(db, j, fails, i)
    {
      ok, taskIndex := AddStep(store, db, j, steps, s, taskIndex, fails);
      if !ok { return; }
    }
    assert steps[..|steps|] == steps;
  }

  /** The steps are those of the flow. */
  ghost predicate StepsOfFlow(g: Graph, ctx: Context, steps: seq<TaskStep>) {
    FirstInput(g.nodes).Some? && Expands(g, FirstInput(g.nodes).value, ctx, steps)
  }

  ghost predicate FlowRuns(g: Graph, ctx: Context) {
    FirstInput(g.nodes).Some? && RunsClear(g, FirstInput(g.nodes).value, ctx)
  }

  /** Every row of the steps can be added. */
  ghost predicate AllInsert(db: Db, j: nat, fails: set<nat>, steps: seq<TaskStep>) {
    forall i: nat :: i < |Plan(steps)| ==> !InsertFails(db, j, fails, i)
  }

  /** expandFlowJob.  ExecuteFlow never succeeds without a step, so the branch for an empty list is
      not reached. */
  method ExpandFlowJob(store: JobStore, j: nat, g: Graph, ctx: Context, cancelAfter: Option<nat>, sourceOk: bool, fails: set<nat>)
    returns (out: Expansion, ghost made: nat)
    modifies store
    ensures cancelAfter.None? ==> (out.FlowFailed? <==> !FlowRuns(g, ctx))
    ensures WellFormed(g) && cancelAfter.None? ==> !out.FlowFailed?
    ensures !out.FlowFailed? ==>
              StepsOfFlow(g, ctx, out.steps) && (out.Expanded? <==> sourceOk && AllInsert(old(store.Now()), j, fails, out.steps))
    ensures var db := old(store.Now());
            match out
            case FlowFailed(why) => !why.Steps? && store.Now() == SetJobStatus(db, j, Status.Failed)
            case RolledBack(steps) =>
              made <= |Plan(steps)|
              && store.Now() == SetJobStatus(DeleteTasks(WithRows(db, j, Plan(steps)[..made]), j), j, Status.Failed)
            case Expanded(steps) => store.Now() == SetJobStatus(Recount(WithRows(db, j, Plan(steps)), j), j, Queued)
  {
    made := 0;
    ghost var db := store.Now();
    var r := ExecuteFlow(g, ctx, cancelAfter);
    FirstInputSound(g.nodes);
    if !r.Steps? {
      var found := store.UpdateJobStatus(j, Status.Failed);
      return FlowFailed(r), 0;
    }
    assert Plan(r.steps)[..0] == [];
    var ok := false;
    if sourceOk { ok, made := AddAllRows(store, db, j, r.steps, fails); }
    if !ok {
      store.DeleteTasksByJobID(j);
      var found := store.UpdateJobStatus(j, Status.Failed);
      return RolledBack(r.steps), made;
    }
    assert Plan(r.steps)[..made] == Plan(r.steps);
    store.UpdateJobTaskCounts(j);
    var found := store.UpdateJobStatus(j, Queued);
    return Expanded(r.steps), made;
  }

  // ----- what the rows look like -----

  lemma FirstRowGrows(steps: seq<TaskStep>, k: nat)
    requires k < |steps|
    ensures FirstRow(steps, k + 1) == FirstRow(steps, k) + |RowKinds(steps[k].nodeKind)|
  {
    PlanAppend(steps, k);
  }

  /** The rows of job j with the chunk indices from first up to next are those of a step of this kind:
      none for a webhook or a condition, two agent rows for a two-pass encode, one row for the
      controller for a search by score, and one encode row for every other kind. */
  predicate HasRows(tasks: seq<Task>, j: nat, base: nat, first: nat, next: nat, kind: string) {
    && first <= next && base + next <= |tasks|
    && (kind == "notify_webhook" || kind == "webhook" || kind == "condition" ==> next == first)
    && (kind == "encode_twopass" || kind == "encode_twopass_x264" ==>
          next == first + 2 && tasks[base + first] == NewTask(j, first, Plain, "")
          && tasks[base + first + 1] == NewTask(j, first + 1, Plain, ""))
    && (kind == "encode_vmaf_target" ==> next == first + 1 && tasks[base + first] == NewTask(j, first, VmafTarget, ""))
    && (kind != "notify_webhook" && kind != "webhook" && kind != "condition" && kind != "encode_twopass"
        && kind != "encode_twopass_x264" && kind != "encode_vmaf_target" ==>
          next == first + 1 && tasks[base + first] == NewTask(j, first, Encode, ""))
  }

  lemma KindHasRows(tasks: seq<Task>, j: nat, base: nat, first: nat, kind: string, rows: seq<Kind>)
    requires Becomes(kind, rows) && base + first + |rows| <= |tasks|
    requires forall i: nat :: i < |rows| ==> tasks[base + first + i] == NewTask(j, first + i, rows[i], "")
    ensures HasRows(tasks, j, base, first, first + |rows|, kind)
  {
    assert Look(0);
    if |rows| > 0 { assert tasks[base + first + 0] == NewTask(j, first + 0, rows[0], ""); }
    if |rows| > 1 { assert tasks[base + first + 1] == NewTask(j, first + 1, rows[1], ""); }
  }

  lemma PartOfPlan(db: Db, j: nat, plan: seq<Kind>, first: nat, kind: string, rows: seq<Kind>)
    requires Becomes(kind, rows) && first + |rows| <= |plan| && rows == plan[first..first + |rows|]
    ensures HasRows(WithRows(db, j, plan).tasks, j, |db.tasks|, first, first + |rows|, kind)
  {
    var tasks := WithRows(db, j, plan).tasks;
    RowsOfPlan(db, j, plan);
    forall i: nat | i < |rows| ensures tasks[|db.tasks| + first + i] == NewTask(j, first + i, rows[i], "") {
      assert tasks[|db.tasks| + (first + i)] == NewTask(j, first + i, plan[first + i], "");
    }
    KindHasRows(tasks, j, |db.tasks|, first, kind, rows);
  }

  lemma RowsFromFirst(steps: seq<TaskStep>, k: nat) returns (rows: seq<Kind>)
    requires k < |steps|
    ensures Becomes(steps[k].nodeKind, rows) && FirstRow(steps, k + 1) == FirstRow(steps, k) + |rows| <= |Plan(steps)|
    ensures rows == Plan(steps)[FirstRow(steps, k)..FirstRow(steps, k + 1)]
  {
    rows := PlanPart(steps, k);
    var first := FirstRow(steps, k);
    assert rows[..|rows|] == rows;
    assert Plan(steps)[..first + |rows|][first..] == rows;
  }

  /** The rows an expansion adds, step by step: the chunk indices of the steps follow one another from 0
      on, and every step has the rows of its kind. */
  lemma StepsHaveRows(db: Db, j: nat, steps: seq<TaskStep>, k: nat)
    requires k < |steps|
    ensures FirstRow(steps, 0) == 0 && FirstRow(steps, |steps|) == |Plan(steps)|
    ensures HasRows(WithRows(db, j, Plan(steps)).tasks, j, |db.tasks|, FirstRow(steps, k), FirstRow(steps, k + 1), steps[k].nodeKind)
  {
    assert steps[..|steps|] == steps;
    var rows := RowsFromFirst(steps, k);
    PartOfPlan(db, j, Plan(steps), FirstRow(steps, k), steps[k].nodeKind, rows);
  }

  lemma {:induction false} RowsInStepOrder(steps: seq<TaskStep>, i: nat, k: nat)
    requires i < k <= |steps|
    ensures FirstRow(steps, i + 1) <= FirstRow(steps, k)
    decreases k
  {
    if i < k - 1 {
      FirstRowGrows(steps, k - 1);
      RowsInStepOrder(steps, i, k - 1);
    }
  }

  /** Every step but the first comes after the one step it depends on, and so do its rows: their
      chunk indices are all higher, and DrainInClaimOrder hands rows of a job out by chunk index. */
  lemma RowsFollowDependencies(g: Graph, input: Node, ctx: Context, steps: seq<TaskStep>, k: nat) returns (i: nat)
    requires Expands(g, input, ctx, steps) && 1 <= k < |steps|
    ensures i < k && steps[k].dependsOn == [steps[i].nodeId]
    ensures (steps[i].nodeId, steps[k].nodeId) in LiveEdges(g, input, ctx)
    ensures FirstRow(steps, i) + |RowKinds(steps[i].nodeKind)| <= FirstRow(steps, k)
  {
    var byId := NodeById(g.nodes);
    var via :| OrderedSteps(byId, g.edges, input, ctx, steps, via);
    assert Created(byId, g.edges, input, ctx, steps, via, k);
    i :| 0 <= i < k && steps[k].dependsOn == [steps[i].nodeId]
         && Enters(byId, g.edges, input, ctx, steps[i].nodeId, via[k], steps[k].nodeId);
    RowsInStepOrder(steps, i, k);
    FirstRowGrows(steps, i);
    EdgesFromSound(g.edges, steps[i].nodeId);
    var e := EdgesFrom(g.edges, steps[i].nodeId)[via[k]];
    assert e in EdgesFrom(g.edges, steps[i].nodeId);
  }

  // ----- a flow job is expanded once -----

  lemma {:induction false} CountRowsZero(tasks: seq<Task>, j: nat)
    ensures CountRows(tasks, j) == 0 <==> forall t: nat :: !RowOf(tasks, t, j)
  {
    if tasks != [] {
      var n := |tasks| - 1;
      CountRowsZero(tasks[..n], j);
      forall t: nat | t < n ensures RowOf(tasks[..n], t, j) <==> RowOf(tasks, t, j) {}
      if t: nat :| RowOf(tasks[..n], t, j) { assert RowOf(tasks, t, j); }
      if t: nat :| RowOf(tasks, t, j) && t < n { assert RowOf(tasks[..n], t, j); }
    }
  }

  /** After its expansion a job asks for another one exactly if the plan was empty. */
  lemma ExpandsAgainOnlyWithoutRows(db: Db, j: nat, plan: seq<Kind>)
    requires HasJob(db, j) && forall t: nat :: !RowOf(db.tasks, t, j)
    ensures Protocol.NeedsExpansion(SetJobStatus(Recount(WithRows(db, j, plan), j), j, Queued), j) <==> plan == []
  {
    var d := WithRows(db, j, plan);
    RowsOfPlan(db, j, plan);
    CountRowsZero(d.tasks, j);
    if plan != [] {
      assert d.tasks[|db.tasks| + 0] == NewTask(j, 0, plan[0], "");
      assert RowOf(d.tasks, |db.tasks|, j);
    } else {
      EmptyPlan(db, j);
    }
  }

  lemma EmptyPlan(db: Db, j: nat)
    ensures WithRows(db, j, []) == db
  {
    assert db.tasks + PlanRows(j, []) == db.tasks;
  }

  lemma {:induction false} NoRowsYet(steps: seq<TaskStep>, n: nat)
    requires n <= |steps| && forall k :: 0 <= k < n ==> |RowKinds(steps[k].nodeKind)| == 0
    ensures FirstRow(steps, n) == 0
  {
    if n > 0 {
      NoRowsYet(steps, n - 1);
      FirstRowGrows(steps, n - 1);
    }
  }

  lemma NoRowOf(steps: seq<TaskStep>, k: nat)
    requires k < |steps| && FirstRow(steps, |steps|) == 0
    ensures |RowKinds(steps[k].nodeKind)| == 0
  {
    FirstRowGrows(steps, k);
    RowsInStepOrder(steps, k, |steps|);
  }

  /** An expanded flow has no row exactly if no node that is reachable over live edges becomes one. */
  lemma FlowHasNoRowExactly(g: Graph, input: Node, ctx: Context, steps: seq<TaskStep>)
    requires Expands(g, input, ctx, steps)
    ensures Plan(steps) == [] <==>
              forall u :: Reaches(LiveEdges(g, input, ctx), input.id, u) ==>
                u in NodeById(g.nodes) && RowKinds(NodeById(g.nodes)[u].kind) == []
  {
    var byId, E := NodeById(g.nodes), LiveEdges(g, input, ctx);
    var via :| OrderedSteps(byId, g.edges, input, ctx, steps, via);
    assert steps[..|steps|] == steps;
    if Plan(steps) == [] {
      forall k: nat | k < |steps| ensures |RowKinds(steps[k].nodeKind)| == 0 { NoRowOf(steps, k); }
    } else if forall k :: 0 <= k < |steps| ==> |RowKinds(steps[k].nodeKind)| == 0 {
      NoRowsYet(steps, |steps|);
      assert false;
    }
    StepIdsSound(steps);
    forall k | 0 <= k < |steps|
      ensures Reaches(E, input.id, steps[k].nodeId) && steps[k].nodeId in byId && steps[k].nodeKind == byId[steps[k].nodeId].kind
    {
      assert StepMatches(byId, input, ctx, steps[k]) && steps[k].nodeId in StepIds(steps);
    }
  }

  /** An expanded flow without rows has a later node that reuses the id of its input node and becomes
      no row itself. */
  lemma FlowsHaveRows(g: Graph, input: Node, ctx: Context, steps: seq<TaskStep>)
    requires Expands(g, input, ctx, steps) && IsInputKind(input.kind)
    ensures Plan(steps) == [] ==>
              input.id in NodeById(g.nodes) && NodeById(g.nodes)[input.id] != input
              && RowKinds(NodeById(g.nodes)[input.id].kind) == []
  {
    FlowHasNoRowExactly(g, input, ctx, steps);
    ReachesSelf(LiveEdges(g, input, ctx), input.id);
    InputKindHasRow(input.kind);
  }

  lemma InputKindHasRow(kind: string)
    requires IsInputKind(kind)
    ensures RowKinds(kind) == [Encode]
  {
    assert kind[..6][0] == kind[0] == 'i';
  }

  /** Two nodes with one id, an input and after it a condition. */
  function ReusedId(id: string, kind: string, data: Config, test: Config): Graph {
    Graph([Node(id, kind, data), Node(id, "condition", test)], [])
  }

  lemma ReusedIdIsWellFormed(id: string, kind: string, data: Config, test: Config)
    requires IsInputKind(kind)
    ensures var g := ReusedId(id, kind, data, test);
            WellFormed(g) && FirstInput(g.nodes) == Some(g.nodes[0]) && NodeById(g.nodes) == map[id := g.nodes[1]]
  {
    var g := ReusedId(id, kind, data, test);
    assert g.nodes[0] in g.nodes;
    assert g.nodes[..1] == [g.nodes[0]] && g.nodes[..1][..0] == [];
    assert NodeById(g.nodes[..1]) == map[id := g.nodes[0]];
    assert AllEdges(g) == {};
  }

  /** A later node may reuse the id of the input node: validation accepts that, the later node wins the
      lookup, and if it is a condition the expansion adds no row, so that the job asks for another
      expansion, with the same result, forever. */
  lemma ReusedIdHasNoRow(id: string, kind: string, data: Config, test: Config, ctx: Context, steps: seq<TaskStep>, db: Db, j: nat)
    requires IsInputKind(kind) && StepsOfFlow(ReusedId(id, kind, data, test), ctx, steps)
    requires Protocol.NeedsExpansion(db, j) && forall t: nat :: !RowOf(db.tasks, t, j)
    ensures WellFormed(ReusedId(id, kind, data, test)) && Plan(steps) == []
    ensures var d := SetJobStatus(Recount(WithRows(db, j, Plan(steps)), j), j, Queued);
            Protocol.NeedsExpansion(d, j) && forall t: nat :: !RowOf(d.tasks, t, j)
  {
    var g := ReusedId(id, kind, data, test);
    ReusedIdIsWellFormed(id, kind, data, test);
    var byId, E := NodeById(g.nodes), LiveEdges(g, g.nodes[0], ctx);
    assert E == {};
    forall u | Reaches(E, id, u) ensures u in byId && RowKinds(byId[u].kind) == [] {
      ReachableIsInClosed(E, {id}, id);
    }
    FlowHasNoRowExactly(g, g.nodes[0], ctx, steps);
    EmptyPlan(db, j);
    ExpandsAgainOnlyWithoutRows(db, j, Plan(steps));
  }
}
