/**
 ExecuteFlow: the depth-first walk that resolves conditions and error routing and emits the
 ordered steps of an expansion.
 */
module FlowExecute {
  import opened Digraph
  import opened FlowGraph
  import opened Basics

  datatype Outcome =
    | Steps(steps: seq<TaskStep>)
    | NoNodes
    | NoInput
    | Cancelled
    | CycleAt(node: string)
    | NotFound(node: string)

  /** A cycle that the walk can run into: it starts at a vertex reachable from the input. */
  ghost predicate ReachableCycle(E: set<(string, string)>, input: string) {
    exists v :: Reaches(E, input, v) && OnCycle(E, v)
  }

  /** Step k is the faithful image of its node. */
  predicate StepMatches(byId: map<string, Node>, input: Node, ctx: Context, s: TaskStep) {
    && s.nodeId in byId
    && s.nodeKind == byId[s.nodeId].kind
    && s.config == StepConfig(input, ctx, byId[s.nodeId], s.nodeId)
  }

  /** Step k > 0 was created by following the edge at position via[k] of the outgoing list of
      the one step it depends on. */
  ghost predicate Created(byId: map<string, Node>, edges: seq<Edge>, input: Node, ctx: Context,
                          steps: seq<TaskStep>, via: seq<nat>, k: nat)
    requires k < |steps| == |via|
  {
    exists j :: 0 <= j < k && steps[k].dependsOn == [steps[j].nodeId]
                && Enters(byId, edges, input, ctx, steps[j].nodeId, via[k], steps[k].nodeId)
  }

  /** The i-th outgoing edge of `from` is live and leads to `to`. */
  ghost predicate Enters(byId: map<string, Node>, edges: seq<Edge>, input: Node, ctx: Context,
                         from: string, i: nat, to: string) {
    var out := EdgesFrom(edges, from);
    i < |out| && out[i].source == from && out[i].target == to && Live(byId, input, ctx, out[i])
  }

  function StepIds(steps: seq<TaskStep>): set<string> {
    if steps == [] then {} else StepIds(steps[..|steps| - 1]) + {steps[|steps| - 1].nodeId}
  }

  /** Step s may follow the given steps: it is the image of a node that has no step yet, and it
      is the input, or hangs off an earlier step by a live edge behind its siblings' edges. */
  ghost predicate Attaches(byId: map<string, Node>, edges: seq<Edge>, input: Node, ctx: Context,
                           steps: seq<TaskStep>, via: seq<nat>, s: TaskStep, i: nat)
    requires |steps| == |via|
  {
    && StepMatches(byId, input, ctx, s)
    && s.nodeId !in StepIds(steps)
    && (if steps == [] then s.dependsOn == [] && s.nodeId == input.id
        else |s.dependsOn| == 1 && s.dependsOn[0] in StepIds(steps)
             && Enters(byId, edges, input, ctx, s.dependsOn[0], i, s.nodeId)
             && forall k :: 1 <= k < |steps| && steps[k].dependsOn == s.dependsOn ==> via[k] < i)
  }

  ghost predicate StepTree(byId: map<string, Node>, edges: seq<Edge>, input: Node, ctx: Context,
                           steps: seq<TaskStep>, via: seq<nat>) {
    && |steps| == |via|
    && (steps != [] ==>
          var n := |steps| - 1;
          && StepTree(byId, edges, input, ctx, steps[..n], via[..n])
          && Attaches(byId, edges, input, ctx, steps[..n], via[..n], steps[n], via[n]))
  }

  lemma StepTreeGrows(byId: map<string, Node>, edges: seq<Edge>, input: Node, ctx: Context,
                      steps: seq<TaskStep>, via: seq<nat>, s: TaskStep, i: nat)
    requires StepTree(byId, edges, input, ctx, steps, via)
    requires Attaches(byId, edges, input, ctx, steps, via, s, i)
    ensures StepTree(byId, edges, input, ctx, steps + [s], via + [i])
    ensures StepIds(steps + [s]) == StepIds(steps) + {s.nodeId}
  {
    assert (steps + [s])[..|steps|] == steps && (via + [i])[..|steps|] == via;
  }

  lemma {:induction false} StepIdsSound(steps: seq<TaskStep>)
    ensures forall u :: u in StepIds(steps) <==> exists k :: 0 <= k < |steps| && steps[k].nodeId == u
  {
    if steps != [] {
      var n := |steps| - 1;
      StepIdsSound(steps[..n]);
      forall u | u in StepIds(steps) ensures exists k :: 0 <= k < |steps| && steps[k].nodeId == u {
        if u != steps[n].nodeId {
          assert u in StepIds(steps[..n]);
          var k :| 0 <= k < |steps[..n]| && steps[..n][k].nodeId == u;
          assert steps[k].nodeId == u;
        }
      }
      forall k | 0 <= k < |steps| ensures steps[k].nodeId in StepIds(steps) {
        if k < n { assert steps[..n][k].nodeId in StepIds(steps[..n]); }
      }
    }
  }

  /** What a step tree looks like: every step the image of its node, no node twice, the input
      first and without dependency, every other step hanging off one earlier step by a live
      edge, and siblings in the order of their parent's outgoing edges. */
  ghost predicate OrderedSteps(byId: map<string, Node>, edges: seq<Edge>, input: Node, ctx: Context,
                               steps: seq<TaskStep>, via: seq<nat>) {
    && |steps| == |via|
    && (forall k :: 0 <= k < |steps| ==> StepMatches(byId, input, ctx, steps[k]))
    && (forall i, j :: 0 <= i < j < |steps| ==> steps[i].nodeId != steps[j].nodeId)
    && (|steps| > 0 ==> steps[0].dependsOn == [] && steps[0].nodeId == input.id)
    && (forall k :: 1 <= k < |steps| ==> Created(byId, edges, input, ctx, steps, via, k))
    && (forall i, j :: 1 <= i < j < |steps| && steps[i].dependsOn == steps[j].dependsOn ==> via[i] < via[j])
  }

  /** Every step attaches to the steps before it. */
  lemma {:induction false} EveryStepAttaches(byId: map<string, Node>, edges: seq<Edge>, input: Node, ctx: Context,
                                             steps: seq<TaskStep>, via: seq<nat>, k: nat)
    requires StepTree(byId, edges, input, ctx, steps, via) && k < |steps|
    ensures Attaches(byId, edges, input, ctx, steps[..k], via[..k], steps[k], via[k])
  {
    var n := |steps| - 1;
    if k < n {
      EveryStepAttaches(byId, edges, input, ctx, steps[..n], via[..n], k);
      assert steps[..n][..k] == steps[..k] && via[..n][..k] == via[..k];
    }
  }

  lemma StepTreeIsOrdered(byId: map<string, Node>, edges: seq<Edge>, input: Node, ctx: Context,
                          steps: seq<TaskStep>, via: seq<nat>)
    requires StepTree(byId, edges, input, ctx, steps, via)
    ensures OrderedSteps(byId, edges, input, ctx, steps, via)
  {
    forall k | 0 <= k < |steps|
      ensures StepMatches(byId, input, ctx, steps[k])
      ensures forall i :: 0 <= i < k ==> steps[i].nodeId != steps[k].nodeId
      ensures k == 0 ==> steps[k].dependsOn == [] && steps[k].nodeId == input.id
      ensures k > 0 ==> Created(byId, edges, input, ctx, steps, via, k)
      ensures k > 0 ==> forall i :: 1 <= i < k && steps[i].dependsOn == steps[k].dependsOn ==> via[i] < via[k]
    {
      StepAt(byId, edges, input, ctx, steps, via, k);
    }
  }

  lemma StepAt(byId: map<string, Node>, edges: seq<Edge>, input: Node, ctx: Context,
               steps: seq<TaskStep>, via: seq<nat>, k: nat)
    requires StepTree(byId, edges, input, ctx, steps, via) && k < |steps|
    ensures StepMatches(byId, input, ctx, steps[k])
    ensures forall i :: 0 <= i < k ==> steps[i].nodeId != steps[k].nodeId
    ensures k == 0 ==> steps[k].dependsOn == [] && steps[k].nodeId == input.id
    ensures k > 0 ==> Created(byId, edges, input, ctx, steps, via, k)
    ensures k > 0 ==> forall i :: 1 <= i < k && steps[i].dependsOn == steps[k].dependsOn ==> via[i] < via[k]
  {
    EveryStepAttaches(byId, edges, input, ctx, steps, via, k);
    StepIdsSound(steps[..k]);
    forall i | 0 <= i < k ensures steps[i].nodeId != steps[k].nodeId {
      assert steps[..k][i].nodeId in StepIds(steps[..k]);
    }
    if k > 0 {
      var j :| 0 <= j < |steps[..k]| && steps[..k][j].nodeId == steps[k].dependsOn[0];
      assert steps[k].dependsOn == [steps[j].nodeId];
      assert Enters(byId, edges, input, ctx, steps[j].nodeId, via[k], steps[k].nodeId);
      forall i | 1 <= i < k && steps[i].dependsOn == steps[k].dependsOn ensures via[i] < via[k] {
        assert steps[..k][i].dependsOn == steps[k].dependsOn;
      }
    }
  }

  /** Steps never depend on a node that has no step. */
  lemma {:induction false} DependenciesHaveSteps(byId: map<string, Node>, edges: seq<Edge>, input: Node, ctx: Context,
                                                 steps: seq<TaskStep>, via: seq<nat>, k: nat)
    requires StepTree(byId, edges, input, ctx, steps, via) && 1 <= k < |steps|
    ensures |steps[k].dependsOn| == 1 && steps[k].dependsOn[0] in StepIds(steps)
  {
    var n := |steps| - 1;
    if k < n {
      DependenciesHaveSteps(byId, edges, input, ctx, steps[..n], via[..n], k);
      assert steps[..n][k] == steps[k];
    }
  }

  /** Every edge position used so far below a node is under that node's next position. */
  ghost predicate Siblings(steps: seq<TaskStep>, via: seq<nat>, next: map<string, nat>) {
    && |steps| == |via|
    && forall k :: 1 <= k < |steps| ==>
         |steps[k].dependsOn| == 1 && steps[k].dependsOn[0] in next && via[k] < next[steps[k].dependsOn[0]]
  }

  /** The emitted steps form a tree over exactly the visited nodes. */
  ghost predicate Recorded(byId: map<string, Node>, edges: seq<Edge>, input: Node, ctx: Context,
                           steps: seq<TaskStep>, via: seq<nat>, next: map<string, nat>, visited: set<string>) {
    forall k :: Look(k) ==>
      && StepTree(byId, edges, input, ctx, steps, via)
      && Siblings(steps, via, next)
      && visited == StepIds(steps)
  }

  /** The edges with this handle are followed out of a step: a condition takes its branch and the
      unlabelled edges, a failing node its error edges, any other node all but those. */
  predicate Routes(ctx: Context, s: TaskStep, handle: string) {
    var c := s.config;
    var fails := "simulate_error" in c && (c["simulate_error"] == Flag(true) || c["simulate_error"] == Text("true"));
    if s.nodeKind == "condition"
    then handle == "" || handle == (if fails then "error" else if c in ctx.holds then "true" else "false")
    else if fails then handle == "error"
    else handle != "error"
  }

  lemma RoutesIsLive(byId: map<string, Node>, input: Node, ctx: Context, s: TaskStep, e: Edge)
    requires StepMatches(byId, input, ctx, s) && e.source == s.nodeId
    ensures Routes(ctx, s, e.handle) <==> Live(byId, input, ctx, e)
  {
  }

  datatype Stop = Go | Done | Cyclic(node: string) | Missing(node: string)

  /** The adjacency lists filtered by liveness hold exactly the edges of E. */
  ghost predicate LiveLists(byId: map<string, Node>, edges: seq<Edge>, input: Node, ctx: Context,
                            E: set<(string, string)>) {
    && (forall id, i :: 0 <= i < |EdgesFrom(edges, id)| && Live(byId, input, ctx, EdgesFrom(edges, id)[i])
                        ==> (id, EdgesFrom(edges, id)[i].target) in E)
    && (forall id, w :: (id, w) in E ==> exists i :: Enters(byId, edges, input, ctx, id, i, w))
    && (forall id, i :: 0 <= i < |EdgesFrom(edges, id)| ==> EdgesFrom(edges, id)[i].source == id)
  }

  /** The state of the walk: `path` is the current search path and holds the nodes of `inStack`,
      `order` the nodes whose walk has returned. */
  ghost predicate WalkState(E: set<(string, string)>, reach: iset<string>, visited: set<string>, inStack: set<string>,
                            path: seq<string>, order: seq<string>) {
    forall k :: Look(k) ==>
      && (forall u :: u in path <==> u in inStack)
      && (forall u :: u in visited <==> u in inStack || u in order)
      && (forall u :: u in inStack ==> u !in order)
      && (path == [] || IsPath(E, path))
      && FinishOrder(E, order)
      && (forall u :: u in visited ==> u in reach)
  }

  lemma EnterNode(E: set<(string, string)>, reach: iset<string>, visited: set<string>, inStack: set<string>,
                  path: seq<string>, order: seq<string>, id: string)
    requires WalkState(E, reach, visited, inStack, path, order) && id !in visited
    requires path == [] || (path[|path| - 1], id) in E
    requires id in reach
    ensures WalkState(E, reach, visited + {id}, inStack + {id}, path + [id], order) && id !in path
  {
    assert Look(0);
  }

  lemma LeaveNode(E: set<(string, string)>, reach: iset<string>, visited: set<string>, inStack: set<string>,
                  path: seq<string>, order: seq<string>, id: string)
    requires WalkState(E, reach, visited, inStack, path + [id], order) && id !in path
    requires forall w :: (id, w) in E ==> w in visited - inStack
    ensures WalkState(E, reach, visited, inStack - {id}, path, order + [id])
  {
    assert Look(0);
    assert id in path + [id];
    FinishOrderExtends(E, order, id);
    forall u ensures u in path <==> u in inStack - {id} {
      assert u in path + [id] <==> u in path || u == id;
    }
    if path != [] {
      forall i | 0 <= i < |path| - 1 ensures (path[i], path[i + 1]) in E {
        assert ((path + [id])[i], (path + [id])[i + 1]) in E;
      }
    }
  }

  /** The recursive closure of ExecuteFlow with the maps and the list it updates. */
  class Walker {
    const byId: map<string, Node>
    const edgesFrom: map<string, seq<Edge>>
    const input: Node
    const ctx: Context
    const cancelAfter: Option<nat>
    ghost const edges: seq<Edge>
    ghost const E: set<(string, string)>
    ghost const reach: iset<string>
    var polls: nat
    var visited: set<string>
    var inStack: set<string>
    var steps: seq<TaskStep>
    ghost var order: seq<string>
    ghost var via: seq<nat>
    ghost var next: map<string, nat>

    constructor (byId: map<string, Node>, edgesFrom: map<string, seq<Edge>>, input: Node, ctx: Context,
                 cancelAfter: Option<nat>, ghost edges: seq<Edge>, ghost E: set<(string, string)>, ghost reach: iset<string>)
      ensures visited == {} && inStack == {} && steps == [] && order == [] && via == [] && next == map[]
      ensures this.byId == byId && this.input == input && this.ctx == ctx && this.cancelAfter == cancelAfter
      ensures this.edgesFrom == edgesFrom && this.edges == edges && this.E == E && this.reach == reach
    {
      this.byId, this.edgesFrom, this.input, this.ctx := byId, edgesFrom, input, ctx;
      this.cancelAfter, this.edges, this.E, this.reach := cancelAfter, edges, E, reach;
      polls := 0;
      visited, inStack, steps := {}, {}, [];
      order, via, next := [], [], map[];
    }

    /** The lookup tables are those of the live graph E, and `reach` is closed under E. */
    ghost predicate Wired() {
      forall k :: Look(k) ==>
        && (forall id :: Out(id) == EdgesFrom(edges, id))
        && LiveLists(byId, edges, input, ctx, E)
        && input.id in reach && (forall u, w :: u in reach && (u, w) in E ==> w in reach)
    }

    function Out(id: string): seq<Edge> {
      if id in edgesFrom then edgesFrom[id] else []
    }

    lemma OutEdges(id: string)
      requires Wired()
      ensures forall j :: 0 <= j < |Out(id)| ==> Out(id)[j].source == id
      ensures forall j :: 0 <= j < |Out(id)| && Live(byId, input, ctx, Out(id)[j]) ==>
                Enters(byId, edges, input, ctx, id, j, Out(id)[j].target)
    {
      assert Look(0);
    }

    lemma AllFollowed(id: string, done: set<string>)
      requires Wired()
      requires forall j :: 0 <= j < |Out(id)| && Live(byId, input, ctx, Out(id)[j]) ==> Out(id)[j].target in done
      ensures forall w :: (id, w) in E ==> w in done
    {
      assert Look(0);
      forall w | (id, w) in E ensures w in done {
        var j: nat :| Enters(byId, edges, input, ctx, id, j, w);
        assert Out(id)[j].target == w;
      }
    }

    /** The targets of all edges that the handle rules follow out of the node are visited. */
    ghost predicate FollowedAll(id: string, node: Node, cfg: Config)
      reads this
    {
      forall e :: e in EdgesFrom(edges, id) && Routes(ctx, TaskStep(id, node.kind, cfg, []), e.handle) ==> e.target in visited
    }

    lemma HandlesFollowed(id: string, node: Node, cfg: Config)
      requires Wired() && id in byId && node == byId[id] && cfg == StepConfig(input, ctx, node, id)
      requires forall w :: (id, w) in E ==> w in visited
      ensures FollowedAll(id, node, cfg)
    {
      assert Look(0);
      forall e | e in EdgesFrom(edges, id) && Routes(ctx, TaskStep(id, node.kind, cfg, []), e.handle) ensures e.target in visited {
        RoutesIsLive(byId, input, ctx, TaskStep(id, node.kind, cfg, []), e);
      }
    }

    ghost predicate Valid(path: seq<string>)
      reads this
    {
      && WalkState(E, reach, visited, inStack, path, order)
      && Recorded(byId, edges, input, ctx, steps, via, next, visited)
      && inStack <= visited <= next.Keys && (path == [] || path[|path| - 1] in inStack)
    }

    /** The caller followed the i-th edge of the last node of the path, or starts at the input. */
    ghost predicate Entry(id: string, dependsOn: seq<string>, path: seq<string>, i: nat)
      reads this
    {
      if path == [] then dependsOn == [] && id == input.id && steps == []
      else var u := path[|path| - 1];
           dependsOn == [u] && Enters(byId, edges, input, ctx, u, i, id) && u in next && next[u] <= i
    }

    /** Success leaves id finished; a stop names a real cause. */
    method Walk(id: string, dependsOn: seq<string>, ghost path: seq<string>, ghost i: nat) returns (stop: Stop)
      requires Wired() && Valid(path) && Entry(id, dependsOn, path, i)
      modifies this
      decreases byId.Keys - visited, 0
      ensures TrueCause(stop)
      ensures stop.Go? ==> Valid(path) && inStack == old(inStack) && id in visited - inStack && old(visited) <= visited
      ensures stop.Go? ==> forall u :: u in inStack ==>
                             if path != [] && u == path[|path| - 1] then next[u] <= i + 1 else next[u] == old(next)[u]
    {
      polls := polls + 1;
      if cancelAfter.Some? && polls > cancelAfter.value { return Done; }
      EntryIsEdge(id, dependsOn, path, i);
      if id in inStack {
        BackEdge(id, path);
        return Cyclic(id);
      }
      if id in visited { return Go; }
      Enter(id, path);
      if id !in byId { return Missing(id); }
      var node := byId[id];
      var cfg := StepConfig(input, ctx, node, id);
      Record(TaskStep(id, node.kind, cfg, dependsOn), path, i);
      stop := FollowEdges(id, node, cfg, path + [id]);
      if stop.Go? { Leave(id, path); }
    }

    /** Marks id visited and on the path; its step is still to come. */
    method Enter(id: string, ghost path: seq<string>)
      requires Wired() && Valid(path) && id !in visited && id in reach
      requires path == [] || (path[|path| - 1], id) in E
      modifies this`visited, this`inStack
      ensures visited == old(visited) + {id} && inStack == old(inStack) + {id}
      ensures WalkState(E, reach, visited, inStack, path + [id], order) && id !in path
    {
      EnterNode(E, reach, visited, inStack, path, order, id);
      visited := visited + {id};
      inStack := inStack + {id};
    }

    /** Appends the step of the node just entered. */
    method Record(step: TaskStep, ghost path: seq<string>, ghost i: nat)
      requires WalkState(E, reach, visited, inStack, path + [step.nodeId], order)
      requires step.nodeId in inStack && inStack <= visited && visited - {step.nodeId} <= next.Keys
      requires Recorded(byId, edges, input, ctx, steps, via, next, visited - {step.nodeId})
      requires StepMatches(byId, input, ctx, step) && Entry(step.nodeId, step.dependsOn, path, i)
      requires path != [] ==> path[|path| - 1] in visited - {step.nodeId}
      modifies this`steps, this`via, this`next
      ensures Valid(path + [step.nodeId]) && next[step.nodeId] == 0
      ensures forall u :: u in visited && u != step.nodeId ==>
                if path != [] && u == path[|path| - 1] then next[u] == i + 1 else next[u] == old(next)[u]
    {
      AppendStep(step, path, i);
      assert visited == visited - {step.nodeId} + {step.nodeId};
      steps := steps + [step];
      via := via + [i];
      next := (if path == [] then next else next[path[|path| - 1] := i + 1])[step.nodeId := 0];
    }

    /** Takes the finished node off the path. */
    method Leave(id: string, ghost path: seq<string>)
      requires Valid(path + [id]) && id !in path && (path == [] || path[|path| - 1] in inStack)
      requires forall w :: (id, w) in E ==> w in visited - inStack
      modifies this`inStack, this`order
      ensures Valid(path) && inStack == old(inStack) - {id}
    {
      LeaveNode(E, reach, visited, inStack, path, order, id);
      inStack := inStack - {id};
      order := order + [id];
    }

    /** The loop over the outgoing edges of the node just recorded. */
    method FollowEdges(id: string, node: Node, cfg: Config, ghost path: seq<string>) returns (stop: Stop)
      requires Wired() && Valid(path) && path != [] && path[|path| - 1] == id && next[id] == 0
      requires id in byId && node == byId[id] && cfg == StepConfig(input, ctx, node, id)
      modifies this
      decreases byId.Keys - visited, 1
      ensures TrueCause(stop)
      ensures stop.Go? ==> Valid(path) && inStack == old(inStack) && old(visited) <= visited
      ensures stop.Go? ==> forall w :: (id, w) in E ==> w in visited - inStack
      ensures stop.Go? ==> forall u :: u in inStack && u != id ==> next[u] == old(next)[u]
      ensures stop.Go? ==> FollowedAll(id, node, cfg)
    {
      var out := Out(id);
      OutEdges(id);
      var fails := SimulatesError(cfg);
      var branch := if fails then "error" else if cfg in ctx.holds then "true" else "false";
      for j := 0 to |out|
        invariant Valid(path) && inStack == old(inStack) && old(visited) <= visited
        invariant next[id] <= j
        invariant forall u :: u in inStack && u != id ==> next[u] == old(next)[u]
        invariant forall l :: 0 <= l < j && Live(byId, input, ctx, out[l]) ==> out[l].target in visited - inStack
      {
        var follow := if node.kind == "condition" then out[j].handle == branch || out[j].handle == ""
                      else if fails then out[j].handle == "error"
                      else out[j].handle != "error";
        if follow {
          var err := Walk(out[j].target, [id], path, j);
          if !err.Go? { return err; }
        }
      }
      AllFollowed(id, visited - inStack);
      HandlesFollowed(id, node, cfg);
      return Go;
    }

    /** A stop is only reported for its real cause. */
    ghost predicate TrueCause(stop: Stop) {
      match stop
      case Go => true
      case Done => cancelAfter.Some?
      case Cyclic(n) => n in reach && OnCycle(E, n)
      case Missing(n) => n in reach && n !in byId
    }

    lemma AppendStep(step: TaskStep, path: seq<string>, i: nat)
      requires Recorded(byId, edges, input, ctx, steps, via, next, visited - {step.nodeId})
      requires StepMatches(byId, input, ctx, step) && Entry(step.nodeId, step.dependsOn, path, i)
      requires path != [] ==> path[|path| - 1] in visited - {step.nodeId}
      ensures var next' := (if path == [] then next else next[path[|path| - 1] := i + 1])[step.nodeId := 0];
              Recorded(byId, edges, input, ctx, steps + [step], via + [i], next', visited - {step.nodeId} + {step.nodeId})
    {
      assert Look(0);
      assert Attaches(byId, edges, input, ctx, steps, via, step, i);
      StepTreeGrows(byId, edges, input, ctx, steps, via, step, i);
      forall k | 1 <= k < |steps| ensures steps[k].dependsOn[0] != step.nodeId {
        DependenciesHaveSteps(byId, edges, input, ctx, steps, via, k);
      }
    }

    lemma BackEdge(id: string, path: seq<string>)
      requires WalkState(E, reach, visited, inStack, path, order) && id in inStack
      requires path == [] || (path[|path| - 1], id) in E
      ensures OnCycle(E, id)
    {
      assert Look(0);
      BackEdgeClosesCycle(E, path, id);
    }

    lemma EntryIsEdge(id: string, dependsOn: seq<string>, path: seq<string>, i: nat)
      requires Wired() && Valid(path) && Entry(id, dependsOn, path, i)
      ensures id in reach
      ensures path == [] || (path[|path| - 1], id) in E
      ensures path != [] ==> path[|path| - 1] in visited
    {
      assert Look(0);
      if path != [] {
        assert path[|path| - 1] in path;
      }
    }
  }

  lemma LiveListsOfGraph(g: Graph, input: Node, ctx: Context)
    ensures LiveLists(NodeById(g.nodes), g.edges, input, ctx, LiveEdges(g, input, ctx))
  {
    var byId, E := NodeById(g.nodes), LiveEdges(g, input, ctx);
    forall id, i | 0 <= i < |EdgesFrom(g.edges, id)|
      ensures EdgesFrom(g.edges, id)[i].source == id && EdgesFrom(g.edges, id)[i] in g.edges
    {
      EdgesFromSound(g.edges, id);
      assert EdgesFrom(g.edges, id)[i] in EdgesFrom(g.edges, id);
    }
    forall id, w | (id, w) in E ensures exists i :: Enters(byId, g.edges, input, ctx, id, i, w) {
      var e :| e in g.edges && Live(byId, input, ctx, e) && (e.source, e.target) == (id, w);
      EdgesFromSound(g.edges, id);
      var i :| 0 <= i < |EdgesFrom(g.edges, id)| && EdgesFrom(g.edges, id)[i] == e;
      assert Enters(byId, g.edges, input, ctx, id, i, w);
    }
  }

  /** Once the walk from the root has returned, the finished nodes are exactly those reachable,
      all of them exist and none lies on a cycle. */
  lemma WalkIsComplete(E: set<(string, string)>, root: string, visited: set<string>, order: seq<string>)
    requires FinishOrder(E, order) && root in order
    requires forall u :: u in visited <==> u in order
    requires forall u :: u in visited ==> Reaches(E, root, u)
    ensures forall u :: u in visited <==> Reaches(E, root, u)
    ensures !ReachableCycle(E, root)
  {
    ReachableIsInClosed(E, visited, root);
    if ReachableCycle(E, root) {
      var v :| Reaches(E, root, v) && OnCycle(E, v);
      var c :| IsCycle(E, c) && v in c;
      var k :| 0 <= k < |c| && c[k] == v;
      PathStaysInClosed(E, visited, c[k..]);
      assert c[k..][|c[k..]| - 1] in c[k..];
      assert (c[|c| - 1], c[0]) in E;
      FinishOrderHasNoCycle(E, order, c);
    }
  }

  /** On a flow that passed validation no live cycle and no missing node can be reached. */
  lemma WellFormedRunsClear(g: Graph, input: Node, ctx: Context)
    requires WellFormed(g) && input in g.nodes
    ensures !ReachableCycle(LiveEdges(g, input, ctx), input.id)
    ensures forall u :: Reaches(LiveEdges(g, input, ctx), input.id, u) ==> u in NodeById(g.nodes)
  {
    var E := LiveEdges(g, input, ctx);
    assert E <= AllEdges(g);
    SubgraphAcyclic(AllEdges(g), E);
    ReachableNodesExist(g, input, ctx);
  }

  /** The steps of a finished walk: one for exactly the nodes reachable over live edges, in the
      order described by OrderedSteps. */
  ghost predicate Expands(g: Graph, input: Node, ctx: Context, steps: seq<TaskStep>) {
    && steps != []
    && (exists via :: OrderedSteps(NodeById(g.nodes), g.edges, input, ctx, steps, via))
    && (forall u :: u in StepIds(steps) <==> Reaches(LiveEdges(g, input, ctx), input.id, u))
  }

  /** Nothing reachable over live edges makes the walk stop. */
  ghost predicate RunsClear(g: Graph, input: Node, ctx: Context) {
    && !ReachableCycle(LiveEdges(g, input, ctx), input.id)
    && forall u :: Reaches(LiveEdges(g, input, ctx), input.id, u) ==> u in NodeById(g.nodes)
  }

  /** The walk from the input node over the live graph. */
  method WalkFrom(g: Graph, input: Node, ctx: Context, cancelAfter: Option<nat>) returns (r: Outcome)
    ensures r.Steps? || r.Cancelled? || r.CycleAt? || r.NotFound?
    ensures r.Steps? ==> Expands(g, input, ctx, r.steps) && RunsClear(g, input, ctx)
    ensures r.Cancelled? ==> cancelAfter.Some?
    ensures r.CycleAt? ==> Reaches(LiveEdges(g, input, ctx), input.id, r.node) && OnCycle(LiveEdges(g, input, ctx), r.node)
    ensures r.NotFound? ==> Reaches(LiveEdges(g, input, ctx), input.id, r.node) && r.node !in NodeById(g.nodes)
  {
    var byId := BuildNodeById(g.nodes);
    var edgesFrom := BuildEdgesFrom(g.edges);
    ghost var E := LiveEdges(g, input, ctx);
    ghost var reach := iset u | Reaches(E, input.id, u);
    LiveListsOfGraph(g, input, ctx);
    ReachIsClosed(E, input.id);
    var walker := new Walker(byId, edgesFrom, input, ctx, cancelAfter, g.edges, E, reach);
    var stop := walker.Walk(input.id, [], [], 0);
    match stop
    case Done => return Cancelled;
    case Cyclic(n) => return CycleAt(n);
    case Missing(n) => return NotFound(n);
    case Go =>
      assert Look(0);
      StepTreeIsOrdered(byId, g.edges, input, ctx, walker.steps, walker.via);
      WalkIsComplete(E, input.id, walker.visited, walker.order);
      AllStepsExist(byId, g.edges, input, ctx, walker.steps, walker.via);
      return Steps(walker.steps);
  }

  lemma ReachIsClosed(E: set<(string, string)>, root: string)
    ensures Reaches(E, root, root)
    ensures forall u, w :: Reaches(E, root, u) && (u, w) in E ==> Reaches(E, root, w)
  {
    ReachesSelf(E, root);
    forall u, w | Reaches(E, root, u) && (u, w) in E ensures Reaches(E, root, w) {
      ReachesStep(E, root, u, w);
    }
  }

  lemma AllStepsExist(byId: map<string, Node>, edges: seq<Edge>, input: Node, ctx: Context,
                      steps: seq<TaskStep>, via: seq<nat>)
    requires OrderedSteps(byId, edges, input, ctx, steps, via)
    ensures forall u :: u in StepIds(steps) ==> u in byId
  {
    StepIdsSound(steps);
  }

  // ----- routing, read off the steps alone -----

  predicate HasStep(steps: seq<TaskStep>, id: string) { exists k :: 0 <= k < |steps| && steps[k].nodeId == id }

  /** Step k hangs off the one step it depends on, by an edge of the graph that is followed there. */
  ghost predicate HangsOff(g: Graph, ctx: Context, steps: seq<TaskStep>, k: nat)
    requires k < |steps|
  {
    exists i, e :: 0 <= i < k && e in g.edges && steps[k].dependsOn == [steps[i].nodeId]
                   && e.source == steps[i].nodeId && e.target == steps[k].nodeId && Routes(ctx, steps[i], e.handle)
  }

  /** The target of every edge that is followed out of a step is a step, and every step but the first
      hangs off an earlier one by such an edge. */
  ghost predicate Routed(g: Graph, ctx: Context, steps: seq<TaskStep>) {
    && (forall k, e :: 0 <= k < |steps| && e in g.edges && e.source == steps[k].nodeId && Routes(ctx, steps[k], e.handle)
                       ==> HasStep(steps, e.target))
    && (forall k :: 1 <= k < |steps| ==> HangsOff(g, ctx, steps, k))
  }

  lemma TargetHasStep(g: Graph, input: Node, ctx: Context, steps: seq<TaskStep>, k: nat, e: Edge)
    requires Expands(g, input, ctx, steps) && k < |steps| && e in g.edges && e.source == steps[k].nodeId
    requires Live(NodeById(g.nodes), input, ctx, e)
    ensures HasStep(steps, e.target)
  {
    var E := LiveEdges(g, input, ctx);
    StepIdsSound(steps);
    assert steps[k].nodeId in StepIds(steps);
    assert (e.source, e.target) in E;
    ReachesStep(E, input.id, e.source, e.target);
    assert e.target in StepIds(steps);
  }

  /** The steps of an expansion follow the handles of the edges, whatever the graph. */
  lemma StepsAreRouted(g: Graph, input: Node, ctx: Context, steps: seq<TaskStep>)
    requires Expands(g, input, ctx, steps)
    ensures Routed(g, ctx, steps)
  {
    var byId := NodeById(g.nodes);
    var via :| OrderedSteps(byId, g.edges, input, ctx, steps, via);
    forall k, e | 0 <= k < |steps| && e in g.edges && e.source == steps[k].nodeId && Routes(ctx, steps[k], e.handle)
      ensures HasStep(steps, e.target)
    {
      RoutesIsLive(byId, input, ctx, steps[k], e);
      TargetHasStep(g, input, ctx, steps, k, e);
    }
    forall k | 1 <= k < |steps| ensures HangsOff(g, ctx, steps, k) {
      assert Created(byId, g.edges, input, ctx, steps, via, k);
      var i :| 0 <= i < k && steps[k].dependsOn == [steps[i].nodeId]
               && Enters(byId, g.edges, input, ctx, steps[i].nodeId, via[k], steps[k].nodeId);
      EdgesFromSound(g.edges, steps[i].nodeId);
      var e := EdgesFrom(g.edges, steps[i].nodeId)[via[k]];
      assert e in EdgesFrom(g.edges, steps[i].nodeId);
      RoutesIsLive(byId, input, ctx, steps[i], e);
    }
  }

  /** The configuration of every step is its node's data, except that the input node's id gets the
      data of the first input node with the source id. */
  ghost predicate Configured(g: Graph, ctx: Context, input: Node, s: TaskStep) {
    && (exists n :: n in g.nodes && n.id == s.nodeId && s.nodeKind == n.kind && (s.nodeId != input.id ==> s.config == n.data))
    && (s.nodeId == input.id ==> s.config == input.data["source_id" := Text(ctx.sourceId)])
  }

  lemma StepsAreConfigured(g: Graph, input: Node, ctx: Context, steps: seq<TaskStep>)
    requires Expands(g, input, ctx, steps)
    ensures forall k :: 0 <= k < |steps| ==> Configured(g, ctx, input, steps[k])
  {
    var byId := NodeById(g.nodes);
    var via :| OrderedSteps(byId, g.edges, input, ctx, steps, via);
    NodeByIdSound(g.nodes);
    forall k | 0 <= k < |steps| ensures Configured(g, ctx, input, steps[k]) {
      assert StepMatches(byId, input, ctx, steps[k]);
      assert byId[steps[k].nodeId] in g.nodes;
    }
  }

  /** Success yields exactly the live-reachable nodes, each once and in walk order; an error has
      its true cause; without cancellation the walk succeeds exactly when no cycle and no missing
      node can be reached over live edges, so always on a flow that passed validation. */
  method ExecuteFlow(g: Graph, ctx: Context, cancelAfter: Option<nat>) returns (r: Outcome)
    ensures r.NoNodes? <==> g.nodes == []
    ensures r.NoInput? <==> g.nodes != [] && !HasInput(g)
    ensures HasInput(g) ==> FirstInput(g.nodes).Some?
    ensures r.Steps? ==> HasInput(g) && Expands(g, FirstInput(g.nodes).value, ctx, r.steps) && Routed(g, ctx, r.steps)
    ensures r.Cancelled? ==> cancelAfter.Some?
    ensures r.CycleAt? ==> HasInput(g) && ReachableCycle(LiveEdges(g, FirstInput(g.nodes).value, ctx), FirstInput(g.nodes).value.id)
    ensures r.CycleAt? ==> OnCycle(LiveEdges(g, FirstInput(g.nodes).value, ctx), r.node)
    ensures r.NotFound? ==> HasInput(g) && r.node !in NodeById(g.nodes)
                            && Reaches(LiveEdges(g, FirstInput(g.nodes).value, ctx), FirstInput(g.nodes).value.id, r.node)
    ensures HasInput(g) && cancelAfter.None? ==> (r.Steps? <==> RunsClear(g, FirstInput(g.nodes).value, ctx))
    ensures HasInput(g) && cancelAfter.None? && EndpointsExist(g) ==>
              (r.CycleAt? <==> ReachableCycle(LiveEdges(g, FirstInput(g.nodes).value, ctx), FirstInput(g.nodes).value.id))
    ensures WellFormed(g) && cancelAfter.None? ==> r.Steps?
  {
    FirstInputSound(g.nodes);
    if |g.nodes| == 0 { return NoNodes; }
    var found := FirstInput(g.nodes);
    if found.None? { return NoInput; }
    var input := found.value;
    assert input in g.nodes;
    r := WalkFrom(g, input, ctx, cancelAfter);
    if r.Steps? { StepsAreRouted(g, input, ctx, r.steps); }
    if EndpointsExist(g) { ReachableNodesExist(g, input, ctx); }
    if WellFormed(g) { WellFormedRunsClear(g, input, ctx); }
  }

  lemma ReachableNodesExist(g: Graph, input: Node, ctx: Context)
    requires EndpointsExist(g) && input in g.nodes
    ensures forall u :: Reaches(LiveEdges(g, input, ctx), input.id, u) ==> u in NodeById(g.nodes)
  {
    var E := LiveEdges(g, input, ctx);
    NodeByIdSound(g.nodes);
    forall u, w | u in NodeById(g.nodes).Keys && (u, w) in E ensures w in NodeById(g.nodes).Keys {
      var e :| e in g.edges && (e.source, e.target) == (u, w);
    }
    ReachableIsInClosed(E, NodeById(g.nodes).Keys, input.id);
  }
}
