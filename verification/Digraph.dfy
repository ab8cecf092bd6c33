/**
 Paths, cycles, reachability and depth-first finish orders of a finite directed graph given
 by its set of edges.  Both traversals of the flow engine are proved against these notions.
 */
module Digraph {
  import opened Basics

  ghost predicate IsPath<T(!new)>(E: set<(T, T)>, p: seq<T>) {
    && |p| > 0
    && forall i, j :: 0 <= i < j == i + 1 < |p| ==> (p[i], p[j]) in E
  }

  ghost predicate PathFromTo<T(!new)>(E: set<(T, T)>, p: seq<T>, a: T, b: T) {
    IsPath(E, p) && p[0] == a && p[|p| - 1] == b
  }

  /** b can be reached from a in zero or more edges. */
  ghost predicate Reaches<T(!new)>(E: set<(T, T)>, a: T, b: T) {
    exists p :: PathFromTo(E, p, a, b)
  }

  /** A closed walk: a path whose last vertex has an edge back to the first. */
  ghost predicate IsCycle<T(!new)>(E: set<(T, T)>, c: seq<T>) {
    IsPath(E, c) && (c[|c| - 1], c[0]) in E
  }

  ghost predicate OnCycle<T(!new)>(E: set<(T, T)>, v: T) {
    exists c :: IsCycle(E, c) && v in c
  }

  ghost predicate Acyclic<T(!new)>(E: set<(T, T)>) {
    forall c :: !IsCycle(E, c)
  }

  /** Every vertex comes after all of its successors: the order in which a depth-first search
      finishes vertices, a topological order read backwards. */
  ghost predicate FinishOrder<T(!new)>(E: set<(T, T)>, order: seq<T>) {
    && Distinct(order)
    && forall i, v :: 0 <= i < |order| && (order[i], v) in E ==> v in order[..i]
  }

  lemma ReachesSelf<T(!new)>(E: set<(T, T)>, a: T)
    ensures Reaches(E, a, a)
  {
    assert PathFromTo(E, [a], a, a);
  }

  lemma ReachesStep<T(!new)>(E: set<(T, T)>, a: T, b: T, c: T)
    requires Reaches(E, a, b) && (b, c) in E
    ensures Reaches(E, a, c)
  {
    var p :| PathFromTo(E, p, a, b);
    assert PathFromTo(E, p + [c], a, c);
  }

  /** A path that starts inside a set closed under E stays inside it. */
  lemma {:induction false} PathStaysInClosed<T(!new)>(E: set<(T, T)>, closed: set<T>, p: seq<T>)
    requires forall u, v :: u in closed && (u, v) in E ==> v in closed
    requires IsPath(E, p) && p[0] in closed
    ensures forall v :: v in p ==> v in closed
  {
    if |p| > 1 {
      assert IsPath(E, p[1..]) by {
        forall i | 0 <= i < |p[1..]| - 1 ensures (p[1..][i], p[1..][i + 1]) in E {
          assert (p[i + 1], p[i + 2]) in E;
        }
      }
      assert (p[0], p[1]) in E;
      PathStaysInClosed(E, closed, p[1..]);
      assert p == [p[0]] + p[1..];
    }
  }

  lemma ReachableIsInClosed<T(!new)>(E: set<(T, T)>, closed: set<T>, a: T)
    requires a in closed
    requires forall u, v :: u in closed && (u, v) in E ==> v in closed
    ensures forall v :: Reaches(E, a, v) ==> v in closed
  {
    forall v | Reaches(E, a, v) ensures v in closed {
      var p :| PathFromTo(E, p, a, v);
      PathStaysInClosed(E, closed, p);
    }
  }

  /** Along a path the finish position strictly falls. */
  lemma {:induction false} PathDescends<T(!new)>(E: set<(T, T)>, order: seq<T>, p: seq<T>, i: nat)
    requires FinishOrder(E, order) && IsPath(E, p)
    requires i < |order| && p[0] == order[i]
    ensures exists k :: 0 <= k <= i && k + |p| - 1 <= i && order[k] == p[|p| - 1]
  {
    if |p| > 1 {
      assert (p[0], p[1]) in E;
      var k :| 0 <= k < i && order[k] == p[1];
      assert IsPath(E, p[1..]) by {
        forall j | 0 <= j < |p[1..]| - 1 ensures (p[1..][j], p[1..][j + 1]) in E {
          assert (p[j + 1], p[j + 2]) in E;
        }
      }
      PathDescends(E, order, p[1..], k);
    } else {
      assert order[i] == p[|p| - 1];
    }
  }

  /** No vertex of a finish order lies at the start of a closed walk. */
  lemma FinishOrderHasNoCycle<T(!new)>(E: set<(T, T)>, order: seq<T>, c: seq<T>)
    requires FinishOrder(E, order) && IsCycle(E, c)
    ensures c[0] !in order
  {
    if c[0] in order {
      var i :| 0 <= i < |order| && order[i] == c[0];
      PathDescends(E, order, c, i);
      assert false;
    }
  }

  /** An edge from the end of a path back to a vertex on it closes a cycle through that vertex. */
  lemma BackEdgeClosesCycle<T(!new)>(E: set<(T, T)>, stack: seq<T>, v: T)
    requires IsPath(E, stack) && v in stack && (stack[|stack| - 1], v) in E
    ensures OnCycle(E, v)
  {
    var i :| 0 <= i < |stack| && stack[i] == v;
    var c := stack[i..];
    forall j | 0 <= j < |c| - 1 ensures (c[j], c[j + 1]) in E {
      assert (stack[i + j], stack[i + j + 1]) in E;
    }
    assert IsCycle(E, c) && c[0] == v;
  }

  /** Finishing a vertex whose successors are all finished extends the order. */
  lemma FinishOrderExtends<T(!new)>(E: set<(T, T)>, order: seq<T>, v: T)
    requires FinishOrder(E, order) && v !in order
    requires forall w :: (v, w) in E ==> w in order
    ensures FinishOrder(E, order + [v])
  {
    var o := order + [v];
    forall i, w | 0 <= i < |o| && (o[i], w) in E ensures w in o[..i] {
      if i < |order| {
        assert o[..i] == order[..i];
      } else {
        assert o[..i] == order;
      }
    }
  }

  /** Fewer edges: cycles and reachability can only be lost. */
  lemma SubgraphAcyclic<T(!new)>(E: set<(T, T)>, F: set<(T, T)>)
    requires F <= E && Acyclic(E)
    ensures Acyclic(F)
  {
    forall c | IsCycle(F, c) ensures false {
      assert IsCycle(E, c);
    }
  }
}
