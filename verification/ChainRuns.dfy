/**
 The jobs of a chain request, in every run.
 */
module ChainRuns {
  import opened Basics
  import opened JobRows
  import opened Protocol
  import opened ProtocolInvariant
  import opened ProtocolSteps
  import opened ProtocolTheorems

  /** Step x is a turn of thread id. */
  predicate TurnOf(ls: seq<Label>, x: nat, id: nat) { x < |ls| && ls[x].Step? && ls[x].id == id }

  /** The jobs that thread id created between states b and n. */
  ghost function Made(ss: seq<Sys>, ls: seq<Label>, b: nat, n: nat, id: nat): seq<nat>
    requires b <= n < |ss|
    decreases n
  {
    if n == b then []
    else Made(ss, ls, b, n - 1, id) + if TurnOf(ls, n - 1, id) && ls[n - 1].action.AddJob? then [|ss[n - 1].db.jobs|] else []
  }

  /** Between its arrival as step b and state n the call did not die, and the database answered its
      lookups. */
  ghost predicate Answered(ls: seq<Label>, b: nat, n: nat, id: nat) {
    forall x :: b < x < n && x < |ls| ==> ls[x] != Die(id) && (TurnOf(ls, x, id) ==> ls[x].c.ok)
  }

  /** Where a chain request stands after it created these jobs. */
  ghost predicate Chaining(db: Db, th: Thread, made: seq<nat>) {
    && IsChain(db, made)
    && (th.CreateCheck? || th.CreateInsert? || th.Done?)
    && (made != [] && !th.Done? ==> th.spec.dependsOn == Some(made[|made| - 1]))
    && (made != [] && th.CreateInsert? ==> th.seen.Unmet? || th.seen.Met?)
  }

  lemma ChainGrows(db: Db, h: History, db': Db, h': History, chain: seq<nat>)
    requires IsChain(db, chain) && Grows(db, h, db', h')
    ensures IsChain(db', chain)
  {
    forall i | 0 <= i < |chain| ensures HasJob(db', chain[i]) && SameJob(db.jobs[chain[i]], db'.jobs[chain[i]]) {}
  }

  lemma ChainAppend(db: Db, chain: seq<nat>, j: nat)
    requires IsChain(db, chain) && HasJob(db, j)
    requires chain != [] ==> db.jobs[j].dependsOn == Some(chain[|chain| - 1]) && db.jobs[j].sawDependency
    ensures IsChain(db, chain + [j])
  {
    var longer := chain + [j];
    forall i, k | 0 <= i < |longer| && 0 <= k < |longer| && k == i + 1
      ensures db.jobs[longer[k]].dependsOn == Some(longer[i]) && db.jobs[longer[k]].sawDependency
    {
      if k < |chain| { assert longer[i] == chain[i] && longer[k] == chain[k]; }
    }
  }

  /** A turn of the request itself. */
  lemma TurnChains(db: Db, h: History, th: Thread, made: seq<nat>, c: Choice)
    requires Chaining(db, th, made) && IsCreate(th) && c.ok
    ensures var turn := CreateTurn(db, th, c);
            turn.spawn.None?
            && Chaining(Apply(db, turn.action), turn.next, made + if turn.action.AddJob? then [|db.jobs|] else [])
  {
    var turn := CreateTurn(db, th, c);
    ActionGrows(db, h, turn.action);
    ChainGrows(db, h, Apply(db, turn.action), Remember(db, h, turn.action), made);
    if turn.action.AddJob? { ChainAppend(Apply(db, turn.action), made, |db.jobs|); } else { assert made + [] == made; }
  }

  /** What another call does. */
  lemma OtherStep(cfg: Config, s: Sys, l: Label, s': Sys, id: nat)
    requires SysStep(cfg, s, l, s') && id in s.threads && l != Die(id) && !(l.Step? && l.id == id)
    ensures id in s'.threads && s'.threads[id] == s.threads[id]
  {
    assert Look(0);
  }

  lemma OwnStep(cfg: Config, s: Sys, l: Label, s': Sys)
    requires SysStep(cfg, s, l, s') && l.Step? && l.id in s.threads
    requires Next(cfg, s.db, s.h, s.threads[l.id], l.c).spawn.None?
    ensures l.id in s'.threads && s'.threads[l.id] == Next(cfg, s.db, s.h, s.threads[l.id], l.c).next
    ensures l.action == Next(cfg, s.db, s.h, s.threads[l.id], l.c).action
  {
    assert Look(0);
  }

  /** A step in which the request creates nothing. */
  lemma QuietStep(s: Sys, a: Action, s': Sys, th: Thread, made: seq<nat>)
    requires Chaining(s.db, th, made) && s'.db == Apply(s.db, a) && s'.h == Remember(s.db, s.h, a)
    ensures Chaining(s'.db, th, made)
  {
    ActionGrows(s.db, s.h, a);
    ChainGrows(s.db, s.h, s'.db, s'.h, made);
  }

  lemma CreateStep(cfg: Config, s: Sys, l: Label, s': Sys, made: seq<nat>)
    requires SysStep(cfg, s, l, s') && l.Step? && l.id in s.threads && IsCreate(s.threads[l.id]) && l.c.ok
    requires Chaining(s.db, s.threads[l.id], made) && s'.db == Apply(s.db, l.action)
    ensures l.id in s'.threads
    ensures Chaining(s'.db, s'.threads[l.id], made + if l.action.AddJob? then [|s.db.jobs|] else [])
  {
    TurnChains(s.db, s.h, s.threads[l.id], made, l.c);
    assert Next(cfg, s.db, s.h, s.threads[l.id], l.c) == CreateTurn(s.db, s.threads[l.id], l.c);
    OwnStep(cfg, s, l, s');
  }

  lemma DoneStep(cfg: Config, s: Sys, l: Label, s': Sys)
    requires SysStep(cfg, s, l, s') && l.Step? && l.id in s.threads && s.threads[l.id].Done?
    ensures l.id in s'.threads && s'.threads[l.id].Done? && l.action == Nothing
  {
    OwnStep(cfg, s, l, s');
  }

  lemma StepChains(cfg: Config, s: Sys, l: Label, s': Sys, id: nat, made: seq<nat>)
    requires SysStep(cfg, s, l, s') && id in s.threads && Chaining(s.db, s.threads[id], made)
    requires l != Die(id) && (l.Step? && l.id == id ==> l.c.ok)
    requires s'.db == Apply(s.db, ActionOf(l)) && s'.h == Remember(s.db, s.h, ActionOf(l))
    ensures id in s'.threads
    ensures Chaining(s'.db, s'.threads[id], made + if l.Step? && l.id == id && l.action.AddJob? then [|s.db.jobs|] else [])
  {
    if l.Step? && l.id == id && !s.threads[id].Done? {
      CreateStep(cfg, s, l, s', made);
    } else {
      assert made + [] == made;
      QuietStep(s, ActionOf(l), s', s.threads[id], made);
      if l.Step? && l.id == id { DoneStep(cfg, s, l, s'); } else { OtherStep(cfg, s, l, s', id); }
    }
  }

  /** The jobs a chain request has created so far are a chain, in the sense of ChainReleasesInOrder,
      if the database answered its lookups, whatever other calls do in between. */
  lemma {:induction false} ChainRequestsChain(cfg: Config, ss: seq<Sys>, ls: seq<Label>, b: nat, n: nat, id: nat)
    requires IsRun(cfg, ss, ls) && b < n < |ss| && ls[b].Begin? && ls[b].id == id && ls[b].call.CreateCheck?
    requires Answered(ls, b, n, id)
    ensures IsChain(ss[n].db, Made(ss, ls, b + 1, n, id))
    ensures id in ss[n].threads && Chaining(ss[n].db, ss[n].threads[id], Made(ss, ls, b + 1, n, id))
    decreases n
  {
    assert SysStep(cfg, ss[n - 1], ls[n - 1], ss[n]);
    if n == b + 1 {
      assert Look(0);
    } else {
      ChainRequestsChain(cfg, ss, ls, b, n - 1, id);
      StepOf(cfg, ss, ls, n - 1);
      StepChains(cfg, ss[n - 1], ls[n - 1], ss[n], id, Made(ss, ls, b + 1, n - 1, id));
    }
  }
}
