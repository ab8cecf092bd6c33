/**
 Concrete runs of the job protocol, built turn by turn: what the runs that show a property to fail
 are made of.
 */
module RunBuilder {
  import opened Basics
  import opened JobRows
  import opened Protocol

  const BOTH := Config(true, true)
  const GO := Choice(0, 0, 0, true)

  datatype Run = Run(ss: seq<Sys>, ls: seq<Label>) {
    ghost predicate Ok() { IsRun(BOTH, ss, ls) }

    function Last(): Sys
      requires ss != []
    {
      ss[|ss| - 1]
    }
  }

  /** Run r continues run q by one step. */
  predicate Continues(r: Run, q: Run, l: Label) { q.ss <= r.ss && r.ls == q.ls + [l] }

  /** Steps that report nothing about a row. */
  predicate NoReports(ls: seq<Label>) {
    forall i :: 0 <= i < |ls| ==> !ActionOf(ls[i]).Fault? && !ActionOf(ls[i]).Finish?
  }

  /** Where a run has got to. */
  ghost predicate At(r: Run, db: Db, handed: set<nat>, threads: map<nat, Thread>) {
    forall k :: Look(k) ==> r.ss != [] && r.Ok() && r.Last().db == db && r.Last().h.handed == handed && r.Last().threads == threads
  }

  lemma Extend(r: Run, l: Label, s': Sys) returns (r': Run)
    requires r.ss != [] && r.Ok() && SysStep(BOTH, r.Last(), l, s')
    ensures r'.ss == r.ss + [s'] && r'.ls == r.ls + [l] && r'.Ok() && r'.Last() == s'
  {
    r' := Run(r.ss + [s'], r.ls + [l]);
    forall i | 0 <= i < |r'.ls| ensures SysStep(BOTH, r'.ss[i], r'.ls[i], r'.ss[i + 1]) {
      if i < |r.ls| { assert SysStep(BOTH, r.ss[i], r.ls[i], r.ss[i + 1]); }
    }
  }

  lemma Start() returns (r: Run)
    ensures At(r, Db([], []), {}, map[]) && r.ls == []
  {
    r := Run([Sys(Db([], []), History({}, {}, {}, [], [], {}), map[])], []);
  }

  lemma Call(r: Run, db: Db, handed: set<nat>, threads: map<nat, Thread>, id: nat, call: Thread) returns (r': Run)
    requires At(r, db, handed, threads) && id !in threads
    requires forall h: History :: h.handed == handed ==> MayBegin(db, h, call)
    ensures At(r', db, handed, threads[id := call]) && Continues(r', r, Begin(id, call))
  {
    assert Look(0);
    var s := r.Last();
    r' := Extend(r, Begin(id, call), s.(threads := s.threads[id := call]));
  }

  function Handed(handed: set<nat>, a: Action): set<nat> {
    if a.Assign? then handed + {a.task} else handed
  }

  /** Thread ids from here on are never used by these runs, except for spawned threads. */
  const SPARE: nat := 99

  /** One turn of thread id that spawns nothing and looks at nothing but the tables. */
  lemma Go(r: Run, db: Db, handed: set<nat>, threads: map<nat, Thread>, id: nat, a: Action, next: Thread) returns (r': Run)
    requires At(r, db, handed, threads) && id in threads && SPARE !in threads
    requires forall h: History :: h.handed == handed ==> Next(BOTH, db, h, threads[id], GO) == Do(a, next)
    ensures At(r', Apply(db, a), Handed(handed, a), threads[id := next]) && Continues(r', r, Step(id, SPARE, GO, a))
  {
    assert Look(0);
    var s := r.Last();
    var turn := Next(BOTH, s.db, s.h, threads[id], GO);
    assert turn == Do(a, next);
    r' := Extend(r, Step(id, SPARE, GO, a), AfterTurn(s, id, SPARE, turn));
  }

  /** The recount turn, whose next state carries the number of recounts so far. */
  lemma GoCount(r: Run, db: Db, handed: set<nat>, threads: map<nat, Thread>, id: nat, j: nat) returns (r': Run, since: nat)
    requires At(r, db, handed, threads) && id in threads && threads[id] == Count(j) && SPARE !in threads
    ensures At(r', Recount(db, j), handed, threads[id := CheckRead(j, since)]) && Continues(r', r, Step(id, SPARE, GO, CountTasks(j)))
  {
    assert Look(0);
    var s := r.Last();
    since := |s.h.counted|;
    var turn := Next(BOTH, s.db, s.h, threads[id], GO);
    assert turn == Do(CountTasks(j), CheckRead(j, since));
    r' := Extend(r, Step(id, SPARE, GO, CountTasks(j)), AfterTurn(s, id, SPARE, turn));
  }

  /** The claiming turn, which starts the runner as the spare thread. */
  lemma GoClaim(r: Run, db: Db, handed: set<nat>, threads: map<nat, Thread>, id: nat, j: nat, t: nat, paths: seq<string>)
    returns (r': Run, serial: nat)
    requires At(r, db, handed, threads) && id in threads && threads[id] == ConcatClaim(j, t, paths) && SPARE !in threads
    requires Claimable(db, t)
    ensures At(r', ClaimRow(db, t), handed, threads[id := Done][SPARE := RunConcat(j, t, paths, serial)]) && Continues(r', r, Step(id, SPARE, GO, Claim(t)))
  {
    assert Look(0);
    var s := r.Last();
    serial := |s.h.claims|;
    var turn := Next(BOTH, s.db, s.h, threads[id], GO);
    assert turn == Turn(Claim(t), Done, Some(RunConcat(j, t, paths, serial)));
    r' := Extend(r, Step(id, SPARE, GO, Claim(t)), AfterTurn(s, id, SPARE, turn));
  }

  // ----- an expansion by hand -----

  lemma NextRow(db: Db, h: History, plan: seq<RowPlan>)
    requires plan != [] && !ChunkTaken(db, 0, plan[0].chunk)
    ensures Next(BOTH, db, h, ExpandRows(0, plan), GO)
         == Do(AddTask(NewTask(0, plan[0].chunk, plan[0].kind, plan[0].output)), AddedRow(0, plan))
  {
  }

  /** Thread 1, the expansion of job 0, adds its next row. */
  lemma GoRow(r: Run, db: Db, handed: set<nat>, threads: map<nat, Thread>, plan: seq<RowPlan>, row: Task) returns (r': Run)
    requires At(r, db, handed, threads) && 1 in threads && threads[1] == ExpandRows(0, plan) && SPARE !in threads
    requires plan != [] && !ChunkTaken(db, 0, plan[0].chunk)
    requires row == NewTask(0, plan[0].chunk, plan[0].kind, plan[0].output)
    ensures At(r', InsertTask(db, row), handed, threads[1 := AddedRow(0, plan)])
    ensures Continues(r', r, Step(1, SPARE, GO, AddTask(row)))
  {
    forall h: History | h.handed == handed
      ensures Next(BOTH, db, h, threads[1], GO) == Do(AddTask(row), AddedRow(0, plan))
    {
      NextRow(db, h, plan);
    }
    r' := Go(r, db, handed, threads, 1, AddTask(row), AddedRow(0, plan));
  }

  function NewlyCreated(spec: JobSpec): Job
    requires spec.dependsOn.None?
  {
    Job(Queued, spec.priority, spec.tags, spec.maxRetries, None, false, ZERO)
  }

  /** Job 0 is created, by thread 0, and thread 1 has begun to expand it. */
  lemma CreateJob(spec: JobSpec) returns (r: Run)
    requires spec.dependsOn.None?
    ensures At(r, Db([NewlyCreated(spec)], []), {}, map[0 := Done]) && NoReports(r.ls)
  {
    r := Start();
    r := Call(r, Db([], []), {}, map[], 0, CreateCheck(spec, []));
    r := Go(r, Db([], []), {}, map[0 := CreateCheck(spec, [])], 0, Nothing, CreateInsert(spec, NoDependency, []));
    r := Go(r, Db([], []), {}, map[0 := CreateInsert(spec, NoDependency, [])], 0, AddJob(NewlyCreated(spec)), Done);
  }

  lemma BeginExpansion(spec: JobSpec, plan: seq<RowPlan>) returns (r: Run)
    requires spec.dependsOn.None?
    ensures At(r, Db([NewlyCreated(spec)], []), {}, map[0 := Done, 1 := ExpandRows(0, plan)]) && NoReports(r.ls)
  {
    var db := Db([NewlyCreated(spec)], []);
    r := CreateJob(spec);
    r := Call(r, db, {}, map[0 := Done], 1, ExpandRead(0, plan));
    r := Go(r, db, {}, map[0 := Done, 1 := ExpandRead(0, plan)], 1, Nothing, ExpandRows(0, plan));
  }
}
