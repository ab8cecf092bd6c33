/**
 A run in which the merge starts before all chunks are encoded: an agent finishes the first chunk
 while the expansion is still adding rows, and the completion check lists the rows after the merge
 row has appeared but with the counters from before.
 */
module MergeRace {
  import opened Basics
  import opened Frames
  import opened JobRows
  import opened MergeTheorems
  import opened Protocol
  import opened ProtocolTheorems
  import opened RunBuilder

  // ----- the cast -----

  const SPEC := JobSpec(0, {}, 0, None)
  const RESULT := Result(0, 0, true, 0, "", false)

  /** The chunk files and the merged file. */
  datatype Files = Files(a: string, b: string, out: string)

  function Plan(f: Files): seq<RowPlan> { [RowPlan(0, Encode, f.a, true), RowPlan(1, Encode, f.b, true), RowPlan(2, Concat, f.out, false)] }

  function JobWith(n: Counts): Job { Job(Queued, 0, {}, 0, None, false, n) }

  function First(f: Files, s: Status): Task {
    NewTask(0, 0, Encode, f.a).(status := s, agent := if s == Pending then None else Some(7),
                                exitCode := if s == Completed then Some(0) else None)
  }

  function Second(f: Files): Task { NewTask(0, 1, Encode, f.b) }
  function Merging(f: Files): Task { NewTask(0, 2, Concat, f.out) }

  function Two(f: Files): seq<Task> { [First(f, Completed), Second(f)] }
  function Three(f: Files): seq<Task> { [First(f, Completed), Second(f), Merging(f)] }

  const HALF := Counts(2, 1, 0, 1, 0)

  function Cast(plan: seq<RowPlan>, check: Thread): map<nat, Thread> {
    map[0 := Done, 1 := ExpandRows(0, plan), 2 := PollCount(0), 3 := check]
  }

  // ----- up to the recount -----

  lemma AddFirst(f: Files) returns (r: Run)
    ensures At(r, Db([JobWith(ZERO)], [First(f, Pending)]), {}, map[0 := Done, 1 := ExpandScripts(0, Encode, Plan(f)[1..])])
  {
    r := BeginExpansion(SPEC, Plan(f));
    r := GoRow(r, Db([JobWith(ZERO)], []), {}, map[0 := Done, 1 := ExpandRows(0, Plan(f))], Plan(f), First(f, Pending));
  }

  lemma ExpandFirst(f: Files) returns (r: Run)
    ensures At(r, Db([JobWith(ZERO)], [First(f, Pending)]), {}, map[0 := Done, 1 := ExpandRows(0, Plan(f)[1..])])
  {
    r := AddFirst(f);
    r := Go(r, Db([JobWith(ZERO)], [First(f, Pending)]), {}, map[0 := Done, 1 := ExpandScripts(0, Encode, Plan(f)[1..])],
            1, Nothing, ExpandRows(0, Plan(f)[1..]));
  }

  lemma PollFirst(f: Files) returns (r: Run)
    ensures At(r, Db([JobWith(ZERO)], [First(f, Assigned)]), {0},
               map[0 := Done, 1 := ExpandRows(0, Plan(f)[1..]), 2 := PollCount(0)])
  {
    var db, threads := Db([JobWith(ZERO)], [First(f, Pending)]), map[0 := Done, 1 := ExpandRows(0, Plan(f)[1..])];
    r := ExpandFirst(f);
    r := Call(r, db, {}, threads, 2, PollClaim(7, {}));
    r := Go(r, db, {}, threads[2 := PollClaim(7, {})], 2, Assign(0, 7), PollCount(0));
  }

  lemma ReportFirst(f: Files) returns (r: Run)
    ensures At(r, Db([JobWith(ZERO)], [First(f, Completed)]), {0}, Cast(Plan(f)[1..], Count(0)))
  {
    var db, threads := Db([JobWith(ZERO)], [First(f, Assigned)]),
                       map[0 := Done, 1 := ExpandRows(0, Plan(f)[1..]), 2 := PollCount(0)];
    r := PollFirst(f);
    r := Call(r, db, {0}, threads, 3, Record(RESULT));
    r := Go(r, db, {0}, threads[3 := Record(RESULT)], 3, Finish(0, 0), Count(0));
  }

  lemma AddSecond(f: Files) returns (r: Run)
    ensures At(r, Db([JobWith(ZERO)], Two(f)), {0}, Cast(Plan(f)[1..], Count(0))[1 := ExpandScripts(0, Encode, Plan(f)[2..])])
  {
    r := ReportFirst(f);
    var plan := Plan(f)[1..];
    assert plan[0] == Plan(f)[1] && plan[1..] == Plan(f)[2..];
    r := GoRow(r, Db([JobWith(ZERO)], [First(f, Completed)]), {0}, Cast(plan, Count(0)), plan, Second(f));
  }

  lemma SecondRow(f: Files) returns (r: Run)
    ensures At(r, Db([JobWith(ZERO)], Two(f)), {0}, Cast(Plan(f)[2..], Count(0)))
  {
    var threads := Cast(Plan(f)[1..], Count(0))[1 := ExpandScripts(0, Encode, Plan(f)[2..])];
    r := AddSecond(f);
    r := Go(r, Db([JobWith(ZERO)], Two(f)), {0}, threads, 1, Nothing, ExpandRows(0, Plan(f)[2..]));
    assert threads[1 := ExpandRows(0, Plan(f)[2..])] == Cast(Plan(f)[2..], Count(0));
  }

  lemma RecountOfTwo(f: Files)
    ensures Tally(Two(f), 0) == HALF
    ensures Recount(Db([JobWith(ZERO)], Two(f)), 0) == Db([JobWith(HALF)], Two(f))
  {
    var two := Two(f);
    assert two[..1] == [First(f, Completed)] && two[..1][..0] == [];
    forall s: Status ensures CountStatus(two, 0, s) == (if s == Completed then 1 else 0) + (if s == Pending then 1 else 0) {
      assert CountStatus([], 0, s) == 0;
      assert CountStatus(two[..1], 0, s) == if s == Completed then 1 else 0;
    }
    assert CountRows(two[..1], 0) == 1;
  }

  /** Step y of the run recounted job 0 when its rows were these. */
  ghost predicate Counted(r: Run, y: nat, tasks: seq<Task>) {
    |r.ss| == |r.ls| + 1 && y < |r.ls| && ActionOf(r.ls[y]) == CountTasks(0) && r.ss[y].db.tasks == tasks
  }

  lemma StaysCounted(r: Run, q: Run, l: Label, y: nat, tasks: seq<Task>)
    requires Counted(q, y, tasks) && Continues(r, q, l) && r.Ok()
    ensures Counted(r, y, tasks)
  {
  }

  lemma RunOf(r: Run, db: Db, handed: set<nat>, threads: map<nat, Thread>)
    requires At(r, db, handed, threads)
    ensures r.Ok() && r.ss != [] && |r.ss| == |r.ls| + 1 && r.ss[|r.ls|].db == db && r.Last().threads == threads
  {
    assert Look(0);
  }

  lemma CountEarly(f: Files) returns (r: Run, since: nat, y: nat)
    ensures At(r, Db([JobWith(HALF)], Two(f)), {0}, Cast(Plan(f)[2..], CheckRead(0, since))) && Counted(r, y, Two(f))
  {
    var q := SecondRow(f);
    var db, threads := Db([JobWith(ZERO)], Two(f)), Cast(Plan(f)[2..], Count(0));
    RecountOfTwo(f);
    r, since := GoCount(q, db, {0}, threads, 3, 0);
    RunOf(q, db, {0}, threads);
    RunOf(r, Db([JobWith(HALF)], Two(f)), {0}, threads[3 := CheckRead(0, since)]);
    y := |q.ls|;
  }

  lemma ReadEarly(f: Files) returns (r: Run, since: nat, y: nat)
    ensures At(r, Db([JobWith(HALF)], Two(f)), {0}, Cast(Plan(f)[2..], ConcatList(0, JobWith(HALF), since)))
    ensures Counted(r, y, Two(f))
  {
    var q;
    q, since, y := CountEarly(f);
    var db, threads, next := Db([JobWith(HALF)], Two(f)), Cast(Plan(f)[2..], CheckRead(0, since)), ConcatList(0, JobWith(HALF), since);
    r := Go(q, db, {0}, threads, 3, Nothing, next);
    RunOf(r, db, {0}, threads[3 := next]);
    StaysCounted(r, q, Step(3, SPARE, GO, Nothing), y, Two(f));
  }

  /** Only now the expansion adds the merge row. */
  lemma AllRows(f: Files) returns (r: Run, since: nat, y: nat)
    ensures At(r, Db([JobWith(HALF)], Three(f)), {0}, Cast([], ConcatList(0, JobWith(HALF), since)))
    ensures Counted(r, y, Two(f))
  {
    var q;
    q, since, y := ReadEarly(f);
    var plan := Plan(f)[2..];
    assert plan[0] == Plan(f)[2] && plan[1..] == [];
    var db, threads := Db([JobWith(HALF)], Two(f)), Cast(plan, ConcatList(0, JobWith(HALF), since));
    r := GoRow(q, db, {0}, threads, plan, Merging(f));
    assert Two(f) + [Merging(f)] == Three(f);
    RunOf(r, Db([JobWith(HALF)], Three(f)), {0}, threads[1 := ExpandRows(0, [])]);
    StaysCounted(r, q, Step(1, SPARE, GO, AddTask(Merging(f))), y, Two(f));
  }

  // ----- the listing and the claim -----

  predicate ThreeRows(three: seq<Task>) {
    |three| == 3 && forall i :: 0 <= i < 3 ==> three[i].live && three[i].job == 0 && three[i].chunk == i
  }

  lemma ListOfThree(three: seq<Task>)
    requires ThreeRows(three)
    ensures ListByJob(three, 0) == [0, 1, 2]
  {
    var ids := [0, 1, 2];
    forall c | 0 <= c < 3 ensures RowsAt(three, 0, c) == [ids[c]] { OneRowAt(three, 0, c, c); }
    ListBelowIsRows(three, 0, ids, 3);
    MaxChunkIsMax(three, 0);
    MaxChunkReached(three, 0);
    assert RowOf(three, 2, 0);
  }

  lemma PathsAppend(tasks: seq<Task>, ids: seq<nat>, t: nat)
    requires t < |tasks| && forall i :: 0 <= i < |ids| ==> ids[i] < |tasks|
    ensures ChunkPaths(tasks, ids + [t])
         == ChunkPaths(tasks, ids) + if tasks[t].kind != Concat && tasks[t].status == Completed then [tasks[t].output] else []
  {
    assert (ids + [t])[..|ids|] == ids;
  }

  predicate HalfDone(three: seq<Task>) {
    && ThreeRows(three) && three[0].kind == Encode && three[0].status == Completed
    && three[1].kind == Encode && three[1].status == Pending && three[2].kind == Concat && three[2].status == Pending
  }

  lemma PathsOfThree(three: seq<Task>)
    requires HalfDone(three)
    ensures ChunkPaths(three, [0, 1, 2]) == [three[0].output]
  {
    PathsAppend(three, [], 0);
    PathsAppend(three, [0], 1);
    PathsAppend(three, [0, 1], 2);
    assert [] + [0] == [0] && [0] + [1] == [0, 1] && [0, 1] + [2] == [0, 1, 2];
  }

  lemma MergeRowIsPicked(three: seq<Task>, ids: seq<nat>)
    requires HalfDone(three) && ids == [0, 1, 2]
    ensures FirstPending(three, ids, Concat) == Some(2)
  {
    FirstPendingIsLast(three, ids, Concat);
  }

  lemma ListedNow(three: seq<Task>)
    requires HalfDone(three)
    ensures FirstPending(three, ListByJob(three, 0), Concat) == Some(2)
    ensures ChunkPaths(three, ListByJob(three, 0)) == [three[0].output]
  {
    ListOfThree(three);
    PathsOfThree(three);
    MergeRowIsPicked(three, [0, 1, 2]);
  }

  lemma NextClaimsMerge(db: Db, h: History, since: nat, a: string)
    requires FirstPending(db.tasks, ListByJob(db.tasks, 0), Concat) == Some(2)
    requires ChunkPaths(db.tasks, ListByJob(db.tasks, 0)) == [a]
    ensures Next(BOTH, db, h, ConcatList(0, JobWith(HALF), since), GO) == Do(Nothing, ConcatClaim(0, 2, [a]))
  {
  }

  /** The listing turn of the check. */
  lemma GoList(r: Run, db: Db, handed: set<nat>, threads: map<nat, Thread>, since: nat, a: string) returns (r': Run)
    requires At(r, db, handed, threads) && HalfDone(db.tasks) && db.tasks[0].output == a && SPARE !in threads
    requires 3 in threads && threads[3] == ConcatList(0, JobWith(HALF), since)
    ensures At(r', db, handed, threads[3 := ConcatClaim(0, 2, [a])]) && Continues(r', r, Step(3, SPARE, GO, Nothing))
  {
    ListedNow(db.tasks);
    forall h: History | h.handed == handed
      ensures Next(BOTH, db, h, threads[3], GO) == Do(Nothing, ConcatClaim(0, 2, [a]))
    {
      NextClaimsMerge(db, h, since, a);
    }
    r' := Go(r, db, handed, threads, 3, Nothing, ConcatClaim(0, 2, [a]));
  }

  lemma AllRowsAreHalfDone(f: Files)
    ensures HalfDone(Three(f))
  {
  }

  /** State x is the one in which the rows are listed. */
  lemma List(f: Files) returns (r: Run, y: nat, x: nat)
    ensures At(r, Db([JobWith(HALF)], Three(f)), {0}, Cast([], ConcatClaim(0, 2, [f.a]))) && Counted(r, y, Two(f))
    ensures y < x < |r.ls| && r.ss[x].db.tasks == Three(f)
  {
    var q, since;
    q, since, y := AllRows(f);
    AllRowsAreHalfDone(f);
    var db, threads := Db([JobWith(HALF)], Three(f)), Cast([], ConcatList(0, JobWith(HALF), since));
    RunOf(q, db, {0}, threads);
    x := |q.ls|;
    r := GoList(q, db, {0}, threads, since, f.a);
    RunOf(r, db, {0}, threads[3 := ConcatClaim(0, 2, [f.a])]);
    StaysCounted(r, q, Step(3, SPARE, GO, Nothing), y, Two(f));
  }

  lemma ClaimMerge(f: Files) returns (r: Run, y: nat, x: nat, serial: nat)
    ensures r.Ok() && Counted(r, y, Two(f)) && y < x < |r.ls| && r.ss[x].db.tasks == Three(f)
    ensures SPARE in r.Last().threads && r.Last().threads[SPARE] == RunConcat(0, 2, [f.a], serial)
    ensures r.Last().db == ClaimRow(Db([JobWith(HALF)], Three(f)), 2)
  {
    var q;
    q, y, x := List(f);
    var db, threads := Db([JobWith(HALF)], Three(f)), Cast([], ConcatClaim(0, 2, [f.a]));
    r, serial := GoClaim(q, db, {0}, threads, 3, 0, 2, [f.a]);
    RunOf(r, ClaimRow(db, 2), {0}, threads[3 := Done][SPARE := RunConcat(0, 2, [f.a], serial)]);
    StaysCounted(r, q, Step(3, SPARE, GO, Claim(2)), y, Two(f));
  }

  // ----- what the run shows -----

  lemma RowsAreEncode(f: Files, at: Target)
    requires f == Files(ChunkPath(at, 0), ChunkPath(at, 1), FinalPath(at))
    ensures MergeShape(Three(f), 0, [0, 1, 2], at) && NoneUncounted(Two(f), 0) && !RowsSame(Two(f), Three(f), 0)
  {
    var three := Three(f);
    assert RowOf(three, 2, 0) && !RowOf(Two(f), 2, 0);
    forall t: nat | RowOf(three, t, 0) ensures t in [0, 1, 2] {}
  }

  /** The merge starts on chunk 0 alone while chunk 1 is pending.  At recount y no row was assigned or
      cancelled, and at listing x the job has the rows of an encode job: all that MergePathsInWindow
      asks for, except that the rows of the job changed between y and x. */
  lemma MergeCanStartTooEarly(at: Target) returns (r: Run, y: nat, x: nat, serial: nat)
    ensures r.Ok() && r.ss != [] && SPARE in r.Last().threads
    ensures r.Last().threads[SPARE] == RunConcat(0, 2, [ChunkPath(at, 0)], serial)
    ensures |r.Last().db.tasks| == 3 && r.Last().db.tasks[1].kind == Encode && r.Last().db.tasks[1].status == Pending
    ensures MergeGiven(r.ss, r.ls, 0, 2, [ChunkPath(at, 0)], y, x)
    ensures MergeShape(r.ss[x].db.tasks, 0, [0, 1, 2], at) && NoneUncounted(r.ss[y].db.tasks, 0)
    ensures !RowsSame(r.ss[y].db.tasks, r.ss[x].db.tasks, 0)
  {
    var f := Files(ChunkPath(at, 0), ChunkPath(at, 1), FinalPath(at));
    r, y, x, serial := ClaimMerge(f);
    RowsAreEncode(f, at);
    AllRowsAreHalfDone(f);
    ListedNow(Three(f));
    RecountOfTwo(f);
  }
}
