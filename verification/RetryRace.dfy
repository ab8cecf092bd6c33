/**
 A run in which a permanent error is retried: a row is reported failed twice, the second report
 settles the job, a manual retry clears the stored error, and the first report then reads no error.
 */
module RetryRace {
  import opened Basics
  import opened JobRows
  import opened Protocol
  import opened RetryTheorems
  import opened RunBuilder

  const SPEC := JobSpec(0, {}, 1, None)
  const PLAN := [RowPlan(0, Encode, "a", true)]
  const BAD := Result(0, 0, false, 2, "", false)

  function JobIs(s: Status, n: Counts): Job { Job(s, 0, {}, 1, None, false, n) }

  function Fresh(): Task { NewTask(0, 0, Encode, "a") }
  function Taken(): Task { Fresh().(status := Assigned, agent := Some(7)) }
  function Broken(): Task { Taken().(status := Failed, exitCode := Some(2), errorMsg := Some("")) }

  const ONE := Counts(1, 0, 0, 0, 1)

  function Idle(): map<nat, Thread> { map[0 := Done, 1 := ExpandRows(0, []), 2 := PollCount(0)] }

  /** The only report ever recorded is the permanent failure. */
  predicate IsBad(a: Action) { !a.Finish? && (a.Fault? ==> a == Fault(0, 2, "")) }

  ghost predicate OnlyBad(ls: seq<Label>) {
    forall i :: 0 <= i < |ls| ==> IsBad(ActionOf(ls[i]))
  }

  lemma OneMore(r: Run, q: Run, l: Label)
    requires OnlyBad(q.ls) && Continues(r, q, l) && IsBad(ActionOf(l))
    ensures OnlyBad(r.ls)
  {
  }

  lemma Arrives(r: Run, db: Db, handed: set<nat>, threads: map<nat, Thread>, id: nat, call: Thread) returns (r': Run)
    requires At(r, db, handed, threads) && OnlyBad(r.ls) && id !in threads
    requires forall h: History :: h.handed == handed ==> MayBegin(db, h, call)
    ensures At(r', db, handed, threads[id := call]) && OnlyBad(r'.ls)
  {
    r' := Call(r, db, handed, threads, id, call);
    OneMore(r', r, Begin(id, call));
  }

  lemma Turns(r: Run, db: Db, handed: set<nat>, threads: map<nat, Thread>, id: nat, a: Action, next: Thread) returns (r': Run)
    requires At(r, db, handed, threads) && OnlyBad(r.ls) && IsBad(a) && id in threads && SPARE !in threads
    requires forall h: History :: h.handed == handed ==> Next(BOTH, db, h, threads[id], GO) == Do(a, next)
    ensures At(r', Apply(db, a), Handed(handed, a), threads[id := next]) && OnlyBad(r'.ls)
  {
    r' := Go(r, db, handed, threads, id, a, next);
    OneMore(r', r, Step(id, SPARE, GO, a));
  }

  lemma ExpandRow() returns (r: Run)
    ensures At(r, Db([JobIs(Queued, ZERO)], [Fresh()]), {}, map[0 := Done, 1 := ExpandRows(0, [])]) && OnlyBad(r.ls)
  {
    var q := BeginExpansion(SPEC, PLAN);
    r := GoRow(q, Db([JobIs(Queued, ZERO)], []), {}, map[0 := Done, 1 := ExpandRows(0, PLAN)], PLAN, Fresh());
    OneMore(r, q, Step(1, SPARE, GO, AddTask(Fresh())));
    assert PLAN[1..] == [];
    r := Turns(r, Db([JobIs(Queued, ZERO)], [Fresh()]), {}, map[0 := Done, 1 := ExpandScripts(0, Encode, [])],
               1, Nothing, ExpandRows(0, []));
  }

  lemma Poll() returns (r: Run)
    ensures At(r, Db([JobIs(Queued, ZERO)], [Taken()]), {0}, Idle()) && OnlyBad(r.ls)
  {
    var db, threads := Db([JobIs(Queued, ZERO)], [Fresh()]), map[0 := Done, 1 := ExpandRows(0, [])];
    r := ExpandRow();
    r := Arrives(r, db, {}, threads, 2, PollClaim(7, {}));
    r := Turns(r, db, {}, threads[2 := PollClaim(7, {})], 2, Assign(0, 7), PollCount(0));
  }

  lemma FirstReport() returns (r: Run)
    ensures At(r, Db([JobIs(Queued, ZERO)], [Broken()]), {0}, Idle()[3 := RetryRead(BAD)]) && OnlyBad(r.ls)
  {
    var db, threads := Db([JobIs(Queued, ZERO)], [Taken()]), Idle();
    r := Poll();
    r := Arrives(r, db, {0}, threads, 3, Record(BAD));
    r := Turns(r, db, {0}, threads[3 := Record(BAD)], 3, Fault(0, 2, ""), RetryRead(BAD));
  }

  /** The row is reported failed twice; both reports have recorded it and read nothing yet. */
  lemma TwoReports() returns (r: Run)
    ensures At(r, Db([JobIs(Queued, ZERO)], [Broken()]), {0}, Idle()[3 := RetryRead(BAD)][4 := RetryRead(BAD)]) && OnlyBad(r.ls)
  {
    var db, threads := Db([JobIs(Queued, ZERO)], [Broken()]), Idle()[3 := RetryRead(BAD)];
    r := FirstReport();
    r := Arrives(r, db, {0}, threads, 4, Record(BAD));
    r := Turns(r, db, {0}, threads[4 := Record(BAD)], 4, Fault(0, 2, ""), RetryRead(BAD));
  }

  lemma CountsOfOne()
    ensures Recount(Db([JobIs(Queued, ZERO)], [Broken()]), 0) == Db([JobIs(Queued, ONE)], [Broken()])
  {
    var one := [Broken()];
    assert one[..0] == [];
    forall s: Status ensures CountStatus(one, 0, s) == if s == Failed then 1 else 0 {
      assert CountStatus([], 0, s) == 0;
    }
  }

  /** The second report finds the error permanent, and its check fails the job. */
  lemma SecondReportReads() returns (r: Run)
    ensures At(r, Db([JobIs(Queued, ZERO)], [Broken()]), {0}, Idle()[3 := RetryRead(BAD)][4 := Count(0)]) && OnlyBad(r.ls)
  {
    var db, threads := Db([JobIs(Queued, ZERO)], [Broken()]), Idle()[3 := RetryRead(BAD)];
    r := TwoReports();
    r := Turns(r, db, {0}, threads[4 := RetryRead(BAD)], 4, Nothing, RetryJobRead(BAD, 0, 2, ""));
    r := Turns(r, db, {0}, threads[4 := RetryJobRead(BAD, 0, 2, "")], 4, Nothing, Count(0));
  }

  lemma SecondReportCounts() returns (r: Run, since: nat)
    ensures At(r, Db([JobIs(Queued, ONE)], [Broken()]), {0}, Idle()[3 := RetryRead(BAD)][4 := CheckRead(0, since)]) && OnlyBad(r.ls)
  {
    var q := SecondReportReads();
    r, since := GoCount(q, Db([JobIs(Queued, ZERO)], [Broken()]), {0}, Idle()[3 := RetryRead(BAD)][4 := Count(0)], 4, 0);
    OneMore(r, q, Step(4, SPARE, GO, CountTasks(0)));
    CountsOfOne();
  }

  lemma SecondReportChecks() returns (r: Run, since: nat)
    ensures At(r, Db([JobIs(Queued, ONE)], [Broken()]), {0}, Idle()[3 := RetryRead(BAD)][4 := Settle(0, JobIs(Queued, ONE), since)])
    ensures OnlyBad(r.ls)
  {
    r, since := SecondReportCounts();
    r := Turns(r, Db([JobIs(Queued, ONE)], [Broken()]), {0}, Idle()[3 := RetryRead(BAD)][4 := CheckRead(0, since)],
               4, Nothing, Settle(0, JobIs(Queued, ONE), since));
  }

  lemma JobFails() returns (r: Run)
    ensures At(r, Db([JobIs(Failed, ONE)], [Broken()]), {0}, Idle()[3 := RetryRead(BAD)][4 := Done]) && OnlyBad(r.ls)
  {
    var since;
    r, since := SecondReportChecks();
    r := Turns(r, Db([JobIs(Queued, ONE)], [Broken()]), {0},
               Idle()[3 := RetryRead(BAD)][4 := Settle(0, JobIs(Queued, ONE), since)], 4, SetStatus(0, Failed), Done);
  }

  lemma RetryAllowed() returns (r: Run)
    ensures At(r, Db([JobIs(Failed, ONE)], [Broken()]), {0}, Idle()[3 := RetryRead(BAD)][4 := Done][5 := RetryTasks(0)])
    ensures OnlyBad(r.ls)
  {
    var db, threads := Db([JobIs(Failed, ONE)], [Broken()]), Idle()[3 := RetryRead(BAD)][4 := Done];
    r := JobFails();
    r := Arrives(r, db, {0}, threads, 5, RetryGate(0));
    r := Turns(r, db, {0}, threads[5 := RetryGate(0)], 5, Nothing, RetryTasks(0));
  }

  lemma Reopened()
    ensures RetryFailedTasks(Db([JobIs(Failed, ONE)], [Broken()]), 0) == Db([JobIs(Failed, ONE)], [Fresh()])
  {
    assert RetryFailedTasks(Db([JobIs(Failed, ONE)], [Broken()]), 0).tasks == [Fresh()];
  }

  /** The manual retry clears the row. */
  lemma ManualRetry() returns (r: Run)
    ensures At(r, Db([JobIs(Failed, ONE)], [Fresh()]), {0}, Idle()[3 := RetryRead(BAD)][4 := Done][5 := RetryQueue(0)])
    ensures OnlyBad(r.ls)
  {
    r := RetryAllowed();
    Reopened();
    r := Turns(r, Db([JobIs(Failed, ONE)], [Broken()]), {0}, Idle()[3 := RetryRead(BAD)][4 := Done][5 := RetryTasks(0)],
               5, RetryRows(0), RetryQueue(0));
  }

  lemma FirstReportReads() returns (r: Run)
    ensures At(r, Db([JobIs(Failed, ONE)], [Fresh()]), {0}, Idle()[3 := RetryInsert(BAD, 0)][4 := Done][5 := RetryQueue(0)])
    ensures OnlyBad(r.ls)
  {
    var db, threads := Db([JobIs(Failed, ONE)], [Fresh()]), Idle()[3 := RetryRead(BAD)][4 := Done][5 := RetryQueue(0)];
    r := ManualRetry();
    r := Turns(r, db, {0}, threads, 3, Nothing, RetryJobRead(BAD, 0, 0, ""));
    r := Turns(r, db, {0}, threads[3 := RetryJobRead(BAD, 0, 0, "")], 3, Nothing, RetryInsert(BAD, 0));
  }

  /** Every failure recorded for the row is permanent and none of its reports is a success, and yet
      it is retried: the manual retry is what PermanentErrorEndsLineage has to exclude. */
  lemma PermanentErrorCanBeRetried() returns (r: Run)
    ensures r.ss != [] && r.Ok() && Retries(r.Last().db.tasks, 0) == 1
    ensures PermanentError(2, "") && OnlyBad(r.ls)
  {
    var db, threads := Db([JobIs(Failed, ONE)], [Fresh()]), Idle()[3 := RetryInsert(BAD, 0)][4 := Done][5 := RetryQueue(0)];
    r := FirstReportReads();
    var row := RetryRow(db, 0, 0, 0, 0);
    r := Turns(r, db, {0}, threads, 3, AddTask(row), Count(0));
    assert Look(0);
    assert [Fresh(), row][..1] == [Fresh()] && [Fresh()][..0] == [];
    assert Retries([Fresh()], 0) == 0;
  }
}
