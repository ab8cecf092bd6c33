/**
 A completion check is the protocol's thread run without interference: the call-by-call functions
 and the interleaving machine describe the same code.
 */
module SoloRuns {
  import opened Basics
  import opened JobRows
  import opened Protocol
  import opened ResultHandling

  /** One thread alone on the tables, with the threads it has spawned. */
  datatype Solo = Solo(db: Db, h: History, th: Thread, spawned: seq<Thread>)

  function After(s: Solo, turn: Turn): Solo {
    Solo(Apply(s.db, turn.action), Remember(s.db, s.h, turn.action), turn.next,
         if turn.spawn.Some? then s.spawned + [turn.spawn.value] else s.spawned)
  }

  /** One turn per choice of the environment. */
  function TakeTurns(cfg: Config, s: Solo, cs: seq<Choice>): Solo
    decreases |cs|
  {
    if cs == [] then s else TakeTurns(cfg, After(s, Next(cfg, s.db, s.h, s.th, cs[0])), cs[1..])
  }

  predicate SpawnedFor(spawned: seq<Thread>, j: nat, launch: Option<Launch>) {
    match launch
    case None => spawned == []
    case Some(LaunchConcat(t, paths)) =>
      |spawned| == 1 && spawned[0].RunConcat? && spawned[0].job == j && spawned[0].task == t && spawned[0].paths == paths
    case Some(LaunchVmaf(t)) =>
      |spawned| == 1 && spawned[0].RunVmaf? && spawned[0].job == j && spawned[0].task == t
  }

  predicate EndsWith(s: Solo, j: nat, o: Outcome) {
    s.th.Done? && s.db == o.db && SpawnedFor(s.spawned, j, o.launch)
  }

  /** After n turns, whatever the environment chooses in them, the thread is done with the outcome. */
  ghost predicate EndsIn(cfg: Config, s: Solo, j: nat, o: Outcome, n: nat) {
    forall k, cs: seq<Choice> :: Look(k) && |cs| == n ==> EndsWith(TakeTurns(cfg, s, cs), j, o)
  }

  lemma EndsAtOnce(cfg: Config, s: Solo, j: nat, o: Outcome)
    requires EndsWith(s, j, o)
    ensures EndsIn(cfg, s, j, o, 0)
  {
  }

  lemma EndsAfterTurn(cfg: Config, s: Solo, j: nat, o: Outcome, n: nat)
    requires IsCheck(s.th) && EndsIn(cfg, After(s, CheckTurn(cfg, s.db, s.h, s.th)), j, o, n)
    ensures EndsIn(cfg, s, j, o, n + 1)
  {
    forall cs: seq<Choice> | |cs| == n + 1 ensures EndsWith(TakeTurns(cfg, s, cs), j, o) {
      assert Look(0);
      assert |cs[1..]| == n;
      assert Next(cfg, s.db, s.h, s.th, cs[0]) == CheckTurn(cfg, s.db, s.h, s.th);
    }
  }

  lemma SettleEnds(cfg: Config, s: Solo, j: nat, row: Job, since: nat) returns (n: nat)
    requires s.th == SettleGate(j, row, since) && s.spawned == []
    ensures EndsIn(cfg, s, j, Settled(s.db, j, row), n)
  {
    var o := Settled(s.db, j, row);
    if s.th.Done? {
      n := 0;
      EndsAtOnce(cfg, s, j, o);
    } else {
      var s1 := After(s, CheckTurn(cfg, s.db, s.h, s.th));
      n := 1;
      if s1.th.Done? {
        EndsAtOnce(cfg, s1, j, o);
      } else {
        n := 2;
        EndsAtOnce(cfg, After(s1, CheckTurn(cfg, s1.db, s1.h, s1.th)), j, o);
        EndsAfterTurn(cfg, s1, j, o, 0);
      }
      EndsAfterTurn(cfg, s, j, o, n - 1);
    }
  }

  lemma ClaimEnds(cfg: Config, s: Solo, j: nat, o: Outcome)
    requires s.th.VmafClaim? || s.th.ConcatClaim?
    requires s.th.job == j && s.spawned == [] && Claimable(s.db, s.th.task)
    requires o == Outcome(ClaimRow(s.db, s.th.task),
                          Some(if s.th.VmafClaim? then LaunchVmaf(s.th.task) else LaunchConcat(s.th.task, s.th.paths)))
    ensures EndsIn(cfg, s, j, o, 1)
  {
    EndsAtOnce(cfg, After(s, CheckTurn(cfg, s.db, s.h, s.th)), j, o);
    EndsAfterTurn(cfg, s, j, o, 0);
  }

  function Turned(cfg: Config, s: Solo): Solo
    requires IsCheck(s.th)
  {
    After(s, CheckTurn(cfg, s.db, s.h, s.th))
  }

  lemma VmafSkipTurns(cfg: Config, s: Solo, j: nat, row: Job, since: nat, t: nat) returns (s2: Solo)
    requires s.th == VmafSkip(j, row, since, t)
    ensures IsCheck(Turned(cfg, s).th) && s2 == Turned(cfg, Turned(cfg, s))
    ensures s2.db == Skip(s.db, j, t, SKIPPED_VMAF) && s2.th == SettleGate(j, row, since) && s2.spawned == s.spawned
  {
    s2 := Turned(cfg, Turned(cfg, s));
  }

  lemma VmafSkipEnds(cfg: Config, s: Solo, j: nat, row: Job, since: nat, t: nat) returns (n: nat)
    requires s.th == VmafSkip(j, row, since, t) && s.spawned == []
    ensures EndsIn(cfg, s, j, Settled(Skip(s.db, j, t, SKIPPED_VMAF), j, row), n)
  {
    var s2 := VmafSkipTurns(cfg, s, j, row, since, t);
    n := SettleEnds(cfg, s2, j, row, since);
    EndsAfterTurn(cfg, Turned(cfg, s), j, Settled(s2.db, j, row), n);
    EndsAfterTurn(cfg, s, j, Settled(s2.db, j, row), n + 1);
    n := n + 2;
  }

  lemma VmafEnds(cfg: Config, s: Solo, j: nat, row: Job, since: nat) returns (n: nat)
    requires s.th == VmafGate(cfg, j, row, since) && s.spawned == []
    ensures EndsIn(cfg, s, j, VmafPart(cfg, s.db, j, row), n)
  {
    if !TriesVmaf(cfg, row) {
      n := SettleEnds(cfg, s, j, row, since);
    } else {
      var o, s1 := VmafPart(cfg, s.db, j, row), After(s, CheckTurn(cfg, s.db, s.h, s.th));
      PickedIsClaimable(s.db, j, VmafTarget);
      var picked := Pick(s.db, j, VmafTarget);
      if picked.None? {
        n := SettleEnds(cfg, s1, j, row, since);
      } else if row.counts.failed > 0 {
        n := VmafSkipEnds(cfg, s1, j, row, since, picked.value);
      } else {
        n := 1;
        ClaimEnds(cfg, s1, j, o);
      }
      EndsAfterTurn(cfg, s, j, o, n);
      n := n + 1;
    }
  }

  lemma ConcatSkipTurns(cfg: Config, s: Solo, j: nat, row: Job, since: nat, t: nat) returns (s2: Solo)
    requires s.th == ConcatSkip(j, row, since, t)
    ensures IsCheck(Turned(cfg, s).th) && s2 == Turned(cfg, Turned(cfg, s))
    ensures s2.db == Skip(s.db, j, t, SKIPPED_CONCAT) && s2.th == VmafGate(cfg, j, row, since) && s2.spawned == s.spawned
  {
    s2 := Turned(cfg, Turned(cfg, s));
  }

  lemma ConcatSkipEnds(cfg: Config, s: Solo, j: nat, row: Job, since: nat, t: nat) returns (n: nat)
    requires s.th == ConcatSkip(j, row, since, t) && s.spawned == []
    ensures EndsIn(cfg, s, j, VmafPart(cfg, Skip(s.db, j, t, SKIPPED_CONCAT), j, row), n)
  {
    var s2 := ConcatSkipTurns(cfg, s, j, row, since, t);
    n := VmafEnds(cfg, s2, j, row, since);
    EndsAfterTurn(cfg, Turned(cfg, s), j, VmafPart(cfg, s2.db, j, row), n);
    EndsAfterTurn(cfg, s, j, VmafPart(cfg, s2.db, j, row), n + 1);
    n := n + 2;
  }

  lemma ConcatEnds(cfg: Config, s: Solo, j: nat, row: Job, since: nat) returns (n: nat)
    requires s.th == ConcatList(j, row, since) && s.spawned == []
    requires TriesConcat(cfg, row) && HasJob(s.db, j) && s.db.jobs[j] == row
    ensures EndsIn(cfg, s, j, Checked(cfg, s.db, j), n)
  {
    var o, s1 := Checked(cfg, s.db, j), After(s, CheckTurn(cfg, s.db, s.h, s.th));
    PickedIsClaimable(s.db, j, Concat);
    var picked := Pick(s.db, j, Concat);
    if picked.None? {
      n := VmafEnds(cfg, s1, j, row, since);
    } else if row.counts.failed > 0 {
      n := ConcatSkipEnds(cfg, s1, j, row, since, picked.value);
    } else {
      n := 1;
      ClaimEnds(cfg, s1, j, o);
    }
    EndsAfterTurn(cfg, s, j, o, n);
    n := n + 1;
  }

  lemma ReadEnds(cfg: Config, s: Solo, j: nat, since: nat) returns (n: nat)
    requires s.th == CheckRead(j, since) && s.spawned == []
    ensures EndsIn(cfg, s, j, Checked(cfg, s.db, j), n)
  {
    var o, s1 := Checked(cfg, s.db, j), After(s, CheckTurn(cfg, s.db, s.h, s.th));
    if !HasJob(s.db, j) {
      n := 0;
      EndsAtOnce(cfg, s1, j, o);
    } else if TriesConcat(cfg, s.db.jobs[j]) {
      n := ConcatEnds(cfg, s1, j, s.db.jobs[j], since);
    } else {
      n := VmafEnds(cfg, s1, j, s.db.jobs[j], since);
    }
    EndsAfterTurn(cfg, s, j, o, n);
    n := n + 1;
  }

  /** Alone, the thread of a recount and completion check ends with exactly the tables and the
      runner of the call-by-call function. */
  lemma CheckRunsAlone(cfg: Config, db: Db, h: History, j: nat) returns (n: nat)
    ensures EndsIn(cfg, Solo(db, h, Count(j), []), j, RecountedCheck(cfg, db, j), n)
  {
    var s := Solo(db, h, Count(j), []);
    var s1 := CountTurned(cfg, s, j);
    n := ReadEnds(cfg, s1, j, |h.counted|);
    EndsAfterTurn(cfg, s, j, RecountedCheck(cfg, db, j), n);
    n := n + 1;
  }

  lemma CountTurned(cfg: Config, s: Solo, j: nat) returns (s1: Solo)
    requires s.th == Count(j)
    ensures s1 == After(s, CheckTurn(cfg, s.db, s.h, s.th))
    ensures s1.db == Recount(s.db, j) && s1.th == CheckRead(j, |s.h.counted|) && s1.spawned == s.spawned
  {
    s1 := Turned(cfg, s);
  }

  // ----- reports -----

  /** The same, with this clock and this jitter in every turn. */
  ghost predicate EndsAt(cfg: Config, s: Solo, j: nat, o: Outcome, n: nat, now: int, jitter: nat) {
    forall k, cs: seq<Choice> :: Look(k) && |cs| == n && (forall c :: c in cs ==> c.now == now && c.jitter == jitter)
                                 ==> EndsWith(TakeTurns(cfg, s, cs), j, o)
  }

  lemma EndsInIsEndsAt(cfg: Config, s: Solo, j: nat, o: Outcome, n: nat, now: int, jitter: nat)
    requires EndsIn(cfg, s, j, o, n)
    ensures EndsAt(cfg, s, j, o, n, now, jitter)
  {
    assert Look(0);
  }

  /** A turn of a report whose outcome is the same for every choice with this clock and jitter. */
  lemma EndsAfterReport(cfg: Config, s: Solo, j: nat, o: Outcome, n: nat, now: int, jitter: nat, turn: Turn)
    requires IsReport(s.th) && EndsAt(cfg, After(s, turn), j, o, n, now, jitter)
    requires forall c: Choice :: c.now == now && c.jitter == jitter ==> ReportTurn(s.db, s.th, c) == turn
    ensures EndsAt(cfg, s, j, o, n + 1, now, jitter)
  {
    forall cs: seq<Choice> | |cs| == n + 1 && (forall c :: c in cs ==> c.now == now && c.jitter == jitter)
      ensures EndsWith(TakeTurns(cfg, s, cs), j, o)
    {
      assert Look(0);
      assert cs[0] in cs && |cs[1..]| == n;
      forall c | c in cs[1..] ensures c in cs {}
      assert Next(cfg, s.db, s.h, s.th, cs[0]) == ReportTurn(s.db, s.th, cs[0]) == turn;
    }
  }

  lemma CountEnds(cfg: Config, s: Solo, j: nat, now: int, jitter: nat) returns (n: nat)
    requires s.th == Count(j) && s.spawned == []
    ensures EndsAt(cfg, s, j, RecountedCheck(cfg, s.db, j), n, now, jitter)
  {
    n := CheckRunsAlone(cfg, s.db, s.h, j);
    assert s == Solo(s.db, s.h, Count(j), []);
    EndsInIsEndsAt(cfg, s, j, RecountedCheck(cfg, s.db, j), n, now, jitter);
  }

  lemma InsertEnds(cfg: Config, s: Solo, r: Result, now: int, jitter: nat) returns (n: nat)
    requires HasTask(s.db, r.task) && s.th == RetryInsert(r, s.db.tasks[r.task].retryCount) && s.spawned == []
    ensures var d := InsertTask(s.db, RetryRow(s.db, r.task, s.db.tasks[r.task].retryCount, now, jitter));
            EndsAt(cfg, s, r.job, RecountedCheck(cfg, d, r.job), n, now, jitter)
  {
    var row := RetryRow(s.db, r.task, s.db.tasks[r.task].retryCount, now, jitter);
    var turn := Do(AddTask(row), Count(r.job));
    n := CountEnds(cfg, After(s, turn), r.job, now, jitter);
    EndsAfterReport(cfg, s, r.job, RecountedCheck(cfg, InsertTask(s.db, row), r.job), n, now, jitter, turn);
    n := n + 1;
  }

  lemma JobReadEnds(cfg: Config, s: Solo, r: Result, now: int, jitter: nat) returns (n: nat)
    requires HasTask(s.db, r.task) && s.spawned == []
    requires var row := s.db.tasks[r.task];
             s.th == RetryJobRead(r, row.retryCount, OrZero(row.exitCode), OrEmpty(row.errorMsg))
    ensures EndsAt(cfg, s, r.job, RecountedCheck(cfg, Retried(s.db, r, now, jitter), r.job), n, now, jitter)
  {
    var o := RecountedCheck(cfg, Retried(s.db, r, now, jitter), r.job);
    var turn := Do(Nothing, if GetsRetry(s.db, r) then RetryInsert(r, s.db.tasks[r.task].retryCount) else Count(r.job));
    if GetsRetry(s.db, r) {
      n := InsertEnds(cfg, After(s, turn), r, now, jitter);
    } else {
      n := CountEnds(cfg, After(s, turn), r.job, now, jitter);
    }
    EndsAfterReport(cfg, s, r.job, o, n, now, jitter, turn);
    n := n + 1;
  }

  lemma RetryReadEnds(cfg: Config, s: Solo, r: Result, now: int, jitter: nat) returns (n: nat)
    requires s.th == RetryRead(r) && s.spawned == []
    ensures EndsAt(cfg, s, r.job, RecountedCheck(cfg, Retried(s.db, r, now, jitter), r.job), n, now, jitter)
  {
    var o := RecountedCheck(cfg, Retried(s.db, r, now, jitter), r.job);
    var turn := ReportTurn(s.db, s.th, Choice(now, jitter, 0, true));
    if HasTask(s.db, r.task) {
      n := JobReadEnds(cfg, After(s, turn), r, now, jitter);
    } else {
      n := CountEnds(cfg, After(s, turn), r.job, now, jitter);
    }
    EndsAfterReport(cfg, s, r.job, o, n, now, jitter, turn);
    n := n + 1;
  }

  lemma SuccessEnds(cfg: Config, s: Solo, r: Result, now: int, jitter: nat) returns (n: nat)
    requires r.success && s.th == Record(r) && s.spawned == []
    ensures EndsAt(cfg, s, r.job, RecountedCheck(cfg, CompleteTask(s.db, r.task, r.exit), r.job), n, now, jitter)
  {
    var o := RecountedCheck(cfg, CompleteTask(s.db, r.task, r.exit), r.job);
    var turn := Do(Finish(r.task, r.exit), Count(r.job));
    n := CountEnds(cfg, After(s, turn), r.job, now, jitter);
    EndsAfterReport(cfg, s, r.job, o, n, now, jitter, turn);
    n := n + 1;
  }

  lemma FailureEnds(cfg: Config, s: Solo, r: Result, now: int, jitter: nat) returns (n: nat)
    requires !r.success && s.th == Record(r) && s.spawned == []
    ensures var d := Retried(FailTask(s.db, r.task, r.exit, r.message), r, now, jitter);
            EndsAt(cfg, s, r.job, RecountedCheck(cfg, d, r.job), n, now, jitter)
  {
    var failed := FailTask(s.db, r.task, r.exit, r.message);
    var turn := Do(Fault(r.task, r.exit, r.message), RetryRead(r));
    n := RetryReadEnds(cfg, After(s, turn), r, now, jitter);
    EndsAfterReport(cfg, s, r.job, RecountedCheck(cfg, Retried(failed, r, now, jitter), r.job), n, now, jitter, turn);
    n := n + 1;
  }

  /** Alone, the thread of a report ends with exactly the tables and the runner of the call-by-call
      function, for the clock and the jitter of its turns. */
  lemma ReportRunsAlone(cfg: Config, db: Db, h: History, r: Result, now: int, jitter: nat) returns (n: nat)
    ensures EndsAt(cfg, Solo(db, h, Record(r), []), r.job, Reported(cfg, db, r, now, jitter), n, now, jitter)
  {
    if r.success {
      n := SuccessEnds(cfg, Solo(db, h, Record(r), []), r, now, jitter);
    } else {
      n := FailureEnds(cfg, Solo(db, h, Record(r), []), r, now, jitter);
    }
  }

  /** What the handling of one result of a stream comes to when no call interferes: nothing for a missing
      row, or for a finished row unless the result was journaled, and otherwise a report. */
  function Synchronised(cfg: Config, db: Db, r: Result, now: int, jitter: nat): Outcome {
    if r.task >= |db.tasks| || !db.tasks[r.task].live then Outcome(db, None)
    else if (db.tasks[r.task].status == Completed || db.tasks[r.task].status == Failed) && !r.offline then Outcome(db, None)
    else Reported(cfg, db, r, now, jitter)
  }

  /** Alone, the thread of one result of a stream ends with exactly these tables and this runner. */
  lemma SyncRunsAlone(cfg: Config, db: Db, h: History, r: Result, now: int, jitter: nat) returns (n: nat)
    ensures EndsAt(cfg, Solo(db, h, SyncLookup(r), []), r.job, Synchronised(cfg, db, r, now, jitter), n, now, jitter)
  {
    var s, o := Solo(db, h, SyncLookup(r), []), Synchronised(cfg, db, r, now, jitter);
    var turn := ReportTurn(db, s.th, Choice(now, jitter, 0, true));
    if turn.next.Done? {
      n := 0;
      EndsAtOnce(cfg, After(s, turn), r.job, o);
      EndsInIsEndsAt(cfg, After(s, turn), r.job, o, 0, now, jitter);
    } else {
      n := ReportRunsAlone(cfg, db, h, r, now, jitter);
      assert After(s, turn) == Solo(db, h, Record(r), []);
    }
    EndsAfterReport(cfg, s, r.job, o, n, now, jitter, turn);
    n := n + 1;
  }

  /** The function of one result is what the loop over the stream does with it. */
  lemma StreamHandlesAlike(cfg: Config, s: Synced, a: Arrival)
    requires s.ok
    ensures var o := Synchronised(cfg, s.db, a.r, a.now, a.jitter);
            SyncOne(cfg, s, a).db == o.db
            && SyncOne(cfg, s, a).launches == s.launches + if o.launch.Some? then [o.launch.value] else []
  {
    assert s.launches + [] == s.launches;
  }
}
