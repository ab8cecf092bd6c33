/**
 The job protocol as a state machine.  Every RPC, API call, engine tick and background
 goroutine is a thread whose program counter stands before one store statement; a turn of a
 thread executes that statement atomically.  Threads interleave freely and may die at any point.
 */
module Protocol {
  import opened Basics
  import opened RetryPolicy
  import opened JobRows

  /** Which controller-side runners are wired in. */
  datatype Config = Config(concatRunner: bool, vmafRunner: bool)

  /** The atomic effects on the tables. */
  datatype Action =
    | Nothing
    | SetStatus(job: nat, to: Status)
    | Unblock(pred: nat)
    | AddJob(newJob: Job)
    | AddTask(newTask: Task)
    | Assign(task: nat, agent: nat)
    | Claim(task: nat)
    | Progressed(task: nat)
    | Finish(task: nat, exit: int)
    | Fault(task: nat, exit: int, message: string)
    | CancelRows(job: nat)
    | DeleteRows(job: nat)
    | RetryRows(job: nat)
    | Requeue(task: nat)
    | CountTasks(job: nat)
    | StartRunner(serial: nat)

  function Apply(db: Db, a: Action): Db {
    match a
    case Nothing => db
    case SetStatus(j, s) => SetJobStatus(db, j, s)
    case Unblock(p) => UnblockDependents(db, p)
    case AddJob(job) => db.(jobs := db.jobs + [job])
    case AddTask(row) => InsertTask(db, row)
    case Assign(t, agent) => if t < |db.tasks| then AssignTask(db, t, agent) else db
    case Claim(t) => ClaimRow(db, t)
    case Progressed(t) => MarkRunning(db, t)
    case Finish(t, exit) => CompleteTask(db, t, exit)
    case Fault(t, exit, message) => FailTask(db, t, exit, message)
    case CancelRows(j) => CancelPendingTasks(db, j)
    case DeleteRows(j) => DeleteTasks(db, j)
    case RetryRows(j) => RetryFailedTasks(db, j)
    case Requeue(t) => RequeueTask(db, t)
    case CountTasks(j) => Recount(db, j)
    case StartRunner(_) => db
  }

  /** One execution of the recount statement and the rows it saw. */
  datatype Counting = Counting(job: nat, tasks: seq<Task>)

  /** What has happened so far: jobs that were ever released or completed, rows ever given to an
      agent, recounts, rows claimed for a controller-side runner, and claims whose runner started. */
  datatype History = History(released: set<nat>, completed: set<nat>, handed: set<nat>,
                             counted: seq<Counting>, claims: seq<nat>, started: set<nat>)

  predicate Holds(s: Status) { s == Waiting || s == Cancelled }

  function Remember(db: Db, h: History, a: Action): History {
    match a
    case SetStatus(j, s) =>
      if !HasJob(db, j) then h
      else h.(released := if Holds(s) then h.released else h.released + {j},
              completed := if s == Completed then h.completed + {j} else h.completed)
    case Unblock(p) => h.(released := h.released + set j | 0 <= j < |db.jobs| && Unblocks(db.jobs[j], p))
    case AddJob(job) => if Holds(job.status) then h else h.(released := h.released + {|db.jobs|})
    case AddTask(row) => h.(released := h.released + {row.job})
    case Assign(t, _) => h.(handed := h.handed + {t})
    case Claim(t) => if Claimable(db, t) then h.(claims := h.claims + [t]) else h
    case CountTasks(j) => h.(counted := h.counted + [Counting(j, db.tasks)])
    case StartRunner(n) => h.(started := h.started + {n})
    case _ => h
  }

  // ----- threads -----

  /** A result sent by an agent. */
  datatype Result = Result(task: nat, job: nat, success: bool, exit: int, message: string, offline: bool)

  /** A job creation request. */
  datatype JobSpec = JobSpec(priority: int, tags: set<string>, maxRetries: int, dependsOn: Option<nat>)

  /** What CreateJob learned about the predecessor's status. */
  datatype Seen = NoDependency | Unmet | Met | CheckFailed

  /** A row an expansion is to add, and whether scripts are generated for it afterwards. */
  datatype RowPlan = RowPlan(chunk: nat, kind: Kind, output: string, scripts: bool)

  datatype Thread =
    | Done
    // ReportResult, and SyncOfflineResults one message at a time
    | SyncLookup(r: Result)
    | Record(r: Result)
    | RetryRead(r: Result)
    | RetryJobRead(r: Result, retries: nat, exit: int, message: string)
    | RetryInsert(r: Result, retries: nat)
    | Count(job: nat)
    // checkJobCompletion; `row` is the job row as it was read, `since` the call's own recount
    | CheckRead(job: nat, since: nat)
    | ConcatList(job: nat, row: Job, since: nat)
    | ConcatSkip(job: nat, row: Job, since: nat, task: nat)
    | ConcatSkipCount(job: nat, row: Job, since: nat)
    | ConcatClaim(job: nat, task: nat, paths: seq<string>)
    | VmafList(job: nat, row: Job, since: nat)
    | VmafSkip(job: nat, row: Job, since: nat, task: nat)
    | VmafSkipCount(job: nat, row: Job, since: nat)
    | VmafClaim(job: nat, task: nat)
    | Settle(job: nat, row: Job, since: nat)
    | Release(job: nat)
    // the goroutines of the controller-side runners
    | RunConcat(job: nat, task: nat, paths: seq<string>, serial: nat)
    | RunVmaf(job: nat, task: nat, serial: nat)
    | FinishRun(job: nat, task: nat, ok: bool)
    // PollTask and ReportProgress
    | PollClaim(agent: nat, tags: set<string>)
    | PollCount(job: nat)
    | PollRead(job: nat)
    | PollRun(job: nat)
    | Progress(task: nat)
    // handleCreateJob and handleCreateJobChain (`rest` are the later steps)
    | CreateCheck(spec: JobSpec, rest: seq<JobSpec>)
    | CreateInsert(spec: JobSpec, seen: Seen, rest: seq<JobSpec>)
    // handleCancelJob, handleRetryJob, handlePreemptTask and the command that resets a row
    | CancelRead(job: nat)
    | CancelSet(job: nat)
    | CancelTasks(job: nat)
    | RetryGate(job: nat)
    | RetryTasks(job: nat)
    | RetryQueue(job: nat)
    | Preempt(task: nat)
    | ResetRead(task: nat)
    | Reset(task: nat, job: nat)
    | ResetCount(job: nat)
    // the expanders of the engine
    | ExpandRead(job: nat, plan: seq<RowPlan>)
    | ExpandRows(job: nat, plan: seq<RowPlan>)
    | ExpandScripts(job: nat, kind: Kind, plan: seq<RowPlan>)
    | ExpandCount(job: nat)
    | ExpandQueue(job: nat)
    | ExpandCleanup(job: nat)
    | ExpandFail(job: nat)
    | AnalysisRead(job: nat)
    | AnalysisStart(job: nat)
    | AnalysisRun(job: nat)
    | AnalysisDone(job: nat)

  predicate IsReport(th: Thread) {
    th.SyncLookup? || th.Record? || th.RetryRead? || th.RetryJobRead? || th.RetryInsert?
  }

  predicate IsCheck(th: Thread) {
    th.Count? || th.CheckRead? || th.ConcatList? || th.ConcatSkip? || th.ConcatSkipCount? ||
    th.ConcatClaim? || th.VmafList? || th.VmafSkip? || th.VmafSkipCount? || th.VmafClaim? ||
    th.Settle? || th.Release?
  }

  predicate IsRunner(th: Thread) {
    th.RunConcat? || th.RunVmaf? || th.FinishRun?
  }

  predicate IsPoll(th: Thread) {
    th.PollClaim? || th.PollCount? || th.PollRead? || th.PollRun? || th.Progress?
  }

  predicate IsCreate(th: Thread) {
    th.CreateCheck? || th.CreateInsert?
  }

  predicate IsAdmin(th: Thread) {
    th.CancelRead? || th.CancelSet? || th.CancelTasks? || th.RetryGate? || th.RetryTasks? ||
    th.RetryQueue? || th.Preempt? || th.ResetRead? || th.Reset? || th.ResetCount?
  }

  predicate IsExpand(th: Thread) {
    th.ExpandRead? || th.ExpandRows? || th.ExpandScripts? || th.ExpandCount? || th.ExpandQueue? ||
    th.ExpandCleanup? || th.ExpandFail?
  }

  predicate IsAnalysis(th: Thread) {
    th.AnalysisRead? || th.AnalysisStart? || th.AnalysisRun? || th.AnalysisDone?
  }

  /** What the environment decides in a turn: the clock, the jitter, which row the claim
      statement locks, and whether the fallible part of the step succeeds. */
  datatype Choice = Choice(now: int, jitter: nat, pick: nat, ok: bool)

  datatype Turn = Turn(action: Action, next: Thread, spawn: Option<Thread>)

  function Do(a: Action, next: Thread): Turn { Turn(a, next, None) }

  function Stop(): Turn { Turn(Nothing, Done, None) }

  function RetryBudgetFor(job: Job, exit: int, message: string): int {
    if job.maxRetries <= 0 then 0 else MaxRetriesFor(ClassifyError(exit, message), job.maxRetries)
  }

  function OrZero(o: Option<int>): int { match o case None => 0 case Some(v) => v }
  function OrEmpty(o: Option<string>): string { match o case None => "" case Some(v) => v }

  /** The last part of checkJobCompletion, reached with the row read at its start. */
  function SettleGate(j: nat, row: Job, since: nat): Thread {
    if row.counts.pending > 0 || row.counts.running > 0 then Done else Settle(j, row, since)
  }

  function VmafGate(cfg: Config, j: nat, row: Job, since: nat): Thread {
    if cfg.vmafRunner && row.counts.running == 0 && row.counts.pending > 0 then VmafList(j, row, since)
    else SettleGate(j, row, since)
  }

  function AfterRead(cfg: Config, j: nat, row: Job, since: nat): Thread {
    if cfg.concatRunner && row.counts.pending == 1 && row.counts.running == 0 then ConcatList(j, row, since)
    else VmafGate(cfg, j, row, since)
  }

  function ReportTurn(db: Db, th: Thread, c: Choice): Turn
    requires IsReport(th)
  {
    match th
    case SyncLookup(r) =>
      if !HasTask(db, r.task) then Stop()
      else if db.tasks[r.task].status in {Completed, Failed} && !r.offline then Stop()
      else Do(Nothing, Record(r))
    case Record(r) =>
      if r.success then Do(Finish(r.task, r.exit), Count(r.job))
      else Do(Fault(r.task, r.exit, r.message), RetryRead(r))
    case RetryRead(r) =>
      if !HasTask(db, r.task) then Do(Nothing, Count(r.job))
      else var row := db.tasks[r.task];
           Do(Nothing, RetryJobRead(r, row.retryCount, OrZero(row.exitCode), OrEmpty(row.errorMsg)))
    case RetryJobRead(r, retries, exit, message) =>
      if !HasJob(db, r.job) || retries >= RetryBudgetFor(db.jobs[r.job], exit, message)
      then Do(Nothing, Count(r.job)) else Do(Nothing, RetryInsert(r, retries))
    case RetryInsert(r, retries) =>
      if !HasTask(db, r.task) then Do(Nothing, Count(r.job))
      else Do(AddTask(RetryRow(db, r.task, retries, c.now, c.jitter)), Count(r.job))
  }

  function CheckTurn(cfg: Config, db: Db, h: History, th: Thread): Turn
    requires IsCheck(th)
  {
    match th
    case Count(j) => Do(CountTasks(j), CheckRead(j, |h.counted|))
    case CheckRead(j, since) =>
      if !HasJob(db, j) then Stop() else Do(Nothing, AfterRead(cfg, j, db.jobs[j], since))
    case ConcatList(j, row, since) =>
      var ids := ListByJob(db.tasks, j);
      (match FirstPending(db.tasks, ids, Concat)
       case None => Do(Nothing, VmafGate(cfg, j, row, since))
       case Some(t) =>
         if row.counts.failed > 0 then Do(Nothing, ConcatSkip(j, row, since, t))
         else Do(Nothing, ConcatClaim(j, t, ChunkPaths(db.tasks, ids))))
    case ConcatSkip(j, row, since, t) =>
      Do(Fault(t, -1, "skipped: chunk tasks failed"), ConcatSkipCount(j, row, since))
    case ConcatSkipCount(j, row, since) => Do(CountTasks(j), VmafGate(cfg, j, row, since))
    case ConcatClaim(j, t, paths) =>
      if Claimable(db, t) then Turn(Claim(t), Done, Some(RunConcat(j, t, paths, |h.claims|))) else Stop()
    case VmafList(j, row, since) =>
      (match FirstPending(db.tasks, ListByJob(db.tasks, j), VmafTarget)
       case None => Do(Nothing, SettleGate(j, row, since))
       case Some(t) =>
         if row.counts.failed > 0 then Do(Nothing, VmafSkip(j, row, since, t)) else Do(Nothing, VmafClaim(j, t)))
    case VmafSkip(j, row, since, t) =>
      Do(Fault(t, -1, "skipped: predecessor tasks failed"), VmafSkipCount(j, row, since))
    case VmafSkipCount(j, row, since) => Do(CountTasks(j), SettleGate(j, row, since))
    case VmafClaim(j, t) =>
      if Claimable(db, t) then Turn(Claim(t), Done, Some(RunVmaf(j, t, |h.claims|))) else Stop()
    case Settle(j, row, _) =>
      if row.counts.failed > 0 then Do(SetStatus(j, Failed), Done) else Do(SetStatus(j, Completed), Release(j))
    case Release(j) => Do(Unblock(j), Done)
  }

  function RunnerTurn(th: Thread, c: Choice): Turn
    requires IsRunner(th)
  {
    match th
    case RunConcat(j, t, _, serial) => Do(StartRunner(serial), FinishRun(j, t, c.ok))
    case RunVmaf(j, t, serial) => Do(StartRunner(serial), FinishRun(j, t, c.ok))
    case FinishRun(j, t, ok) => if ok then Do(Finish(t, 0), Count(j)) else Do(Fault(t, 1, "runner failed"), Count(j))
  }

  function PollTurn(db: Db, th: Thread, c: Choice): Turn
    requires IsPoll(th)
  {
    match th
    case PollClaim(agent, tags) =>
      if Eligible(db, c.pick, tags, c.now) then Do(Assign(c.pick, agent), PollCount(db.tasks[c.pick].job)) else Stop()
    case PollCount(j) => Do(CountTasks(j), PollRead(j))
    case PollRead(j) =>
      if HasJob(db, j) && db.jobs[j].status == Assigned then Do(Nothing, PollRun(j)) else Stop()
    case PollRun(j) => Do(SetStatus(j, Running), Done)
    case Progress(t) => Do(Progressed(t), Done)
  }

  function NewJob(spec: JobSpec, seen: Seen): Job {
    Job(if seen.Unmet? then Waiting else Queued, spec.priority, spec.tags, spec.maxRetries,
        spec.dependsOn, seen.Unmet? || seen.Met?, ZERO)
  }

  /** The status lookup of CreateJob: any error of the query, a missing row included, is
      treated like an absent dependency. */
  function LookAtDependency(db: Db, spec: JobSpec, queryOk: bool): Seen {
    if spec.dependsOn.None? then NoDependency
    else if !queryOk || !HasJob(db, spec.dependsOn.value) then CheckFailed
    else if db.jobs[spec.dependsOn.value].status == Completed then Met
    else Unmet
  }

  function CreateTurn(db: Db, th: Thread, c: Choice): Turn
    requires IsCreate(th)
  {
    match th
    case CreateCheck(spec, rest) => Do(Nothing, CreateInsert(spec, LookAtDependency(db, spec, c.ok), rest))
    case CreateInsert(spec, seen, rest) =>
      if spec.dependsOn.Some? && !HasJob(db, spec.dependsOn.value) then Stop()
      else Do(AddJob(NewJob(spec, seen)),
              if rest == [] then Done else CreateCheck(rest[0].(dependsOn := Some(|db.jobs|)), rest[1..]))
  }

  function AdminTurn(db: Db, th: Thread): Turn
    requires IsAdmin(th)
  {
    match th
    case CancelRead(j) =>
      if !HasJob(db, j) || db.jobs[j].status in {Cancelled, Completed} then Stop() else Do(Nothing, CancelSet(j))
    case CancelSet(j) => Do(SetStatus(j, Cancelled), CancelTasks(j))
    case CancelTasks(j) => Do(CancelRows(j), Done)
    case RetryGate(j) =>
      if !HasJob(db, j) || db.jobs[j].status != Failed then Stop() else Do(Nothing, RetryTasks(j))
    case RetryTasks(j) => Do(RetryRows(j), RetryQueue(j))
    case RetryQueue(j) => Do(SetStatus(j, Queued), Done)
    case Preempt(t) => if Preemptible(db, t) then Do(Requeue(t), Done) else Stop()
    case ResetRead(t) =>
      if !HasTask(db, t) || db.tasks[t].status in {Completed, Failed} then Stop()
      else Do(Nothing, Reset(t, db.tasks[t].job))
    case Reset(t, j) => if HasTask(db, t) then Do(Requeue(t), ResetCount(j)) else Stop()
    case ResetCount(j) => Do(CountTasks(j), Done)
  }

  predicate NeedsExpansion(db: Db, j: nat) {
    HasJob(db, j) && db.jobs[j].status == Queued && db.jobs[j].counts.total == 0
  }

  /** A row that cannot be added, or whose scripts cannot be generated, fails the job; only for a merge
      row the rows added so far stay. */
  function FailedRow(j: nat, kind: Kind): Thread { if kind == Concat then ExpandFail(j) else ExpandCleanup(j) }

  function AddedRow(j: nat, plan: seq<RowPlan>): Thread
    requires plan != []
  {
    if plan[0].scripts then ExpandScripts(j, plan[0].kind, plan[1..]) else ExpandRows(j, plan[1..])
  }

  function ExpandTurn(db: Db, th: Thread, c: Choice): Turn
    requires IsExpand(th)
  {
    match th
    case ExpandRead(j, plan) =>
      if !NeedsExpansion(db, j) then Stop()
      else if c.ok then Do(Nothing, ExpandRows(j, plan)) else Do(Nothing, ExpandFail(j))
    case ExpandRows(j, plan) =>
      if plan == [] then Do(Nothing, ExpandCount(j))
      else if !c.ok || ChunkTaken(db, j, plan[0].chunk)
      then Do(Nothing, FailedRow(j, plan[0].kind))
      else Do(AddTask(NewTask(j, plan[0].chunk, plan[0].kind, plan[0].output)), AddedRow(j, plan))
    case ExpandScripts(j, kind, plan) => Do(Nothing, if c.ok then ExpandRows(j, plan) else FailedRow(j, kind))
    case ExpandCount(j) => Do(CountTasks(j), ExpandQueue(j))
    case ExpandQueue(j) => Do(SetStatus(j, Queued), Done)
    case ExpandCleanup(j) => Do(DeleteRows(j), ExpandFail(j))
    case ExpandFail(j) => Do(SetStatus(j, Failed), Done)
  }

  function AnalysisTurn(db: Db, th: Thread, c: Choice): Turn
    requires IsAnalysis(th)
  {
    match th
    case AnalysisRead(j) => if !NeedsExpansion(db, j) then Stop() else Do(Nothing, AnalysisStart(j))
    case AnalysisStart(j) => Turn(SetStatus(j, Running), Done, Some(AnalysisRun(j)))
    case AnalysisRun(j) => if c.ok then Do(Nothing, AnalysisDone(j)) else Do(SetStatus(j, Failed), Done)
    case AnalysisDone(j) => Do(SetStatus(j, Completed), Release(j))
  }

  function Next(cfg: Config, db: Db, h: History, th: Thread, c: Choice): Turn {
    if IsReport(th) then ReportTurn(db, th, c)
    else if IsCheck(th) then CheckTurn(cfg, db, h, th)
    else if IsRunner(th) then RunnerTurn(th, c)
    else if IsPoll(th) then PollTurn(db, th, c)
    else if IsCreate(th) then CreateTurn(db, th, c)
    else if IsAdmin(th) then AdminTurn(db, th)
    else if IsExpand(th) then ExpandTurn(db, th, c)
    else if IsAnalysis(th) then AnalysisTurn(db, th, c)
    else Stop()
  }

  // ----- runs -----

  datatype Sys = Sys(db: Db, h: History, threads: map<nat, Thread>)

  /** A step of the system: a call arrives, a thread takes its turn and performs `action`, or a
      thread dies. */
  datatype Label = Begin(id: nat, call: Thread) | Step(id: nat, child: nat, c: Choice, action: Action) | Die(id: nat)

  function ActionOf(l: Label): Action { if l.Step? then l.action else Nothing }

  /** The calls that reach the controller.  Agents are well behaved: they report only rows handed
      to them, under the row's own job. */
  predicate MayBegin(db: Db, h: History, th: Thread) {
    match th
    case SyncLookup(r) => r.task in h.handed && r.task < |db.tasks| && db.tasks[r.task].job == r.job
    case Record(r) => r.task in h.handed && r.task < |db.tasks| && db.tasks[r.task].job == r.job
    case PollClaim(_, _) => true
    case Progress(_) => true
    case CreateCheck(_, _) => true
    case CancelRead(_) => true
    case RetryGate(_) => true
    case Preempt(_) => true
    case ResetRead(_) => true
    case ExpandRead(_, _) => true
    case AnalysisRead(_) => true
    case _ => false
  }

  function AfterTurn(s: Sys, id: nat, child: nat, turn: Turn): Sys {
    var moved := s.threads[id := turn.next];
    Sys(Apply(s.db, turn.action), Remember(s.db, s.h, turn.action),
        if turn.spawn.Some? then moved[child := turn.spawn.value] else moved)
  }

  ghost predicate SysStep(cfg: Config, s: Sys, l: Label, s': Sys) {
    forall k :: Look(k) ==>
      match l
      case Begin(id, call) => id !in s.threads && MayBegin(s.db, s.h, call) && s' == s.(threads := s.threads[id := call])
      case Die(id) => id in s.threads && s' == s.(threads := s.threads - {id})
      case Step(id, child, c, action) =>
        && id in s.threads && child !in s.threads && c.jitter <= 15
        && var turn := Next(cfg, s.db, s.h, s.threads[id], c);
           action == turn.action && s' == AfterTurn(s, id, child, turn)
  }

  ghost predicate Init(s: Sys) {
    s == Sys(Db([], []), History({}, {}, {}, [], [], {}), map[])
  }

  /** A run: states and the labels of the steps between them. */
  ghost predicate IsRun(cfg: Config, ss: seq<Sys>, ls: seq<Label>) {
    && |ss| == |ls| + 1 && Init(ss[0])
    && forall i :: 0 <= i < |ls| ==> SysStep(cfg, ss[i], ls[i], ss[i + 1])
  }
}
