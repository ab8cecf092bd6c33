/**
 The job and task rows and the statements of the store that update them.  A table is a
 sequence: a row's position is its id and its creation order, and a deleted task row stays
 behind with `live` false, so an id is never used twice.
 */
module JobRows {
  import opened Basics
  import opened RetryPolicy

  datatype Status = Waiting | Queued | Pending | Assigned | Running | Completed | Failed | Cancelled

  datatype Kind = Encode | Concat | VmafTarget | Plain

  datatype Counts = Counts(total: nat, pending: nat, running: nat, completed: nat, failed: nat)

  const ZERO: Counts := Counts(0, 0, 0, 0, 0)

  /** A job row.  `sawDependency` is not a column: it records that the status of the
      predecessor was read when the row was created. */
  datatype Job = Job(status: Status, priority: int, tags: set<string>, maxRetries: int,
                     dependsOn: Option<nat>, sawDependency: bool, counts: Counts)

  /** A task row.  `parent` is not a column: it records which row an automatic retry repeats. */
  datatype Task = Task(job: nat, chunk: nat, kind: Kind, status: Status, agent: Option<nat>,
                       retryCount: nat, retryAfter: Option<int>, output: string,
                       exitCode: Option<int>, errorMsg: Option<string>, parent: Option<nat>, live: bool)

  datatype Db = Db(jobs: seq<Job>, tasks: seq<Task>)

  predicate HasJob(db: Db, j: nat) { j < |db.jobs| }
  predicate HasTask(db: Db, t: nat) { t < |db.tasks| && db.tasks[t].live }

  /** Row t belongs to job j. */
  predicate RowOf(tasks: seq<Task>, t: nat, j: nat) {
    t < |tasks| && tasks[t].live && tasks[t].job == j
  }

  // ----- jobs -----

  function SetJobStatus(db: Db, j: nat, s: Status): Db {
    if HasJob(db, j) then db.(jobs := db.jobs[j := db.jobs[j].(status := s)]) else db
  }

  function SetPriority(db: Db, j: nat, p: int): Db {
    if HasJob(db, j) then db.(jobs := db.jobs[j := db.jobs[j].(priority := p)]) else db
  }

  predicate Unblocks(job: Job, p: nat) {
    job.dependsOn == Some(p) && job.status == Waiting
  }

  function UnblockDependents(db: Db, p: nat): Db {
    db.(jobs := seq(|db.jobs|, i requires 0 <= i < |db.jobs| =>
          if Unblocks(db.jobs[i], p) then db.jobs[i].(status := Queued) else db.jobs[i]))
  }

  /** Of the jobs other than j exactly those change that are waiting for j, and only if `closes`: they
      are queued. */
  ghost predicate ReleasesWaiting(before: seq<Job>, after: seq<Job>, j: nat, closes: bool) {
    && |before| == |after|
    && forall i :: 0 <= i < |before| && i != j ==>
         after[i] == if closes && before[i].status == Waiting && before[i].dependsOn == Some(j)
                     then before[i].(status := Queued) else before[i]
  }

  function CountStatus(tasks: seq<Task>, j: nat, s: Status): nat {
    if tasks == [] then 0
    else var n := |tasks| - 1;
         CountStatus(tasks[..n], j, s) + if RowOf(tasks, n, j) && tasks[n].status == s then 1 else 0
  }

  function CountRows(tasks: seq<Task>, j: nat): nat {
    if tasks == [] then 0
    else CountRows(tasks[..|tasks| - 1], j) + if RowOf(tasks, |tasks| - 1, j) then 1 else 0
  }

  function Tally(tasks: seq<Task>, j: nat): Counts {
    Counts(CountRows(tasks, j), CountStatus(tasks, j, Pending), CountStatus(tasks, j, Running),
           CountStatus(tasks, j, Completed), CountStatus(tasks, j, Failed))
  }

  /** Nothing pending, running or failed. */
  predicate Closes(n: Counts) { n.pending == 0 && n.running == 0 && n.failed == 0 }

  function Recount(db: Db, j: nat): Db {
    if HasJob(db, j) then db.(jobs := db.jobs[j := db.jobs[j].(counts := Tally(db.tasks, j))]) else db
  }

  /** A zero counter means exactly that no row of the job has the status. */
  lemma {:induction false} CountStatusZero(tasks: seq<Task>, j: nat, s: Status)
    ensures CountStatus(tasks, j, s) == 0 <==> forall t: nat :: RowOf(tasks, t, j) ==> tasks[t].status != s
  {
    if tasks != [] {
      var n := |tasks| - 1;
      CountStatusZero(tasks[..n], j, s);
      forall t: nat | t < n ensures RowOf(tasks[..n], t, j) <==> RowOf(tasks, t, j) {}
      if CountStatus(tasks, j, s) == 0 {
        forall t: nat | RowOf(tasks, t, j) ensures tasks[t].status != s {
          if t < n { assert RowOf(tasks[..n], t, j); }
        }
      } else if CountStatus(tasks[..n], j, s) != 0 {
        var t: nat :| RowOf(tasks[..n], t, j) && tasks[..n][t].status == s;
        assert RowOf(tasks, t, j);
      } else {
        assert RowOf(tasks, n, j);
      }
    }
  }

  /** A counter of one pins the single row with that status. */
  lemma {:induction false} CountStatusOne(tasks: seq<Task>, j: nat, s: Status, t: nat)
    requires CountStatus(tasks, j, s) == 1
    requires RowOf(tasks, t, j) && tasks[t].status == s
    ensures forall u: nat :: RowOf(tasks, u, j) && tasks[u].status == s ==> u == t
  {
    var n := |tasks| - 1;
    if t == n {
      CountStatusZero(tasks[..n], j, s);
      forall u: nat | RowOf(tasks, u, j) && tasks[u].status == s ensures u == t {
        if u < n { assert RowOf(tasks[..n], u, j); }
      }
    } else {
      assert RowOf(tasks[..n], t, j);
      if CountStatus(tasks[..n], j, s) == 0 {
        CountStatusZero(tasks[..n], j, s);
        assert false;
      }
      CountStatusOne(tasks[..n], j, s, t);
      forall u: nat | RowOf(tasks, u, j) && tasks[u].status == s ensures u == t {
        if u < n { assert RowOf(tasks[..n], u, j); }
      }
    }
  }

  // ----- task rows -----

  function PutTask(db: Db, t: nat, row: Task): Db
    requires t < |db.tasks|
  {
    db.(tasks := db.tasks[t := row])
  }

  function InsertTask(db: Db, row: Task): Db {
    db.(tasks := db.tasks + [row])
  }

  function NewTask(j: nat, chunk: nat, kind: Kind, output: string): Task {
    Task(j, chunk, kind, Pending, None, 0, None, output, None, None, None, true)
  }

  /** The UNIQUE (job_id, chunk_index) constraint. */
  predicate ChunkTaken(db: Db, j: nat, chunk: nat) {
    exists t :: 0 <= t < |db.tasks| && RowOf(db.tasks, t, j) && db.tasks[t].chunk == chunk
  }

  /** What the constraint keeps: no two rows of a job share a chunk index. */
  ghost predicate UniqueChunks(db: Db) {
    forall t, u :: 0 <= t < |db.tasks| && 0 <= u < |db.tasks| && t != u && db.tasks[t].live && db.tasks[u].live ==>
      db.tasks[t].job != db.tasks[u].job || db.tasks[t].chunk != db.tasks[u].chunk
  }

  predicate TagsMatch(job: Job, tags: set<string>) {
    job.tags == {} || job.tags * tags != {}
  }

  /** What the WHERE clause of the claim statement lets through. */
  predicate Eligible(db: Db, t: nat, tags: set<string>, now: int) {
    && HasTask(db, t) && db.tasks[t].status == Pending
    && HasJob(db, db.tasks[t].job)
    && db.jobs[db.tasks[t].job].status in {Queued, Running}
    && TagsMatch(db.jobs[db.tasks[t].job], tags)
    && db.tasks[t].kind != Concat
    && (db.tasks[t].retryAfter.None? || db.tasks[t].retryAfter.value <= now)
  }

  /** Row t may go to an agent with these tags: it is pending, no merge row and due, and its job is queued
      or running and open to all agents or shares a tag with this one. */
  ghost predicate MayTake(jobs: seq<Job>, tasks: seq<Task>, t: nat, tags: set<string>, now: int) {
    && t < |tasks| && tasks[t].job < |jobs|
    && var row, job := tasks[t], jobs[tasks[t].job];
       && row.live && row.status == Pending && row.kind != Concat
       && (row.retryAfter.Some? ==> row.retryAfter.value <= now)
       && (job.status == Queued || job.status == Running)
       && (job.tags == {} || exists tag :: tag in job.tags && tag in tags)
  }

  /** The WHERE clause lets through exactly the rows the agent may take. */
  lemma EligibleExactly(db: Db, t: nat, tags: set<string>, now: int)
    ensures Eligible(db, t, tags, now) <==> MayTake(db.jobs, db.tasks, t, tags, now)
  {
    if t < |db.tasks| && db.tasks[t].job < |db.jobs| {
      var job := db.jobs[db.tasks[t].job];
      if tag :| tag in job.tags && tag in tags { assert tag in job.tags * tags; }
      if job.tags * tags != {} { var tag :| tag in job.tags * tags; }
    }
  }

  /** Row t goes before row u in the ORDER BY of the claim statement. */
  predicate ClaimedBefore(db: Db, t: nat, u: nat)
    requires t < |db.tasks| && u < |db.tasks|
    requires HasJob(db, db.tasks[t].job) && HasJob(db, db.tasks[u].job)
  {
    var a, b := db.tasks[t], db.tasks[u];
    var pa, pb := db.jobs[a.job].priority, db.jobs[b.job].priority;
    pa > pb || (pa == pb && (a.job < b.job || (a.job == b.job && a.chunk < b.chunk)))
  }

  /** The row the claim statement picks: eligible, and no eligible row goes before it. */
  ghost predicate NextClaim(db: Db, t: nat, tags: set<string>, now: int) {
    Eligible(db, t, tags, now) && forall u: nat :: Eligible(db, u, tags, now) ==> !ClaimedBefore(db, u, t)
  }

  function AssignTask(db: Db, t: nat, agent: nat): Db
    requires t < |db.tasks|
  {
    PutTask(db, t, db.tasks[t].(status := Assigned, agent := Some(agent)))
  }

  predicate Claimable(db: Db, t: nat) {
    HasTask(db, t) && db.tasks[t].status == Pending
  }

  function ClaimRow(db: Db, t: nat): Db {
    if Claimable(db, t) then PutTask(db, t, db.tasks[t].(status := Running)) else db
  }

  function MarkRunning(db: Db, t: nat): Db {
    if HasTask(db, t) then PutTask(db, t, db.tasks[t].(status := Running)) else db
  }

  function CompleteTask(db: Db, t: nat, exit: int): Db {
    if HasTask(db, t) then PutTask(db, t, db.tasks[t].(status := Completed, exitCode := Some(exit))) else db
  }

  function FailTask(db: Db, t: nat, exit: int, message: string): Db {
    if HasTask(db, t)
    then PutTask(db, t, db.tasks[t].(status := Failed, exitCode := Some(exit), errorMsg := Some(message)))
    else db
  }

  function CancelledRow(row: Task, j: nat): Task {
    if row.live && row.job == j && row.status in {Pending, Assigned} then row.(status := Cancelled) else row
  }

  function CancelPendingTasks(db: Db, j: nat): Db {
    db.(tasks := seq(|db.tasks|, i requires 0 <= i < |db.tasks| => CancelledRow(db.tasks[i], j)))
  }

  function DeletedRow(row: Task, j: nat): Task {
    if row.job == j then row.(live := false) else row
  }

  function DeleteTasks(db: Db, j: nat): Db {
    db.(tasks := seq(|db.tasks|, i requires 0 <= i < |db.tasks| => DeletedRow(db.tasks[i], j)))
  }

  function RetriedRow(row: Task, j: nat): Task {
    if row.live && row.job == j && row.status == Failed
    then row.(status := Pending, agent := None, exitCode := None, errorMsg := None) else row
  }

  function RetryFailedTasks(db: Db, j: nat): Db {
    db.(tasks := seq(|db.tasks|, i requires 0 <= i < |db.tasks| => RetriedRow(db.tasks[i], j)))
  }

  predicate Preemptible(db: Db, t: nat) {
    HasTask(db, t) && db.tasks[t].status in {Assigned, Running}
  }

  /** PreemptTask and ResetTask: back to pending, no agent. */
  function RequeueTask(db: Db, t: nat): Db {
    if HasTask(db, t) then PutTask(db, t, db.tasks[t].(status := Pending, agent := None)) else db
  }

  function MaxChunk(tasks: seq<Task>, j: nat): nat {
    if tasks == [] then 0
    else var n := |tasks| - 1;
         var m := MaxChunk(tasks[..n], j);
         if RowOf(tasks, n, j) && tasks[n].chunk > m then tasks[n].chunk else m
  }

  /** The row RetryTaskWithBackoffJitter inserts after row t. */
  function RetryRow(db: Db, t: nat, retryCount: nat, now: int, jitter: nat): Task
    requires t < |db.tasks|
  {
    var row := db.tasks[t];
    Task(row.job, MaxChunk(db.tasks, row.job) + 1, row.kind, Pending, None, retryCount + 1,
         Some(now + BackoffSeconds(retryCount, jitter)), row.output, None, None, Some(t), true)
  }

  lemma {:induction false} MaxChunkIsMax(tasks: seq<Task>, j: nat)
    ensures forall t: nat :: RowOf(tasks, t, j) ==> tasks[t].chunk <= MaxChunk(tasks, j)
    ensures MaxChunk(tasks, j) > 0 ==> exists t: nat :: RowOf(tasks, t, j) && tasks[t].chunk == MaxChunk(tasks, j)
  {
    if tasks != [] {
      var n := |tasks| - 1;
      MaxChunkIsMax(tasks[..n], j);
      if t: nat :| RowOf(tasks[..n], t, j) && tasks[..n][t].chunk == MaxChunk(tasks[..n], j) { assert RowOf(tasks, t, j); }
      forall t: nat | RowOf(tasks, t, j) ensures tasks[t].chunk <= MaxChunk(tasks, j) {
        if t < n { assert RowOf(tasks[..n], t, j); }
      }
    }
  }

  /** An automatic retry takes the chunk index after the highest of the job, and 1 if that has none above
      0; so no row of the job holds it. */
  lemma RetryChunkIsFree(db: Db, t: nat, retryCount: nat, now: int, jitter: nat)
    requires t < |db.tasks|
    ensures var row := RetryRow(db, t, retryCount, now, jitter);
            && row.job == db.tasks[t].job && !ChunkTaken(db, row.job, row.chunk)
            && (forall u: nat :: RowOf(db.tasks, u, row.job) ==> db.tasks[u].chunk < row.chunk)
            && (row.chunk == 1 || exists u: nat :: RowOf(db.tasks, u, row.job) && db.tasks[u].chunk == row.chunk - 1)
  {
    MaxChunkIsMax(db.tasks, db.tasks[t].job);
  }

  // ----- listing -----

  /** The rows of job j with chunk index c, in creation order. */
  function RowsAt(tasks: seq<Task>, j: nat, c: nat): (ids: seq<nat>)
    ensures forall i :: 0 <= i < |ids| ==> ids[i] < |tasks|
  {
    if tasks == [] then []
    else var n := |tasks| - 1;
         RowsAt(tasks[..n], j, c) + if RowOf(tasks, n, j) && tasks[n].chunk == c then [n] else []
  }

  function ListBelow(tasks: seq<Task>, j: nat, c: nat): (ids: seq<nat>)
    ensures forall i :: 0 <= i < |ids| ==> ids[i] < |tasks|
  {
    if c == 0 then [] else ListBelow(tasks, j, c - 1) + RowsAt(tasks, j, c - 1)
  }

  /** ListTasksByJob: the ids of the job's rows by ascending chunk index. */
  function ListByJob(tasks: seq<Task>, j: nat): (ids: seq<nat>)
    ensures forall i :: 0 <= i < |ids| ==> ids[i] < |tasks|
  {
    ListBelow(tasks, j, MaxChunk(tasks, j) + 1)
  }

  predicate SortedByChunk(tasks: seq<Task>, ids: seq<nat>) {
    && (forall i :: 0 <= i < |ids| ==> ids[i] < |tasks|)
    && (forall i, k :: 0 <= i < k < |ids| ==> tasks[ids[i]].chunk <= tasks[ids[k]].chunk)
  }

  lemma {:induction false} RowsAtSound(tasks: seq<Task>, j: nat, c: nat)
    ensures forall t: nat :: t in RowsAt(tasks, j, c) <==> RowOf(tasks, t, j) && tasks[t].chunk == c
  {
    if tasks != [] {
      var n := |tasks| - 1;
      RowsAtSound(tasks[..n], j, c);
      forall t: nat ensures t in RowsAt(tasks, j, c) <==> RowOf(tasks, t, j) && tasks[t].chunk == c {
        if t < n { assert RowOf(tasks[..n], t, j) <==> RowOf(tasks, t, j); }
      }
    }
  }

  ghost predicate ListsRows(tasks: seq<Task>, ids: seq<nat>, j: nat, from: nat, to: nat) {
    forall t: nat :: t in ids <==> RowOf(tasks, t, j) && from <= tasks[t].chunk < to
  }

  lemma ConcatLists(tasks: seq<Task>, a: seq<nat>, b: seq<nat>, j: nat, c: nat)
    requires ListsRows(tasks, a, j, 0, c) && SortedByChunk(tasks, a) && ListsRows(tasks, b, j, c, c + 1)
    ensures ListsRows(tasks, a + b, j, 0, c + 1) && SortedByChunk(tasks, a + b)
  {
    var all := a + b;
    forall i | 0 <= i < |all| ensures RowOf(tasks, all[i], j) && (i < |a| ==> tasks[all[i]].chunk < c) && (i >= |a| ==> tasks[all[i]].chunk == c) {
      if i < |a| { assert all[i] in a; } else { assert all[i] in b; }
    }
    forall i, k | 0 <= i < k < |all| ensures tasks[all[i]].chunk <= tasks[all[k]].chunk {
      if k < |a| { assert tasks[a[i]].chunk <= tasks[a[k]].chunk; }
    }
  }

  lemma {:induction false} ListBelowSound(tasks: seq<Task>, j: nat, c: nat)
    ensures ListsRows(tasks, ListBelow(tasks, j, c), j, 0, c) && SortedByChunk(tasks, ListBelow(tasks, j, c))
  {
    if c > 0 {
      ListBelowSound(tasks, j, c - 1);
      RowsAtSound(tasks, j, c - 1);
      ConcatLists(tasks, ListBelow(tasks, j, c - 1), RowsAt(tasks, j, c - 1), j, c - 1);
    }
  }

  lemma {:induction false} RowsAtOnce(tasks: seq<Task>, j: nat, c: nat)
    ensures Distinct(RowsAt(tasks, j, c))
  {
    if tasks != [] { RowsAtOnce(tasks[..|tasks| - 1], j, c); }
  }

  lemma JoinOnce(tasks: seq<Task>, a: seq<nat>, b: seq<nat>, j: nat, c: nat)
    requires Distinct(a) && Distinct(b) && ListsRows(tasks, a, j, 0, c) && ListsRows(tasks, b, j, c, c + 1)
    ensures Distinct(a + b)
  {
    forall i, k | 0 <= i < k < |a + b| ensures (a + b)[i] != (a + b)[k] {
      if i < |a| <= k { assert a[i] in a && b[k - |a|] in b; }
    }
  }

  lemma {:induction false} ListBelowOnce(tasks: seq<Task>, j: nat, c: nat)
    ensures Distinct(ListBelow(tasks, j, c))
  {
    if c > 0 {
      var a, b := ListBelow(tasks, j, c - 1), RowsAt(tasks, j, c - 1);
      ListBelowOnce(tasks, j, c - 1);
      RowsAtOnce(tasks, j, c - 1);
      assert ListsRows(tasks, a, j, 0, c - 1) by { ListBelowSound(tasks, j, c - 1); }
      assert ListsRows(tasks, b, j, c - 1, c) by { RowsAtSound(tasks, j, c - 1); }
      JoinOnce(tasks, a, b, j, c - 1);
    }
  }

  /** The listing holds exactly the job's rows, each once, in chunk order. */
  lemma ListByJobSound(tasks: seq<Task>, j: nat)
    ensures forall t: nat :: t in ListByJob(tasks, j) <==> RowOf(tasks, t, j)
    ensures Distinct(ListByJob(tasks, j)) && SortedByChunk(tasks, ListByJob(tasks, j))
  {
    ListBelowSound(tasks, j, MaxChunk(tasks, j) + 1);
    ListBelowOnce(tasks, j, MaxChunk(tasks, j) + 1);
    MaxChunkIsMax(tasks, j);
  }

  /** The first pending row of a kind, in listing order. */
  function FirstPending(tasks: seq<Task>, ids: seq<nat>, kind: Kind): (r: Option<nat>)
    requires forall i :: 0 <= i < |ids| ==> ids[i] < |tasks|
    ensures r.Some? ==> r.value in ids && tasks[r.value].kind == kind && tasks[r.value].status == Pending
    ensures r.None? ==> forall i :: 0 <= i < |ids| ==> !(tasks[ids[i]].kind == kind && tasks[ids[i]].status == Pending)
  {
    if ids == [] then None
    else if tasks[ids[0]].kind == kind && tasks[ids[0]].status == Pending then Some(ids[0])
    else FirstPending(tasks, ids[1..], kind)
  }

  /** The outputs of the completed non-concat rows, in listing order. */
  function ChunkPaths(tasks: seq<Task>, ids: seq<nat>): seq<string>
    requires forall i :: 0 <= i < |ids| ==> ids[i] < |tasks|
  {
    if ids == [] then []
    else var n := |ids| - 1;
         var row := tasks[ids[n]];
         ChunkPaths(tasks, ids[..n]) + if row.kind != Concat && row.status == Completed then [row.output] else []
  }
}
