/**
 The agent's offline journal of task results and their replay to the controller.
 */
module Journal {
  import opened Basics

  datatype Report = Report(task: string, job: string, success: bool, exit: int, message: string)

  /** A journal row; its position is its id, and a deleted row stays behind with `present` false. */
  datatype Entry = Entry(report: Report, createdAt: int, synced: bool, present: bool)

  // ----- the journal statements -----

  predicate IsPending(e: Entry) { e.present && !e.synced }

  /** The ids of the rows not yet synced, in id order. */
  function PendingIds(rows: seq<Entry>): (ids: seq<nat>)
    ensures forall i :: 0 <= i < |ids| ==> ids[i] < |rows| && IsPending(rows[ids[i]])
    ensures forall i, k :: 0 <= i < k < |ids| ==> ids[i] < ids[k]
  {
    if rows == [] then []
    else var n := |rows| - 1;
         PendingIds(rows[..n]) + if IsPending(rows[n]) then [n] else []
  }

  lemma {:induction false} PendingIdsComplete(rows: seq<Entry>, id: nat)
    requires id < |rows|
    ensures id in PendingIds(rows) <==> rows[id].present && !rows[id].synced
  {
    var n := |rows| - 1;
    if id < n { PendingIdsComplete(rows[..n], id); }
  }

  function Marked(rows: seq<Entry>, id: nat): seq<Entry> {
    if id < |rows| && rows[id].present then rows[id := rows[id].(synced := true)] else rows
  }

  predicate Expired(e: Entry, cutoff: int) { e.present && e.synced && e.createdAt < cutoff }

  /** Exactly the stored, synced rows created before the cutoff are deleted. */
  function Pruned(rows: seq<Entry>, cutoff: int): (r: seq<Entry>)
    ensures |r| == |rows|
    ensures forall i :: 0 <= i < |rows| ==>
              r[i] == rows[i].(present := rows[i].present && !(rows[i].synced && rows[i].createdAt < cutoff))
  {
    seq(|rows|, i requires 0 <= i < |rows| => if Expired(rows[i], cutoff) then rows[i].(present := false) else rows[i])
  }

  class OfflineStore {
    var rows: seq<Entry>

    constructor ()
      ensures rows == []
    {
      rows := [];
    }

    method SaveResult(r: Report, now: int)
      modifies this
      ensures rows == old(rows) + [Entry(r, now, false, true)]
    {
      rows := rows + [Entry(r, now, false, true)];
    }

    method PendingResults() returns (ids: seq<nat>)
      ensures ids == PendingIds(rows)
      ensures forall id: nat :: id < |rows| ==> (id in ids <==> rows[id].present && !rows[id].synced)
    {
      ids := [];
      for i := 0 to |rows|
        invariant ids == PendingIds(rows[..i])
      {
        assert rows[..i + 1][..i] == rows[..i];
        if rows[i].present && !rows[i].synced { ids := ids + [i]; }
      }
      assert rows[..|rows|] == rows;
      forall id: nat | id < |rows| ensures id in ids <==> rows[id].present && !rows[id].synced { PendingIdsComplete(rows, id); }
    }

    method MarkSynced(id: nat)
      modifies this
      ensures rows == Marked(old(rows), id)
      ensures rows == if id < |old(rows)| && old(rows)[id].present then old(rows)[id := old(rows)[id].(synced := true)]
                      else old(rows)
    {
      if id < |rows| && rows[id].present { rows := rows[id := rows[id].(synced := true)]; }
    }

    method PruneJournal(cutoff: int)
      modifies this
      ensures rows == Pruned(old(rows), cutoff)
      ensures forall i :: 0 <= i < |rows| ==>
                rows[i] == old(rows)[i].(present := old(rows)[i].present && !(old(rows)[i].synced && old(rows)[i].createdAt < cutoff))
    {
      for i := 0 to |rows|
        invariant |rows| == |old(rows)|
        invariant forall k :: 0 <= k < i ==> rows[k] == Pruned(old(rows), cutoff)[k]
        invariant forall k :: i <= k < |rows| ==> rows[k] == old(rows)[k]
      {
        if Expired(rows[i], cutoff) { rows := rows[i := rows[i].(present := false)]; }
      }
    }

    /** syncResults.  The first `reachable` sends succeed; `closeOk` is whether the close is
        acknowledged.  An acknowledged close marks every result of the snapshot, whether or not it
        was sent; anything else marks none. */
    method SyncResults(reachable: nat, closeOk: bool) returns (sent: seq<Report>)
      modifies this
      ensures var ids := PendingIds(old(rows));
              && |sent| == (if reachable < |ids| then reachable else |ids|)
              && (forall i :: 0 <= i < |sent| ==> sent[i] == old(rows)[ids[i]].report)
              && rows == if closeOk then MarkedAll(old(rows), ids) else old(rows)
    {
      var results := PendingResults();
      sent := [];
      if |results| == 0 { return; }
      var i := 0;
      while i < |results|
        invariant 0 <= i <= |results| && i <= reachable && |sent| == i
        invariant forall k :: 0 <= k < i ==> sent[k] == rows[results[k]].report
      {
        if i >= reachable { break; }
        sent := sent + [rows[results[i]].report];
        i := i + 1;
      }
      if closeOk { MarkAll(results); }
    }

    /** The last loop of syncResults. */
    method MarkAll(results: seq<nat>)
      modifies this
      ensures rows == MarkedAll(old(rows), results)
    {
      for k := 0 to |results|
        invariant rows == MarkedAll(old(rows), results[..k])
      {
        assert results[..k + 1][..k] == results[..k];
        MarkSynced(results[k]);
      }
      assert results[..|results|] == results;
    }
  }

  /** What a task execution comes to. */
  datatype Execution = Execution(task: string, job: string, exit: int, error: Option<string>)

  /** The agent's poll loop body. */
  class Runner {
    const offline: OfflineStore
    var busy: bool
    var currentTask: string

    constructor (offline: OfflineStore)
      ensures this.offline == offline && !busy && currentTask == ""
    {
      this.offline, busy, currentTask := offline, false, "";
    }

    /** pollAndExecute: a finished task's result is sent, or journaled if the report fails; `saveOk`
        is whether the journal accepts it.  The agent is idle again either way. */
    method PollAndExecute(executed: Option<Execution>, reportOk: bool, saveOk: bool, now: int)
      returns (sent: Option<Report>)
      modifies this, offline
      ensures if executed.Some? then !busy && currentTask == "" else busy == old(busy) && currentTask == old(currentTask)
      ensures match executed
              case None => sent == None && offline.rows == old(offline.rows)
              case Some(e) =>
                var report := Report(e.task, e.job, e.error == None && e.exit == 0, e.exit, if e.error.Some? then e.error.value else "");
                if reportOk then sent == Some(report) && offline.rows == old(offline.rows)
                else sent == None && offline.rows == old(offline.rows) + if saveOk then [Entry(report, now, false, true)] else []
    {
      sent := None;
      if executed.None? { return; }
      var e := executed.value;
      busy, currentTask := true, e.task;
      var success := e.error.None? && e.exit == 0;
      var result := Report(e.task, e.job, success, e.exit, if e.error.Some? then e.error.value else "");
      if reportOk {
        sent := Some(result);
      } else if saveOk {
        offline.SaveResult(result, now);
      }
      busy, currentTask := false, "";
    }
  }

  function MarkedAll(rows: seq<Entry>, ids: seq<nat>): seq<Entry> {
    if ids == [] then rows else Marked(MarkedAll(rows, ids[..|ids| - 1]), ids[|ids| - 1])
  }

  // ----- both halves, with crashes and broken streams -----

  datatype Phase = Open | Closed(marked: nat) | Abandoned

  /** A replay: its snapshot of pending ids, how many were sent, whether a send failed, how many the
      controller has handled, and whether the controller's handler is still running. */
  datatype Replay = Replay(ids: seq<nat>, sent: nat, sendFailed: bool, handled: nat, serving: bool, phase: Phase)

  datatype Handling = Handling(replay: nat, id: nat)

  datatype World = World(rows: seq<Entry>, replays: seq<Replay>, handled: seq<Handling>)

  datatype Event =
    | Save(r: Report, now: int)
    | Start
    | Send(s: nat)
    | SendFails(s: nat)
    | Handle(s: nat)
    | ServerFails(s: nat)
    | CloseOk(s: nat)
    | Abandon(s: nat)
    | Mark(s: nat)
    | MarkFails(s: nat)
    | Prune(cutoff: int)

  predicate At(w: World, s: nat, phase: Phase) { s < |w.replays| && w.replays[s].phase == phase }

  /** When a step can happen.  The agent closes after sending everything or after a failed send; a
      close is acknowledged only by a handler that has handled everything sent. */
  predicate Enabled(w: World, e: Event) {
    match e
    case Start => PendingIds(w.rows) != []
    case Send(s) => At(w, s, Open) && !w.replays[s].sendFailed && w.replays[s].sent < |w.replays[s].ids|
    case SendFails(s) => At(w, s, Open) && !w.replays[s].sendFailed && w.replays[s].sent < |w.replays[s].ids|
    case Handle(s) => s < |w.replays| && !w.replays[s].phase.Closed? && w.replays[s].serving
                      && w.replays[s].handled < w.replays[s].sent <= |w.replays[s].ids|
    case ServerFails(s) => s < |w.replays|
    case CloseOk(s) => At(w, s, Open) && (w.replays[s].sendFailed || w.replays[s].sent == |w.replays[s].ids|)
                       && w.replays[s].serving && w.replays[s].handled == w.replays[s].sent
    case Abandon(s) => s < |w.replays|
    case Mark(s) => s < |w.replays| && w.replays[s].phase.Closed? && w.replays[s].phase.marked < |w.replays[s].ids|
    case MarkFails(s) => s < |w.replays| && w.replays[s].phase.Closed? && w.replays[s].phase.marked < |w.replays[s].ids|
    case _ => true
  }

  function Put(w: World, s: nat, r: Replay): World
    requires s < |w.replays|
  {
    w.(replays := w.replays[s := r])
  }

  function Step(w: World, e: Event): World
    requires Enabled(w, e)
  {
    match e
    case Save(r, now) => w.(rows := w.rows + [Entry(r, now, false, true)])
    case Start => w.(replays := w.replays + [Replay(PendingIds(w.rows), 0, false, 0, true, Open)])
    case Send(s) => Put(w, s, w.replays[s].(sent := w.replays[s].sent + 1))
    case SendFails(s) => Put(w, s, w.replays[s].(sendFailed := true))
    case Handle(s) =>
      var r := w.replays[s];
      Put(w, s, r.(handled := r.handled + 1)).(handled := w.handled + [Handling(s, r.ids[r.handled])])
    case ServerFails(s) => Put(w, s, w.replays[s].(serving := false))
    case CloseOk(s) => Put(w, s, w.replays[s].(phase := Closed(0)))
    case Abandon(s) => Put(w, s, w.replays[s].(phase := Abandoned))
    case Mark(s) =>
      var r := w.replays[s];
      Put(w, s, r.(phase := Closed(r.phase.marked + 1))).(rows := Marked(w.rows, r.ids[r.phase.marked]))
    case MarkFails(s) => Put(w, s, w.replays[s].(phase := Closed(w.replays[s].phase.marked + 1)))
    case Prune(cutoff) => w.(rows := Pruned(w.rows, cutoff))
  }

  const NOTHING: World := World([], [], [])

  ghost predicate IsRun(ws: seq<World>, es: seq<Event>) {
    && |ws| == |es| + 1 && ws[0] == NOTHING
    && forall i :: 0 <= i < |es| ==> Enabled(ws[i], es[i]) && ws[i + 1] == Step(ws[i], es[i])
  }

  predicate WasHandled(w: World, id: nat) { exists k :: 0 <= k < |w.handled| && w.handled[k].id == id }

  /** The ids handled through one replay, in handling order. */
  function Through(handled: seq<Handling>, s: nat): seq<nat> {
    if handled == [] then []
    else var h := handled[|handled| - 1];
         Through(handled[..|handled| - 1], s) + if h.replay == s then [h.id] else []
  }

  ghost predicate ReplayOk(w: World, s: nat)
    requires s < |w.replays|
  {
    var r := w.replays[s];
    && r.handled <= r.sent <= |r.ids|
    && (forall i :: 0 <= i < |r.ids| ==> r.ids[i] < |w.rows|)
    && (forall i, k :: 0 <= i < k < |r.ids| ==> r.ids[i] < r.ids[k])
    && Through(w.handled, s) == r.ids[..r.handled]
    && (r.phase.Closed? ==> r.handled == r.sent && (r.sendFailed || r.sent == |r.ids|))
  }

  ghost predicate RowOk(w: World, id: nat)
    requires id < |w.rows|
  {
    !w.rows[id].present ==> w.rows[id].synced
  }

  ghost predicate Invariant(w: World) {
    forall x :: Look(x) ==>
      && (forall s :: 0 <= s < |w.replays| ==> ReplayOk(w, s))
      && (forall id :: 0 <= id < |w.rows| ==> RowOk(w, id))
      && (forall k :: 0 <= k < |w.handled| ==> w.handled[k].replay < |w.replays|)
  }

  // ----- the invariant of every run -----

  lemma ThroughAppend(handled: seq<Handling>, h: Handling, s: nat)
    ensures Through(handled + [h], s) == Through(handled, s) + if h.replay == s then [h.id] else []
  {
    assert (handled + [h])[..|handled|] == handled;
  }

  lemma {:induction false} ThroughNobody(handled: seq<Handling>, s: nat)
    requires forall k :: 0 <= k < |handled| ==> handled[k].replay != s
    ensures Through(handled, s) == []
  {
    if handled != [] { ThroughNobody(handled[..|handled| - 1], s); }
  }

  lemma {:induction false} ThroughWasHandled(w: World, s: nat, i: nat)
    requires i < |Through(w.handled, s)|
    ensures WasHandled(w, Through(w.handled, s)[i])
    decreases |w.handled|
  {
    var n := |w.handled| - 1;
    var before := w.(handled := w.handled[..n]);
    if i < |Through(before.handled, s)| {
      ThroughWasHandled(before, s, i);
      var k :| 0 <= k < n && before.handled[k].id == Through(before.handled, s)[i];
      assert w.handled[k].id == Through(w.handled, s)[i];
    } else {
      assert w.handled[n].id == Through(w.handled, s)[i];
    }
  }

  lemma HandledGrows(w: World, w': World)
    requires w.handled <= w'.handled
    ensures forall id :: WasHandled(w, id) ==> WasHandled(w', id)
  {
    forall id | WasHandled(w, id) ensures WasHandled(w', id) {
      var k :| 0 <= k < |w.handled| && w.handled[k].id == id;
      assert w'.handled[k].id == id;
    }
  }

  lemma StepGrows(w: World, e: Event)
    requires Enabled(w, e)
    ensures w.handled <= Step(w, e).handled && |w.rows| <= |Step(w, e).rows| && |w.replays| <= |Step(w, e).replays|
  {
  }

  /** The replay a step is about; others are left alone. */
  predicate Touches(e: Event, s: nat) {
    match e
    case Send(x) => x == s
    case SendFails(x) => x == s
    case Handle(x) => x == s
    case ServerFails(x) => x == s
    case CloseOk(x) => x == s
    case Abandon(x) => x == s
    case Mark(x) => x == s
    case MarkFails(x) => x == s
    case _ => false
  }

  lemma OtherReplayStaysOk(w: World, e: Event, s: nat)
    requires Enabled(w, e) && s < |w.replays| && ReplayOk(w, s) && !Touches(e, s)
    ensures ReplayOk(Step(w, e), s)
  {
    if e.Handle? { ThroughAppend(w.handled, Handling(e.s, w.replays[e.s].ids[w.replays[e.s].handled]), s); }
  }

  lemma TouchedReplayStaysOk(w: World, e: Event, s: nat)
    requires Enabled(w, e) && s < |w.replays| && ReplayOk(w, s) && Touches(e, s)
    ensures ReplayOk(Step(w, e), s)
  {
    var r := w.replays[s];
    if e.Handle? {
      ThroughAppend(w.handled, Handling(s, r.ids[r.handled]), s);
      assert r.ids[..r.handled + 1] == r.ids[..r.handled] + [r.ids[r.handled]];
    }
  }

  lemma NewReplayOk(w: World)
    requires forall k :: 0 <= k < |w.handled| ==> w.handled[k].replay < |w.replays|
    requires Enabled(w, Start)
    ensures ReplayOk(Step(w, Start), |w.replays|)
  {
    ThroughNobody(w.handled, |w.replays|);
  }

  lemma StepKeepsInvariant(w: World, e: Event)
    requires Invariant(w) && Enabled(w, e)
    ensures Invariant(Step(w, e))
  {
    var w' := Step(w, e);
    forall s: nat | s < |w'.replays| ensures ReplayOk(w', s) {
      assert Look(0);
      if s == |w.replays| { NewReplayOk(w); }
      else if Touches(e, s) { TouchedReplayStaysOk(w, e, s); }
      else { OtherReplayStaysOk(w, e, s); }
    }
    RowsStayOk(w, e);
    HandlersExist(w, e);
  }

  lemma RowsStayOk(w: World, e: Event)
    requires Invariant(w) && Enabled(w, e)
    ensures forall id :: 0 <= id < |Step(w, e).rows| ==> RowOk(Step(w, e), id)
  {
    assert Look(0);
    forall id: nat | id < |Step(w, e).rows| ensures RowOk(Step(w, e), id) {
      if id < |w.rows| { assert RowOk(w, id); }
    }
  }

  lemma HandlersExist(w: World, e: Event)
    requires Invariant(w) && Enabled(w, e)
    ensures forall k :: 0 <= k < |Step(w, e).handled| ==> Step(w, e).handled[k].replay < |Step(w, e).replays|
  {
    assert Look(0);
  }

  lemma {:induction false} RunInvariant(ws: seq<World>, es: seq<Event>, i: nat)
    requires IsRun(ws, es) && i < |ws|
    ensures Invariant(ws[i])
  {
    if i > 0 {
      RunInvariant(ws, es, i - 1);
      StepKeepsInvariant(ws[i - 1], es[i - 1]);
    }
  }

  predicate Ascending(ids: seq<nat>) {
    forall i, k :: 0 <= i < k < |ids| ==> ids[i] < ids[k]
  }

  /** Each replay handles a prefix of its snapshot, in journal order and without repetition. */
  lemma HandledInJournalOrder(ws: seq<World>, es: seq<Event>, i: nat, s: nat)
    requires IsRun(ws, es) && i < |ws| && s < |ws[i].replays|
    ensures Through(ws[i].handled, s) <= ws[i].replays[s].ids && Ascending(Through(ws[i].handled, s))
  {
    RunInvariant(ws, es, i);
    assert Look(0);
    assert ReplayOk(ws[i], s);
  }

  // ----- what is lost -----

  /** The result is neither waiting in the journal nor was it ever handled. */
  ghost predicate Lost(w: World, id: nat) {
    id < |w.rows| && !IsPending(w.rows[id]) && !WasHandled(w, id)
  }

  /** Step c acknowledges the close of replay s after a failed send, before position p of its snapshot
      was sent. */
  ghost predicate ClosesUnsent(ws: seq<World>, es: seq<Event>, c: nat, s: nat, p: nat)
    requires |ws| == |es| + 1
  {
    c < |es| && es[c] == CloseOk(s) && s < |ws[c].replays|
    && ws[c].replays[s].sendFailed && ws[c].replays[s].sent <= p < |ws[c].replays[s].ids|
  }

  predicate SameReplay(a: Replay, b: Replay) {
    a.ids == b.ids && a.sent == b.sent && a.handled == b.handled && a.sendFailed == b.sendFailed
  }

  lemma ClosingStep(w: World, e: Event, s: nat)
    requires Enabled(w, e) && s < |Step(w, e).replays| && Step(w, e).replays[s].phase.Closed?
    ensures s < |w.replays| && SameReplay(w.replays[s], Step(w, e).replays[s])
    ensures w.replays[s].phase.Closed? || e == CloseOk(s)
  {
  }

  /** The step that acknowledged the close of a replay. */
  lemma {:induction false} CloseHappened(ws: seq<World>, es: seq<Event>, i: nat, s: nat) returns (c: nat)
    requires IsRun(ws, es) && i < |ws| && s < |ws[i].replays| && ws[i].replays[s].phase.Closed?
    ensures c < i && es[c] == CloseOk(s) && s < |ws[c].replays| && SameReplay(ws[c].replays[s], ws[i].replays[s])
    decreases i
  {
    assert i > 0;
    ClosingStep(ws[i - 1], es[i - 1], s);
    if ws[i - 1].replays[s].phase.Closed? {
      c := CloseHappened(ws, es, i - 1, s);
    } else {
      c := i - 1;
    }
  }

  lemma LosingStep(w: World, e: Event, id: nat)
    requires Invariant(w) && Enabled(w, e) && Lost(Step(w, e), id) && !Lost(w, id)
    ensures e.Mark? && w.replays[e.s].phase.Closed?
    ensures var r := w.replays[e.s];
            r.phase.marked < |r.ids| && r.ids[r.phase.marked] == id && r.sendFailed && r.sent <= r.phase.marked
  {
    assert Look(0);
    StepGrows(w, e);
    HandledGrows(w, Step(w, e));
    assert e.Mark?;
    var r := w.replays[e.s];
    assert ReplayOk(w, e.s);
    if r.phase.marked < r.handled { ThroughWasHandled(w, e.s, r.phase.marked); }
  }

  /** In every run, with crashes and broken streams, a result is lost only if a replay was acknowledged
      after a failed send, before this result was sent through it. */
  lemma {:induction false} LossNeedsFailedSend(ws: seq<World>, es: seq<Event>, i: nat, id: nat) returns (c: nat, s: nat, p: nat)
    requires IsRun(ws, es) && i < |ws| && Lost(ws[i], id)
    ensures c < i && ClosesUnsent(ws, es, c, s, p) && ws[c].replays[s].ids[p] == id
    decreases i
  {
    assert i > 0;
    if Lost(ws[i - 1], id) {
      c, s, p := LossNeedsFailedSend(ws, es, i - 1, id);
    } else {
      RunInvariant(ws, es, i - 1);
      LosingStep(ws[i - 1], es[i - 1], id);
      s := es[i - 1].s;
      p := ws[i - 1].replays[s].phase.marked;
      c := CloseHappened(ws, es, i - 1, s);
    }
  }

  /** No close is acknowledged on a replay with a failed send. */
  ghost predicate Faithful(ws: seq<World>, es: seq<Event>)
    requires |ws| == |es| + 1
  {
    forall i :: 0 <= i < |es| && es[i].CloseOk? && es[i].s < |ws[i].replays| ==> !ws[i].replays[es[i].s].sendFailed
  }

  /** In every faithful run, with crashes and broken streams, a journaled result is still waiting in
      the journal or has been handled by the controller; pruning removes only handled results. */
  lemma NothingIsLost(ws: seq<World>, es: seq<Event>, i: nat, id: nat)
    requires IsRun(ws, es) && Faithful(ws, es) && i < |ws| && id < |ws[i].rows|
    ensures IsPending(ws[i].rows[id]) || WasHandled(ws[i], id)
    ensures !ws[i].rows[id].present ==> WasHandled(ws[i], id)
  {
    if Lost(ws[i], id) {
      var c, s, p := LossNeedsFailedSend(ws, es, i, id);
      assert false;
    }
  }

  /** Some replay can still handle the result: it is in the rest of its snapshot, as far as that has
      been or can be sent. */
  ghost predicate CanHandle(r: Replay, id: nat) {
    var end := if r.phase == Open && !r.sendFailed then |r.ids| else r.sent;
    r.serving && exists p :: r.handled <= p < end && p < |r.ids| && r.ids[p] == id
  }

  ghost predicate NoneCanHandle(w: World, id: nat) {
    forall s :: 0 <= s < |w.replays| ==> !CanHandle(w.replays[s], id)
  }

  /** Lost, and no replay will handle it any more. */
  ghost predicate Gone(w: World, id: nat) {
    Lost(w, id) && NoneCanHandle(w, id)
  }

  lemma OthersCannot(w: World, e: Event, id: nat, s: nat)
    requires Invariant(w) && Enabled(w, e) && Gone(w, id) && s < |Step(w, e).replays|
    ensures !CanHandle(Step(w, e).replays[s], id)
  {
    assert Look(0);
    if s < |w.replays| {
      assert !CanHandle(w.replays[s], id) && ReplayOk(w, s);
    }
  }

  lemma GoneStaysGone(w: World, e: Event, id: nat)
    requires Invariant(w) && Enabled(w, e) && Gone(w, id)
    ensures Gone(Step(w, e), id)
  {
    forall s | 0 <= s < |Step(w, e).replays| ensures !CanHandle(Step(w, e).replays[s], id) { OthersCannot(w, e, id, s); }
    if e.Handle? { assert !CanHandle(w.replays[e.s], id); }
  }

  /** What is gone is never handled. */
  lemma {:induction false} GoneForever(ws: seq<World>, es: seq<Event>, i: nat, k: nat, id: nat)
    requires IsRun(ws, es) && i <= k < |ws| && Gone(ws[i], id)
    ensures Gone(ws[k], id)
    decreases k
  {
    if i < k {
      GoneForever(ws, es, i, k - 1, id);
      RunInvariant(ws, es, k - 1);
      GoneStaysGone(ws[k - 1], es[k - 1], id);
    }
  }

  function Last(ws: seq<World>): World
    requires ws != []
  {
    ws[|ws| - 1]
  }

  lemma Extend(ws: seq<World>, es: seq<Event>, e: Event) returns (ws': seq<World>, es': seq<Event>)
    requires IsRun(ws, es) && Enabled(Last(ws), e)
    ensures IsRun(ws', es') && Last(ws') == Step(Last(ws), e) && ws <= ws'
    ensures Faithful(ws, es) && !e.CloseOk? ==> Faithful(ws', es')
  {
    ws', es' := ws + [Step(Last(ws), e)], es + [e];
    forall i | 0 <= i < |es'| ensures Enabled(ws'[i], es'[i]) && ws'[i + 1] == Step(ws'[i], es'[i]) {
      if i < |es| { assert ws'[i] == ws[i] && ws'[i + 1] == ws[i + 1]; }
    }
  }

  /** Marking one by one up to position p. */
  lemma {:induction false} MarkUpTo(ws: seq<World>, es: seq<Event>, s: nat, p: nat) returns (ws': seq<World>, es': seq<Event>)
    requires IsRun(ws, es) && s < |Last(ws).replays| && Last(ws).replays[s].phase.Closed?
    requires Last(ws).replays[s].phase.marked <= p < |Last(ws).replays[s].ids|
    requires Last(ws).replays[s].ids[p] < |Last(ws).rows|
    ensures IsRun(ws', es') && ws <= ws' && Last(ws').handled == Last(ws).handled && |Last(ws').rows| == |Last(ws).rows|
    ensures !IsPending(Last(ws').rows[Last(ws).replays[s].ids[p]])
    decreases p - Last(ws).replays[s].phase.marked
  {
    var w := Last(ws);
    ws', es' := Extend(ws, es, Mark(s));
    if w.replays[s].phase.marked < p { ws', es' := MarkUpTo(ws', es', s, p); }
  }

  /** What faithfulness is needed for: wherever a run acknowledges a close after a failed send, any
      result of the snapshot that was not sent and not handled can be lost by marking. */
  lemma UnsentResultsGetMarked(ws: seq<World>, es: seq<Event>, s: nat, p: nat) returns (ws': seq<World>, es': seq<Event>)
    requires IsRun(ws, es) && s < |Last(ws).replays| && Enabled(Last(ws), CloseOk(s)) && Last(ws).replays[s].sendFailed
    requires Last(ws).replays[s].sent <= p < |Last(ws).replays[s].ids|
    requires !WasHandled(Last(ws), Last(ws).replays[s].ids[p])
    ensures IsRun(ws', es') && ws <= ws' && Lost(Last(ws'), Last(ws).replays[s].ids[p])
  {
    var w := Last(ws);
    RunInvariant(ws, es, |ws| - 1);
    assert w.replays[s].ids[p] < |w.rows| by { assert Look(0); assert ReplayOk(w, s); }
    ws', es' := Extend(ws, es, CloseOk(s));
    ws', es' := MarkUpTo(ws', es', s, p);
  }

  /** A run that loses a result for good: saved, replayed with a send that fails, acknowledged. */
  lemma ResultsCanBeLost(r: Report, now: int) returns (ws: seq<World>, es: seq<Event>)
    ensures IsRun(ws, es) && Gone(Last(ws), 0)
  {
    ws, es := Extend([NOTHING], [], Save(r, now));
    OnePending(Last(ws).rows);
    ws, es := Extend(ws, es, Start);
    ws, es := Extend(ws, es, SendFails(0));
    ws, es := Extend(ws, es, CloseOk(0));
    ws, es := Extend(ws, es, Mark(0));
  }

  lemma OnePending(rows: seq<Entry>)
    requires |rows| == 1 && IsPending(rows[0])
    ensures PendingIds(rows) == [0]
  {
    assert PendingIds(rows[..0]) == [];
  }

  // ----- how often a result is handled -----

  /** The result was handled at most once, by a replay that is done with it, and otherwise at most one
      replay can still handle it. */
  ghost predicate AtMostOnce(w: World, id: nat) {
    && (forall a, b :: 0 <= a < |w.handled| && 0 <= b < |w.handled| && w.handled[a].id == id && w.handled[b].id == id ==> a == b)
    && (WasHandled(w, id) ==> NoneCanHandle(w, id))
    && (forall s, x :: 0 <= s < |w.replays| && 0 <= x < |w.replays| && CanHandle(w.replays[s], id) && CanHandle(w.replays[x], id)
                       ==> s == x)
  }

  /** No replay starts while the result is pending although it was handled, or another replay can still
      handle it. */
  ghost predicate NeverRestarted(ws: seq<World>, es: seq<Event>, i: nat, id: nat)
    requires |ws| == |es| + 1 && i < |ws|
  {
    forall c :: 0 <= c < i && es[c].Start? && id < |ws[c].rows| && IsPending(ws[c].rows[id]) ==>
      !WasHandled(ws[c], id) && NoneCanHandle(ws[c], id)
  }

  /** A replay gains nothing by a step, except a new one by its snapshot. */
  lemma OldCannot(w: World, e: Event, id: nat, s: nat)
    requires Invariant(w) && Enabled(w, e) && s < |w.replays| && CanHandle(Step(w, e).replays[s], id)
    ensures CanHandle(w.replays[s], id)
  {
    assert Look(0);
    assert ReplayOk(w, s);
  }

  lemma NewCan(w: World, id: nat)
    requires Enabled(w, Start) && CanHandle(Step(w, Start).replays[|w.replays|], id)
    ensures id < |w.rows| && IsPending(w.rows[id])
  {
  }

  /** Handling a result needs a replay that can, and ends that. */
  lemma HandleUses(w: World, s: nat)
    requires Invariant(w) && Enabled(w, Handle(s))
    ensures var id := w.replays[s].ids[w.replays[s].handled];
            CanHandle(w.replays[s], id) && !CanHandle(Step(w, Handle(s)).replays[s], id)
  {
    assert Look(0);
    assert ReplayOk(w, s);
  }

  lemma OnceStep(w: World, e: Event, id: nat)
    requires Invariant(w) && Enabled(w, e) && AtMostOnce(w, id)
    requires e.Start? && id < |w.rows| && IsPending(w.rows[id]) ==> !WasHandled(w, id) && NoneCanHandle(w, id)
    ensures AtMostOnce(Step(w, e), id)
  {
    var w' := Step(w, e);
    forall s: nat | s < |w'.replays| && CanHandle(w'.replays[s], id)
      ensures if s < |w.replays| then CanHandle(w.replays[s], id) else e.Start? && id < |w.rows| && IsPending(w.rows[id])
    {
      if s < |w.replays| { OldCannot(w, e, id, s); } else { NewCan(w, id); }
    }
    if e.Handle? && w.replays[e.s].ids[w.replays[e.s].handled] == id {
      HandleUses(w, e.s);
      OnceHandled(w, e.s, id);
    } else {
      SameHandlings(w, e, id);
    }
  }

  lemma SameHandlings(w: World, e: Event, id: nat)
    requires Enabled(w, e) && (e.Handle? ==> w.replays[e.s].ids[w.replays[e.s].handled] != id)
    ensures forall k :: 0 <= k < |Step(w, e).handled| && Step(w, e).handled[k].id == id ==> k < |w.handled|
    ensures WasHandled(Step(w, e), id) ==> WasHandled(w, id)
  {
  }

  lemma OnceHandled(w: World, s: nat, id: nat)
    requires Enabled(w, Handle(s)) && AtMostOnce(w, id) && w.replays[s].ids[w.replays[s].handled] == id
    requires CanHandle(w.replays[s], id) && !CanHandle(Step(w, Handle(s)).replays[s], id)
    ensures AtMostOnce(Step(w, Handle(s)), id)
  {
    var w' := Step(w, Handle(s));
    assert !WasHandled(w, id);
    forall k | 0 <= k < |w.handled| ensures w'.handled[k].id != id { assert w'.handled[k] == w.handled[k]; }
    forall x | 0 <= x < |w'.replays| ensures !CanHandle(w'.replays[x], id) {
      if x != s { assert w'.replays[x] == w.replays[x]; }
    }
  }

  lemma {:induction false} OnceInRun(ws: seq<World>, es: seq<Event>, i: nat, id: nat)
    requires IsRun(ws, es) && i < |ws| && NeverRestarted(ws, es, i, id)
    ensures AtMostOnce(ws[i], id)
  {
    if i > 0 {
      OnceInRun(ws, es, i - 1, id);
      RunInvariant(ws, es, i - 1);
      assert ws[i] == Step(ws[i - 1], es[i - 1]) && Enabled(ws[i - 1], es[i - 1]);
      OnceStep(ws[i - 1], es[i - 1], id);
    }
  }

  /** If no replay starts while the result is pending although it was handled or can still be handled,
      it is handled at most once. */
  lemma HandledOnce(ws: seq<World>, es: seq<Event>, i: nat, id: nat, a: nat, b: nat)
    requires IsRun(ws, es) && i < |ws| && NeverRestarted(ws, es, i, id)
    requires a <= b < |ws[i].handled| && ws[i].handled[a].id == id && ws[i].handled[b].id == id
    ensures a == b
  {
    OnceInRun(ws, es, i, id);
  }

  /** Sending and handling the snapshot of a fresh replay, up to position p. */
  lemma {:induction false} HandleUpTo(ws: seq<World>, es: seq<Event>, s: nat, p: nat) returns (ws': seq<World>, es': seq<Event>)
    requires IsRun(ws, es) && s < |Last(ws).replays|
    requires var r := Last(ws).replays[s];
             r.phase == Open && r.serving && !r.sendFailed && r.handled == r.sent <= p < |r.ids|
    ensures IsRun(ws', es') && ws <= ws' && Last(ws').rows == Last(ws).rows && Last(ws).handled <= Last(ws').handled
    ensures |Last(ws').handled| > |Last(ws).handled|
    ensures Last(ws').handled[|Last(ws').handled| - 1] == Handling(s, Last(ws).replays[s].ids[p])
    decreases p - Last(ws).replays[s].sent
  {
    var r := Last(ws).replays[s];
    ws', es' := Extend(ws, es, Send(s));
    ws', es' := Extend(ws', es', Handle(s));
    if r.sent < p { ws', es' := HandleUpTo(ws', es', s, p); }
  }

  /** As long as a result is pending, a replay that starts now can handle it, whether or not it was
      handled before: a pending result that was handled is handled again in some continuation of the run. */
  lemma PendingIsHandledAgain(ws: seq<World>, es: seq<Event>, id: nat) returns (ws': seq<World>, es': seq<Event>)
    requires IsRun(ws, es) && id < |Last(ws).rows| && IsPending(Last(ws).rows[id])
    ensures IsRun(ws', es') && ws <= ws' && Last(ws').rows == Last(ws).rows && Last(ws).handled <= Last(ws').handled
    ensures |Last(ws').handled| > |Last(ws).handled| && Last(ws').handled[|Last(ws').handled| - 1].id == id
    ensures WasHandled(Last(ws), id) ==> !AtMostOnce(Last(ws'), id)
  {
    PendingIdsComplete(Last(ws).rows, id);
    var s := |Last(ws).replays|;
    var p :| 0 <= p < |PendingIds(Last(ws).rows)| && PendingIds(Last(ws).rows)[p] == id;
    ws', es' := Extend(ws, es, Start);
    ws', es' := HandleUpTo(ws', es', s, p);
    if k :| 0 <= k < |Last(ws).handled| && Last(ws).handled[k].id == id { assert Last(ws').handled[k] == Last(ws).handled[k]; }
  }

  /** A replay of a single pending result, cut off before its acknowledgement. */
  lemma CutReplay(ws: seq<World>, es: seq<Event>, id: nat) returns (ws': seq<World>, es': seq<Event>)
    requires IsRun(ws, es) && Faithful(ws, es) && PendingIds(Last(ws).rows) == [id]
    ensures IsRun(ws', es') && Faithful(ws', es') && Last(ws').rows == Last(ws).rows
    ensures |Last(ws').replays| == |Last(ws).replays| + 1
    ensures Last(ws').handled == Last(ws).handled + [Handling(|Last(ws).replays|, id)]
  {
    var s := |Last(ws).replays|;
    ws', es' := Extend(ws, es, Start);
    ws', es' := Extend(ws', es', Send(s));
    ws', es' := Extend(ws', es', Handle(s));
    ws', es' := Extend(ws', es', Abandon(s));
  }

  /** Delivery is at least once, not exactly once: a replay whose acknowledgement is lost leaves a
      handled result pending, and the next replay handles it again. */
  lemma ResultsCanBeHandledTwice(r: Report, now: int) returns (ws: seq<World>, es: seq<Event>)
    ensures IsRun(ws, es) && Faithful(ws, es) && Last(ws).handled == [Handling(0, 0), Handling(1, 0)]
  {
    ws, es := Extend([NOTHING], [], Save(r, now));
    OnePending(Last(ws).rows);
    ws, es := CutReplay(ws, es, 0);
    ws, es := CutReplay(ws, es, 0);
  }
}
