/**
 When a retry may be handed out, in every run.
 */
module RetryTiming {
  import opened Basics
  import opened RetryPolicy
  import opened JobRows
  import opened Protocol
  import opened ProtocolInvariant
  import opened ProtocolSteps
  import opened TurnRules

  lemma NewRow(db: Db, a: Action, u: nat)
    requires |db.tasks| <= u < |Apply(db, a).tasks|
    ensures a.AddTask? && |db.tasks| == u && Apply(db, a).tasks[u] == a.newTask
  {
  }

  /** The step that added row u. */
  lemma {:induction false} RowWasAdded(cfg: Config, ss: seq<Sys>, ls: seq<Label>, n: nat, u: nat) returns (m: nat)
    requires IsRun(cfg, ss, ls) && n < |ss| && u < |ss[n].db.tasks|
    ensures m < n && ActionOf(ls[m]).AddTask? && |ss[m].db.tasks| == u
    ensures SameTask(ActionOf(ls[m]).newTask, ss[n].db.tasks[u])
    decreases n
  {
    assert n > 0;
    StepOf(cfg, ss, ls, n - 1);
    if u < |ss[n - 1].db.tasks| {
      m := RowWasAdded(cfg, ss, ls, n - 1, u);
      ActionGrows(ss[n - 1].db, ss[n - 1].h, ActionOf(ls[n - 1]));
      assert SameTask(ss[n - 1].db.tasks[u], ss[n].db.tasks[u]);
    } else {
      NewRow(ss[n - 1].db, ActionOf(ls[n - 1]), u);
      m := n - 1;
    }
  }

  /** In every run, an agent is handed a retry no earlier than the backoff after the turn that added it,
      by the clocks of the two turns; up to retry count 58 that is at least the documented delay. */
  lemma RetriesWait(cfg: Config, ss: seq<Sys>, ls: seq<Label>, k: nat, u: nat) returns (m: nat)
    requires IsRun(cfg, ss, ls) && k < |ls| && ActionOf(ls[k]).Assign? && ActionOf(ls[k]).task == u
    requires u < |ss[k].db.tasks| && ss[k].db.tasks[u].parent.Some?
    ensures m < k && ls[m].Step? && ls[k].Step? && ls[m].action.AddTask? && |ss[m].db.tasks| == u
    ensures ss[k].db.tasks[u].retryCount > 0
    ensures var count := ss[k].db.tasks[u].retryCount - 1;
            && ls[k].c.now >= ls[m].c.now + BackoffSeconds(count, ls[m].c.jitter)
            && (count <= 58 ==> ls[k].c.now >= ls[m].c.now + DocumentedBase(count))
  {
    assert SysStep(cfg, ss[k], ls[k], ss[k + 1]);
    StepFollows(cfg, ss[k], ls[k], ss[k + 1]);
    m := RowWasAdded(cfg, ss, ls, k, u);
    assert SysStep(cfg, ss[m], ls[m], ss[m + 1]);
    StepFollows(cfg, ss[m], ls[m], ss[m + 1]);
    var t: nat, retries: nat :| t < |ss[m].db.tasks|
      && ls[m].action.newTask == RetryRow(ss[m].db, t, retries, ls[m].c.now, ls[m].c.jitter);
    BackoffIsDocumentedUpTo58(retries, ls[m].c.jitter);
  }
}
