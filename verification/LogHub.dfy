/**
 The log-stream hub: per-task subscriptions with caps per user and per client address.  Each
 locked section is one atomic step; a cleanup is two steps, since the total is lowered after the
 lock is released, and a publish is a snapshot followed by one step per slow client.
 */
module LogHub {

  datatype Limits = Limits(maxPerUser: int, maxPerIp: int)

  /** Who a connection belongs to. */
  datatype Client = Client(task: string, user: string, ip: string)

  type Conn = nat

  datatype Hub = Hub(subs: map<string, set<Conn>>, byUser: map<string, int>, byIp: map<string, int>, active: int)

  datatype Verdict = Accepted | UserLimit | IpLimit

  function Get(m: map<string, int>, k: string): int { if k in m then m[k] else 0 }

  function Raised(m: map<string, int>, k: string): map<string, int> { m[k := Get(m, k) + 1] }

  function Lowered(m: map<string, int>, k: string): map<string, int> {
    if Get(m, k) - 1 == 0 then m - {k} else m[k := Get(m, k) - 1]
  }

  function Listeners(subs: map<string, set<Conn>>, task: string): set<Conn> {
    if task in subs then subs[task] else {}
  }

  function CapVerdict(limits: Limits, h: Hub, who: Client): Verdict {
    if limits.maxPerUser > 0 && Get(h.byUser, who.user) >= limits.maxPerUser then UserLimit
    else if limits.maxPerIp > 0 && Get(h.byIp, who.ip) >= limits.maxPerIp then IpLimit
    else Accepted
  }

  function Subscribed(limits: Limits, h: Hub, c: Conn, who: Client): Hub {
    if CapVerdict(limits, h, who) != Accepted then h
    else Hub(h.subs[who.task := Listeners(h.subs, who.task) + {c}], Raised(h.byUser, who.user),
             Raised(h.byIp, who.ip), h.active + 1)
  }

  /** The locked part of a cleanup. */
  function Released(h: Hub, c: Conn, who: Client): Hub {
    var rest := Listeners(h.subs, who.task) - {c};
    h.(subs := if rest == {} then h.subs - {who.task} else h.subs[who.task := rest],
       byUser := Lowered(h.byUser, who.user), byIp := Lowered(h.byIp, who.ip))
  }

  /** A slow client is taken off a task's listeners; its entry stays even when it becomes empty. */
  function Dropped(h: Hub, task: string, c: Conn): Hub {
    if task in h.subs then h.(subs := h.subs[task := h.subs[task] - {c}]) else h
  }

  // ----- the hub as a machine -----

  /** The hub, the connections whose cleanup has not taken the lock yet, and those whose cleanup
      has released it but not lowered the total. */
  datatype World = World(hub: Hub, live: map<Conn, Client>, closing: set<Conn>)

  datatype Event =
    | Subscribe(c: Conn, who: Client)
    | Probe(who: Client)
    | CleanupLocked(c: Conn)
    | CleanupEnd(c: Conn)
    | Snapshot(task: string)
    | Drop(task: string, c: Conn)

  /** A connection object is new when it subscribes, and its cleanup runs once. */
  predicate Enabled(w: World, e: Event) {
    match e
    case Subscribe(c, _) => c !in w.live && c !in w.closing
    case CleanupLocked(c) => c in w.live
    case CleanupEnd(c) => c in w.closing
    case _ => true
  }

  function Step(limits: Limits, w: World, e: Event): World
    requires Enabled(w, e)
  {
    match e
    case Subscribe(c, who) =>
      if CapVerdict(limits, w.hub, who) == Accepted
      then World(Subscribed(limits, w.hub, c, who), w.live[c := who], w.closing) else w
    case CleanupLocked(c) => World(Released(w.hub, c, w.live[c]), w.live - {c}, w.closing + {c})
    case CleanupEnd(c) => w.(hub := w.hub.(active := w.hub.active - 1), closing := w.closing - {c})
    case Drop(task, c) => w.(hub := Dropped(w.hub, task, c))
    case Probe(_) => w
    case Snapshot(_) => w
  }

  const EMPTY: Hub := Hub(map[], map[], map[], 0)

  ghost predicate IsRun(limits: Limits, ws: seq<World>, es: seq<Event>) {
    && |ws| == |es| + 1 && ws[0] == World(EMPTY, map[], {})
    && forall i :: 0 <= i < |es| ==> Enabled(ws[i], es[i]) && ws[i + 1] == Step(limits, ws[i], es[i])
  }

  // ----- what the counters mean -----

  datatype Field = User | Ip

  function Of(who: Client, f: Field): string { if f == User then who.user else who.ip }

  function Holders(live: map<Conn, Client>, f: Field, k: string): set<Conn> {
    set c | c in live && Of(live[c], f) == k
  }

  /** The table counts the live connections per user or address and keeps no zero entry. */
  ghost predicate Tallies(m: map<string, int>, live: map<Conn, Client>, f: Field) {
    && (forall k :: k in m ==> m[k] > 0)
    && (forall k :: Get(m, k) == |Holders(live, f, k)|)
  }

  ghost predicate Capped(m: map<string, int>, cap: int) {
    cap > 0 ==> forall k :: k in m ==> m[k] <= cap
  }

  /** Only live connections of a task listen to it, and only tasks with a live connection are listed. */
  ghost predicate ListenersLive(subs: map<string, set<Conn>>, live: map<Conn, Client>) {
    && (forall t, c :: t in subs && c in subs[t] ==> c in live && live[c].task == t)
    && (forall t :: t in subs ==> exists c :: c in live && live[c].task == t)
  }

  ghost predicate Invariant(limits: Limits, w: World) {
    && Tallies(w.hub.byUser, w.live, User) && Tallies(w.hub.byIp, w.live, Ip)
    && Capped(w.hub.byUser, limits.maxPerUser) && Capped(w.hub.byIp, limits.maxPerIp)
    && w.hub.active == |w.live| + |w.closing|
    && w.live.Keys !! w.closing
    && ListenersLive(w.hub.subs, w.live)
  }

  lemma HoldersAdded(live: map<Conn, Client>, f: Field, c: Conn, who: Client, k: string)
    requires c !in live
    ensures |Holders(live[c := who], f, k)| == |Holders(live, f, k)| + if k == Of(who, f) then 1 else 0
  {
    var live' := live[c := who];
    forall d ensures d in Holders(live', f, k) <==> d in Holders(live, f, k) || (d == c && k == Of(who, f)) {
      assert d in live' <==> d in live || d == c;
    }
    assert c !in Holders(live, f, k);
    assert Holders(live', f, k) == Holders(live, f, k) + if k == Of(who, f) then {c} else {};
  }

  lemma HoldersRemoved(live: map<Conn, Client>, f: Field, c: Conn, k: string)
    requires c in live
    ensures |Holders(live, f, k)| == |Holders(live - {c}, f, k)| + if k == Of(live[c], f) then 1 else 0
  {
    if k == Of(live[c], f) {
      assert Holders(live, f, k) == Holders(live - {c}, f, k) + {c};
    } else {
      assert Holders(live, f, k) == Holders(live - {c}, f, k);
    }
  }

  lemma RaisedTallies(m: map<string, int>, live: map<Conn, Client>, f: Field, c: Conn, who: Client)
    requires Tallies(m, live, f) && c !in live
    ensures Tallies(Raised(m, Of(who, f)), live[c := who], f)
  {
    forall k ensures Get(Raised(m, Of(who, f)), k) == |Holders(live[c := who], f, k)| {
      HoldersAdded(live, f, c, who, k);
    }
  }

  lemma LoweredTallies(m: map<string, int>, live: map<Conn, Client>, f: Field, c: Conn)
    requires Tallies(m, live, f) && c in live
    ensures Tallies(Lowered(m, Of(live[c], f)), live - {c}, f)
  {
    var m' := Lowered(m, Of(live[c], f));
    forall k ensures Get(m', k) == |Holders(live - {c}, f, k)| {
      HoldersRemoved(live, f, c, k);
    }
    forall k | k in m' ensures m'[k] > 0 {
      assert m'[k] == Get(m', k);
    }
  }

  lemma LoweredCapped(m: map<string, int>, k: string, cap: int)
    requires Capped(m, cap) && k in m
    ensures Capped(Lowered(m, k), cap)
  {
  }

  lemma SubscribeKeeps(limits: Limits, w: World, c: Conn, who: Client)
    requires Invariant(limits, w) && Enabled(w, Subscribe(c, who))
    ensures Invariant(limits, Step(limits, w, Subscribe(c, who)))
  {
    if CapVerdict(limits, w.hub, who) == Accepted {
      RaisedTallies(w.hub.byUser, w.live, User, c, who);
      RaisedTallies(w.hub.byIp, w.live, Ip, c, who);
      SubscribeKeepsListeners(w, c, who);
      assert w.live[c := who].Keys == w.live.Keys + {c};
    }
  }

  lemma SubscribeKeepsListeners(w: World, c: Conn, who: Client)
    requires ListenersLive(w.hub.subs, w.live) && c !in w.live
    ensures ListenersLive(w.hub.subs[who.task := Listeners(w.hub.subs, who.task) + {c}], w.live[c := who])
  {
    var live' := w.live[c := who];
    forall t | t in w.hub.subs ensures exists d :: d in live' && live'[d].task == t {
      var d :| d in w.live && w.live[d].task == t;
      assert d in live' && live'[d].task == t;
    }
    assert live'[c].task == who.task;
  }

  lemma CleanupKeeps(limits: Limits, w: World, c: Conn)
    requires Invariant(limits, w) && c in w.live
    ensures Invariant(limits, Step(limits, w, CleanupLocked(c)))
  {
    var who := w.live[c];
    LoweredTallies(w.hub.byUser, w.live, User, c);
    LoweredTallies(w.hub.byIp, w.live, Ip, c);
    assert c in Holders(w.live, User, who.user) && c in Holders(w.live, Ip, who.ip);
    assert Get(w.hub.byUser, who.user) > 0 && Get(w.hub.byIp, who.ip) > 0;
    LoweredCapped(w.hub.byUser, who.user, limits.maxPerUser);
    LoweredCapped(w.hub.byIp, who.ip, limits.maxPerIp);
    CleanupKeepsListeners(w, c);
    assert (w.live - {c}).Keys == w.live.Keys - {c};
  }

  lemma CleanupKeepsListeners(w: World, c: Conn)
    requires ListenersLive(w.hub.subs, w.live) && c in w.live
    ensures ListenersLive(Released(w.hub, c, w.live[c]).subs, w.live - {c})
  {
    var subs', live' := Released(w.hub, c, w.live[c]).subs, w.live - {c};
    forall t | t in subs' ensures exists d :: d in live' && live'[d].task == t {
      if t == w.live[c].task {
        var d :| d in subs'[t];
        assert d in live' && live'[d].task == t;
      } else {
        var d :| d in w.live && w.live[d].task == t;
        assert d in live' && live'[d].task == t;
      }
    }
  }

  lemma StepKeepsInvariant(limits: Limits, w: World, e: Event)
    requires Invariant(limits, w) && Enabled(w, e)
    ensures Invariant(limits, Step(limits, w, e))
  {
    match e
    case Subscribe(c, who) => SubscribeKeeps(limits, w, c, who);
    case CleanupLocked(c) => CleanupKeeps(limits, w, c);
    case _ =>
  }

  /** In every interleaving the counters equal the live connections, both caps hold, no zero entry
      is kept, and only live connections listen. */
  lemma {:induction false} RunInvariant(limits: Limits, ws: seq<World>, es: seq<Event>, i: nat)
    requires IsRun(limits, ws, es) && i < |ws|
    ensures Invariant(limits, ws[i])
  {
    if i == 0 {
      forall f: Field, k: string ensures Holders(map[], f, k) == {} {}
    } else {
      RunInvariant(limits, ws, es, i - 1);
      StepKeepsInvariant(limits, ws[i - 1], es[i - 1]);
    }
  }

  /** Once all cleanups have run the hub is as it was created. */
  lemma AllCleanedUp(limits: Limits, ws: seq<World>, es: seq<Event>, i: nat)
    requires IsRun(limits, ws, es) && i < |ws|
    requires ws[i].live == map[] && ws[i].closing == {}
    ensures ws[i].hub == EMPTY
  {
    RunInvariant(limits, ws, es, i);
    var h := ws[i].hub;
    forall f: Field, k: string ensures Holders(ws[i].live, f, k) == {} {}
    assert h.byUser == map[] by { assert forall k :: k in h.byUser ==> h.byUser[k] == Get(h.byUser, k); }
    assert h.byIp == map[] by { assert forall k :: k in h.byIp ==> h.byIp[k] == Get(h.byIp, k); }
    assert h.subs == map[];
  }

  /** A subscription is refused exactly when the user or the address already has its full share of
      live connections. */
  lemma RefusedExactlyAtCap(limits: Limits, w: World, who: Client)
    requires Invariant(limits, w)
    ensures CapVerdict(limits, w.hub, who) == Accepted <==>
              ((limits.maxPerUser <= 0 || |Holders(w.live, User, who.user)| < limits.maxPerUser)
               && (limits.maxPerIp <= 0 || |Holders(w.live, Ip, who.ip)| < limits.maxPerIp))
  {
    assert Get(w.hub.byUser, who.user) == |Holders(w.live, User, who.user)|;
    assert Get(w.hub.byIp, who.ip) == |Holders(w.live, Ip, who.ip)|;
  }

  // ----- who listens -----

  /** The step adds connection c to the listeners of a task. */
  predicate StartsListening(w: World, e: Event, task: string, c: Conn) {
    e.Subscribe? && e.c == c && e.who.task == task && c in w.live
  }

  lemma ListenersAfterSubscribe(limits: Limits, w: World, d: Conn, who: Client, task: string, c: Conn)
    requires ListenersLive(w.hub.subs, w.live) && Enabled(w, Subscribe(d, who))
    ensures var w' := Step(limits, w, Subscribe(d, who));
            c in Listeners(w'.hub.subs, task)
            <==> StartsListening(w', Subscribe(d, who), task, c) || c in Listeners(w.hub.subs, task)
  {
  }

  lemma ListenersAfterCleanup(w: World, d: Conn, task: string, c: Conn)
    requires ListenersLive(w.hub.subs, w.live) && d in w.live
    ensures c in Listeners(Released(w.hub, d, w.live[d]).subs, task) <==> c in Listeners(w.hub.subs, task) && c != d
  {
    var rest := Listeners(w.hub.subs, w.live[d].task) - {d};
    if task == w.live[d].task { assert Listeners(Released(w.hub, d, w.live[d]).subs, task) == rest; }
  }

  /** After a step those listen that did and were neither cleaned up nor dropped, and one that has just
      been accepted. */
  lemma ListenersAfterStep(limits: Limits, w: World, e: Event, task: string, c: Conn)
    requires ListenersLive(w.hub.subs, w.live) && Enabled(w, e)
    ensures var w' := Step(limits, w, e);
            c in Listeners(w'.hub.subs, task)
            <==> StartsListening(w', e, task, c)
                 || (c in Listeners(w.hub.subs, task) && e != CleanupLocked(c) && e != Drop(task, c))
  {
    match e
    case Subscribe(d, who) => ListenersAfterSubscribe(limits, w, d, who, task, c);
    case CleanupLocked(d) => ListenersAfterCleanup(w, d, task, c);
    case _ =>
  }

  /** Connection c was accepted for the task by event s, and has been neither cleaned up nor dropped
      before event i. */
  ghost predicate ListensSince(ws: seq<World>, es: seq<Event>, task: string, c: Conn, s: nat, i: nat)
    requires i < |ws| && |ws| == |es| + 1
  {
    s < i && StartsListening(ws[s + 1], es[s], task, c)
    && forall k :: s < k < i ==> es[k] != CleanupLocked(c) && es[k] != Drop(task, c)
  }

  /** In every interleaving a connection is among the listeners of a task exactly if it was accepted for
      that task and has since then been neither cleaned up nor dropped as too slow. */
  lemma {:induction false} ListenersExactly(limits: Limits, ws: seq<World>, es: seq<Event>, task: string, c: Conn, i: nat)
    requires IsRun(limits, ws, es) && i < |ws|
    ensures c in Listeners(ws[i].hub.subs, task) <==> exists s: nat :: ListensSince(ws, es, task, c, s, i)
  {
    if i > 0 {
      var n := i - 1;
      RunInvariant(limits, ws, es, n);
      ListenersAfterStep(limits, ws[n], es[n], task, c);
      ListenersExactly(limits, ws, es, task, c, n);
      if StartsListening(ws[i], es[n], task, c) {
        assert ListensSince(ws, es, task, c, n, i);
      } else if c in Listeners(ws[i].hub.subs, task) {
        var s: nat :| ListensSince(ws, es, task, c, s, n);
        assert ListensSince(ws, es, task, c, s, i);
      } else if s: nat :| ListensSince(ws, es, task, c, s, i) {
        assert ListensSince(ws, es, task, c, s, n);
      }
    }
  }

  // ----- the hub object -----

  class LogStreamHub {
    const limits: Limits
    var subs: map<string, set<Conn>>
    var byUser: map<string, int>
    var byIp: map<string, int>
    var active: int

    function Now(): Hub
      reads this
    {
      Hub(subs, byUser, byIp, active)
    }

    constructor (limits: Limits)
      ensures this.limits == limits && Now() == EMPTY
    {
      this.limits := limits;
      subs, byUser, byIp, active := map[], map[], map[], 0;
    }

    method CheckCap(who: Client) returns (v: Verdict)
      ensures v == CapVerdict(limits, Now(), who)
    {
      if limits.maxPerUser > 0 && Get(byUser, who.user) >= limits.maxPerUser { return UserLimit; }
      if limits.maxPerIp > 0 && Get(byIp, who.ip) >= limits.maxPerIp { return IpLimit; }
      return Accepted;
    }

    method Subscribe(c: Conn, who: Client) returns (v: Verdict)
      modifies this
      ensures v == CapVerdict(limits, old(Now()), who)
      ensures Now() == Subscribed(limits, old(Now()), c, who)
    {
      v := CheckCap(who);
      if v != Accepted { return; }
      if who.task !in subs { subs := subs[who.task := {}]; }
      subs := subs[who.task := subs[who.task] + {c}];
      byUser := byUser[who.user := Get(byUser, who.user) + 1];
      byIp := byIp[who.ip := Get(byIp, who.ip) + 1];
      active := active + 1;
      assert subs == old(subs)[who.task := Listeners(old(subs), who.task) + {c}];
    }

    method Unlist(c: Conn, task: string)
      modifies this`subs
      ensures subs == var rest := Listeners(old(subs), task) - {c};
                      if rest == {} then old(subs) - {task} else old(subs)[task := rest]
    {
      if task in subs { subs := subs[task := subs[task] - {c}]; }
      if Listeners(subs, task) == {} { subs := subs - {task}; }
    }

    static method CountDown(m: map<string, int>, k: string) returns (r: map<string, int>)
      ensures r == Lowered(m, k)
    {
      r := m[k := Get(m, k) - 1];
      if r[k] == 0 { r := r - {k}; }
    }

    /** The locked section of the cleanup closure. */
    method Release(c: Conn, who: Client)
      modifies this
      ensures Now() == Released(old(Now()), c, who)
    {
      Unlist(c, who.task);
      byUser := CountDown(byUser, who.user);
      byIp := CountDown(byIp, who.ip);
    }

    /** The rest of the cleanup, after the lock is released. */
    method EndCleanup()
      modifies this`active
      ensures active == old(active) - 1
    {
      active := active - 1;
    }

    /** One locked removal of a slow client. */
    method Drop(task: string, c: Conn)
      modifies this`subs
      ensures Now() == Dropped(old(Now()), task, c)
      ensures subs == Silenced(old(subs), task, {c})
    {
      if task in subs { subs := subs[task := subs[task] - {c}]; }
    }

    /** PublishTaskLog without interference: every listener whose channel has room is sent the
        entry, the others stop listening, and no counter changes. */
    method PublishTaskLog(task: string, full: set<Conn>) returns (sent: set<Conn>)
      modifies this`subs
      ensures sent == Listeners(old(subs), task) - full
      ensures subs == Silenced(old(subs), task, full)
    {
      var targets := Listeners(subs, task);
      ghost var all, gone := targets, {};
      sent := {};
      SilencedNobody(subs, task);
      while targets != {}
        invariant all == sent + gone + targets && sent !! full && gone <= full
        invariant subs == Silenced(old(subs), task, gone)
        decreases |targets|
      {
        var c :| c in targets;
        targets := targets - {c};
        if c !in full {
          sent := sent + {c};
        } else {
          SilencedOneMore(old(subs), task, gone, c);
          gone := gone + {c};
          Drop(task, c);
        }
      }
      SilencedSame(old(subs), task, sent, gone, full);
    }
  }

  /** The listeners with some connections of a task taken off. */
  function Silenced(subs: map<string, set<Conn>>, task: string, gone: set<Conn>): map<string, set<Conn>> {
    if task in subs then subs[task := subs[task] - gone] else subs
  }

  lemma SilencedNobody(subs: map<string, set<Conn>>, task: string)
    ensures Silenced(subs, task, {}) == subs
  {
    if task in subs { assert subs[task] - {} == subs[task]; }
  }

  lemma SilencedOneMore(subs: map<string, set<Conn>>, task: string, gone: set<Conn>, c: Conn)
    ensures Silenced(subs, task, gone + {c}) == Silenced(Silenced(subs, task, gone), task, {c})
  {
    if task in subs { assert subs[task] - (gone + {c}) == subs[task] - gone - {c}; }
  }

  lemma SilencedSame(subs: map<string, set<Conn>>, task: string, sent: set<Conn>, gone: set<Conn>, full: set<Conn>)
    requires Listeners(subs, task) == sent + gone && sent !! full && gone <= full
    ensures Silenced(subs, task, gone) == Silenced(subs, task, full) && sent == Listeners(subs, task) - full
  {
    if task in subs { assert subs[task] - gone == subs[task] - full; }
  }
}
