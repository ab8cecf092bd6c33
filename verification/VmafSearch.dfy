/**
 The search for the quality setting (CRF) whose VMAF score meets a target.  Higher CRF means lower
 quality.  An encode and its measurement are an oracle that may fail.
 */
module VmafSearch {
  import opened Basics

  /** The score measured at a CRF; None when the encode or the measurement fails. */
  type Oracle = int -> Option<real>

  datatype Outcome =
    | NoOutput
    | Failure(at: int)
    | Close(crf: int)
    | Exhausted(crf: int)
    | OutOfIterations(crf: int)

  /** One pass of the loop: the bracket at its head and the CRF it encodes. */
  datatype Probe = Probe(lo: real, hi: real, crf: int)

  datatype Search = Search(probes: seq<Probe>, out: Outcome)

  /** Rounding to the nearest integer, halves away from zero. */
  function Round(x: real): int {
    if x >= 0.0 then (x + 0.5).Floor else -(0.5 - x).Floor
  }

  function Middle(lo: real, hi: real): int { Round((lo + hi) / 2.0) }

  predicate IsClose(v: real, target: real) { -0.5 < v - target < 0.5 }

  /** What one pass makes of the bracket; None when the pass is the last one. */
  function Narrow(score: Oracle, target: real, lo: real, hi: real): Option<(real, real)> {
    var crf := Middle(lo, hi);
    if score(crf).None? || IsClose(score(crf).value, target) then None
    else
      var lo' := if score(crf).value >= target then crf as real + 1.0 else lo;
      var hi' := if score(crf).value >= target then hi else crf as real - 1.0;
      if lo' > hi' then None else Some((lo', hi'))
  }

  function LastPass(score: Oracle, target: real, crf: int): Outcome {
    if score(crf).None? then Failure(crf) else if IsClose(score(crf).value, target) then Close(crf) else Exhausted(crf)
  }

  /** What the loop does with `left` iterations to go, `best` being the last CRF it encoded. */
  function Find(score: Oracle, target: real, lo: real, hi: real, left: nat, best: Option<int>): Search
    decreases left
  {
    if left == 0 then Search([], if best.None? then NoOutput else OutOfIterations(best.value))
    else
      var crf := Middle(lo, hi);
      match Narrow(score, target, lo, hi)
      case None => Search([Probe(lo, hi, crf)], LastPass(score, target, crf))
      case Some((lo', hi')) =>
        var rest := Find(score, target, lo', hi', left - 1, Some(crf));
        Search([Probe(lo, hi, crf)] + rest.probes, rest.out)
  }

  predicate Crfs(tried: seq<int>, ps: seq<Probe>) {
    |tried| == |ps| && forall i :: 0 <= i < |tried| ==> tried[i] == ps[i].crf
  }

  function Passes(maxIterations: int): nat { if maxIterations > 0 then maxIterations else 0 }

  /** `rest` is what the search does from here on. */
  ghost predicate IsRest(rest: Search, score: Oracle, target: real, lo: real, hi: real, left: nat, best: Option<int>) {
    forall k :: Look(k) ==> rest == Find(score, target, lo, hi, left, best)
  }

  /** One pass encodes crf; `next` is the bracket of the next pass, and without one `out` is the outcome. */
  ghost predicate IsPass(score: Oracle, target: real, lo: real, hi: real, crf: int, next: Option<(real, real)>, out: Outcome) {
    forall k :: Look(k) ==>
      crf == Middle(lo, hi) && next == Narrow(score, target, lo, hi) && (next.None? ==> out == LastPass(score, target, crf))
  }

  /** One pass, read as the rest of the search: `tail` is what is left when it is not the last. */
  lemma FindStep(score: Oracle, target: real, lo: real, hi: real, left: nat, best: Option<int>, rest: Search,
                 crf: int, next: Option<(real, real)>, out: Outcome)
    returns (tail: Search)
    requires left > 0 && IsRest(rest, score, target, lo, hi, left, best) && IsPass(score, target, lo, hi, crf, next, out)
    ensures next.None? ==> rest == Search([Probe(lo, hi, crf)], out)
    ensures next.Some? ==> IsRest(tail, score, target, next.value.0, next.value.1, left - 1, Some(crf))
                           && rest == Search([Probe(lo, hi, crf)] + tail.probes, tail.out)
  {
    assert Look(0);
    tail := rest;
    if next.Some? { tail := Find(score, target, next.value.0, next.value.1, left - 1, Some(crf)); }
  }

  lemma FindEnd(score: Oracle, target: real, lo: real, hi: real, best: Option<int>, rest: Search)
    requires IsRest(rest, score, target, lo, hi, 0, best)
    ensures rest == Search([], if best.None? then NoOutput else OutOfIterations(best.value))
  {
    assert Look(0);
  }

  /** What one pass decides: the CRF it encodes and the bracket of the next pass, if there is one. */
  method RunPass(score: Oracle, target: real, lo: real, hi: real)
    returns (crf: int, stop: bool, out: Outcome, lo': real, hi': real)
    ensures IsPass(score, target, lo, hi, crf, if stop then None else Some((lo', hi')), out)
  {
    crf := Round((lo + hi) / 2.0);
    stop, lo', hi' := true, lo, hi;
    var measured := score(crf);
    if measured.None? { out := Failure(crf); return; }
    var vmaf := measured.value;
    if IsClose(vmaf, target) { out := Close(crf); return; }
    if vmaf >= target { lo' := crf as real + 1.0; } else { hi' := crf as real - 1.0; }
    stop, out := lo' > hi', Exhausted(crf);
  }

  /** The search loop of RunVMAFTarget. */
  method RunVmafTarget(score: Oracle, target: real, crfMin: real, crfMax: real, maxIterations: int)
    returns (tried: seq<int>, out: Outcome)
    ensures var s := Find(score, target, crfMin, crfMax, Passes(maxIterations), None);
            out == s.out && Crfs(tried, s.probes)
  {
    ghost var all := Find(score, target, crfMin, crfMax, Passes(maxIterations), None);
    ghost var rest, done := all, [];
    var lo, hi := crfMin, crfMax;
    var best: Option<int> := None;
    tried, out := [], NoOutput;
    var iter := 0;
    while iter < maxIterations
      invariant IsRest(rest, score, target, lo, hi, Passes(maxIterations - iter), best)
      invariant all == Search(done + rest.probes, rest.out) && Crfs(tried, done)
    {
      var crf, stop, verdict, lo', hi' := RunPass(score, target, lo, hi);
      rest := FindStep(score, target, lo, hi, Passes(maxIterations - iter), best, rest,
                       crf, if stop then None else Some((lo', hi')), verdict);
      ghost var p := Probe(lo, hi, crf);
      tried := tried + [crf];
      done := done + [p];
      if stop { return tried, verdict; }
      PrependProbes(done[..|done| - 1], p, rest.probes);
      best, lo, hi := Some(crf), lo', hi';
      iter := iter + 1;
    }
    FindEnd(score, target, lo, hi, best, rest);
    out := if best.None? then NoOutput else OutOfIterations(best.value);
  }

  lemma PrependProbes(done: seq<Probe>, p: Probe, rest: seq<Probe>)
    ensures done + ([p] + rest) == done + [p] + rest
  {
  }

  // ----- what a search does, whatever its bounds -----

  /** The score was measured and is half a point or more off the target. */
  predicate OffTarget(score: Oracle, target: real, crf: int) {
    score(crf).Some? && !(target - 0.5 < score(crf).value < target + 0.5)
  }

  /** The bracket after a probe that is off the target: above its CRF when the quality is more than
      enough, and below it otherwise. */
  predicate Follows(score: Oracle, target: real, p: Probe, lo: real, hi: real) {
    OffTarget(score, target, p.crf)
    && if score(p.crf).value >= target then lo == p.crf as real + 1.0 && hi == p.hi
       else lo == p.lo && hi == p.crf as real - 1.0
  }

  /** The CRF is the nearest integer to the middle of the bracket, and of two the one away from zero. */
  predicate IsHalfway(p: Probe) {
    var middle, crf := (p.lo + p.hi) / 2.0, p.crf as real;
    if middle >= 0.0 then crf - 0.5 <= middle < crf + 0.5 else crf - 0.5 < middle <= crf + 0.5
  }

  predicate Linked(score: Oracle, target: real, p: Probe, q: Probe) {
    Follows(score, target, p, q.lo, q.hi) && q.lo <= q.hi
  }

  /** Every CRF is the middle of its bracket, rounded, and every bracket but the first is what the
      probe before it leaves over. */
  predicate Bisects(score: Oracle, target: real, ps: seq<Probe>) {
    && (forall i :: 0 <= i < |ps| ==> IsHalfway(ps[i]))
    && (forall i, k :: 0 <= i < |ps| && 0 <= k < |ps| && k == i + 1 ==> Linked(score, target, ps[i], ps[k]))
  }

  /** The probe leaves an empty bracket. */
  predicate LeavesNothing(score: Oracle, target: real, p: Probe)
    requires OffTarget(score, target, p.crf)
  {
    if score(p.crf).value >= target then p.crf as real + 1.0 > p.hi else p.lo > p.crf as real - 1.0
  }

  /** The outcome names the CRF of the last probe, and says what its score came to and why it is the
      last: `all` when every pass was used. */
  predicate Ends(score: Oracle, target: real, p: Probe, out: Outcome, all: bool) {
    match out
    case NoOutput => false
    case Failure(crf) => crf == p.crf && score(crf).None?
    case Close(crf) => crf == p.crf && score(crf).Some? && target - 0.5 < score(crf).value < target + 0.5
    case Exhausted(crf) => crf == p.crf && OffTarget(score, target, crf) && LeavesNothing(score, target, p)
    case OutOfIterations(crf) => crf == p.crf && OffTarget(score, target, crf) && !LeavesNothing(score, target, p) && all
  }

  lemma MiddleIsHalfway(lo: real, hi: real)
    ensures IsHalfway(Probe(lo, hi, Middle(lo, hi)))
  {
  }

  lemma LastPassEnds(score: Oracle, target: real, lo: real, hi: real, all: bool)
    requires Narrow(score, target, lo, hi).None?
    ensures var p := Probe(lo, hi, Middle(lo, hi)); Ends(score, target, p, LastPass(score, target, p.crf), all)
  {
  }

  lemma NarrowFollows(score: Oracle, target: real, lo: real, hi: real)
    requires Narrow(score, target, lo, hi).Some?
    ensures var p, next := Probe(lo, hi, Middle(lo, hi)), Narrow(score, target, lo, hi).value;
            Follows(score, target, p, next.0, next.1) && next.0 <= next.1
            && Ends(score, target, p, OutOfIterations(p.crf), true)
  {
  }

  lemma BisectsPrepend(score: Oracle, target: real, p: Probe, ps: seq<Probe>)
    requires IsHalfway(p) && Bisects(score, target, ps) && (ps != [] ==> Linked(score, target, p, ps[0]))
    ensures Bisects(score, target, [p] + ps)
  {
  }

  /** What Find returns for one pass at least: the probes, the outcome and the last probe. */
  ghost predicate IsBisection(score: Oracle, target: real, lo: real, hi: real, left: nat, s: Search) {
    && 0 < |s.probes| <= left && s.probes[0].lo == lo && s.probes[0].hi == hi && Bisects(score, target, s.probes)
    && Ends(score, target, s.probes[|s.probes| - 1], s.out, |s.probes| == left)
  }

  lemma LonePass(score: Oracle, target: real, p: Probe, left: nat, out: Outcome)
    requires left > 0 && IsHalfway(p) && Ends(score, target, p, out, left == 1)
    ensures IsBisection(score, target, p.lo, p.hi, left, Search([p], out))
  {
  }

  lemma MorePasses(score: Oracle, target: real, p: Probe, lo: real, hi: real, left: nat, rest: Search)
    requires IsHalfway(p) && Follows(score, target, p, lo, hi) && lo <= hi && IsBisection(score, target, lo, hi, left, rest)
    ensures IsBisection(score, target, p.lo, p.hi, left + 1, Search([p] + rest.probes, rest.out))
  {
    BisectsPrepend(score, target, p, rest.probes);
  }

  /** Every search with a pass to make starts with the given bracket and halves it as long as it is off
      the target; its outcome names the CRF of its last probe, and why that was the last.  Without a pass
      there is no output. */
  lemma {:induction false} SearchBisects(score: Oracle, target: real, lo: real, hi: real, left: nat, best: Option<int>)
    ensures left > 0 ==> IsBisection(score, target, lo, hi, left, Find(score, target, lo, hi, left, best))
    ensures left == 0 && best == None ==> Find(score, target, lo, hi, left, best) == Search([], NoOutput)
    decreases left
  {
    if left > 0 {
      var p := Probe(lo, hi, Middle(lo, hi));
      MiddleIsHalfway(lo, hi);
      match Narrow(score, target, lo, hi) {
        case None =>
          LastPassEnds(score, target, lo, hi, left == 1);
          LonePass(score, target, p, left, LastPass(score, target, p.crf));
        case Some((lo', hi')) =>
          NarrowFollows(score, target, lo, hi);
          if left == 1 {
            LonePass(score, target, p, left, OutOfIterations(p.crf));
          } else {
            SearchBisects(score, target, lo', hi', left - 1, Some(p.crf));
            MorePasses(score, target, p, lo', hi', left - 1, Find(score, target, lo', hi', left - 1, Some(p.crf)));
          }
      }
    }
  }

  // ----- integer bounds -----

  /** With integer bounds the probe lies between them and leaves at most half of the candidates on
      either side. */
  lemma MiddleOfInts(lo: int, hi: int)
    requires lo <= hi
    ensures var m := Middle(lo as real, hi as real);
            lo <= m <= hi && 2 * (m - lo) <= hi - lo + 1 && 2 * (hi - m) <= hi - lo + 1
  {
    var x := (lo as real + hi as real) / 2.0;
    assert 2.0 * x == (lo + hi) as real;
  }

  /** One loop pass on integer bounds, read as the result of the remaining search. */
  lemma NextBounds(score: Oracle, target: real, lo: int, hi: int, left: nat, best: Option<int>)
    returns (crf: int, lo': int, hi': int, last: bool)
    requires lo <= hi && left > 0
    ensures crf == Middle(lo as real, hi as real)
    ensures last ==> Find(score, target, lo as real, hi as real, left, best).probes == [Probe(lo as real, hi as real, crf)]
    ensures !last ==> score(crf).Some?
                      && (if score(crf).value >= target then lo' == crf + 1 && hi' == hi else lo' == lo && hi' == crf - 1)
                      && lo' <= hi'
                      && var s, rest := Find(score, target, lo as real, hi as real, left, best),
                                        Find(score, target, lo' as real, hi' as real, left - 1, Some(crf));
                         s.probes == [Probe(lo as real, hi as real, crf)] + rest.probes && s.out == rest.out
  {
    crf := Middle(lo as real, hi as real);
    last := score(crf).None? || IsClose(score(crf).value, target);
    lo', hi' := lo, hi;
    if !last {
      if score(crf).value >= target { lo' := crf + 1; } else { hi' := crf - 1; }
      last := lo' > hi';
    }
  }

  predicate NoCrfTwice(ps: seq<Probe>) {
    forall i, k :: 0 <= i < k < |ps| ==> ps[i].crf != ps[k].crf
  }

  predicate InRange(ps: seq<Probe>, lo: int, hi: int) {
    forall i :: 0 <= i < |ps| ==> lo <= ps[i].crf <= hi
  }

  /** Every probe is in range and no CRF is encoded twice, whatever the scores. */
  lemma {:induction false} ProbesDistinct(score: Oracle, target: real, lo: int, hi: int, left: nat, best: Option<int>)
    requires lo <= hi
    ensures var ps := Find(score, target, lo as real, hi as real, left, best).probes; InRange(ps, lo, hi) && NoCrfTwice(ps)
    decreases left
  {
    if left > 0 {
      MiddleOfInts(lo, hi);
      var crf, lo', hi', last := NextBounds(score, target, lo, hi, left, best);
      if !last { ProbesDistinct(score, target, lo', hi', left - 1, Some(crf)); }
    }
  }

  /** At most floor(log2 n) + 1 encodes for n candidates. */
  lemma {:induction false} ProbesLogarithmic(score: Oracle, target: real, lo: int, hi: int, left: nat, best: Option<int>)
    requires lo <= hi
    ensures var n := |Find(score, target, lo as real, hi as real, left, best).probes|;
            n == 0 || Pow2(n - 1) <= hi - lo + 1
    decreases left
  {
    if left > 0 {
      MiddleOfInts(lo, hi);
      var crf, lo', hi', last := NextBounds(score, target, lo, hi, left, best);
      if !last { ProbesLogarithmic(score, target, lo', hi', left - 1, Some(crf)); }
    }
  }

  // ----- scores that fall with the CRF -----

  /** Among the CRFs that can be measured, a higher one never scores better. */
  ghost predicate Falling(score: Oracle) {
    forall x, y :: x <= y && score(x).Some? && score(y).Some? ==> score(x).value >= score(y).value
  }

  predicate Meets(score: Oracle, target: real, x: int) { score(x).Some? ==> score(x).value >= target }
  predicate Misses(score: Oracle, target: real, x: int) { score(x).Some? ==> score(x).value < target }

  /** Of the candidates min .. max, everything below lo meets the target and everything above hi misses it. */
  ghost predicate Bracketed(score: Oracle, target: real, min: int, max: int, lo: real, hi: real) {
    && (forall x :: min <= x <= max && x as real < lo ==> Meets(score, target, x))
    && (forall x :: min <= x <= max && x as real > hi ==> Misses(score, target, x))
  }

  /** The CRF is the highest candidate that meets the target or the lowest one that misses it. */
  ghost predicate OnEdge(score: Oracle, target: real, min: int, max: int, crf: int) {
    && min <= crf <= max && score(crf).Some?
    && (score(crf).value >= target ==> forall x :: crf < x <= max ==> Misses(score, target, x))
    && (score(crf).value < target ==> forall x :: min <= x < crf ==> Meets(score, target, x))
  }

  lemma BracketNarrows(score: Oracle, target: real, min: int, max: int, lo: int, hi: int, crf: int)
    requires Falling(score) && Bracketed(score, target, min, max, lo as real, hi as real) && score(crf).Some?
    ensures score(crf).value >= target ==> Bracketed(score, target, min, max, (crf + 1) as real, hi as real)
    ensures score(crf).value < target ==> Bracketed(score, target, min, max, lo as real, (crf - 1) as real)
  {
  }

  lemma EdgeReached(score: Oracle, target: real, min: int, max: int, lo: int, hi: int, left: nat, best: Option<int>)
    requires Falling(score) && min <= lo <= hi <= max && left > 0
    requires Bracketed(score, target, min, max, lo as real, hi as real)
    ensures var s := Find(score, target, lo as real, hi as real, left, best);
            s.out.Exhausted? && |s.probes| == 1 ==> OnEdge(score, target, min, max, s.out.crf)
  {
    MiddleOfInts(lo, hi);
  }

  lemma {:induction false} BracketKept(score: Oracle, target: real, min: int, max: int, lo: int, hi: int,
                                       left: nat, best: Option<int>)
    requires Falling(score) && min <= lo <= hi <= max
    requires Bracketed(score, target, min, max, lo as real, hi as real)
    ensures var s := Find(score, target, lo as real, hi as real, left, best);
            && (forall i :: 0 <= i < |s.probes| ==> Bracketed(score, target, min, max, s.probes[i].lo, s.probes[i].hi))
            && (s.out.Exhausted? ==> OnEdge(score, target, min, max, s.out.crf))
    decreases left
  {
    if left > 0 {
      MiddleOfInts(lo, hi);
      var crf, lo', hi', last := NextBounds(score, target, lo, hi, left, best);
      if score(crf).Some? { BracketNarrows(score, target, min, max, lo, hi, crf); }
      if !last {
        BracketKept(score, target, min, max, lo', hi', left - 1, Some(crf));
      } else {
        EdgeReached(score, target, min, max, lo, hi, left, best);
      }
    }
  }

  /** With scores that fall as the CRF rises, every loop head of the search brackets the edge, and
      a search that ends because the bracket is empty chose a CRF on the edge. */
  lemma SearchFindsTheEdge(score: Oracle, target: real, min: int, max: int, maxIterations: nat)
    requires Falling(score) && min <= max
    ensures var s := Find(score, target, min as real, max as real, maxIterations, None);
            && (forall i :: 0 <= i < |s.probes| ==> Bracketed(score, target, min, max, s.probes[i].lo, s.probes[i].hi))
            && (s.out.Exhausted? ==> OnEdge(score, target, min, max, s.out.crf))
  {
    BracketKept(score, target, min, max, min, max, maxIterations, None);
  }

  // ----- an exhausted choice that misses -----

  predicate Hits(score: Oracle, target: real, x: int) { score(x).Some? && score(x).value >= target }

  ghost predicate SomeHits(score: Oracle, target: real, ps: seq<Probe>) {
    exists i :: 0 <= i < |ps| && Hits(score, target, ps[i].crf)
  }

  ghost predicate Probed(ps: seq<Probe>, x: int) { exists i :: 0 <= i < |ps| && ps[i].crf == x }

  /** The search is exhausted and its choice misses the target. */
  predicate EndsLow(score: Oracle, target: real, s: Search) {
    s.out.Exhausted? && score(s.out.crf).Some? && score(s.out.crf).value < target
  }

  lemma LastPassLow(score: Oracle, target: real, lo: int, hi: int, left: nat, best: Option<int>)
    requires lo <= hi && left > 0
    ensures var s := Find(score, target, lo as real, hi as real, left, best);
            |s.probes| == 1 && EndsLow(score, target, s) ==> s.out.crf == lo && s.probes[0].crf == lo
  {
    MiddleOfInts(lo, hi);
    var crf, lo', hi', last := NextBounds(score, target, lo, hi, left, best);
  }

  lemma HitsWithFirst(score: Oracle, target: real, p: Probe, rest: seq<Probe>, x: int)
    ensures SomeHits(score, target, [p] + rest) <==> Hits(score, target, p.crf) || SomeHits(score, target, rest)
    ensures Probed([p] + rest, x) <==> p.crf == x || Probed(rest, x)
  {
    var all := [p] + rest;
    if i :| 0 <= i < |rest| && Hits(score, target, rest[i].crf) { assert all[i + 1] == rest[i]; }
    if i :| 0 <= i < |rest| && rest[i].crf == x { assert all[i + 1] == rest[i]; }
    if Hits(score, target, p.crf) || p.crf == x { assert all[0] == p; }
  }

  lemma {:induction false} LowEnd(score: Oracle, target: real, lo: int, hi: int, left: nat, best: Option<int>)
    requires lo <= hi
    ensures var s := Find(score, target, lo as real, hi as real, left, best);
            EndsLow(score, target, s) ==>
              && s.out.crf >= lo && (SomeHits(score, target, s.probes) <==> s.out.crf > lo)
              && (s.out.crf > lo ==> Hits(score, target, s.out.crf - 1) && Probed(s.probes, s.out.crf - 1))
    decreases left
  {
    if left > 0 {
      MiddleOfInts(lo, hi);
      var s := Find(score, target, lo as real, hi as real, left, best);
      var crf, lo', hi', last := NextBounds(score, target, lo, hi, left, best);
      if last {
        LastPassLow(score, target, lo, hi, left, best);
      } else {
        LowEnd(score, target, lo', hi', left - 1, Some(crf));
        var rest := Find(score, target, lo' as real, hi' as real, left - 1, Some(crf)).probes;
        if s.out.Exhausted? { HitsWithFirst(score, target, Probe(lo as real, hi as real, crf), rest, s.out.crf - 1); }
      }
    }
  }

  /** The last encode is kept even if it misses.  If it does, some encode met the target exactly if the
      choice is not the lowest candidate; the CRF just below it is then one of those. */
  lemma ExhaustedChoiceMayMiss(score: Oracle, target: real, min: int, max: int, maxIterations: nat)
    requires min <= max && Find(score, target, min as real, max as real, maxIterations, None).out.Exhausted?
    ensures var s := Find(score, target, min as real, max as real, maxIterations, None);
            var c := s.out.crf;
            && score(c).Some?
            && (score(c).value < target ==> (SomeHits(score, target, s.probes) <==> c > min))
            && (score(c).value < target && c > min ==> Hits(score, target, c - 1) && Probed(s.probes, c - 1))
  {
    LowEnd(score, target, min, max, maxIterations, None);
    ExhaustedIsMeasured(score, target, min, max, maxIterations, None);
  }

  lemma {:induction false} ExhaustedIsMeasured(score: Oracle, target: real, lo: int, hi: int, left: nat, best: Option<int>)
    requires lo <= hi
    ensures var s := Find(score, target, lo as real, hi as real, left, best); s.out.Exhausted? ==> score(s.out.crf).Some?
    decreases left
  {
    if left > 0 {
      var crf, lo', hi', last := NextBounds(score, target, lo, hi, left, best);
      if !last { ExhaustedIsMeasured(score, target, lo', hi', left - 1, Some(crf)); }
    }
  }

  // ----- when the choice misses, decided by the bounds and the edge -----

  /** Every candidate is measured and none is close; exactly those below e meet the target. */
  ghost predicate EdgeAt(score: Oracle, target: real, min: int, max: int, e: int) {
    forall x :: min <= x <= max ==>
      score(x).Some? && !IsClose(score(x).value, target) && (score(x).value >= target <==> x < e)
  }

  /** Candidate x is probed with no candidate below it left, in a bisection that goes towards it. */
  function Lone(lo: int, hi: int, x: int): bool
    requires lo <= x <= hi
    decreases hi - lo
  {
    MiddleOfInts(lo, hi);
    var m := Middle(lo as real, hi as real);
    if x == m then m == lo else if x < m then Lone(lo, m - 1, x) else Lone(m + 1, hi, x)
  }

  /** The CRF chosen between bounds lo and hi for an edge at e. */
  function EdgeChoice(lo: int, hi: int, e: int): int
    requires lo <= e <= hi + 1
  {
    if e <= hi && Lone(lo, hi, e) then e else e - 1
  }

  lemma ChoiceStep(lo: int, hi: int, e: int, m: int)
    requires lo <= e <= hi + 1 && lo <= hi && m == Middle(lo as real, hi as real) && lo <= m <= hi
    ensures m < e ==> EdgeChoice(lo, hi, e) == if m == hi then m else EdgeChoice(m + 1, hi, e)
    ensures m >= e ==> EdgeChoice(lo, hi, e) == if m == lo then m else EdgeChoice(lo, m - 1, e)
  {
  }

  lemma LastEdgePass(score: Oracle, target: real, lo: int, hi: int, e: int, left: nat, best: Option<int>, m: int)
    requires lo <= hi && left > 0 && EdgeAt(score, target, lo, hi, e) && m == Middle(lo as real, hi as real) && lo <= m <= hi
    requires if m < e then m == hi else m == lo
    ensures Find(score, target, lo as real, hi as real, left, best).out == Exhausted(m)
  {
  }

  lemma NextEdgePass(score: Oracle, target: real, lo: int, hi: int, e: int, left: nat, best: Option<int>, m: int)
    requires lo <= hi && left > 0 && EdgeAt(score, target, lo, hi, e) && m == Middle(lo as real, hi as real) && lo <= m <= hi
    requires if m < e then m < hi else lo < m
    ensures var lo', hi' := if m < e then m + 1 else lo, if m < e then hi else m - 1;
            Find(score, target, lo as real, hi as real, left, best).out
            == Find(score, target, lo' as real, hi' as real, left - 1, Some(m)).out
  {
    var crf, lo', hi', last := NextBounds(score, target, lo, hi, left, best);
    assert Narrow(score, target, lo as real, hi as real).Some?;
  }

  ghost predicate Chooses(score: Oracle, target: real, lo: int, hi: int, e: int, left: nat, best: Option<int>)
    requires lo <= e <= hi + 1
  {
    forall k :: Look(k) ==> Find(score, target, lo as real, hi as real, left, best).out == Exhausted(EdgeChoice(lo, hi, e))
  }

  lemma LastChoice(score: Oracle, target: real, lo: int, hi: int, e: int, left: nat, best: Option<int>, m: int)
    requires lo <= hi && left > 0 && EdgeAt(score, target, lo, hi, e) && m == Middle(lo as real, hi as real) && lo <= m <= hi
    requires lo <= e <= hi + 1 && if m < e then m == hi else m == lo
    ensures Chooses(score, target, lo, hi, e, left, best)
  {
    LastEdgePass(score, target, lo, hi, e, left, best, m);
    ChoiceStep(lo, hi, e, m);
  }

  lemma NextChoice(score: Oracle, target: real, lo: int, hi: int, e: int, left: nat, best: Option<int>, m: int, lo': int, hi': int)
    requires lo <= hi && left > 0 && EdgeAt(score, target, lo, hi, e) && m == Middle(lo as real, hi as real) && lo <= m <= hi
    requires lo <= e <= hi + 1 && if m < e then m < hi && lo' == m + 1 && hi' == hi else lo < m && lo' == lo && hi' == m - 1
    requires Chooses(score, target, lo', hi', e, left - 1, Some(m))
    ensures Chooses(score, target, lo, hi, e, left, best)
  {
    NextEdgePass(score, target, lo, hi, e, left, best, m);
    assert EdgeChoice(lo, hi, e) == EdgeChoice(lo', hi', e) by { ChoiceStep(lo, hi, e, m); }
  }

  lemma {:induction false} ChoiceOnEdge(score: Oracle, target: real, lo: int, hi: int, e: int, left: nat, best: Option<int>)
    requires lo <= hi && lo <= e <= hi + 1 && EdgeAt(score, target, lo, hi, e) && Pow2(left) > hi - lo + 1
    ensures Chooses(score, target, lo, hi, e, left, best)
    decreases left
  {
    MiddleOfInts(lo, hi);
    var m := Middle(lo as real, hi as real);
    Halves(lo, hi, m, left);
    if if m < e then m == hi else m == lo {
      LastChoice(score, target, lo, hi, e, left, best, m);
    } else {
      var lo', hi' := if m < e then m + 1 else lo, if m < e then hi else m - 1;
      ChoiceOnEdge(score, target, lo', hi', e, left - 1, Some(m));
      NextChoice(score, target, lo, hi, e, left, best, m, lo', hi');
    }
  }

  lemma Halves(lo: int, hi: int, m: int, left: nat)
    requires lo <= hi && 2 * (m - lo) <= hi - lo + 1 && 2 * (hi - m) <= hi - lo + 1 && Pow2(left) > hi - lo + 1
    ensures left > 0 && Pow2(left - 1) > m - lo && Pow2(left - 1) > hi - m
  {
  }

  /** The outcome, decided before the search by the bounds and the edge of the scores: with enough
      passes, and no measurement failing or close to the target, the search is exhausted, and its choice
      misses the target exactly if the lowest candidate that misses is probed with none below it left. */
  lemma ExhaustedChoiceExactly(score: Oracle, target: real, min: int, max: int, e: int, maxIterations: nat)
    requires min <= max && min <= e <= max + 1 && EdgeAt(score, target, min, max, e)
    requires Pow2(maxIterations) > max - min + 1
    ensures Find(score, target, min as real, max as real, maxIterations, None).out == Exhausted(EdgeChoice(min, max, e))
    ensures min <= EdgeChoice(min, max, e) <= max
    ensures score(EdgeChoice(min, max, e)).value < target <==> e <= max && Lone(min, max, e)
  {
    ChoiceOnEdge(score, target, min, max, e, maxIterations, None);
    assert Look(0);
    if e == min { LowestIsLone(min, max); }
  }

  /** If no candidate meets the target, the lowest one is chosen. */
  lemma {:induction false} LowestIsLone(lo: int, hi: int)
    requires lo <= hi
    ensures Lone(lo, hi, lo)
    decreases hi - lo
  {
    MiddleOfInts(lo, hi);
    var m := Middle(lo as real, hi as real);
    if lo < m { LowestIsLone(lo, m - 1); }
  }

  /** An oracle for which it happens. */
  lemma ExhaustedChoiceMisses(score: Oracle, maxIterations: nat)
    requires score(21) == Some(95.0) && score(22) == Some(92.0) && maxIterations >= 2
    ensures var s := Find(score, 93.0, 20.0, 22.0, maxIterations, None);
            s.out == Exhausted(22) && s.probes[0].crf == 21 && !Meets(score, 93.0, 22) && Meets(score, 93.0, 21)
  {
    assert Middle(20.0, 22.0) == 21;
    assert Middle(22.0, 22.0) == 22;
    assert Find(score, 93.0, 22.0, 22.0, maxIterations - 1, Some(21)).out == Exhausted(22);
  }
}
