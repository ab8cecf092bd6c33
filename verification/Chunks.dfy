/**
 Splitting a source's frames among the available agents.  A boundary names its first and last
 frame; an empty chunk is written with its last frame one below its first.
 */
module Chunks {
  import opened Basics

  datatype Boundary = Boundary(first: int, last: int)

  const MIN_CHUNK := 500

  function Size(b: Boundary): int { b.last - b.first + 1 }

  function MaxChunkFor(total: int): int {
    if total / 2 < MIN_CHUNK then MIN_CHUNK else total / 2
  }

  /** The raw size clamped from below, from above, and by what must be left for the last agent. */
  function Clamp(raw: int, remaining: int, total: int): int {
    var a := if raw < MIN_CHUNK then MIN_CHUNK else raw;
    var b := if a > MaxChunkFor(total) then MaxChunkFor(total) else a;
    if b > remaining - MIN_CHUNK then remaining - MIN_CHUNK else b
  }

  /** The frames the first k agents get: each takes its clamped raw size of what is left. */
  function Taken(raw: seq<int>, k: nat, total: int): int
    requires k <= |raw|
  {
    if k == 0 then 0
    else var before := Taken(raw, k - 1, total);
         before + Clamp(raw[k - 1], total - before, total)
  }

  function BoundaryAt(raw: seq<int>, k: nat, total: int): Boundary
    requires k < |raw|
  {
    Boundary(Taken(raw, k, total), if k == |raw| - 1 then total - 1 else Taken(raw, k + 1, total) - 1)
  }

  /** The boundaries for agents with these raw sizes.  The last agent gets what is left, whatever
      its raw size. */
  function Boundaries(raw: seq<int>, total: int): (bs: seq<Boundary>)
    ensures |bs| == |raw| && forall k :: 0 <= k < |raw| ==> bs[k] == BoundaryAt(raw, k, total)
  {
    seq(|raw|, k requires 0 <= k < |raw| => BoundaryAt(raw, k, total))
  }

  // ----- weights -----

  function Weight(fps: real): (w: real)
    ensures w > 0.0
  {
    if fps <= 0.0 then 1.0 else fps
  }

  function WeightSum(fps: seq<real>): (sum: real)
    ensures sum >= 0.0 && (fps != [] ==> sum > 0.0)
  {
    if fps == [] then 0.0 else WeightSum(fps[..|fps| - 1]) + Weight(fps[|fps| - 1])
  }

  /** Rounding of a non-negative number, halves away from zero. */
  function Round(x: real): (n: int)
    ensures n as real - 0.5 <= x < n as real + 0.5
  {
    (x + 0.5).Floor
  }

  function Share(total: int, weight: real, sum: real): real
    requires sum > 0.0
  {
    total as real * weight / sum
  }

  function RawSize(total: int, weight: real, sum: real): int
    requires sum > 0.0
  {
    Round(Share(total, weight, sum))
  }

  ghost predicate IsRawSize(raw: int, fps: real, sum: real, total: int) {
    forall k :: Look(k) && sum > 0.0 ==> raw == RawSize(total, Weight(fps), sum)
  }

  function RawSizes(fps: seq<real>, total: int): (raw: seq<int>)
    ensures |raw| == |fps|
    ensures forall i :: 0 <= i < |fps| ==> IsRawSize(raw[i], fps[i], WeightSum(fps), total)
  {
    seq(|fps|, i requires 0 <= i < |fps| => RawSize(total, Weight(fps[i]), WeightSum(fps)))
  }

  lemma {:induction false} UnknownWeights(fps: seq<real>)
    requires forall i :: 0 <= i < |fps| ==> fps[i] <= 0.0
    ensures WeightSum(fps) == |fps| as real
  {
    if fps != [] { UnknownWeights(fps[..|fps| - 1]); }
  }

  /** Agents without any known speed get equal raw shares. */
  lemma UnknownSpeedsShareEqually(fps: seq<real>, total: int, i: nat)
    requires i < |fps| && forall k :: 0 <= k < |fps| ==> fps[k] <= 0.0
    ensures RawSizes(fps, total)[i] == Round(total as real / |fps| as real)
  {
    UnknownWeights(fps);
    assert total as real * 1.0 == total as real;
    assert Look(0);
  }

  method TotalWeight(fps: seq<real>) returns (sum: real)
    ensures sum == WeightSum(fps)
  {
    sum := 0.0;
    for i := 0 to |fps|
      invariant sum == WeightSum(fps[..i])
    {
      assert fps[..i + 1][..i] == fps[..i];
      var w := fps[i];
      if w <= 0.0 { w := 1.0; }
      sum := sum + w;
    }
    assert fps[..|fps|] == fps;
  }

  /** The size of a chunk that is not the last one. */
  method ChunkSize(fps: real, sum: real, total: int, remaining: int, maxChunk: int, ghost raw: int) returns (size: int)
    requires sum > 0.0 && maxChunk == MaxChunkFor(total) && IsRawSize(raw, fps, sum, total)
    ensures size == Clamp(raw, remaining, total)
  {
    var w := fps;
    if w <= 0.0 { w := 1.0; }
    size := RawSize(total, w, sum);
    assert size == raw by { assert Look(0); }
    if size < MIN_CHUNK { size := MIN_CHUNK; }
    if size > maxChunk { size := maxChunk; }
    if size > remaining - MIN_CHUNK { size := remaining - MIN_CHUNK; }
  }

  /** The loop of computeAdaptiveChunks; `raw` are the rounded shares it computes on the way. */
  method SplitFrames(fps: seq<real>, sum: real, total: int, ghost raw: seq<int>) returns (bs: seq<Boundary>)
    requires fps != [] && sum > 0.0 && |raw| == |fps|
    requires forall i :: 0 <= i < |fps| ==> IsRawSize(raw[i], fps[i], sum, total)
    ensures bs == Boundaries(raw, total)
  {
    var maxChunk := total / 2;
    if maxChunk < MIN_CHUNK { maxChunk := MIN_CHUNK; }
    bs := [];
    var start, remaining := 0, total;
    for i := 0 to |fps| - 1
      invariant start == Taken(raw, i, total) && remaining == total - start
      invariant |bs| == i && forall k :: 0 <= k < i ==> bs[k] == BoundaryAt(raw, k, total)
    {
      var size := ChunkSize(fps[i], sum, total, remaining, maxChunk, raw[i]);
      bs := bs + [Boundary(start, start + size - 1)];
      start := start + size;
      remaining := remaining - size;
    }
    bs := bs + [Boundary(start, start + remaining - 1)];
  }

  /** computeAdaptiveChunks as a function of the agents' speeds. */
  function AdaptiveChunks(fps: seq<real>, total: int): (bs: seq<Boundary>)
    ensures |bs| == |fps|
  {
    Boundaries(RawSizes(fps, total), total)
  }

  /** computeAdaptiveChunks. */
  method ComputeAdaptiveChunks(fps: seq<real>, total: int) returns (bs: seq<Boundary>)
    ensures bs == AdaptiveChunks(fps, total)
  {
    if |fps| == 0 { return []; }
    var sum := TotalWeight(fps);
    bs := SplitFrames(fps, sum, total, RawSizes(fps, total));
  }

  // ----- what the speeds decide -----

  function Sum(fps: seq<real>): real {
    if fps == [] then 0.0 else Sum(fps[..|fps| - 1]) + fps[|fps| - 1]
  }

  lemma {:induction false} KnownWeights(fps: seq<real>)
    requires forall i :: 0 <= i < |fps| ==> fps[i] > 0.0
    ensures WeightSum(fps) == Sum(fps)
  {
    if fps != [] { KnownWeights(fps[..|fps| - 1]); }
  }

  lemma SumIsPositive(fps: seq<real>)
    requires fps != [] && forall i :: 0 <= i < |fps| ==> fps[i] > 0.0
    ensures Sum(fps) > 0.0
  {
    KnownWeights(fps);
  }

  lemma SizeIsClamped(raw: seq<int>, total: int, i: nat)
    requires i < |raw| - 1
    ensures var b := Boundaries(raw, total)[i]; Size(b) == Clamp(raw[i], total - b.first, total)
  {
  }

  ghost predicate IsShare(share: real, total: int, speed: real, sum: real) {
    forall k :: Look(k) && sum > 0.0 ==> share == Share(total, speed, sum)
  }

  lemma RawSizeOfShare(raw: int, total: int, speed: real, sum: real, share: real)
    requires speed > 0.0 && sum > 0.0 && IsRawSize(raw, speed, sum, total) && IsShare(share, total, speed, sum)
    ensures raw == Round(share)
  {
    assert Look(0) && Weight(speed) == speed;
  }

  lemma RawSizeIsShare(fps: seq<real>, total: int, i: nat, share: real)
    requires i < |fps| && forall k :: 0 <= k < |fps| ==> fps[k] > 0.0
    requires IsShare(share, total, fps[i], Sum(fps))
    ensures RawSizes(fps, total)[i] == Round(share)
  {
    KnownWeights(fps);
    RawSizeOfShare(RawSizes(fps, total)[i], total, fps[i], Sum(fps), share);
  }

  /** Where all speeds are known, a chunk that is not the last is its agent's share of all frames by speed,
      rounded and then clamped.  So it is within half a frame of the share wherever the rounded share has 500
      frames, at most half of all frames or 500, and leaves 500. */
  lemma SizesFollowSpeeds(fps: seq<real>, total: int, i: nat, share: real, n: int)
    requires i < |fps| - 1 && forall k :: 0 <= k < |fps| ==> fps[k] > 0.0
    requires Sum(fps) > 0.0 && share == total as real * fps[i] / Sum(fps)
    requires n as real - 0.5 <= share < n as real + 0.5
    ensures var b := AdaptiveChunks(fps, total)[i];
            && Size(b) == Clamp(n, total - b.first, total)
            && (500 <= n <= (if total / 2 < 500 then 500 else total / 2) && n <= total - b.first - 500
                ==> Size(b) == n && -0.5 <= Size(b) as real - share <= 0.5)
  {
    RawSizeIsShare(fps, total, i, share);
    SizeIsClamped(RawSizes(fps, total), total, i);
  }

  lemma {:induction false} SameWeights(fps: seq<real>, known: seq<real>)
    requires |known| == |fps| && forall i :: 0 <= i < |fps| ==> known[i] == if fps[i] <= 0.0 then 1.0 else fps[i]
    ensures WeightSum(fps) == WeightSum(known)
  {
    if fps != [] { SameWeights(fps[..|fps| - 1], known[..|fps| - 1]); }
  }

  /** An agent of unknown speed gets the share of an agent of speed 1. */
  lemma UnknownSpeedCountsAsOne(fps: seq<real>, known: seq<real>, total: int)
    requires |known| == |fps| && forall i :: 0 <= i < |fps| ==> known[i] == if fps[i] <= 0.0 then 1.0 else fps[i]
    ensures AdaptiveChunks(fps, total) == AdaptiveChunks(known, total)
  {
    SameWeights(fps, known);
    assert RawSizes(fps, total) == RawSizes(known, total);
  }

  lemma {:induction false} ScaledSum(fps: seq<real>, scaled: seq<real>, c: real)
    requires |scaled| == |fps| && forall i :: 0 <= i < |fps| ==> scaled[i] == c * fps[i]
    ensures Sum(scaled) == c * Sum(fps)
  {
    if fps != [] { ScaledSum(fps[..|fps| - 1], scaled[..|fps| - 1], c); }
  }

  lemma ScaledShare(share: real, total: int, speed: real, sum: real, c: real, speed': real, sum': real)
    requires c > 0.0 && sum > 0.0 && IsShare(share, total, speed, sum) && speed' == c * speed && sum' == c * sum
    ensures IsShare(share, total, speed', sum')
  {
    assert Look(0);
    var t := total as real;
    assert share * sum' == c * (share * sum) == c * (t * speed) == t * speed';
  }

  lemma ScaledRawSize(fps: seq<real>, scaled: seq<real>, total: int, i: nat, share: real)
    requires |scaled| == |fps| && i < |fps|
    requires forall k :: 0 <= k < |fps| ==> fps[k] > 0.0 && scaled[k] > 0.0
    requires IsShare(share, total, fps[i], Sum(fps)) && IsShare(share, total, scaled[i], Sum(scaled))
    ensures RawSizes(scaled, total)[i] == RawSizes(fps, total)[i]
  {
    RawSizeIsShare(fps, total, i, share);
    RawSizeIsShare(scaled, total, i, share);
  }

  /** Only the proportions of the speeds matter. */
  lemma ScaledSpeedsShareAlike(fps: seq<real>, scaled: seq<real>, c: real, total: int)
    requires c > 0.0 && |scaled| == |fps|
    requires forall i :: 0 <= i < |fps| ==> fps[i] > 0.0 && scaled[i] == c * fps[i]
    ensures AdaptiveChunks(scaled, total) == AdaptiveChunks(fps, total)
  {
    forall i | 0 <= i < |fps| ensures scaled[i] > 0.0 {}
    ScaledSum(fps, scaled, c);
    forall i | 0 <= i < |fps| ensures RawSizes(scaled, total)[i] == RawSizes(fps, total)[i] {
      SumIsPositive(fps);
      SumIsPositive(scaled);
      var share := Share(total, fps[i], Sum(fps));
      ScaledShare(share, total, fps[i], Sum(fps), c, scaled[i], Sum(scaled));
      ScaledRawSize(fps, scaled, total, i, share);
    }
    assert RawSizes(scaled, total) == RawSizes(fps, total);
  }

  // ----- what the boundaries cover -----

  /** Contiguous, possibly empty ranges from `start` to just below `end`. */
  predicate TilesFrom(bs: seq<Boundary>, start: int, end: int) {
    && bs != [] && bs[0].first == start && bs[|bs| - 1].last == end - 1
    && (forall i :: 0 <= i < |bs| ==> Size(bs[i]) >= 0)
    && (forall i, k :: 0 <= i < |bs| && 0 <= k < |bs| && k == i + 1 ==> bs[k].first == bs[i].last + 1)
  }

  predicate Capped(bs: seq<Boundary>, cap: int) {
    forall i :: 0 <= i < |bs| - 1 ==> Size(bs[i]) <= cap
  }

  function Distance(a: int, b: int): nat { if a <= b then b - a else a - b }

  /** The size of a chunk that is not the last one, when at least 500 frames are left: the number closest
      to the raw size that has at least 500 frames, at most half of all frames but never fewer than 500,
      and leaves 500; if no number does, all but 500 of what is left. */
  lemma ClampRange(raw: int, remaining: int, total: int)
    requires remaining >= 500
    ensures var size, most := Clamp(raw, remaining, total), if total / 2 < 500 then 500 else total / 2;
            && 0 <= size <= most && size <= remaining - 500
            && (remaining < 1000 ==> size == remaining - 500)
            && (remaining >= 1000 ==> size >= 500)
            && forall z :: 500 <= z <= most && z <= remaining - 500 ==> Distance(size, raw) <= Distance(z, raw)
  {
  }

  lemma {:induction false} TakenLeavesMinimum(raw: seq<int>, k: nat, total: int)
    requires k <= |raw| && total >= MIN_CHUNK
    ensures Taken(raw, k, total) <= total - MIN_CHUNK
  {
    if k > 0 {
      TakenLeavesMinimum(raw, k - 1, total);
      ClampRange(raw[k - 1], total - Taken(raw, k - 1, total), total);
    }
  }

  lemma SizeAt(raw: seq<int>, k: nat, total: int)
    requires k < |raw| && total >= MIN_CHUNK
    ensures Size(BoundaryAt(raw, k, total)) >= 0
    ensures k < |raw| - 1 ==> Size(BoundaryAt(raw, k, total)) <= MaxChunkFor(total)
    ensures k == |raw| - 1 ==> Size(BoundaryAt(raw, k, total)) >= MIN_CHUNK
  {
    TakenLeavesMinimum(raw, k, total);
    ClampRange(raw[k], total - Taken(raw, k, total), total);
  }

  /** From the minimum chunk of frames on, whatever the raw sizes: one range per agent, tiling, all
      but the last capped, the last at least the minimum chunk. */
  lemma BoundariesTile(raw: seq<int>, total: int)
    requires raw != [] && total >= MIN_CHUNK
    ensures var bs := Boundaries(raw, total);
            && |bs| == |raw| && TilesFrom(bs, 0, total) && Capped(bs, MaxChunkFor(total))
            && Size(bs[|bs| - 1]) >= MIN_CHUNK
  {
    forall k | 0 <= k < |raw|
      ensures Size(BoundaryAt(raw, k, total)) >= 0
      ensures k < |raw| - 1 ==> Size(BoundaryAt(raw, k, total)) <= MaxChunkFor(total)
    {
      SizeAt(raw, k, total);
    }
    SizeAt(raw, |raw| - 1, total);
  }

  /** For n >= 1 agents the n ranges tile the source exactly if it has at least the minimum chunk
      of frames or there is a single agent and no negative length: otherwise the first range is
      already below empty. */
  lemma AdaptiveChunksTileExactly(raw: seq<int>, total: int)
    requires raw != []
    ensures TilesFrom(Boundaries(raw, total), 0, total)
       <==> total >= MIN_CHUNK || (|raw| == 1 && total >= 0)
  {
    if total >= MIN_CHUNK {
      BoundariesTile(raw, total);
    } else if |raw| > 1 {
      assert Boundaries(raw, total)[0] == Boundary(0, total - MIN_CHUNK - 1);
    }
  }

  // ----- frames -----

  function FrameRange(first: int, size: nat): (fs: seq<int>)
    ensures |fs| == size && forall i :: 0 <= i < size ==> fs[i] == first + i
  {
    seq(size, i => first + i)
  }

  function FramesOf(b: Boundary): seq<int>
    requires Size(b) >= 0
  {
    FrameRange(b.first, Size(b))
  }

  function Flatten(parts: seq<seq<int>>): seq<int> {
    if parts == [] then [] else Flatten(parts[..|parts| - 1]) + parts[|parts| - 1]
  }

  /** Ranges that tile [start, end), laid end to end, are the frames start .. end-1 in order. */
  lemma {:induction false} TilesAreAllFrames(bs: seq<Boundary>, parts: seq<seq<int>>, start: int, end: int)
    requires TilesFrom(bs, start, end) && |parts| == |bs|
    requires forall i :: 0 <= i < |bs| ==> parts[i] == FramesOf(bs[i])
    ensures start <= end && Flatten(parts) == FrameRange(start, end - start)
  {
    var n := |bs| - 1;
    if n == 0 {
      assert parts[..0] == [] && parts[0] == FrameRange(start, end - start);
      assert Flatten(parts) == [] + parts[0];
    } else {
      TilesAreAllFrames(bs[..n], parts[..n], start, bs[n].first);
      assert Flatten(parts) == FrameRange(start, bs[n].first - start) + FramesOf(bs[n]);
    }
  }

  // ----- re-chunking a job -----

  function MaxEnd(bs: seq<Boundary>): (m: int)
    ensures m >= 0 && forall i :: 0 <= i < |bs| ==> bs[i].last + 1 <= m
    ensures m == 0 || exists i :: 0 <= i < |bs| && m == bs[i].last + 1
  {
    if bs == [] then 0
    else var m := MaxEnd(bs[..|bs| - 1]);
         var b := bs[|bs| - 1];
         assert forall i :: 0 <= i < |bs| - 1 ==> bs[i] == bs[..|bs| - 1][i];
         if b.last + 1 > m then b.last + 1 else m
  }

  /** The frame count expandEncodeJob derives from the configured boundaries. */
  function TotalFrames(bs: seq<Boundary>, chunkSize: int): int {
    if MaxEnd(bs) == 0 && chunkSize > 0 && bs != [] then bs[|bs| - 1].last + 1 else MaxEnd(bs)
  }

  /** The boundaries an encode job is expanded with: recomputed when adaptive chunking is on,
      some agent is listed and the frame count is positive. */
  function ChosenBoundaries(bs: seq<Boundary>, adaptive: bool, chunkSize: int, raw: seq<int>): seq<Boundary> {
    var total := TotalFrames(bs, chunkSize);
    if adaptive && raw != [] && total > 0 then Boundaries(raw, total) else bs
  }

  /** An encode job is re-chunked exactly if adaptive chunking is on, an agent is listed and some
      boundary ends above frame 0; what is split is all frames up to the highest end. */
  lemma RechunkedFrames(bs: seq<Boundary>, adaptive: bool, chunkSize: int, raw: seq<int>, end: int)
    requires end > 0 ==> exists i :: 0 <= i < |bs| && bs[i].last + 1 == end
    requires forall i :: 0 <= i < |bs| ==> bs[i].last + 1 <= end
    ensures ChosenBoundaries(bs, adaptive, chunkSize, raw)
         == if adaptive && raw != [] && end > 0 then Boundaries(raw, end) else bs
  {
    HighestEnd(bs, chunkSize, end);
  }

  lemma HighestEnd(bs: seq<Boundary>, chunkSize: int, end: int)
    requires end > 0 ==> exists i :: 0 <= i < |bs| && bs[i].last + 1 == end
    requires forall i :: 0 <= i < |bs| ==> bs[i].last + 1 <= end
    ensures if end > 0 then TotalFrames(bs, chunkSize) == end else TotalFrames(bs, chunkSize) <= 0
  {
  }

  lemma {:induction false} TileEndsGrow(bs: seq<Boundary>, start: int, end: int, i: nat)
    requires TilesFrom(bs, start, end) && i < |bs|
    ensures bs[i].last + 1 <= end
    decreases |bs| - i
  {
    if i < |bs| - 1 { TileEndsGrow(bs, start, end, i + 1); }
  }

  /** Re-chunking covers the same frames as the boundaries it replaces, exactly unless it splits a
      source shorter than the minimum chunk among several agents. */
  lemma RechunkingCoversSameFrames(bs: seq<Boundary>, adaptive: bool, chunkSize: int, raw: seq<int>, total: nat)
    requires TilesFrom(bs, 0, total)
    ensures TilesFrom(ChosenBoundaries(bs, adaptive, chunkSize, raw), 0, total)
       <==> !(adaptive && 0 < total < MIN_CHUNK && |raw| > 1)
  {
    forall i | 0 <= i < |bs| ensures bs[i].last + 1 <= total { TileEndsGrow(bs, 0, total, i); }
    assert bs[|bs| - 1].last + 1 == total;
    assert MaxEnd(bs) == total;
    if raw != [] { AdaptiveChunksTileExactly(raw, total); }
  }
}
