/**
 From an encode job's frame boundaries to the merged file: the chunk rows, the list of chunk files
 the merge is given, and the frames those files hold.
 */
module Frames {
  import opened Basics
  import opened Chunks
  import opened JobRows
  import opened Text

  /** Where an encode job writes. */
  datatype Target = Target(root: string, name: string, extension: string)

  function Directory(at: Target): string { at.root + "\\" + at.name + "\\" }

  function ChunkPath(at: Target, i: nat): string {
    Directory(at) + ("chunk_" + Pad4(i) + "." + at.extension)
  }

  function FinalPath(at: Target): string {
    Directory(at) + ("output." + at.extension)
  }

  function AllPaths(at: Target, n: nat): (paths: seq<string>)
    ensures |paths| == n && forall i :: 0 <= i < n ==> paths[i] == ChunkPath(at, i)
  {
    seq(n, i requires 0 <= i < n => ChunkPath(at, i))
  }

  lemma SameTail(a: string, b: string, c: string)
    requires a + b == a + c
    ensures b == c
  {
    assert (a + b)[|a|..] == b && (a + c)[|a|..] == c;
  }

  lemma SameHead(a: string, b: string, c: string)
    requires a + c == b + c
    ensures a == b
  {
    assert (a + c)[..|a|] == a && (b + c)[..|b|] == b;
  }

  /** No two files of a job share a path. */
  lemma PathsDistinct(at: Target, i: nat, k: nat)
    ensures ChunkPath(at, i) == ChunkPath(at, k) ==> i == k
    ensures ChunkPath(at, i) != FinalPath(at)
  {
    var a, b, tail := Pad4(i), Pad4(k), "." + at.extension;
    if ChunkPath(at, i) == ChunkPath(at, k) {
      SameTail(Directory(at), "chunk_" + a + "." + at.extension, "chunk_" + b + "." + at.extension);
      assert "chunk_" + a + "." + at.extension == "chunk_" + (a + tail);
      assert "chunk_" + b + "." + at.extension == "chunk_" + (b + tail);
      SameTail("chunk_", a + tail, b + tail);
      SameHead(a, b, tail);
      Pad4Injective(i, k);
    }
    if ChunkPath(at, i) == FinalPath(at) {
      var x, y := "chunk_" + a + "." + at.extension, "output." + at.extension;
      assert x[0] == 'c' && y[0] == 'o';
      SameTail(Directory(at), x, y);
    }
  }

  // ----- the rows of an encode job -----

  /** `ids` are the job's rows: chunk i at index i, and the concat row last. */
  predicate EncodeRows(tasks: seq<Task>, j: nat, ids: seq<nat>, at: Target) {
    && ids != []
    && (forall i :: 0 <= i < |ids| ==> RowOf(tasks, ids[i], j) && tasks[ids[i]].chunk == i)
    && (forall i :: 0 <= i < |ids| - 1 ==> tasks[ids[i]].kind == Encode && tasks[ids[i]].output == ChunkPath(at, i))
    && tasks[ids[|ids| - 1]].kind == Concat
  }

  ghost predicate OnlyRows(tasks: seq<Task>, j: nat, ids: seq<nat>) {
    forall t: nat :: RowOf(tasks, t, j) ==> t in ids
  }

  lemma {:induction false} NoRowAt(tasks: seq<Task>, j: nat, c: nat)
    requires forall t: nat :: RowOf(tasks, t, j) ==> tasks[t].chunk != c
    ensures RowsAt(tasks, j, c) == []
  {
    var ids := RowsAt(tasks, j, c);
    assert ids != [] ==> ids[0] in ids;
    RowsAtSound(tasks, j, c);
  }

  lemma {:induction false} OneRowAt(tasks: seq<Task>, j: nat, c: nat, t: nat)
    requires RowOf(tasks, t, j) && tasks[t].chunk == c
    requires forall u: nat :: RowOf(tasks, u, j) && tasks[u].chunk == c ==> u == t
    ensures RowsAt(tasks, j, c) == [t]
  {
    var n := |tasks| - 1;
    if t == n {
      forall u: nat | RowOf(tasks[..n], u, j) ensures tasks[..n][u].chunk != c { assert RowOf(tasks, u, j); }
      NoRowAt(tasks[..n], j, c);
    } else {
      assert RowOf(tasks[..n], t, j);
      forall u: nat | RowOf(tasks[..n], u, j) && tasks[..n][u].chunk == c ensures u == t { assert RowOf(tasks, u, j); }
      OneRowAt(tasks[..n], j, c, t);
    }
  }

  lemma RowAtIndex(tasks: seq<Task>, j: nat, ids: seq<nat>, at: Target, c: nat)
    requires EncodeRows(tasks, j, ids, at) && OnlyRows(tasks, j, ids) && c < |ids|
    ensures RowsAt(tasks, j, c) == [ids[c]]
  {
    forall u: nat | RowOf(tasks, u, j) && tasks[u].chunk == c ensures u == ids[c] {
      var i :| 0 <= i < |ids| && ids[i] == u;
    }
    OneRowAt(tasks, j, c, ids[c]);
  }

  lemma {:induction false} ListBelowIsRows(tasks: seq<Task>, j: nat, ids: seq<nat>, c: nat)
    requires c <= |ids| && forall i :: 0 <= i < |ids| ==> RowsAt(tasks, j, i) == [ids[i]]
    ensures ListBelow(tasks, j, c) == ids[..c]
  {
    if c > 0 {
      ListBelowIsRows(tasks, j, ids, c - 1);
      assert ids[..c] == ids[..c - 1] + [ids[c - 1]];
    }
  }

  lemma {:induction false} MaxChunkReached(tasks: seq<Task>, j: nat)
    ensures MaxChunk(tasks, j) == 0 || exists t: nat :: RowOf(tasks, t, j) && tasks[t].chunk == MaxChunk(tasks, j)
  {
    if tasks != [] {
      var n := |tasks| - 1;
      MaxChunkReached(tasks[..n], j);
      if RowOf(tasks, n, j) && tasks[n].chunk > MaxChunk(tasks[..n], j) {
      } else if MaxChunk(tasks[..n], j) != 0 {
        var t: nat :| RowOf(tasks[..n], t, j) && tasks[..n][t].chunk == MaxChunk(tasks[..n], j);
        assert RowOf(tasks, t, j);
      }
    }
  }

  /** The listing of an encode job is its chunk rows in order, then the concat row. */
  lemma ListingIsRows(tasks: seq<Task>, j: nat, ids: seq<nat>, at: Target)
    requires EncodeRows(tasks, j, ids, at) && OnlyRows(tasks, j, ids)
    ensures ListByJob(tasks, j) == ids
  {
    var n := |ids| - 1;
    MaxChunkIsMax(tasks, j);
    MaxChunkReached(tasks, j);
    assert RowOf(tasks, ids[n], j);
    if MaxChunk(tasks, j) != 0 {
      var t: nat :| RowOf(tasks, t, j) && tasks[t].chunk == MaxChunk(tasks, j);
      assert t in ids;
    }
    assert MaxChunk(tasks, j) == n;
    forall i | 0 <= i < |ids| ensures RowsAt(tasks, j, i) == [ids[i]] { RowAtIndex(tasks, j, ids, at, i); }
    ListBelowIsRows(tasks, j, ids, |ids|);
    assert ids[..|ids|] == ids;
  }

  // ----- the list of chunk files -----

  /** Of rows that are not merge rows, the list is all outputs exactly if all rows are completed. */
  lemma {:induction false} PathsOfPrefix(tasks: seq<Task>, ids: seq<nat>, want: seq<string>)
    requires |want| == |ids| && forall i :: 0 <= i < |ids| ==> ids[i] < |tasks|
    requires forall i :: 0 <= i < |ids| ==> tasks[ids[i]].kind != Concat && tasks[ids[i]].output == want[i]
    ensures |ChunkPaths(tasks, ids)| <= |ids|
    ensures ChunkPaths(tasks, ids) == want <==> forall i :: 0 <= i < |ids| ==> tasks[ids[i]].status == Completed
  {
    if ids != [] {
      var n := |ids| - 1;
      var rest := ChunkPaths(tasks, ids[..n]);
      PathsOfPrefix(tasks, ids[..n], want[..n]);
      assert want == want[..n] + [want[n]];
      if tasks[ids[n]].status == Completed {
        assert ChunkPaths(tasks, ids) == rest + [want[n]];
        assert rest + [want[n]] == want ==> rest == (rest + [want[n]])[..|rest|] == want[..n];
      } else {
        assert ChunkPaths(tasks, ids) == rest;
      }
    }
  }

  lemma {:induction false} FirstPendingIsLast(tasks: seq<Task>, ids: seq<nat>, kind: Kind)
    requires ids != [] && forall i :: 0 <= i < |ids| ==> ids[i] < |tasks|
    requires forall i :: 0 <= i < |ids| - 1 ==> tasks[ids[i]].kind != kind
    requires tasks[ids[|ids| - 1]].kind == kind && tasks[ids[|ids| - 1]].status == Pending
    ensures FirstPending(tasks, ids, kind) == Some(ids[|ids| - 1])
  {
    if |ids| > 1 { FirstPendingIsLast(tasks, ids[1..], kind); }
  }

  /** The recount under which a completion check merges: one pending row and nothing running or failed. */
  predicate ReadyToMerge(n: Counts) { n.pending == 1 && n.running == 0 && n.failed == 0 }

  ghost predicate NoneAssignedOrCancelled(tasks: seq<Task>, ids: seq<nat>)
    requires forall i :: 0 <= i < |ids| ==> ids[i] < |tasks|
  {
    forall i :: 0 <= i < |ids| ==> tasks[ids[i]].status != Assigned && tasks[ids[i]].status != Cancelled
  }

  lemma ChunkStatuses(tasks: seq<Task>, j: nat, ids: seq<nat>, at: Target, i: nat)
    requires EncodeRows(tasks, j, ids, at) && ReadyToMerge(Tally(tasks, j))
    requires tasks[ids[|ids| - 1]].status == Pending && i < |ids| - 1
    requires tasks[ids[i]].status != Waiting && tasks[ids[i]].status != Queued
    ensures tasks[ids[i]].status == Completed || tasks[ids[i]].status == Assigned || tasks[ids[i]].status == Cancelled
  {
    match tasks[ids[i]].status case _ =>
    var t, n := ids[i], ids[|ids| - 1];
    assert RowOf(tasks, t, j) && RowOf(tasks, n, j) && t != n;
    CountStatusOne(tasks, j, Pending, n);
    CountStatusZero(tasks, j, Running);
    CountStatusZero(tasks, j, Failed);
  }

  lemma AllChunksCompleted(tasks: seq<Task>, j: nat, ids: seq<nat>, at: Target)
    requires EncodeRows(tasks, j, ids, at) && ReadyToMerge(Tally(tasks, j))
    requires forall i :: 0 <= i < |ids| ==> tasks[ids[i]].status != Waiting && tasks[ids[i]].status != Queued
    requires tasks[ids[|ids| - 1]].status == Pending
    ensures (forall i :: 0 <= i < |ids| - 1 ==> tasks[ids[i]].status == Completed) <==> NoneAssignedOrCancelled(tasks, ids)
  {
    forall i | 0 <= i < |ids| - 1
      ensures tasks[ids[i]].status == Completed <==> tasks[ids[i]].status != Assigned && tasks[ids[i]].status != Cancelled
    {
      ChunkStatuses(tasks, j, ids, at, i);
    }
  }

  /** When a completion check finds the concat row as the one pending row, the concat row is the
      one it claims, and the merge is given every chunk's file, in chunk order and each once,
      exactly if no row is assigned or cancelled. */
  lemma MergeListIsComplete(tasks: seq<Task>, j: nat, ids: seq<nat>, at: Target)
    requires EncodeRows(tasks, j, ids, at) && OnlyRows(tasks, j, ids) && ReadyToMerge(Tally(tasks, j))
    requires forall i :: 0 <= i < |ids| ==> tasks[ids[i]].status != Waiting && tasks[ids[i]].status != Queued
    requires tasks[ids[|ids| - 1]].status == Pending
    ensures FirstPending(tasks, ListByJob(tasks, j), Concat) == Some(ids[|ids| - 1])
    ensures ChunkPaths(tasks, ListByJob(tasks, j)) == AllPaths(at, |ids| - 1) <==> NoneAssignedOrCancelled(tasks, ids)
  {
    ListingIsRows(tasks, j, ids, at);
    FirstPendingIsLast(tasks, ids, Concat);
    PathsOfPrefix(tasks, ids[..|ids| - 1], AllPaths(at, |ids| - 1));
    ConcatIsLast(tasks, ids);
    AllChunksCompleted(tasks, j, ids, at);
  }

  lemma ConcatIsLast(tasks: seq<Task>, ids: seq<nat>)
    requires ids != [] && forall i :: 0 <= i < |ids| ==> ids[i] < |tasks|
    ensures tasks[ids[|ids| - 1]].kind == Concat
         ==> ChunkPaths(tasks, ids) == ChunkPaths(tasks, ids[..|ids| - 1])
  {
  }

  // ----- what the files hold -----

  type Disk = map<string, seq<int>>

  /** The first n writes of files to a disk; write k is of file order[k]. */
  function WriteFirst(disk: Disk, paths: seq<string>, files: seq<seq<int>>, order: seq<nat>, n: nat): Disk
    requires |files| == |paths| && n <= |order| && forall k :: 0 <= k < |order| ==> order[k] < |paths|
  {
    if n == 0 then disk
    else WriteFirst(disk, paths, files, order, n - 1)[paths[order[n - 1]] := files[order[n - 1]]]
  }

  function AllFrames(bs: seq<Boundary>): (files: seq<seq<int>>)
    requires forall i :: 0 <= i < |bs| ==> Size(bs[i]) >= 0
    ensures |files| == |bs| && forall i :: 0 <= i < |bs| ==> files[i] == FramesOf(bs[i])
  {
    seq(|bs|, i requires 0 <= i < |bs| => FramesOf(bs[i]))
  }

  /** Agents write chunk files in any order, possibly more than once. */
  function WriteChunks(disk: Disk, at: Target, bs: seq<Boundary>, order: seq<nat>): Disk
    requires forall i :: 0 <= i < |bs| ==> Size(bs[i]) >= 0
    requires forall k :: 0 <= k < |order| ==> order[k] < |bs|
  {
    WriteFirst(disk, AllPaths(at, |bs|), AllFrames(bs), order, |order|)
  }

  lemma {:induction false} WrittenFile(disk: Disk, paths: seq<string>, files: seq<seq<int>>, order: seq<nat>, k: nat, n: nat)
    requires |files| == |paths| && k < n <= |order| && forall k :: 0 <= k < |order| ==> order[k] < |paths|
    requires forall i, m :: 0 <= i < m < |paths| ==> paths[i] != paths[m]
    ensures var d := WriteFirst(disk, paths, files, order, n); paths[order[k]] in d && d[paths[order[k]]] == files[order[k]]
  {
    if k < n - 1 { WrittenFile(disk, paths, files, order, k, n - 1); }
  }

  lemma WrittenChunk(disk: Disk, at: Target, bs: seq<Boundary>, order: seq<nat>, i: nat)
    requires forall i :: 0 <= i < |bs| ==> Size(bs[i]) >= 0
    requires forall k :: 0 <= k < |order| ==> order[k] < |bs|
    requires i in order
    ensures var d := WriteChunks(disk, at, bs, order);
            ChunkPath(at, i) in d && d[ChunkPath(at, i)] == FramesOf(bs[i])
  {
    var paths := AllPaths(at, |bs|);
    var k :| 0 <= k < |order| && order[k] == i;
    forall i, m | 0 <= i < m < |paths| ensures paths[i] != paths[m] { PathsDistinct(at, i, m); }
    WrittenFile(disk, paths, AllFrames(bs), order, k, |order|);
  }

  function FilesOf(disk: Disk, paths: seq<string>): (parts: seq<seq<int>>)
    requires forall i :: 0 <= i < |paths| ==> paths[i] in disk
    ensures |parts| == |paths| && forall i :: 0 <= i < |paths| ==> parts[i] == disk[paths[i]]
  {
    seq(|paths|, i requires 0 <= i < |paths| => disk[paths[i]])
  }

  /** The frames of the merged file. */
  function Merge(disk: Disk, paths: seq<string>): seq<int>
    requires forall i :: 0 <= i < |paths| ==> paths[i] in disk
  {
    Flatten(FilesOf(disk, paths))
  }

  /** If the boundaries tile frames 0..total-1 and every chunk was encoded, merging all chunk files
      yields frames 0..total-1, in order, whatever the order the chunks were written in. */
  lemma AllPathsAreTheSource(at: Target, bs: seq<Boundary>, total: nat, disk: Disk, order: seq<nat>)
    requires TilesFrom(bs, 0, total)
    requires forall k :: 0 <= k < |order| ==> order[k] < |bs|
    requires forall i: nat :: i < |bs| ==> i in order
    ensures var paths, d := AllPaths(at, |bs|), WriteChunks(disk, at, bs, order);
            (forall i :: 0 <= i < |paths| ==> paths[i] in d) && Merge(d, paths) == FrameRange(0, total)
  {
    AllWritten(disk, at, bs, order);
    TilesAreAllFrames(bs, FilesOf(WriteChunks(disk, at, bs, order), AllPaths(at, |bs|)), 0, total);
  }

  // ----- a merge of some of the files -----

  predicate HasChunkFiles(disk: Disk, at: Target, bs: seq<Boundary>) {
    forall i: nat :: i < |bs| ==> Size(bs[i]) >= 0 && ChunkPath(at, i) in disk && disk[ChunkPath(at, i)] == FramesOf(bs[i])
  }

  predicate AreChunkRows(tasks: seq<Task>, ids: seq<nat>, at: Target) {
    forall i :: 0 <= i < |ids| ==> ids[i] < |tasks| && tasks[ids[i]].kind != Concat && tasks[ids[i]].output == ChunkPath(at, i)
  }

  lemma MergeAppend(disk: Disk, paths: seq<string>, p: string)
    requires (forall i :: 0 <= i < |paths| ==> paths[i] in disk) && p in disk
    ensures forall i :: 0 <= i < |paths + [p]| ==> (paths + [p])[i] in disk
    ensures Merge(disk, paths + [p]) == Merge(disk, paths) + disk[p]
  {
    var all := FilesOf(disk, paths + [p]);
    assert all[..|paths|] == FilesOf(disk, paths);
  }

  function EndOf(bs: seq<Boundary>): int { if bs == [] then 0 else bs[|bs| - 1].last + 1 }

  predicate AllIn(disk: Disk, paths: seq<string>) { forall i :: 0 <= i < |paths| ==> paths[i] in disk }

  lemma MergeStep(disk: Disk, paths: seq<string>, p: string, done: bool, b: Boundary)
    requires AllIn(disk, paths) && p in disk && Size(b) >= 0 && disk[p] == FramesOf(b) && |Merge(disk, paths)| <= b.first
    ensures var paths' := if done then paths + [p] else paths;
            && AllIn(disk, paths') && |Merge(disk, paths')| <= b.last + 1
            && (|Merge(disk, paths')| == b.last + 1 && Size(b) > 0 ==> done && |Merge(disk, paths)| == b.first)
  {
    if done { MergeAppend(disk, paths, p); }
  }

  predicate NoneEmpty(bs: seq<Boundary>) { forall i :: 0 <= i < |bs| ==> Size(bs[i]) > 0 }

  predicate Contiguous(bs: seq<Boundary>) { bs != [] ==> TilesFrom(bs, 0, EndOf(bs)) }

  lemma ContiguousPrefix(bs: seq<Boundary>)
    requires bs != [] && Contiguous(bs)
    ensures Contiguous(bs[..|bs| - 1]) && EndOf(bs[..|bs| - 1]) == bs[|bs| - 1].first
  {
  }

  ghost predicate RowsDone(tasks: seq<Task>, ids: seq<nat>)
    requires forall i :: 0 <= i < |ids| ==> ids[i] < |tasks|
  {
    forall i :: 0 <= i < |ids| ==> tasks[ids[i]].status == Completed
  }

  lemma {:induction false} PartialMerge(tasks: seq<Task>, ids: seq<nat>, at: Target, bs: seq<Boundary>, disk: Disk)
    requires AreChunkRows(tasks, ids, at) && |ids| == |bs| && HasChunkFiles(disk, at, bs) && Contiguous(bs)
    ensures var paths := ChunkPaths(tasks, ids);
            && AllIn(disk, paths) && |Merge(disk, paths)| <= EndOf(bs)
            && (|Merge(disk, paths)| == EndOf(bs) && NoneEmpty(bs) ==> RowsDone(tasks, ids))
  {
    if ids != [] {
      var n := |ids| - 1;
      var rest := ChunkPaths(tasks, ids[..n]);
      ContiguousPrefix(bs);
      PartialMerge(tasks, ids[..n], at, bs[..n], disk);
      var done := tasks[ids[n]].status == Completed;
      MergeStep(disk, rest, ChunkPath(at, n), done, bs[n]);
      PathsWithLast(tasks, ids, ChunkPath(at, n));
      if NoneEmpty(bs) { assert NoneEmpty(bs[..n]); }
    }
  }

  lemma PathsWithLast(tasks: seq<Task>, ids: seq<nat>, p: string)
    requires ids != [] && forall i :: 0 <= i < |ids| ==> ids[i] < |tasks|
    requires tasks[ids[|ids| - 1]].kind != Concat && tasks[ids[|ids| - 1]].output == p
    ensures var rest := ChunkPaths(tasks, ids[..|ids| - 1]);
            ChunkPaths(tasks, ids) == if tasks[ids[|ids| - 1]].status == Completed then rest + [p] else rest
  {
  }

  lemma AllWritten(disk: Disk, at: Target, bs: seq<Boundary>, order: seq<nat>)
    requires forall i :: 0 <= i < |bs| ==> Size(bs[i]) >= 0
    requires forall k :: 0 <= k < |order| ==> order[k] < |bs|
    requires forall i: nat :: i < |bs| ==> i in order
    ensures HasChunkFiles(WriteChunks(disk, at, bs, order), at, bs)
  {
    forall i: nat | i < |bs|
      ensures var d := WriteChunks(disk, at, bs, order); ChunkPath(at, i) in d && d[ChunkPath(at, i)] == FramesOf(bs[i])
    {
      WrittenChunk(disk, at, bs, order, i);
    }
  }

  /** Merging the files of the completed chunk rows of an encode job yields all frames only if every
      chunk row is completed, unless some chunk is empty. */
  lemma MergeOfSome(tasks: seq<Task>, j: nat, ids: seq<nat>, at: Target, bs: seq<Boundary>, total: nat, disk: Disk)
    requires EncodeRows(tasks, j, ids, at) && |ids| == |bs| + 1 && TilesFrom(bs, 0, total) && HasChunkFiles(disk, at, bs)
    ensures var paths := ChunkPaths(tasks, ids);
            && AllIn(disk, paths)
            && (NoneEmpty(bs) && Merge(disk, paths) == FrameRange(0, total) ==> RowsDone(tasks, ids[..|bs|]))
  {
    ConcatIsLast(tasks, ids);
    PartialMerge(tasks, ids[..|bs|], at, bs, disk);
  }

  /** If the boundaries tile frames 0..total-1 and every chunk was encoded, the merge that a
      completion check starts with no row assigned or cancelled yields frames 0..total-1, in order. */
  lemma MergedFileIsTheSource(tasks: seq<Task>, j: nat, ids: seq<nat>, at: Target, bs: seq<Boundary>,
                              total: nat, disk: Disk, order: seq<nat>)
    requires EncodeRows(tasks, j, ids, at) && OnlyRows(tasks, j, ids) && ReadyToMerge(Tally(tasks, j))
    requires forall i :: 0 <= i < |ids| ==> tasks[ids[i]].status != Waiting && tasks[ids[i]].status != Queued
    requires tasks[ids[|ids| - 1]].status == Pending && NoneAssignedOrCancelled(tasks, ids)
    requires |ids| == |bs| + 1 && TilesFrom(bs, 0, total)
    requires forall k :: 0 <= k < |order| ==> order[k] < |bs|
    requires forall i: nat :: i < |bs| ==> i in order
    ensures var paths := ChunkPaths(tasks, ListByJob(tasks, j));
            var d := WriteChunks(disk, at, bs, order);
            (forall i :: 0 <= i < |paths| ==> paths[i] in d) && Merge(d, paths) == FrameRange(0, total)
  {
    MergeListIsComplete(tasks, j, ids, at);
    AllPathsAreTheSource(at, bs, total, disk, order);
  }
}
