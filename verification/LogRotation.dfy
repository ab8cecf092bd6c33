/**
 The agent's size-based rotating log writer over a directory of named files.
 */
module LogRotation {
  import opened Basics
  import opened Text

  type Bytes = seq<bv8>
  type Directory = map<string, Bytes>

  function Backup(name: string, n: nat): (r: string)
    ensures |r| > |name| && r[..|name|] == name
  {
    name + ("." + Digits(n))
  }

  lemma BackupInjective(name: string, m: nat, n: nat)
    requires Backup(name, m) == Backup(name, n)
    ensures m == n
  {
    assert Backup(name, m)[|name| + 1..] == Digits(m);
    assert Backup(name, n)[|name| + 1..] == Digits(n);
    DigitsInjective(m, n);
  }

  // ----- the steps of a rotation -----

  function Remove(dir: Directory, name: string): Directory { dir - {name} }

  /** os.Rename: nothing happens when the source is missing, an existing target is replaced. */
  function Rename(dir: Directory, from: string, to: string): Directory {
    if from in dir then (dir - {from})[to := dir[from]] else dir
  }

  function ShiftOne(dir: Directory, name: string, i: nat): Directory {
    Rename(Remove(dir, Backup(name, i + 1)), Backup(name, i), Backup(name, i + 1))
  }

  /** Backup i becomes backup i+1, then backup i-1 becomes backup i, down to backup 1. */
  function Shift(dir: Directory, name: string, i: nat): Directory
    decreases i
  {
    if i == 0 then dir else Shift(ShiftOne(dir, name, i), name, i - 1)
  }

  /** The lexicographic order of sort.Strings. */
  predicate SortsBefore(a: string, b: string) {
    b != "" && (a == "" || a[0] < b[0] || (a[0] == b[0] && SortsBefore(a[1..], b[1..])))
  }

  function Backups(dir: Directory, name: string): set<string> {
    set n | n in dir && HasPrefix(n, name + ".")
  }

  predicate SortsLast(names: set<string>, x: string) {
    x in names && forall n :: n in names && n != x ==> SortsBefore(n, x)
  }

  lemma {:induction false} SortsTotal(a: string, b: string)
    requires a != b
    ensures SortsBefore(a, b) || SortsBefore(b, a)
  {
    if a != "" && b != "" && a[0] == b[0] {
      assert a == [a[0]] + a[1..] && b == [b[0]] + b[1..];
      SortsTotal(a[1..], b[1..]);
    }
  }

  lemma {:induction false} SortsTransitive(a: string, b: string, c: string)
    requires SortsBefore(a, b) && SortsBefore(b, c)
    ensures SortsBefore(a, c)
  {
    if a != "" && a[0] == b[0] && b[0] == c[0] { SortsTransitive(a[1..], b[1..], c[1..]); }
  }

  lemma {:induction false} SortsAsymmetric(a: string, b: string)
    requires SortsBefore(a, b)
    ensures !SortsBefore(b, a)
  {
    if a != "" && a[0] == b[0] { SortsAsymmetric(a[1..], b[1..]); }
  }

  lemma {:induction false} LastExists(names: set<string>) returns (x: string)
    requires names != {}
    ensures SortsLast(names, x)
  {
    var y :| y in names;
    var rest := names - {y};
    x := y;
    assert names == rest + {y};
    if rest != {} {
      var z := LastExists(rest);
      SortsTotal(z, y);
      x := if SortsBefore(z, y) then y else z;
      forall n | n in names && n != x ensures SortsBefore(n, x) {
        if n != z && n != y {
          assert n in rest;
          if x == y { SortsTransitive(n, z, y); }
        }
      }
    }
  }

  lemma SomeLast(names: set<string>)
    requires names != {}
    ensures exists x :: SortsLast(names, x)
  {
    var x := LastExists(names);
  }

  lemma LastUnique(names: set<string>)
    ensures forall x, y :: SortsLast(names, x) && SortsLast(names, y) ==> x == y
  {
    forall x, y | SortsLast(names, x) && SortsLast(names, y) ensures x == y {
      if x != y { SortsAsymmetric(x, y); }
    }
  }

  // ----- what shifting does -----

  predicate SameAt(a: Directory, b: Directory, n: string, m: string) {
    (n in a <==> m in b) && (n in a ==> a[n] == b[m])
  }

  lemma {:induction false} ShiftElse(dir: Directory, name: string, i: nat, n: string)
    requires forall k: nat :: 1 <= k <= i + 1 ==> n != Backup(name, k)
    ensures SameAt(Shift(dir, name, i), dir, n, n)
    decreases i
  {
    if i > 0 {
      assert n != Backup(name, i) && n != Backup(name, i + 1);
      ShiftElse(ShiftOne(dir, name, i), name, i - 1, n);
    }
  }

  lemma BackupUnique(name: string, n: nat)
    ensures forall k: nat :: Backup(name, k) == Backup(name, n) ==> k == n
  {
    forall k: nat | Backup(name, k) == Backup(name, n) ensures k == n { BackupInjective(name, k, n); }
  }

  /** After shifting from i down, backup k+1 is what backup k was. */
  lemma {:induction false} ShiftMoves(dir: Directory, name: string, i: nat, k: nat)
    requires 1 <= k <= i
    ensures SameAt(Shift(dir, name, i), dir, Backup(name, k + 1), Backup(name, k))
    decreases i
  {
    var d := ShiftOne(dir, name, i);
    if k < i {
      BackupUnique(name, k);
      ShiftMoves(d, name, i - 1, k);
    } else {
      BackupUnique(name, k + 1);
      ShiftElse(d, name, i - 1, Backup(name, k + 1));
    }
  }

  // ----- a rotation -----

  /** The directory after the excess backups, last in name order first, are removed. */
  function RemoveExcess(dir: Directory, name: string, max: nat): Directory
    decreases |dir|
  {
    var names := Backups(dir, name);
    if |names| <= max then dir
    else
      assert names != {};
      SomeLast(names);
      LastUnique(names);
      var x :| SortsLast(names, x);
      RemoveExcess(dir - {x}, name, max)
  }

  /** The directory after a rotation, before the fresh current file is opened. */
  function Rotated(dir: Directory, name: string, max: nat): Directory
    requires max > 0
  {
    RemoveExcess(Rename(Shift(dir, name, max - 1), name, Backup(name, 1)), name, max)
  }

  // ----- the kept part of the stream -----

  function Flat(parts: seq<Bytes>): Bytes {
    if parts == [] then [] else Flat(parts[..|parts| - 1]) + parts[|parts| - 1]
  }

  function Kept(groups: seq<seq<Bytes>>, max: nat): nat
    requires groups != []
  {
    if |groups| - 1 < max then |groups| - 1 else max
  }

  /** Every file is one of the backups 1 .. k. */
  ghost predicate Numbered(names: set<string>, name: string, k: nat) {
    forall f :: f in names ==> exists i: nat :: 1 <= i <= k && f == Backup(name, i)
  }

  ghost predicate NamesWithin(names: set<string>, name: string, k: nat) {
    forall f :: f in names ==> f == name || exists i: nat :: 1 <= i <= k && f == Backup(name, i)
  }

  /** Backup i holds the i-th group from the end. */
  ghost predicate BackupsHold(dir: Directory, name: string, k: nat, groups: seq<seq<Bytes>>) {
    k < |groups| && forall i: nat :: 1 <= i <= k ==> Backup(name, i) in dir && dir[Backup(name, i)] == Flat(groups[|groups| - 1 - i])
  }

  /** `groups` are the writes that went to each file, oldest file first, the current file last.  The
      directory holds the current file and the newest `max` backups, byte for byte, and no other file. */
  ghost predicate Holds(dir: Directory, name: string, max: nat, groups: seq<seq<Bytes>>) {
    forall x :: Look(x) ==>
      && groups != [] && name in dir && dir[name] == Flat(groups[|groups| - 1])
      && BackupsHold(dir, name, Kept(groups, max), groups) && NamesWithin(dir.Keys, name, Kept(groups, max))
  }

  /** A file grows past the limit only by being a single write. */
  ghost predicate Limited(groups: seq<seq<Bytes>>, maxBytes: int) {
    forall i :: 0 <= i < |groups| ==> |Flat(groups[i])| <= maxBytes || |groups[i]| == 1
  }

  lemma {:induction false} FewBackups(names: set<string>, name: string, k: nat)
    requires Numbered(names, name, k)
    ensures |names| <= k
    decreases k
  {
    if k == 0 {
      assert names == {};
    } else {
      var rest := names - {Backup(name, k)};
      forall f | f in rest ensures exists i: nat :: 1 <= i <= k - 1 && f == Backup(name, i) {
        var i: nat :| 1 <= i <= k && f == Backup(name, i);
        assert i <= k - 1;
      }
      FewBackups(rest, name, k - 1);
      assert names <= rest + {Backup(name, k)};
      CardinalityBound(names, rest, Backup(name, k));
    }
  }

  lemma CardinalityBound(names: set<string>, rest: set<string>, x: string)
    requires rest == names - {x}
    ensures |names| <= |rest| + 1
  {
  }

  /** Where nothing but the kept files is found, the clean-up removes nothing. */
  lemma NothingExcess(dir: Directory, name: string, max: nat, k: nat)
    requires k <= max && Numbered(dir.Keys, name, k)
    ensures RemoveExcess(dir, name, max) == dir
  {
    FewBackups(Backups(dir, name), name, k);
  }

  /** Before the clean-up of a rotation: the current file is backup 1 and every kept backup moved up. */
  function Moved(dir: Directory, name: string, max: nat): Directory
    requires max > 0
  {
    Rename(Shift(dir, name, max - 1), name, Backup(name, 1))
  }

  lemma ShiftKeepsCurrent(dir: Directory, name: string, i: nat)
    ensures SameAt(Shift(dir, name, i), dir, name, name)
  {
    ShiftElse(dir, name, i, name);
  }

  lemma MovedAt(dir: Directory, name: string, max: nat, k: nat)
    requires name in dir && 1 <= k <= max
    ensures k == 1 ==> Backup(name, k) in Moved(dir, name, max) && Moved(dir, name, max)[Backup(name, k)] == dir[name]
    ensures k > 1 ==> SameAt(Moved(dir, name, max), dir, Backup(name, k), Backup(name, k - 1))
  {
    ShiftKeepsCurrent(dir, name, max - 1);
    if k > 1 {
      ShiftMoves(dir, name, max - 1, k - 1);
      BackupUnique(name, k);
    }
  }

  lemma MovedElse(dir: Directory, name: string, max: nat, f: string)
    requires max > 0 && f in Moved(dir, name, max)
    requires forall k: nat :: 1 <= k <= max ==> f != Backup(name, k)
    ensures f in dir && f != name
  {
    assert f != Backup(name, 1);
    ShiftKeepsCurrent(dir, name, max - 1);
    ShiftElse(dir, name, max - 1, f);
  }

  lemma MovedNames(dir: Directory, name: string, max: nat, groups: seq<seq<Bytes>>, f: string) returns (i: nat)
    requires max > 0 && Holds(dir, name, max, groups) && f in Moved(dir, name, max)
    ensures groups != [] && 1 <= i <= Kept(groups + [[]], max) && f == Backup(name, i)
  {
    assert Look(0);
    i := 1;
    if k: nat :| 1 <= k <= max && f == Backup(name, k) {
      i := k;
      MovedAt(dir, name, max, k);
      if k > 1 {
        var j: nat :| 1 <= j <= Kept(groups, max) && Backup(name, k - 1) == Backup(name, j);
        BackupInjective(name, k - 1, j);
      }
    } else {
      MovedElse(dir, name, max, f);
      assert false;
    }
  }

  function Opened(dir: Directory, name: string): Directory {
    if name in dir then dir else dir[name := []]
  }

  lemma OpenedHolds(m: Directory, name: string, max: nat, groups: seq<seq<Bytes>>)
    requires groups != [] && groups[|groups| - 1] == [] && name !in m
    requires Numbered(m.Keys, name, Kept(groups, max)) && BackupsHold(m, name, Kept(groups, max), groups)
    ensures Holds(Opened(m, name), name, max, groups)
  {
    assert Flat([]) == [];
  }

  lemma MovedNumbered(dir: Directory, name: string, max: nat, groups: seq<seq<Bytes>>)
    requires max > 0 && groups != [] && Holds(dir, name, max, groups)
    ensures Numbered(Moved(dir, name, max).Keys, name, Kept(groups + [[]], max))
    ensures name !in Moved(dir, name, max)
  {
    var m := Moved(dir, name, max);
    forall f | f in m ensures f != name && exists i: nat :: 1 <= i <= Kept(groups + [[]], max) && f == Backup(name, i) {
      var i := MovedNames(dir, name, max, groups, f);
    }
  }

  lemma MovedHolds(dir: Directory, name: string, max: nat, groups: seq<seq<Bytes>>, k: nat)
    requires max > 0 && groups != [] && Holds(dir, name, max, groups) && 1 <= k <= Kept(groups + [[]], max)
    ensures Backup(name, k) in Moved(dir, name, max)
    ensures Moved(dir, name, max)[Backup(name, k)] == Flat(groups[|groups| - k])
  {
    assert Look(0);
    MovedAt(dir, name, max, k);
  }

  lemma MovedBackupsHold(dir: Directory, name: string, max: nat, groups: seq<seq<Bytes>>)
    requires max > 0 && groups != [] && Holds(dir, name, max, groups)
    ensures BackupsHold(Moved(dir, name, max), name, Kept(groups + [[]], max), groups + [[]])
  {
    forall k: nat | 1 <= k <= Kept(groups + [[]], max)
      ensures Backup(name, k) in Moved(dir, name, max) && Moved(dir, name, max)[Backup(name, k)] == Flat((groups + [[]])[|groups| - k])
    {
      MovedHolds(dir, name, max, groups, k);
    }
  }

  /** A rotation keeps the newest `max` backups and starts an empty current file; the clean-up finds
      nothing to remove. */
  lemma RotationHolds(dir: Directory, name: string, max: nat, groups: seq<seq<Bytes>>)
    requires max > 0 && groups != [] && Holds(dir, name, max, groups)
    ensures Rotated(dir, name, max) == Moved(dir, name, max)
    ensures Holds(Opened(Rotated(dir, name, max), name), name, max, groups + [[]])
  {
    var m, groups' := Moved(dir, name, max), groups + [[]];
    MovedNumbered(dir, name, max, groups);
    NothingExcess(m, name, max, Kept(groups', max));
    MovedBackupsHold(dir, name, max, groups);
    OpenedHolds(m, name, max, groups');
  }

  // ----- writes -----

  predicate NeedsRotation(size: int, maxBytes: int, p: Bytes) { size + |p| > maxBytes }

  /** The directory after one Write. */
  function Written(dir: Directory, name: string, maxBytes: int, max: nat, p: Bytes): Directory
    requires max > 0 && name in dir
  {
    var d := if NeedsRotation(|dir[name]|, maxBytes, p) then Opened(Rotated(dir, name, max), name) else dir;
    d[name := d[name] + p]
  }

  /** How a stream of writes falls into files: a write starts a new file when it would push the
      current one past the limit. */
  function Groups(ps: seq<Bytes>, maxBytes: int): (groups: seq<seq<Bytes>>)
    ensures groups != []
  {
    if ps == [] then [[]]
    else
      var p, g := ps[|ps| - 1], Groups(ps[..|ps| - 1], maxBytes);
      AddWrite(g, NeedsRotation(|Flat(g[|g| - 1])|, maxBytes, p), p)
  }

  function AddWrite(g: seq<seq<Bytes>>, rotate: bool, p: Bytes): (r: seq<seq<Bytes>>)
    requires g != []
    ensures r != []
  {
    if rotate then g + [[p]] else g[|g| - 1 := g[|g| - 1] + [p]]
  }

  lemma FlatAppend(ps: seq<Bytes>, p: Bytes)
    ensures Flat(ps + [p]) == Flat(ps) + p
  {
    assert (ps + [p])[..|ps|] == ps;
  }

  lemma AppendHolds(dir: Directory, name: string, max: nat, groups: seq<seq<Bytes>>, p: Bytes)
    requires groups != [] && Holds(dir, name, max, groups) && name in dir
    ensures Holds(dir[name := dir[name] + p], name, max, AddWrite(groups, false, p))
  {
    var n := |groups| - 1;
    FlatAppend(groups[n], p);
    assert dir[name] + p == Flat(groups[n] + [p]) by { assert Look(0); }
    ReplaceLast(dir, name, max, groups, groups[n] + [p], dir[name] + p);
  }

  lemma ReplaceLast(dir: Directory, name: string, max: nat, groups: seq<seq<Bytes>>, last: seq<Bytes>, content: Bytes)
    requires groups != [] && Holds(dir, name, max, groups) && name in dir && content == Flat(last)
    ensures Holds(dir[name := content], name, max, groups[|groups| - 1 := last])
  {
    var dir', groups', k := dir[name := content], groups[|groups| - 1 := last], Kept(groups, max);
    assert BackupsHold(dir, name, k, groups) && NamesWithin(dir.Keys, name, k) by { assert Look(0); }
    BackupsStay(dir, name, k, groups, last, content);
    assert dir'.Keys == dir.Keys;
  }

  lemma BackupsStay(dir: Directory, name: string, k: nat, groups: seq<seq<Bytes>>, last: seq<Bytes>, content: Bytes)
    requires groups != [] && BackupsHold(dir, name, k, groups)
    ensures BackupsHold(dir[name := content], name, k, groups[|groups| - 1 := last])
  {
    forall i: nat | 1 <= i <= k
      ensures Backup(name, i) in dir && dir[name := content][Backup(name, i)] == Flat(groups[|groups| - 1 := last][|groups| - 1 - i])
    {
      assert Backup(name, i) != name;
    }
  }

  lemma WriteHolds(dir: Directory, name: string, maxBytes: int, max: nat, groups: seq<seq<Bytes>>, p: Bytes)
    requires max > 0 && groups != [] && Holds(dir, name, max, groups) && name in dir
    ensures Holds(Written(dir, name, maxBytes, max, p), name, max,
                  AddWrite(groups, NeedsRotation(|Flat(groups[|groups| - 1])|, maxBytes, p), p))
  {
    assert dir[name] == Flat(groups[|groups| - 1]) by { assert Look(0); }
    if NeedsRotation(|dir[name]|, maxBytes, p) {
      RotationHolds(dir, name, max, groups);
      AppendHolds(Opened(Rotated(dir, name, max), name), name, max, groups + [[]], p);
      assert [] + [p] == [p];
      assert AddWrite(groups + [[]], false, p) == groups + [[p]];
    } else {
      AppendHolds(dir, name, max, groups, p);
    }
  }

  function WriteAll(name: string, maxBytes: int, max: nat, ps: seq<Bytes>): (dir: Directory)
    requires max > 0
    ensures name in dir
  {
    if ps == [] then map[name := []]
    else Written(WriteAll(name, maxBytes, max, ps[..|ps| - 1]), name, maxBytes, max, ps[|ps| - 1])
  }

  lemma {:induction false} WriteAllHolds(name: string, maxBytes: int, max: nat, ps: seq<Bytes>)
    requires max > 0
    ensures Holds(WriteAll(name, maxBytes, max, ps), name, max, Groups(ps, maxBytes))
  {
    if ps == [] {
      assert Flat([]) == [];
    } else {
      var qs := ps[..|ps| - 1];
      WriteAllHolds(name, maxBytes, max, qs);
      WriteHolds(WriteAll(name, maxBytes, max, qs), name, maxBytes, max, Groups(qs, maxBytes), ps[|ps| - 1]);
    }
  }

  function Concat(groups: seq<seq<Bytes>>): seq<Bytes> {
    if groups == [] then [] else Concat(groups[..|groups| - 1]) + groups[|groups| - 1]
  }

  /** Every write is in exactly one file, in order. */
  lemma {:induction false} GroupsSplitStream(ps: seq<Bytes>, maxBytes: int)
    ensures Concat(Groups(ps, maxBytes)) == ps
  {
    if ps == [] {
      assert Groups(ps, maxBytes)[..0] == [];
    } else {
      var qs, p := ps[..|ps| - 1], ps[|ps| - 1];
      var g := Groups(qs, maxBytes);
      GroupsSplitStream(qs, maxBytes);
      var rotate := NeedsRotation(|Flat(g[|g| - 1])|, maxBytes, p);
      GroupsUnfold(ps, maxBytes);
      AddWriteConcat(g, rotate, p);
      assert ps == qs + [p];
    }
  }

  lemma GroupsUnfold(ps: seq<Bytes>, maxBytes: int)
    requires ps != []
    ensures var p, g := ps[|ps| - 1], Groups(ps[..|ps| - 1], maxBytes);
            Groups(ps, maxBytes) == AddWrite(g, NeedsRotation(|Flat(g[|g| - 1])|, maxBytes, p), p)
  {
  }

  lemma AddWriteLimited(g: seq<seq<Bytes>>, rotate: bool, maxBytes: int, p: Bytes)
    requires g != [] && Limited(g, maxBytes) && rotate == NeedsRotation(|Flat(g[|g| - 1])|, maxBytes, p)
    ensures Limited(AddWrite(g, rotate, p), maxBytes)
  {
    FlatAppend(g[|g| - 1], p);
    var r := AddWrite(g, rotate, p);
    forall i | 0 <= i < |r| ensures |Flat(r[i])| <= maxBytes || |r[i]| == 1 {
      if i < |g| - 1 { assert r[i] == g[i]; }
    }
  }

  /** A file past the limit is a single write. */
  lemma {:induction false} GroupsAreLimited(ps: seq<Bytes>, maxBytes: int)
    requires maxBytes >= 0
    ensures Limited(Groups(ps, maxBytes), maxBytes)
  {
    if ps == [] {
      assert Flat([]) == [];
    } else {
      var n := |ps| - 1;
      var g := Groups(ps[..n], maxBytes);
      GroupsAreLimited(ps[..n], maxBytes);
      AddWriteLimited(g, NeedsRotation(|Flat(g[|g| - 1])|, maxBytes, ps[n]), maxBytes, ps[n]);
    }
  }

  /** Every file but the first starts with a write the one before it had no room for. */
  ghost predicate Needed(g: seq<seq<Bytes>>, maxBytes: int) {
    forall i :: 0 < i < |g| ==> g[i] != [] && |Flat(g[i - 1])| + |g[i][0]| > maxBytes
  }

  lemma AddWriteNeeded(g: seq<seq<Bytes>>, maxBytes: int, p: Bytes)
    requires g != [] && Needed(g, maxBytes)
    ensures Needed(AddWrite(g, NeedsRotation(|Flat(g[|g| - 1])|, maxBytes, p), p), maxBytes)
  {
    var n := |g| - 1;
    var r := AddWrite(g, NeedsRotation(|Flat(g[n])|, maxBytes, p), p);
    forall i | 0 < i < |r| ensures r[i] != [] && |Flat(r[i - 1])| + |r[i][0]| > maxBytes {
      assert i <= n ==> r[i - 1] == g[i - 1] && g[i] != [] && r[i][0] == g[i][0];
    }
  }

  /** The log is rotated only when it has to be. */
  lemma {:induction false} RotationsAreNeeded(ps: seq<Bytes>, maxBytes: int)
    ensures Needed(Groups(ps, maxBytes), maxBytes)
  {
    if ps != [] {
      RotationsAreNeeded(ps[..|ps| - 1], maxBytes);
      AddWriteNeeded(Groups(ps[..|ps| - 1], maxBytes), maxBytes, ps[|ps| - 1]);
      GroupsUnfold(ps, maxBytes);
    }
  }

  lemma AddWriteConcat(g: seq<seq<Bytes>>, rotate: bool, p: Bytes)
    requires g != []
    ensures Concat(AddWrite(g, rotate, p)) == Concat(g) + [p]
  {
    var r := AddWrite(g, rotate, p);
    if rotate { assert r[..|g|] == g; } else { assert r[..|g| - 1] == g[..|g| - 1]; }
  }

  predicate HasBackups(dir: Directory, name: string, k: nat) {
    name in dir && forall i: nat :: 1 <= i <= k ==> Backup(name, i) in dir
  }

  /** The backups from number k down to 1, then the current file. */
  function OldestToCurrent(dir: Directory, name: string, k: nat): Bytes
    requires HasBackups(dir, name, k)
  {
    if k == 0 then dir[name] else dir[Backup(name, k)] + OldestToCurrent(dir, name, k - 1)
  }

  lemma {:induction false} FlatSplits(a: seq<Bytes>, b: seq<Bytes>)
    ensures Flat(a + b) == Flat(a) + Flat(b)
  {
    if b == [] {
      assert a + b == a;
    } else {
      FlatSplits(a, b[..|b| - 1]);
      assert (a + b)[..|a + b| - 1] == a + b[..|b| - 1];
    }
  }

  lemma {:induction false} ConcatHead(groups: seq<seq<Bytes>>)
    requires groups != []
    ensures Concat(groups) == groups[0] + Concat(groups[1..])
  {
    var n := |groups| - 1;
    if n > 0 {
      ConcatHead(groups[..n]);
      assert groups[..n][1..] == groups[1..][..n - 1];
    } else {
      assert groups[..0] == [] && groups[1..] == [];
    }
  }

  lemma {:induction false} ConcatTail(groups: seq<seq<Bytes>>, i: nat)
    requires i <= |groups|
    ensures Concat(groups) == Concat(groups[..i]) + Concat(groups[i..])
    decreases i
  {
    if i > 0 {
      ConcatTail(groups, i - 1);
      ConcatHead(groups[i - 1..]);
      assert groups[i - 1..][1..] == groups[i..] && groups[..i][..i - 1] == groups[..i - 1];
    } else {
      assert groups[0..] == groups;
    }
  }

  ghost predicate HoldsNewest(dir: Directory, name: string, groups: seq<seq<Bytes>>, k: nat) {
    k < |groups| && name in dir && dir[name] == Flat(groups[|groups| - 1]) && BackupsHold(dir, name, k, groups)
  }

  lemma {:induction false} FilesAreSuffix(dir: Directory, name: string, groups: seq<seq<Bytes>>, k: nat)
    requires HoldsNewest(dir, name, groups, k)
    ensures HasBackups(dir, name, k) && OldestToCurrent(dir, name, k) == Flat(Concat(groups[|groups| - 1 - k..]))
  {
    var tail := groups[|groups| - 1 - k..];
    ConcatHead(tail);
    if k == 0 {
      assert tail[1..] == [] && tail[0] + [] == tail[0];
    } else {
      FilesAreSuffix(dir, name, groups, k - 1);
      assert tail[1..] == groups[|groups| - 1 - (k - 1)..];
      FlatSplits(tail[0], Concat(tail[1..]));
    }
  }

  /** The directory holds the current file, backups 1 .. k, and nothing else. */
  ghost predicate OnlyNames(dir: Directory, name: string, k: nat) {
    dir.Keys == {name} + (set i: nat | 1 <= i <= k :: Backup(name, i))
  }

  lemma NamesOf(dir: Directory, name: string, max: nat, groups: seq<seq<Bytes>>)
    requires groups != [] && Holds(dir, name, max, groups)
    ensures OnlyNames(dir, name, Kept(groups, max))
    ensures HoldsNewest(dir, name, groups, Kept(groups, max))
  {
    assert Look(0);
  }

  /** From an empty directory, after any writes with r rotations: min(r, maxBackups) backups and the
      current file, which read oldest to newest are a suffix of the stream cut between two writes,
      and all of it if no more rotations happened than backups are kept. */
  lemma DirectoryIsSuffix(name: string, maxBytes: int, max: nat, ps: seq<Bytes>) returns (cut: nat)
    requires max > 0
    ensures var dir, k := WriteAll(name, maxBytes, max, ps), Kept(Groups(ps, maxBytes), max);
            && OnlyNames(dir, name, k) && HasBackups(dir, name, k)
            && cut <= |ps| && OldestToCurrent(dir, name, k) == Flat(ps[cut..])
    ensures |Groups(ps, maxBytes)| - 1 <= max ==> cut == 0
  {
    WriteAllHolds(name, maxBytes, max, ps);
    GroupsSplitStream(ps, maxBytes);
    cut := HeldIsSuffix(WriteAll(name, maxBytes, max, ps), name, max, Groups(ps, maxBytes), ps);
  }

  lemma HeldIsSuffix(dir: Directory, name: string, max: nat, g: seq<seq<Bytes>>, ps: seq<Bytes>) returns (cut: nat)
    requires g != [] && Holds(dir, name, max, g) && Concat(g) == ps
    ensures var k := Kept(g, max);
            OnlyNames(dir, name, k) && HasBackups(dir, name, k)
            && cut <= |ps| && OldestToCurrent(dir, name, k) == Flat(ps[cut..])
    ensures |g| - 1 <= max ==> cut == 0
  {
    var k := Kept(g, max);
    NamesOf(dir, name, max, g);
    FilesAreSuffix(dir, name, g, k);
    cut := CutOf(g, ps, |g| - 1 - k);
  }

  lemma CutOf(g: seq<seq<Bytes>>, ps: seq<Bytes>, i: nat) returns (cut: nat)
    requires i < |g| && Concat(g) == ps
    ensures cut <= |ps| && ps[cut..] == Concat(g[i..]) && (i == 0 ==> cut == 0)
  {
    ConcatTail(g, i);
    cut := |Concat(g[..i])|;
    if i == 0 { assert g[..i] == []; }
  }

  // ----- the writer -----

  class RotatingFileWriter {
    const filename: string
    const maxBytes: int
    const maxBackups: nat
    var files: Directory
    var size: int

    ghost predicate Valid()
      reads this
    {
      maxBackups > 0 && maxBytes > 0 && filename in files && size == |files[filename]|
    }

    constructor (dir: Directory, filename: string, maxSizeMB: int, maxBackups: int)
      ensures Valid() && this.filename == filename && files == Opened(dir, filename)
      ensures this.maxBytes == if maxSizeMB > 0 then maxSizeMB * 1024 * 1024 else 100 * 1024 * 1024
      ensures this.maxBackups == if maxBackups > 0 then maxBackups else 5
    {
      this.filename := filename;
      this.maxBytes := if maxSizeMB * 1024 * 1024 <= 0 then 100 * 1024 * 1024 else maxSizeMB * 1024 * 1024;
      this.maxBackups := if maxBackups <= 0 then 5 else maxBackups;
      this.files, this.size := dir, 0;
      new;
      OpenFile();
    }

    method OpenFile()
      modifies this
      ensures files == Opened(old(files), filename) && size == |files[filename]|
    {
      if filename !in files { files := files[filename := []]; }
      size := |files[filename]|;
    }

    method RemoveExcessBackups()
      modifies this`files
      ensures files == RemoveExcess(old(files), filename, maxBackups)
    {
      var backups := Backups(files, filename);
      while |backups| > maxBackups
        invariant backups == Backups(files, filename)
        invariant RemoveExcess(files, filename, maxBackups) == RemoveExcess(old(files), filename, maxBackups)
        decreases |backups|
      {
        SomeLast(backups);
        LastUnique(backups);
        var oldest :| SortsLast(backups, oldest);
        files := files - {oldest};
        backups := backups - {oldest};
      }
    }

    method Rotate()
      requires Valid()
      modifies this
      ensures Valid() && files == Opened(Rotated(old(files), filename, maxBackups), filename)
    {
      var i := maxBackups - 1;
      while i >= 1
        invariant 0 <= i < maxBackups
        invariant Shift(files, filename, i) == Shift(old(files), filename, maxBackups - 1)
      {
        files := Remove(files, Backup(filename, i + 1));
        files := Rename(files, Backup(filename, i), Backup(filename, i + 1));
        i := i - 1;
      }
      files := Rename(files, filename, Backup(filename, 1));
      RemoveExcessBackups();
      OpenFile();
    }

    /** Write.  What any sequence of writes leaves behind is DirectoryIsSuffix. */
    method Write(p: Bytes) returns (n: int)
      requires Valid()
      modifies this
      ensures Valid() && n == |p|
      ensures files == Written(old(files), filename, maxBytes, maxBackups, p)
    {
      if size + |p| > maxBytes { Rotate(); }
      n := |p|;
      files := files[filename := files[filename] + p];
      size := size + n;
    }
  }
}
