/**
 Which backups the clean-up of the log writer keeps: it sorts by name, and a number sorts by its
 decimal digits.
 */
module BackupOrder {
  import opened LogRotation
  import opened Text

  function Pow10(n: nat): (r: nat)
    ensures r > 0
  {
    if n == 0 then 1 else 10 * Pow10(n - 1)
  }

  lemma {:induction false} Pow10Adds(a: nat, b: nat)
    ensures Pow10(a + b) == Pow10(a) * Pow10(b)
  {
    if a > 0 { Pow10Adds(a - 1, b); }
  }

  lemma {:induction false} Pow10Grows(a: nat, b: nat)
    requires a <= b
    ensures Pow10(a) <= Pow10(b)
    ensures a < b ==> 10 * Pow10(a) <= Pow10(b)
  {
    if a < b { Pow10Grows(a, b - 1); }
  }

  // ----- decimal digits -----

  lemma {:induction false} DigitsBounds(n: nat)
    requires n > 0
    ensures Pow10(|Digits(n)| - 1) <= n < Pow10(|Digits(n)|)
  {
    if n >= 10 { DigitsBounds(n / 10); }
  }

  lemma DigitsLength(n: nat, d: nat)
    requires d > 0 && Pow10(d - 1) <= n < Pow10(d)
    ensures |Digits(n)| == d
  {
    DigitsBounds(n);
    var l := |Digits(n)|;
    if l < d { Pow10Grows(l, d - 1); } else if l > d { Pow10Grows(d, l - 1); }
  }

  lemma {:induction false} DigitsGrow(m: nat, n: nat)
    requires m <= n
    ensures |Digits(m)| <= |Digits(n)|
  {
    if n >= 10 && m >= 10 { DigitsGrow(m / 10, n / 10); }
  }

  // ----- the order of names -----

  /** One more character on a name that is at least as long. */
  lemma {:induction false} SortsAppend(a: string, b: string, c: char)
    requires |a| <= |b|
    ensures SortsBefore(a, b + [c]) <==> a == b || SortsBefore(a, b)
  {
    if a != "" {
      assert a == [a[0]] + a[1..] && b == [b[0]] + b[1..] && (b + [c])[1..] == b[1..] + [c];
      SortsAppend(a[1..], b[1..], c);
    }
  }

  /** One more character on two names of one length. */
  lemma {:induction false} SortsAppendBoth(a: string, b: string, x: char, y: char)
    requires |a| == |b|
    ensures SortsBefore(a + [x], b + [y]) <==> SortsBefore(a, b) || (a == b && x < y)
  {
    if a == "" {
      assert a + [x] == [x] && b + [y] == [y];
    } else {
      assert a == [a[0]] + a[1..] && b == [b[0]] + b[1..];
      assert (a + [x])[1..] == a[1..] + [x] && (b + [y])[1..] == b[1..] + [y];
      SortsAppendBoth(a[1..], b[1..], x, y);
    }
  }

  lemma {:induction false} SameLengthSorts(i: nat, n: nat)
    requires i < n && |Digits(i)| == |Digits(n)|
    ensures SortsBefore(Digits(i), Digits(n))
  {
    if n >= 10 {
      DigitsGrow(i / 10, n / 10);
      SortsAppendBoth(Digits(i / 10), Digits(n / 10), ('0' as int + i % 10) as char, ('0' as int + n % 10) as char);
      if i / 10 < n / 10 { SameLengthSorts(i / 10, n / 10); }
    }
  }

  /** The number i, brought to the length of n. */
  function Scaled(i: nat, n: nat): nat
    requires |Digits(i)| <= |Digits(n)|
  {
    i * Pow10(|Digits(n)| - |Digits(i)|)
  }

  lemma {:induction false} SortsByScale(i: nat, n: nat)
    requires 1 <= i < n
    ensures |Digits(i)| <= |Digits(n)|
    ensures SortsBefore(Digits(i), Digits(n)) <==> Scaled(i, n) <= n
    decreases n
  {
    DigitsGrow(i, n);
    if |Digits(i)| == |Digits(n)| {
      SameLengthSorts(i, n);
    } else {
      var q := n / 10;
      SortsAppend(Digits(i), Digits(q), ('0' as int + n % 10) as char);
      ScaleOfTenth(i, n);
      if i < q {
        SortsByScale(i, q);
      } else if i > q {
        DigitsGrow(q, i);
        SameLengthSorts(q, i);
        SortsAsymmetric(Digits(q), Digits(i));
        if Digits(i) == Digits(q) { DigitsInjective(i, q); }
      }
    }
  }

  lemma ScaleOfTenth(i: nat, n: nat)
    requires |Digits(i)| < |Digits(n)|
    ensures n >= 10 && |Digits(n)| == |Digits(n / 10)| + 1
    ensures Scaled(i, n) <= n <==> Scaled(i, n / 10) <= n / 10
  {
    var p := Pow10(|Digits(n)| - 1 - |Digits(i)|);
    TenTimes(i, p, n);
  }

  lemma TenTimes(i: nat, p: nat, n: nat)
    ensures i * (10 * p) <= n <==> i * p <= n / 10
  {
    assert i * (10 * p) == 10 * (i * p);
  }

  lemma {:induction false} HeadCancels(head: string, a: string, b: string)
    ensures SortsBefore(head + a, head + b) <==> SortsBefore(a, b)
  {
    if head == "" {
      assert head + a == a && head + b == b;
    } else {
      assert (head + a)[1..] == head[1..] + a && (head + b)[1..] == head[1..] + b;
      HeadCancels(head[1..], a, b);
    }
  }

  /** Backup i sorts before the older backup n exactly if its number, brought to the length of n, is at
      most n. */
  lemma BackupSorts(name: string, i: nat, n: nat)
    requires 1 <= i < n
    ensures |Digits(i)| <= |Digits(n)|
    ensures SortsBefore(Backup(name, i), Backup(name, n)) <==> Scaled(i, n) <= n
  {
    SortsByScale(i, n);
    HeadCancels(name + ".", Digits(i), Digits(n));
    assert Backup(name, i) == name + "." + Digits(i) && Backup(name, n) == name + "." + Digits(n);
  }

  // ----- when the newest backups come first -----

  ghost predicate Before(i: nat, n: nat) { |Digits(i)| <= |Digits(n)| && Scaled(i, n) <= n }

  /** Of the backups 1 .. k, the newest max sort before all others. */
  ghost predicate NewestFirst(k: nat, max: nat) {
    forall i: nat, n: nat :: 1 <= i <= max < n <= k ==> Before(i, n)
  }

  lemma NearSameLength(k: nat, n: nat)
    requires 0 < n <= k && n + 10 >= Pow10(|Digits(k)|)
    ensures |Digits(n)| == |Digits(k)|
  {
    var d, e := |Digits(k)|, |Digits(n)|;
    DigitsGrow(n, k);
    DigitsBounds(n);
    if e < d {
      Pow10Grows(1, d - 1);
      Pow10Grows(e, d - 1);
    }
  }

  lemma ShorterFits(i: nat, n: nat)
    requires 0 < i && |Digits(i)| < |Digits(n)| && n + 10 >= Pow10(|Digits(n)|)
    ensures Scaled(i, n) <= n
  {
    var e, f := |Digits(n)|, |Digits(i)|;
    DigitsBounds(i);
    Pow10Adds(f, e - f);
    Pow10Grows(1, e - f);
    ScaledBelow(i, Pow10(f), Pow10(e - f));
  }

  lemma NearPowerOfTen(k: nat, max: nat, i: nat, n: nat)
    requires 1 <= i <= max < n <= k && max + 11 >= Pow10(|Digits(k)|)
    ensures Before(i, n)
  {
    NearSameLength(k, n);
    DigitsGrow(i, n);
    if |Digits(i)| < |Digits(n)| { ShorterFits(i, n); }
  }

  lemma ScaledBelow(i: nat, p: nat, q: nat)
    requires i < p
    ensures i * q <= p * q - q
  {
    assert (i + 1) * q <= p * q;
  }

  lemma OnlyNewestKept(k: nat, max: nat)
    requires k <= max || max <= 1 || max + 11 >= Pow10(|Digits(k)|)
    ensures NewestFirst(k, max)
  {
    forall i: nat, n: nat | 1 <= i <= max < n <= k ensures Before(i, n) {
      if max <= 1 {
        DigitsGrow(1, n);
        DigitsBounds(n);
        assert |Digits(1)| == 1;
      } else {
        NearPowerOfTen(k, max, i, n);
      }
    }
  }

  lemma LongerNumber(k: nat, max: nat) returns (n: nat)
    requires 1 < max && |Digits(max)| < |Digits(k)|
    ensures max < n <= k && !Before(2, n)
  {
    var d := |Digits(max)|;
    n := Pow10(d);
    DigitsBounds(max);
    if k > 0 { DigitsBounds(k); }
    Pow10Grows(d, |Digits(k)| - 1);
    DigitsLength(n, d + 1);
    assert |Digits(2)| == 1;
  }

  lemma ShorterNumber(k: nat, max: nat) returns (i: nat)
    requires 1 < max < k && |Digits(max)| == |Digits(k)| && max + 11 < Pow10(|Digits(k)|)
    ensures 1 <= i <= max && !Before(i, max + 1)
  {
    var d := |Digits(max)|;
    DigitsBounds(max);
    assert Pow10(1) == 10 * Pow10(0);
    assert d >= 2;
    i := Pow10(d - 1) - 1;
    DigitsLength(i, d - 1);
    DigitsLength(max + 1, d);
  }

  /** Otherwise some older backup sorts before a newer one. */
  lemma OlderFirst(k: nat, max: nat) returns (i: nat, n: nat)
    requires 1 < max < k && max + 11 < Pow10(|Digits(k)|)
    ensures 1 <= i <= max < n <= k && !Before(i, n)
  {
    DigitsGrow(max, k);
    i, n := 2, max + 1;
    if |Digits(max)| < |Digits(k)| { n := LongerNumber(k, max); } else { i := ShorterNumber(k, max); }
  }

  lemma NewestFirstExactly(k: nat, max: nat)
    ensures NewestFirst(k, max) <==> k <= max || max <= 1 || max + 11 >= Pow10(|Digits(k)|)
  {
    if k <= max || max <= 1 || max + 11 >= Pow10(|Digits(k)|) {
      OnlyNewestKept(k, max);
    } else {
      var i, n := OlderFirst(k, max);
    }
  }

  // ----- what the clean-up keeps -----

  ghost predicate AllBefore(a: set<string>, b: set<string>) {
    forall x, y :: x in a && y in b ==> SortsBefore(x, y)
  }

  lemma WithoutLast(dir: Directory, name: string, x: string)
    requires x in Backups(dir, name)
    ensures Backups(dir - {x}, name) == Backups(dir, name) - {x}
    ensures |Backups(dir - {x}, name)| == |Backups(dir, name)| - 1
  {
    assert Backups(dir - {x}, name) == Backups(dir, name) - {x};
  }

  /** The clean-up keeps the max names that sort first. */
  lemma {:induction false} KeepsFirstNames(dir: Directory, name: string, max: nat)
    ensures var all, kept := Backups(dir, name), Backups(RemoveExcess(dir, name, max), name);
            kept <= all && |kept| == (if |all| <= max then |all| else max) && AllBefore(kept, all - kept)
    decreases |dir|
  {
    var all := Backups(dir, name);
    if |all| > max {
      SomeLast(all);
      LastUnique(all);
      var x :| SortsLast(all, x) && RemoveExcess(dir, name, max) == RemoveExcess(dir - {x}, name, max);
      WithoutLast(dir, name, x);
      KeepsFirstNames(dir - {x}, name, max);
    }
  }

  /** The clean-up looks at exactly the names that go on from the log's name with a dot, changes no file it
      keeps, and removes no other file. */
  lemma {:induction false} CleanUpSparesOthers(dir: Directory, name: string, max: nat, n: string)
    ensures n in Backups(dir, name) <==> n in dir && name + "." <= n
    ensures n in RemoveExcess(dir, name, max) ==> SameAt(RemoveExcess(dir, name, max), dir, n, n)
    ensures !(name + "." <= n) ==> SameAt(RemoveExcess(dir, name, max), dir, n, n)
    decreases |dir|
  {
    var all := Backups(dir, name);
    if |all| > max {
      SomeLast(all);
      LastUnique(all);
      var x :| SortsLast(all, x) && RemoveExcess(dir, name, max) == RemoveExcess(dir - {x}, name, max);
      CleanUpSparesOthers(dir - {x}, name, max, n);
    }
  }

  /** A write changes no file but the log and the files whose names go on from the log's name with a dot. */
  lemma WriteSparesOthers(dir: Directory, name: string, maxBytes: int, max: nat, p: Bytes, n: string)
    requires max > 0 && name in dir && n != name && !(name + "." <= n)
    ensures SameAt(Written(dir, name, maxBytes, max, p), dir, n, n)
  {
    forall k: nat ensures n != Backup(name, k) {
      assert Backup(name, k) == (name + ".") + Digits(k);
    }
    var moved := Rename(Shift(dir, name, max - 1), name, Backup(name, 1));
    ShiftElse(dir, name, max - 1, n);
    CleanUpSparesOthers(moved, name, max, n);
  }

  function Numbers(name: string, k: nat): set<string> { set i: nat | 1 <= i <= k :: Backup(name, i) }

  lemma {:induction false} NumbersSize(name: string, k: nat)
    ensures |Numbers(name, k)| == k
  {
    if k == 0 {
      assert Numbers(name, 0) == {};
    } else {
      NumbersSize(name, k - 1);
      BackupUnique(name, k);
      assert Numbers(name, k) == Numbers(name, k - 1) + {Backup(name, k)};
    }
  }

  lemma SubsetOfSize(a: set<string>, b: set<string>)
    requires a <= b && |a| == |b|
    ensures a == b
  {
    assert b == a + (b - a);
  }

  /** The clean-up of backups 1 .. k keeps exactly the newest max of them if and only if k is at most
      max, or max is 1, or max lies at most 11 below the next power of ten after k. */
  lemma CleanUpKeepsNewestExactly(dir: Directory, name: string, k: nat, max: nat)
    requires max > 0 && Backups(dir, name) == Numbers(name, k)
    ensures Backups(RemoveExcess(dir, name, max), name) == Numbers(name, if k < max then k else max) <==>
              k <= max || max == 1 || max + 11 >= Pow10(|Digits(k)|)
  {
    KeepsFirstNames(dir, name, max);
    NumbersSize(name, k);
    var kept := Backups(RemoveExcess(dir, name, max), name);
    if k <= max {
      SubsetOfSize(kept, Numbers(name, k));
    } else {
      NumbersSize(name, max);
      NewestFirstExactly(k, max);
      if NewestFirst(k, max) { KeptIsNewest(kept, name, k, max); }
      if kept == Numbers(name, max) { KeptMeansFirst(name, k, max); }
    }
  }

  lemma KeptMeansFirst(name: string, k: nat, max: nat)
    requires AllBefore(Numbers(name, max), Numbers(name, k) - Numbers(name, max))
    ensures NewestFirst(k, max)
  {
    forall i: nat, n: nat | 1 <= i <= max < n <= k ensures Before(i, n) {
      BackupUnique(name, n);
      assert Backup(name, i) in Numbers(name, max) && Backup(name, n) in Numbers(name, k) - Numbers(name, max);
      BackupSorts(name, i, n);
    }
  }

  lemma KeptIsNewest(kept: set<string>, name: string, k: nat, max: nat)
    requires kept <= Numbers(name, k) && |kept| == max == |Numbers(name, max)| && NewestFirst(k, max)
    requires AllBefore(kept, Numbers(name, k) - kept) && max < k
    ensures kept == Numbers(name, max)
  {
    if x :| x in kept && x !in Numbers(name, max) {
      var n: nat :| 1 <= n <= k && x == Backup(name, n);
      assert n > max;
      if Numbers(name, max) <= kept { SubsetOfSize(Numbers(name, max), kept); assert false; }
      var y :| y in Numbers(name, max) && y !in kept;
      var i: nat :| 1 <= i <= max && y == Backup(name, i);
      assert Before(i, n);
      BackupSorts(name, i, n);
      assert y in Numbers(name, k);
      SortsAsymmetric(x, y);
    } else {
      SubsetOfSize(kept, Numbers(name, max));
    }
  }
}
