/**
 Translation between Windows UNC paths and the controller's Linux paths, on ASCII text.
 */
module PathMapping {
  import opened Basics
  import opened Text

  datatype Mapping = Mapping(windowsPrefix: string, linuxPrefix: string, enabled: bool)

  const UNC: string := "\\\\"

  function WindowsBase(m: Mapping): string { TrimRight(m.windowsPrefix, '\\') }
  function LinuxBase(m: Mapping): string { TrimRight(m.linuxPrefix, '/') }

  predicate MatchesUnc(m: Mapping, path: string) {
    m.enabled && HasPrefix(Lower(path), Lower(m.windowsPrefix))
  }

  predicate MatchesLinux(m: Mapping, path: string) {
    m.enabled && HasPrefix(path, LinuxBase(m))
  }

  function ToLinux(m: Mapping, path: string): string
    requires MatchesUnc(m, path)
  {
    var remainder := ReplaceAll(path[|m.windowsPrefix|..], '\\', '/');
    LinuxBase(m) + "/" + TrimLeft(remainder, '/')
  }

  function ToUnc(m: Mapping, path: string): string
    requires MatchesLinux(m, path)
  {
    var remainder := ReplaceAll(path[|LinuxBase(m)|..], '/', '\\');
    WindowsBase(m) + "\\" + TrimLeft(remainder, '\\')
  }

  /** The first enabled mapping, from position i on, whose Windows prefix starts the path. */
  function FirstUnc(path: string, ms: seq<Mapping>, i: nat): (k: Option<nat>)
    requires i <= |ms|
    ensures k.Some? ==> i <= k.value < |ms| && MatchesUnc(ms[k.value], path)
    ensures k.Some? ==> forall x :: i <= x < k.value ==> !MatchesUnc(ms[x], path)
    ensures k.None? ==> forall x :: i <= x < |ms| ==> !MatchesUnc(ms[x], path)
    decreases |ms| - i
  {
    if i == |ms| then None
    else if MatchesUnc(ms[i], path) then Some(i)
    else FirstUnc(path, ms, i + 1)
  }

  /** The first enabled mapping, from position i on, whose Linux base starts the path. */
  function FirstLinux(path: string, ms: seq<Mapping>, i: nat): (k: Option<nat>)
    requires i <= |ms|
    ensures k.Some? ==> i <= k.value < |ms| && MatchesLinux(ms[k.value], path)
    ensures k.Some? ==> forall x :: i <= x < k.value ==> !MatchesLinux(ms[x], path)
    ensures k.None? ==> forall x :: i <= x < |ms| ==> !MatchesLinux(ms[x], path)
    decreases |ms| - i
  {
    if i == |ms| then None
    else if MatchesLinux(ms[i], path) then Some(i)
    else FirstLinux(path, ms, i + 1)
  }

  /** ApplyMappings.  A path that is not UNC comes back unchanged whether or not a mapping matches. */
  function ApplyMappings(path: string, ms: seq<Mapping>): string {
    if !HasPrefix(path, UNC) then path
    else match FirstUnc(path, ms, 0)
      case None => path
      case Some(k) => ToLinux(ms[k], path)
  }

  /** reverseMapPath. */
  function ReverseMapPath(path: string, ms: seq<Mapping>): string {
    match FirstLinux(path, ms, 0)
    case None => path
    case Some(k) => ToUnc(ms[k], path)
  }

  // ----- text facts -----

  lemma LowerSplits(a: string, b: string)
    ensures Lower(a + b) == Lower(a) + Lower(b)
  {
  }

  lemma PrefixesCompare(s: string, a: string, b: string)
    requires HasPrefix(s, a) && HasPrefix(s, b)
    ensures HasPrefix(a, b) || HasPrefix(b, a)
  {
    if |a| <= |b| { assert b[..|a|] == s[..|b|][..|a|] == s[..|a|]; }
    else { assert a[..|b|] == s[..|a|][..|b|] == s[..|b|]; }
  }

  lemma ReplaceBack(s: string, a: char, b: char)
    requires b !in s
    ensures ReplaceAll(ReplaceAll(s, a, b), b, a) == s
  {
  }

  lemma NothingToTrim(s: string, c: char)
    requires s == "" || s[0] != c
    ensures TrimLeft([c] + s, c) == s && TrimLeft(s, c) == s
  {
    LeadingIs(s, c, 0);
    LeadingIs([c] + s, c, 1);
  }

  /** At most one trailing backslash: the prefix is its base or its base and one backslash. */
  predicate Tidy(m: Mapping) {
    |m.windowsPrefix| <= |WindowsBase(m)| + 1 && HasPrefix(WindowsBase(m), UNC)
  }

  /** A rest of a path below a base: no separator of the other kind and no leading separator. */
  predicate IsRest(rest: string, own: char, other: char) {
    other !in rest && (rest == "" || rest[0] != own)
  }

  /** A base in any casing, one backslash, and a rest. */
  predicate IsUncPath(m: Mapping, base: string, rest: string) {
    Lower(base) == Lower(WindowsBase(m)) && IsRest(rest, '\\', '/')
  }

  lemma TidyPrefix(m: Mapping)
    requires Tidy(m)
    ensures m.windowsPrefix == WindowsBase(m) || m.windowsPrefix == WindowsBase(m) + "\\"
  {
    var w, b := m.windowsPrefix, WindowsBase(m);
    if |w| == |b| + 1 { assert w == b + [w[|b|]]; }
  }

  lemma MatchesUncOf(m: Mapping, base: string, rest: string)
    requires m.enabled && Tidy(m) && Lower(base) == Lower(WindowsBase(m))
    ensures MatchesUnc(m, base + "\\" + rest)
  {
    var b, w := WindowsBase(m), m.windowsPrefix;
    TidyPrefix(m);
    assert base + "\\" + rest == base + ("\\" + rest);
    LowerSplits(base, "\\" + rest);
    if w != b {
      LowerSplits(b, "\\");
      LowerSplits(base + "\\", rest);
      LowerSplits(base, "\\");
    }
  }

  lemma RemainderOf(m: Mapping, base: string, rest: string)
    requires Tidy(m) && |base| == |WindowsBase(m)|
    ensures var path, n := base + "\\" + rest, |m.windowsPrefix|;
            n <= |path| && (path[n..] == rest || path[n..] == "\\" + rest)
  {
    TidyPrefix(m);
  }

  lemma RestFlips(rest: string, own: char, other: char)
    requires IsRest(rest, own, other) && own != other
    ensures IsRest(ReplaceAll(rest, own, other), other, own)
    ensures ReplaceAll(ReplaceAll(rest, own, other), other, own) == rest
  {
    ReplaceBack(rest, own, other);
  }

  /** With or without one leading separator, the same remainder is left after trimming. */
  lemma TailTrims(tail: string, rest: string, own: char, other: char)
    requires own != other && (tail == rest || tail == [own] + rest) && IsRest(rest, own, other)
    ensures TrimLeft(ReplaceAll(tail, own, other), other) == ReplaceAll(rest, own, other)
  {
    var rest' := ReplaceAll(rest, own, other);
    assert ReplaceAll([own] + rest, own, other) == [other] + rest';
    NothingToTrim(rest', other);
  }

  lemma ToLinuxOf(m: Mapping, base: string, rest: string)
    requires m.enabled && Tidy(m) && IsUncPath(m, base, rest)
    ensures MatchesUnc(m, base + "\\" + rest)
    ensures ToLinux(m, base + "\\" + rest) == LinuxBase(m) + "/" + ReplaceAll(rest, '\\', '/')
  {
    MatchesUncOf(m, base, rest);
    assert |base| == |Lower(base)| == |WindowsBase(m)|;
    RemainderOf(m, base, rest);
    TailTrims((base + "\\" + rest)[|m.windowsPrefix|..], rest, '\\', '/');
  }

  lemma DropHead(head: string, tail: string)
    ensures HasPrefix(head + tail, head) && (head + tail)[|head|..] == tail
  {
  }

  lemma ToUncOf(m: Mapping, rest: string)
    requires m.enabled && IsRest(rest, '/', '\\')
    ensures MatchesLinux(m, LinuxBase(m) + "/" + rest)
    ensures ToUnc(m, LinuxBase(m) + "/" + rest) == WindowsBase(m) + "\\" + ReplaceAll(rest, '/', '\\')
  {
    var b := LinuxBase(m);
    assert b + "/" + rest == b + ("/" + rest);
    DropHead(b, "/" + rest);
    TailTrims("/" + rest, rest, '/', '\\');
  }

  // ----- round trips -----

  /** No base of an enabled mapping is a prefix of another's: ignoring case on the Windows side,
      exactly on the Linux side. */
  predicate Independent(ms: seq<Mapping>) {
    forall i, k :: 0 <= i < |ms| && 0 <= k < |ms| && i != k && ms[i].enabled && ms[k].enabled ==>
      !HasPrefix(Lower(WindowsBase(ms[i])), Lower(WindowsBase(ms[k]))) && !HasPrefix(LinuxBase(ms[i]), LinuxBase(ms[k]))
  }

  lemma BaseOfMatch(m: Mapping, path: string)
    requires MatchesUnc(m, path)
    ensures HasPrefix(Lower(path), Lower(WindowsBase(m)))
  {
    var w, b := m.windowsPrefix, WindowsBase(m);
    assert w == b + w[|b|..];
    LowerSplits(b, w[|b|..]);
    assert Lower(path)[..|b|] == Lower(path)[..|w|][..|b|];
  }

  lemma OnlyUncMatch(ms: seq<Mapping>, k: nat, path: string)
    requires Independent(ms) && k < |ms| && MatchesUnc(ms[k], path)
    ensures FirstUnc(path, ms, 0) == Some(k)
  {
    var i := FirstUnc(path, ms, 0).value;
    if i != k {
      BaseOfMatch(ms[i], path);
      BaseOfMatch(ms[k], path);
      PrefixesCompare(Lower(path), Lower(WindowsBase(ms[i])), Lower(WindowsBase(ms[k])));
    }
  }

  lemma OnlyLinuxMatch(ms: seq<Mapping>, k: nat, path: string)
    requires Independent(ms) && k < |ms| && MatchesLinux(ms[k], path)
    ensures FirstLinux(path, ms, 0) == Some(k)
  {
    var i := FirstLinux(path, ms, 0).value;
    if i != k { PrefixesCompare(path, LinuxBase(ms[i]), LinuxBase(ms[k])); }
  }

  lemma StartsUnc(m: Mapping, base: string, tail: string)
    requires Tidy(m) && Lower(base) == Lower(WindowsBase(m))
    ensures HasPrefix(base + tail, UNC)
  {
    var b := WindowsBase(m);
    assert b[0] == b[..2][0] == '\\' && b[1] == b[..2][1] == '\\';
    assert Lower(base)[0] == LowerChar(base[0]) && Lower(base)[1] == LowerChar(base[1]);
    assert (base + tail)[..2] == [base[0], base[1]];
  }

  lemma ReverseOf(ms: seq<Mapping>, k: nat, rest: string)
    requires Independent(ms) && k < |ms| && ms[k].enabled && IsRest(rest, '/', '\\')
    ensures ReverseMapPath(LinuxBase(ms[k]) + "/" + rest, ms) == WindowsBase(ms[k]) + "\\" + ReplaceAll(rest, '/', '\\')
  {
    ToUncOf(ms[k], rest);
    OnlyLinuxMatch(ms, k, LinuxBase(ms[k]) + "/" + rest);
  }

  lemma ApplyOf(ms: seq<Mapping>, k: nat, base: string, rest: string)
    requires Independent(ms) && k < |ms| && ms[k].enabled && Tidy(ms[k]) && IsUncPath(ms[k], base, rest)
    ensures ApplyMappings(base + "\\" + rest, ms) == LinuxBase(ms[k]) + "/" + ReplaceAll(rest, '\\', '/')
  {
    var path := base + "\\" + rest;
    StartsUnc(ms[k], base, "\\" + rest);
    assert path == base + ("\\" + rest);
    ToLinuxOf(ms[k], base, rest);
    OnlyUncMatch(ms, k, path);
  }

  /** UNC to Linux and back: the same path, with the base in the mapping's casing. */
  lemma UncRoundTrip(ms: seq<Mapping>, k: nat, base: string, rest: string)
    requires Independent(ms) && k < |ms| && ms[k].enabled && Tidy(ms[k]) && IsUncPath(ms[k], base, rest)
    ensures ReverseMapPath(ApplyMappings(base + "\\" + rest, ms), ms) == WindowsBase(ms[k]) + "\\" + rest
    ensures Lower(WindowsBase(ms[k]) + "\\" + rest) == Lower(base + "\\" + rest)
  {
    ApplyOf(ms, k, base, rest);
    RestFlips(rest, '\\', '/');
    ReverseOf(ms, k, ReplaceAll(rest, '\\', '/'));
    assert forall b: string :: b + "\\" + rest == b + ("\\" + rest);
    LowerSplits(base, "\\" + rest);
    LowerSplits(WindowsBase(ms[k]), "\\" + rest);
  }

  /** Linux to UNC and back: exactly the same path. */
  lemma LinuxRoundTrip(ms: seq<Mapping>, k: nat, rest: string)
    requires Independent(ms) && k < |ms| && ms[k].enabled && Tidy(ms[k]) && IsRest(rest, '/', '\\')
    ensures ApplyMappings(ReverseMapPath(LinuxBase(ms[k]) + "/" + rest, ms), ms) == LinuxBase(ms[k]) + "/" + rest
  {
    ReverseOf(ms, k, rest);
    RestFlips(rest, '/', '\\');
    ApplyOf(ms, k, WindowsBase(ms[k]), ReplaceAll(rest, '/', '\\'));
  }

  // ----- any list of mappings: exactly when a path comes back -----

  function ToBackslashes(s: string): (r: string)
    ensures |r| == |s| && forall i :: 0 <= i < |s| ==> r[i] == if s[i] == '/' then '\\' else s[i]
  {
    ReplaceAll(s, '/', '\\')
  }

  lemma ReplaceSplits(a: string, b: string)
    ensures ToBackslashes(a + b) == ToBackslashes(a) + ToBackslashes(b)
  {
  }

  /** Where a Windows base ends up under a remainder `mid` of a longer Linux base. */
  function Below(windowsBase: string, mid: string): string {
    var t := TrimLeft(ToBackslashes(mid), '\\');
    if t == "" then windowsBase else windowsBase + "\\" + t
  }

  /** Mapping r, which the way back takes, leads where mapping k, which the way there took, came
      from.  If r's Linux base encloses k's, k's Windows base is r's continued by the remainder of
      k's Linux base.  If r's Linux base reaches into the rest of the path, it ends just before a
      single separator and r's Windows base is k's continued by that part. */
  predicate LeadsBack(r: Mapping, k: Mapping, rest: string) {
    var a, b := LinuxBase(r), LinuxBase(k);
    if |a| <= |b| then WindowsBase(k) == Below(WindowsBase(r), b[|a|..])
    else
      var n := |a| - |b| - 1;
      n <= |rest| && Leading(rest[n..], '/') == 1 && WindowsBase(r) == WindowsBase(k) + "\\" + ToBackslashes(rest[..n])
  }

  lemma LeadingAcross(a: string, b: string, c: char)
    ensures Leading(a + b, c) == if Leading(a, c) == |a| then |a| + Leading(b, c) else Leading(a, c)
  {
    var n, m := Leading(a, c), Leading(b, c);
    LeadingIs(a + b, c, if n == |a| then |a| + m else n);
  }

  lemma TrimAcross(a: string, b: string, c: char)
    ensures TrimLeft(a + b, c) == if TrimLeft(a, c) == "" then TrimLeft(b, c) else TrimLeft(a, c) + b
  {
    LeadingAcross(a, b, c);
    var n := Leading(a + b, c);
    if n >= |a| { assert (a + b)[n..] == b[n - |a|..]; } else { assert (a + b)[n..] == a[n..] + b; }
  }

  lemma SameEnd(a: string, b: string, c: string)
    ensures a + c == b + c <==> a == b
  {
    if a + c == b + c { assert (a + c)[..|a|] == a && (b + c)[..|b|] == b; }
  }

  lemma Regroup(a: string, b: string, c: string)
    ensures a + b + c == a + (b + c)
  {
  }

  /** The way back through an enclosing Linux base. */
  lemma OuterImage(wr: string, mid: string, rest: string)
    requires IsRest(rest, '/', '\\')
    ensures wr + "\\" + TrimLeft(ToBackslashes(mid + ("/" + rest)), '\\') == Below(wr, mid) + "\\" + ToBackslashes(rest)
  {
    var m, tail := ToBackslashes(mid), "\\" + ToBackslashes(rest);
    ReplaceSplits(mid, "/" + rest);
    ReplaceSplits("/", rest);
    assert ToBackslashes("/") == "\\";
    TrimAcross(m, tail, '\\');
    NothingToTrim(ToBackslashes(rest), '\\');
    var t := TrimLeft(m, '\\');
    if t != "" {
      Regroup(wr + "\\", t, tail);
      Regroup(wr + "\\" + t, "\\", ToBackslashes(rest));
    }
  }

  /** A base without a trailing separator and one separator, against a head without one and a gap of
      separators. */
  lemma OneSeparator(base: string, head: string, gap: string)
    requires base == "" || base[|base| - 1] != '\\'
    requires head != "" && head[|head| - 1] != '\\'
    requires forall i :: 0 <= i < |gap| ==> gap[i] == '\\'
    ensures base + "\\" == head + gap <==> |gap| == 1 && base == head
  {
    var l, r := base + "\\", head + gap;
    assert l[|l| - 1] == '\\' && (base != "" ==> l[|l| - 2] == base[|base| - 1]);
    assert |gap| == 0 ==> r[|r| - 1] == head[|head| - 1];
    assert |gap| >= 2 ==> r[|r| - 2] == gap[|gap| - 2] == '\\';
    if |gap| == 1 {
      assert gap == "\\";
      SameEnd(base, head, "\\");
    }
  }

  /** Separators at the start of a rest, and what follows them. */
  lemma LeadingPart(z: string) returns (gap: string, t: string)
    requires '\\' !in z
    ensures ToBackslashes(z) == gap + t && t == TrimLeft(ToBackslashes(z), '\\') && |gap| == Leading(z, '/')
    ensures forall i :: 0 <= i < |gap| ==> gap[i] == '\\'
  {
    var n, w := Leading(z, '/'), ToBackslashes(z);
    LeadingIs(w, '\\', n);
    gap, t := w[..n], w[n..];
  }

  /** The way back through a Linux base that reaches into the rest of the path. */
  lemma InnerImage(wr: string, wk: string, y: string, z: string)
    requires wr == "" || wr[|wr| - 1] != '\\'
    requires y != "" && y[|y| - 1] != '/' && '\\' !in y && '\\' !in z
    ensures wr + "\\" + TrimLeft(ToBackslashes(z), '\\') == wk + "\\" + ToBackslashes(y + z)
       <==> Leading(z, '/') == 1 && wr == wk + "\\" + ToBackslashes(y)
  {
    var gap, t := LeadingPart(z);
    var head := wk + "\\" + ToBackslashes(y);
    ReplaceSplits(y, z);
    Regroup(wk + "\\", ToBackslashes(y), gap + t);
    Regroup(head, gap, t);
    assert y[|y| - 1] in y;
    assert head[|head| - 1] == ToBackslashes(y)[|y| - 1];
    SameEnd(wr + "\\", head + gap, t);
    OneSeparator(wr, head, gap);
  }

  lemma SliceOuter(a: string, b: string, rest: string)
    requires HasPrefix(b, a)
    ensures HasPrefix(b + "/" + rest, a) && (b + "/" + rest)[|a|..] == b[|a|..] + ("/" + rest)
  {
    var mid := b[|a|..];
    assert b == a + mid;
    Regroup(b, "/", rest);
    Regroup(a, mid, "/" + rest);
    DropHead(a, mid + ("/" + rest));
  }

  lemma SliceInner(a: string, b: string, rest: string) returns (n: nat)
    requires HasPrefix(b + "/" + rest, a) && |a| > |b| && a[|a| - 1] != '/'
    ensures n == |a| - |b| - 1 && 0 < n <= |rest| && rest[n - 1] == a[|a| - 1]
    ensures (b + "/" + rest)[|a|..] == rest[n..]
  {
    var l := b + "/" + rest;
    assert l[..|a|] == a;
    assert l[|b|] == '/' && forall i :: 0 <= i < |rest| ==> l[|b| + 1 + i] == rest[i];
    n := |a| - |b| - 1;
    assert a[|a| - 1] == l[|a| - 1];
  }

  /** For any list of mappings: a UNC path translated by mapping k comes back exactly if the first
      enabled mapping whose Linux base starts the image leads back to it. */
  lemma ComesBackExactly(ms: seq<Mapping>, k: nat, base: string, rest: string)
    requires k < |ms| && Tidy(ms[k]) && IsUncPath(ms[k], base, rest)
    requires FirstUnc(base + "\\" + rest, ms, 0) == Some(k)
    ensures var image := LinuxBase(ms[k]) + "/" + ReplaceAll(rest, '\\', '/');
            var r := FirstLinux(image, ms, 0);
            && ApplyMappings(base + "\\" + rest, ms) == image && r.Some?
            && (ReverseMapPath(image, ms) == WindowsBase(ms[k]) + "\\" + rest
                <==> LeadsBack(ms[r.value], ms[k], ReplaceAll(rest, '\\', '/')))
  {
    var rest' := ReplaceAll(rest, '\\', '/');
    var image := LinuxBase(ms[k]) + "/" + rest';
    StartsUnc(ms[k], base, "\\" + rest);
    assert base + "\\" + rest == base + ("\\" + rest);
    ToLinuxOf(ms[k], base, rest);
    RestFlips(rest, '\\', '/');
    ToUncOf(ms[k], rest');
    var r := FirstLinux(image, ms, 0).value;
    WayBack(ms[r], ms[k], rest');
  }

  lemma WayBack(r: Mapping, k: Mapping, rest: string)
    requires IsRest(rest, '/', '\\') && MatchesLinux(r, LinuxBase(k) + "/" + rest)
    ensures ToUnc(r, LinuxBase(k) + "/" + rest) == WindowsBase(k) + "\\" + ToBackslashes(rest) <==> LeadsBack(r, k, rest)
  {
    var a, b, wr, wk := LinuxBase(r), LinuxBase(k), WindowsBase(r), WindowsBase(k);
    if |a| <= |b| {
      PrefixOfHead(a, b, "/" + rest);
      Regroup(b, "/", rest);
      SliceOuter(a, b, rest);
      OuterImage(wr, b[|a|..], rest);
      Regroup(Below(wr, b[|a|..]), "\\", ToBackslashes(rest));
      Regroup(wk, "\\", ToBackslashes(rest));
      SameEnd(Below(wr, b[|a|..]), wk, "\\" + ToBackslashes(rest));
    } else {
      var n := SliceInner(a, b, rest);
      assert rest == rest[..n] + rest[n..];
      InnerImage(wr, wk, rest[..n], rest[n..]);
    }
  }

  lemma PrefixOfHead(a: string, b: string, tail: string)
    requires HasPrefix(b + tail, a) && |a| <= |b|
    ensures HasPrefix(b, a)
  {
    assert b[..|a|] == (b + tail)[..|a|];
  }

  lemma SecondUnc(path: string, a: Mapping, b: Mapping)
    requires !MatchesUnc(a, path) && MatchesUnc(b, path)
    ensures FirstUnc(path, [a, b], 0) == Some(1)
  {
    assert FirstUnc(path, [a, b], 1) == Some(1);
  }

  lemma ImageInOuter(outer: Mapping, inner: Mapping, sub: string, rest: string)
    requires outer.enabled && LinuxBase(inner) == LinuxBase(outer) + "/" + sub
    ensures MatchesLinux(outer, LinuxBase(inner) + "/" + rest)
    ensures |LinuxBase(outer)| <= |LinuxBase(inner)| && LinuxBase(inner)[|LinuxBase(outer)|..] == "/" + sub
  {
    Regroup(LinuxBase(outer), "/", sub);
    DropHead(LinuxBase(outer), "/" + sub);
    SliceOuter(LinuxBase(outer), LinuxBase(inner), rest);
  }

  /** When an earlier mapping's Linux base encloses the one a path came through, the path is lost
      exactly unless the Windows bases are nested in the same way. */
  lemma NestedBasesLoseThePath(outer: Mapping, inner: Mapping, sub: string, rest: string)
    requires outer.enabled && inner.enabled && Tidy(inner) && IsRest(rest, '\\', '/')
    requires LinuxBase(inner) == LinuxBase(outer) + "/" + sub && IsRest(sub, '/', '\\') && sub != ""
    requires !MatchesUnc(outer, WindowsBase(inner) + "\\" + rest)
    ensures ReverseMapPath(ApplyMappings(WindowsBase(inner) + "\\" + rest, [outer, inner]), [outer, inner])
         != WindowsBase(inner) + "\\" + rest
       <==> WindowsBase(inner) != WindowsBase(outer) + "\\" + ToBackslashes(sub)
  {
    var path := WindowsBase(inner) + "\\" + rest;
    ToLinuxOf(inner, WindowsBase(inner), rest);
    SecondUnc(path, outer, inner);
    ComesBackExactly([outer, inner], 1, WindowsBase(inner), rest);
    ImageInOuter(outer, inner, sub, ReplaceAll(rest, '\\', '/'));
    BelowSub(WindowsBase(outer), sub);
  }

  lemma BelowSub(windowsBase: string, sub: string)
    requires IsRest(sub, '/', '\\') && sub != ""
    ensures Below(windowsBase, "/" + sub) == windowsBase + "\\" + ToBackslashes(sub)
  {
    TailTrims("/" + sub, sub, '/', '\\');
  }

  /** A prefix is not compared component by component: a share whose name extends the mapped base is
      matched exactly if the prefix is written without its trailing backslash, and is then translated
      like a directory inside the mapped share. */
  lemma PrefixCutsAComponent(m: Mapping, tail: string)
    requires m.enabled && Tidy(m) && IsRest(tail, '\\', '/')
    ensures MatchesUnc(m, WindowsBase(m) + "\\" + tail)
    ensures MatchesUnc(m, WindowsBase(m) + tail) <==> m.windowsPrefix == WindowsBase(m)
    ensures m.windowsPrefix == WindowsBase(m) ==>
              ToLinux(m, WindowsBase(m) + tail) == ToLinux(m, WindowsBase(m) + "\\" + tail)
  {
    var b := WindowsBase(m);
    MatchesUncOf(m, b, tail);
    LowerSplits(b, tail);
    TidyPrefix(m);
    if m.windowsPrefix == b {
      ToLinuxOf(m, b, tail);
      assert (b + tail)[|b|..] == tail;
      TailTrims(tail, tail, '\\', '/');
    } else {
      SlashNotCut(b, tail);
    }
  }

  lemma SlashNotCut(base: string, tail: string)
    requires tail == "" || tail[0] != '\\'
    ensures !HasPrefix(Lower(base + tail), Lower(base + "\\"))
  {
    var n := |base|;
    assert Lower(base + "\\")[n] == '\\';
    if tail != "" { assert Lower(base + tail)[n] == LowerChar(tail[0]) != '\\'; }
  }
}
