/**
 The string operations the controller uses, on ASCII text: lower-casing, prefixes, trimming,
 replacing, searching and decimal numbers.
 */
module Text {

  function LowerChar(c: char): char {
    if 'A' <= c <= 'Z' then (c as int + 32) as char else c
  }

  function Lower(s: string): (r: string)
    ensures |r| == |s| && forall i :: 0 <= i < |s| ==> r[i] == LowerChar(s[i])
  {
    seq(|s|, i requires 0 <= i < |s| => LowerChar(s[i]))
  }

  predicate HasPrefix(s: string, p: string) {
    |p| <= |s| && s[..|p|] == p
  }

  predicate Contains(s: string, p: string) {
    HasPrefix(s, p) || (s != [] && Contains(s[1..], p))
  }

  predicate ContainsAny(s: string, ps: seq<string>) {
    exists i :: 0 <= i < |ps| && Contains(s, ps[i])
  }

  /** Lower-casing moves the letters A to Z to a to z, and nothing else. */
  lemma LowerCharExactly(c: char)
    ensures if 'A' <= c <= 'Z' then LowerChar(c) as int - 'a' as int == c as int - 'A' as int else LowerChar(c) == c
  {
  }

  predicate OccursAt(s: string, p: string, i: nat) { i + |p| <= |s| && s[i..i + |p|] == p }

  /** A text contains another exactly if that occurs in it somewhere. */
  lemma {:induction false} ContainsExactly(s: string, p: string)
    ensures Contains(s, p) <==> exists i: nat :: OccursAt(s, p, i)
  {
    if HasPrefix(s, p) {
      assert OccursAt(s, p, 0);
    } else if s != [] {
      ContainsExactly(s[1..], p);
      if i: nat :| OccursAt(s[1..], p, i) {
        assert s[1..][i..i + |p|] == s[i + 1..i + 1 + |p|];
        assert OccursAt(s, p, i + 1);
      }
      if i: nat :| OccursAt(s, p, i) {
        assert i > 0 && s[1..][i - 1..i - 1 + |p|] == s[i..i + |p|];
        assert OccursAt(s[1..], p, i - 1);
      }
    }
  }

  /** How much of the first n characters is left when c is dropped from their end. */
  function KeptLength(s: string, c: char, n: nat): (k: nat)
    requires n <= |s|
    ensures k <= n && (k == 0 || s[k - 1] != c)
    ensures forall i :: k <= i < n ==> s[i] == c
  {
    if n > 0 && s[n - 1] == c then KeptLength(s, c, n - 1) else n
  }

  function TrimRight(s: string, c: char): (r: string)
    ensures r <= s && (r == "" || r[|r| - 1] != c)
    ensures forall i :: |r| <= i < |s| ==> s[i] == c
  {
    s[..KeptLength(s, c, |s|)]
  }

  /** The position of the first character from i on that is not c. */
  function SkipFrom(s: string, c: char, i: nat): (n: nat)
    requires i <= |s|
    ensures i <= n <= |s| && (n == |s| || s[n] != c)
    ensures forall k :: i <= k < n ==> s[k] == c
    decreases |s| - i
  {
    if i < |s| && s[i] == c then SkipFrom(s, c, i + 1) else i
  }

  /** How many times s starts with c. */
  function Leading(s: string, c: char): (n: nat)
    ensures n <= |s| && (n == |s| || s[n] != c)
    ensures forall k :: 0 <= k < n ==> s[k] == c
  {
    SkipFrom(s, c, 0)
  }

  function TrimLeft(s: string, c: char): string { s[Leading(s, c)..] }

  lemma LeadingIs(s: string, c: char, n: nat)
    requires n <= |s| && (forall i :: 0 <= i < n ==> s[i] == c) && (n == |s| || s[n] != c)
    ensures Leading(s, c) == n && TrimLeft(s, c) == s[n..]
  {
    var k := Leading(s, c);
  }

  function ReplaceAll(s: string, from: char, to: char): (r: string)
    ensures |r| == |s| && forall i :: 0 <= i < |s| ==> r[i] == if s[i] == from then to else s[i]
  {
    seq(|s|, i requires 0 <= i < |s| => if s[i] == from then to else s[i])
  }

  /** Decimal digits, most significant first. */
  function Digits(n: nat): (r: string)
    ensures r != ""
    ensures forall i :: 0 <= i < |r| ==> '0' <= r[i] <= '9'
  {
    if n < 10 then [('0' as int + n) as char]
    else Digits(n / 10) + [('0' as int + n % 10) as char]
  }

  /** The number a digit string denotes. */
  function Value(s: string): nat
    requires forall i :: 0 <= i < |s| ==> '0' <= s[i] <= '9'
  {
    if s == "" then 0 else 10 * Value(s[..|s| - 1]) + (s[|s| - 1] as int - '0' as int)
  }

  lemma {:induction false} DigitsRoundTrip(n: nat)
    ensures Value(Digits(n)) == n
  {
    if n < 10 {
      assert Digits(n)[..0] == "";
    } else {
      DigitsRoundTrip(n / 10);
      var d := Digits(n);
      assert d[..|d| - 1] == Digits(n / 10);
    }
  }

  lemma DigitsInjective(m: nat, n: nat)
    requires Digits(m) == Digits(n)
    ensures m == n
  {
    DigitsRoundTrip(m);
    DigitsRoundTrip(n);
  }

  function Zeros(k: nat): (r: string)
    ensures |r| == k && forall i :: 0 <= i < k ==> r[i] == '0'
  {
    seq(k, _ => '0')
  }

  /** The "%04d" verb: at least four digits, padded with zeros. */
  function Pad4(n: nat): (r: string)
    ensures forall i :: 0 <= i < |r| ==> '0' <= r[i] <= '9'
  {
    var d := Digits(n);
    if |d| < 4 then Zeros(4 - |d|) + d else d
  }

  lemma {:induction false} ValueIgnoresZeros(k: nat, s: string)
    requires forall i :: 0 <= i < |s| ==> '0' <= s[i] <= '9'
    ensures Value(Zeros(k) + s) == Value(s)
    decreases |s|, k
  {
    var t := Zeros(k) + s;
    if s == "" {
      if k > 0 {
        assert t == Zeros(k) && t[..k - 1] == Zeros(k - 1) + "";
        ValueIgnoresZeros(k - 1, "");
      }
    } else {
      assert t[..|t| - 1] == Zeros(k) + s[..|s| - 1];
      ValueIgnoresZeros(k, s[..|s| - 1]);
    }
  }

  lemma Pad4Value(n: nat)
    ensures Value(Pad4(n)) == n
  {
    DigitsRoundTrip(n);
    var d := Digits(n);
    if |d| < 4 { ValueIgnoresZeros(4 - |d|, d); }
  }

  lemma Pad4Injective(m: nat, n: nat)
    requires Pad4(m) == Pad4(n)
    ensures m == n
  {
    Pad4Value(m);
    Pad4Value(n);
  }
}
