/**
 Which failures are retried, how often, and after what delay.
 */
module RetryPolicy {
  import opened Basics
  import opened Text

  datatype Category = Transient | Permanent | Unknown

  const TRANSIENT_PHRASES: seq<string> := [
    "connection refused", "disk full", "no space left", "signal: killed", "signal killed",
    "i/o timeout", "network unreachable", "temporary failure", "resource temporarily unavailable",
    "output validation failed"
  ]

  const PERMANENT_PHRASES: seq<string> := [
    "codec not found", "invalid data", "no such file", "invalid option", "unrecognized option",
    "not supported", "permission denied", "access denied", "invalid argument", "moov atom not found"
  ]

  function ClassifyError(exitCode: int, message: string): Category {
    var lower := Lower(message);
    if exitCode == 0 then Transient
    else if exitCode == 1 then (if ContainsAny(lower, PERMANENT_PHRASES) then Permanent else Transient)
    else if exitCode == 2 || exitCode > 2 then Permanent
    else if ContainsAny(lower, PERMANENT_PHRASES) then Permanent
    else if ContainsAny(lower, TRANSIENT_PHRASES) then Transient
    else Unknown
  }

  function MaxRetriesFor(category: Category, maxRetries: int): int {
    match category
    case Permanent => 0
    case Unknown => if maxRetries <= 0 then 0 else if maxRetries / 2 < 1 then 1 else maxRetries / 2
    case Transient => maxRetries
  }

  /** A phrase is found exactly if one of the list occurs in the lower-cased message. */
  lemma PhraseIsFound(message: string, phrases: seq<string>)
    ensures ContainsAny(Lower(message), phrases)
       <==> exists k: nat, i: nat :: k < |phrases| && OccursAt(Lower(message), phrases[k], i)
  {
    forall k | 0 <= k < |phrases|
      ensures Contains(Lower(message), phrases[k]) <==> exists i: nat :: OccursAt(Lower(message), phrases[k], i)
    {
      ContainsExactly(Lower(message), phrases[k]);
    }
  }

  /** The budget of a failure, for a job that allows retries: none exactly when it is permanent, half the
      job's, but at least one, when the exit code is negative and the message has no known phrase, and
      otherwise the whole of the job's. */
  lemma RetryBudget(exitCode: int, message: string, maxRetries: int)
    requires maxRetries > 0
    ensures var budget := MaxRetriesFor(ClassifyError(exitCode, message), maxRetries);
            && 0 <= budget <= maxRetries
            && (budget == 0 <==> exitCode >= 2 || (exitCode != 0 && ContainsAny(Lower(message), PERMANENT_PHRASES)))
            && (budget > 0 && exitCode < 0 && !ContainsAny(Lower(message), TRANSIENT_PHRASES) ==>
                  budget == if maxRetries == 1 then 1 else maxRetries / 2)
            && (budget > 0 && (exitCode >= 0 || ContainsAny(Lower(message), TRANSIENT_PHRASES)) ==> budget == maxRetries)
  {
  }

  const TWO63: int := 0x8000_0000_0000_0000
  const TWO64: int := 0x1_0000_0000_0000_0000

  /** The value a signed 64-bit integer keeps of x. */
  function Wrap64(x: int): int {
    (x + TWO63) % TWO64 - TWO63
  }

  /** (1 << retryCount) * 30 in 64-bit arithmetic, capped at an hour, plus jitter. */
  function BackoffSeconds(retryCount: nat, jitter: int): int {
    var shifted := if retryCount >= 64 then 0 else Wrap64(Pow2(retryCount));
    var base := Wrap64(shifted * 30);
    Wrap64((if base > 3600 then 3600 else base) + jitter)
  }

  /** The documented delay: 30 seconds doubled per retry, at most an hour. */
  function DocumentedBase(retryCount: nat): int {
    if 30 * Pow2(retryCount) < 3600 then 30 * Pow2(retryCount) else 3600
  }

  lemma {:induction false} Pow2Split(a: nat, b: nat)
    ensures Pow2(a + b) == Pow2(a) * Pow2(b)
  {
    if a > 0 {
      Pow2Split(a - 1, b);
      assert Pow2(a + b) == 2 * Pow2(a - 1 + b);
    }
  }

  lemma Pow2OfSeven(n: nat)
    requires n == 7
    ensures Pow2(n) == 128
  {
    Pow2Split(4, n - 4);
  }

  lemma Pow2Of59(n: nat)
    requires n == 59
    ensures Pow2(n) == 0x800_0000_0000_0000
  {
    var a, b, c := n - 52, n - 45, n - 31;
    Pow2OfSeven(a);
    Pow2Split(a, a);
    Pow2Split(b, b);
    Pow2Split(c, c);
    Pow2Split(c + c, 3);
  }

  lemma {:induction false} Pow2Mono(a: nat, b: nat)
    requires a <= b
    ensures Pow2(a) <= Pow2(b)
    decreases b
  {
    if a < b { Pow2Mono(a, b - 1); }
  }

  lemma WrapSmall(x: int)
    requires 0 <= x < TWO63
    ensures Wrap64(x) == x
  {
  }

  lemma SmallBase(n: nat)
    requires n <= 58
    ensures Wrap64(Pow2(n)) == Pow2(n) && Wrap64(30 * Pow2(n)) == 30 * Pow2(n)
  {
    Pow2Of59(n + (59 - n));
    Pow2Mono(n, n + (58 - n));
    assert Pow2(n + (59 - n)) == 2 * Pow2(n + (58 - n));
    WrapSmall(Pow2(n));
    WrapSmall(30 * Pow2(n));
  }

  /** The delay is the documented one exactly up to retry count 58: from 59 on the shift and the
      multiplication overflow and the retry becomes due at once. */
  lemma BackoffIsDocumentedUpTo58(retryCount: nat, jitter: int)
    requires 0 <= jitter <= 15
    ensures BackoffSeconds(retryCount, jitter) == DocumentedBase(retryCount) + jitter <==> retryCount <= 58
    ensures retryCount > 58 ==> BackoffSeconds(retryCount, jitter) <= 15
  {
    if retryCount <= 58 {
      SmallBase(retryCount);
      WrapSmall(DocumentedBase(retryCount) + jitter);
    } else {
      LargeBase(retryCount);
      Pow2OfSeven(retryCount - (retryCount - 7));
      Pow2Mono(retryCount - (retryCount - 7), retryCount);
      assert DocumentedBase(retryCount) == 3600;
    }
  }

  lemma LargeBase(n: nat)
    requires n > 58
    ensures -TWO63 <= Wrap64((if n >= 64 then 0 else Wrap64(Pow2(n))) * 30) <= 0
  {
    if n < 64 {
      var d := n - 59;
      Pow2Split(n - d, d);
      Pow2Of59(n - d);
      assert Pow2(d) == if d == 0 then 1 else if d == 1 then 2 else if d == 2 then 4 else if d == 3 then 8 else 16;
    }
  }
}
