/** Retries of API calls, with the delay computed in 64-bit nanoseconds. */
module Retry {

  const TWO_63: int := 0x8000_0000_0000_0000
  const TWO_64: int := 0x1_0000_0000_0000_0000

  /** What 64-bit signed arithmetic keeps of an integer. */
  function Wrap(x: int): (w: int)
    ensures -TWO_63 <= w < TWO_63
    ensures -TWO_63 <= x < TWO_63 ==> w == x
  {
    (x + TWO_63) % TWO_64 - TWO_63
  }

  function PowerOf2(n: nat): int
  {
    if n == 0 then 1 else 2 * PowerOf2(n - 1)
  }

  lemma {:induction false} PowerOf2Grows(m: nat, n: nat)
    requires m <= n
    ensures 0 < PowerOf2(m) <= PowerOf2(n)
    decreases n
  {
    if m < n { PowerOf2Grows(m, n - 1); } else if n > 0 { PowerOf2Grows(n - 1, n - 1); }
  }

  datatype Policy = Policy(maxAttempts: int, baseDelay: int, maxDelay: int, rateLimitMaxDelay: int, networkRetry: bool)

  predicate Accepted(p: Policy)
  {
    && p.maxAttempts >= 1 && p.baseDelay >= 0 && p.maxDelay >= 0
    && (p.maxDelay > 0 ==> p.baseDelay <= p.maxDelay)
  }

  predicate Is64Bit(x: int)
  {
    -TWO_63 <= x < TWO_63
  }

  /** The durations of a policy are 64-bit numbers. */
  predicate Machine(p: Policy)
  {
    Is64Bit(p.baseDelay) && Is64Bit(p.maxDelay) && Is64Bit(p.rateLimitMaxDelay)
  }

  function CapOf(p: Policy, rateLimited: bool): int
  {
    if rateLimited && p.rateLimitMaxDelay > 0 then p.rateLimitMaxDelay else p.maxDelay
  }

  /** The conversion of the power to a duration.  2^63 and above do not fit; what comes out then is
      the machine's choice, here `overflow`. */
  function Doublings(attempt: nat, overflow: int): int
  {
    if attempt < 63 then PowerOf2(attempt) else overflow
  }

  function Delay(p: Policy, attempt: nat, server: int, rateLimited: bool, overflow: int): int
  {
    var limit := CapOf(p, rateLimited);
    var asked := if server > limit && limit > 0 then limit else server;
    var product := Wrap(Doublings(attempt, overflow) * p.baseDelay);
    var grown := if product > limit && limit > 0 then limit else product;
    if asked > grown then asked else grown
  }

  function Max(a: int, b: int): int
  {
    if a > b then a else b
  }

  function Min(a: int, b: int): int
  {
    if a < b then a else b
  }

  /** The documented delay: exponential growth up to a cap, unless the server asks for more. */
  function Intended(p: Policy, attempt: nat, server: int, rateLimited: bool): int
  {
    var limit := CapOf(p, rateLimited);
    Max(Min(server, limit), Min(PowerOf2(attempt) * p.baseDelay, limit))
  }

  /** The product does not fit into 63 bits. */
  predicate Overflows(p: Policy, attempt: nat)
  {
    PowerOf2(attempt) * p.baseDelay >= TWO_63
  }

  lemma ProductBounds(p: Policy, attempt: nat)
    requires p.baseDelay >= 0
    ensures PowerOf2(attempt) * p.baseDelay >= 0
    ensures attempt >= 63 && p.baseDelay > 0 ==> Overflows(p, attempt)
  {
    PowerOf2Grows(0, attempt);
    if attempt >= 63 && p.baseDelay > 0 {
      PowerOf2Grows(63, attempt);
      PowerOf2Of63();
      TimesAtLeast(PowerOf2(attempt), p.baseDelay);
    }
    TimesNonNegative(PowerOf2(attempt), p.baseDelay);
  }

  lemma TimesAtLeast(a: int, b: int)
    requires a > 0 && b > 0
    ensures a * b >= a
  {
    assert a * b == a + a * (b - 1);
    TimesNonNegative(a, b - 1);
  }

  lemma TimesNonNegative(a: int, b: int)
    requires a >= 0 && b >= 0
    ensures a * b >= 0
  {
  }

  lemma PowerOf2Of63()
    ensures PowerOf2(63) == TWO_63
  {
    PowerOf2Adds(30, 30);
    PowerOf2Adds(60, 3);
    assert PowerOf2(3) == 8;
    PowerOf2Adds(15, 15);
    PowerOf2Adds(10, 5);
    PowerOf2Adds(5, 5);
    assert PowerOf2(5) == 32;
  }

  lemma {:induction false} PowerOf2Adds(m: nat, n: nat)
    ensures PowerOf2(m + n) == PowerOf2(m) * PowerOf2(n)
  {
    if n > 0 {
      PowerOf2Adds(m, n - 1);
      assert PowerOf2(m + n) == 2 * PowerOf2(m + n - 1);
    }
  }

  lemma NoOverflowIsExact(p: Policy, attempt: nat, server: int, rateLimited: bool, overflow: int)
    requires Accepted(p) && Machine(p) && CapOf(p, rateLimited) > 0 && !Overflows(p, attempt)
    ensures Delay(p, attempt, server, rateLimited, overflow) == Intended(p, attempt, server, rateLimited)
  {
    ProductBounds(p, attempt);
    if attempt >= 63 { assert p.baseDelay == 0; }
  }

  /** With a cap, the delay is the documented one exactly when the product fits, or the wrapped
      product still reaches the cap, or the server asks for at least the cap. */
  lemma DelayIsIntendedIff(p: Policy, attempt: nat, server: int, rateLimited: bool, overflow: int)
    requires Accepted(p) && Machine(p) && CapOf(p, rateLimited) > 0
    ensures Delay(p, attempt, server, rateLimited, overflow) == Intended(p, attempt, server, rateLimited) <==>
              !Overflows(p, attempt) || server >= CapOf(p, rateLimited)
              || Wrap(Doublings(attempt, overflow) * p.baseDelay) >= CapOf(p, rateLimited)
  {
    if !Overflows(p, attempt) { NoOverflowIsExact(p, attempt, server, rateLimited, overflow); }
  }

  /** One second doubled 34 times no longer fits: the thirty-fifth retry does not wait at all. */
  lemma LateRetriesDoNotWait()
    ensures var p := Policy(64, 1_000_000_000, 30_000_000_000, 0, false);
      Accepted(p) && Machine(p) && Delay(p, 34, 0, false, 0) == 0 && Intended(p, 34, 0, false) == 30_000_000_000
  {
    PowerOf2Adds(5, 5);
    assert PowerOf2(5) == 32 && PowerOf2(7) == 128;
    PowerOf2Adds(10, 7);
    assert PowerOf2(17) == 131_072;
    PowerOf2Adds(17, 17);
    assert PowerOf2(34) == 17_179_869_184;
  }

  /** With a cap no delay ever exceeds it, overflow or not. */
  lemma DelayIsCapped(p: Policy, attempt: nat, server: int, rateLimited: bool, overflow: int)
    requires CapOf(p, rateLimited) > 0
    ensures Delay(p, attempt, server, rateLimited, overflow) <= CapOf(p, rateLimited)
  {
  }

  /** The server's wish is obeyed up to the cap: the longer one when a rate limit is reported and such
      a cap is set, else the ordinary one, of which zero means none. */
  lemma ServerIsObeyed(p: Policy, attempt: nat, server: int, rateLimited: bool, overflow: int)
    ensures var delay := Delay(p, attempt, server, rateLimited, overflow);
      if rateLimited && p.rateLimitMaxDelay > 0 then Min(server, p.rateLimitMaxDelay) <= delay <= p.rateLimitMaxDelay
      else if p.maxDelay > 0 then Min(server, p.maxDelay) <= delay <= p.maxDelay
      else server <= delay
  {
  }

  // ---- the loop ----

  /** How one attempt ends. */
  datatype Attempt =
    | Success
    | Transient(retryAfter: int, rateLimited: bool)
    | Transport                                     // connection lost
    | Permanent

  datatype Result = Succeeded | Exhausted(last: Attempt) | Cancelled | Rejected

  /** What the calls and the sleeps will do: attempt i ends in `attempts(i)`; the context is
      cancelled from attempt `cancelledAt` on, and sleep `interruptedAt` is cut short. */
  datatype Environment = Environment(attempts: nat -> Attempt, cancelledAt: nat, interruptedAt: nat, overflow: int)

  /** The attempt may be repeated. */
  predicate Retryable(p: Policy, a: Attempt)
  {
    a.Transient? || (p.networkRetry && a.Transport?)
  }

  function DelayAfter(p: Policy, e: Environment, i: nat): int
  {
    var a := e.attempts(i);
    if a.Transient? then Delay(p, i, a.retryAfter, a.rateLimited, e.overflow) else Delay(p, i, 0, false, e.overflow)
  }

  /** At most `maxAttempts` calls with one sleep between each two, of the computed length; it stops
      at the first success or error that may not be repeated, and returns the final error. */
  method Do(p: Policy, e: Environment) returns (result: Result, calls: nat, sleeps: seq<int>)
    ensures result == Rejected <==> p.maxAttempts < 1 || p.baseDelay < 0 || p.maxDelay < 0 || 0 < p.maxDelay < p.baseDelay
    ensures result == Rejected ==> calls == 0 && sleeps == []
    ensures result != Rejected ==> calls <= p.maxAttempts && |sleeps| < p.maxAttempts && calls - 1 <= |sleeps| <= calls
    ensures forall i :: 0 <= i < |sleeps| ==>
              var a := e.attempts(i);
              || (a.Transient? && sleeps[i] == Delay(p, i, a.retryAfter, a.rateLimited, e.overflow))
              || (a.Transport? && p.networkRetry && sleeps[i] == Delay(p, i, 0, false, e.overflow))
    ensures result == Succeeded ==> calls > 0 && e.attempts(calls - 1) == Success
    ensures result.Exhausted? ==> calls > 0 && result.last == e.attempts(calls - 1) && result.last != Success
                                  && (calls == p.maxAttempts || result.last == Permanent || (result.last == Transport && !p.networkRetry))
    ensures result == Cancelled ==> e.cancelledAt <= calls || e.interruptedAt < calls
  {
    calls, sleeps := 0, [];
    if !Accepted(p) { return Rejected, 0, []; }
    for i := 0 to p.maxAttempts
      invariant calls == |sleeps| == i
      invariant forall j :: 0 <= j < i ==> Retryable(p, e.attempts(j)) && sleeps[j] == DelayAfter(p, e, j)
      invariant i < p.maxAttempts
    {
      if e.cancelledAt <= i { return Cancelled, calls, sleeps; }
      var a := e.attempts(i);
      calls := calls + 1;
      if a.Success? { return Succeeded, calls, sleeps; }
      if !Retryable(p, a) || i == p.maxAttempts - 1 { return Exhausted(a), calls, sleeps; }
      sleeps := sleeps + [DelayAfter(p, e, i)];
      if e.interruptedAt <= i { return Cancelled, calls, sleeps; }
    }
    result := Cancelled;
  }

  function Total(delays: seq<int>): int
  {
    if delays == [] then 0 else Total(delays[..|delays| - 1]) + delays[|delays| - 1]
  }

  lemma {:induction false} TotalBound(delays: seq<int>, limit: int)
    requires forall i :: 0 <= i < |delays| ==> delays[i] <= limit
    ensures Total(delays) <= |delays| * limit
  {
    if delays != [] {
      TotalBound(delays[..|delays| - 1], limit);
      assert |delays| * limit == (|delays| - 1) * limit + limit;
    }
  }

  /** The whole wait of one `Do` is at most (maxAttempts - 1) times the larger cap. */
  lemma WaitIsBounded(p: Policy, e: Environment, sleeps: seq<int>)
    requires Accepted(p) && p.maxDelay > 0 && |sleeps| < p.maxAttempts
    requires forall i :: 0 <= i < |sleeps| ==> sleeps[i] == DelayAfter(p, e, i)
    ensures Total(sleeps) <= (p.maxAttempts - 1) * Max(p.maxDelay, p.rateLimitMaxDelay)
  {
    var limit := Max(p.maxDelay, p.rateLimitMaxDelay);
    forall i | 0 <= i < |sleeps| ensures sleeps[i] <= limit {
      var a := e.attempts(i);
      if a.Transient? { DelayIsCapped(p, i, a.retryAfter, a.rateLimited, e.overflow); } else { DelayIsCapped(p, i, 0, false, e.overflow); }
    }
    TotalBound(sleeps, limit);
    TimesMonotone(|sleeps|, p.maxAttempts - 1, limit);
  }

  lemma TimesMonotone(a: int, b: int, c: int)
    requires a <= b && c >= 0
    ensures a * c <= b * c
  {
  }
}
