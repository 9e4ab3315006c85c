/** The retrying request loop (internal/httpx/client.go). */
module Retry {
  import opened Prelude

  /** What one attempt meets: the classifiers look at these properties of an error. */
  datatype Attempt =
    | NotBuilt                                                  // newRequest failed
    | SendError(cancelled: bool, deadline: bool, dial: bool)    // Do failed
    | ReadError(cancelled: bool, deadline: bool)                // the body broke off
    | Reply(status: nat, body: string)                          // a complete response

  datatype Result =
    | Body(body: string)
    | StatusError(status: nat, body: string)
    | AttemptError(attempt: Attempt)
    | ContextError

  /** `isTransientErr`. */
  predicate Transient(a: Attempt) { (a.SendError? || a.ReadError?) && !a.cancelled && !a.deadline }

  /** `isRetriableSendErr`: the request cannot have reached the server. */
  predicate DialFailure(a: Attempt) { a.SendError? && Transient(a) && a.dial }

  predicate ServerError(a: Attempt) { a.Reply? && a.status >= 500 }

  /** The attempts that a request of this kind repeats. */
  predicate Repeats(a: Attempt, idempotent: bool) {
    ServerError(a) || DialFailure(a) || (idempotent && Transient(a))
  }

  /**
   * MAIN: exactly these attempts are repeated: a complete reply of 500 or more; and an error of the transport that is
   * neither a cancellation nor a timeout, which for a request that creates something must be a failed dial.
   */
  lemma RepeatsExactly(a: Attempt, idempotent: bool)
    ensures Repeats(a, idempotent) <==>
            match a
            case NotBuilt => false
            case SendError(cancelled, deadline, dial) => !cancelled && !deadline && (idempotent || dial)
            case ReadError(cancelled, deadline) => !cancelled && !deadline && idempotent
            case Reply(status, _) => status >= 500
  {
  }

  function ResultOf(a: Attempt): Result {
    match a
    case Reply(status, body) => if status >= 400 then StatusError(status, body) else Body(body)
    case _ => AttemptError(a)
  }

  /** The network, the clock and the context: attempts meet anything, the context may end at any time. */
  class World {
    var attempts: seq<Attempt>
    var waits: seq<int>
    var done: bool

    constructor ()
      ensures attempts == [] && waits == []
    {
      attempts, waits, done := [], [], *;
    }

    method Do() returns (a: Attempt)
      modifies this
      ensures attempts == old(attempts) + [a] && waits == old(waits)
      ensures old(done) ==> done
    {
      a := *;
      var ended: bool := *;
      attempts, done := attempts + [a], done || ended;
    }

    /** Wait out the delay, unless the context ends first. */
    method After(delay: int) returns (elapsed: bool)
      modifies this
      ensures attempts == old(attempts) && waits == old(waits) + [delay]
      ensures (old(done) ==> done) && (!elapsed ==> done)
    {
      var ended: bool := *;
      waits, done := waits + [delay], done || ended;
      elapsed := *;
      if !done { elapsed := true; }
    }

    method ContextDone() returns (d: bool)
      modifies this
      ensures attempts == old(attempts) && waits == old(waits)
      ensures d == done && (old(done) ==> done)
    {
      var ended: bool := *;
      done := done || ended;
      d := done;
    }
  }

  // ---- backoff ---------------------------------------------------------------------------

  const TWO63 := 0x8000_0000_0000_0000
  const TWO64 := 0x1_0000_0000_0000_0000

  /** A 64-bit integer after overflow. */
  function Wrap(x: int): int { (x + TWO63) % TWO64 - TWO63 }

  lemma WrapIs(x: int)
    ensures -0x8000_0000_0000_0000 <= Wrap(x) < 0x8000_0000_0000_0000 && (Wrap(x) - x) % 0x1_0000_0000_0000_0000 == 0
  {
    var q := (x + TWO63) / TWO64;
    assert Wrap(x) - x == -q * TWO64;
  }

  function Pow2(k: nat): nat { if k == 0 then 1 else 2 * Pow2(k - 1) }

  /** How long a wait takes; a negative duration ends at once. */
  function Length(delay: int): nat { if delay > 0 then delay else 0 }

  function Total(waits: seq<int>): nat {
    if waits == [] then 0 else Total(waits[..|waits| - 1]) + Length(waits[|waits| - 1])
  }

  lemma WrapShift(x: int, m: int)
    ensures Wrap(x + m * TWO64) == Wrap(x)
  {
    var q, r := (x + TWO63) / TWO64, (x + TWO63) % TWO64;
    assert x + m * TWO64 + TWO63 == (q + m) * TWO64 + r;
  }

  lemma WrapDouble(x: int)
    ensures Wrap(2 * Wrap(x)) == Wrap(2 * x)
  {
    var q := (x + TWO63) / TWO64;
    assert Wrap(x) == x - q * TWO64;
    WrapShift(2 * x, -2 * q);
  }

  lemma WrapShortens(x: nat)
    ensures Length(Wrap(x)) <= x
  {
  }

  /** The delay doubled k times. */
  function Doubled(delay: nat, k: nat): nat { delay * Pow2(k) }

  /** The k-th wait is the first delay doubled k times, in 64 bits. */
  ghost predicate Doubles(waits: seq<int>, delay: nat) {
    forall k :: 0 <= k < |waits| ==> waits[k] == Wrap(Doubled(delay, k))
  }

  lemma NextDelay(delay: nat, k: nat)
    ensures Wrap(2 * Wrap(Doubled(delay, k))) == Wrap(Doubled(delay, k + 1))
  {
    hide Wrap, Doubled;
    DoubledStep(delay, k);
    WrapDouble(Doubled(delay, k));
  }

  lemma DoubledStep(delay: nat, k: nat)
    ensures Doubled(delay, k + 1) == 2 * Doubled(delay, k)
  {
    var p := Pow2(k);
    assert Pow2(k + 1) == 2 * p;
    hide Pow2;
    TwiceProduct(delay, p);
  }

  lemma TwiceProduct(a: nat, b: nat)
    ensures a * (2 * b) == 2 * (a * b)
  {
  }

  lemma FirstWait(delay: nat)
    requires delay < TWO63
    ensures Wrap(Doubled(delay, 0)) == delay
  {
    assert Pow2(0) == 1;
    hide Pow2;
  }

  /** That is, each wait is twice the one before it, in 64 bits. */
  lemma DoublesSays(waits: seq<int>, delay: nat, k: nat)
    requires Doubles(waits, delay) && k + 1 < |waits|
    ensures waits[k + 1] == Wrap(2 * waits[k])
  {
    NextDelay(delay, k);
    hide Doubled, Wrap;
  }

  /** MAIN: the waits add up to less than the doubled delays would, overflow or not. */
  lemma {:induction false} TotalBackoff(waits: seq<int>, delay: nat)
    requires Doubles(waits, delay)
    ensures Total(waits) <= delay * (Pow2(|waits|) - 1)
  {
    if waits == [] {
    } else {
      var n := |waits| - 1;
      TotalBackoff(waits[..n], delay);
      WrapShortens(Doubled(delay, n));
      Sum(delay, Pow2(n));
    }
  }

  lemma Sum(delay: nat, p: nat)
    ensures delay * (2 * p - 1) == delay * (p - 1) + delay * p
  {
  }

  lemma {:induction false} Pow2Monotone(a: nat, b: nat)
    requires a <= b
    ensures 1 <= Pow2(a) <= Pow2(b)
  {
    if b > a { Pow2Monotone(a, b - 1); } else if a > 0 { Pow2Monotone(a - 1, a - 1); }
  }

  // ---- the loop --------------------------------------------------------------------------

  function Most(maxAttempts: int): nat { if maxAttempts < 1 then 1 else maxAttempts }

  function FirstDelay(delay: int): nat { if delay <= 0 then 500_000_000 else delay }

  /** `once`. */
  method Once(w: World, idempotent: bool) returns (r: Result, retry: bool)
    modifies w
    ensures |w.attempts| == |old(w.attempts)| + 1 && w.attempts[..|old(w.attempts)|] == old(w.attempts)
        && w.waits == old(w.waits)
    ensures var a := w.attempts[|old(w.attempts)|]; r == ResultOf(a) && retry == Repeats(a, idempotent)
    ensures match w.attempts[|old(w.attempts)|]
      case Reply(status, body) =>
        (status < 400 ==> r == Body(body)) && (status >= 400 ==> r == StatusError(status, body))
        && (retry <==> status >= 500)
      case SendError(cancelled, deadline, dial) =>
        r.AttemptError? && (retry <==> !cancelled && !deadline && (idempotent || dial))
      case ReadError(cancelled, deadline) => r.AttemptError? && (retry <==> !cancelled && !deadline && idempotent)
      case NotBuilt => r.AttemptError? && !retry
    ensures old(w.done) ==> w.done
  {
    var a := w.Do();
    match a
    case NotBuilt => return AttemptError(a), false;
    case SendError(cancelled, deadline, dial) =>
      retry := !cancelled && !deadline && dial;
      if idempotent { retry := !cancelled && !deadline; }
      return AttemptError(a), retry;
    case ReadError(cancelled, deadline) => return AttemptError(a), idempotent && !cancelled && !deadline;
    case Reply(status, body) =>
      if status >= 400 { return StatusError(status, body), status >= 500; }
      return Body(body), false;
  }

  /**
   * `send`, from a fresh record: every attempt but the last was one to repeat; the number of attempts
   * is bounded; the waits double; and the result is the last attempt's or the context's error.
   */
  method Send(w: World, maxAttempts: int, delay: int, idempotent: bool) returns (r: Result)
    requires w.attempts == [] && w.waits == [] && delay < TWO63
    modifies w
    ensures |w.attempts| <= Most(maxAttempts) && |w.waits| <= Most(maxAttempts) - 1
    ensures |w.attempts| <= if maxAttempts < 1 then 1 else maxAttempts
    ensures forall k :: 0 <= k < |w.attempts| - 1 ==> Repeats(w.attempts[k], idempotent)
    ensures forall k :: 0 <= k < |w.attempts| - 1 ==>
              match w.attempts[k]
              case Reply(status, _) => status >= 500
              case SendError(cancelled, deadline, dial) => !cancelled && !deadline && (idempotent || dial)
              case ReadError(cancelled, deadline) => !cancelled && !deadline && idempotent
              case NotBuilt => false
    ensures forall k :: 0 <= k < |w.attempts| && w.attempts[k].Reply? && w.attempts[k].status < 500 ==>
              k == |w.attempts| - 1
    ensures forall k :: 0 <= k < |w.attempts| && (w.attempts[k].SendError? || w.attempts[k].ReadError?)
                        && (w.attempts[k].cancelled || w.attempts[k].deadline) ==>
              k == |w.attempts| - 1
    ensures |w.waits| > 0 ==> w.waits[0] == (if delay <= 0 then 500_000_000 else delay)
    ensures |w.attempts| <= |w.waits| + 1 && |w.waits| <= |w.attempts|
    ensures r == ContextError ==> w.done && (forall k :: 0 <= k < |w.attempts| ==> Repeats(w.attempts[k], idempotent))
    ensures r != ContextError ==>
              && |w.attempts| == |w.waits| + 1 && r == ResultOf(w.attempts[|w.waits|])
              && (Repeats(w.attempts[|w.waits|], idempotent) ==> |w.attempts| == Most(maxAttempts))
              && (w.attempts[|w.waits|].Reply? && w.attempts[|w.waits|].status >= 500 ==>
                    |w.attempts| == if maxAttempts < 1 then 1 else maxAttempts)
    ensures Doubles(w.waits, FirstDelay(delay))
    ensures Total(w.waits) <= FirstDelay(delay) * (Pow2(Most(maxAttempts) - 1) - 1)
  {
    hide Pow2, Wrap, Doubled, Total;
    var attempts := Most(maxAttempts);
    var d: int := FirstDelay(delay);
    ghost var first: nat := d;
    FirstWait(first);
    r := ContextError;
    var i := 0;
    while i < attempts
      invariant 0 <= i <= attempts && |w.attempts| == i && |w.waits| == (if i == 0 then 0 else i - 1)
      invariant forall k :: 0 <= k < i ==> Repeats(w.attempts[k], idempotent)
      invariant i > 0 ==> r == ResultOf(w.attempts[i - 1])
      invariant Doubles(w.waits, first) && d == Wrap(Doubled(first, |w.waits|))
    {
      if i > 0 {
        var elapsed := w.After(d);
        NextDelay(first, |w.waits| - 1);
        if !elapsed {
          BackoffBound(w.waits, first, attempts - 1);
          return ContextError;
        }
        d := Wrap(2 * d);
      }
      var over := w.ContextDone();
      if over {
        BackoffBound(w.waits, first, attempts - 1);
        return ContextError;
      }
      var retry;
      r, retry := Once(w, idempotent);
      if !retry {
        BackoffBound(w.waits, first, attempts - 1);
        return;
      }
      i := i + 1;
    }
    BackoffBound(w.waits, first, attempts - 1);
  }

  lemma BackoffBound(waits: seq<int>, delay: nat, n: nat)
    requires Doubles(waits, delay) && |waits| <= n
    ensures Total(waits) <= delay * (Pow2(n) - 1)
  {
    TotalBackoff(waits, delay);
    Pow2Monotone(|waits|, n);
    hide Pow2, Total, Doubles;
    Grow(delay, Pow2(|waits|) - 1, Pow2(n) - 1);
  }

  lemma Grow(delay: nat, a: nat, b: nat)
    requires a <= b
    ensures delay * a <= delay * b
  {
  }
}
