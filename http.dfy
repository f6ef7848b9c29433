/** What the three request gateways see of the wire, and the waiting rules
    they share. Time is in integer milliseconds; the random jitter of the
    catalogue client is not modelled, a jittered sleep records its base. */
module Http {
  import opened Wrappers

  /** The `Retry-After` header of a response: absent, present but empty,
      a non-negative finite number of seconds (here in ms), or text
      `float()` rejects. A negative, "nan" or "inf" value, which `float()`
      accepts and `time.sleep` rejects, has no case here. */
  datatype RetryAfter = NoHeader | EmptyHeader | Seconds(ms: nat) | Malformed

  /** What one send produces: a response, or a transport exception. */
  datatype Event<R> = Delivered(response: R) | TimedOut | ConnectionFailed

  /** The sleep an attempt ends with before the next one. */
  datatype Wait = NoWait | Fixed(ms: nat) | Jittered(baseMs: nat)

  function Pow2(n: nat): (p: nat)
    ensures p >= 1
  {
    if n == 0 then 1 else 2 * Pow2(n - 1)
  }

  function Min(a: int, b: int): int { if a <= b then a else b }

  /** `min(2 ** (attempt - 1), 8)` seconds: the server-error wait of
      `Shopify._request` and of `ShopifyCollectionReorder.graphql`. */
  function CappedStepMs(attempt: nat): (ms: nat)
    requires attempt >= 1
  {
    1000 * Min(Pow2(attempt - 1), 8)
  }

  lemma {:induction false} Pow2Monotone(m: nat, n: nat)
    requires m <= n
    ensures Pow2(m) <= Pow2(n)
    decreases n
  {
    if m < n { Pow2Monotone(m, n - 1); }
  }

  /** The schedule doubles from one second and is capped at eight. */
  lemma CappedStepSchedule(attempt: nat)
    requires attempt >= 1
    ensures 1000 <= CappedStepMs(attempt) <= 8000
    ensures attempt <= 4 ==> CappedStepMs(attempt) == 1000 * Pow2(attempt - 1)
    ensures attempt >= 4 ==> CappedStepMs(attempt) == 8000
    ensures CappedStepMs(attempt) <= CappedStepMs(attempt + 1)
  {
    Pow2Monotone(attempt - 1, attempt);
    if attempt >= 4 {
      Pow2Monotone(3, attempt - 1);
    }
    if attempt <= 4 {
      Pow2Monotone(attempt - 1, 3);
    }
  }

  /** The catalogue client's backoff after `k` doublings from one second,
      each capped at twenty: `min(2 ** k, 20)` seconds. */
  function ClientBackoffMs(k: nat): nat {
    1000 * Min(Pow2(k), 20)
  }

  /** `backoff = min(backoff * 2, 20)` applied to `ClientBackoffMs(k)` gives
      `ClientBackoffMs(k + 1)`: the loop's update and the closed form agree. */
  lemma ClientBackoffStep(k: nat)
    ensures ClientBackoffMs(k + 1) == Min(2 * ClientBackoffMs(k), 20000)
    ensures 1000 <= ClientBackoffMs(k) <= 20000
    ensures k <= 4 ==> ClientBackoffMs(k) == 1000 * Pow2(k)
    ensures k >= 5 ==> ClientBackoffMs(k) == 20000
  {
    if k >= 5 { Pow2Monotone(5, k); }
    if k <= 4 { Pow2Monotone(k, 4); }
  }

  /** `_throttle` / `_respect_min_interval`: the sleep before a send, given
      the time since the previous one. */
  function MinIntervalWait(elapsed: int, minInterval: int): (w: nat)
    ensures elapsed + w >= minInterval
    ensures w > 0 ==> elapsed + w == minInterval
    ensures w == 0 <==> elapsed >= minInterval
  {
    if elapsed < minInterval then minInterval - elapsed else 0
  }

  // ---------------------------------------------------------------------
  // Attempt loops

  /** How one attempt of a retry loop ends: with a value, with a raised
      error, or with a sleep and the backoff the next attempt starts from. */
  datatype Step<T, E> = Done(value: T) | Fail(error: E) | Again(wait: Wait, backoffMs: nat)

  /** One attempt: whether it paused on a rate hint, and how it ended. */
  datatype Attempt<T, E> = Attempt(pause: bool, next: Step<T, E>)

  /** The attempts a loop of `n` tries makes from try `a` when the backoff
      is `b`; `at(a, b)` is what try `a` does. The loop stops at the first
      attempt that does not end in `Again`. */
  function Trace<T, E>(at: (nat, nat) -> Attempt<T, E>, n: nat, a: nat, b: nat): (t: seq<Attempt<T, E>>)
    decreases n - a
  {
    if a >= n then []
    else
      var s := at(a, b);
      if s.next.Again? then [s] + Trace(at, n, a + 1, s.next.backoffMs) else [s]
  }

  /** One more try of the loop. */
  lemma TraceUnroll<T, E>(at: (nat, nat) -> Attempt<T, E>, n: nat, a: nat, b: nat)
    requires a < n
    ensures at(a, b).next.Again? ==> Trace(at, n, a, b) == [at(a, b)] + Trace(at, n, a + 1, at(a, b).next.backoffMs)
    ensures !at(a, b).next.Again? ==> Trace(at, n, a, b) == [at(a, b)]
  {
  }

  /** The backoff try `a + i` starts from, when try `a` starts from `b`. */
  function BackoffBefore<T, E>(at: (nat, nat) -> Attempt<T, E>, a: nat, b: nat, i: nat): nat
    decreases i
  {
    if i == 0 then b
    else BackoffBefore(at, a + 1, if at(a, b).next.Again? then at(a, b).next.backoffMs else b, i - 1)
  }

  /** Attempt `i` of a trace is try `a + i` at the backoff reached by then. */
  lemma {:induction false} TraceAt<T, E>(at: (nat, nat) -> Attempt<T, E>, n: nat, a: nat, b: nat, i: nat)
    requires i < |Trace(at, n, a, b)|
    ensures Trace(at, n, a, b)[i] == at(a + i, BackoffBefore(at, a, b, i))
    decreases i
  {
    if i > 0 {
      TraceAt(at, n, a + 1, at(a, b).next.backoffMs, i - 1);
    }
  }

  /** Carrying a loop over its traces one try further: the attempts made so
      far followed by the trace from the current try are the whole trace. */
  lemma TraceAdvance<T, E>(at: (nat, nat) -> Attempt<T, E>, n: nat, b0: nat, done: seq<Attempt<T, E>>, a: nat, b: nat)
    requires a < n && Trace(at, n, 0, b0) == done + Trace(at, n, a, b)
    ensures at(a, b).next.Again? ==> Trace(at, n, 0, b0) == (done + [at(a, b)]) + Trace(at, n, a + 1, at(a, b).next.backoffMs)
    ensures !at(a, b).next.Again? ==> Trace(at, n, 0, b0) == done + [at(a, b)]
  {
    TraceUnroll(at, n, a, b);
  }

  /** What the loop hands back: the value or the error of its last attempt,
      or `exhausted` when every attempt ended in `Again`. */
  function Outcome<T, E>(t: seq<Attempt<T, E>>, exhausted: E): (r: Result<T, E>)
    ensures r.Ok? ==> t != [] && t[|t| - 1].next == Done(r.value)
  {
    if t == [] then Err(exhausted)
    else match t[|t| - 1].next
      case Done(v) => Ok(v)
      case Fail(e) => Err(e)
      case Again(_, _) => Err(exhausted)
  }

  /** At most `n - a` attempts are made. */
  lemma {:induction false} TraceBound<T, E>(at: (nat, nat) -> Attempt<T, E>, n: nat, a: nat, b: nat)
    requires a <= n
    ensures |Trace(at, n, a, b)| <= n - a
    decreases n - a
  {
    if a < n && at(a, b).next.Again? {
      TraceBound(at, n, a + 1, at(a, b).next.backoffMs);
    }
  }

  /** The first attempt is try `a` at backoff `b`. */
  lemma TraceFirst<T, E>(at: (nat, nat) -> Attempt<T, E>, n: nat, a: nat, b: nat)
    requires a < n
    ensures Trace(at, n, a, b) != [] && Trace(at, n, a, b)[0] == at(a, b)
  {
  }

  /** Every attempt but the last ends in `Again`. */
  lemma {:induction false} TraceRetriesBeforeLast<T, E>(at: (nat, nat) -> Attempt<T, E>, n: nat, a: nat, b: nat, i: nat)
    requires i + 1 < |Trace(at, n, a, b)|
    ensures Trace(at, n, a, b)[i].next.Again?
    decreases n - a
  {
    var s := at(a, b);
    if i > 0 {
      TraceRetriesBeforeLast(at, n, a + 1, s.next.backoffMs, i - 1);
    }
  }

  /** A loop that ends in `Again`, or makes no attempt, has used all its tries. */
  lemma {:induction false} TraceExhausted<T, E>(at: (nat, nat) -> Attempt<T, E>, n: nat, a: nat, b: nat)
    requires a <= n
    ensures var t := Trace(at, n, a, b);
      (t == [] || t[|t| - 1].next.Again?) ==> |t| == n - a
    decreases n - a
  {
    if a < n && at(a, b).next.Again? {
      var t' := Trace(at, n, a + 1, at(a, b).next.backoffMs);
      TraceExhausted(at, n, a + 1, at(a, b).next.backoffMs);
      assert Trace(at, n, a, b) == [at(a, b)] + t';
      if t' != [] {
        assert Trace(at, n, a, b)[|Trace(at, n, a, b)| - 1] == t'[|t'| - 1];
      }
    }
  }

  /** The loop runs out exactly when every try was made and each one ended
      in `Again`. */
  lemma ExhaustedMeansAllRetried<T, E>(at: (nat, nat) -> Attempt<T, E>, n: nat, b: nat, exhausted: E, i: nat)
    requires i < |Trace(at, n, 0, b)|
    ensures var t := Trace(at, n, 0, b);
      Outcome(t, exhausted) == Err(exhausted) && !Trace(at, n, 0, b)[|t| - 1].next.Fail? ==> |t| == n && t[i].next.Again?
  {
    var t := Trace(at, n, 0, b);
    TraceExhausted(at, n, 0, b);
    if i + 1 < |t| {
      TraceRetriesBeforeLast(at, n, 0, b, i);
    }
  }

  /** The bases of the jittered sleeps of a trace, in order. */
  function JitterBases<T, E>(t: seq<Attempt<T, E>>): (bs: seq<nat>)
    ensures |bs| <= |t|
  {
    if t == [] then []
    else if t[0].next.Again? && t[0].next.wait.Jittered? then [t[0].next.wait.baseMs] + JitterBases(t[1..])
    else JitterBases(t[1..])
  }

  /** The doubling discipline of the catalogue client: a jittered sleep
      sleeps around the current backoff and doubles it, capped at twenty
      seconds; every other ending leaves the backoff alone. */
  ghost predicate Doubling<T, E>(at: (nat, nat) -> Attempt<T, E>) {
    forall a: nat, b: nat :: at(a, b).next.Again? ==>
      if at(a, b).next.wait.Jittered?
      then at(a, b).next.wait.baseMs == b && at(a, b).next.backoffMs == Min(2 * b, 20000)
      else at(a, b).next.backoffMs == b
  }

  /** Under that discipline, starting from `ClientBackoffMs(j)`, the `i`-th
      jittered sleep has base `ClientBackoffMs(j + i)`: one, two, four, eight,
      sixteen, then twenty seconds from a fresh loop. */
  lemma {:induction false} JitterSchedule<T, E>(at: (nat, nat) -> Attempt<T, E>, n: nat, a: nat, j: nat, i: nat)
    requires Doubling(at)
    requires i < |JitterBases(Trace(at, n, a, ClientBackoffMs(j)))|
    ensures JitterBases(Trace(at, n, a, ClientBackoffMs(j)))[i] == ClientBackoffMs(j + i)
    decreases n - a
  {
    var b := ClientBackoffMs(j);
    var s := at(a, b);
    var t := Trace(at, n, a, b);
    assert a < n;
    if s.next.Again? {
      var rest := Trace(at, n, a + 1, s.next.backoffMs);
      assert t == [s] + rest;
      assert t[1..] == rest;
      if s.next.wait.Jittered? {
        ClientBackoffStep(j);
        assert s.next.backoffMs == ClientBackoffMs(j + 1);
        if i > 0 {
          JitterSchedule(at, n, a + 1, j + 1, i - 1);
        }
      } else {
        JitterSchedule(at, n, a + 1, j, i);
      }
    }
  }
}
