/**
 * One endpoint's rate limiter: a token bucket whose rate rises by steps and halves on failure,
 * behind a circuit breaker. Times are in seconds, rates in calls per second, as exact reals.
 */
module Limiter {
  import opened Wrappers

  const FLOOR: real := 2.0
  const DEFAULT_MAX: real := 20.0
  const STEP: real := 0.5
  const FAILURES_TO_OPEN := 5
  const INITIAL_BACKOFF: nat := 1
  const MAX_BACKOFF: nat := 60

  datatype Decision = Ready | Wait(seconds: real) | Refused(seconds: real)

  datatype Breaker = Closed | Open(until: real) | HalfOpen

  datatype State = State(
    rate: real, maxRate: real, tokens: real, lastRefill: real, failures: nat, breaker: Breaker, backoff: nat,
    jitter: bv64)

  function Least(a: real, b: real): real {
    if a < b then a else b
  }

  function Most(a: real, b: real): real {
    if a < b then b else a
  }

  // ----- the calls, as functions of the state --------------------------------------------------------

  /** Calls that may be made in so many seconds at a rate. */
  function Allowance(rate: real, seconds: real): real {
    seconds * rate
  }

  function Refilled(s: State, now: real): State {
    if now <= s.lastRefill then s
    else s.(lastRefill := now,
            tokens := Least(s.tokens + Allowance(s.rate, now - s.lastRefill), Most(s.rate, 1.0)))
  }

  function Polled(s: State, now: real): (State, Decision)
    requires s.rate > 0.0
  {
    if s.breaker.Open? then
      if now < s.breaker.until then (s, Refused(s.breaker.until - now)) else (s.(breaker := HalfOpen), Ready)
    else
      var r := Refilled(s, now);
      if r.tokens >= 1.0 then (r.(tokens := r.tokens - 1.0), Ready) else (r, Wait((1.0 - r.tokens) / r.rate))
  }

  function Succeeded(s: State): State {
    if s.breaker.HalfOpen?
    then s.(failures := 0, breaker := Closed, rate := Least(FLOOR, s.maxRate), backoff := INITIAL_BACKOFF)
    else s.(failures := 0, breaker := Closed, rate := Least(s.rate + STEP, s.maxRate))
  }

  /** One turn of the xorshift generator. */
  function NextJitter(x: bv64): bv64 {
    XorLeft17(XorRight7(XorLeft13(x)))
  }

  function XorLeft13(x: bv64): bv64 {
    x ^ (x << 13)
  }

  function XorRight7(x: bv64): bv64 {
    x ^ (x >> 7)
  }

  function XorLeft17(x: bv64): bv64 {
    x ^ (x << 17)
  }

  function Millis(x: bv64): (ms: nat)
    ensures ms < 1000
  {
    x as int % 1000
  }

  function Opened(s: State, now: real): State {
    var jitter := NextJitter(s.jitter);
    s.(jitter := jitter, failures := 0,
       breaker := Open(now + s.backoff as real + Millis(jitter) as real / 1000.0))
  }

  function Failed(s: State, now: real): State {
    var slower := s.(rate := Most(s.rate / 2.0, Least(FLOOR, s.maxRate)));
    if s.breaker.HalfOpen? then
      Opened(slower.(backoff := if s.backoff * 2 < MAX_BACKOFF then s.backoff * 2 else MAX_BACKOFF), now)
    else if s.failures + 1 >= FAILURES_TO_OPEN then Opened(slower, now)
    else slower.(failures := s.failures + 1)
  }

  /** What every reachable state satisfies. */
  ghost predicate Valid(s: State) {
    && s.maxRate >= 1.0
    && Least(2.0, s.maxRate) <= s.rate <= s.maxRate
    && 0.0 <= s.tokens <= s.maxRate
    && s.failures < 5
    && 1 <= s.backoff <= 60
    && s.jitter != 0
  }

  class Endpoint {
    var rate: real
    const maxRate: real
    var tokens: real
    var lastRefill: real
    var failures: nat
    var breaker: Breaker
    var backoff: nat
    var jitter: bv64

    ghost function View(): State
      reads this
    {
      State(rate, maxRate, tokens, lastRefill, failures, breaker, backoff, jitter)
    }

    /** A limit of zero is refused when the configuration is read. */
    constructor (maxRps: Option<nat>, url: seq<bv8>, now: real)
      requires maxRps != Some(0)
      ensures Valid(View()) && breaker == Closed && backoff == 1 && tokens == 1.0 && lastRefill == now
      ensures maxRate == if maxRps.Some? then maxRps.value as real else 20.0
      ensures rate == Least(2.0, maxRate) && failures == 0
    {
      maxRate := if maxRps.Some? then maxRps.value as real else DEFAULT_MAX;
      rate := Least(FLOOR, if maxRps.Some? then maxRps.value as real else DEFAULT_MAX);
      tokens, lastRefill, failures, breaker, backoff := 1.0, now, 0, Closed, INITIAL_BACKOFF;
      var seed := SeedFrom(url);
      jitter := seed;
    }

    /** Try to spend a token. */
    method Poll(now: real) returns (d: Decision)
      requires Valid(View())
      modifies this
      ensures (View(), d) == Polled(old(View()), now)
    {
      if breaker.Open? {
        if now < breaker.until {
          return Refused(breaker.until - now);
        }
        breaker := HalfOpen;
        return Ready;
      }
      Refill(now);
      if tokens >= 1.0 {
        tokens := tokens - 1.0;
        return Ready;
      }
      var missing := 1.0 - tokens;
      return Wait(missing / rate);
    }

    method RecordSuccess()
      modifies this
      ensures View() == Succeeded(old(View()))
      ensures breaker == Closed && failures == 0 && tokens == old(tokens) && lastRefill == old(lastRefill)
      ensures jitter == old(jitter)
      ensures if old(breaker).HalfOpen? then rate == Least(2.0, maxRate) && backoff == 1
              else rate == Least(old(rate) + 0.5, maxRate) && backoff == old(backoff)
    {
      failures := 0;
      if breaker.HalfOpen? {
        breaker := Closed;
        rate := Least(FLOOR, maxRate);
        backoff := INITIAL_BACKOFF;
      } else {
        breaker := Closed;
        rate := Least(rate + STEP, maxRate);
      }
    }

    method RecordFailure(now: real)
      modifies this
      ensures View() == Failed(old(View()), now)
      ensures rate == Most(old(rate) / 2.0, Least(2.0, maxRate)) && tokens == old(tokens) && lastRefill == old(lastRefill)
      ensures if old(breaker).HalfOpen? || old(failures) >= 4 then breaker.Open? && failures == 0
              else breaker == old(breaker) && failures == old(failures) + 1 && jitter == old(jitter)
      ensures backoff == if old(breaker).HalfOpen? then Capped(old(backoff) * 2) else old(backoff)
    {
      rate := Most(rate / 2.0, Least(FLOOR, maxRate));
      if breaker == HalfOpen {
        backoff := if backoff * 2 < MAX_BACKOFF then backoff * 2 else MAX_BACKOFF;
        OpenAt(now);
        return;
      }
      failures := failures + 1;
      if failures >= FAILURES_TO_OPEN {
        OpenAt(now);
      }
    }

    method OpenAt(now: real)
      modifies this
      ensures View() == Opened(old(View()), now)
    {
      var ms := NextJitterMs();
      breaker := Open(now + backoff as real + ms as real / 1000.0);
      failures := 0;
    }

    method Refill(now: real)
      modifies this
      ensures View() == Refilled(old(View()), now)
    {
      var elapsed := if now <= lastRefill then 0.0 else now - lastRefill;
      if elapsed <= 0.0 {
        return;
      }
      lastRefill := now;
      tokens := Least(tokens + elapsed * rate, Most(rate, 1.0));
    }

    method NextJitterMs() returns (ms: nat)
      modifies this`jitter
      ensures jitter == NextJitter(old(jitter)) && ms == Millis(jitter)
    {
      hide Millis, XorLeft13, XorRight7, XorLeft17;
      jitter := XorLeft13(jitter);
      jitter := XorRight7(jitter);
      jitter := XorLeft17(jitter);
      ms := Millis(jitter);
    }
  }

  /** FNV-1a over the URL, with the low bit set. */
  method SeedFrom(url: seq<bv8>) returns (seed: bv64)
    ensures seed & 1 == 1 && seed != 0
    ensures seed == Fnv(url) | 1
  {
    hide FnvByte;
    var hash: bv64 := 0xcbf2_9ce4_8422_2325;
    for i := 0 to |url|
      invariant hash == Fnv(url[..i])
    {
      assert url[..i + 1][..i] == url[..i] && url[..i + 1][i] == url[i];
      hash := FnvByte(hash, url[i]);
    }
    assert url[..|url|] == url;
    seed := hash | 1;
  }

  function FnvByte(hash: bv64, byte: bv8): bv64 {
    (hash ^ (byte as bv64)) * 0x0000_0100_0000_01b3
  }

  function Fnv(url: seq<bv8>): bv64 {
    if url == [] then 0xcbf2_9ce4_8422_2325 else FnvByte(Fnv(url[..|url| - 1]), url[|url| - 1])
  }

  /** The published test vectors of 64-bit FNV-1a, for the empty string and for "a". */
  lemma FnvVectors()
    ensures Fnv([]) == 0xcbf2_9ce4_8422_2325 && Fnv([0x61]) == 0xaf63_dc4c_8601_ec8c
  {
    assert [0x61 as bv8][..0] == [];
    assert Fnv([0x61]) == FnvByte(Fnv([]), 0x61);
  }

  /** The first number of 64-bit xorshift from 1. */
  lemma JitterVector()
    ensures NextJitter(1) == 1082269761
  {
  }

  /** The generator never falls into its fixed point. */
  lemma JitterNonzero(x: bv64)
    requires x != 0
    ensures NextJitter(x) != 0
  {
    LeftNonzero(x);
    RightNonzero(XorLeft13(x));
    LeftNonzero(XorRight7(XorLeft13(x)));
  }

  lemma LeftNonzero(x: bv64)
    requires x != 0
    ensures XorLeft13(x) != 0 && XorLeft17(x) != 0
  {
  }

  lemma RightNonzero(x: bv64)
    requires x != 0
    ensures XorRight7(x) != 0
  {
  }

  // ----- every reachable state --------------------------------------------------------------------

  datatype Event = Poll(now: real) | Success | Failure(now: real)

  function Step(s: State, e: Event): State
    requires s.rate > 0.0
  {
    match e
    case Poll(now) => Polled(s, now).0
    case Success => Succeeded(s)
    case Failure(now) => Failed(s, now)
  }

  lemma StepValid(s: State, e: Event)
    requires Valid(s)
    ensures Valid(Step(s, e))
  {
    match e {
      case Poll(now) => if !s.breaker.Open? { RefillValid(s, now); }
      case Success =>
      case Failure(now) => FailedValid(s, now);
    }
  }

  lemma RefillValid(s: State, now: real)
    requires Valid(s)
    ensures Valid(Refilled(s, now))
  {
    hide Allowance;
    if now > s.lastRefill {
      AllowanceGrows(s.rate, 0.0, s.rate, now - s.lastRefill);
    }
  }

  /** More at a higher rate or for longer, and nothing in no time. */
  lemma AllowanceGrows(rate: real, seconds: real, rate': real, seconds': real)
    requires 0.0 <= rate <= rate' && 0.0 <= seconds <= seconds'
    ensures Allowance(rate, seconds) <= Allowance(rate', seconds')
    ensures seconds == 0.0 ==> Allowance(rate, seconds) == 0.0
  {
    Scaled(seconds, rate, rate');
    Scaled(rate', seconds, seconds');
    assert seconds' * rate' == rate' * seconds' && seconds * rate' == rate' * seconds;
  }

  lemma Scaled(a: real, b: real, c: real)
    requires 0.0 <= a && b <= c
    ensures a * b <= a * c
  {
  }

  lemma AllowanceAdds(rate: real, seconds: real, more: real)
    ensures Allowance(rate, seconds + more) == Allowance(rate, seconds) + Allowance(rate, more)
    ensures Allowance(rate, 1.0) == rate
  {
  }

  lemma FailedValid(s: State, now: real)
    requires Valid(s)
    ensures Valid(Failed(s, now))
  {
    JitterNonzero(s.jitter);
  }

  function After(s: State, events: seq<Event>): State
    requires Valid(s)
    ensures Valid(After(s, events))
    decreases |events|
  {
    if events == [] then s else
    StepValid(s, events[0]);
    After(Step(s, events[0]), events[1..])
  }

  // ----- the bucket -------------------------------------------------------------------------------

  /** A poll that spends a token, half-open probes aside. */
  predicate SpendsToken(s: State, e: Event)
    requires s.rate > 0.0
  {
    e.Poll? && !s.breaker.Open? && Polled(s, e.now).1 == Ready
  }

  function Spent(s: State, e: Event, t0: real): nat
    requires s.rate > 0.0
  {
    if SpendsToken(s, e) && e.now >= t0 then 1 else 0
  }

  /** Tokens spent at or after `t0`. */
  function Granted(s: State, events: seq<Event>, t0: real): nat
    requires Valid(s)
    decreases |events|
  {
    if events == [] then 0 else
    StepValid(s, events[0]);
    Spent(s, events[0], t0) + Granted(Step(s, events[0]), events[1..], t0)
  }

  /** What `n` grants since `t0` leave in the bucket. */
  ghost predicate Paid(s: State, n: nat, t0: real) {
    if s.lastRefill < t0 then n == 0
    else n as real + s.tokens <= Allowance(s.maxRate, 1.0 + s.lastRefill - t0)
  }

  lemma RefillPaid(s: State, n: nat, t0: real, now: real)
    requires Valid(s) && Paid(s, n, t0)
    ensures Paid(Refilled(s, now), n, t0)
    ensures t0 <= now ==> Refilled(s, now).lastRefill >= t0
  {
    hide Allowance;
    if now > s.lastRefill {
      var elapsed := now - s.lastRefill;
      AllowanceGrows(s.rate, elapsed, s.maxRate, elapsed);
      if s.lastRefill >= t0 {
        AllowanceAdds(s.maxRate, 1.0 + s.lastRefill - t0, elapsed);
        assert 1.0 + now - t0 == 1.0 + s.lastRefill - t0 + elapsed;
      } else if now >= t0 {
        AllowanceAdds(s.maxRate, 1.0, now - t0);
        AllowanceGrows(s.maxRate, 0.0, s.maxRate, now - t0);
        assert 1.0 + now - t0 == 1.0 + (now - t0);
      }
    }
  }

  lemma AfterSpend(s: State, n: nat, t0: real)
    requires Paid(s, n, t0) && s.lastRefill >= t0
    ensures Paid(s.(tokens := s.tokens - 1.0), n + 1, t0)
  {
  }

  ghost predicate InOrder(events: seq<Event>, now: real, last: real)
    decreases |events|
  {
    events == [] || (
      if events[0].Success? then InOrder(events[1..], now, last)
      else now <= events[0].now <= last && InOrder(events[1..], events[0].now, last))
  }

  lemma StepPaid(s: State, e: Event, n: nat, t0: real)
    requires Valid(s) && Paid(s, n, t0)
    ensures Paid(Step(s, e), n + Spent(s, e, t0), t0)
    ensures Step(s, e).maxRate == s.maxRate
    ensures Step(s, e).lastRefill == s.lastRefill || (e.Poll? && Step(s, e).lastRefill == e.now)
  {
    hide Paid, Refilled, Allowance;
    if e.Poll? && !s.breaker.Open? {
      var r := Refilled(s, e.now);
      RefillPaid(s, n, t0, e.now);
      RefillKeeps(s, e.now);
      if r.tokens >= 1.0 {
        if t0 <= e.now {
          AfterSpend(r, n, t0);
        } else {
          LessPaid(r, r.(tokens := r.tokens - 1.0), n, t0);
        }
      }
    } else {
      LessPaid(s, Step(s, e), n, t0);
    }
  }

  lemma RefillKeeps(s: State, now: real)
    ensures Refilled(s, now).maxRate == s.maxRate
    ensures Refilled(s, now).lastRefill == s.lastRefill || Refilled(s, now).lastRefill == now
  {
  }

  /** Nothing of what was paid depends on more than the bucket. */
  lemma LessPaid(s: State, t: State, n: nat, t0: real)
    requires Paid(s, n, t0) && t.maxRate == s.maxRate && t.lastRefill == s.lastRefill && t.tokens <= s.tokens
    ensures Paid(t, n, t0)
  {
  }

  lemma {:induction false} GrantsPaid(s: State, events: seq<Event>, n: nat, t0: real, now: real, t1: real)
    requires Valid(s) && Paid(s, n, t0) && s.lastRefill <= now <= t1 && InOrder(events, now, t1)
    ensures Paid(After(s, events), n + Granted(s, events, t0), t0)
    ensures After(s, events).lastRefill <= t1 && After(s, events).maxRate == s.maxRate
    decreases |events|
  {
    hide Paid, Step, Spent, Allowance;
    if events != [] {
      var e := events[0];
      StepValid(s, e);
      StepPaid(s, e, n, t0);
      GrantsPaid(Step(s, e), events[1..], n + Spent(s, e, t0), t0,
                 if e.Success? then now else e.now, t1);
    }
  }

  /**
   * However polls, successes and failures fall: the calls granted from the bucket between `t0` and
   * `t1` never exceed the configured rate times one second more than the window.
   */
  lemma WindowBound(s: State, events: seq<Event>, t0: real, t1: real)
    requires Valid(s) && s.lastRefill <= t0 <= t1 && InOrder(events, s.lastRefill, t1)
    ensures Granted(s, events, t0) as real <= Allowance(s.maxRate, t1 - t0 + 1.0)
  {
    hide Step, Spent, Granted, After, InOrder, Allowance;
    var t := After(s, events);
    AllowanceAdds(s.maxRate, 1.0, 0.0);
    AllowanceGrows(s.maxRate, 0.0, s.maxRate, t1 - t0 + 1.0);
    GrantsPaid(s, events, 0, t0, s.lastRefill, t1);
    if t.lastRefill >= t0 {
      AllowanceGrows(s.maxRate, 1.0 + t.lastRefill - t0, s.maxRate, t1 - t0 + 1.0);
    }
  }

  /** A caller told to wait is let through after exactly that long, and no sooner. */
  lemma WaitIsExact(s: State, now: real, later: real)
    requires Valid(s) && s.lastRefill <= now && 0.0 <= later
    requires Polled(s, now).1.Wait?
    ensures var (waiting, d) := Polled(s, now);
            d.seconds > 0.0 && (Polled(waiting, now + later).1 == Ready <==> d.seconds <= later)
  {
    hide Refilled;
    var r := Refilled(s, now);
    RefillRate(s, now);
    RefillReaches(r, later);
    Quotient(1.0 - r.tokens, r.rate, later);
  }

  lemma RefillRate(s: State, now: real)
    requires s.lastRefill <= now
    ensures Refilled(s, now) == s.(lastRefill := now, tokens := Refilled(s, now).tokens)
  {
  }

  lemma RefillReaches(r: State, later: real)
    requires r.tokens < 1.0 && 0.0 <= later
    ensures Refilled(r, r.lastRefill + later).tokens >= 1.0 <==> 1.0 - r.tokens <= later * r.rate
  {
    assert r.lastRefill + later - r.lastRefill == later;
    if later == 0.0 {
      assert later * r.rate == 0.0;
    }
  }

  lemma Quotient(a: real, b: real, c: real)
    requires 0.0 < a && 0.0 < b
    ensures 0.0 < a / b && (a / b <= c <==> a <= c * b)
  {
  }

  /** What a poll leaves in the bucket is never more than one second's worth, however long it was idle. */
  lemma NoBurstBanked(s: State, now: real)
    requires Valid(s) && !s.breaker.Open? && s.lastRefill < now
    ensures Polled(s, now).0.tokens <= Most(s.rate, 1.0)
    ensures s.rate > 1.0 && Polled(s, now).1 == Ready ==> Polled(s, now).0.tokens <= s.rate - 1.0
  {
    hide Allowance;
  }

  /** So many polls at one instant. */
  function Polls(s: State, k: nat, now: real): State
    requires Valid(s)
    ensures Valid(Polls(s, k, now))
  {
    if k == 0 then s else
    StepValid(Polls(s, k - 1, now), Poll(now));
    Polled(Polls(s, k - 1, now), now).0
  }

  /** Each takes a token for as long as there is a whole one. */
  lemma {:induction false} PollsSpend(s: State, k: nat, now: real)
    requires Valid(s) && !s.breaker.Open? && s.lastRefill <= now && k > 0
    ensures var held, t := Refilled(s, now).tokens, Polls(s, k, now);
            && t.lastRefill == now && t.breaker == s.breaker && t.rate == s.rate
            && (k as real <= held ==> t.tokens == held - k as real)
            && (k as real > held ==> t.tokens < 1.0)
    ensures Polled(Polls(s, k - 1, now), now).1 == Ready <==> k as real <= Refilled(s, now).tokens
  {
    hide Allowance;
    assert k as real == (k - 1) as real + 1.0;
    if k > 1 {
      PollsSpend(s, k - 1, now);
      assert Refilled(Polls(s, k - 1, now), now) == Polls(s, k - 1, now);
    }
  }

  /**
   * How many calls go through at once: what was in the bucket, and what came in at the current rate since
   * it was last filled, up to one second's worth and at least one. A poll at the instant of the last
   * refill finds what that left.
   */
  lemma BurstIs(s: State, k: nat, now: real)
    requires Valid(s) && !s.breaker.Open? && s.lastRefill <= now && k > 0
    ensures Polled(Polls(s, k - 1, now), now).1 == Ready
            <==> if s.lastRefill == now then k as real <= s.tokens
                 else k as real <= s.tokens + (now - s.lastRefill) * s.rate && (k as real <= s.rate || k == 1)
  {
    PollsSpend(s, k, now);
    RefilledTokens(s, now);
    hide Polled, Polls, Refilled;
    NotNegative(now - s.lastRefill, s.rate);
    var came := (now - s.lastRefill) * s.rate;
    assert now - s.lastRefill >= 0.0;
    assert k > 1 ==> k as real >= 2.0;
  }

  lemma RefilledTokens(s: State, now: real)
    requires s.lastRefill <= now
    ensures Refilled(s, now).tokens
            == if s.lastRefill == now then s.tokens
               else Least(s.tokens + (now - s.lastRefill) * s.rate, Most(s.rate, 1.0))
  {
  }

  lemma NotNegative(a: real, b: real)
    requires 0.0 <= a && 0.0 <= b
    ensures 0.0 <= a * b
  {
  }

  // ----- the rate ---------------------------------------------------------------------------------

  function Successes(s: State, k: nat): State {
    if k == 0 then s else Succeeded(Successes(s, k - 1))
  }

  /** Failures in a row, all at one time. */
  function Failures(s: State, k: nat, now: real): State {
    if k == 0 then s else Failed(Failures(s, k - 1, now), now)
  }

  function PowerOfTwo(k: nat): real {
    if k == 0 then 1.0 else 2.0 * PowerOfTwo(k - 1)
  }

  /** Successes in a row raise the rate by half a call per second each, up to the configured limit. */
  lemma {:induction false} RateClimbs(s: State, k: nat)
    requires Valid(s) && s.breaker == Closed
    ensures Successes(s, k).rate == Least(s.rate + k as real * 0.5, s.maxRate) && Successes(s, k).breaker == Closed
    ensures Successes(s, k).maxRate == s.maxRate && (k > 0 ==> Successes(s, k).failures == 0)
  {
    if k > 0 {
      RateClimbs(s, k - 1);
      assert k as real == (k - 1) as real + 1.0;
    }
  }

  /**
   * Failures in a row halve the rate each, down to the floor, and the one that makes five opens
   * the breaker: not one sooner.
   */
  lemma {:induction false} RateHalves(s: State, k: nat, now: real)
    requires Valid(s) && s.breaker == Closed && s.failures + k <= 5
    ensures var t := Failures(s, k, now);
            t.rate * PowerOfTwo(k) >= s.rate && PowerOfTwo(k) >= 1.0
            && (t.rate > Least(2.0, s.maxRate) ==> t.rate * PowerOfTwo(k) == s.rate)
            && t.rate >= Least(2.0, s.maxRate) && t.maxRate == s.maxRate
            && (s.failures + k < 5 ==> t.breaker == Closed && t.failures == s.failures + k)
            && (t.breaker.Open? <==> s.failures + k == 5)
  {
    hide Failed;
    if k > 0 {
      RateHalves(s, k - 1, now);
      var before, after := Failures(s, k - 1, now), Failures(s, k, now);
      OneFailure(before, now);
      Halved(before.rate, after.rate, PowerOfTwo(k - 1), PowerOfTwo(k));
    }
  }

  lemma OneFailure(s: State, now: real)
    requires s.breaker == Closed
    ensures var t := Failed(s, now);
            t.rate == Most(s.rate / 2.0, Least(2.0, s.maxRate)) && t.maxRate == s.maxRate
            && if s.failures + 1 >= 5 then t.breaker.Open?
               else t.breaker == Closed && t.failures == s.failures + 1
  {
  }

  lemma Halved(before: real, after: real, power: real, next: real)
    requires power >= 1.0 && next == 2.0 * power
    ensures after >= before / 2.0 ==> after * next >= before * power
    ensures after == before / 2.0 ==> after * next == before * power
  {
    if after >= before / 2.0 {
      Scaled(power, before, 2.0 * after);
    }
    assert after * next == power * (2.0 * after) && before * power == power * before;
  }

  // ----- the breaker ------------------------------------------------------------------------------

  /** While the breaker is open, polls before its time are all refused and change nothing. */
  lemma {:induction false} SilentUntil(s: State, polls: seq<Event>)
    requires Valid(s) && s.breaker.Open?
    requires forall e <- polls :: e.Poll? && e.now < s.breaker.until
    ensures After(s, polls) == s && forall e <- polls :: Polled(s, e.now).1 == Refused(s.breaker.until - e.now)
    decreases |polls|
  {
    if polls != [] {
      SilentUntil(s, polls[1..]);
    }
  }

  /** A probe at or after the breaker's time, and the time it failed. */
  datatype Probe = Probe(at: real, failed: real)

  function Probed(s: State, p: Probe): State
    requires s.rate > 0.0
  {
    Failed(Polled(s, p.at).0, p.failed)
  }

  ghost predicate AllProbesFail(s: State, probes: seq<Probe>)
    requires Valid(s)
    decreases |probes|
  {
    probes == [] || (
      && s.breaker.Open? && s.breaker.until <= probes[0].at
      && Valid(Probed(s, probes[0])) && AllProbesFail(Probed(s, probes[0]), probes[1..]))
  }

  function Doubled(backoff: nat, k: nat): nat {
    if k == 0 then backoff else Doubled(backoff, k - 1) * 2
  }

  function Capped(backoff: nat): nat {
    if backoff < 60 then backoff else 60
  }

  lemma {:induction false} DoubledFirst(backoff: nat, k: nat)
    requires k > 0
    ensures Doubled(backoff, k) == Doubled(backoff * 2, k - 1)
  {
    if k > 1 {
      DoubledFirst(backoff, k - 1);
    }
  }

  lemma {:induction false} DoubledCapped(backoff: nat, k: nat)
    ensures Capped(Doubled(Capped(backoff), k)) == Capped(Doubled(backoff, k))
    ensures Doubled(backoff, k) >= backoff
  {
    if k > 0 {
      DoubledCapped(backoff, k - 1);
      DoubledCapped(Capped(backoff), k - 1);
    }
  }

  /** The states a run of failed probes goes through, and the wait it ends in. */
  ghost function AfterProbes(s: State, probes: seq<Probe>): State
    requires Valid(s) && AllProbesFail(s, probes)
    decreases |probes|
  {
    if probes == [] then s else AfterProbes(Probed(s, probes[0]), probes[1..])
  }

  /**
   * Each failed probe doubles the backoff up to a minute, and opens the breaker for that long and
   * less than a second more.
   */
  lemma {:induction false} BackoffSchedule(s: State, probes: seq<Probe>)
    requires Valid(s) && AllProbesFail(s, probes)
    ensures var t := AfterProbes(s, probes);
            t.backoff == Capped(Doubled(s.backoff, |probes|))
            && (probes != [] ==>
                  t.breaker.Open?
                  && var wait := t.breaker.until - probes[|probes| - 1].failed;
                     t.backoff as real <= wait < t.backoff as real + 1.0)
    decreases |probes|
  {
    if probes != [] {
      var next := Probed(s, probes[0]);
      BackoffSchedule(next, probes[1..]);
      DoubledFirst(s.backoff, |probes|);
      DoubledCapped(s.backoff * 2, |probes| - 1);
    }
  }

  /** Every wait the breaker imposes, whichever way it opened, is its backoff and under a second more. */
  lemma OpensForBackoff(s: State, now: real)
    requires Valid(s) && (s.breaker.HalfOpen? || s.failures + 1 >= 5)
    ensures var t := Failed(s, now);
            t.breaker.Open? && t.failures == 0
            && t.backoff as real <= t.breaker.until - now < t.backoff as real + 1.0
            && t.jitter == NextJitter(s.jitter)
            && t.breaker.until == now + t.backoff as real + (t.jitter as int % 1000) as real / 1000.0
            && t.backoff == if s.breaker.HalfOpen? then Capped(s.backoff * 2) else s.backoff
  {
  }

  /**
   * While a probe is in flight the bucket still answers: a second call is let through with it if
   * and only if the bucket holds a token.
   */
  lemma SecondProbeIff(s: State, now: real, later: real)
    requires Valid(s) && s.breaker.Open? && s.breaker.until <= now <= later
    ensures Polled(s, now) == (s.(breaker := HalfOpen), Ready)
    ensures Polled(Polled(s, now).0, later).1 == Ready <==> Refilled(s, later).tokens >= 1.0
  {
  }

  /**
   * A success that comes back while the breaker is open closes it too, but only a probe's success
   * brings the backoff down again.
   */
  lemma NextOutageShortIff(s: State)
    requires Valid(s)
    ensures Succeeded(s).breaker == Closed
    ensures Succeeded(s).backoff == 1 <==> s.breaker.HalfOpen? || s.backoff == 1
  {
  }
}
