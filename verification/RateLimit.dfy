/** A table of small machines, one a key, each answering yes or no to a call at a time. */
module KeyedCalls {
  import opened Base

  /** What one call does to the state its key has, if it has any yet. */
  type Machine<!S> = (Option<S>, real) -> (S, bool)

  datatype Check = Check(key: string, now: real)

  function Lookup<S>(table: map<string, S>, key: string): Option<S> {
    if key in table then Some(table[key]) else None
  }

  function Called<S>(m: Machine<S>, table: map<string, S>, key: string, now: real): (map<string, S>, bool) {
    var (s, ok) := m(Lookup(table, key), now);
    (table[key := s], ok)
  }

  function AfterTrace<S>(m: Machine<S>, table: map<string, S>, trace: seq<Check>): map<string, S>
    decreases |trace|
  {
    if trace == [] then table else AfterTrace(m, Called(m, table, trace[0].key, trace[0].now).0, trace[1..])
  }

  function Answers<S>(m: Machine<S>, table: map<string, S>, trace: seq<Check>): (answers: seq<bool>)
    ensures |answers| == |trace|
    decreases |trace|
  {
    if trace == [] then []
    else
      var (next, ok) := Called(m, table, trace[0].key, trace[0].now);
      [ok] + Answers(m, next, trace[1..])
  }

  function Only(trace: seq<Check>, key: string): seq<Check> {
    if trace == [] then []
    else (if trace[0].key == key then [trace[0]] else []) + Only(trace[1..], key)
  }

  /** The answers that went to `key`. */
  function AnswersTo(trace: seq<Check>, answers: seq<bool>, key: string): seq<bool>
    requires |answers| == |trace|
  {
    if trace == [] then []
    else (if trace[0].key == key then [answers[0]] else []) + AnswersTo(trace[1..], answers[1..], key)
  }

  function Grants(answers: seq<bool>): nat {
    if answers == [] then 0 else (if answers[0] then 1 else 0) + Grants(answers[1..])
  }

  /** One key's calls neither see nor disturb another's. */
  lemma {:induction false} KeysAreIndependent<S>(m: Machine<S>, a: map<string, S>, b: map<string, S>,
                                                 trace: seq<Check>, key: string)
    requires Lookup(a, key) == Lookup(b, key)
    ensures AnswersTo(trace, Answers(m, a, trace), key) == Answers(m, b, Only(trace, key))
    ensures Lookup(AfterTrace(m, a, trace), key) == Lookup(AfterTrace(m, b, Only(trace, key)), key)
    decreases |trace|
  {
    if trace != [] {
      var c := trace[0];
      var (next, ok) := Called(m, a, c.key, c.now);
      assert Answers(m, a, trace)[1..] == Answers(m, next, trace[1..]);
      if c.key == key {
        var mine := Only(trace, key);
        assert mine[0] == c && mine[1..] == Only(trace[1..], key);
        KeysAreIndependent(m, next, Called(m, b, key, c.now).0, trace[1..], key);
      } else {
        assert Only(trace, key) == Only(trace[1..], key);
        KeysAreIndependent(m, next, b, trace[1..], key);
      }
    }
  }

  lemma {:induction false} AloneKeepsState<S>(m: Machine<S>, table: map<string, S>, others: seq<Check>, key: string)
    requires forall i :: 0 <= i < |others| ==> others[i].key != key
    ensures Lookup(AfterTrace(m, table, others), key) == Lookup(table, key)
    decreases |others|
  {
    if others != [] {
      AloneKeepsState(m, Called(m, table, others[0].key, others[0].now).0, others[1..], key);
    }
  }

  predicate NonDecreasing(trace: seq<Check>) {
    forall i, j :: 0 <= i < j < |trace| ==> trace[i].now <= trace[j].now
  }

  lemma {:induction false} OnlyIsOnly(trace: seq<Check>, key: string)
    ensures forall i :: 0 <= i < |Only(trace, key)| ==> Only(trace, key)[i].key == key && Only(trace, key)[i] in trace
    ensures NonDecreasing(trace) ==> NonDecreasing(Only(trace, key))
  {
    if trace != [] {
      OnlyIsOnly(trace[1..], key);
      var rest := Only(trace[1..], key);
      if trace[0].key == key {
        assert Only(trace, key) == [trace[0]] + rest;
        forall i, j | 0 <= i < j < |Only(trace, key)| && NonDecreasing(trace)
          ensures Only(trace, key)[i].now <= Only(trace, key)[j].now
        {
          assert rest[j - 1] in trace[1..];
        }
      } else {
        assert Only(trace, key) == rest;
      }
    }
  }
}

/** Keyed token buckets, over exact arithmetic. */
module RateLimit {
  import opened Base
  import opened KeyedCalls

  datatype Limits = Limits(capacity: nat, refillPerSec: real)

  datatype Bucket = Bucket(tokens: real, lastSeen: real)

  type Buckets = map<string, Bucket>

  const U32_MAX := 0xFFFF_FFFF

  const MAGIC := Limits(5, 1.0 / 30.0)
  const CEREMONY := Limits(30, 1.0 / 5.0)

  predicate Usable(l: Limits) {
    l.refillPerSec > 0.0
  }

  function Min(a: real, b: real): real {
    if a < b then a else b
  }

  function Max(a: real, b: real): real {
    if a > b then a else b
  }

  function Ceil(x: real): int {
    -((-x).Floor)
  }

  /** What a stretch of clock time earns; a clock that went back earns nothing. */
  function Gain(l: Limits, from: real, now: real): real {
    Max(now - from, 0.0) * l.refillPerSec
  }

  function Refilled(l: Limits, b: Bucket, now: real): real {
    Min(b.tokens + Gain(l, b.lastSeen, now), l.capacity as real)
  }

  /** One call against one bucket. */
  function Spend(l: Limits, b: Bucket, now: real): (Bucket, bool) {
    var tokens := Refilled(l, b, now);
    if tokens >= 1.0 then (Bucket(tokens - 1.0, now), true) else (Bucket(tokens, now), false)
  }

  /** A key's bucket is made, full, on its first call. */
  function SpendOf(l: Limits): Machine<Bucket> {
    (b: Option<Bucket>, now: real) => Spend(l, if b.Some? then b.value else Bucket(l.capacity as real, now), now)
  }

  /** Seconds until an empty bucket has one token, rounded up, as a saturating `u32`. */
  function RetryAfter(l: Limits): nat
    requires Usable(l)
  {
    var wait := if Ceil(1.0 / l.refillPerSec) > 1 then Ceil(1.0 / l.refillPerSec) else 1;
    if wait > U32_MAX then U32_MAX else wait
  }

  /** So many seconds earn a whole token. */
  predicate Refills(l: Limits, secs: nat) {
    (secs as real) * l.refillPerSec >= 1.0
  }

  class Limiter {
    const limits: Limits
    var buckets: Buckets

    constructor (capacity: nat, refillPerSec: real)
      ensures limits == Limits(capacity, refillPerSec) && buckets == map[]
    {
      limits := Limits(capacity, refillPerSec);
      buckets := map[];
    }

    method RetryAfterSecs() returns (secs: nat)
      requires Usable(limits)
      ensures 1 <= secs <= U32_MAX
      ensures secs < U32_MAX ==> Refills(limits, secs)
      ensures secs > 1 ==> !Refills(limits, secs - 1)
    {
      RetryIsLeast(limits);
      secs := RetryAfter(limits);
    }

    method CheckAt(key: string, now: real) returns (granted: bool)
      modifies this`buckets
      ensures (buckets, granted) == Called(SpendOf(limits), old(buckets), key, now)
    {
      var bucket := if key in buckets then buckets[key] else Bucket(limits.capacity as real, now);
      var elapsed := Max(now - bucket.lastSeen, 0.0);
      var tokens := Min(bucket.tokens + elapsed * limits.refillPerSec, limits.capacity as real);
      assert tokens == Refilled(limits, bucket, now) by {
        assert elapsed * limits.refillPerSec == Gain(limits, bucket.lastSeen, now);
      }
      granted := tokens >= 1.0;
      if granted {
        tokens := tokens - 1.0;
      }
      assert (Bucket(tokens, now), granted) == Spend(limits, bucket, now);
      assert SpendOf(limits)(Lookup(buckets, key), now) == Spend(limits, bucket, now);
      buckets := buckets[key := Bucket(tokens, now)];
    }
  }

  /** The least whole number of seconds that refills one token, unless it does not fit. */
  lemma RetryIsLeast(l: Limits)
    requires Usable(l)
    ensures 1 <= RetryAfter(l) <= U32_MAX
    ensures RetryAfter(l) < U32_MAX ==> Refills(l, RetryAfter(l))
    ensures RetryAfter(l) > 1 ==> !Refills(l, RetryAfter(l) - 1)
  {
    var rate, secs := l.refillPerSec, RetryAfter(l);
    var wait := 1.0 / rate;
    CeilBounds(wait);
    Reciprocal(rate);
    if secs < U32_MAX { Scale(wait, secs as real, rate); }
    if secs > 1 { TooFewSeconds(l, secs - 1, wait); }
  }

  lemma TooFewSeconds(l: Limits, secs: nat, wait: real)
    requires l.refillPerSec > 0.0 && wait * l.refillPerSec == 1.0 && secs as real < wait
    ensures !Refills(l, secs)
  {
    ScaleStrictly(secs as real, wait, l.refillPerSec);
  }

  lemma Reciprocal(rate: real)
    requires rate > 0.0
    ensures (1.0 / rate) * rate == 1.0
  {}

  lemma CeilBounds(x: real)
    ensures x <= Ceil(x) as real < x + 1.0
  {}

  lemma ScaleStrictly(a: real, b: real, rate: real)
    requires a < b && rate > 0.0
    ensures a * rate < b * rate
  {}

  lemma Scale(a: real, b: real, rate: real)
    requires a <= b && rate >= 0.0
    ensures a * rate <= b * rate
  {}

  // ------------------------------------------------------------- the bound

  predicate Within(l: Limits, b: Bucket) {
    0.0 <= b.tokens <= l.capacity as real
  }

  ghost predicate AllWithin(l: Limits, buckets: Buckets) {
    forall k :: k in buckets ==> Within(l, buckets[k])
  }

  lemma GainIsNoLoss(l: Limits, from: real, now: real)
    requires Usable(l)
    ensures Gain(l, from, now) >= 0.0 && Gain(l, now, now) == 0.0
  {
    Scale(0.0, Max(now - from, 0.0), l.refillPerSec);
  }

  /** A granted call costs one token; time pays for the rest. */
  lemma SpendIsPaidFor(l: Limits, b: Bucket, now: real)
    requires Usable(l) && Within(l, b)
    ensures var (next, ok) := Spend(l, b, now);
      && Within(l, next) && next.lastSeen == now
      && next.tokens + (if ok then 1.0 else 0.0) <= b.tokens + Gain(l, b.lastSeen, now)
  {
    GainIsNoLoss(l, b.lastSeen, now);
  }

  lemma FirstCallIsFromFull(l: Limits, now: real)
    requires Usable(l)
    ensures SpendOf(l)(None, now) == Spend(l, Bucket(l.capacity as real, now), now)
    ensures Within(l, SpendOf(l)(None, now).0)
  {
    GainIsNoLoss(l, now, now);
  }

  lemma {:induction false} TraceStaysWithin(l: Limits, buckets: Buckets, trace: seq<Check>)
    requires Usable(l) && AllWithin(l, buckets)
    ensures AllWithin(l, AfterTrace(SpendOf(l), buckets, trace))
    decreases |trace|
  {
    if trace != [] {
      var c := trace[0];
      FirstCallIsFromFull(l, c.now);
      if c.key in buckets { SpendIsPaidFor(l, buckets[c.key], c.now); }
      TraceStaysWithin(l, Called(SpendOf(l), buckets, c.key, c.now).0, trace[1..]);
    }
  }

  /** How far the clock moved forward, all told, from `from` on. */
  function Rise(from: real, trace: seq<Check>): (r: real)
    ensures r >= 0.0
    decreases |trace|
  {
    if trace == [] then 0.0 else Max(trace[0].now - from, 0.0) + Rise(trace[0].now, trace[1..])
  }

  /** The same in tokens, step by step. */
  function Gains(l: Limits, from: real, trace: seq<Check>): real
    decreases |trace|
  {
    if trace == [] then 0.0 else Gain(l, from, trace[0].now) + Gains(l, trace[0].now, trace[1..])
  }

  lemma {:induction false} GainsOfRise(l: Limits, from: real, trace: seq<Check>)
    ensures Gains(l, from, trace) == Rise(from, trace) * l.refillPerSec
    decreases |trace|
  {
    if trace != [] {
      GainsOfRise(l, trace[0].now, trace[1..]);
      Distribute(Max(trace[0].now - from, 0.0), Rise(trace[0].now, trace[1..]), l.refillPerSec);
    }
  }

  lemma Distribute(a: real, b: real, rate: real)
    ensures (a + b) * rate == a * rate + b * rate
  {}

  /** What a key is granted is paid for by the tokens it had and the time that passed. */
  lemma {:induction false} GrantsArePaidFor(l: Limits, buckets: Buckets, trace: seq<Check>, key: string)
    requires Usable(l) && key in buckets && Within(l, buckets[key])
    requires forall i :: 0 <= i < |trace| ==> trace[i].key == key
    ensures Grants(Answers(SpendOf(l), buckets, trace)) as real
            <= buckets[key].tokens + Gains(l, buckets[key].lastSeen, trace)
    decreases |trace|
  {
    if trace != [] {
      var (next, ok) := Called(SpendOf(l), buckets, key, trace[0].now);
      SpendIsPaidFor(l, buckets[key], trace[0].now);
      GrantsArePaidFor(l, next, trace[1..], key);
      assert Answers(SpendOf(l), buckets, trace) == [ok] + Answers(SpendOf(l), next, trace[1..]);
    }
  }

  /** However empty or full it starts, a key's calls get the capacity at most, besides the gains. */
  lemma GrantsFromFirst(l: Limits, buckets: Buckets, mine: seq<Check>, key: string)
    requires Usable(l) && AllWithin(l, buckets) && mine != []
    requires forall i :: 0 <= i < |mine| ==> mine[i].key == key
    ensures Grants(Answers(SpendOf(l), buckets, mine)) as real <= l.capacity as real + Gains(l, mine[0].now, mine)
  {
    var now := mine[0].now;
    var (next, ok) := Called(SpendOf(l), buckets, key, now);
    FirstCallIsFromFull(l, now);
    if key in buckets { SpendIsPaidFor(l, buckets[key], now); }
    GrantsArePaidFor(l, next, mine[1..], key);
    GainIsNoLoss(l, now, now);
    assert Answers(SpendOf(l), buckets, mine) == [ok] + Answers(SpendOf(l), next, mine[1..]);
  }

  /**
   Over any stretch of calls, however the clock moved before it and whoever
   else called during it: at most the capacity, plus the refill for every
   second the clock went forward between this key's calls.
   */
  lemma GrantsWithinWindow(l: Limits, before: seq<Check>, window: seq<Check>, key: string)
    requires Usable(l) && Only(window, key) != []
    ensures var answers := Answers(SpendOf(l), AfterTrace(SpendOf(l), map[], before), window);
      var mine := Only(window, key);
      Grants(AnswersTo(window, answers, key)) as real <= l.capacity as real + Gains(l, mine[0].now, mine)
  {
    var start, mine := AfterTrace(SpendOf(l), map[], before), Only(window, key);
    TraceStaysWithin(l, map[], before);
    KeysAreIndependent(SpendOf(l), start, start, window, key);
    OnlyIsOnly(window, key);
    GrantsFromFirst(l, start, mine, key);
  }

  lemma {:induction false} RiseIsSpan(from: real, trace: seq<Check>)
    requires NonDecreasing(trace) && (trace != [] ==> from <= trace[0].now)
    ensures Rise(from, trace) == if trace == [] then 0.0 else trace[|trace| - 1].now - from
    decreases |trace|
  {
    if trace != [] {
      RiseIsSpan(trace[0].now, trace[1..]);
    }
  }

  lemma RiseFitsWindow(window: seq<Check>, key: string, from: real, length: real)
    requires NonDecreasing(window) && Only(window, key) != []
    requires forall i :: 0 <= i < |window| ==> from <= window[i].now <= from + length
    ensures Rise(Only(window, key)[0].now, Only(window, key)) <= length
  {
    var mine := Only(window, key);
    OnlyIsOnly(window, key);
    assert mine[0] in window && mine[|mine| - 1] in window;
    RiseIsSpan(mine[0].now, mine);
  }

  lemma ScaleTo(gains: real, rise: real, length: real, rate: real)
    requires gains == rise * rate && rise <= length && rate > 0.0
    ensures gains <= length * rate
  {
    Scale(rise, length, rate);
  }

  /** What `key` is granted in the window, on a limiter that has served `before`. */
  function GrantsIn(l: Limits, before: seq<Check>, window: seq<Check>, key: string): nat {
    Grants(AnswersTo(window, Answers(SpendOf(l), AfterTrace(SpendOf(l), map[], before), window), key))
  }

  /** The bound a limiter is for: the capacity, plus the refill of so many seconds. */
  ghost predicate Bounded(l: Limits, before: seq<Check>, window: seq<Check>, key: string, length: real) {
    GrantsIn(l, before, window, key) as real <= l.capacity as real + length * l.refillPerSec
  }

  ghost predicate AlwaysBounded(window: seq<Check>, key: string, length: real) {
    forall l: Limits, before: seq<Check> :: Usable(l) ==> Bounded(l, before, window, key, length)
  }

  lemma RiseBounds(l: Limits, before: seq<Check>, window: seq<Check>, key: string, length: real)
    requires Usable(l) && Only(window, key) != []
    requires Rise(Only(window, key)[0].now, Only(window, key)) <= length
    ensures Bounded(l, before, window, key, length)
  {
    var mine := Only(window, key);
    GrantsWithinWindow(l, before, window, key);
    GainsFit(l, mine, length);
  }

  lemma GainsFit(l: Limits, mine: seq<Check>, length: real)
    requires Usable(l) && mine != [] && Rise(mine[0].now, mine) <= length
    ensures Gains(l, mine[0].now, mine) <= length * l.refillPerSec
  {
    var gains, rise := Gains(l, mine[0].now, mine), Rise(mine[0].now, mine);
    GainsOfRise(l, mine[0].now, mine);
    ScaleTo(gains, rise, length, l.refillPerSec);
  }

  lemma UnclippedSpend(l: Limits, b: Bucket, now: real)
    requires Usable(l) && Within(l, b) && 1.0 <= b.tokens + Gain(l, b.lastSeen, now) <= l.capacity as real
    ensures Spend(l, b, now) == (Bucket(b.tokens + Gain(l, b.lastSeen, now) - 1.0, now), true)
  {}

  lemma {:induction false} GainsAreNoLoss(l: Limits, from: real, trace: seq<Check>)
    requires Usable(l)
    ensures Gains(l, from, trace) >= 0.0
    decreases |trace|
  {
    if trace != [] {
      GainIsNoLoss(l, from, trace[0].now);
      GainsAreNoLoss(l, trace[0].now, trace[1..]);
    }
  }

  /** One token short of a token a call, and earning just that one on the way: every call is granted. */
  lemma {:induction false} ThinlySpread(l: Limits, buckets: Buckets, trace: seq<Check>, key: string)
    requires Usable(l) && key in buckets && Within(l, buckets[key]) && |trace| <= l.capacity
    requires forall i :: 0 <= i < |trace| ==> trace[i].key == key
    requires buckets[key].tokens + Gains(l, buckets[key].lastSeen, trace) == |trace| as real
    requires Gains(l, buckets[key].lastSeen, trace) <= 1.0
    ensures Grants(Answers(SpendOf(l), buckets, trace)) == |trace|
    decreases |trace|
  {
    if trace != [] {
      var now, b := trace[0].now, buckets[key];
      GainsAreNoLoss(l, now, trace[1..]);
      GainIsNoLoss(l, b.lastSeen, now);
      UnclippedSpend(l, b, now);
      var (next, ok) := Called(SpendOf(l), buckets, key, now);
      assert Called(SpendOf(l), buckets, key, now) == (buckets[key := Spend(l, b, now).0], true);
      ThinlySpread(l, next, trace[1..], key);
      assert Answers(SpendOf(l), buckets, trace) == [ok] + Answers(SpendOf(l), next, trace[1..]);
    }
  }

  /** The limits under which a key's calls are one more than its capacity, and its clock earns the one that is missing. */
  function Tight(mine: seq<Check>): Limits
    requires mine != [] && Rise(mine[0].now, mine) > 0.0
  {
    Limits(|mine| - 1, 1.0 / Rise(mine[0].now, mine))
  }

  lemma TightGains(mine: seq<Check>)
    requires mine != [] && Rise(mine[0].now, mine) > 0.0
    ensures |mine| >= 2 && Usable(Tight(mine)) && Gains(Tight(mine), mine[0].now, mine[1..]) == 1.0
  {
    var l, now := Tight(mine), mine[0].now;
    GainsOfRise(l, now, mine);
    GainIsNoLoss(l, now, now);
    Reciprocal(Rise(now, mine));
  }

  lemma TightGrants(mine: seq<Check>, key: string)
    requires mine != [] && Rise(mine[0].now, mine) > 0.0
    requires forall i :: 0 <= i < |mine| ==> mine[i].key == key
    ensures Grants(Answers(SpendOf(Tight(mine)), map[], mine)) == |mine|
  {
    var l, now := Tight(mine), mine[0].now;
    TightGains(mine);
    FirstCallIsFromFull(l, now);
    GainIsNoLoss(l, now, now);
    UnclippedSpend(l, Bucket(l.capacity as real, now), now);
    var (next, ok) := Called(SpendOf(l), map[], key, now);
    ThinlySpread(l, next, mine[1..], key);
    assert Answers(SpendOf(l), map[], mine) == [ok] + Answers(SpendOf(l), next, mine[1..]);
  }

  lemma TightGrantsIn(window: seq<Check>, key: string, mine: seq<Check>)
    requires mine == Only(window, key) && mine != [] && Rise(mine[0].now, mine) > 0.0
    ensures GrantsIn(Tight(mine), [], window, key) == |mine|
  {
    OnlyIsOnly(window, key);
    TightGrants(mine, key);
    KeysAreIndependent(SpendOf(Tight(mine)), map[], map[], window, key);
  }

  lemma TightBreaks(window: seq<Check>, key: string, length: real)
    requires length >= 0.0 && Only(window, key) != []
    requires Rise(Only(window, key)[0].now, Only(window, key)) > length
    ensures !AlwaysBounded(window, key, length)
  {
    var mine := Only(window, key);
    TightGains(mine);
    TightGrantsIn(window, key, mine);
    TightIsShort(mine, length);
    assert !Bounded(Tight(mine), [], window, key, length);
  }

  lemma TightIsShort(mine: seq<Check>, length: real)
    requires mine != [] && 0.0 <= length < Rise(mine[0].now, mine)
    ensures Tight(mine).capacity as real + length * Tight(mine).refillPerSec < |mine| as real
  {
    Reciprocal(Rise(mine[0].now, mine));
    ShorterEarnsLess(length, Rise(mine[0].now, mine), Tight(mine).refillPerSec, 1.0);
  }

  lemma ShorterEarnsLess(a: real, b: real, rate: real, earned: real)
    requires a < b && rate > 0.0 && b * rate == earned
    ensures a * rate < earned
  {
    ScaleStrictly(a, b, rate);
  }

  /**
   The bound holds of a window of calls, for all limits and whatever came
   before, exactly when the clock rose no further between this key's calls,
   all told, than the length it is stated for.
   */
  lemma BoundedIff(window: seq<Check>, key: string, length: real)
    requires length >= 0.0 && Only(window, key) != []
    ensures AlwaysBounded(window, key, length) <==> Rise(Only(window, key)[0].now, Only(window, key)) <= length
  {
    if Rise(Only(window, key)[0].now, Only(window, key)) <= length {
      forall l: Limits, before: seq<Check> | Usable(l)
        ensures Bounded(l, before, window, key, length)
      {
        RiseBounds(l, before, window, key, length);
      }
    } else {
      TightBreaks(window, key, length);
    }
  }

  lemma UncalledIsBounded(l: Limits, before: seq<Check>, window: seq<Check>, key: string, length: real)
    requires Usable(l) && length >= 0.0 && Only(window, key) == []
    ensures Bounded(l, before, window, key, length)
  {
    var start := AfterTrace(SpendOf(l), map[], before);
    KeysAreIndependent(SpendOf(l), start, start, window, key);
    assert GrantsIn(l, before, window, key) == 0;
    Scale(0.0, length, l.refillPerSec);
  }

  /** In particular when the window's calls lie within the length and its clock never goes back. */
  lemma LimiterBound(l: Limits, before: seq<Check>, window: seq<Check>, key: string, from: real, length: real)
    requires Usable(l) && NonDecreasing(window) && length >= 0.0
    requires forall i :: 0 <= i < |window| ==> from <= window[i].now <= from + length
    ensures Bounded(l, before, window, key, length)
  {
    if Only(window, key) == [] {
      UncalledIsBounded(l, before, window, key, length);
    } else {
      RiseFitsWindow(window, key, from, length);
      BoundedIff(window, key, length);
    }
  }

  /** One token, refilled in ten seconds. */
  const SLOW := Limits(1, 0.1)

  lemma Bounces()
    ensures SpendOf(SLOW)(None, 10.0) == (Bucket(0.0, 10.0), true)
    ensures SpendOf(SLOW)(Some(Bucket(0.0, 10.0)), 0.0) == (Bucket(0.0, 0.0), false)
    ensures SpendOf(SLOW)(Some(Bucket(0.0, 0.0)), 10.0) == (Bucket(0.0, 10.0), true)
  {
    assert Spend(SLOW, Bucket(1.0, 10.0), 10.0) == (Bucket(0.0, 10.0), true);
    assert Spend(SLOW, Bucket(0.0, 10.0), 0.0) == (Bucket(0.0, 0.0), false);
    assert Spend(SLOW, Bucket(0.0, 0.0), 10.0) == (Bucket(0.0, 10.0), true);
  }

  /** A clock that goes back and forth can break it: three grants in ten seconds worth two. */
  lemma BackwardClockBreaksBound()
    ensures var up, down := Check("k", 10.0), Check("k", 0.0);
      && Grants(Answers(SpendOf(SLOW), map[], [up, down, up, down, up])) == 3
      && 3.0 > SLOW.capacity as real + 10.0 * SLOW.refillPerSec
  {
    Bounces();
    BouncingGrants(SpendOf(SLOW));
  }

  lemma BouncingGrants(m: Machine<Bucket>)
    requires m(None, 10.0) == (Bucket(0.0, 10.0), true)
    requires m(Some(Bucket(0.0, 10.0)), 0.0) == (Bucket(0.0, 0.0), false)
    requires m(Some(Bucket(0.0, 0.0)), 10.0) == (Bucket(0.0, 10.0), true)
    ensures var up, down := Check("k", 10.0), Check("k", 0.0);
            Grants(Answers(m, map[], [up, down, up, down, up])) == 3
  {
    var up, down := Check("k", 10.0), Check("k", 0.0);
    var spent: Buckets := map["k" := Bucket(0.0, 10.0)];
    BackAndForth(m, [down, up]);
    BackAndForth(m, []);
    assert [down, up] + [] == [down, up];
    assert [up, down, up, down, up][1..] == [down, up] + [down, up];
    assert Called(m, map[], "k", 10.0) == (spent, true);
  }

  lemma BackAndForth(m: Machine<Bucket>, rest: seq<Check>)
    requires m(Some(Bucket(0.0, 10.0)), 0.0) == (Bucket(0.0, 0.0), false)
    requires m(Some(Bucket(0.0, 0.0)), 10.0) == (Bucket(0.0, 10.0), true)
    ensures var spent: Buckets := map["k" := Bucket(0.0, 10.0)];
            Grants(Answers(m, spent, [Check("k", 0.0), Check("k", 10.0)] + rest)) == 1 + Grants(Answers(m, spent, rest))
  {
    var up, down := Check("k", 10.0), Check("k", 0.0);
    var spent: Buckets := map["k" := Bucket(0.0, 10.0)];
    var drained: Buckets := map["k" := Bucket(0.0, 0.0)];
    assert Called(m, spent, "k", 0.0) == (drained, false) by {
      assert spent["k" := Bucket(0.0, 0.0)] == drained;
    }
    assert Called(m, drained, "k", 10.0) == (spent, true) by {
      assert drained["k" := Bucket(0.0, 10.0)] == spent;
    }
    assert ([down, up] + rest)[1..] == [up] + rest && ([up] + rest)[1..] == rest;
    assert Answers(m, drained, [up] + rest) == [true] + Answers(m, spent, rest);
    assert Answers(m, spent, [down, up] + rest) == [false] + Answers(m, drained, [up] + rest);
  }

  // --------------------------------------------------------- waiting works

  lemma WaitEarnsAToken(l: Limits, now: real, later: real)
    requires Usable(l) && RetryAfter(l) < U32_MAX && later >= now + RetryAfter(l) as real
    ensures Gain(l, now, later) >= 1.0
  {
    var elapsed := Max(later - now, 0.0);
    RetryIsLeast(l);
    Enough(RetryAfter(l) as real, elapsed, l.refillPerSec);
    assert Gain(l, now, later) == elapsed * l.refillPerSec;
  }

  lemma Enough(least: real, elapsed: real, rate: real)
    requires least * rate >= 1.0 && least <= elapsed && rate > 0.0
    ensures elapsed * rate >= 1.0
  {
    Scale(least, elapsed, rate);
  }

  /** A refused key that stays away for the time it was told is granted its next call, whoever else calls meanwhile. */
  lemma WaitingIsRewarded(l: Limits, before: seq<Check>, key: string, now: real, others: seq<Check>, later: real)
    requires Usable(l) && l.capacity >= 1 && RetryAfter(l) < U32_MAX
    requires !Called(SpendOf(l), AfterTrace(SpendOf(l), map[], before), key, now).1
    requires forall i :: 0 <= i < |others| ==> others[i].key != key
    requires later >= now + RetryAfter(l) as real
    ensures var refused := Called(SpendOf(l), AfterTrace(SpendOf(l), map[], before), key, now).0;
            Called(SpendOf(l), AfterTrace(SpendOf(l), refused, others), key, later).1
  {
    var start := AfterTrace(SpendOf(l), map[], before);
    var refused := Called(SpendOf(l), start, key, now).0;
    TraceStaysWithin(l, map[], before);
    FirstCallIsFromFull(l, now);
    if key in start { SpendIsPaidFor(l, start[key], now); }
    AloneKeepsState(SpendOf(l), refused, others, key);
    WaitEarnsAToken(l, now, later);
    assert Refilled(l, refused[key], later) >= 1.0;
  }

  /** What the bucket held and what has been earned since make a token. */
  predicate HasAToken(l: Limits, b: Bucket, now: real) {
    b.tokens + (now - b.lastSeen) * l.refillPerSec >= 1.0
  }

  lemma RefusedSpend(l: Limits, b: Bucket, now: real)
    requires Usable(l) && l.capacity >= 1 && Within(l, b) && now >= b.lastSeen
    ensures Spend(l, b, now).1 <==> b.tokens + (now - b.lastSeen) * l.refillPerSec >= 1.0
    ensures !Spend(l, b, now).1 ==>
            Spend(l, b, now).0 == Bucket(b.tokens + (now - b.lastSeen) * l.refillPerSec, now)
  {
    assert Gain(l, b.lastSeen, now) == (now - b.lastSeen) * l.refillPerSec;
  }

  lemma EarnedInTwo(a: real, b: real, c: real, rate: real)
    ensures (c - b) * rate + (b - a) * rate == (c - a) * rate
  {
    Distribute(c - b, b - a, rate);
  }

  /** Calls that are refused keep what had been earned: the next is granted by the tokens and all the time since. */
  lemma {:induction false} RefusalsKeepEarnings(l: Limits, buckets: Buckets, trace: seq<Check>, key: string, later: real)
    requires Usable(l) && l.capacity >= 1 && key in buckets && Within(l, buckets[key])
    requires NonDecreasing(trace) && buckets[key].lastSeen <= later
    requires forall i :: 0 <= i < |trace| ==> trace[i].key == key && buckets[key].lastSeen <= trace[i].now <= later
    requires Grants(Answers(SpendOf(l), buckets, trace)) == 0
    ensures Called(SpendOf(l), AfterTrace(SpendOf(l), buckets, trace), key, later).1
       <==> HasAToken(l, buckets[key], later)
    decreases |trace|
  {
    var b := buckets[key];
    if trace == [] {
      RefusedSpend(l, b, later);
    } else {
      var now := trace[0].now;
      var (next, ok) := Called(SpendOf(l), buckets, key, now);
      assert Answers(SpendOf(l), buckets, trace) == [ok] + Answers(SpendOf(l), next, trace[1..]);
      SpendIsPaidFor(l, b, now);
      RefusedSpend(l, b, now);
      RefusalsKeepEarnings(l, next, trace[1..], key, later);
      EarnedInTwo(b.lastSeen, now, later, l.refillPerSec);
    }
  }

  /** The key's calls in the window come after its last one and before `later`, on a clock that does not go back. */
  ghost predicate InOrder(start: Buckets, window: seq<Check>, key: string, later: real)
    requires key in start
  {
    && NonDecreasing(Only(window, key)) && start[key].lastSeen <= later
    && forall i :: 0 <= i < |Only(window, key)| ==> start[key].lastSeen <= Only(window, key)[i].now <= later
  }

  lemma RetriesFrom(l: Limits, start: Buckets, window: seq<Check>, key: string, later: real)
    requires Usable(l) && l.capacity >= 1 && AllWithin(l, start) && key in start && InOrder(start, window, key, later)
    requires Grants(AnswersTo(window, Answers(SpendOf(l), start, window), key)) == 0
    ensures Called(SpendOf(l), AfterTrace(SpendOf(l), start, window), key, later).1
       <==> HasAToken(l, start[key], later)
  {
    var mine := Only(window, key);
    KeysAreIndependent(SpendOf(l), start, start, window, key);
    OnlyIsOnly(window, key);
    RefusalsKeepEarnings(l, start, mine, key, later);
    SameLookupSameAnswer(SpendOf(l), AfterTrace(SpendOf(l), start, window), AfterTrace(SpendOf(l), start, mine), key, later);
  }

  /** Among everybody's calls, too: after any number of refusals a key is granted exactly when tokens and time are a token. */
  lemma RetriesCostNothing(l: Limits, before: seq<Check>, window: seq<Check>, key: string, later: real)
    requires Usable(l) && l.capacity >= 1
    requires var start := AfterTrace(SpendOf(l), map[], before);
      && key in start && InOrder(start, window, key, later)
      && Grants(AnswersTo(window, Answers(SpendOf(l), start, window), key)) == 0
    ensures var start := AfterTrace(SpendOf(l), map[], before);
      Called(SpendOf(l), AfterTrace(SpendOf(l), start, window), key, later).1
      <==> HasAToken(l, start[key], later)
  {
    TraceStaysWithin(l, map[], before);
    RetriesFrom(l, AfterTrace(SpendOf(l), map[], before), window, key, later);
  }

  lemma SameLookupSameAnswer(m: Machine<Bucket>, a: Buckets, b: Buckets, key: string, now: real)
    requires Lookup(a, key) == Lookup(b, key)
    ensures Called(m, a, key, now).1 == Called(m, b, key, now).1
  {}

  /** So a refused key that keeps asking, and is refused all along, is still granted when the time it was told is over. */
  lemma RetryingIsRewarded(l: Limits, before: seq<Check>, key: string, now: real, window: seq<Check>, later: real)
    requires Usable(l) && l.capacity >= 1 && RetryAfter(l) < U32_MAX
    requires !Called(SpendOf(l), AfterTrace(SpendOf(l), map[], before), key, now).1
    requires var refused := AfterTrace(SpendOf(l), map[], before + [Check(key, now)]);
      && key in refused && InOrder(refused, window, key, later)
      && Grants(AnswersTo(window, Answers(SpendOf(l), refused, window), key)) == 0
    requires later >= now + RetryAfter(l) as real
    ensures var refused := AfterTrace(SpendOf(l), map[], before + [Check(key, now)]);
            Called(SpendOf(l), AfterTrace(SpendOf(l), refused, window), key, later).1
  {
    var first := before + [Check(key, now)];
    AfterOneMore(SpendOf(l), map[], before, Check(key, now));
    TraceStaysWithin(l, map[], first);
    LastSeenIsNow(l, AfterTrace(SpendOf(l), map[], before), key, now);
    GrantedInTime(l, AfterTrace(SpendOf(l), map[], first), key, window, later);
  }

  lemma GrantedInTime(l: Limits, start: Buckets, key: string, window: seq<Check>, later: real)
    requires Usable(l) && l.capacity >= 1 && RetryAfter(l) < U32_MAX
    requires AllWithin(l, start) && key in start && InOrder(start, window, key, later)
    requires Grants(AnswersTo(window, Answers(SpendOf(l), start, window), key)) == 0
    requires later >= start[key].lastSeen + RetryAfter(l) as real
    ensures Called(SpendOf(l), AfterTrace(SpendOf(l), start, window), key, later).1
  {
    var b := start[key];
    assert Within(l, b);
    TimeIsEnough(l, b, later);
    RetriesFrom(l, start, window, key, later);
  }

  lemma TimeIsEnough(l: Limits, b: Bucket, later: real)
    requires Usable(l) && RetryAfter(l) < U32_MAX && Within(l, b) && later >= b.lastSeen + RetryAfter(l) as real
    ensures HasAToken(l, b, later)
  {
    WaitEarnsAToken(l, b.lastSeen, later);
    EarnedSince(l, b.lastSeen, later);
  }

  lemma EarnedSince(l: Limits, now: real, later: real)
    requires later >= now
    ensures Gain(l, now, later) == (later - now) * l.refillPerSec
  {}

  lemma LastSeenIsNow(l: Limits, buckets: Buckets, key: string, now: real)
    ensures var next := Called(SpendOf(l), buckets, key, now).0; key in next && next[key].lastSeen == now
  {
    var b := if key in buckets then buckets[key] else Bucket(l.capacity as real, now);
    assert SpendOf(l)(Lookup(buckets, key), now) == Spend(l, b, now);
  }

  lemma {:induction false} AfterOneMore(m: Machine<Bucket>, table: Buckets, trace: seq<Check>, last: Check)
    ensures AfterTrace(m, table, trace + [last]) == Called(m, AfterTrace(m, table, trace), last.key, last.now).0
    decreases |trace|
  {
    if trace == [] {
      assert [] + [last] == [last] && [last][1..] == [];
    } else {
      assert (trace + [last])[1..] == trace[1..] + [last];
      AfterOneMore(m, Called(m, table, trace[0].key, trace[0].now).0, trace[1..], last);
    }
  }

  /** A key with tokens enough is granted every call, whatever the clock does. */
  lemma {:induction false} TokensAreSpendable(l: Limits, buckets: Buckets, trace: seq<Check>, key: string)
    requires Usable(l) && key in buckets && Within(l, buckets[key]) && buckets[key].tokens >= |trace| as real
    requires forall i :: 0 <= i < |trace| ==> trace[i].key == key
    ensures Grants(Answers(SpendOf(l), buckets, trace)) == |trace|
    decreases |trace|
  {
    if trace != [] {
      var (next, ok) := Called(SpendOf(l), buckets, key, trace[0].now);
      SpendIsPaidFor(l, buckets[key], trace[0].now);
      GainIsNoLoss(l, buckets[key].lastSeen, trace[0].now);
      assert Refilled(l, buckets[key], trace[0].now) >= buckets[key].tokens;
      TokensAreSpendable(l, next, trace[1..], key);
      assert Answers(SpendOf(l), buckets, trace) == [ok] + Answers(SpendOf(l), next, trace[1..]);
    }
  }

  /** A key's first calls are all granted, up to the capacity, however close together they come. */
  lemma FirstCallsAreGranted(l: Limits, buckets: Buckets, trace: seq<Check>, key: string)
    requires Usable(l) && key !in buckets && |trace| <= l.capacity
    requires forall i :: 0 <= i < |trace| ==> trace[i].key == key
    ensures Grants(Answers(SpendOf(l), buckets, trace)) == |trace|
  {
    if trace != [] {
      var now := trace[0].now;
      var (next, ok) := Called(SpendOf(l), buckets, key, now);
      FirstCallIsFromFull(l, now);
      GainIsNoLoss(l, now, now);
      TokensAreSpendable(l, next, trace[1..], key);
      assert Answers(SpendOf(l), buckets, trace) == [ok] + Answers(SpendOf(l), next, trace[1..]);
    }
  }

  /** A limiter whose capacity is below one token grants nothing, ever. */
  lemma {:induction false} NoCapacityNoGrants(l: Limits, buckets: Buckets, trace: seq<Check>)
    requires l.capacity == 0
    ensures Grants(Answers(SpendOf(l), buckets, trace)) == 0
    decreases |trace|
  {
    if trace != [] {
      var now := trace[0].now;
      var next := Called(SpendOf(l), buckets, trace[0].key, now).0;
      var b := if trace[0].key in buckets then buckets[trace[0].key] else Bucket(l.capacity as real, now);
      assert SpendOf(l)(Lookup(buckets, trace[0].key), now) == Spend(l, b, now);
      assert Refilled(l, b, now) <= 0.0;
      assert Answers(SpendOf(l), buckets, trace) == [false] + Answers(SpendOf(l), next, trace[1..]);
      NoCapacityNoGrants(l, next, trace[1..]);
    }
  }

  /** The two quotas in use: five at once and one every thirty seconds, thirty and one every five. */
  lemma QuotedWaits()
    ensures MAGIC.capacity == 5 && RetryAfter(MAGIC) == 30
    ensures CEREMONY.capacity == 30 && RetryAfter(CEREMONY) == 5
  {
    assert 1.0 / MAGIC.refillPerSec == 30.0;
    assert 1.0 / CEREMONY.refillPerSec == 5.0;
  }
}
