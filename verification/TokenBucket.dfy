/**
  The RPC rate limiter (internal/utils/token_bucket.go), in exact arithmetic. The specification counts
  time in token times, seconds multiplied by the refill rate, so that one token accrues per unit; the
  main results are then stated in seconds.
 */
module TokenBucket {
  import opened Wrappers

  datatype State = State(tokens: int, capacity: nat, lastRefill: real) {
    predicate Valid() { 0 <= tokens <= capacity }
  }

  /** token_bucket.go refill: whole tokens only; the clock is reset only when one is added. */
  function Refilled(b: State, now: real): State {
    var tokensToAdd := (now - b.lastRefill).Floor;
    if tokensToAdd > 0 then b.(tokens := Min(b.capacity, b.tokens + tokensToAdd), lastRefill := now) else b
  }

  predicate Grantable(b: State, now: real) { Refilled(b, now).tokens > 0 }

  function AfterTake(b: State, now: real): State {
    var r := Refilled(b, now);
    if r.tokens > 0 then r.(tokens := r.tokens - 1) else r
  }

  /** The bucket after a history of takes, by whichever goroutines: the mutex puts them in one order. */
  function After(b: State, times: seq<real>): State {
    if times == [] then b else AfterTake(After(b, times[..|times| - 1]), times[|times| - 1])
  }

  /** How many of the takes were granted. */
  function Grants(b: State, times: seq<real>): nat {
    if times == [] then 0
    else
      var n := |times| - 1;
      Grants(b, times[..n]) + if Grantable(After(b, times[..n]), times[n]) then 1 else 0
  }

  /** The instants are in order and none precedes `from`. */
  predicate Ordered(from: real, times: seq<real>) {
    && (times != [] ==> from <= times[0])
    && forall i | 0 <= i < |times| - 1 :: times[i] <= times[i + 1]
  }

  predicate AtMostApart(from: real, times: seq<real>, gap: real) {
    && (times != [] ==> times[0] - from <= gap)
    && forall i | 0 <= i < |times| - 1 :: times[i + 1] - times[i] <= gap
  }

  function Last(from: real, times: seq<real>): real {
    if times == [] then from else times[|times| - 1]
  }

  /** Multiplication, by name: seconds times rate, or periods times grants. */
  function Times(x: real, y: real): real { x * y }

  lemma TimesDifference(x: real, y: real, rate: real)
    ensures Times(x, rate) - Times(y, rate) == Times(x - y, rate) == (x - y) * rate
  {
  }

  class TokenBucket {
    var tokens: int
    var capacity: nat
    var refillRate: real // tokens per second
    var lastRefill: real // seconds

    ghost function Current(): State
      reads this
    {
      State(tokens, capacity, Times(lastRefill, refillRate))
    }

    /** token_bucket.go NewTokenBucket */
    constructor (capacity: nat, refillRate: real, now: real)
      ensures Current() == State(capacity, capacity, Times(now, refillRate)) && this.refillRate == refillRate
      ensures tokens == this.capacity == capacity && lastRefill == now
    {
      tokens, this.capacity, this.refillRate, lastRefill := capacity, capacity, refillRate, now;
    }

    method Refill(now: real)
      modifies this
      ensures Current() == Refilled(old(Current()), Times(now, refillRate)) && refillRate == old(refillRate)
    {
      TimesDifference(now, lastRefill, refillRate);
      var tokensToAdd := ((now - lastRefill) * refillRate).Floor;
      if tokensToAdd > 0 {
        tokens := Min(capacity, tokens + tokensToAdd);
        lastRefill := now;
      }
    }

    method Take(now: real) returns (granted: bool)
      modifies this
      ensures Current() == AfterTake(old(Current()), Times(now, refillRate)) && refillRate == old(refillRate)
      ensures granted == Grantable(old(Current()), Times(now, refillRate))
    {
      Refill(now);
      if tokens > 0 {
        tokens := tokens - 1;
        return true;
      }
      granted := false;
    }

    /**
      token_bucket.go WaitForToken, waking at the instants of `clock`. A waiter that wakes once the
      next token is due is served; the first granted attempt ends the wait.
     */
    method WaitForToken(clock: seq<real>) returns (attempts: nat)
      requires Current().Valid() && capacity >= 1
      requires clock != [] && Times(clock[|clock| - 1], refillRate) - Times(lastRefill, refillRate) >= 1.0
      modifies this
      ensures 1 <= attempts <= |clock| && refillRate == old(refillRate)
      ensures Current() == After(old(Current()), Scaled(refillRate, clock[..attempts]))
      ensures Grants(old(Current()), Scaled(refillRate, clock[..attempts - 1])) == 0
      ensures Grants(old(Current()), Scaled(refillRate, clock[..attempts])) == 1
    {
      ghost var b, rate := Current(), refillRate;
      attempts := 0;
      while true
        invariant attempts < |clock| && refillRate == rate
        invariant Current() == b == After(b, Scaled(rate, clock[..attempts]))
        invariant Grants(b, Scaled(rate, clock[..attempts])) == 0
        decreases |clock| - attempts
      {
        ScaledSnoc(rate, clock, attempts);
        FailedTake(b, Times(clock[attempts], rate));
        var granted := Take(clock[attempts]);
        attempts := attempts + 1;
        if granted {
          return;
        }
      }
    }
  }

  // ---------- one take ----------

  lemma StaysValid(b: State, now: real)
    requires b.Valid()
    ensures Refilled(b, now).Valid() && AfterTake(b, now).Valid()
    ensures b.lastRefill <= now ==> b.lastRefill <= AfterTake(b, now).lastRefill <= now
  {
  }

  /** A take fails exactly when the bucket is empty and not yet due for a token; it then changes nothing. */
  lemma FailedTake(b: State, now: real)
    requires b.Valid() && b.capacity >= 1
    ensures !Grantable(b, now) <==> b.tokens == 0 && now - b.lastRefill < 1.0
    ensures !Grantable(b, now) ==> AfterTake(b, now) == b
  {
  }

  /** 0 <= tokens <= capacity always. */
  lemma {:induction false} AfterIsValid(b: State, times: seq<real>)
    requires b.Valid() && Ordered(b.lastRefill, times)
    ensures After(b, times).Valid() && After(b, times).lastRefill <= Last(b.lastRefill, times)
    ensures After(b, times).capacity == b.capacity
  {
    if times != [] {
      var n := |times| - 1;
      AfterIsValid(b, times[..n]);
      assert Last(b.lastRefill, times[..n]) <= times[n];
      StaysValid(After(b, times[..n]), times[n]);
    }
  }

  // ---------- bursts ----------

  /** What can be taken at an instant: the tokens left and the whole ones accrued since, up to the capacity. */
  lemma {:induction false} Burst(b: State, now: real, n: nat)
    requires b.Valid() && b.lastRefill <= now
    ensures var times := seq(n, _ => now);
            var available := Min(b.capacity, b.tokens + (now - b.lastRefill).Floor);
            && Grants(b, times) == Min(n, available)
            && (n > 0 ==>
                  && After(b, times).tokens == available - Min(n, available)
                  && After(b, times).capacity == b.capacity
                  && After(b, times).lastRefill == if now - b.lastRefill >= 1.0 then now else b.lastRefill)
  {
    var times := seq(n, _ => now);
    if n > 0 {
      Burst(b, now, n - 1);
      assert times[..n - 1] == seq(n - 1, _ => now);
    }
  }

  // ---------- upper bound, in token times ----------

  /** Tokens in the bucket plus those accrued but not yet added. */
  function Potential(b: State, now: real): real {
    b.tokens as real + now - b.lastRefill
  }

  lemma TakePotential(b: State, now: real)
    requires b.Valid()
    ensures Potential(AfterTake(b, now), now) + (if Grantable(b, now) then 1.0 else 0.0) <= Potential(b, now)
  {
  }

  /** Since any instant, grants are paid for by the potential then and the time since. */
  lemma {:induction false} GrantsArePaidFor(b: State, from: real, times: seq<real>)
    requires b.Valid() && b.lastRefill <= from && Ordered(from, times)
    ensures Grants(b, times) as real + Potential(After(b, times), Last(from, times))
            <= Potential(b, from) + Last(from, times) - from
  {
    if times != [] {
      var n := |times| - 1;
      GrantsArePaidFor(b, from, times[..n]);
      AfterIsValid(b, times[..n]);
      TakePotential(After(b, times[..n]), times[n]);
    }
  }

  lemma GrantsBounded(b: State, from: real, times: seq<real>)
    requires b.Valid() && b.lastRefill <= from && Ordered(from, times)
    ensures Grants(b, times) as real <= Potential(b, from) + Last(from, times) - from
  {
    GrantsArePaidFor(b, from, times);
    AfterIsValid(b, times);
  }

  /** Refilling at the instant of the first take changes nothing for the takes. */
  lemma {:induction false} SameFromRefilled(b: State, times: seq<real>)
    requires times != []
    ensures var r := Refilled(b, times[0]);
            After(b, times) == After(r, times) && Grants(b, times) == Grants(r, times)
  {
    var n := |times| - 1;
    var r := Refilled(b, times[0]);
    if n == 0 {
      assert times[..0] == [];
      assert Refilled(r, times[0]) == r;
      assert After(b, times[..0]) == b && After(r, times[..0]) == r;
    } else {
      SameFromRefilled(b, times[..n]);
    }
  }

  /** In any window that starts with a take, however the bucket stood before it. */
  lemma Window(b: State, times: seq<real>)
    requires b.Valid() && times != [] && Ordered(b.lastRefill, times)
    ensures Grants(b, times) as real < b.capacity as real + 1.0 + times[|times| - 1] - times[0]
  {
    StaysValid(b, times[0]);
    SameFromRefilled(b, times);
    GrantsBounded(Refilled(b, times[0]), times[0], times);
  }

  // ---------- lower bound, in token times ----------

  /** `c` is the start or the last grant: no refill since, less than one token time ago, and grants keep up. */
  ghost predicate KeepsUp(end: State, grants: nat, from: real, now: real, gap: real, c: real) {
    end.lastRefill <= c <= now < c + 1.0 && c - from <= Times(1.0 + gap, grants as real)
  }

  lemma OneMore(p: real, grants: nat)
    ensures Times(p, (grants + 1) as real) == Times(p, grants as real) + p
  {
    assert (grants + 1) as real == grants as real + 1.0;
  }

  lemma KeepUpStep(end: State, grants: nat, from: real, now: real, t: real, gap: real, c: real) returns (d: real)
    requires end.Valid() && end.capacity >= 1 && gap >= 0.0
    requires KeepsUp(end, grants, from, now, gap, c) && now <= t <= now + gap
    ensures KeepsUp(AfterTake(end, t), grants + if Grantable(end, t) then 1 else 0, from, t, gap, d)
  {
    FailedTake(end, t);
    StaysValid(end, t);
    OneMore(1.0 + gap, grants);
    d := if Grantable(end, t) then t else c;
  }

  lemma {:induction false} KeepingUp(b: State, from: real, times: seq<real>, gap: real) returns (c: real)
    requires b.Valid() && b.capacity >= 1 && gap >= 0.0 && b.lastRefill <= from < b.lastRefill + 1.0
    requires Ordered(from, times) && AtMostApart(from, times, gap)
    ensures KeepsUp(After(b, times), Grants(b, times), from, Last(from, times), gap, c)
  {
    if times == [] {
      c := from;
    } else {
      var n := |times| - 1;
      c := KeepingUp(b, from, times[..n], gap);
      AfterIsValid(b, times[..n]);
      c := KeepUpStep(After(b, times[..n]), Grants(b, times[..n]), from, Last(from, times[..n]), times[n], gap, c);
    }
  }

  /** From any take to any end before the next one is due, less than one token time and gap stays uncovered. */
  lemma SteadyGrants(b: State, first: real, times: seq<real>, gap: real, end: real)
    requires b.Valid() && b.capacity >= 1 && gap >= 0.0 && b.lastRefill <= first
    requires Ordered(first, times) && AtMostApart(first, times, gap)
    requires Last(first, times) <= end <= Last(first, times) + gap
    ensures end - first < Times(1.0 + gap, (Grants(AfterTake(b, first), times) + 1) as real)
  {
    var taken := AfterTake(b, first);
    StaysValid(b, first);
    var c := KeepingUp(taken, first, times, gap);
    OneMore(1.0 + gap, Grants(taken, times));
  }

  // ---------- in seconds ----------

  /** Instants in seconds as token times. */
  function Scaled(rate: real, seconds: seq<real>): seq<real> {
    seq(|seconds|, i requires 0 <= i < |seconds| => Times(seconds[i], rate))
  }

  lemma ScaledSnoc(rate: real, seconds: seq<real>, k: nat)
    requires k < |seconds|
    ensures Scaled(rate, seconds[..k + 1]) == Scaled(rate, seconds[..k]) + [Times(seconds[k], rate)]
    ensures Scaled(rate, seconds[..k + 1])[..k] == Scaled(rate, seconds[..k])
  {
  }

  lemma TimesMonotone(x: real, y: real, rate: real)
    requires x <= y && rate >= 0.0
    ensures Times(x, rate) <= Times(y, rate)
  {
    var d := y - x;
    assert d * rate >= 0.0;
    TimesDifference(y, x, rate);
  }

  lemma ScaledOrder(rate: real, from: real, seconds: seq<real>)
    requires rate >= 0.0 && Ordered(from, seconds)
    ensures Ordered(Times(from, rate), Scaled(rate, seconds))
    ensures Last(Times(from, rate), Scaled(rate, seconds)) == Times(Last(from, seconds), rate)
  {
    var scaled := Scaled(rate, seconds);
    if seconds != [] {
      TimesMonotone(from, seconds[0], rate);
    }
    forall i | 0 <= i < |scaled| - 1 ensures scaled[i] <= scaled[i + 1] {
      TimesMonotone(seconds[i], seconds[i + 1], rate);
    }
  }

  lemma ScaledGaps(rate: real, from: real, seconds: seq<real>, gap: real)
    requires rate >= 0.0 && AtMostApart(from, seconds, gap)
    ensures AtMostApart(Times(from, rate), Scaled(rate, seconds), Times(gap, rate))
  {
    var scaled := Scaled(rate, seconds);
    if seconds != [] {
      ScaledGap(from, seconds[0], gap, rate);
    }
    forall i | 0 <= i < |scaled| - 1 ensures scaled[i + 1] - scaled[i] <= Times(gap, rate) {
      ScaledGap(seconds[i], seconds[i + 1], gap, rate);
    }
  }

  lemma ScaledGap(x: real, y: real, gap: real, rate: real)
    requires y - x <= gap && rate >= 0.0
    ensures Times(y, rate) - Times(x, rate) <= Times(gap, rate)
  {
    TimesMonotone(y - x, gap, rate);
    TimesDifference(y, x, rate);
  }

  /** Since creation, at most the capacity plus rate times the elapsed seconds are granted. */
  lemma GrantsSinceCreation(capacity: nat, rate: real, created: real, seconds: seq<real>)
    requires rate >= 0.0 && Ordered(created, seconds)
    ensures Grants(State(capacity, capacity, Times(created, rate)), Scaled(rate, seconds)) as real
            <= capacity as real + (Last(created, seconds) - created) * rate
  {
    ScaledOrder(rate, created, seconds);
    GrantsBounded(State(capacity, capacity, Times(created, rate)), Times(created, rate), Scaled(rate, seconds));
    TimesDifference(Last(created, seconds), created, rate);
  }

  /**
    An idle bucket lets a burst through: of any number of takes at one instant, as many are granted as
    tokens were left plus those due since the last refill, up to the capacity.
   */
  lemma IdleBurst(tokens: int, capacity: nat, rate: real, lastRefill: real, now: real, n: nat)
    requires 0 <= tokens <= capacity && rate >= 0.0 && lastRefill <= now
    ensures Grants(State(tokens, capacity, Times(lastRefill, rate)), Scaled(rate, seq(n, _ => now)))
            == Min(n, Min(capacity, tokens + ((now - lastRefill) * rate).Floor))
  {
    TimesMonotone(lastRefill, now, rate);
    TimesDifference(now, lastRefill, rate);
    Burst(State(tokens, capacity, Times(lastRefill, rate)), Times(now, rate), n);
    assert Scaled(rate, seq(n, _ => now)) == seq(n, _ => Times(now, rate));
  }

  /** In a window of T seconds that starts with a take, fewer than capacity + 1 + rate * T are granted. */
  lemma WindowBound(tokens: int, capacity: nat, rate: real, lastRefill: real, seconds: seq<real>)
    requires 0 <= tokens <= capacity && rate >= 0.0 && seconds != [] && Ordered(lastRefill, seconds)
    ensures var b, T := State(tokens, capacity, Times(lastRefill, rate)), seconds[|seconds| - 1] - seconds[0];
            Grants(b, Scaled(rate, seconds)) as real < capacity as real + 1.0 + T * rate
  {
    ScaledOrder(rate, lastRefill, seconds);
    Window(State(tokens, capacity, Times(lastRefill, rate)), Scaled(rate, seconds));
    TimesDifference(seconds[|seconds| - 1], seconds[0], rate);
  }

  /** The longest a steady stream of takes goes without a grant, in seconds. */
  function Period(rate: real, gap: real): (p: real)
    requires rate > 0.0 && gap >= 0.0
    ensures p > 0.0
  {
    InversePositive(rate);
    1.0 / rate + gap
  }

  lemma PositiveFactor(x: real, y: real)
    requires y > 0.0
    ensures x * y > 0.0 <==> x > 0.0
  {
    if x <= 0.0 {
      var z := -x;
      assert z * y >= 0.0;
      assert z * y == -(x * y);
    }
  }

  lemma InversePositive(rate: real)
    requires rate > 0.0
    ensures 1.0 / rate > 0.0 && (1.0 / rate) * rate == 1.0
  {
    var i := 1.0 / rate;
    assert i * rate == 1.0;
    PositiveFactor(i, rate);
  }

  /**
    Frequent polling does not starve the bucket although every refill drops a fraction: from any take
    on, takes at most `gap` seconds apart see at least floor(T / (1/rate + gap)) grants in T seconds,
    also when the T seconds end between two takes.
   */
  lemma Throughput(tokens: int, capacity: nat, rate: real, lastRefill: real, first: real, seconds: seq<real>,
                   gap: real, end: real)
    requires 0 <= tokens <= capacity && capacity >= 1 && rate > 0.0 && gap >= 0.0 && lastRefill <= first
    requires Ordered(first, seconds) && AtMostApart(first, seconds, gap)
    requires Last(first, seconds) <= end <= Last(first, seconds) + gap
    ensures var b, T := State(tokens, capacity, Times(lastRefill, rate)), end - first;
            Grants(AfterTake(b, Times(first, rate)), Scaled(rate, seconds)) >= (T / Period(rate, gap)).Floor
  {
    var b, scaled := State(tokens, capacity, Times(lastRefill, rate)), Scaled(rate, seconds);
    TimesMonotone(lastRefill, first, rate);
    ScaledOrder(rate, first, seconds);
    ScaledGaps(rate, first, seconds, gap);
    TimesMonotone(0.0, gap, rate);
    assert Times(0.0, rate) == 0.0;
    TimesMonotone(Last(first, seconds), end, rate);
    ScaledGap(Last(first, seconds), end, gap, rate);
    SteadyGrants(b, Times(first, rate), scaled, Times(gap, rate), Times(end, rate));
    TimesDifference(end, first, rate);
    Quotient(end - first, rate, gap, Grants(AfterTake(b, Times(first, rate)), scaled));
  }

  lemma Quotient(span: real, rate: real, gap: real, grants: nat)
    requires rate > 0.0 && gap >= 0.0
    requires Times(span, rate) < Times(1.0 + Times(gap, rate), (grants + 1) as real)
    ensures grants >= (span / Period(rate, gap)).Floor
  {
    var p, n := Period(rate, gap), (grants + 1) as real;
    QuotientBelow(span, p, n, rate, gap);
  }

  lemma QuotientBelow(span: real, p: real, n: real, rate: real, gap: real)
    requires rate > 0.0 && p > 0.0 && p == 1.0 / rate + gap
    requires Times(span, rate) < Times(1.0 + Times(gap, rate), n)
    ensures span / p < n
  {
    var i, q := 1.0 / rate, span / p;
    InversePositive(rate);
    assert q * p == span;
    var u := p * rate;
    assert u == i * rate + gap * rate;
    PositiveFactor(p, rate);
    assert q * u == (q * p) * rate;
    var d := n - q;
    assert d * u == n * u - q * u;
    assert u * n == n * u;
    PositiveFactor(d, u);
  }
}
