/** What the three limiters admit over whole call histories of one key: exact values and bounds for
    every run with non-decreasing instants. */
module RateBounds {
  import opened Text
  import opened RateLimits

  // Time is read under the lock, so a history never goes back.
  ghost predicate Ordered(times: seq<int>) {
    |times| >= 2 ==> Last(Init(times)) <= Last(times) && Ordered(Init(times))
  }

  lemma {:induction false} OrderedAt(times: seq<int>, i: nat, j: nat)
    requires Ordered(times) && i <= j < |times|
    ensures times[i] <= times[j]
    ensures Ordered(times[..j + 1])
  {
    if j < |times| - 1 {
      OrderedAt(Init(times), i, j);
      assert Init(times)[..j + 1] == times[..j + 1];
    } else {
      assert times[..j + 1] == times;
      if i < j { OrderedAt(Init(times), i, j - 1); }
    }
  }

  // The counter after a history of calls, and what the last of them was told.
  function Run(times: seq<int>, l: Limit): RateCounter {
    if times == [] then ZERO_COUNTER
    else Increment(Run(Init(times), l), Last(times), l).0
  }

  function Call(times: seq<int>, l: Limit): (RateCounter, int)
    requires times != []
  {
    Increment(Run(Init(times), l), Last(times), l)
  }

  predicate Admits(times: seq<int>, l: Limit)
    requires times != []
  {
    Call(times, l).1 <= l.max
  }

  // The calls of the history admitted at an instant in [lo, hi].
  function Admitted(times: seq<int>, l: Limit, lo: int, hi: int): nat {
    if times == [] then 0
    else Admitted(Init(times), l, lo, hi) + (if lo <= Last(times) <= hi && Admits(times, l) then 1 else 0)
  }

  // ----- Sliding window -----

  lemma {:induction false} AfterTwice(s: seq<int>, a: int, b: int)
    requires a <= b
    ensures After(After(s, a), b) == After(s, b)
  {
    if s != [] {
      AfterTwice(Init(s), a, b);
      var kept := After(Init(s), a);
      assert Init(kept + [Last(s)]) == kept;
    }
  }

  lemma {:induction false} AfterShrinks(s: seq<int>, a: int, b: int)
    requires a <= b
    ensures |After(s, b)| <= |After(s, a)|
  {
    if s != [] { AfterShrinks(Init(s), a, b); }
  }

  lemma AfterStep(before: seq<int>, earlier: int, cutoff: int, now: int)
    requires earlier <= cutoff < now
    ensures After(After(before, earlier), cutoff) + [now] == After(before + [now], cutoff)
  {
    AfterTwice(before, earlier, cutoff);
    assert Init(before + [now]) == before;
  }

  lemma SlidingCall(times: seq<int>, l: Limit)
    requires l.strategy.SlidingWindow? && times != []
    ensures Run(times, l).hits == After(Run(Init(times), l).hits, Last(times) - l.window) + [Last(times)]
    ensures Call(times, l).1 == |Run(times, l).hits|
  {
  }

  lemma SlidingFirst(times: seq<int>, l: Limit)
    requires l.strategy.SlidingWindow? && l.window > 0 && |times| == 1
    ensures Run(times, l).hits == After(times, Last(times) - l.window)
  {
    SlidingCall(times, l);
    assert Init(times) == [] && Run([], l).hits == [];
    hide Run, Call;
    assert times == [Last(times)];
  }

  // Pruning forgets nothing the window still covers: the list kept is the whole history cut at
  // now - W, so the number returned is the number of calls ever made in (now - W, now].
  lemma {:induction false} SlidingExact(times: seq<int>, l: Limit)
    requires l.strategy.SlidingWindow? && l.window > 0
    requires times != [] && Ordered(times)
    ensures Run(times, l).hits == After(times, Last(times) - l.window)
    ensures Call(times, l).1 == |After(times, Last(times) - l.window)|
  {
    hide Run, Call, After, Increment;
    SlidingCall(times, l);
    if |times| == 1 {
      SlidingFirst(times, l);
    } else {
      assert Init(times) + [Last(times)] == times;
      SlidingExact(Init(times), l);
      AfterStep(Init(times), Last(Init(times)) - l.window, Last(times) - l.window, Last(times));
    }
  }

  // The calls of the history at an instant in [lo, hi].
  function CallsIn(times: seq<int>, lo: int, hi: int): nat {
    if times == [] then 0 else CallsIn(Init(times), lo, hi) + if lo <= Last(times) <= hi then 1 else 0
  }

  lemma {:induction false} AfterCounts(times: seq<int>, cutoff: int, hi: int)
    requires Ordered(times) && (times != [] ==> Last(times) <= hi)
    ensures |After(times, cutoff)| == CallsIn(times, cutoff + 1, hi)
  {
    if times != [] { AfterCounts(Init(times), cutoff, hi); }
  }

  // So a call is told how many calls were made in (now - W, now], and passes exactly when they are at most max.
  lemma SlidingCounts(times: seq<int>, l: Limit)
    requires l.strategy.SlidingWindow? && l.window > 0 && times != [] && Ordered(times)
    ensures var calls := CallsIn(times, Last(times) - l.window + 1, Last(times));
            Call(times, l).1 == calls && (Admits(times, l) <==> calls <= l.max)
  {
    hide Run, Call, After, Ordered;
    SlidingExact(times, l);
    AfterCounts(times, Last(times) - l.window, Last(times));
  }

  lemma {:induction false} AdmittedWithin(times: seq<int>, l: Limit, lo: int, hi: int)
    ensures Admitted(times, l, lo, hi) <= |After(times, lo - 1)|
  {
    if times != [] { AdmittedWithin(Init(times), l, lo, hi); }
  }

  // No interval (hi - W, hi], wherever it is placed, holds more than max admitted calls.
  lemma {:induction false} SlidingBound(times: seq<int>, l: Limit, hi: int)
    requires l.strategy.SlidingWindow? && l.window > 0 && l.max >= 0
    requires Ordered(times)
    ensures Admitted(times, l, hi - l.window + 1, hi) <= l.max
  {
    if times != [] {
      if hi - l.window < Last(times) <= hi && Admits(times, l) {
        SlidingBoundAtAdmission(times, l, hi);
      } else {
        SlidingBound(Init(times), l, hi);
      }
    }
  }

  lemma SlidingBoundAtAdmission(times: seq<int>, l: Limit, hi: int)
    requires l.strategy.SlidingWindow? && l.window > 0 && times != [] && Ordered(times)
    requires hi - l.window < Last(times) <= hi && Admits(times, l)
    ensures Admitted(times, l, hi - l.window + 1, hi) <= l.max
  {
    hide Run, Call, Admitted, After, Ordered;
    SlidingExact(times, l);
    AdmittedWithin(times, l, hi - l.window + 1, hi);
    AfterShrinks(times, Last(times) - l.window, hi - l.window);
  }

  // ----- Fixed window -----

  // The calls of the history at or after an instant.
  function Since(times: seq<int>, from: int): nat {
    if times == [] then 0 else Since(Init(times), from) + (if Last(times) >= from then 1 else 0)
  }

  lemma {:induction false} SinceNone(times: seq<int>, from: int)
    requires Ordered(times) && (times != [] ==> Last(times) < from)
    ensures Since(times, from) == 0
  {
    if times != [] { SinceNone(Init(times), from); }
  }

  // The number returned counts every call since the window's start, which is an earlier call's
  // instant less than W ago; the windows are at least W apart.
  lemma {:induction false} FixedExact(times: seq<int>, l: Limit)
    requires l.strategy.FixedWindow? && l.window > 0
    requires times != [] && Ordered(times)
    ensures var c := Run(times, l);
            && c.windowStart.Some? && c.windowStart.value in times
            && c.windowStart.value <= Last(times) < c.windowStart.value + l.window
            && Call(times, l).1 == c.count == Since(times, c.windowStart.value)
  {
    var before := Init(times);
    if before == [] {
      assert Since(times, Last(times)) == Since([], Last(times)) + 1;
    } else {
      FixedExact(before, l);
      var start := Run(before, l).windowStart.value;
      assert times == before + [Last(times)];
      if Last(times) - start >= l.window { SinceNone(before, Last(times)); }
    }
  }

  // How the admitted calls of [lo, lo + W) relate to the current window: they all lie in it while it
  // started before lo; at most one earlier window can reach in, and only after its first call.
  lemma {:induction false} FixedInvariant(times: seq<int>, l: Limit, lo: int)
    requires l.strategy.FixedWindow? && l.window > 0 && l.max > 0
    requires Ordered(times)
    ensures var c := Run(times, l);
            var inWindow := if c.count < l.max then c.count else l.max;
            var n := Admitted(times, l, lo, lo + l.window - 1);
            if times == [] then n == 0
            else
              && c.windowStart.Some? && c.count >= 1
              && (c.windowStart.value < lo ==> n <= inWindow - 1)
              && (lo <= c.windowStart.value < lo + l.window ==> n <= l.max - 1 + inWindow)
              && n <= 2 * l.max - 1
  {
    if times != [] {
      FixedInvariant(Init(times), l, lo);
      FixedExact(times, l);
      if Last(times) < lo { AdmittedNone(times, l, lo, lo + l.window - 1); }
    }
  }

  // At most 2 * max - 1 calls pass in any half-open interval of length W.
  lemma FixedBound(times: seq<int>, l: Limit, lo: int)
    requires l.strategy.FixedWindow? && l.window > 0 && l.max > 0
    requires Ordered(times)
    ensures Admitted(times, l, lo, lo + l.window - 1) <= 2 * l.max - 1
  {
    FixedInvariant(times, l, lo);
  }

  // Inside one window at most max calls pass.
  lemma {:induction false} FixedWindowBound(times: seq<int>, l: Limit)
    requires l.strategy.FixedWindow? && l.window > 0 && l.max >= 0
    requires times != [] && Ordered(times)
    ensures var c := Run(times, l);
            Admitted(times, l, c.windowStart.value, Last(times)) <= if c.count < l.max then c.count else l.max
  {
    FixedExact(times, l);
    var c := Run(times, l);
    var before := Init(times);
    if before != [] {
      FixedExact(before, l);
      if Run(before, l).windowStart == c.windowStart {
        FixedWindowBound(before, l);
        AdmittedUpTo(before, l, c.windowStart.value, Last(before), Last(times));
      } else {
        AdmittedNone(before, l, c.windowStart.value, Last(times));
      }
    }
  }

  lemma {:induction false} AdmittedUpTo(times: seq<int>, l: Limit, lo: int, hi: int, hi': int)
    requires Ordered(times) && (times != [] ==> Last(times) <= hi <= hi')
    ensures Admitted(times, l, lo, hi) == Admitted(times, l, lo, hi')
  {
    if times != [] { AdmittedUpTo(Init(times), l, lo, hi, hi'); }
  }

  lemma {:induction false} AdmittedNone(times: seq<int>, l: Limit, lo: int, hi: int)
    requires Ordered(times) && (times != [] ==> Last(times) < lo)
    ensures Admitted(times, l, lo, hi) == 0
  {
    if times != [] { AdmittedNone(Init(times), l, lo, hi); }
  }

  // One early call opens a window whose last instant and the next window's first both take all they are
  // given.
  function Burst(first: int, more: nat, second: int, k: nat): seq<int> {
    [first] + seq(more, i => second - 1) + seq(k, i => second)
  }

  lemma FixedCall(before: seq<int>, now: int, l: Limit, lo: int, hi: int)
    requires l.strategy.FixedWindow? && Ordered(before) && (before != [] ==> Last(before) <= now)
    ensures var c, c' := Run(before, l), Run(before + [now], l);
            var opens := c.windowStart.None? || now - c.windowStart.value >= l.window;
            && Ordered(before + [now])
            && c'.count == (if opens then 1 else c.count + 1)
            && c'.windowStart == (if opens then Some(now) else c.windowStart)
            && Admitted(before + [now], l, lo, hi)
               == Admitted(before, l, lo, hi) + (if lo <= now <= hi && c'.count <= l.max then 1 else 0)
  {
    assert Init(before + [now]) == before;
  }

  lemma {:induction false} BurstFills(l: Limit, more: nat, k: nat)
    requires l.strategy.FixedWindow? && l.window > 1 && l.max > 0
    requires more < l.max && k <= l.max && (k > 0 ==> more == l.max - 1)
    ensures var times := Burst(0, more, l.window, k);
            && Ordered(times)
            && Run(times, l).count == (if k == 0 then more + 1 else k)
            && Run(times, l).windowStart == Some(if k == 0 then 0 else l.window)
            && Admitted(times, l, l.window - 1, 2 * l.window - 2) == more + k
  {
    hide Ordered, Admitted, Run;
    var lo, hi := l.window - 1, 2 * l.window - 2;
    var times := Burst(0, more, l.window, k);
    if k > 0 {
      var before := Burst(0, more, l.window, k - 1);
      BurstFills(l, more, k - 1);
      assert times == before + [l.window];
      FixedCall(before, l.window, l, lo, hi);
    } else if more > 0 {
      var before := Burst(0, more - 1, l.window, 0);
      BurstFills(l, more - 1, 0);
      assert times == before + [l.window - 1];
      FixedCall(before, l.window - 1, l, lo, hi);
    } else {
      NoCalls(l, lo, hi);
      assert times == [] + [0];
      FixedCall([], 0, l, lo, hi);
    }
  }

  lemma NoCalls(l: Limit, lo: int, hi: int)
    ensures Run([], l) == ZERO_COUNTER && Admitted([], l, lo, hi) == 0 && Ordered([])
  {
  }

  // The bound is reached, for every window and every max: [W - 1, 2 * W - 1) is an interval of length W.
  lemma FixedBoundReached(l: Limit)
    requires l.strategy.FixedWindow? && l.window > 1 && l.max > 0
    ensures exists times :: Ordered(times) && Admitted(times, l, l.window - 1, 2 * l.window - 2) == 2 * l.max - 1
  {
    BurstFills(l, l.max - 1, l.max);
    var times := Burst(0, l.max - 1, l.window, l.max);
    assert Ordered(times) && Admitted(times, l, l.window - 1, 2 * l.window - 2) == 2 * l.max - 1;
  }

  // ----- Token bucket -----

  lemma RefillAdds(a: int, b: int, l: Limit)
    requires BucketLimit(l)
    ensures Refill(a, l) + Refill(b, l) == Refill(a + b, l)
    ensures Refill(0, l) == 0.0
    ensures a >= 0 ==> Refill(a, l) >= 0.0
  {
    var w, c := l.window as real, l.max as real;
    assert (a as real * c) / w + (b as real * c) / w == (a as real * c + b as real * c) / w;
    assert a as real * c + b as real * c == (a as real + b as real) * c;
    if a >= 0 {
      assert a as real * c >= 0.0;
      assert (a as real * c) / w >= 0.0;
    }
  }

  // The tokens the last call of the history found, after the refill.
  function TokensFound(times: seq<int>, l: Limit): real
    requires times != [] && BucketLimit(l)
  {
    RefilledTokens(Run(Init(times), l), Last(times), l)
  }

  // Tokens stay between 0 and the capacity, every result lies in 1 .. capacity + 1, and a call is
  // admitted exactly when it found a whole token.
  lemma {:induction false} BucketInvariant(times: seq<int>, l: Limit)
    requires BucketLimit(l) && Ordered(times) && times != []
    ensures 0.0 <= Run(times, l).tokens <= l.max as real
    ensures Run(times, l).lastRefill == Some(Last(times))
    ensures 1 <= Call(times, l).1 <= l.max + 1
    ensures 0.0 <= TokensFound(times, l) <= l.max as real
    ensures Admits(times, l) <==> TokensFound(times, l) >= 1.0
    ensures Run(times, l).tokens == TokensFound(times, l) - (if Admits(times, l) then 1.0 else 0.0)
    ensures Admits(times, l) ==> Call(times, l).1 == Ceil(l.max as real - Run(times, l).tokens)
  {
    if Init(times) != [] {
      BucketInvariant(Init(times), l);
      RefillAdds(Last(times) - Last(Init(times)), 0, l);
    }
  }

  // Calls number from .. end - 1 that were admitted.
  function AdmittedCalls(times: seq<int>, l: Limit, from: nat, end: nat): nat
    requires from <= end <= |times|
  {
    if from == end then 0
    else AdmittedCalls(times, l, from, end - 1) + (if Admits(times[..end], l) then 1 else 0)
  }

  // What a full bucket at call j would have left for call n.
  function Allowance(times: seq<int>, l: Limit, j: nat, n: nat): real
    requires j <= n < |times| && BucketLimit(l)
  {
    l.max as real + Refill(times[n] - times[j], l) - AdmittedCalls(times, l, j, n) as real
  }

  // What the call before left and the time since then has refilled.
  function Carried(before: seq<int>, now: int, l: Limit): real
    requires before != [] && BucketLimit(l)
  {
    TokensFound(before, l) - (if Admits(before, l) then 1.0 else 0.0) + Refill(now - Last(before), l)
  }

  function Min(a: real, b: real): real { if a < b then a else b }

  lemma Refilled(c: RateCounter, now: int, l: Limit)
    requires BucketLimit(l) && c.lastRefill.Some? && c.lastRefill.value <= now && c.tokens <= l.max as real
    ensures RefilledTokens(c, now, l) == Min(c.tokens + Refill(now - c.lastRefill.value, l), l.max as real)
  {
    RefillAdds(0, 0, l);
    hide Refill;
  }

  lemma FoundIsCarried(before: seq<int>, now: int, l: Limit)
    requires BucketLimit(l) && before != [] && Ordered(before) && Last(before) <= now
    ensures TokensFound(before + [now], l) == Min(Carried(before, now, l), l.max as real)
  {
    hide Run, Call, Admits, Refill, RefilledTokens, Ordered, BucketLimit, Min;
    assert Init(before + [now]) == before;
    BucketInvariant(before, l);
    Refilled(Run(before, l), now, l);
    assert TokensFound(before + [now], l) == RefilledTokens(Run(before, l), now, l);
  }

  lemma AllowanceAtOnce(times: seq<int>, l: Limit, n: nat)
    requires BucketLimit(l) && n < |times|
    ensures Allowance(times, l, n, n) == l.max as real
    ensures n == 0 ==> TokensFound(times[..n + 1], l) == l.max as real
  {
    RefillAdds(0, 0, l);
    assert n == 0 ==> Init(times[..n + 1]) == [];
  }

  // The tokens found are exactly the tightest allowance over all earlier starting calls.
  lemma {:induction false} BucketIsTightestAllowance(times: seq<int>, l: Limit, n: nat) returns (tight: nat)
    requires BucketLimit(l) && Ordered(times) && n < |times|
    ensures forall j: nat :: j <= n ==> TokensFound(times[..n + 1], l) <= Allowance(times, l, j, n)
    ensures tight <= n && TokensFound(times[..n + 1], l) == Allowance(times, l, tight, n)
  {
    hide Allowance, TokensFound, Admits, Refill, Ordered, BucketLimit;
    AllowanceAtOnce(times, l, n);
    if n == 0 { return 0; }
    tight := BucketIsTightestAllowance(times, l, n - 1);
    OrderedAt(times, n - 1, n - 1);
    OrderedAt(times, n - 1, n);
    assert times[..n - 1 + 1] == times[..n] && times[..n] + [times[n]] == times[..n + 1];
    FoundIsCarried(times[..n], times[n], l);
    forall j: nat | j <= n ensures TokensFound(times[..n + 1], l) <= Allowance(times, l, j, n) {
      if j < n { AllowanceStep(times, l, j, n); }
    }
    AllowanceStep(times, l, tight, n);
    if Carried(times[..n], times[n], l) >= l.max as real { tight := n; }
  }

  lemma AllowanceStep(times: seq<int>, l: Limit, j: nat, n: nat)
    requires j < n < |times| && BucketLimit(l)
    ensures Allowance(times, l, j, n) == Allowance(times, l, j, n - 1)
            - (if Admits(times[..n], l) then 1.0 else 0.0) + Refill(times[n] - times[n - 1], l)
  {
    RefillAdds(times[n - 1] - times[j], times[n] - times[n - 1], l);
  }

  // A call passes if and only if, counted with it, no stretch of calls ending here exceeds
  // C + C * (elapsed) / W: the bucket admits everything that bound allows and nothing more.
  lemma BucketAdmitsExactly(times: seq<int>, l: Limit, n: nat)
    requires BucketLimit(l) && Ordered(times) && n < |times|
    ensures Admits(times[..n + 1], l) <==>
            forall j: nat :: j <= n ==> Allowance(times, l, j, n) >= 1.0
  {
    var tight := BucketIsTightestAllowance(times, l, n);
    OrderedAt(times, n, n);
    BucketInvariant(times[..n + 1], l);
  }

  lemma {:induction false} AdmittedFrom(times: seq<int>, l: Limit, lo: int, hi: int) returns (first: nat)
    requires Ordered(times) && times != [] && lo <= Last(times)
    ensures first < |times| && lo <= times[first]
    ensures Admitted(times, l, lo, hi) <= AdmittedCalls(times, l, first, |times|)
  {
    assert times[..|times|] == times;
    if |times| > 1 && lo <= Last(Init(times)) {
      first := AdmittedFrom(Init(times), l, lo, hi);
      AdmittedCallsPrefix(times, l, first, |times| - 1);
    } else {
      first := |times| - 1;
      AdmittedNone(Init(times), l, lo, hi);
    }
  }

  lemma {:induction false} AdmittedCallsPrefix(times: seq<int>, l: Limit, from: nat, end: nat)
    requires from <= end < |times|
    ensures AdmittedCalls(Init(times), l, from, end) == AdmittedCalls(times, l, from, end)
    decreases end
  {
    if from < end {
      AdmittedCallsPrefix(times, l, from, end - 1);
      assert Init(times)[..end] == times[..end];
    }
  }

  // Admitted calls in any interval [s, t] number at most C + C * (t - s) / W.
  lemma {:induction false} BucketBound(times: seq<int>, l: Limit, s: int, t: int)
    requires BucketLimit(l) && Ordered(times) && s <= t
    ensures Admitted(times, l, s, t) as real <= l.max as real + Refill(t - s, l)
  {
    RefillAdds(t - s, 0, l);
    if times != [] {
      if s <= Last(times) <= t && Admits(times, l) {
        BucketBoundAtAdmission(times, l, s, t);
      } else {
        BucketBound(Init(times), l, s, t);
      }
    }
  }

  lemma BucketBoundAtAdmission(times: seq<int>, l: Limit, s: int, t: int)
    requires BucketLimit(l) && Ordered(times) && times != []
    requires s <= Last(times) <= t && Admits(times, l)
    ensures Admitted(times, l, s, t) as real <= l.max as real + Refill(t - s, l)
  {
    var n := |times| - 1;
    var first := AdmittedFrom(times, l, s, t);
    assert times[..n + 1] == times;
    BucketAdmitsExactly(times, l, n);
    assert Allowance(times, l, first, n) >= 1.0;
    OrderedAt(times, first, n);
    RefillMonotone(times[n] - times[first], t - s, l);
  }

  lemma RefillMonotone(a: int, b: int, l: Limit)
    requires BucketLimit(l) && a <= b
    ensures Refill(a, l) <= Refill(b, l)
  {
    RefillAdds(a, b - a, l);
    RefillAdds(b - a, 0, l);
  }
}
