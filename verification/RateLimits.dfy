/** The in-memory rate limiter: one counter record per key, three strategies.  Instants are integers
    (nanoseconds) and the token count is an exact real. */
module RateLimits {
  import opened Text

  datatype Strategy = FixedWindow | SlidingWindow | TokenBucket

  function RateStrategy(value: string): Strategy {
    var name := ToLower(TrimSpace(value));
    if name == "sliding_window" then SlidingWindow
    else if name == "token_bucket" then TokenBucket
    else FixedWindow
  }

  // The settings a caller passes along with every call.
  datatype Limit = Limit(window: int, max: int, strategy: Strategy)

  predicate BucketLimit(l: Limit) {
    l.strategy.TokenBucket? && l.window > 0 && l.max > 0
  }

  // A counter as a value; None is Go's zero time.
  datatype RateCounter = RateCounter(
    count: int, windowStart: Option<int>, hits: seq<int>, tokens: real, lastRefill: Option<int>)

  const ZERO_COUNTER := RateCounter(0, None, [], 0.0, None)

  function Last(times: seq<int>): int
    requires times != []
  {
    times[|times| - 1]
  }

  function Init(times: seq<int>): seq<int>
    requires times != []
  {
    times[..|times| - 1]
  }

  // The hits later than cutoff, in order.
  function After(hits: seq<int>, cutoff: int): seq<int> {
    if hits == [] then []
    else if Last(hits) > cutoff then After(Init(hits), cutoff) + [Last(hits)]
    else After(Init(hits), cutoff)
  }

  function Ceil(x: real): int {
    -((-x).Floor)
  }

  // What a bucket regains over an elapsed time.
  function Refill(elapsed: int, l: Limit): real
    requires BucketLimit(l)
  {
    elapsed as real * l.max as real / l.window as real
  }

  function RefilledTokens(c: RateCounter, now: int, l: Limit): real
    requires BucketLimit(l)
  {
    if c.lastRefill.None? then l.max as real
    else
      var elapsed := now - c.lastRefill.value;
      if elapsed <= 0 then c.tokens
      else if c.tokens + Refill(elapsed, l) < l.max as real then c.tokens + Refill(elapsed, l)
      else l.max as real
  }

  function BucketStep(c: RateCounter, now: int, l: Limit): (RateCounter, int)
    requires BucketLimit(l)
  {
    var tokens := RefilledTokens(c, now, l);
    var last := if c.lastRefill.None? || now > c.lastRefill.value then Some(now) else c.lastRefill;
    var refilled := c.(tokens := tokens, lastRefill := last);
    if tokens < 1.0 then (refilled.(count := l.max + 1), l.max + 1)
    else
      var left := tokens - 1.0;
      var used := Ceil(l.max as real - left);
      var count := if used < 1 then 1 else used;
      (refilled.(tokens := left, count := count), count)
  }

  // One call on one counter: the new record and the value returned.
  function Increment(c: RateCounter, now: int, l: Limit): (RateCounter, int) {
    match l.strategy
    case SlidingWindow =>
      var hits := After(c.hits, now - l.window) + [now];
      (c.(hits := hits, count := |hits|, windowStart := Some(now)), |hits|)
    case TokenBucket =>
      if BucketLimit(l) then BucketStep(c, now, l) else (c, 1)
    case FixedWindow =>
      var current := if c.windowStart.None? || now - c.windowStart.value >= l.window
                     then ZERO_COUNTER.(windowStart := Some(now)) else c;
      (current.(count := current.count + 1), current.count + 1)
  }

  // A misconfigured token bucket answers before it touches the map.
  predicate Stores(l: Limit) {
    l.strategy.TokenBucket? ==> BucketLimit(l)
  }

  // ----- The store: a map of records whose hit lists are slices of shared buffers -----

  // Go's slice header for the hit list: the first `used` cells of a buffer, which may have room left.
  datatype CounterRecord = CounterRecord(
    count: int, windowStart: Option<int>, buffer: array?<int>, used: nat, tokens: real, lastRefill: Option<int>)

  ghost function AsValue(r: CounterRecord): RateCounter
    requires if r.buffer == null then r.used == 0 else r.used <= r.buffer.Length
    reads r.buffer
  {
    WithHits(r, if r.buffer == null then [] else r.buffer[..r.used])
  }

  function WithHits(r: CounterRecord, hits: seq<int>): RateCounter {
    RateCounter(r.count, r.windowStart, hits, r.tokens, r.lastRefill)
  }

  class RateStore {
    var rateCounters: map<string, CounterRecord>

    ghost function Buffers(): set<object>
      reads this
    {
      set k | k in rateCounters && rateCounters[k].buffer != null :: rateCounters[k].buffer
    }

    // Every slice fits its buffer, and no two keys share one.
    ghost predicate Valid()
      reads this
    {
      && (forall k :: k in rateCounters ==>
            if rateCounters[k].buffer == null then rateCounters[k].used == 0
            else rateCounters[k].used <= rateCounters[k].buffer.Length)
      && (forall k, l :: k in rateCounters && l in rateCounters && k != l && rateCounters[k].buffer != null
                         ==> rateCounters[k].buffer != rateCounters[l].buffer)
    }

    ghost function CounterAt(k: string): RateCounter
      requires Valid()
      reads this, if k in rateCounters then {rateCounters[k].buffer} else {}
    {
      if k in rateCounters then AsValue(rateCounters[k]) else ZERO_COUNTER
    }

    constructor ()
      ensures Valid() && rateCounters == map[]
    {
      rateCounters := map[];
    }

    // hits := counter.Hits[:0] and the loop that appends the survivors to it: reader and writer walk
    // the same buffer, the writer never ahead of the reader.
    method Prune(buffer: array?<int>, used: nat, cutoff: int) returns (kept: nat)
      requires if buffer == null then used == 0 else used <= buffer.Length
      modifies buffer
      ensures buffer == null ==> kept == 0
      ensures buffer != null ==> kept <= used && buffer[..kept] == After(old(buffer[..used]), cutoff)
    {
      kept := 0;
      if buffer != null {
        ghost var hits := buffer[..used];
        var i := 0;
        while i < used
          invariant kept <= i <= used
          invariant forall k :: i <= k < used ==> buffer[k] == hits[k]
          invariant buffer[..kept] == After(hits[..i], cutoff)
        {
          assert hits[..i + 1][..i] == hits[..i];
          var hit := buffer[i];
          assert hit == hits[i];
          if hit > cutoff {
            buffer[kept] := hit;
            kept := kept + 1;
          }
          i := i + 1;
        }
        assert hits[..used] == hits;
      }
    }

    // append: in place when the buffer has room, otherwise into a fresh one.
    method Append(buffer: array?<int>, used: nat, hit: int) returns (grown: array<int>)
      requires if buffer == null then used == 0 else used <= buffer.Length
      modifies buffer
      ensures used < grown.Length
      ensures grown == buffer || fresh(grown)
      ensures grown[..used + 1] == (if buffer == null then [] else old(buffer[..used])) + [hit]
    {
      if buffer != null && used < buffer.Length {
        grown := buffer;
      } else {
        grown := new int[2 * used + 1];
        var i := 0;
        while i < used
          invariant i <= used
          invariant buffer != null ==> grown[..i] == old(buffer[..used])[..i]
          invariant buffer != null ==> buffer[..] == old(buffer[..])
        {
          grown[i] := buffer[i];
          i := i + 1;
        }
      }
      grown[used] := hit;
    }

    method IncrementRate(key: string, window: int, maxRequests: int, strategy: string, now: int) returns (result: int)
      requires Valid()
      modifies this, Buffers()
      ensures Valid() && fresh(Buffers() - old(Buffers()))
      ensures (CounterAt(key), result) == Increment(old(CounterAt(key)), now,
          Limit(window, maxRequests, RateStrategy(strategy)))
      ensures forall k :: k != key ==> CounterAt(k) == old(CounterAt(k))
      ensures rateCounters.Keys == old(rateCounters.Keys)
                                   + (if Stores(Limit(window, maxRequests, RateStrategy(strategy))) then {key} else {})
    {
      var r := if key in rateCounters then rateCounters[key] else CounterRecord(0, None, null, 0, 0.0, None);
      match RateStrategy(strategy) {
        case SlidingWindow =>
          result := IncrementSlidingRate(key, r, now, window, maxRequests);
        case TokenBucket =>
          result := IncrementTokenBucketRate(key, r, now, window, maxRequests);
        case FixedWindow =>
          if r.windowStart.None? || now - r.windowStart.value >= window {
            r := CounterRecord(0, Some(now), null, 0, 0.0, None);
          }
          r := r.(count := r.count + 1);
          rateCounters := rateCounters[key := r];
          result := r.count;
      }
    }

    method IncrementSlidingRate(key: string, counter: CounterRecord, now: int, window: int, ghost maxRequests: int)
      returns (result: int)
      requires Valid()
      requires counter == if key in rateCounters then rateCounters[key] else CounterRecord(0, None, null, 0, 0.0, None)
      modifies this, counter.buffer
      ensures Valid() && fresh(Buffers() - old(Buffers()))
      ensures (CounterAt(key), result) == Increment(old(CounterAt(key)), now, Limit(window, maxRequests, SlidingWindow))
      ensures forall k :: k != key ==> CounterAt(k) == old(CounterAt(k))
      ensures rateCounters.Keys == old(rateCounters.Keys) + {key}
    {
      var r := SlideHits(counter, now, window, maxRequests);
      rateCounters := rateCounters[key := r];
      result := r.count;
    }

    method SlideHits(counter: CounterRecord, now: int, window: int, ghost maxRequests: int) returns (r: CounterRecord)
      requires if counter.buffer == null then counter.used == 0 else counter.used <= counter.buffer.Length
      modifies counter.buffer
      ensures r.buffer != null && r.used <= r.buffer.Length
      ensures r.buffer == counter.buffer || fresh(r.buffer)
      ensures AsValue(r) == Increment(old(AsValue(counter)), now, Limit(window, maxRequests, SlidingWindow)).0
      ensures r.count == r.used
    {
      var kept := Prune(counter.buffer, counter.used, now - window);
      ghost var hits := After(old(AsValue(counter)).hits, now - window);
      assert hits == if counter.buffer == null then [] else counter.buffer[..kept];
      var grown := Append(counter.buffer, kept, now);
      assert grown[..kept + 1] == hits + [now];
      r := counter.(buffer := grown, used := kept + 1, count := kept + 1, windowStart := Some(now));
    }

    method IncrementTokenBucketRate(key: string, counter: CounterRecord, now: int, window: int, maxRequests: int)
      returns (result: int)
      requires Valid()
      requires counter == if key in rateCounters then rateCounters[key] else CounterRecord(0, None, null, 0, 0.0, None)
      modifies this
      ensures Valid() && fresh(Buffers() - old(Buffers()))
      ensures (CounterAt(key), result) == Increment(old(CounterAt(key)), now, Limit(window, maxRequests, TokenBucket))
      ensures forall k :: k != key ==> CounterAt(k) == old(CounterAt(k))
      ensures rateCounters.Keys == old(rateCounters.Keys)
                                   + (if Stores(Limit(window, maxRequests, TokenBucket)) then {key} else {})
    {
      if maxRequests <= 0 || window <= 0 {
        return 1;
      }
      var r := TakeToken(counter, now, window, maxRequests);
      assert old(CounterAt(key)) == WithHits(counter, old(CounterAt(key)).hits);
      rateCounters := rateCounters[key := r];
      result := r.count;
    }

    method TakeToken(counter: CounterRecord, now: int, window: int, maxRequests: int) returns (r: CounterRecord)
      requires window > 0 && maxRequests > 0
      ensures r.buffer == counter.buffer && r.used == counter.used
      ensures forall hits :: BucketStep(WithHits(counter, hits), now, Limit(window, maxRequests, TokenBucket))
                == (WithHits(r, hits), r.count)
    {
      r := counter;
      var capacity := maxRequests as real;
      if r.lastRefill.None? {
        r := r.(tokens := capacity, lastRefill := Some(now));
      }
      var elapsed := now - r.lastRefill.value;
      if elapsed > 0 {
        var refill := Refill(elapsed, Limit(window, maxRequests, TokenBucket));
        var tokens := r.tokens + refill;
        r := r.(tokens := if tokens < capacity then tokens else capacity, lastRefill := Some(now));
      }
      if r.tokens < 1.0 {
        r := r.(count := maxRequests + 1);
      } else {
        r := r.(tokens := r.tokens - 1.0);
        r := r.(count := Ceil(capacity - r.tokens));
        if r.count < 1 {
          r := r.(count := 1);
        }
      }
    }
  }
}
