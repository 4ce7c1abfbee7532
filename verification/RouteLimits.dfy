/** A route's rate limit: one request increments a counter per dimension (ip, account, device) and
    passes only if none of them exceeds the limit. */
module RouteLimits {
  import opened Text
  import opened RateLimits
  import opened RateBounds

  // ----- Counter keys -----

  const DIMENSIONS: set<string> := {"ip", "account", "device"}

  function KeyOf(clientID: string, routeID: string, name: string, value: string): string {
    Join(["rate", clientID, routeID, name, value], ':')
  }

  function DimensionKey(clientID: string, routeID: string, name: string, value: string): seq<string> {
    var trimmed := TrimSpace(value);
    if trimmed == "" then [] else [KeyOf(clientID, routeID, name, trimmed)]
  }

  function RateLimitKeys(clientID: string, routeID: string, ip: string, account: string, device: string): seq<string> {
    DimensionKey(clientID, routeID, "ip", ip) + DimensionKey(clientID, routeID, "account", account)
    + DimensionKey(clientID, routeID, "device", device)
  }

  lemma KeyText(c: string, r: string, name: string, value: string)
    ensures KeyOf(c, r, name, value) == "rate:" + (c + [':'] + (r + [':'] + (name + [':'] + value)))
  {
    var parts := ["rate", c, r, name, value];
    assert parts[1..] == [c, r, name, value];
    assert parts[1..][1..] == [r, name, value];
    assert parts[1..][1..][1..] == [name, value];
    assert parts[1..][1..][1..][1..] == [value];
    assert Join(parts[1..][1..][1..], ':') == name + [':'] + value;
    assert Join(parts[1..][1..], ':') == r + [':'] + (name + [':'] + value);
    assert Join(parts[1..], ':') == c + [':'] + (r + [':'] + (name + [':'] + value));
    assert "rate" + [':'] == "rate:";
  }

  // Different dimensions never share a counter, whatever their values are.
  lemma RateLimitKeysDistinct(clientID: string, routeID: string, ip: string, account: string, device: string)
    ensures Distinct(RateLimitKeys(clientID, routeID, ip, account, device))
  {
    KeyText(clientID, routeID, "ip", TrimSpace(ip));
    KeyText(clientID, routeID, "account", TrimSpace(account));
    KeyText(clientID, routeID, "device", TrimSpace(device));
    hide KeyOf, TrimSpace;
    var at := 5 + |clientID| + 1 + |routeID| + 1;
    assert KeyOf(clientID, routeID, "ip", TrimSpace(ip))[at] == 'i';
    assert KeyOf(clientID, routeID, "account", TrimSpace(account))[at] == 'a';
    assert KeyOf(clientID, routeID, "device", TrimSpace(device))[at] == 'd';
  }

  // ----- The log of calls -----

  // A call on a counter, with the limit of the request that made it.
  datatype KeyCall = KeyCall(key: string, now: int, limit: Limit)

  // A request under way: its counter keys and limit, the instants its calls were made at, and whether the
  // last of them was over the limit.  Every call reads the clock anew, under the store's lock.
  datatype Flight = Flight(keys: seq<string>, limit: Limit, times: seq<int>, refused: bool)

  function Arrival(keys: seq<string>, limit: Limit): Flight { Flight(keys, limit, [], false) }

  // The instants of the calls made on one key.
  function KeyTimes(log: seq<KeyCall>, key: string): seq<int> {
    if log == [] then []
    else
      var last := log[|log| - 1];
      var before := KeyTimes(log[..|log| - 1], key);
      if last.key == key then before + [last.now] else before
  }

  // The counter its calls lead to, each under its own limit.
  function CounterAfter(log: seq<KeyCall>, key: string): RateCounter {
    if log == [] then ZERO_COUNTER
    else
      var last := log[|log| - 1];
      var before := CounterAfter(log[..|log| - 1], key);
      if last.key == key then Increment(before, last.now, last.limit).0 else before
  }

  // What a call is told after those in the log; it is admitted when that is within its limit.
  function Answer(log: seq<KeyCall>, call: KeyCall): int {
    Increment(CounterAfter(log, call.key), call.now, call.limit).1
  }

  // The admitted calls on a key, at an instant in [lo, hi].
  function AdmittedCalls(log: seq<KeyCall>, key: string, lo: int, hi: int): nat {
    if log == [] then 0
    else
      var last, before := log[|log| - 1], log[..|log| - 1];
      AdmittedCalls(before, key, lo, hi)
      + if last.key == key && lo <= last.now <= hi && Answer(before, last) <= last.limit.max then 1 else 0
  }

  ghost predicate Agree(log: seq<KeyCall>, key: string, l: Limit) {
    forall i :: 0 <= i < |log| && log[i].key == key ==> log[i].limit == l
  }

  // Where the calls on a key agree on the limit, its counter and its admitted calls are those of their
  // instants alone.
  lemma {:induction false} AgreedCalls(log: seq<KeyCall>, key: string, l: Limit, lo: int, hi: int)
    requires Agree(log, key, l)
    ensures CounterAfter(log, key) == Run(KeyTimes(log, key), l)
    ensures AdmittedCalls(log, key, lo, hi) == Admitted(KeyTimes(log, key), l, lo, hi)
  {
    hide Increment;
    if log != [] {
      var last, before := log[|log| - 1], log[..|log| - 1];
      AgreedCalls(before, key, l, lo, hi);
      assert last.key == key ==> last.limit == l;
      assert Init(KeyTimes(before, key) + [last.now]) == KeyTimes(before, key);
    }
  }

  lemma LogOn(log: seq<KeyCall>, call: KeyCall)
    ensures (log + [call])[..|log|] == log && (log + [call])[|log|] == call
  {
  }

  // ----- One request -----

  predicate UnderWay(f: Flight) { !f.refused && |f.times| < |f.keys| }

  predicate HasPassed(f: Flight) { !f.refused && |f.times| == |f.keys| }

  // One turn of the loop: the next key's counter is incremented, and the request refused if that is over its
  // limit.
  function Turn(log: seq<KeyCall>, f: Flight, now: int): (seq<KeyCall>, Flight)
    requires UnderWay(f)
  {
    var call := KeyCall(f.keys[|f.times|], now, f.limit);
    (log + [call], f.(times := f.times + [now], refused := Answer(log, call) > f.limit.max))
  }

  // All turns of one request, with nothing in between.
  function Serve(log: seq<KeyCall>, f: Flight, nows: seq<int>): (seq<KeyCall>, Flight)
    decreases nows
  {
    if nows == [] || !UnderWay(f) then (log, f)
    else
      var (log', f') := Turn(log, f, nows[0]);
      Serve(log', f', nows[1..])
  }

  lemma ServeTurn(log: seq<KeyCall>, f: Flight, nows: seq<int>)
    requires nows != [] && UnderWay(f)
    ensures var (log', f') := Turn(log, f, nows[0]);
            var call := KeyCall(f.keys[|f.times|], nows[0], f.limit);
            && Serve(log, f, nows) == Serve(log', f', nows[1..])
            && log' == log + [call]
            && f' == f.(times := f.times + [nows[0]], refused := Answer(log, call) > f.limit.max)
  {
    hide Answer;
  }

  lemma ServeEnds(log: seq<KeyCall>, f: Flight, nows: seq<int>)
    ensures nows == [] || !UnderWay(f) ==> Serve(log, f, nows) == (log, f)
  {
  }

  // The store holds, for every key, the counter its logged calls lead to.
  ghost predicate Reflects(store: RateStore, log: seq<KeyCall>)
    reads store, store.Buffers()
  {
    && store.Valid()
    && forall k :: StoreCounter(store, k) == CounterAfter(log, k)
  }

  ghost function StoreCounter(store: RateStore, k: string): RateCounter
    reads store, store.Buffers()
    requires store.Valid()
  {
    assert k in store.rateCounters && store.rateCounters[k].buffer != null
           ==> store.rateCounters[k].buffer in store.Buffers();
    store.CounterAt(k)
  }

  // One iteration: the counter of one key is incremented, every other key keeps its history.
  method IncrementKey(store: RateStore, key: string, now: int, window: int, maxRequests: int, strategy: string,
                      ghost log: seq<KeyCall>)
    returns (count: int)
    requires Reflects(store, log)
    modifies store, store.Buffers()
    ensures fresh(store.Buffers() - old(store.Buffers()))
    ensures var call := KeyCall(key, now, Limit(window, maxRequests, RateStrategy(strategy)));
            Reflects(store, log + [call]) && count == Answer(log, call)
  {
    ghost var call := KeyCall(key, now, Limit(window, maxRequests, RateStrategy(strategy)));
    assert StoreCounter(store, key) == CounterAfter(log, key);
    count := store.IncrementRate(key, window, maxRequests, strategy, now);
    LogOn(log, call);
    hide Increment, RateStrategy;
    forall k ensures StoreCounter(store, k) == CounterAfter(log + [call], k) {
      assert old(StoreCounter(store, k)) == CounterAfter(log, k);
    }
  }

  // nows holds the clock reading of every turn.
  method EvaluateRateLimit(store: RateStore, keys: seq<string>, nows: seq<int>, window: int, maxRequests: int,
                           strategy: string, ghost log: seq<KeyCall>)
    returns (allowed: bool, ghost log': seq<KeyCall>, ghost f: Flight)
    requires |nows| == |keys| && Reflects(store, log)
    modifies store, store.Buffers()
    ensures Reflects(store, log')
    ensures (log', f) == Serve(log, Arrival(keys, Limit(window, maxRequests, RateStrategy(strategy))), nows)
    ensures allowed == HasPassed(f)
  {
    ghost var l := Limit(window, maxRequests, RateStrategy(strategy));
    log', f := log, Arrival(keys, l);
    hide Reflects, Serve, Turn, Answer, RateStrategy;
    var i := 0;
    while i < |keys|
      invariant i <= |keys| && f.keys == keys && f.limit == l && |f.times| == i && !f.refused
      invariant Reflects(store, log')
      invariant Serve(log, Arrival(keys, l), nows) == Serve(log', f, nows[i..])
      invariant fresh(store.Buffers() - old(store.Buffers()))
    {
      var count := IncrementKey(store, keys[i], nows[i], window, maxRequests, strategy, log');
      assert nows[i..][0] == nows[i] && nows[i..][1..] == nows[i + 1..];
      ServeTurn(log', f, nows[i..]);
      ghost var after := Turn(log', f, nows[i]);
      log', f := after.0, after.1;
      if count > maxRequests {
        ServeEnds(log', f, nows[i + 1..]);
        return false, log', f;
      }
      i := i + 1;
    }
    ServeEnds(log', f, nows[i..]);
    return true, log', f;
  }

  // ----- Interleaved requests -----

  datatype Traffic = Traffic(log: seq<KeyCall>, flights: seq<Flight>)

  datatype Step = Arrive(keys: seq<string>, limit: Limit) | TakeTurn(i: nat, now: int)

  // Any request under way may take its next turn; the clock does not go back.
  predicate Enabled(t: Traffic, step: Step) {
    match step
    case Arrive(_, _) => true
    case TakeTurn(i, now) =>
      i < |t.flights| && UnderWay(t.flights[i]) && (t.log != [] ==> t.log[|t.log| - 1].now <= now)
  }

  function Apply(t: Traffic, step: Step): Traffic
    requires Enabled(t, step)
  {
    match step
    case Arrive(keys, limit) => t.(flights := t.flights + [Arrival(keys, limit)])
    case TakeTurn(i, now) =>
      var (log, f) := Turn(t.log, t.flights[i], now);
      Traffic(log, t.flights[i := f])
  }

  ghost predicate Runs(t: Traffic, steps: seq<Step>, t': Traffic)
    decreases steps
  {
    if steps == [] then t == t'
    else Enabled(t, steps[0]) && Runs(Apply(t, steps[0]), steps[1..], t')
  }

  // The instants of one request's turns follow the log's last, in order.
  ghost predicate OnTime(log: seq<KeyCall>, nows: seq<int>) {
    && (forall i, j :: 0 <= i < j < |nows| ==> nows[i] <= nows[j])
    && (log != [] ==> forall i :: 0 <= i < |nows| ==> log[|log| - 1].now <= nows[i])
  }

  ghost predicate CanRun(t: Traffic, t': Traffic) {
    exists steps :: Runs(t, steps, t')
  }

  // A request served alone is one way the traffic may run.
  lemma {:induction false} ServeIsARun(t: Traffic, i: nat, nows: seq<int>)
    requires i < |t.flights| && OnTime(t.log, nows)
    ensures var (log, f) := Serve(t.log, t.flights[i], nows);
            CanRun(t, Traffic(log, t.flights[i := f]))
    decreases nows
  {
    hide Answer;
    var (log, f) := Serve(t.log, t.flights[i], nows);
    var end := Traffic(log, t.flights[i := f]);
    if nows == [] || !UnderWay(t.flights[i]) {
      assert t.flights[i := t.flights[i]] == t.flights;
      assert Runs(t, [], end);
    } else {
      var step := TakeTurn(i, nows[0]);
      var t' := Apply(t, step);
      ServeIsARun(t', i, nows[1..]);
      assert t'.flights[i := f] == t.flights[i := f];
      var rest :| Runs(t', rest, end);
      assert ([step] + rest)[1..] == rest;
      assert Runs(t, [step] + rest, end);
    }
  }

  ghost predicate Reachable(t: Traffic) { CanRun(Traffic([], []), t) }

  // The admitted calls of a request on a key at an instant in [lo, hi], among its first n calls.
  function CallsOf(f: Flight, key: string, lo: int, hi: int, n: nat): nat
    requires n <= |f.times| <= |f.keys|
  {
    if n == 0 then 0
    else
      CallsOf(f, key, lo, hi, n - 1) + if f.keys[n - 1] == key && lo <= f.times[n - 1] <= hi then 1 else 0
  }

  predicate Shaped(f: Flight) {
    |f.times| <= |f.keys| && (f.refused ==> f.times != [])
  }

  function AdmittedOf(f: Flight, key: string, lo: int, hi: int): nat
    requires Shaped(f)
  {
    CallsOf(f, key, lo, hi, if f.refused then |f.times| - 1 else |f.times|)
  }

  ghost predicate AllShaped(flights: seq<Flight>) {
    forall i :: 0 <= i < |flights| ==> Shaped(flights[i])
  }

  function AdmittedOfAll(flights: seq<Flight>, key: string, lo: int, hi: int): nat
    requires AllShaped(flights)
  {
    if flights == [] then 0
    else AdmittedOfAll(flights[..|flights| - 1], key, lo, hi) + AdmittedOf(flights[|flights| - 1], key, lo, hi)
  }

  // A request that passed, and whose call on the key was made at an instant in [lo, hi].
  predicate PassedOn(f: Flight, key: string, lo: int, hi: int) {
    HasPassed(f) && exists j :: 0 <= j < |f.keys| && f.keys[j] == key && lo <= f.times[j] <= hi
  }

  function Passed(flights: seq<Flight>, key: string, lo: int, hi: int): nat {
    if flights == [] then 0
    else
      Passed(flights[..|flights| - 1], key, lo, hi) + if PassedOn(flights[|flights| - 1], key, lo, hi) then 1 else 0
  }

  lemma {:induction false} CallsOfPrefix(f: Flight, g: Flight, key: string, lo: int, hi: int, n: nat)
    requires n <= |f.times| <= |f.keys| && n <= |g.times| <= |g.keys|
    requires f.keys == g.keys && f.times[..n] == g.times[..n]
    ensures CallsOf(f, key, lo, hi, n) == CallsOf(g, key, lo, hi, n)
  {
    if n > 0 {
      assert f.times[..n][..n - 1] == f.times[..n - 1] && g.times[..n][..n - 1] == g.times[..n - 1];
      assert f.times[..n][n - 1] == g.times[..n][n - 1];
      CallsOfPrefix(f, g, key, lo, hi, n - 1);
    }
  }

  lemma {:induction false} CallCounts(f: Flight, key: string, lo: int, hi: int, n: nat, j: nat)
    requires j < n <= |f.times| <= |f.keys| && f.keys[j] == key && lo <= f.times[j] <= hi
    ensures CallsOf(f, key, lo, hi, n) >= 1
  {
    if j < n - 1 { CallCounts(f, key, lo, hi, n - 1, j); }
  }

  lemma {:induction false} PassedAtMostAdmitted(flights: seq<Flight>, key: string, lo: int, hi: int)
    requires AllShaped(flights)
    ensures Passed(flights, key, lo, hi) <= AdmittedOfAll(flights, key, lo, hi)
  {
    if flights != [] {
      var f := flights[|flights| - 1];
      PassedAtMostAdmitted(flights[..|flights| - 1], key, lo, hi);
      if PassedOn(f, key, lo, hi) {
        var j :| 0 <= j < |f.keys| && f.keys[j] == key && lo <= f.times[j] <= hi;
        CallCounts(f, key, lo, hi, |f.times|, j);
      }
    }
  }

  lemma {:induction false} ReplaceOne(flights: seq<Flight>, i: nat, f: Flight, key: string, lo: int, hi: int)
    requires AllShaped(flights) && i < |flights| && Shaped(f)
    ensures AllShaped(flights[i := f])
    ensures AdmittedOfAll(flights[i := f], key, lo, hi) + AdmittedOf(flights[i], key, lo, hi)
            == AdmittedOfAll(flights, key, lo, hi) + AdmittedOf(f, key, lo, hi)
  {
    hide AdmittedOf, Shaped;
    var n := |flights| - 1;
    if i < n {
      ReplaceOne(flights[..n], i, f, key, lo, hi);
      assert flights[i := f][..n] == flights[..n][i := f];
    } else {
      assert flights[i := f][..n] == flights[..n];
    }
  }

  // What one turn adds: a call to the log, admitted or not, and the same to the request.
  lemma FlightAdds(f: Flight, now: int, refused: bool, key: string, lo: int, hi: int)
    requires UnderWay(f)
    ensures var f' := f.(times := f.times + [now], refused := refused);
            && Shaped(f) && Shaped(f')
            && AdmittedOf(f', key, lo, hi)
               == AdmittedOf(f, key, lo, hi) + if f.keys[|f.times|] == key && lo <= now <= hi && !refused then 1 else 0
  {
    CallsOfPrefix(f, f.(times := f.times + [now], refused := refused), key, lo, hi, |f.times|);
  }

  lemma TurnAdds(log: seq<KeyCall>, f: Flight, now: int, key: string, lo: int, hi: int)
    requires UnderWay(f)
    ensures var (log', f') := Turn(log, f, now);
            && Shaped(f) && Shaped(f')
            && AdmittedCalls(log', key, lo, hi) + AdmittedOf(f, key, lo, hi)
               == AdmittedCalls(log, key, lo, hi) + AdmittedOf(f', key, lo, hi)
  {
    var call := KeyCall(f.keys[|f.times|], now, f.limit);
    LogOn(log, call);
    FlightAdds(f, now, Answer(log, call) > f.limit.max, key, lo, hi);
    hide Answer, AdmittedOf, Shaped;
  }

  // Per key: the log's calls are in order of time, and the admitted ones are those of the requests.
  ghost predicate Accounted(t: Traffic, key: string, lo: int, hi: int) {
    && AllShaped(t.flights)
    && Ordered(KeyTimes(t.log, key))
    && (KeyTimes(t.log, key) != [] ==> t.log != [] && Last(KeyTimes(t.log, key)) <= t.log[|t.log| - 1].now)
    && AdmittedCalls(t.log, key, lo, hi) == AdmittedOfAll(t.flights, key, lo, hi)
  }

  lemma TurnKeepsOrder(log: seq<KeyCall>, call: KeyCall, key: string)
    requires Ordered(KeyTimes(log, key)) && (log != [] ==> log[|log| - 1].now <= call.now)
    requires KeyTimes(log, key) != [] ==> log != [] && Last(KeyTimes(log, key)) <= log[|log| - 1].now
    ensures var times := KeyTimes(log + [call], key); Ordered(times) && (times != [] ==> Last(times) <= call.now)
  {
    LogOn(log, call);
    assert Init(KeyTimes(log, key) + [call.now]) == KeyTimes(log, key);
  }

  lemma NothingYet(flights: seq<Flight>, keys: seq<string>, limit: Limit, key: string, lo: int, hi: int)
    requires AllShaped(flights)
    ensures var after := flights + [Arrival(keys, limit)];
            AllShaped(after) && AdmittedOfAll(after, key, lo, hi) == AdmittedOfAll(flights, key, lo, hi)
  {
    var after := flights + [Arrival(keys, limit)];
    assert after[..|flights|] == flights;
    assert Shaped(Arrival(keys, limit)) && AdmittedOf(Arrival(keys, limit), key, lo, hi) == 0;
    hide Shaped, AdmittedOf;
  }

  lemma TurnAccounts(t: Traffic, i: nat, now: int, key: string, lo: int, hi: int)
    requires Accounted(t, key, lo, hi) && Enabled(t, TakeTurn(i, now))
    ensures Accounted(Apply(t, TakeTurn(i, now)), key, lo, hi)
  {
    hide Ordered, AdmittedCalls, Answer, KeyTimes, AdmittedOf, Shaped, AllShaped, AdmittedOfAll, CounterAfter;
    var f := t.flights[i];
    TurnAdds(t.log, f, now, key, lo, hi);
    TurnKeepsOrder(t.log, KeyCall(f.keys[|f.times|], now, f.limit), key);
    ReplaceOne(t.flights, i, Turn(t.log, f, now).1, key, lo, hi);
    assert (t.log + [KeyCall(f.keys[|f.times|], now, f.limit)])[|t.log|].now == now;
  }

  lemma StepAccounts(t: Traffic, step: Step, key: string, lo: int, hi: int)
    requires Accounted(t, key, lo, hi) && Enabled(t, step)
    ensures Accounted(Apply(t, step), key, lo, hi)
  {
    hide Ordered, AdmittedCalls, Turn, KeyTimes, AdmittedOf, Shaped, AllShaped, AdmittedOfAll;
    match step {
      case Arrive(keys, limit) => NothingYet(t.flights, keys, limit, key, lo, hi);
      case TakeTurn(i, now) => TurnAccounts(t, i, now, key, lo, hi);
    }
  }

  lemma {:induction false} RunAccounts(t: Traffic, steps: seq<Step>, t': Traffic, key: string, lo: int, hi: int)
    requires Accounted(t, key, lo, hi) && Runs(t, steps, t')
    ensures Accounted(t', key, lo, hi)
    decreases steps
  {
    hide Accounted, Enabled, Apply;
    if steps != [] {
      StepAccounts(t, steps[0], key, lo, hi);
      RunAccounts(Apply(t, steps[0]), steps[1..], t', key, lo, hi);
    }
  }

  // Every passed request is backed by an admitted call on each of its keys, whatever the limits are.
  lemma PassedAreAdmitted(t: Traffic, key: string, lo: int, hi: int)
    requires Reachable(t)
    ensures Ordered(KeyTimes(t.log, key))
    ensures Passed(t.flights, key, lo, hi) <= AdmittedCalls(t.log, key, lo, hi)
  {
    var steps :| Runs(Traffic([], []), steps, t);
    RunAccounts(Traffic([], []), steps, t, key, lo, hi);
    PassedAtMostAdmitted(t.flights, key, lo, hi);
  }

  // ----- The bounds, per ip, account or device, whatever else is in the traffic -----

  // All requests that use the key have the same limit.
  ghost predicate AgreeOn(flights: seq<Flight>, key: string, l: Limit) {
    forall i :: 0 <= i < |flights| && key in flights[i].keys ==> flights[i].limit == l
  }

  lemma StepAgrees(t: Traffic, step: Step, key: string, l: Limit)
    requires Enabled(t, step) && AgreeOn(Apply(t, step).flights, key, l)
    ensures AgreeOn(t.flights, key, l)
    ensures Agree(t.log, key, l) ==> Agree(Apply(t, step).log, key, l)
  {
    hide Answer;
    var after := Apply(t, step).flights;
    assert forall i :: 0 <= i < |t.flights| ==>
        after[i].keys == t.flights[i].keys && after[i].limit == t.flights[i].limit;
  }

  lemma {:induction false} RunAgrees(t: Traffic, steps: seq<Step>, t': Traffic, key: string, l: Limit)
    requires Runs(t, steps, t') && AgreeOn(t'.flights, key, l)
    ensures AgreeOn(t.flights, key, l)
    ensures Agree(t.log, key, l) ==> Agree(t'.log, key, l)
    decreases steps
  {
    hide Enabled, Apply, AgreeOn, Agree;
    if steps != [] {
      RunAgrees(Apply(t, steps[0]), steps[1..], t', key, l);
      StepAgrees(t, steps[0], key, l);
    }
  }

  lemma PassedAreCalls(t: Traffic, key: string, l: Limit, lo: int, hi: int)
    requires Reachable(t) && AgreeOn(t.flights, key, l)
    ensures Ordered(KeyTimes(t.log, key))
    ensures Passed(t.flights, key, lo, hi) <= Admitted(KeyTimes(t.log, key), l, lo, hi)
  {
    var steps :| Runs(Traffic([], []), steps, t);
    assert Agree([], key, l);
    hide *;
    RunAgrees(Traffic([], []), steps, t, key, l);
    PassedAreAdmitted(t, key, lo, hi);
    AgreedCalls(t.log, key, l, lo, hi);
  }

  // Under a sliding window at most max requests pass in any stretch shorter than W.
  lemma RouteSlidingBound(t: Traffic, key: string, l: Limit, lo: int, hi: int)
    requires Reachable(t) && AgreeOn(t.flights, key, l)
    requires l.strategy.SlidingWindow? && l.max > 0 && lo <= hi < lo + l.window
    ensures Passed(t.flights, key, lo, hi) <= l.max
  {
    hide *;
    var times := KeyTimes(t.log, key);
    PassedAreCalls(t, key, l, lo, hi);
    SlidingBound(times, l, hi);
    AdmittedNarrower(times, l, lo, hi, hi - l.window + 1, hi);
  }

  // Under a fixed window at most 2 * max - 1.
  lemma RouteFixedBound(t: Traffic, key: string, l: Limit, lo: int, hi: int)
    requires Reachable(t) && AgreeOn(t.flights, key, l)
    requires l.strategy.FixedWindow? && l.max > 0 && lo <= hi < lo + l.window
    ensures Passed(t.flights, key, lo, hi) <= 2 * l.max - 1
  {
    hide *;
    var times := KeyTimes(t.log, key);
    PassedAreCalls(t, key, l, lo, hi);
    FixedBound(times, l, lo);
    AdmittedNarrower(times, l, lo, hi, lo, lo + l.window - 1);
  }

  // Under a token bucket at most C + C * (t - s) / W in [s, t].
  lemma RouteBucketBound(t: Traffic, key: string, l: Limit, lo: int, hi: int)
    requires Reachable(t) && AgreeOn(t.flights, key, l) && BucketLimit(l) && lo <= hi
    ensures Passed(t.flights, key, lo, hi) as real <= l.max as real + Refill(hi - lo, l)
  {
    hide Ordered, Admitted, Passed, Reachable, Refill, AgreeOn;
    PassedAreCalls(t, key, l, lo, hi);
    BucketBound(KeyTimes(t.log, key), l, lo, hi);
  }

  lemma {:induction false} AdmittedNarrower(times: seq<int>, l: Limit, lo: int, hi: int, lo': int, hi': int)
    requires lo' <= lo && hi <= hi'
    ensures Admitted(times, l, lo, hi) <= Admitted(times, l, lo', hi')
  {
    hide Admits;
    if times != [] { AdmittedNarrower(Init(times), l, lo, hi, lo', hi'); }
  }

  // ----- Which routes share a counter -----

  // What is left of a dimension's value after trimming, if anything is.
  predicate IsValue(value: string) { value != "" && TrimSpace(value) == value }

  // A key some request on the route increments.
  ghost predicate KeyOfRoute(c: string, r: string, key: string) {
    exists name, value :: name in DIMENSIONS && IsValue(value) && key == KeyOf(c, r, name, value)
  }

  lemma DimensionKeys(c: string, r: string, name: string, value: string)
    ensures name in DIMENSIONS ==> forall key :: key in DimensionKey(c, r, name, value) ==> KeyOfRoute(c, r, key)
    ensures IsValue(value) ==> DimensionKey(c, r, name, value) == [KeyOf(c, r, name, value)]
  {
    hide KeyOf;
    TrimSpaceTwice(value);
    assert TrimSpace(value) != "" ==> IsValue(TrimSpace(value));
  }

  // The keys of a route's requests are exactly those.
  lemma RequestKeys(c: string, r: string, key: string)
    ensures (exists ip, account, device :: key in RateLimitKeys(c, r, ip, account, device)) <==> KeyOfRoute(c, r, key)
  {
    hide KeyOf, KeyOfRoute, IsValue, DimensionKey;
    forall ip, account, device | key in RateLimitKeys(c, r, ip, account, device) ensures KeyOfRoute(c, r, key) {
      DimensionKeys(c, r, "ip", ip);
      DimensionKeys(c, r, "account", account);
      DimensionKeys(c, r, "device", device);
    }
    if KeyOfRoute(c, r, key) { RequestFor(c, r, key); }
  }

  lemma RequestFor(c: string, r: string, key: string)
    requires KeyOfRoute(c, r, key)
    ensures exists ip, account, device :: key in RateLimitKeys(c, r, ip, account, device)
  {
    hide KeyOf, IsValue;
    var name, value :| name in DIMENSIONS && IsValue(value) && key == KeyOf(c, r, name, value);
    hide DimensionKey;
    DimensionKeys(c, r, name, value);
    if name == "ip" { assert key in RateLimitKeys(c, r, value, "", ""); }
    else if name == "account" { assert key in RateLimitKeys(c, r, "", value, ""); }
    else { assert key in RateLimitKeys(c, r, "", "", value); }
  }

  // The text q goes on, after p, as a dimension of p and the start of a value would.
  predicate RunsIntoAs(p: string, q: string, name: string) {
    var head := p + [':'] + (name + [':']);
    head <= q + [':'] && (|head| == |q| + 1 || !IsSpace((q + [':'])[|head|]))
  }

  ghost predicate RunsInto(p: string, q: string) {
    exists name :: name in DIMENSIONS && RunsIntoAs(p, q, name)
  }

  ghost predicate ShareCounter(c: string, r: string, c': string, r': string) {
    exists key :: KeyOfRoute(c, r, key) && KeyOfRoute(c', r', key)
  }

  lemma RouteText(c: string, r: string, name: string, value: string)
    ensures KeyOf(c, r, name, value) == "rate:" + (c + [':'] + r + [':'] + (name + [':'] + value))
  {
    KeyText(c, r, name, value);
    hide KeyOf;
    var tail := name + [':'] + value;
    assert c + [':'] + (r + [':'] + tail) == c + [':'] + r + [':'] + tail;
  }

  lemma ValueEnds(value: string)
    ensures IsValue(value) <==> value != "" && !IsSpace(value[0]) && !IsSpace(value[|value| - 1])
  {
    TrimLeftStart(value);
    TrimRightEnds(TrimLeft(value));
    hide IsSpace;
  }

  // The first colon of a text that starts with a word without one.
  lemma ColonAfter(a: string, x: string)
    ensures ':' !in a ==> forall at :: 0 <= at <= |a + x| && (a + [':'] + x)[at] == ':' ==> |a| <= at
  {
    assert forall i :: 0 <= i < |a| ==> (a + [':'] + x)[i] == a[i];
  }

  lemma HeadOfKey(p: string, name: string, value: string)
    ensures p + [':'] + (name + [':'] + value) == p + [':'] + (name + [':']) + value
  {
  }

  lemma PrefixOfBoth(head: string, a: string, head': string, b: string)
    requires head + a == head' + b && |head| <= |head'|
    ensures head <= head' && (|head| < |head'| ==> a != "" && head'[|head|] == a[0])
  {
    var s := head + a;
    assert forall i :: 0 <= i < |head| ==> s[i] == head[i];
    assert forall i :: 0 <= i < |head'| ==> (head' + b)[i] == head'[i];
    assert |head| < |head'| ==> s[|head|] == head'[|head|];
  }

  // Equal keys of different routes: the longer prefix spells the dimension out before it ends.
  lemma EqualKeysRunInto(p: string, name: string, value: string, q: string, name': string, value': string)
    requires name in DIMENSIONS && IsValue(value) && |p| < |q|
    requires p + [':'] + (name + [':'] + value) == q + [':'] + (name' + [':'] + value')
    ensures RunsIntoAs(p, q, name)
  {
    ValueEnds(value);
    hide IsValue, IsSpace;
    var s, tail := p + [':'] + (name + [':'] + value), name + [':'] + value;
    assert s[|q|] == ':' && s[|p| + 1..] == tail && tail[|q| - |p| - 1] == ':' && ':' !in name;
    ColonAfter(name, value);
    HeadOfKey(p, name, value);
    PrefixOfBoth(p + [':'] + (name + [':']), value, q + [':'], name' + [':'] + value');
  }

  lemma SharedRunsInto(c: string, r: string, c': string, r': string)
    ensures var p, q := c + [':'] + r, c' + [':'] + r';
            ShareCounter(c, r, c', r') ==> p == q || RunsInto(p, q) || RunsInto(q, p)
  {
    hide KeyOf, IsValue, RunsIntoAs;
    if !ShareCounter(c, r, c', r') { return; }
    var key :| KeyOfRoute(c, r, key) && KeyOfRoute(c', r', key);
    var n, v :| n in DIMENSIONS && IsValue(v) && key == KeyOf(c, r, n, v);
    var n', v' :| n' in DIMENSIONS && IsValue(v') && key == KeyOf(c', r', n', v');
    RouteText(c, r, n, v);
    RouteText(c', r', n', v');
    var p, q := c + [':'] + r, c' + [':'] + r';
    SameTail("rate:", p + [':'] + (n + [':'] + v), q + [':'] + (n' + [':'] + v'));
    if |p| < |q| {
      EqualKeysRunInto(p, n, v, q, n', v');
    } else if |q| < |p| {
      EqualKeysRunInto(q, n', v', p, n, v);
    } else {
      assert p == (p + [':'] + (n + [':'] + v))[..|p|];
      assert q == (q + [':'] + (n' + [':'] + v'))[..|q|];
    }
  }

  lemma SameTail(head: string, a: string, b: string)
    ensures head + a == head + b ==> a == b
  {
    assert (head + a)[|head|..] == a && (head + b)[|head|..] == b;
  }

  lemma RunsIntoShares(c: string, r: string, c': string, r': string)
    ensures RunsInto(c + [':'] + r, c' + [':'] + r') ==> ShareCounter(c, r, c', r')
  {
    hide KeyOf, IsValue, IsSpace;
    var p, q := c + [':'] + r, c' + [':'] + r';
    if !RunsInto(p, q) { return; }
    var name :| name in DIMENSIONS && RunsIntoAs(p, q, name);
    var value := CommonKey(p, q, name);
    RouteText(c, r, name, value);
    RouteText(c', r', "ip", "x");
    assert KeyOfRoute(c, r, KeyOf(c, r, name, value)) && KeyOfRoute(c', r', KeyOf(c', r', "ip", "x"));
  }

  lemma CommonKey(p: string, q: string, name: string) returns (value: string)
    requires RunsIntoAs(p, q, name)
    ensures IsValue(value) && IsValue("x")
    ensures p + [':'] + (name + [':'] + value) == q + [':'] + ("ip" + [':'] + "x")
  {
    var head := p + [':'] + (name + [':']);
    var rest := (q + [':'])[|head|..];
    value := rest + "ip:x";
    PlainLetters();
    ValueEnds(value);
    ValueEnds("x");
    hide IsValue, IsSpace;
    HeadOfKey(p, name, value);
    assert head + rest == q + [':'];
    assert "ip" + [':'] + "x" == "ip:x";
    assert head + (rest + "ip:x") == head + rest + "ip:x";
  }

  lemma PlainLetters()
    ensures !IsSpace('i') && !IsSpace('x') && !IsSpace(':') && !IsSpace('y') && !IsSpace('z') && !IsSpace('a')
  {
  }

  lemma SameTextShares(c: string, r: string, c': string, r': string)
    ensures c + [':'] + r == c' + [':'] + r' ==> ShareCounter(c, r, c', r')
  {
    hide KeyOf, IsValue;
    PlainLetters();
    ValueEnds("x");
    RouteText(c, r, "ip", "x");
    RouteText(c', r', "ip", "x");
    assert KeyOfRoute(c, r, KeyOf(c, r, "ip", "x")) && KeyOfRoute(c', r', KeyOf(c', r', "ip", "x"));
  }

  lemma ShareSymmetric(c: string, r: string, c': string, r': string)
    ensures ShareCounter(c, r, c', r') <==> ShareCounter(c', r', c, r)
  {
    hide KeyOfRoute;
  }

  // Two routes share a counter, of whatever dimensions and values, exactly when client and route read the same
  // with a colon between them, or one such text spells a dimension of the other and goes on.
  lemma RoutesShareCounter(c: string, r: string, c': string, r': string)
    ensures var p, q := c + [':'] + r, c' + [':'] + r';
            ShareCounter(c, r, c', r') <==> p == q || RunsInto(p, q) || RunsInto(q, p)
  {
    hide ShareCounter, RunsInto;
    SharedRunsInto(c, r, c', r');
    SameTextShares(c, r, c', r');
    RunsIntoShares(c, r, c', r');
    RunsIntoShares(c', r', c, r);
    ShareSymmetric(c', r', c, r);
  }

  // Routes of one client do: through another value, or through another dimension.
  lemma ColonInRouteShares()
    ensures KeyOf("c", "r", "account", "x:account:y") == KeyOf("c", "r:account:x", "account", "y")
    ensures KeyOf("c", "r", "ip", "account:z") == KeyOf("c", "r:ip", "account", "z")
    ensures ShareCounter("c", "r", "c", "r:account:x") && ShareCounter("c", "r", "c", "r:ip")
  {
    KeyText("c", "r", "account", "x:account:y");
    KeyText("c", "r:account:x", "account", "y");
    KeyText("c", "r", "ip", "account:z");
    KeyText("c", "r:ip", "account", "z");
    PlainLetters();
    ValueEnds("x:account:y");
    ValueEnds("y");
    ValueEnds("account:z");
    ValueEnds("z");
    hide KeyOf, IsValue, IsSpace;
    assert KeyOfRoute("c", "r", KeyOf("c", "r", "account", "x:account:y"));
    assert KeyOfRoute("c", "r:account:x", KeyOf("c", "r:account:x", "account", "y"));
    assert KeyOfRoute("c", "r", KeyOf("c", "r", "ip", "account:z"));
    assert KeyOfRoute("c", "r:ip", KeyOf("c", "r:ip", "account", "z"));
  }

  lemma FirstColon(a: string, x: string, b: string, y: string)
    requires ':' !in a && ':' !in b && a + [':'] + x == b + [':'] + y
    ensures a == b && x == y
  {
    var s := a + [':'] + x;
    assert s[|a|] == ':' && s[|b|] == ':';
    ColonAfter(a, x);
    ColonAfter(b, y);
    assert s[..|a|] == a && s[..|b|] == b && s[|a| + 1..] == x && s[|b| + 1..] == y;
  }

  // Identifiers without colons: a key tells client, route, dimension and value.
  lemma PlainKeysTell(c: string, r: string, name: string, value: string, c': string, r': string, name': string,
                      value': string)
    requires ':' !in c + r && ':' !in c' + r' && name in DIMENSIONS && name' in DIMENSIONS
    requires KeyOf(c, r, name, value) == KeyOf(c', r', name', value')
    ensures c == c' && r == r' && name == name' && value == value'
  {
    KeyText(c, r, name, value);
    KeyText(c', r', name', value');
    hide KeyOf;
    var a, b := name + [':'] + value, name' + [':'] + value';
    SameTail("rate:", c + [':'] + (r + [':'] + a), c' + [':'] + (r' + [':'] + b));
    FirstColon(c, r + [':'] + a, c', r' + [':'] + b);
    FirstColon(r, a, r', b);
    FirstColon(name, value, name', value');
  }

  // Requests on routes with such identifiers, every route with one limit.
  ghost predicate OnPlainRoutes(flights: seq<Flight>, limitOf: (string, string) -> Limit) {
    forall i :: 0 <= i < |flights| ==> OnPlainRoute(flights[i], limitOf)
  }

  ghost predicate OnPlainRoute(f: Flight, limitOf: (string, string) -> Limit) {
    exists c, r :: ':' !in c + r && f.limit == limitOf(c, r) && forall key :: key in f.keys ==> KeyOfRoute(c, r, key)
  }

  // They agree on the limit of every key, so that the bounds hold for each route by itself.
  lemma PlainRoutesAgree(flights: seq<Flight>, limitOf: (string, string) -> Limit, c: string, r: string, key: string)
    requires OnPlainRoutes(flights, limitOf) && ':' !in c + r && KeyOfRoute(c, r, key)
    ensures AgreeOn(flights, key, limitOf(c, r))
  {
    hide KeyOf, IsValue;
    var n, v :| n in DIMENSIONS && IsValue(v) && key == KeyOf(c, r, n, v);
    forall i | 0 <= i < |flights| && key in flights[i].keys ensures flights[i].limit == limitOf(c, r) {
      assert OnPlainRoute(flights[i], limitOf);
      var c', r' :| ':' !in c' + r' && flights[i].limit == limitOf(c', r')
                    && forall k :: k in flights[i].keys ==> KeyOfRoute(c', r', k);
      assert KeyOfRoute(c', r', key);
      var n', v' :| n' in DIMENSIONS && IsValue(v') && key == KeyOf(c', r', n', v');
      PlainKeysTell(c, r, n, v, c', r', n', v');
    }
  }


  // ----- The bounds, by the strategy's name -----

  // Whatever case and white space the name is written in, and a fixed window for any other name.
  lemma ConfiguredBound(t: Traffic, key: string, window: int, max: int, strategy: string, lo: int, hi: int)
    requires Reachable(t) && AgreeOn(t.flights, key, Limit(window, max, RateStrategy(strategy)))
    requires window > 0 && max > 0 && lo <= hi < lo + window
    ensures var name, passed := ToLower(TrimSpace(strategy)), Passed(t.flights, key, lo, hi);
            if name == "sliding_window" then passed <= max
            else if name == "token_bucket" then
              passed as real <= max as real + (hi - lo) as real * max as real / window as real
            else passed <= 2 * max - 1
  {
    var l := Limit(window, max, RateStrategy(strategy));
    StrategyByName(strategy);
    hide Reachable, AgreeOn, Passed, ToLower, TrimSpace, RateStrategy, Refill;
    match l.strategy {
      case SlidingWindow => RouteSlidingBound(t, key, l, lo, hi);
      case FixedWindow => RouteFixedBound(t, key, l, lo, hi);
      case TokenBucket =>
        RouteBucketBound(t, key, l, lo, hi);
        RefillIs(hi - lo, l);
    }
  }

  lemma StrategyByName(strategy: string)
    ensures var name := ToLower(TrimSpace(strategy));
            RateStrategy(strategy) == if name == "sliding_window" then SlidingWindow
                                      else if name == "token_bucket" then TokenBucket else FixedWindow
  {
  }

  lemma RefillIs(elapsed: int, l: Limit)
    requires BucketLimit(l)
    ensures Refill(elapsed, l) == elapsed as real * l.max as real / l.window as real
  {
  }
}
