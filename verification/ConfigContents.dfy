/** What a stream's latest snapshot holds, over whole runs: each part as it was at the step that read it.
    The snapshot is current exactly in the parts that did not change before the version was read. */
module ConfigContents {
  import opened Text
  import opened ConfigWatch

  // A run with all the states it goes through.
  ghost predicate Trace(trace: seq<State>, steps: seq<Step>) {
    && |trace| == |steps| + 1
    && (exists config :: |config| == PARTS && trace[0] == Initial(config))
    && forall n :: 0 <= n < |steps| ==> Enabled(trace[n], steps[n]) && trace[n + 1] == Apply(trace[n], steps[n])
  }

  // Every reachable state ends one.
  lemma {:induction false} TraceAlong(trace: seq<State>, steps: seq<Step>, more: seq<Step>, s: State)
    returns (trace': seq<State>, steps': seq<Step>)
    requires Trace(trace, steps) && Runs(trace[|steps|], more, s)
    ensures Trace(trace', steps') && trace'[|steps'|] == s
    decreases more
  {
    hide Enabled, Apply;
    trace', steps' := trace, steps;
    if more != [] {
      var next := Apply(trace[|steps|], more[0]);
      assert (trace + [next])[0] == trace[0];
      trace', steps' := TraceAlong(trace + [next], steps + [more[0]], more[1..], s);
    }
  }

  lemma ReachableTrace(s: State) returns (trace: seq<State>, steps: seq<Step>)
    requires Reachable(s)
    ensures Trace(trace, steps) && trace[|steps|] == s
  {
    var config, more :| |config| == PARTS && Runs(Initial(config), more, s);
    assert Trace([Initial(config)], []);
    trace, steps := TraceAlong([Initial(config)], [], more, s);
  }

  lemma {:induction false} TraceReachable(trace: seq<State>, steps: seq<Step>, n: nat)
    requires Trace(trace, steps) && n <= |steps|
    ensures Reachable(trace[n])
  {
    hide Enabled, Apply, Initial;
    if n == 0 {
      var config :| |config| == PARTS && trace[0] == Initial(config);
      NoSteps(Initial(config));
    } else {
      TraceReachable(trace, steps, n - 1);
      hide Reachable;
      ReachableOn(trace[n - 1], steps[n - 1]);
    }
  }

  lemma StepInto(trace: seq<State>, steps: seq<Step>, n: nat)
    requires Trace(trace, steps) && n <= |steps| && trace[n].streams != []
    ensures n > 0 && |trace[n - 1].config| == PARTS
    ensures Enabled(trace[n - 1], steps[n - 1]) && trace[n] == Apply(trace[n - 1], steps[n - 1])
  {
    assert n > 0;
    TraceReachable(trace, steps, n - 1);
    ReachableInv(trace[n - 1]);
    hide Enabled, Apply;
  }

  predicate IsFetching(s: State, i: nat) { i < |s.streams| && s.streams[i].position.Fetching? }

  // The steps that read the parts a fetch has so far, one by one, the stream fetching ever since.
  ghost predicate ReadBy(trace: seq<State>, steps: seq<Step>, i: nat, n: nat, read: Config, at: seq<nat>)
  {
    && n <= |steps| < |trace| && |at| == |read| <= PARTS
    && (forall k :: 0 <= k < |at| ==>
          at[k] < n && steps[at[k]] == ReadPart(i) && k < |trace[at[k]].config| && read[k] == trace[at[k]].config[k])
    && (forall j, k :: 0 <= j < k < |at| ==> at[j] < at[k])
    && (at != [] ==> forall m :: at[0] <= m <= n ==> IsFetching(trace[m], i))
    && (at != [] ==> forall m :: at[0] <= m < n && steps[m] == ReadPart(i) ==> m in at)
  }

  // A fetch goes on, begins, or reads a part.
  lemma FetchBefore(s: State, step: Step, i: nat)
    requires Enabled(s, step) && IsFetching(Apply(s, step), i)
    ensures var read := Apply(s, step).streams[i].position.read;
            || read == []
            || (IsFetching(s, i) && s.streams[i].position.read == read && step != ReadPart(i))
            || (IsFetching(s, i) && step == ReadPart(i) && |s.streams[i].position.read| < |s.config|
                && read == s.streams[i].position.read + [s.config[|s.streams[i].position.read|]])
  {
  }

  lemma ReadsAfter(trace: seq<State>, steps: seq<Step>, i: nat, n: nat, read: Config, at: seq<nat>)
    requires n < |steps| && ReadBy(trace, steps, i, n, read, at) && IsFetching(trace[n], i)
    requires IsFetching(trace[n + 1], i) && |trace[n].config| == PARTS
    ensures if steps[n] != ReadPart(i) then ReadBy(trace, steps, i, n + 1, read, at)
            else |read| < PARTS ==> ReadBy(trace, steps, i, n + 1, read + [trace[n].config[|read|]], at + [n])
  {
    hide IsFetching;
    assert forall m :: m in at ==> m in at + [n];
    assert n in at + [n];
  }

  lemma {:induction false} FetchReads(trace: seq<State>, steps: seq<Step>, i: nat, n: nat) returns (at: seq<nat>)
    requires Trace(trace, steps) && n <= |steps| && IsFetching(trace[n], i)
    ensures ReadBy(trace, steps, i, n, trace[n].streams[i].position.read, at)
    decreases n
  {
    var read := trace[n].streams[i].position.read;
    if read == [] { return []; }
    StepInto(trace, steps, n);
    var s := trace[n - 1];
    FetchBefore(s, steps[n - 1], i);
    hide *;
    at := FetchReads(trace, steps, i, n - 1);
    ReadsAfter(trace, steps, i, n - 1, s.streams[i].position.read, at);
    if steps[n - 1] == ReadPart(i) { at := at + [n - 1]; }
  }

  // The latest snapshot of a stream that is not fetching.
  function LatestSnapshot(w: Stream): Option<Snapshot> {
    if w.position.Sending? then Some(w.position.snapshot)
    else if w.position.Waiting? && w.sent != [] then Some(w.sent[|w.sent| - 1])
    else None
  }

  // The fetch behind it: step q read the version, the steps at read the parts.
  ghost predicate FetchedBy(trace: seq<State>, steps: seq<Step>, i: nat, n: nat, at: seq<nat>, q: nat)
  {
    && n <= |steps| < |trace| && i < |trace[n].streams| && LatestSnapshot(trace[n].streams[i]).Some?
    && q < n && steps[q] == ReadVersion(i) && trace[n].streams[i].atVersion == trace[q].config
    && (forall m :: q < m < n ==> steps[m] != ReadVersion(i))
    && |at| == PARTS && ReadBy(trace, steps, i, q, LatestSnapshot(trace[n].streams[i]).value.contents, at)
  }

  lemma SnapshotBefore(s: State, step: Step, i: nat)
    requires Enabled(s, step) && i < |Apply(s, step).streams| && LatestSnapshot(Apply(s, step).streams[i]).Some?
    ensures var w' := Apply(s, step).streams[i];
            i < |s.streams|
            && if step == ReadVersion(i) then
                 IsFetching(s, i) && LatestSnapshot(w').value.contents == s.streams[i].position.read
                 && |s.streams[i].position.read| >= |s.config| && w'.atVersion == s.config
               else
                 LatestSnapshot(w') == LatestSnapshot(s.streams[i]) && w'.atVersion == s.streams[i].atVersion
  {
  }

  lemma FetchedAfter(trace: seq<State>, steps: seq<Step>, i: nat, n: nat, at: seq<nat>, q: nat)
    requires n < |steps| < |trace| && i < |trace[n].streams| && i < |trace[n + 1].streams|
    requires var w, w' := trace[n].streams[i], trace[n + 1].streams[i];
             LatestSnapshot(w').Some?
             && if q == n then
                  steps[n] == ReadVersion(i) && IsFetching(trace[n], i)
                  && |w.position.read| >= |trace[n].config| == PARTS
                  && LatestSnapshot(w').value.contents == w.position.read && w'.atVersion == trace[n].config
                  && ReadBy(trace, steps, i, n, w.position.read, at)
                else
                  steps[n] != ReadVersion(i) && FetchedBy(trace, steps, i, n, at, q)
                  && LatestSnapshot(w') == LatestSnapshot(w) && w'.atVersion == w.atVersion
    ensures FetchedBy(trace, steps, i, n + 1, at, q)
  {
    if q == n { assert |at| == PARTS; }
    hide LatestSnapshot, ReadBy, IsFetching;
  }

  lemma {:induction false} SnapshotReads(trace: seq<State>, steps: seq<Step>, i: nat, n: nat)
    returns (at: seq<nat>, q: nat)
    requires Trace(trace, steps) && n <= |steps| && i < |trace[n].streams|
    requires LatestSnapshot(trace[n].streams[i]).Some?
    ensures FetchedBy(trace, steps, i, n, at, q)
    decreases n
  {
    StepInto(trace, steps, n);
    SnapshotBefore(trace[n - 1], steps[n - 1], i);
    hide *;
    if steps[n - 1] == ReadVersion(i) {
      at := FetchReads(trace, steps, i, n - 1);
      q := n - 1;
    } else {
      at, q := SnapshotReads(trace, steps, i, n - 1);
      assert q < n - 1;
    }
    FetchedAfter(trace, steps, i, n - 1, at, q);
  }

  // ----- When the contents are current -----

  // Once no writer owes a Notify, a part of a quiescent stream's last snapshot is wrong exactly when it was
  // changed, and not changed back, after the step that read it and before the one that read the version.
  lemma ContentsCurrentExactly(trace: seq<State>, steps: seq<Step>, i: nat) returns (at: seq<nat>, q: nat)
    requires Trace(trace, steps) && Quiescent(trace[|steps|], i) && trace[|steps|].owed == 0
    ensures FetchedBy(trace, steps, i, |steps|, at, q)
    ensures var s := trace[|steps|];
            var contents := s.streams[i].sent[|s.streams[i].sent| - 1].contents;
            && |contents| == |s.config| == |trace[q].config| == PARTS
            && forall k :: 0 <= k < PARTS ==>
                 |trace[at[k]].config| == PARTS
                 && (contents[k] == s.config[k] <==> trace[at[k]].config[k] == trace[q].config[k])
  {
    TraceReachable(trace, steps, |steps|);
    QuiescentContents(trace[|steps|], i);
    at, q := SnapshotReads(trace, steps, i, |steps|);
    forall n: nat | n <= |steps| ensures |trace[n].config| == PARTS {
      TraceReachable(trace, steps, n);
      ReachableInv(trace[n]);
    }
    hide Trace, Reachable, Inv, IsFetching;
  }

  lemma {:induction false} PartUnwritten(trace: seq<State>, steps: seq<Step>, k: nat, a: nat, b: nat)
    requires Trace(trace, steps) && a <= b <= |steps| && k < |trace[a].config|
    requires forall m :: a <= m < b && steps[m].Write? ==> steps[m].part != k
    ensures k < |trace[b].config| && trace[b].config[k] == trace[a].config[k]
    decreases b - a
  {
    if a < b { PartUnwritten(trace, steps, k, a, b - 1); }
  }

  // So it is right when nobody wrote that part in between.
  lemma UnwrittenPartIsCurrent(trace: seq<State>, steps: seq<Step>, i: nat) returns (at: seq<nat>, q: nat)
    requires Trace(trace, steps) && Quiescent(trace[|steps|], i) && trace[|steps|].owed == 0
    ensures FetchedBy(trace, steps, i, |steps|, at, q)
    ensures var s := trace[|steps|];
            var contents := s.streams[i].sent[|s.streams[i].sent| - 1].contents;
            && |contents| == |s.config| == PARTS
            && forall k :: 0 <= k < PARTS && (forall m :: at[k] < m < q && steps[m].Write? ==> steps[m].part != k)
                 ==> contents[k] == s.config[k]
  {
    at, q := ContentsCurrentExactly(trace, steps, i);
    forall k | 0 <= k < PARTS && (forall m :: at[k] < m < q && steps[m].Write? ==> steps[m].part != k)
      ensures trace[at[k]].config[k] == trace[q].config[k]
    {
      PartUnwritten(trace, steps, k, at[k], q);
    }
  }

  // Were getConfig one step, or were writes kept away from fetches, the last snapshot would be current.
  lemma UndisturbedFetchIsCurrent(trace: seq<State>, steps: seq<Step>, i: nat)
    requires Trace(trace, steps) && Quiescent(trace[|steps|], i) && trace[|steps|].owed == 0
    requires forall m :: 0 <= m < |steps| && steps[m].Write? ==> !IsFetching(trace[m], i)
    ensures var s := trace[|steps|];
            s.streams[i].sent != [] && s.streams[i].sent[|s.streams[i].sent| - 1].contents == s.config
  {
    var at, q := UnwrittenPartIsCurrent(trace, steps, i);
    forall k, m | 0 <= k < PARTS && at[k] < m < q ensures !steps[m].Write? {
      assert at[0] <= at[k];
      assert IsFetching(trace[m], i);
    }
  }
}
