/** The gateway's event batcher: reporters put events on a bounded queue, one goroutine moves them into
    batches and hands full or timed batches to the client, and Close makes it drain the queue and exit. */
module EventBatcher {

  type Event = int

  // ----- The batch in hand and the batches sent -----

  datatype Buffers = Buffers(batch: seq<Event>, sent: seq<seq<Event>>)

  function Flush(b: Buffers): Buffers {
    if b.batch == [] then b else Buffers([], b.sent + [b.batch])
  }

  function Take(b: Buffers, event: Event, maxSize: nat): Buffers {
    var b' := b.(batch := b.batch + [event]);
    if |b'.batch| >= maxSize then Flush(b') else b'
  }

  function Flatten(batches: seq<seq<Event>>): seq<Event> {
    if batches == [] then [] else Flatten(batches[..|batches| - 1]) + batches[|batches| - 1]
  }

  function Held(b: Buffers): seq<Event> { Flatten(b.sent) + b.batch }

  ghost predicate BatchesOK(b: Buffers, maxSize: nat) {
    && |b.batch| < maxSize
    && forall i :: 0 <= i < |b.sent| ==> 1 <= |b.sent[i]| <= maxSize
  }

  lemma FlushKeeps(b: Buffers, maxSize: nat)
    requires |b.batch| <= maxSize && maxSize > 0 && forall i :: 0 <= i < |b.sent| ==> 1 <= |b.sent[i]| <= maxSize
    ensures Held(Flush(b)) == Held(b) && BatchesOK(Flush(b), maxSize) && Flush(b).batch == []
  {
    assert (b.sent + [b.batch])[..|b.sent|] == b.sent;
  }

  lemma TakeKeeps(b: Buffers, event: Event, maxSize: nat)
    requires BatchesOK(b, maxSize)
    ensures Held(Take(b, event, maxSize)) == Held(b) + [event] && BatchesOK(Take(b, event, maxSize), maxSize)
  {
    var b' := b.(batch := b.batch + [event]);
    assert Held(b') == Held(b) + [event];
    if |b'.batch| >= maxSize { FlushKeeps(b', maxSize); }
  }

  // The goroutine's own variables: a batch slice that is emptied and refilled in place, each flush
  // sending a copy.
  class Runner {
    const maxSize: nat
    const slots: array<Event>
    var len: nat
    var sent: seq<seq<Event>>

    ghost predicate Valid() reads this, slots {
      0 < maxSize == slots.Length && len < maxSize && BatchesOK(Contents(), maxSize)
    }

    ghost function Contents(): Buffers
      requires len <= slots.Length
      reads this, slots
    {
      Buffers(slots[..len], sent)
    }

    constructor (maxSize: nat)
      requires maxSize > 0
      ensures Valid() && this.maxSize == maxSize && Contents() == Buffers([], []) && fresh(slots)
    {
      this.maxSize, len, sent := maxSize, 0, [];
      slots := new Event[maxSize];
    }

    method FlushBatch()
      requires len <= slots.Length
      modifies this
      ensures len == 0 && Contents() == Flush(old(Contents()))
    {
      if len == 0 { return; }
      var events := slots[..len];
      len := 0;
      sent := sent + [events];
    }

    method Add(event: Event)
      requires Valid()
      modifies this, slots
      ensures Valid() && Contents() == Take(old(Contents()), event, maxSize)
    {
      TakeKeeps(Contents(), event, maxSize);
      ghost var before := Contents();
      slots[len] := event;
      len := len + 1;
      assert slots[..len] == before.batch + [event];
      if len >= maxSize { FlushBatch(); }
    }

    // The branch taken once Close was called: empty the queue, send what is left.
    method DrainAndExit(queue: seq<Event>)
      requires Valid()
      modifies this, slots
      ensures Valid() && len == 0 && Flatten(sent) == old(Held(Contents())) + queue
    {
      hide Take, Flush, Flatten;
      var i := 0;
      while i < |queue|
        invariant Valid() && i <= |queue| && Held(Contents()) == old(Held(Contents())) + queue[..i]
      {
        TakeKeeps(Contents(), queue[i], maxSize);
        Add(queue[i]);
        assert queue[..i + 1] == queue[..i] + [queue[i]];
        i := i + 1;
      }
      FlushKeeps(Contents(), maxSize);
      FlushBatch();
      assert queue[..i] == queue;
    }
  }

  // The sizes the batcher runs with, whatever was configured.
  function MaxSize(configured: int): nat { if configured <= 1 then 10 else configured }

  function QueueSize(configured: int, maxSize: nat): nat {
    var size := if configured <= 0 then maxSize * 4 else configured;
    if size < maxSize then maxSize else size
  }

  // ----- Reporters, goroutine and Close, interleaved -----

  datatype Progress = Checking | Offering | Finished(reason: Reason)

  datatype Reason = AllAccepted | Closed | Cancelled | QueueFull

  // A call of Report: its events, how many were accepted, and where it is.
  datatype Reporter = Reporter(events: seq<Event>, accepted: nat, progress: Progress)

  datatype Phase = Running | DrainingQueue | Exited

  datatype Entry = Entry(reporter: nat, event: Event)

  // accepted lists every enqueue; atClose holds the reporters that were offering when Close was called.
  datatype State = State(maxSize: nat, queueSize: nat, queue: seq<Event>, buffers: Buffers, stopped: bool,
                         phase: Phase, reporters: seq<Reporter>, accepted: seq<Entry>, atClose: set<nat>)

  datatype Step =
    | StartReport(events: seq<Event>)
    | Check(r: nat)
    | Enqueue(r: nat)
    | Refuse(r: nat, reason: Reason)
    | Close
    | Dequeue
    | Tick
    | SeeStop
    | Exit

  // Select takes any ready case; the default only when no other is ready.  A context may be cancelled
  // at any moment.
  predicate MayRefuse(s: State, reason: Reason) {
    match reason
    case AllAccepted => false
    case Closed => s.stopped
    case Cancelled => true
    case QueueFull => |s.queue| >= s.queueSize && !s.stopped
  }

  predicate Enabled(s: State, step: Step) {
    match step
    case StartReport(_) => true
    case Check(r) => r < |s.reporters| && s.reporters[r].progress.Checking?
    case Enqueue(r) => r < |s.reporters| && s.reporters[r].progress.Offering? && |s.queue| < s.queueSize
    case Refuse(r, reason) => r < |s.reporters| && s.reporters[r].progress.Offering? && MayRefuse(s, reason)
    case Close => !s.stopped
    case Dequeue => !s.phase.Exited? && s.queue != []
    case Tick => s.phase.Running?
    case SeeStop => s.phase.Running? && s.stopped
    case Exit => s.phase.DrainingQueue? && s.queue == []
  }

  function Checked(w: Reporter, stopped: bool): Reporter {
    if w.accepted >= |w.events| then w.(progress := Finished(AllAccepted))
    else if stopped then w.(progress := Finished(Closed))
    else w.(progress := Offering)
  }

  function EnqueueStep(s: State, r: nat): State
    requires r < |s.reporters| && s.reporters[r].accepted < |s.reporters[r].events|
  {
    var w := s.reporters[r];
    var event := w.events[w.accepted];
    s.(queue := s.queue + [event], accepted := s.accepted + [Entry(r, event)],
       reporters := s.reporters[r := w.(accepted := w.accepted + 1, progress := Checking)])
  }

  function OfferingNow(s: State): set<nat> {
    set r: nat | r < |s.reporters| && s.reporters[r].progress.Offering?
  }

  function Apply(s: State, step: Step): State
    requires Enabled(s, step)
  {
    match step
    case StartReport(events) => s.(reporters := s.reporters + [Reporter(events, 0, Checking)])
    case Check(r) => s.(reporters := s.reporters[r := Checked(s.reporters[r], s.stopped)])
    case Enqueue(r) => if s.reporters[r].accepted < |s.reporters[r].events| then EnqueueStep(s, r) else s
    case Refuse(r, reason) => s.(reporters := s.reporters[r := s.reporters[r].(progress := Finished(reason))])
    case Close => s.(stopped := true, atClose := OfferingNow(s))
    case Dequeue => s.(queue := s.queue[1..], buffers := Take(s.buffers, s.queue[0], s.maxSize))
    case Tick => s.(buffers := Flush(s.buffers))
    case SeeStop => s.(phase := DrainingQueue)
    case Exit => s.(buffers := Flush(s.buffers), phase := Exited)
  }

  function Initial(maxSize: int, queueSize: int): State {
    var max := MaxSize(maxSize);
    State(max, QueueSize(queueSize, max), [], Buffers([], []), false, Running, [], [], {})
  }

  ghost predicate Runs(s: State, steps: seq<Step>, s': State)
    decreases steps
  {
    if steps == [] then s == s'
    else Enabled(s, steps[0]) && Runs(Apply(s, steps[0]), steps[1..], s')
  }

  ghost predicate Reachable(s: State) {
    exists maxSize, queueSize, steps :: Runs(Initial(maxSize, queueSize), steps, s)
  }

  // ----- What was accepted -----

  function Events(entries: seq<Entry>): (events: seq<Event>)
    ensures |events| == |entries|
  {
    seq(|entries|, i requires 0 <= i < |entries| => entries[i].event)
  }

  // The events one reporter had accepted, in order.
  function EventsOf(entries: seq<Entry>, r: nat): seq<Event> {
    if entries == [] then []
    else
      var last := entries[|entries| - 1];
      EventsOf(entries[..|entries| - 1], r) + if last.reporter == r then [last.event] else []
  }

  // ----- The invariant -----

  ghost predicate Conserved(accepted: seq<Entry>, b: Buffers, queue: seq<Event>) {
    Events(accepted) == Held(b) + queue
  }

  ghost predicate ReporterOK(w: Reporter, r: nat, accepted: seq<Entry>) {
    && w.accepted <= |w.events| && EventsOf(accepted, r) == w.events[..w.accepted]
    && (w.progress.Offering? ==> w.accepted < |w.events|)
    && (w.progress == Finished(AllAccepted) ==> w.accepted == |w.events|)
  }

  ghost predicate ReportersOK(reporters: seq<Reporter>, accepted: seq<Entry>) {
    && (forall r: nat :: r < |reporters| ==> ReporterOK(reporters[r], r, accepted))
    && forall k :: 0 <= k < |accepted| ==> accepted[k].reporter < |reporters|
  }

  // After Close, only those who were offering then can still be offering.
  ghost predicate StopOK(s: State) {
    && (!s.phase.Running? ==> s.stopped)
    && (s.phase.Exited? ==> s.buffers.batch == [])
    && (s.stopped ==> forall r: nat :: r < |s.reporters| && s.reporters[r].progress.Offering? ==> r in s.atClose)
    && (s.phase.Exited? && s.atClose == {} ==> s.queue == [])
  }

  ghost predicate Inv(s: State) {
    && 2 <= s.maxSize <= s.queueSize && |s.queue| <= s.queueSize
    && Conserved(s.accepted, s.buffers, s.queue) && BatchesOK(s.buffers, s.maxSize)
    && ReportersOK(s.reporters, s.accepted) && StopOK(s)
  }

  lemma {:induction false} NoneOf(entries: seq<Entry>, r: nat)
    requires forall k :: 0 <= k < |entries| ==> entries[k].reporter != r
    ensures EventsOf(entries, r) == []
  {
    if entries != [] { NoneOf(entries[..|entries| - 1], r); }
  }

  lemma EnqueueKeeps(s: State, r: nat)
    requires Inv(s) && Enabled(s, Enqueue(r))
    ensures Inv(Apply(s, Enqueue(r)))
  {
    assert ReporterOK(s.reporters[r], r, s.accepted);
    var w := s.reporters[r];
    var entry := Entry(r, w.events[w.accepted]);
    var accepted := s.accepted + [entry];
    assert accepted[..|accepted| - 1] == s.accepted;
    forall q: nat | q < |s.reporters|
      ensures var w' := if q == r then w.(accepted := w.accepted + 1, progress := Checking) else s.reporters[q];
              ReporterOK(w', q, accepted)
    {
      assert ReporterOK(s.reporters[q], q, s.accepted);
      assert w.events[..w.accepted + 1] == w.events[..w.accepted] + [w.events[w.accepted]];
    }
    assert Events(accepted) == Events(s.accepted) + [entry.event];
  }

  lemma ReportersStepKeeps(s: State, step: Step)
    requires Inv(s) && Enabled(s, step) && (step.StartReport? || step.Check? || step.Refuse?)
    ensures Inv(Apply(s, step))
  {
    var s' := Apply(s, step);
    if step.StartReport? { NoneOf(s.accepted, |s.reporters|); }
    forall r: nat | r < |s'.reporters| ensures ReporterOK(s'.reporters[r], r, s'.accepted) {
      if r < |s.reporters| { assert ReporterOK(s.reporters[r], r, s.accepted); }
    }
  }

  lemma DequeueKeeps(s: State)
    requires Inv(s) && Enabled(s, Dequeue)
    ensures Inv(Apply(s, Dequeue))
  {
    hide Held, Take, Events, ReportersOK, BatchesOK;
    TakeKeeps(s.buffers, s.queue[0], s.maxSize);
    assert Held(s.buffers) + s.queue == Held(s.buffers) + [s.queue[0]] + s.queue[1..];
  }

  lemma RunnerStepKeeps(s: State, step: Step)
    requires Inv(s) && Enabled(s, step) && (step.Tick? || step.SeeStop? || step.Exit? || step.Close?)
    ensures Inv(Apply(s, step))
  {
    FlushKeeps(s.buffers, s.maxSize);
    hide Held, Flush, Events, ReportersOK, BatchesOK;
  }

  lemma StepKeepsInv(s: State, step: Step)
    requires Inv(s) && Enabled(s, step)
    ensures Inv(Apply(s, step))
  {
    hide Inv, Apply, Enabled;
    match step {
      case Enqueue(r) => EnqueueKeeps(s, r);
      case StartReport(_) => ReportersStepKeeps(s, step);
      case Check(_) => ReportersStepKeeps(s, step);
      case Refuse(_, _) => ReportersStepKeeps(s, step);
      case Dequeue => DequeueKeeps(s);
      case _ => RunnerStepKeeps(s, step);
    }
  }

  lemma {:induction false} RunKeepsInv(s: State, steps: seq<Step>, s': State)
    requires Inv(s) && Runs(s, steps, s')
    ensures Inv(s')
    decreases steps
  {
    hide Inv;
    if steps != [] {
      StepKeepsInv(s, steps[0]);
      RunKeepsInv(Apply(s, steps[0]), steps[1..], s');
    }
  }

  lemma ReachableInv(s: State)
    requires Reachable(s)
    ensures Inv(s)
  {
    var maxSize, queueSize, steps :| Runs(Initial(maxSize, queueSize), steps, s);
    RunKeepsInv(Initial(maxSize, queueSize), steps, s);
  }

  lemma {:induction false} RunsOn(s: State, steps: seq<Step>, s': State, step: Step)
    requires Runs(s, steps, s') && Enabled(s', step)
    ensures Runs(s, steps + [step], Apply(s', step))
    decreases steps
  {
    hide Enabled, Apply;
    if steps == [] {
      assert [step][1..] == [];
    } else {
      RunsOn(Apply(s, steps[0]), steps[1..], s', step);
      assert (steps + [step])[1..] == steps[1..] + [step];
    }
  }

  lemma ReachableOn(s: State, step: Step)
    requires Reachable(s) && Enabled(s, step)
    ensures Reachable(Apply(s, step))
  {
    hide Enabled, Apply;
    var maxSize, queueSize, steps :| Runs(Initial(maxSize, queueSize), steps, s);
    RunsOn(Initial(maxSize, queueSize), steps, s, step);
  }

  // ----- Conservation -----

  // Nothing is lost, duplicated or reordered, and no batch is empty or too large.
  lemma EventsAreConserved(s: State)
    requires Reachable(s)
    ensures Events(s.accepted) == Flatten(s.buffers.sent) + s.buffers.batch + s.queue
    ensures forall i :: 0 <= i < |s.buffers.sent| ==> 1 <= |s.buffers.sent[i]| <= s.maxSize
  {
    ReachableInv(s);
  }

  // The count a Report returns says which of its events were taken: the first so many, in order.
  lemma AcceptedIsAPrefix(s: State, r: nat)
    requires Reachable(s) && r < |s.reporters|
    ensures var w := s.reporters[r];
            w.accepted <= |w.events| && EventsOf(s.accepted, r) == w.events[..w.accepted]
            && (w.progress == Finished(AllAccepted) ==> w.accepted == |w.events|)
  {
    ReachableInv(s);
    assert ReporterOK(s.reporters[r], r, s.accepted);
  }

  // ----- Close -----

  // A Close that finds no reporter between its check and its enqueue leaves nothing behind.
  lemma CloseSendsEverything(s: State)
    requires Reachable(s) && s.phase.Exited? && s.atClose == {}
    ensures Flatten(s.buffers.sent) == Events(s.accepted)
  {
    ReachableInv(s);
    assert Flatten(s.buffers.sent) + [] + [] == Flatten(s.buffers.sent);
  }

  ghost predicate NobodyOffers(s: State) {
    forall r: nat :: r < |s.reporters| ==> !s.reporters[r].progress.Offering?
  }

  ghost predicate Quiet(s: State) {
    s.stopped && NobodyOffers(s) && (s.phase.Exited? ==> s.queue == [])
  }

  lemma {:induction false} QuietRuns(s: State, steps: seq<Step>, s': State)
    requires Quiet(s) && Runs(s, steps, s')
    ensures Quiet(s')
    decreases steps
  {
    if steps != [] {
      QuietStep(s, steps[0]);
      QuietRuns(Apply(s, steps[0]), steps[1..], s');
    }
  }

  lemma QuietStep(s: State, step: Step)
    requires Quiet(s) && Enabled(s, step)
    ensures Quiet(Apply(s, step))
  {
  }

  ghost predicate AlwaysEmptied(s: State) {
    forall steps, s' :: Runs(s, steps, s') && s'.phase.Exited? ==> s'.queue == []
  }

  lemma {:induction false} DrainRun(s: State, steps: seq<Step>, s1: State) returns (steps': seq<Step>, s': State)
    requires Runs(s, steps, s1) && s1.phase.DrainingQueue?
    ensures Runs(s, steps', s') && s' == s1.(queue := [], buffers := s'.buffers)
    decreases |s1.queue|
  {
    if s1.queue == [] {
      return steps, s1;
    }
    RunsOn(s, steps, s1, Dequeue);
    hide Runs;
    steps', s' := DrainRun(s, steps + [Dequeue], Apply(s1, Dequeue));
  }

  // A reporter caught between its check and its enqueue can still put its event on the dead queue.
  lemma StrandingRun(s: State, r: nat) returns (steps: seq<Step>, s': State)
    requires Inv(s) && s.stopped && !s.phase.Exited? && r < |s.reporters| && s.reporters[r].progress.Offering?
    ensures Runs(s, steps, s') && s'.phase.Exited? && s'.queue != []
  {
    assert ReporterOK(s.reporters[r], r, s.accepted);
    var size := s.queueSize;
    assert size > 0;
    assert Runs(s, [], s);
    hide Runs, Inv;
    steps, s' := [], s;
    if s.phase.Running? {
      RunsOn(s, [], s, SeeStop);
      steps, s' := [] + [SeeStop], Apply(s, SeeStop);
    }
    steps, s' := DrainRun(s, steps, s');
    RunsOn(s, steps, s', Exit);
    steps, s' := steps + [Exit], Apply(s', Exit);
    RunsOn(s, steps, s', Enqueue(r));
    steps, s' := steps + [Enqueue(r)], Apply(s', Enqueue(r));
  }

  // So Close is safe whatever happens next exactly when nobody is caught there.
  lemma CloseIsSafeExactly(s: State)
    requires Reachable(s) && s.stopped && !s.phase.Exited?
    ensures AlwaysEmptied(s) <==> NobodyOffers(s)
  {
    if NobodyOffers(s) {
      forall steps, s' | Runs(s, steps, s') && s'.phase.Exited? ensures s'.queue == [] {
        QuietRuns(s, steps, s');
      }
    } else {
      ReachableInv(s);
      var r: nat :| r < |s.reporters| && s.reporters[r].progress.Offering?;
      var steps, s' := StrandingRun(s, r);
    }
  }

  // An accepted event nobody will send.
  lemma StrandedEvent() returns (s: State)
    ensures Reachable(s) && s.phase.Exited? && s.reporters == [Reporter([7], 1, Checking)]
    ensures s.queue == [7] && s.buffers == Buffers([], [])
  {
    s := Initial(0, 0);
    assert Runs(s, [], s) && Reachable(s);
    hide Reachable, Runs;
    ReachableOn(s, StartReport([7]));
    s := Apply(s, StartReport([7]));
    ReachableOn(s, Check(0));
    s := Apply(s, Check(0));
    ReachableOn(s, Close);
    s := Apply(s, Close);
    ReachableOn(s, SeeStop);
    s := Apply(s, SeeStop);
    ReachableOn(s, Exit);
    s := Apply(s, Exit);
    ReachableOn(s, Enqueue(0));
    s := Apply(s, Enqueue(0));
  }


  // ----- When batches are sent -----

  // A step sends at most one batch: everything held, at a tick or at exit, whatever its size; or, on taking an
  // event, a batch that this event fills.
  lemma BatchesAreSentFullOrTimed(s: State, step: Step)
    requires Reachable(s) && Enabled(s, step)
    ensures var b, b' := s.buffers, Apply(s, step).buffers;
            if step.Tick? || step.Exit? then b' == if b.batch == [] then b else Buffers([], b.sent + [b.batch])
            else if step.Dequeue? then
              var taken := b.batch + [s.queue[0]];
              |taken| <= s.maxSize
              && b' == if |taken| == s.maxSize then Buffers([], b.sent + [taken]) else Buffers(taken, b.sent)
            else b' == b
  {
    ReachableInv(s);
  }


  // Batches of ten and room for four of them unless configured otherwise, and always room for a full batch.
  lemma SizesAre(maxSize: int, queueSize: int)
    ensures var s := Initial(maxSize, queueSize);
            && 2 <= s.maxSize <= s.queueSize
            && (maxSize > 1 ==> s.maxSize == maxSize && (queueSize >= maxSize ==> s.queueSize == queueSize))
            && (maxSize <= 1 && queueSize <= 0 ==> s.maxSize == 10 && s.queueSize == 40)
            && (queueSize <= 0 ==> s.queueSize == 4 * s.maxSize)
  {
  }
}
