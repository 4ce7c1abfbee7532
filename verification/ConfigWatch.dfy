/** WatchConfig streams against the notifier: Notify's steps on each subscriber's slot, made under the
    lock, interleave with the streams' receives, fetches and sends, and with configuration writes that
    call Notify once the store has changed. */
module ConfigWatch {
  import opened Text

  // A configuration has five parts, read one store call after the other: the application's status, the
  // routes, the rules, the IP policies and the resources.  A number marks what a part holds.
  const PARTS: nat := 5

  type Config = seq<int>

  // What a stream sends: the version, and the parts the snapshot was built from.
  datatype Snapshot = Snapshot(version: int, contents: Config)

  // Where a stream is: fetching (for the version it received, if any) with some parts read, the version
  // being read last; about to send; waiting for an update; or gone.
  datatype Position =
    | Fetching(wanted: int, read: Config)
    | Sending(snapshot: Snapshot)
    | Waiting
    | Gone

  // atVersion is the configuration in the store when the version of the latest snapshot was read.
  datatype Stream = Stream(slot: Option<int>, subscribed: bool, position: Position, last: int,
                           delivered: seq<int>, sent: seq<Snapshot>, atVersion: Config)

  // Notify holds the lock from the increment to the last subscriber.
  datatype Lock = Free | Notifying(todo: set<nat>, stage: Stage)

  datatype Stage = Between | Draining(stream: nat) | Resending(stream: nat)

  // owed counts the writers that have changed the store and not yet called Notify.
  datatype State = State(version: int, config: Config, owed: nat, mutex: Lock, streams: seq<Stream>)

  datatype Step =
    | Write(part: nat, mark: int)
    | Begin(writer: bool)
    | Offer(i: nat)
    | Drain
    | Resend
    | End
    | Subscribe
    | Unsubscribe(i: nat)
    | Receive(i: nat)
    | ReadPart(i: nat)
    | ReadVersion(i: nat)
    | Send(i: nat)
    | Leave(i: nat)

  predicate Enabled(s: State, step: Step) {
    match step
    case Write(part, _) => part < |s.config|
    case Begin(writer) => s.mutex.Free? && (writer ==> s.owed > 0)
    case Offer(i) => s.mutex.Notifying? && s.mutex.stage.Between? && i in s.mutex.todo && i < |s.streams|
    case Drain => s.mutex.Notifying? && s.mutex.stage.Draining? && s.mutex.stage.stream < |s.streams|
    case Resend => s.mutex.Notifying? && s.mutex.stage.Resending? && s.mutex.stage.stream < |s.streams|
    case End => s.mutex == Notifying({}, Between)
    case Subscribe => s.mutex.Free?
    case Unsubscribe(i) => s.mutex.Free? && i < |s.streams| && s.streams[i].position.Gone? && s.streams[i].subscribed
    case Receive(i) => i < |s.streams| && s.streams[i].position.Waiting? && s.streams[i].slot.Some?
    case ReadPart(i) =>
      i < |s.streams| && s.streams[i].position.Fetching? && |s.streams[i].position.read| < |s.config|
    case ReadVersion(i) =>
      && s.mutex.Free? && i < |s.streams| && s.streams[i].position.Fetching?
      && |s.streams[i].position.read| >= |s.config|
    case Send(i) => i < |s.streams| && s.streams[i].position.Sending?
    case Leave(i) => i < |s.streams| && !s.streams[i].position.Gone?
  }

  function Fill(w: Stream, version: int): Stream {
    if w.slot.None? then w.(slot := Some(version)) else w
  }

  // An update no newer than the last snapshot is skipped.
  function Received(w: Stream): Stream
    requires w.slot.Some?
  {
    var v := w.slot.value;
    w.(slot := None, delivered := w.delivered + [v], position := if v <= w.last then Waiting else Fetching(v, []))
  }

  // A snapshot older than the update that prompted it is sent under the update's version.
  function Fetched(w: Stream, version: int, config: Config): Stream
    requires w.position.Fetching?
  {
    var stamped := if version < w.position.wanted then w.position.wanted else version;
    w.(position := Sending(Snapshot(stamped, w.position.read)), atVersion := config)
  }

  function SentOn(w: Stream): Stream
    requires w.position.Sending?
  {
    w.(position := Waiting, last := w.position.snapshot.version, sent := w.sent + [w.position.snapshot])
  }

  function NewStream(): Stream { Stream(None, true, Fetching(0, []), 0, [], [], []) }

  function Subscribed(s: State): set<nat> {
    set i: nat | i < |s.streams| && s.streams[i].subscribed
  }

  // The stream a step works on.
  function Actor(s: State, step: Step): Option<nat> {
    match step
    case Offer(i) => Some(i)
    case Drain => if s.mutex.Notifying? && s.mutex.stage.Draining? then Some(s.mutex.stage.stream) else None
    case Resend => if s.mutex.Notifying? && s.mutex.stage.Resending? then Some(s.mutex.stage.stream) else None
    case Unsubscribe(i) => Some(i)
    case Receive(i) => Some(i)
    case ReadPart(i) => Some(i)
    case ReadVersion(i) => Some(i)
    case Send(i) => Some(i)
    case Leave(i) => Some(i)
    case _ => None
  }

  // The stream after a step of its own or of Notify on it.
  function After(w: Stream, s: State, step: Step): Stream {
    match step
    case Offer(_) => Fill(w, s.version)
    case Drain => w.(slot := None)
    case Resend => Fill(w, s.version)
    case Unsubscribe(_) => w.(subscribed := false)
    case Receive(_) => if w.slot.Some? then Received(w) else w
    case ReadPart(_) =>
      if w.position.Fetching? && |w.position.read| < |s.config| then
        w.(position := w.position.(read := w.position.read + [s.config[|w.position.read|]]))
      else w
    case ReadVersion(_) => if w.position.Fetching? then Fetched(w, s.version, s.config) else w
    case Send(_) => if w.position.Sending? then SentOn(w) else w
    case Leave(_) => w.(position := Gone)
    case _ => w
  }

  function LockAfter(s: State, step: Step): Lock
    requires Enabled(s, step)
  {
    match step
    case Begin(_) => Notifying(Subscribed(s), Between)
    case Offer(i) => Notifying(s.mutex.todo - {i}, if s.streams[i].slot.None? then Between else Draining(i))
    case Drain => Notifying(s.mutex.todo, Resending(s.mutex.stage.stream))
    case Resend => Notifying(s.mutex.todo, Between)
    case End => Free
    case _ => s.mutex
  }

  function Apply(s: State, step: Step): State
    requires Enabled(s, step)
  {
    var streams := match Actor(s, step)
      case Some(i) => s.streams[i := After(s.streams[i], s, step)]
      case None => if step.Subscribe? then s.streams + [NewStream()] else s.streams;
    State(if step.Begin? then s.version + 1 else s.version,
          if step.Write? then s.config[step.part := step.mark] else s.config,
          if step.Write? then s.owed + 1 else if step.Begin? && step.writer then s.owed - 1 else s.owed,
          LockAfter(s, step), streams)
  }

  function Initial(config: Config): State { State(1, config, 0, Free, []) }

  ghost predicate Runs(s: State, steps: seq<Step>, s': State)
    decreases steps
  {
    if steps == [] then s == s'
    else Enabled(s, steps[0]) && Runs(Apply(s, steps[0]), steps[1..], s')
  }

  ghost predicate Reachable(s: State) {
    exists config, steps :: |config| == PARTS && Runs(Initial(config), steps, s)
  }

  lemma {:induction false} RunsOn(s: State, steps: seq<Step>, s': State, step: Step)
    requires Runs(s, steps, s') && Enabled(s', step)
    ensures Runs(s, steps + [step], Apply(s', step))
    decreases steps
  {
    if steps == [] {
      assert [step][1..] == [];
    } else {
      RunsOn(Apply(s, steps[0]), steps[1..], s', step);
      assert (steps + [step])[1..] == steps[1..] + [step];
    }
  }

  lemma NoSteps(s: State)
    ensures Runs(s, [], s)
  {
  }

  lemma RunsFrom(s: State, step: Step, steps: seq<Step>, s': State)
    requires Enabled(s, step) && Runs(Apply(s, step), steps, s')
    ensures Runs(s, [step] + steps, s')
  {
    assert ([step] + steps)[1..] == steps;
  }

  lemma ReachableOn(s: State, step: Step)
    requires Reachable(s) && Enabled(s, step)
    ensures Reachable(Apply(s, step))
  {
    var config, steps :| |config| == PARTS && Runs(Initial(config), steps, s);
    RunsOn(Initial(config), steps, s, step);
  }

  // ----- The invariant -----

  // What Notify has still to do for a stream.
  datatype Due = Settled | Offering | DrainDue | ResendDue

  function DueFor(mutex: Lock, i: nat): Due {
    if mutex.Free? then Settled
    else if i in mutex.todo then Offering
    else if mutex.stage == Draining(i) then DrainDue
    else if mutex.stage == Resending(i) then ResendDue
    else Settled
  }

  ghost predicate Rising(versions: seq<int>) {
    forall i, j :: 0 <= i < j < |versions| ==> versions[i] < versions[j]
  }

  ghost predicate AllBelow(versions: seq<int>, bound: int) {
    forall i :: 0 <= i < |versions| ==> versions[i] < bound
  }

  ghost predicate SnapshotsRise(sent: seq<Snapshot>) {
    forall i, j :: 0 <= i < j < |sent| ==> sent[i].version < sent[j].version
  }

  // Deliveries rise, and leave room for what the slot holds and for what Notify is about to put there.
  ghost predicate DeliveredOK(w: Stream, due: Due, version: int) {
    && Rising(w.delivered)
    && AllBelow(w.delivered, if due.Settled? then version + 1 else version)
    && (w.slot.Some? ==> AllBelow(w.delivered, w.slot.value) && w.slot.value <= version)
  }

  ghost predicate SlotOK(w: Stream, due: Due, version: int) {
    w.slot.Some? && w.subscribed ==>
      match due
      case Settled => w.slot.value == version
      case ResendDue => false
      case _ => w.slot.value == version - 1
  }

  ghost predicate SentOK(w: Stream, version: int) {
    && SnapshotsRise(w.sent)
    && (w.sent == [] ==> !w.position.Waiting? && w.last == 0)
    && (w.sent != [] ==> w.last == w.sent[|w.sent| - 1].version <= version)
    && match w.position
       case Fetching(wanted, _) => wanted <= version && (w.sent != [] ==> wanted > w.last)
       case Sending(snapshot) => snapshot.version <= version && (w.sent != [] ==> snapshot.version > w.last)
       case _ => true
  }

  // With an empty slot and nothing due, the stream has, or is about to have, the current version.
  ghost predicate FreshOK(w: Stream, due: Due, version: int) {
    w.subscribed && due.Settled? && w.slot.None? ==>
      match w.position
      case Sending(snapshot) => snapshot.version == version
      case Waiting => w.last == version
      case _ => true
  }

  // The store still is as it was when the current version was read, unless a writer owes a Notify.
  ghost predicate ContentsOK(w: Stream, version: int, config: Config, owed: nat) {
    owed == 0 ==>
      match w.position
      case Sending(snapshot) => snapshot.version == version ==> w.atVersion == config
      case Waiting => w.last == version ==> w.atVersion == config
      case _ => true
  }

  ghost predicate StreamOK(w: Stream, due: Due, version: int, config: Config, owed: nat) {
    && DeliveredOK(w, due, version) && SlotOK(w, due, version) && SentOK(w, version)
    && FreshOK(w, due, version) && ContentsOK(w, version, config, owed)
    && (!w.subscribed ==> w.position.Gone? && due.Settled?)
  }

  ghost predicate LockOK(mutex: Lock, n: nat) {
    mutex.Notifying? ==>
      && (forall i :: i in mutex.todo ==> i < n)
      && (!mutex.stage.Between? ==> mutex.stage.stream < n && mutex.stage.stream !in mutex.todo)
  }

  ghost predicate Inv(s: State) {
    && s.version >= 1 && |s.config| == PARTS && LockOK(s.mutex, |s.streams|)
    && forall i: nat :: i < |s.streams| ==> StreamOK(s.streams[i], DueFor(s.mutex, i), s.version, s.config, s.owed)
  }

  // ----- Every step keeps it -----

  // The streams' own steps: the slot changes only by receiving.
  lemma ReceiveStep(s: State, i: nat)
    requires Enabled(s, Receive(i)) && StreamOK(s.streams[i], DueFor(s.mutex, i), s.version, s.config, s.owed)
    ensures StreamOK(Received(s.streams[i]), DueFor(s.mutex, i), s.version, s.config, s.owed)
  {
    hide DueFor, SnapshotsRise;
  }

  lemma FetchStep(s: State, step: Step, i: nat)
    requires step == ReadPart(i) || step == ReadVersion(i)
    requires Enabled(s, step) && StreamOK(s.streams[i], DueFor(s.mutex, i), s.version, s.config, s.owed)
    ensures StreamOK(After(s.streams[i], s, step), DueFor(s.mutex, i), s.version, s.config, s.owed)
  {
    hide DueFor, SnapshotsRise, Rising, AllBelow;
  }

  lemma SendStep(s: State, i: nat)
    requires Enabled(s, Send(i)) && StreamOK(s.streams[i], DueFor(s.mutex, i), s.version, s.config, s.owed)
    ensures StreamOK(SentOn(s.streams[i]), DueFor(s.mutex, i), s.version, s.config, s.owed)
  {
    hide DueFor, Rising, AllBelow;
  }

  lemma LeaveStep(s: State, step: Step, i: nat)
    requires step == Leave(i) || step == Unsubscribe(i)
    requires Enabled(s, step) && StreamOK(s.streams[i], DueFor(s.mutex, i), s.version, s.config, s.owed)
    ensures StreamOK(After(s.streams[i], s, step), DueFor(s.mutex, i), s.version, s.config, s.owed)
  {
    hide SnapshotsRise, Rising, AllBelow;
  }

  // Notify's steps on a stream.
  lemma NotifyStep(s: State, step: Step, i: nat)
    requires LockOK(s.mutex, |s.streams|) && (step.Offer? || step.Drain? || step.Resend?)
    requires Enabled(s, step) && Actor(s, step) == Some(i)
    requires StreamOK(s.streams[i], DueFor(s.mutex, i), s.version, s.config, s.owed)
    ensures StreamOK(After(s.streams[i], s, step), DueFor(LockAfter(s, step), i), s.version, s.config, s.owed)
  {
    hide SentOK, ContentsOK, Rising;
    NotifyKeepsSent(s.streams[i], s, step);
  }

  lemma NotifyKeepsSent(w: Stream, s: State, step: Step)
    requires step.Offer? || step.Drain? || step.Resend?
    ensures SentOK(w, s.version) <==> SentOK(After(w, s, step), s.version)
    ensures ContentsOK(w, s.version, s.config, s.owed) <==> ContentsOK(After(w, s, step), s.version, s.config, s.owed)
  {
  }

  // The step of a stream itself, or of Notify on it.
  lemma ActorStep(s: State, step: Step, i: nat)
    requires Inv(s) && Enabled(s, step) && Actor(s, step) == Some(i)
    ensures i < |s.streams|
    ensures StreamOK(After(s.streams[i], s, step), DueFor(LockAfter(s, step), i), s.version, s.config, s.owed)
  {
    assert StreamOK(s.streams[i], DueFor(s.mutex, i), s.version, s.config, s.owed);
    hide StreamOK, DueFor, Received, SentOn, Fetched, Fill;
    match step {
      case Receive(_) => ReceiveStep(s, i);
      case ReadPart(_) => FetchStep(s, step, i);
      case ReadVersion(_) => FetchStep(s, step, i);
      case Send(_) => SendStep(s, i);
      case Leave(_) => LeaveStep(s, step, i);
      case Unsubscribe(_) => LeaveStep(s, step, i);
      case _ => NotifyStep(s, step, i);
    }
  }

  // A step on something else.
  lemma BystanderStep(s: State, step: Step, i: nat)
    requires Inv(s) && Enabled(s, step) && Actor(s, step) != Some(i) && i < |s.streams|
    ensures StreamOK(s.streams[i], DueFor(LockAfter(s, step), i), Apply(s, step).version, Apply(s, step).config,
        Apply(s, step).owed)
  {
    assert StreamOK(s.streams[i], DueFor(s.mutex, i), s.version, s.config, s.owed);
  }

  lemma StepKeepsInv(s: State, step: Step)
    requires Inv(s) && Enabled(s, step)
    ensures Inv(Apply(s, step))
  {
    var s' := Apply(s, step);
    forall i: nat | i < |s'.streams| ensures StreamOK(s'.streams[i], DueFor(s'.mutex, i), s'.version, s'.config,
        s'.owed) {
      if Actor(s, step) == Some(i) { ActorStep(s, step, i); }
      else if i < |s.streams| { BystanderStep(s, step, i); }
    }
  }

  lemma {:induction false} RunKeepsInv(s: State, steps: seq<Step>, s': State)
    requires Inv(s) && Runs(s, steps, s')
    ensures Inv(s')
    decreases steps
  {
    if steps != [] {
      StepKeepsInv(s, steps[0]);
      RunKeepsInv(Apply(s, steps[0]), steps[1..], s');
    }
  }

  lemma ReachableInv(s: State)
    requires Reachable(s)
    ensures Inv(s)
  {
    var config, steps :| |config| == PARTS && Runs(Initial(config), steps, s);
    RunKeepsInv(Initial(config), steps, s);
  }

  // ----- What a stream can rely on -----

  lemma VersionsRise(s: State, i: nat)
    requires Reachable(s) && i < |s.streams|
    ensures Rising(s.streams[i].delivered) && SnapshotsRise(s.streams[i].sent)
  {
    ReachableInv(s);
    assert StreamOK(s.streams[i], DueFor(s.mutex, i), s.version, s.config, s.owed);
  }

  lemma FreeLockMeansCurrentSlots(s: State, i: nat)
    requires Reachable(s) && s.mutex.Free? && i < |s.streams| && s.streams[i].subscribed && s.streams[i].slot.Some?
    ensures s.streams[i].slot == Some(s.version)
  {
    ReachableInv(s);
    assert StreamOK(s.streams[i], DueFor(s.mutex, i), s.version, s.config, s.owed);
  }

  // Stamping a snapshot with the received version never changes it: the version was read later.
  lemma StampNeverActs(s: State, i: nat)
    requires Reachable(s) && Enabled(s, ReadVersion(i))
    ensures Apply(s, ReadVersion(i)).streams[i].position == Sending(Snapshot(s.version, s.streams[i].position.read))
  {
    ReachableInv(s);
    assert StreamOK(s.streams[i], DueFor(s.mutex, i), s.version, s.config, s.owed);
  }

  ghost predicate Quiescent(s: State, i: nat) {
    s.mutex.Free? && i < |s.streams| && s.streams[i].position.Waiting? && s.streams[i].slot.None?
  }

  // Nothing under way and nothing to receive: the last snapshot sent has the notifier's version.
  lemma QuiescentIsCurrent(s: State, i: nat)
    requires Reachable(s) && Quiescent(s, i)
    ensures var w := s.streams[i]; w.sent != [] && w.sent[|w.sent| - 1].version == w.last == s.version
  {
    ReachableInv(s);
    assert StreamOK(s.streams[i], DueFor(s.mutex, i), s.version, s.config, s.owed);
  }

  // Once no writer owes a Notify, the store is as it was when that version was read.
  lemma QuiescentContents(s: State, i: nat)
    requires Reachable(s) && Quiescent(s, i) && s.owed == 0
    ensures s.streams[i].sent != [] && s.streams[i].atVersion == s.config
  {
    QuiescentIsCurrent(s, i);
    ReachableInv(s);
    assert StreamOK(s.streams[i], DueFor(s.mutex, i), s.version, s.config, s.owed);
  }

  // ----- Runs of one stream -----

  function WithRead(s: State, i: nat, read: Config): State
    requires i < |s.streams| && s.streams[i].position.Fetching?
  {
    s.(streams := s.streams[i := s.streams[i].(position := Fetching(s.streams[i].position.wanted, read))])
  }

  lemma ReadOne(s: State, i: nat)
    requires i < |s.streams| && s.streams[i].position.Fetching? && |s.streams[i].position.read| < |s.config|
    ensures var read := s.streams[i].position.read;
            Enabled(s, ReadPart(i)) && Apply(s, ReadPart(i)) == WithRead(s, i, read + [s.config[|read|]])
  {
  }

  lemma ReadTwice(s: State, i: nat, a: Config, b: Config)
    requires i < |s.streams| && s.streams[i].position.Fetching?
    ensures var s' := WithRead(s, i, a);
            && s'.config == s.config && |s'.streams| == |s.streams| && s'.streams[i].position.Fetching?
            && s'.streams[i].position.read == a && WithRead(s', i, b) == WithRead(s, i, b)
  {
  }

  // The remaining parts, read one after the other with nothing in between.
  lemma {:induction false} ReadRun(s: State, i: nat) returns (steps: seq<Step>)
    requires i < |s.streams| && s.streams[i].position.Fetching? && |s.streams[i].position.read| <= |s.config|
    ensures var read := s.streams[i].position.read;
            |steps| == |s.config| - |read| && Runs(s, steps, WithRead(s, i, read + s.config[|read|..]))
    ensures forall k :: 0 <= k < |steps| ==> steps[k] == ReadPart(i)
    decreases |s.config| - |s.streams[i].position.read|
  {
    var read := s.streams[i].position.read;
    if |read| == |s.config| {
      assert read + s.config[|read|..] == read && WithRead(s, i, read) == s;
      steps := [];
    } else {
      hide *;
      var more, whole := read + [s.config[|read|]], read + s.config[|read|..];
      ReadOne(s, i);
      ReadTwice(s, i, more, whole);
      var rest := ReadRun(WithRead(s, i, more), i);
      assert more + s.config[|more|..] == whole;
      steps := [ReadPart(i)] + rest;
      RunsFrom(s, ReadPart(i), rest, WithRead(s, i, whole));
    }
  }

  lemma {:induction false} ReachableRun(s: State, steps: seq<Step>, s': State)
    requires Reachable(s) && Runs(s, steps, s')
    ensures Reachable(s')
    decreases steps
  {
    hide Reachable, Enabled, Apply;
    if steps != [] {
      ReachableOn(s, steps[0]);
      ReachableRun(Apply(s, steps[0]), steps[1..], s');
    }
  }

  // ----- A torn snapshot -----

  const OLD: Config := [0, 0, 0, 0, 0]
  const NEW: Config := [1, 0, 0, 0, 0]

  lemma JustSubscribed() returns (s: State)
    ensures Reachable(s) && s == State(1, OLD, 0, Free, [NewStream()])
  {
    s := Initial(OLD);
    assert Runs(s, [], s) && Reachable(s);
    hide Runs, Reachable;
    ReachableOn(s, Subscribe);
    s := Apply(s, Subscribe);
  }

  lemma PartsFetched() returns (s: State)
    ensures Reachable(s) && s == State(1, OLD, 0, Free, [NewStream().(position := Fetching(0, OLD))])
  {
    hide Runs, Reachable, Apply, Enabled;
    var s0 := JustSubscribed();
    var steps := ReadRun(s0, 0);
    assert [] + OLD[0..] == OLD;
    s := WithRead(s0, 0, OLD);
    ReachableRun(s0, steps, s);
  }

  lemma FetchedThenWritten() returns (s: State)
    ensures Reachable(s) && s == State(1, NEW, 1, Free, [NewStream().(position := Fetching(0, OLD))])
  {
    hide Runs, Reachable;
    s := PartsFetched();
    ReachableOn(s, Write(0, 1));
    s := Apply(s, Write(0, 1));
    assert OLD[0 := 1] == NEW;
  }

  lemma ThenNotified() returns (s: State)
    ensures Reachable(s)
    ensures s == State(2, NEW, 0, Free, [NewStream().(slot := Some(2), position := Fetching(0, OLD))])
  {
    hide Runs, Reachable;
    s := FetchedThenWritten();
    assert Subscribed(s) == {0};
    ReachableOn(s, Begin(true));
    s := Apply(s, Begin(true));
    ReachableOn(s, Offer(0));
    s := Apply(s, Offer(0));
    ReachableOn(s, End);
    s := Apply(s, End);
  }

  // A write and its Notify between the reads: the stream rests on old contents for good.
  lemma TornSnapshotIsKept() returns (s: State)
    ensures Reachable(s) && Quiescent(s, 0) && s.owed == 0
    ensures s.streams[0].sent == [Snapshot(s.version, OLD)] && s.config == NEW != OLD
  {
    hide Runs, Reachable;
    s := ThenNotified();
    ReachableOn(s, ReadVersion(0));
    s := Apply(s, ReadVersion(0));
    ReachableOn(s, Send(0));
    s := Apply(s, Send(0));
    ReachableOn(s, Receive(0));
    s := Apply(s, Receive(0));
    assert OLD[0] != NEW[0];
  }

  // ----- Catching up -----

  predicate OwnStep(step: Step, i: nat) {
    step in {Receive(i), ReadPart(i), ReadVersion(i), Send(i)}
  }

  lemma FinishRun(s: State, i: nat) returns (s': State)
    requires s.mutex.Free? && i < |s.streams| && s.streams[i].position.Fetching?
    requires |s.streams[i].position.read| >= |s.config|
    ensures Runs(s, [ReadVersion(i), Send(i)], s') && s'.version == s.version && s'.mutex == s.mutex
    ensures |s'.streams| == |s.streams| && s'.streams[i].position.Waiting? && s'.streams[i].slot == s.streams[i].slot
  {
    var s1 := Apply(s, ReadVersion(i));
    s' := Apply(s1, Send(i));
    assert Runs(s', [], s');
    assert [ReadVersion(i), Send(i)][1..] == [Send(i)] && [Send(i)][1..] == [] && Runs(s1, [Send(i)], s');
  }

  lemma {:induction false} RunsConcat(s: State, a: seq<Step>, s1: State, b: seq<Step>, s2: State)
    requires Runs(s, a, s1) && Runs(s1, b, s2)
    ensures Runs(s, a + b, s2)
    decreases a
  {
    hide Enabled, Apply;
    if a == [] {
      assert a + b == b;
    } else {
      RunsConcat(Apply(s, a[0]), a[1..], s1, b, s2);
      assert (a + b)[1..] == a[1..] + b;
    }
  }

  lemma FetchRun(s: State, i: nat) returns (steps: seq<Step>, s': State)
    requires s.mutex.Free? && i < |s.streams| && s.streams[i].position.Fetching? && s.streams[i].position.read == []
    ensures |steps| == |s.config| + 2 && forall k :: 0 <= k < |steps| ==> OwnStep(steps[k], i)
    ensures Runs(s, steps, s') && s'.version == s.version && s'.mutex == s.mutex && |s'.streams| == |s.streams|
    ensures s'.streams[i].position.Waiting? && s'.streams[i].slot == s.streams[i].slot
  {
    hide Runs, Apply;
    var fetch := ReadRun(s, i);
    var s1 := WithRead(s, i, [] + s.config[0..]);
    s' := FinishRun(s1, i);
    RunsConcat(s, fetch, s1, [ReadVersion(i), Send(i)], s');
    steps := fetch + [ReadVersion(i), Send(i)];
  }

  // A waiting stream with an update in its slot catches up on its own: it receives, and if need be reads the
  // parts and the version and sends.
  lemma CatchesUp(s: State, i: nat) returns (steps: seq<Step>, s': State)
    requires Reachable(s) && s.mutex.Free? && i < |s.streams| && s.streams[i].position.Waiting?
    ensures |steps| <= PARTS + 3 && forall k :: 0 <= k < |steps| ==> OwnStep(steps[k], i)
    ensures Runs(s, steps, s') && s'.version == s.version && Quiescent(s', i)
  {
    ReachableInv(s);
    if s.streams[i].slot.None? { return [], s; }
    var s1 := Apply(s, Receive(i));
    hide Reachable, Inv, StreamOK, Runs;
    steps, s' := [], s1;
    NoSteps(s1);
    if s1.streams[i].position.Fetching? { steps, s' := FetchRun(s1, i); }
    RunsFrom(s, Receive(i), steps, s');
    steps := [Receive(i)] + steps;
  }
}
