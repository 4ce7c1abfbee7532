/** Ticket consumption on Redis: any number of clients interleave WATCH, GET with validation, and EXEC
    on shared keys, while keys with a time to live may be evicted.  The machine carries the ledger an
    atomic in-memory store would hold, and the answers given so far. */
module RedisTickets {
  import opened Text
  import opened Tickets

  datatype Client =
    | Idle
    | Watching(use: TicketUse, watched: nat)                            // WATCH done
    | Ready(use: TicketUse, watched: nat, ticket: Ticket, readAt: int)  // GET done, ticket validated

  // An answer: what was asked, the clock reading it was validated with, and the outcome.
  datatype Answer = Answer(use: TicketUse, consume: bool, now: int, outcome: Outcome)

  datatype State = State(
    keys: map<string, Ticket>,      // what Redis holds
    versions: map<string, nat>,     // how often each key was modified, absent meaning never
    evictionAborts: bool,           // whether this server's evictions abort watching transactions
    clients: map<nat, Client>,
    clock: int,
    ledger: map<string, Ticket>,    // every ticket ever put, as last written
    answers: seq<Answer>)

  datatype Step =
    | Put(ticket: Ticket)
    | Tick(now: int)
    | Evict(value: string)
    | Watch(client: nat, use: TicketUse)
    | Read(client: nat)
    | Exec(client: nat)
    | Peek(use: TicketUse)

  function Version(s: State, value: string): nat {
    if value in s.versions then s.versions[value] else 0
  }

  function ClientOf(s: State, client: nat): Client {
    if client in s.clients then s.clients[client] else Idle
  }

  predicate Enabled(s: State, step: Step) {
    match step
    case Put(t) =>
      // A new ticket has a fresh value nobody presents yet.
      && t.value !in s.ledger && !t.consumed && t.consumedAt.None?
      && forall c :: c in s.clients && !s.clients[c].Idle? ==> s.clients[c].use.value != t.value
    case Tick(now) => now >= s.clock
    case Evict(value) => value in s.keys && s.clock > s.keys[value].expiresAt
    case Watch(client, _) => ClientOf(s, client).Idle?
    case Read(client) => ClientOf(s, client).Watching?
    case Exec(client) => ClientOf(s, client).Ready?
    case Peek(_) => true
  }

  function Finish(s: State, client: nat, answer: Answer): State {
    s.(clients := s.clients[client := Idle], answers := s.answers + [answer])
  }

  function PutStep(s: State, t: Ticket): State
    requires Enabled(s, Put(t))
  {
    s.(keys := s.keys[t.value := t], versions := s.versions[t.value := Version(s, t.value) + 1],
       ledger := s.ledger[t.value := t])
  }

  function EvictStep(s: State, value: string): State
    requires Enabled(s, Evict(value))
  {
    var gone := s.(keys := map v | v in s.keys && v != value :: s.keys[v]);
    if s.evictionAborts then gone.(versions := s.versions[value := Version(s, value) + 1]) else gone
  }

  // The clock is read after the GET, to validate; a refused ticket ends the transaction.
  function ReadStep(s: State, client: nat): State
    requires Enabled(s, Read(client))
  {
    var c := ClientOf(s, client);
    if c.use.value !in s.keys then Finish(s, client, Answer(c.use, true, s.clock, Rejected(NotFound)))
    else
      var t := s.keys[c.use.value];
      var error := ValidateTicket(t, c.use, s.clock);
      if error.Some? then Finish(s, client, Answer(c.use, true, s.clock, Rejected(error.value)))
      else s.(clients := s.clients[client := Ready(c.use, c.watched, t, s.clock)])
  }

  // EXEC fails when the watched key has been modified; redis.TxFailedErr is reported as Consumed.
  function ExecStep(s: State, client: nat): State
    requires Enabled(s, Exec(client))
  {
    var c := ClientOf(s, client);
    if Version(s, c.use.value) != c.watched then
      Finish(s, client, Answer(c.use, true, c.readAt, Rejected(Consumed)))
    else
      var t := Consume(c.ticket, c.readAt);
      Finish(s.(keys := s.keys[c.use.value := t], versions := s.versions[c.use.value := c.watched + 1],
                ledger := s.ledger[c.use.value := t]),
             client, Answer(c.use, true, c.readAt, Accepted(t)))
  }

  function PeekStep(s: State, use: TicketUse): State {
    s.(answers := s.answers + [Answer(use, false, s.clock, Verify(s.keys, use, false, s.clock).1)])
  }

  function Apply(s: State, step: Step): State
    requires Enabled(s, step)
  {
    match step
    case Put(t) => PutStep(s, t)
    case Tick(now) => s.(clock := now)
    case Evict(value) => EvictStep(s, value)
    case Watch(client, use) => s.(clients := s.clients[client := Watching(use, Version(s, use.value))])
    case Read(client) => ReadStep(s, client)
    case Exec(client) => ExecStep(s, client)
    case Peek(use) => PeekStep(s, use)
  }

  function Initial(evictionAborts: bool, clock: int): State {
    State(map[], map[], evictionAborts, map[], clock, map[], [])
  }

  // ----- Runs -----

  ghost predicate Runs(s: State, steps: seq<Step>, s': State)
    decreases steps
  {
    if steps == [] then s == s'
    else Enabled(s, steps[0]) && Runs(Apply(s, steps[0]), steps[1..], s')
  }

  ghost predicate Reachable(s: State) {
    exists evictionAborts, clock, steps :: Runs(Initial(evictionAborts, clock), steps, s)
  }

  lemma {:induction false} RunsOn(s: State, steps: seq<Step>, s': State, step: Step)
    requires Runs(s, steps, s') && Enabled(s', step)
    ensures Runs(s, steps + [step], Apply(s', step))
    decreases steps
  {
    if steps == [] {
      assert Runs(Apply(s, step), [], Apply(s, step));
      assert ([] + [step])[1..] == [];
    } else {
      RunsOn(Apply(s, steps[0]), steps[1..], s', step);
      assert (steps + [step])[1..] == steps[1..] + [step];
    }
  }

  lemma Next(s: State, step: Step) returns (s': State)
    requires Reachable(s) && Enabled(s, step)
    ensures s' == Apply(s, step) && Reachable(s')
  {
    var evictionAborts, clock, steps :| Runs(Initial(evictionAborts, clock), steps, s);
    RunsOn(Initial(evictionAborts, clock), steps, s, step);
    s' := Apply(s, step);
  }

  // ----- The invariant -----

  // Redis holds what the ledger says, or the key has outlived its ticket.
  ghost predicate KeysInv(s: State) {
    && (forall v :: v in s.keys ==> v in s.ledger && s.keys[v] == s.ledger[v])
    && (forall v :: v in s.ledger && v !in s.keys ==> s.clock > s.ledger[v].expiresAt)
  }

  ghost predicate ClientInv(s: State, c: Client) {
    match c
    case Idle => true
    case Watching(use, watched) =>
      watched <= Version(s, use.value) && (use.value in s.keys ==> Stale(s, use.value, watched))
    case Ready(use, watched, t, readAt) =>
      && watched <= Version(s, use.value) && readAt <= s.clock
      && ValidateTicket(t, use, readAt).None?
      && use.value in s.ledger && s.ledger[use.value].expiresAt == t.expiresAt
      && (watched == Version(s, use.value) ==> s.ledger[use.value] == t)
      && (watched == Version(s, use.value) && s.evictionAborts ==> use.value in s.keys)
      && (watched < Version(s, use.value) ==> (!s.ledger[use.value].consumed <==> OnlyEvicted(s, use.value, watched)))
  }

  // The one change of the key since it was watched is its eviction.
  predicate OnlyEvicted(s: State, value: string, watched: nat) {
    s.evictionAborts && value !in s.keys && Version(s, value) == watched + 1
  }

  // The key changed since it was watched only if the ticket has been consumed.
  ghost predicate Stale(s: State, value: string, watched: nat) {
    value in s.ledger && (watched < Version(s, value) ==> s.ledger[value].consumed)
  }

  ghost predicate AnswersInv(ledger: map<string, Ticket>, answers: seq<Answer>) {
    && (forall i :: 0 <= i < |answers| && Consumes(answers[i]) ==> Spent(ledger, answers[i].use.value))
    && (forall i, j :: 0 <= i < j < |answers| && Consumes(answers[i]) && Consumes(answers[j]) ==>
          answers[i].use.value != answers[j].use.value)
  }

  ghost predicate Spent(ledger: map<string, Ticket>, value: string) {
    value in ledger && ledger[value].consumed
  }

  predicate Consumes(a: Answer) {
    a.consume && a.outcome.Accepted?
  }

  ghost predicate Inv(s: State) {
    KeysInv(s) && AnswersInv(s.ledger, s.answers) && forall c :: c in s.clients ==> ClientInv(s, s.clients[c])
  }

  // What a client relies on is the entry of its own value.
  lemma ClientInvFrame(s: State, s': State, c: Client)
    requires ClientInv(s, c) && s.clock <= s'.clock && s.evictionAborts == s'.evictionAborts
    requires !c.Idle? ==>
               var v := c.use.value;
               && Version(s, v) == Version(s', v) && (v in s.keys <==> v in s'.keys)
               && (v in s.ledger <==> v in s'.ledger) && (v in s.ledger ==> s.ledger[v] == s'.ledger[v])
    ensures ClientInv(s', c)
  {
  }

  lemma ClientInvEvict(s: State, value: string, c: Client)
    requires KeysInv(s) && Enabled(s, Evict(value)) && ClientInv(s, c)
    ensures ClientInv(Apply(s, Evict(value)), c)
  {
    if c.Idle? || c.use.value != value { ClientInvFrame(s, Apply(s, Evict(value)), c); }
  }

  lemma ClientInvPut(s: State, t: Ticket, c: nat)
    requires Enabled(s, Put(t)) && c in s.clients && ClientInv(s, s.clients[c])
    ensures ClientInv(PutStep(s, t), s.clients[c])
  {
    ClientInvFrame(s, PutStep(s, t), s.clients[c]);
  }

  lemma ClientInvExec(s: State, client: nat, c: Client)
    requires Enabled(s, Exec(client)) && ClientInv(s, c) && ClientInv(s, ClientOf(s, client))
    ensures ClientInv(Apply(s, Exec(client)), c)
  {
    var e := ClientOf(s, client);
    if Version(s, e.use.value) != e.watched || c.Idle? || c.use.value != e.use.value {
      ClientInvFrame(s, Apply(s, Exec(client)), c);
    }
  }

  lemma ClientInvKept(s: State, step: Step, c: nat)
    requires Inv(s) && Enabled(s, step) && c in s.clients
    ensures ClientInv(Apply(s, step), s.clients[c])
  {
    hide ClientInv, AnswersInv, KeysInv;
    assert ClientInv(s, s.clients[c]);
    match step {
      case Evict(value) => ClientInvEvict(s, value, s.clients[c]);
      case Exec(client) =>
        assert ClientInv(s, s.clients[client]);
        ClientInvExec(s, client, s.clients[c]);
      case Put(t) => ClientInvPut(s, t, c);
      case _ =>
        var s' := Apply(s, step);
        assert s'.keys == s.keys && s'.versions == s.versions && s'.ledger == s.ledger;
        ClientInvFrame(s, s', s.clients[c]);
    }
  }

  lemma SteppingClientInv(s: State, step: Step, client: nat)
    requires Inv(s) && Enabled(s, step)
    requires (step.Watch? || step.Read? || step.Exec?) && step.client == client
    ensures client in Apply(s, step).clients && ClientInv(Apply(s, step), Apply(s, step).clients[client])
  {
    if step.Read? { assert ClientInv(s, s.clients[client]); }
  }

  lemma KeysInvExec(s: State, client: nat)
    requires KeysInv(s) && Enabled(s, Exec(client)) && ClientInv(s, ClientOf(s, client))
    ensures KeysInv(ExecStep(s, client))
  {
    hide ValidateTicket, OnlyEvicted;
  }

  lemma KeysInvPut(s: State, t: Ticket)
    requires KeysInv(s) && Enabled(s, Put(t))
    ensures KeysInv(PutStep(s, t))
  {
  }

  lemma KeysInvEvict(s: State, value: string)
    requires KeysInv(s) && Enabled(s, Evict(value))
    ensures KeysInv(EvictStep(s, value))
  {
  }

  // Every other step leaves keys and ledger alone.
  lemma KeysInvSame(s: State, s': State)
    requires KeysInv(s) && s'.keys == s.keys && s'.ledger == s.ledger && s'.clock >= s.clock
    ensures KeysInv(s')
  {
  }

  lemma KeysInvKept(s: State, step: Step)
    requires Inv(s) && Enabled(s, step)
    ensures KeysInv(Apply(s, step))
  {
    if step.Exec? { assert ClientInv(s, s.clients[step.client]); }
    hide KeysInv, ClientInv, AnswersInv, ExecStep, PutStep, EvictStep, ValidateTicket, Verify;
    match step {
      case Exec(client) => KeysInvExec(s, client);
      case Put(t) => KeysInvPut(s, t);
      case Evict(value) => KeysInvEvict(s, value);
      case _ => KeysInvSame(s, Apply(s, step));
    }
  }

  lemma AnswersInvAppend(ledger: map<string, Ticket>, ledger': map<string, Ticket>, answers: seq<Answer>, a: Answer)
    requires AnswersInv(ledger, answers)
    requires forall v :: Spent(ledger, v) ==> Spent(ledger', v)
    requires Consumes(a) ==> Spent(ledger', a.use.value) && !Spent(ledger, a.use.value)
    ensures AnswersInv(ledger', answers + [a])
  {
  }

  // A client that may still commit holds an unspent ticket.
  lemma CommitIsFirst(s: State, client: nat)
    requires Inv(s) && Enabled(s, Exec(client))
    ensures var c := ClientOf(s, client);
            Version(s, c.use.value) == c.watched ==> !Spent(s.ledger, c.use.value)
  {
    hide KeysInv, AnswersInv;
    assert ClientInv(s, s.clients[client]);
  }

  lemma AnswersInvExec(s: State, client: nat)
    requires AnswersInv(s.ledger, s.answers) && Enabled(s, Exec(client))
    requires var c := ClientOf(s, client); Version(s, c.use.value) == c.watched ==> !Spent(s.ledger, c.use.value)
    ensures AnswersInv(ExecStep(s, client).ledger, ExecStep(s, client).answers)
  {
    hide AnswersInv, Version;
    var s' := ExecStep(s, client);
    AnswersInvAppend(s.ledger, s'.ledger, s.answers, s'.answers[|s.answers|]);
  }

  lemma AnswersInvKept(s: State, step: Step)
    requires Inv(s) && Enabled(s, step)
    ensures AnswersInv(Apply(s, step).ledger, Apply(s, step).answers)
  {
    hide KeysInv, ClientInv, ExecStep, Version;
    var s' := Apply(s, step);
    if step.Exec? {
      CommitIsFirst(s, step.client);
      AnswersInvExec(s, step.client);
    } else if step.Read? || step.Peek? {
      assert s'.ledger == s.ledger;
      if s'.answers != s.answers {
        AnswersInvAppend(s.ledger, s.ledger, s.answers, s'.answers[|s.answers|]);
      }
    }
  }

  lemma InvKept(s: State, step: Step)
    requires Inv(s) && Enabled(s, step)
    ensures Inv(Apply(s, step))
  {
    hide ClientInv, AnswersInv, KeysInv;
    var s' := Apply(s, step);
    KeysInvKept(s, step);
    AnswersInvKept(s, step);
    forall c | c in s'.clients ensures ClientInv(s', s'.clients[c]) {
      if (step.Watch? || step.Read? || step.Exec?) && step.client == c {
        SteppingClientInv(s, step, c);
      } else {
        ClientInvKept(s, step, c);
      }
    }
  }

  lemma {:induction false} RunInv(s: State, steps: seq<Step>, s': State)
    requires Inv(s) && Runs(s, steps, s')
    ensures Inv(s')
    decreases steps
  {
    if steps != [] {
      InvKept(s, steps[0]);
      RunInv(Apply(s, steps[0]), steps[1..], s');
    }
  }

  lemma ReachableInv(s: State)
    requires Reachable(s)
    ensures Inv(s)
  {
    var evictionAborts, clock, steps :| Runs(Initial(evictionAborts, clock), steps, s);
    RunInv(Initial(evictionAborts, clock), steps, s);
  }

  // ----- Main results -----

  // Whatever the interleaving, no ticket is consumed twice.
  lemma ConsumedAtMostOnce(s: State, i: nat, j: nat)
    requires Reachable(s) && i < j < |s.answers|
    requires Consumes(s.answers[i]) && Consumes(s.answers[j])
    ensures s.answers[i].use.value != s.answers[j].use.value
  {
    ReachableInv(s);
  }

  // The step meets a key Redis has evicted, with nothing else to answer by.
  predicate MeetsEviction(s: State, step: Step)
    requires Enabled(s, step)
  {
    match step
    case Read(client) => ClientOf(s, client).use.value in s.ledger && ClientOf(s, client).use.value !in s.keys
    case Peek(use) => use.value in s.ledger && use.value !in s.keys
    case Exec(client) => OnlyEvicted(s, ClientOf(s, client).use.value, ClientOf(s, client).watched)
    case _ => false
  }

  // What is answered then, where an atomic store would say Expired.
  ghost predicate AnsweredAfterEviction(s: State, a: Answer) {
    && Verify(s.ledger, a.use, a.consume, s.clock) == (s.ledger, Rejected(Expired))
    && (a.outcome == Rejected(NotFound) || (a.consume && s.evictionAborts && a.outcome == Rejected(Consumed)))
  }

  // Either no answer is given and only a Put changes the ledger, or the answer is that of the atomic
  // VerifyTicket on the ledger with the client's clock reading, which leaves the ledger the same way: this
  // is so exactly when the step does not meet an evicted key.
  ghost predicate Atomic(s: State, step: Step, s': State)
    requires Enabled(s, step)
  {
    if s'.answers == s.answers then
      s'.ledger == if step.Put? then s.ledger[step.ticket.value := step.ticket] else s.ledger
    else
      && |s'.answers| == |s.answers| + 1 && s'.answers[..|s.answers|] == s.answers
      && var a := s'.answers[|s.answers|];
         && ((s'.ledger, a.outcome) == Verify(s.ledger, a.use, a.consume, a.now) <==> !MeetsEviction(s, step))
         && (MeetsEviction(s, step) ==> s'.ledger == s.ledger && AnsweredAfterEviction(s, a))
  }

  lemma ReadIsAtomic(s: State, client: nat)
    requires KeysInv(s) && Enabled(s, Read(client))
    ensures Atomic(s, Read(client), ReadStep(s, client))
  {
  }

  lemma ExecIsAtomic(s: State, client: nat)
    requires KeysInv(s) && Enabled(s, Exec(client)) && ClientInv(s, ClientOf(s, client))
    ensures Atomic(s, Exec(client), ExecStep(s, client))
  {
  }

  lemma RefinesAtomicVerify(s: State, step: Step)
    requires Reachable(s) && Enabled(s, step)
    ensures Atomic(s, step, Apply(s, step))
  {
    ReachableInv(s);
    match step {
      case Read(client) => ReadIsAtomic(s, client);
      case Exec(client) => ExecIsAtomic(s, client);
      case _ =>
    }
  }

  // Whatever the interleaving, an answer accepts exactly a ticket that is on the ledger and redeemable in its
  // context at the client's clock reading, unless the step meets an evicted key.
  lemma AcceptedExactly(s: State, step: Step)
    requires Reachable(s) && Enabled(s, step) && Apply(s, step).answers != s.answers
    ensures |Apply(s, step).answers| == |s.answers| + 1
    ensures var a := Apply(s, step).answers[|s.answers|];
            a.outcome.Accepted? <==>
              !MeetsEviction(s, step) && a.use.value in s.ledger && Redeemable(s.ledger[a.use.value], a.use, a.now)
  {
    RefinesAtomicVerify(s, step);
    hide Apply, MeetsEviction, Reachable, Enabled, Redeemable, Verify;
    var a := Apply(s, step).answers[|s.answers|];
    AcceptsExactly(s.ledger, a.use, a.consume, a.now);
  }

  // An aborted EXEC reports Consumed.  That is the truth if and only if the key's eviction is not the one
  // change of the key since it was watched.
  lemma AbortIsTruthfulExactly(s: State, client: nat)
    requires Reachable(s) && Enabled(s, Exec(client))
    requires Version(s, ClientOf(s, client).use.value) != ClientOf(s, client).watched
    ensures var c := ClientOf(s, client);
            && c.use.value in s.ledger
            && (s.ledger[c.use.value].consumed <==> !OnlyEvicted(s, c.use.value, c.watched))
  {
    ReachableInv(s);
    assert ClientInv(s, s.clients[client]);
  }

  // In particular on a server whose evictions leave transactions alone, while the key is still there, and
  // until the ticket's time to live has passed.
  lemma AbortIsTruthfulUnlessEvicted(s: State, client: nat)
    requires Reachable(s) && Enabled(s, Exec(client))
    requires Version(s, ClientOf(s, client).use.value) != ClientOf(s, client).watched
    ensures var value := ClientOf(s, client).use.value;
            && value in s.ledger
            && (!s.evictionAborts || value in s.keys || s.clock <= s.ledger[value].expiresAt
                ==> s.ledger[value].consumed)
  {
    AbortIsTruthfulExactly(s, client);
    ReachableInv(s);
  }

  // The exception is real: watched, validated, evicted at its time to live, then reported Consumed
  // although nobody ever consumed it.
  lemma AbortAfterEvictionIsUntrue(t: Ticket, use: TicketUse)
    requires !t.consumed && t.consumedAt.None? && use.value == t.value && Matches(t, use)
    ensures exists s ::
              && Reachable(s) && |s.answers| == 1
              && s.answers[0].outcome == Rejected(Consumed)
              && t.value in s.ledger && !s.ledger[t.value].consumed
  {
    var late := t.expiresAt + 1;
    var s3 := ReadyToConsume(t, use);
    var s4 := Next(s3, Tick(late));
    var s5 := Next(s4, Evict(t.value));
    assert s5 == s3.(clock := late, keys := map[], versions := map[t.value := 2]);
    var s6 := Next(s5, Exec(0));
    assert s6.answers == [Answer(use, true, t.expiresAt, Rejected(Consumed))];
  }

  lemma ReadyToConsume(t: Ticket, use: TicketUse) returns (s: State)
    requires !t.consumed && t.consumedAt.None? && use.value == t.value && Matches(t, use)
    ensures Reachable(s)
    ensures s == State(map[t.value := t], map[t.value := 1], true, map[0 := Ready(use, 1, t, t.expiresAt)],
                       t.expiresAt, map[t.value := t], [])
  {
    s := Initial(true, t.expiresAt);
    assert Runs(s, [], s) && Reachable(s);
    s := Next(s, Put(t));
    s := Next(s, Watch(0, use));
    assert s.clients == map[0 := Watching(use, 1)];
    s := Next(s, Read(0));
  }
}
