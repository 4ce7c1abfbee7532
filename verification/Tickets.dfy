/** Tickets: what the stores check, and the in-memory store that checks and consumes under a mutex. */
module Tickets {
  import opened Text

  datatype Ticket = Ticket(
    value: string, clientID: string, scene: string, route: string, requestNonce: string,
    ipHash: string, userAgentHash: string, accountIDHash: string, deviceIDHash: string,
    consumed: bool, expiresAt: int, createdAt: int, consumedAt: Option<int>)

  // The context a ticket is presented in.
  datatype TicketUse = TicketUse(
    value: string, clientID: string, scene: string, route: string, requestNonce: string,
    ipHash: string, userAgentHash: string, accountIDHash: string, deviceIDHash: string)

  datatype StoreError = NotFound | Expired | Consumed

  datatype Outcome = Accepted(ticket: Ticket) | Rejected(error: StoreError)

  // An empty binding constrains nothing.
  predicate Binds(bound: string, presented: string) {
    bound == "" || bound == presented
  }

  predicate Matches(t: Ticket, use: TicketUse) {
    && t.clientID == use.clientID && t.scene == use.scene
    && Binds(t.route, use.route) && Binds(t.requestNonce, use.requestNonce)
    && Binds(t.ipHash, use.ipHash) && Binds(t.userAgentHash, use.userAgentHash)
    && Binds(t.accountIDHash, use.accountIDHash) && Binds(t.deviceIDHash, use.deviceIDHash)
  }

  // validateTicket: expiry first, then consumption, then the bindings.
  function ValidateTicket(t: Ticket, use: TicketUse, now: int): Option<StoreError> {
    if now > t.expiresAt then Some(Expired)
    else if t.consumed then Some(Consumed)
    else if !Matches(t, use) then Some(NotFound)
    else None
  }

  function Consume(t: Ticket, now: int): Ticket {
    t.(consumed := true, consumedAt := Some(now))
  }

  // The atomic check-and-consume, on the store as a value.
  function Verify(tickets: map<string, Ticket>, use: TicketUse, consume: bool,
                  now: int): (map<string, Ticket>, Outcome) {
    if use.value !in tickets then (tickets, Rejected(NotFound))
    else
      var t := tickets[use.value];
      var error := ValidateTicket(t, use, now);
      if error.Some? then (tickets, Rejected(error.value))
      else if consume then (tickets[use.value := Consume(t, now)], Accepted(Consume(t, now)))
      else (tickets, Accepted(t))
  }

  // ----- When a ticket is accepted, field by field -----

  predicate Redeemable(t: Ticket, use: TicketUse, now: int) {
    && !t.consumed && now <= t.expiresAt && t.clientID == use.clientID && t.scene == use.scene
    && (t.route == "" || t.route == use.route) && (t.requestNonce == "" || t.requestNonce == use.requestNonce)
    && (t.ipHash == "" || t.ipHash == use.ipHash) && (t.userAgentHash == "" || t.userAgentHash == use.userAgentHash)
    && (t.accountIDHash == "" || t.accountIDHash == use.accountIDHash)
    && (t.deviceIDHash == "" || t.deviceIDHash == use.deviceIDHash)
  }

  // Accepted exactly when stored and redeemable, and consumed then if asked; refused for the first reason
  // there is, with nothing changed.
  lemma AcceptsExactly(tickets: map<string, Ticket>, use: TicketUse, consume: bool, now: int)
    ensures var (tickets', outcome) := Verify(tickets, use, consume, now);
            && (outcome.Accepted? <==> use.value in tickets && Redeemable(tickets[use.value], use, now))
            && (outcome.Accepted? ==>
                  && outcome.ticket == (if consume then tickets[use.value].(consumed := true, consumedAt := Some(now))
                                        else tickets[use.value])
                  && tickets' == if consume then tickets[use.value := outcome.ticket] else tickets)
            && (outcome.Rejected? ==>
                  && tickets' == tickets
                  && (outcome.error == Expired <==> use.value in tickets && now > tickets[use.value].expiresAt)
                  && (outcome.error == Consumed <==>
                        use.value in tickets && now <= tickets[use.value].expiresAt && tickets[use.value].consumed))
  {
  }

  // The two contexts differ in the client, the scene, or one thing the ticket is bound to, and nothing else.
  predicate OneBindingOff(t: Ticket, use: TicketUse, use': TicketUse) {
    || (use'.clientID != use.clientID && use' == use.(clientID := use'.clientID))
    || (use'.scene != use.scene && use' == use.(scene := use'.scene))
    || (t.route != "" && use'.route != use.route && use' == use.(route := use'.route))
    || (t.requestNonce != "" && use'.requestNonce != use.requestNonce
        && use' == use.(requestNonce := use'.requestNonce))
    || (t.ipHash != "" && use'.ipHash != use.ipHash && use' == use.(ipHash := use'.ipHash))
    || (t.userAgentHash != "" && use'.userAgentHash != use.userAgentHash
        && use' == use.(userAgentHash := use'.userAgentHash))
    || (t.accountIDHash != "" && use'.accountIDHash != use.accountIDHash
        && use' == use.(accountIDHash := use'.accountIDHash))
    || (t.deviceIDHash != "" && use'.deviceIDHash != use.deviceIDHash
        && use' == use.(deviceIDHash := use'.deviceIDHash))
  }

  // An accepted ticket is not found from any such neighbouring context.
  lemma NeighbourIsRefused(tickets: map<string, Ticket>, use: TicketUse, use': TicketUse, consume: bool, now: int)
    requires Verify(tickets, use, consume, now).1.Accepted? && OneBindingOff(tickets[use.value], use, use')
    ensures Verify(tickets, use', consume, now) == (tickets, Rejected(NotFound))
  {
  }

  class MemoryTickets {
    var tickets: map<string, Ticket>

    constructor ()
      ensures tickets == map[]
    {
      tickets := map[];
    }

    method VerifyTicket(use: TicketUse, consume: bool, now: int) returns (outcome: Outcome)
      modifies this
      ensures (tickets, outcome) == Verify(old(tickets), use, consume, now)
      ensures outcome.Accepted? <==> use.value in old(tickets) && Redeemable(old(tickets)[use.value], use, now)
    {
      if use.value !in tickets { return Rejected(NotFound); }
      var ticket := tickets[use.value];
      if now > ticket.expiresAt { return Rejected(Expired); }
      if ticket.consumed { return Rejected(Consumed); }
      if ticket.clientID != use.clientID || ticket.scene != use.scene { return Rejected(NotFound); }
      if ticket.route != "" && ticket.route != use.route { return Rejected(NotFound); }
      if ticket.requestNonce != "" && ticket.requestNonce != use.requestNonce { return Rejected(NotFound); }
      if ticket.ipHash != "" && ticket.ipHash != use.ipHash { return Rejected(NotFound); }
      if ticket.userAgentHash != "" && ticket.userAgentHash != use.userAgentHash { return Rejected(NotFound); }
      if ticket.accountIDHash != "" && ticket.accountIDHash != use.accountIDHash { return Rejected(NotFound); }
      if ticket.deviceIDHash != "" && ticket.deviceIDHash != use.deviceIDHash { return Rejected(NotFound); }
      if consume {
        ticket := ticket.(consumed := true, consumedAt := Some(now));
        tickets := tickets[use.value := ticket];
      }
      return Accepted(ticket);
    }
  }
}
