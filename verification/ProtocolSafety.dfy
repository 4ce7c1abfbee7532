/** What every run of the platform keeps: per session, per ticket, per clearance. */
module ProtocolSafety {
  import opened Text
  import opened Tickets
  import opened Protocol

  // ----- Runs -----

  ghost predicate FreshSession(p: Platform, n: NewSession) {
    n.session.id !in p.sessions && n.challenge >= p.history.nextChallenge
  }

  // Time does not go back, and random values and generated challenges are new.
  ghost predicate Fresh(p: Platform, e: Event, now: int) {
    && now >= p.history.clock
    && match e
       case Create(n) => FreshSession(p, n)
       case Show(_) => true
       case VerifySession(_, req) => req.ticketValue.Some? ==> req.ticketValue.value !in p.tickets
       case RefreshSession(_, _, c) => c.Some? ==> c.value >= p.history.nextChallenge
       case EvaluatePolicy(req) =>
         && (req.challenge.Some? ==> FreshSession(p, req.challenge.value))
         && (req.clearanceValue.Some? ==> req.clearanceValue.value !in p.history.minted)
       case VerifyTicket(_, _, _, _, value) => value.Some? ==> value.value !in p.history.minted
  }

  datatype Request = Request(event: Event, now: int)

  ghost predicate Runs(p: Platform, requests: seq<Request>, cfg: Config, p': Platform)
    decreases requests
  {
    if requests == [] then p == p'
    else
      && Fresh(p, requests[0].event, requests[0].now)
      && Runs(Serve(p, requests[0].event, requests[0].now, cfg).0, requests[1..], cfg, p')
  }

  function Initial(clock: int): Platform {
    Platform(map[], map[], map[], History(0, [], map[], {}, map[], [], clock))
  }

  ghost predicate Reachable(p: Platform, cfg: Config) {
    exists clock, requests :: Runs(Initial(clock), requests, cfg, p)
  }

  // ----- Invariants -----

  ghost predicate SessionOK(s: Session) {
    && 0 <= s.failureCount <= MAX_SESSION_FAILURES
    && (s.failureCount == MAX_SESSION_FAILURES ==> s.status == Lapsed)
    && (IsActive(s.status) ==> s.challenge.Some? && s.challenge.value.captchaType == s.captchaType)
  }

  ghost predicate SessionsInv(sessions: map<string, Session>) {
    forall id :: id in sessions ==> sessions[id].id == id && SessionOK(sessions[id])
  }

  // The challenge an active session shows has been attempted only without effect, and is shown by
  // no other session.
  ghost predicate ChallengesInv(sessions: map<string, Session>, attempts: seq<Attempt>, next: nat) {
    && (forall id :: id in sessions && Shows(sessions[id]) ==>
          OpenChallenge(attempts, next, sessions[id].challenge.value.number))
    && (forall id, id' :: id in sessions && id' in sessions && id != id' && Shows(sessions[id]) && Shows(sessions[id'])
                          ==> sessions[id].challenge.value.number != sessions[id'].challenge.value.number)
    && (forall i :: 0 <= i < |attempts| ==> attempts[i].challenge < next)
    && (forall i, j :: 0 <= i < j < |attempts| && attempts[i].challenge == attempts[j].challenge ==>
          attempts[i].result.NotIssued?)
  }

  predicate Shows(s: Session) { IsActive(s.status) && s.challenge.Some? }

  ghost predicate OpenChallenge(attempts: seq<Attempt>, next: nat, number: nat) {
    && number < next
    && forall i :: 0 <= i < |attempts| && attempts[i].challenge == number ==> attempts[i].result.NotIssued?
  }

  // The session a ticket was issued for: closed ever since, and the source of all its bindings.
  ghost predicate IssuedFor(t: Ticket, s: Session) {
    && IsClosed(s.status)
    && t.clientID == s.clientID && t.scene == s.scene && t.requestNonce == s.requestNonce
    && t.ipHash == s.ipHash && t.userAgentHash == s.userAgentHash
    && t.accountIDHash == s.accountIDHash && t.deviceIDHash == s.deviceIDHash
  }

  ghost predicate TicketsInv(sessions: map<string, Session>, tickets: map<string, Ticket>,
                             ticketSession: map<string, string>) {
    && ticketSession.Keys == tickets.Keys
    && (forall v :: v in tickets ==> ticketSession[v] in sessions && IssuedFor(tickets[v], sessions[ticketSession[v]]))
    && (forall v, w :: v in tickets && w in tickets && v != w ==> ticketSession[v] != ticketSession[w])
  }

  // The sessions that became verified are those a ticket was issued for.
  ghost predicate VerifiedInv(ticketSession: map<string, string>, verified: set<string>) {
    verified == ticketSession.Values
  }

  // A clearance carries the client, the scene and every non-empty binding of the ticket that paid
  // for it, at the instant that ticket was consumed.
  ghost predicate PaidBy(c: Clearance, t: Ticket) {
    && t.consumed && t.consumedAt == Some(c.createdAt)
    && c.clientID == t.clientID && c.scene == t.scene
    && Binds(t.ipHash, c.ipHash) && Binds(t.userAgentHash, c.userAgentHash)
    && Binds(t.accountIDHash, c.accountIDHash) && Binds(t.deviceIDHash, c.deviceIDHash)
  }

  ghost predicate ClearancesInv(tickets: map<string, Ticket>, clearances: map<string, Clearance>,
                                minted: map<string, Minting>) {
    && (forall c :: c in clearances ==> c in minted && minted[c].clearance == clearances[c])
    && (forall c :: c in minted ==>
          minted[c].ticket in tickets && PaidBy(minted[c].clearance, tickets[minted[c].ticket]))
    && (forall c, d :: c in minted && d in minted && c != d ==> minted[c].ticket != minted[d].ticket)
  }

  ghost predicate AllowsInv(minted: map<string, Minting>, allows: seq<ClearanceAllow>, clock: int) {
    && (forall c :: c in minted ==> minted[c].clearance.createdAt <= clock)
    && forall i :: 0 <= i < |allows| ==>
         var a := allows[i];
         && a.clearance in minted
         && minted[a.clearance].clearance.createdAt <= a.at <= minted[a.clearance].clearance.expiresAt
  }

  ghost predicate Inv(p: Platform) {
    && SessionsInv(p.sessions)
    && ChallengesInv(p.sessions, p.history.attempts, p.history.nextChallenge)
    && TicketsInv(p.sessions, p.tickets, p.history.ticketSession)
    && VerifiedInv(p.history.ticketSession, p.history.verified)
    && ClearancesInv(p.tickets, p.clearances, p.history.minted)
    && AllowsInv(p.history.minted, p.history.allows, p.history.clock)
  }

  // ----- What each transition keeps -----

  // Replacing a stored session by one that is closed, or by one whose challenge is new or unchanged.
  ghost predicate Replaces(p: Platform, s: Session) {
    && s.id in p.sessions && SessionOK(s)
    && var old_ := p.sessions[s.id];
       && s.clientID == old_.clientID && s.scene == old_.scene && s.requestNonce == old_.requestNonce
       && s.ipHash == old_.ipHash && s.userAgentHash == old_.userAgentHash
       && s.accountIDHash == old_.accountIDHash && s.deviceIDHash == old_.deviceIDHash
       && (IsClosed(old_.status) ==> IsClosed(s.status))
  }

  lemma CloseKeeps(p: Platform, s: Session)
    requires Inv(p) && Replaces(p, s) && !IsActive(s.status)
    ensures Inv(SetSession(p, s))
  {
  }

  lemma RenewKeeps(p: Platform, s: Session, challenge: nat)
    requires Inv(p) && challenge >= p.history.nextChallenge
    requires s.id !in p.sessions || Replaces(p, s)
    requires SessionOK(s) && s.challenge == Some(Challenge(challenge, s.captchaType))
    ensures Inv(PutChallenge(p, s, challenge))
  {
    RenewKeepsChallenges(p, s, challenge);
    RenewKeepsTickets(p, s);
  }

  lemma RenewKeepsChallenges(p: Platform, s: Session, challenge: nat)
    requires ChallengesInv(p.sessions, p.history.attempts, p.history.nextChallenge)
        && challenge >= p.history.nextChallenge
    requires s.challenge == Some(Challenge(challenge, s.captchaType))
    ensures ChallengesInv(p.sessions[s.id := s], p.history.attempts, challenge + 1)
  {
    var h, sessions := p.history, p.sessions[s.id := s];
    forall id | id in sessions && Shows(sessions[id])
      ensures OpenChallenge(h.attempts, challenge + 1, sessions[id].challenge.value.number)
    {
      if id != s.id { assert OpenChallenge(h.attempts, h.nextChallenge, p.sessions[id].challenge.value.number); }
    }
  }

  lemma RenewKeepsTickets(p: Platform, s: Session)
    requires TicketsInv(p.sessions, p.tickets, p.history.ticketSession)
    requires s.id !in p.sessions || Replaces(p, s)
    ensures TicketsInv(p.sessions[s.id := s], p.tickets, p.history.ticketSession)
  {
  }

  lemma FailedSessionOK(s: Session, cfg: Config, decision: Decision)
    requires SessionOK(s) && IsActive(s.status)
    ensures SessionOK(FailedSession(s, cfg, decision)) && !IsActive(FailedSession(s, cfg, decision).status)
  {
  }

  // An attempt that has an effect is the last one on its challenge: the session leaves the active
  // state in the same step.
  lemma AttemptKeeps(p: Platform, s: Session, s': Session, result: AttemptResult)
    requires Inv(p) && s.id in p.sessions && p.sessions[s.id] == s && IsActive(s.status)
    requires Replaces(p, s') && s'.id == s.id && !IsActive(s'.status)
    ensures Inv(SetSession(LogAttempt(p, s, result), s'))
  {
    var p' := SetSession(LogAttempt(p, s, result), s');
    CloseKeeps(p, s');
    AttemptKeepsChallenges(p, s, s', result);
  }

  lemma AttemptKeepsChallenges(p: Platform, s: Session, s': Session, result: AttemptResult)
    requires ChallengesInv(p.sessions, p.history.attempts, p.history.nextChallenge) && s.challenge.Some?
    requires s.id in p.sessions && p.sessions[s.id] == s && IsActive(s.status)
    requires s'.id == s.id && !IsActive(s'.status)
    ensures ChallengesInv(p.sessions[s.id := s'], LogAttempt(p, s, result).history.attempts, p.history.nextChallenge)
  {
    var h, h' := p.history, LogAttempt(p, s, result).history;
    var n := s.challenge.value.number;
    assert OpenChallenge(h.attempts, h.nextChallenge, n);
    var sessions := p.sessions[s.id := s'];
    assert Shows(s);
    forall id | id in sessions && Shows(sessions[id])
      ensures OpenChallenge(h'.attempts, h.nextChallenge, sessions[id].challenge.value.number)
    {
      assert Shows(p.sessions[id]);
      var m := sessions[id].challenge.value.number;
      assert OpenChallenge(h.attempts, h.nextChallenge, m);
    }
  }

  lemma NotIssuedKeeps(p: Platform, s: Session)
    requires Inv(p) && s.id in p.sessions && p.sessions[s.id] == s && IsActive(s.status)
    ensures Inv(LogAttempt(p, s, NotIssued))
  {
    assert Shows(s) && OpenChallenge(p.history.attempts, p.history.nextChallenge, s.challenge.value.number);
    var p' := LogAttempt(p, s, NotIssued);
    forall id | id in p.sessions && Shows(p.sessions[id])
      ensures OpenChallenge(p'.history.attempts, p.history.nextChallenge, p.sessions[id].challenge.value.number)
    {
      assert OpenChallenge(p.history.attempts, p.history.nextChallenge, p.sessions[id].challenge.value.number);
    }
  }

  lemma IssueKeeps(p: Platform, s: Session, t: Ticket)
    requires Inv(p) && s.id in p.sessions && p.sessions[s.id] == s && IsActive(s.status)
    requires t.value !in p.tickets && !t.consumed && IssuedFor(t, s.(status := Verified))
    ensures Inv(IssueTicket(LogAttempt(p, s, Passed), s, t))
  {
    var verified := s.(status := Verified);
    var p1 := SetSession(LogAttempt(p, s, Passed), verified);
    NoTicketYet(p, s);
    hide SessionsInv, ChallengesInv, TicketsInv, ClearancesInv, AllowsInv;
    AttemptKeeps(p, s, verified, Passed);
    hide Inv;
    AddTicketKeeps(p1, t, verified);
    assert IssueTicket(LogAttempt(p, s, Passed), s, t)
           == p1.(tickets := p1.tickets[t.value := t],
                  history := p1.history.(ticketSession := p1.history.ticketSession[t.value := s.id],
                                         verified := p1.history.verified + {s.id}));
  }

  // An active session has had no ticket, and can be closed.
  lemma NoTicketYet(p: Platform, s: Session)
    requires Inv(p) && s.id in p.sessions && p.sessions[s.id] == s && IsActive(s.status)
    ensures p.history.ticketSession.Keys == p.tickets.Keys
    ensures forall v :: v in p.tickets ==> p.history.ticketSession[v] != s.id
    ensures Replaces(p, s.(status := Verified))
  {
    hide ChallengesInv, ClearancesInv, AllowsInv;
    assert SessionOK(s);
  }

  lemma AddTicketKeeps(p: Platform, t: Ticket, s: Session)
    requires Inv(p) && s.id in p.sessions && p.sessions[s.id] == s
    requires t.value !in p.tickets && IssuedFor(t, s)
    requires forall v :: v in p.tickets ==> p.history.ticketSession[v] != s.id
    ensures Inv(p.(tickets := p.tickets[t.value := t],
                   history := p.history.(ticketSession := p.history.ticketSession[t.value := s.id],
                                         verified := p.history.verified + {s.id})))
  {
    AddTicketKeepsVerified(p.history.ticketSession, p.history.verified, t.value, s.id);
    AddTicketKeepsTickets(p.sessions, p.tickets, p.history.ticketSession, t, s);
    AddTicketKeepsClearances(p.tickets, p.clearances, p.history.minted, t);
  }

  lemma AddTicketKeepsVerified(ticketSession: map<string, string>, verified: set<string>, v: string, id: string)
    requires VerifiedInv(ticketSession, verified) && v !in ticketSession
    ensures VerifiedInv(ticketSession[v := id], verified + {id})
  {
    var m := ticketSession[v := id];
    assert v in m && m[v] == id;
    forall x | x in verified ensures x in m.Values {
      var k :| k in ticketSession && ticketSession[k] == x;
      assert k in m && m[k] == x;
    }
  }

  lemma AddTicketKeepsTickets(sessions: map<string, Session>, tickets: map<string, Ticket>,
                              ticketSession: map<string, string>, t: Ticket, s: Session)
    requires TicketsInv(sessions, tickets, ticketSession) && s.id in sessions && sessions[s.id] == s
    requires t.value !in tickets && IssuedFor(t, s)
    requires forall v :: v in tickets ==> ticketSession[v] != s.id
    ensures TicketsInv(sessions, tickets[t.value := t], ticketSession[t.value := s.id])
  {
  }

  lemma AddTicketKeepsClearances(tickets: map<string, Ticket>, clearances: map<string, Clearance>,
                                 minted: map<string, Minting>, t: Ticket)
    requires ClearancesInv(tickets, clearances, minted) && t.value !in tickets
    ensures ClearancesInv(tickets[t.value := t], clearances, minted)
  {
  }

  lemma ConsumeKeeps(p: Platform, value: string, now: int)
    requires Inv(p) && value in p.tickets && !p.tickets[value].consumed
    ensures Inv(ConsumeTicket(p, value, now))
    ensures forall c :: c in p.history.minted ==> p.history.minted[c].ticket != value
  {
    ClearancesInvConsume(p.tickets, p.clearances, p.history.minted, value, now);
    TicketsInvConsume(p, value, now);
    hide SessionsInv, ChallengesInv, TicketsInv, VerifiedInv, ClearancesInv, AllowsInv;
  }

  // An unconsumed ticket has paid for nothing.
  lemma ClearancesInvConsume(tickets: map<string, Ticket>, clearances: map<string, Clearance>,
                             minted: map<string, Minting>,
                             value: string, now: int)
    requires ClearancesInv(tickets, clearances, minted) && value in tickets && !tickets[value].consumed
    ensures ClearancesInv(tickets[value := Consume(tickets[value], now)], clearances, minted)
    ensures forall c :: c in minted ==> minted[c].ticket != value
  {
    assert forall c :: c in minted ==> PaidBy(minted[c].clearance, tickets[minted[c].ticket]);
  }

  lemma TicketsInvConsume(p: Platform, value: string, now: int)
    requires TicketsInv(p.sessions, p.tickets, p.history.ticketSession) && value in p.tickets
    ensures TicketsInv(p.sessions, ConsumeTicket(p, value, now).tickets, p.history.ticketSession)
  {
    assert IssuedFor(p.tickets[value], p.sessions[p.history.ticketSession[value]]);
  }

  lemma MintKeeps(p: Platform, c: Clearance, ticket: string)
    requires Inv(p) && ticket in p.tickets && PaidBy(c, p.tickets[ticket])
    requires c.value !in p.history.minted && c.createdAt <= p.history.clock
    requires forall d :: d in p.history.minted ==> p.history.minted[d].ticket != ticket
    ensures Inv(PutClearance(p, c, ticket))
  {
    MintKeepsClearances(p.tickets, p.clearances, p.history.minted, c, ticket);
    MintKeepsAllows(p.history.minted, p.history.allows, p.history.clock, c, ticket);
  }

  lemma MintKeepsClearances(tickets: map<string, Ticket>, clearances: map<string, Clearance>,
                            minted: map<string, Minting>, c: Clearance, ticket: string)
    requires ClearancesInv(tickets, clearances, minted) && ticket in tickets && PaidBy(c, tickets[ticket])
    requires c.value !in minted && forall d :: d in minted ==> minted[d].ticket != ticket
    ensures ClearancesInv(tickets, clearances[c.value := c], minted[c.value := Minting(c, ticket)])
  {
  }

  lemma MintKeepsAllows(minted: map<string, Minting>, allows: seq<ClearanceAllow>, clock: int, c: Clearance,
                        ticket: string)
    requires AllowsInv(minted, allows, clock) && c.value !in minted && c.createdAt <= clock
    ensures AllowsInv(minted[c.value := Minting(c, ticket)], allows, clock)
  {
  }

  // Consumption and minting together, as both handlers do it.
  lemma ConsumeAndMintKeeps(p: Platform, use: TicketUse, routeTTL: int, value: Option<string>, now: int, cfg: Config)
    requires Inv(p) && now == p.history.clock && Verify(p.tickets, use, true, now).1.Accepted?
    requires value.Some? ==> value.value !in p.history.minted
    ensures Inv(Mint(ConsumeTicket(p, use.value, now), use, routeTTL, value, now, cfg).0)
  {
    hide SessionsInv, ChallengesInv, TicketsInv, ClearancesInv, AllowsInv;
    var ttl := if routeTTL <= 0 then cfg.clearanceTTL else routeTTL;
    AcceptedPays(p.tickets, use, if value.Some? then value.value else "", ttl, now);
    hide Verify, PaidBy, NewClearance, Consume;
    ConsumeKeeps(p, use.value, now);
    if value.Some? {
      MintKeeps(ConsumeTicket(p, use.value, now), NewClearance(use, value.value, now, ttl), use.value);
    }
  }

  // An accepted ticket pays for a clearance with the bindings presented.
  lemma AcceptedPays(tickets: map<string, Ticket>, use: TicketUse, value: string, ttl: int, now: int)
    requires Verify(tickets, use, true, now).1.Accepted?
    ensures use.value in tickets && !tickets[use.value].consumed
    ensures var c := NewClearance(use, value, now, ttl);
            PaidBy(c, Consume(tickets[use.value], now)) && c.value == value && c.createdAt == now
  {
  }

  lemma DropKeeps(p: Platform, value: string)
    requires Inv(p)
    ensures Inv(DropClearance(p, value))
  {
  }

  lemma LogAllowKeeps(p: Platform, value: string, now: int)
    requires Inv(p) && now == p.history.clock && value in p.clearances && now <= p.clearances[value].expiresAt
    ensures Inv(LogAllow(p, value, now))
  {
  }

  lemma ClockKeeps(p: Platform, now: int)
    requires Inv(p) && now >= p.history.clock
    ensures Inv(p.(history := p.history.(clock := now)))
  {
  }

  lemma LoadKeeps(p: Platform, id: string, now: int)
    requires Inv(p)
    ensures Inv(Load(p, id, now).0)
    ensures var (p', s) := Load(p, id, now);
            && p'.history == p.history && p'.tickets == p.tickets
            && p'.sessions.Keys == p.sessions.Keys
            && (s.Some? ==> p' == p && id in p.sessions && p.sessions[id] == s.value && s.value.id == id)
  {
    hide ChallengesInv, TicketsInv, ClearancesInv, AllowsInv;
    if id in p.sessions {
      assert SessionOK(p.sessions[id]);
      CloseKeeps(p, p.sessions[id].(status := Lapsed));
    }
  }

  // ----- What each handler keeps -----

  lemma OpenKeeps(p: Platform, n: NewSession, now: int, cfg: Config)
    requires Inv(p) && FreshSession(p, n)
    ensures Inv(OpenSession(p, n, now, cfg))
  {
    RenewKeeps(p, RenewedSession(n.session.(failureCount := 0), n.challenge, now, cfg), n.challenge);
  }

  lemma FailureKeeps(p: Platform, s: Session, cfg: Config, decision: Decision)
    requires Inv(p) && s.id in p.sessions && p.sessions[s.id] == s && IsActive(s.status)
    ensures Inv(RecordFailure(p, s, cfg, decision).0)
    ensures Inv(RecordFailure(LogAttempt(p, s, Failed), s, cfg, decision).0)
  {
    FailedSessionOK(s, cfg, decision);
    CloseKeeps(p, FailedSession(s, cfg, decision));
    AttemptKeeps(p, s, FailedSession(s, cfg, decision), Failed);
  }

  lemma VerifySessionKeeps(p: Platform, id: string, req: VerifyRequest, now: int, cfg: Config)
    requires Inv(p) && (req.ticketValue.Some? ==> req.ticketValue.value !in p.tickets)
    ensures Inv(HandleVerifySession(p, id, req, now, cfg).0)
  {
    hide Inv, Load, RecordFailure, LogAttempt, IssueTicket;
    LoadKeeps(p, id, now);
    var (p1, loaded) := Load(p, id, now);
    if loaded.Some? && IsActive(loaded.value.status) {
      var s := loaded.value;
      FailureKeeps(p, s, cfg, Retry);
      FailureKeeps(p, s, cfg, req.engine.decision);
      NotIssuedKeeps(p, s);
      if req.ticketValue.Some? {
        IssueKeeps(p, s, NewTicket(s, req.ticketValue.value, RouteForSession(s, req.route).0, now, cfg));
      }
    }
  }

  lemma RefreshSessionKeeps(p: Platform, id: string, active: bool, challenge: Option<nat>, now: int, cfg: Config)
    requires Inv(p) && (challenge.Some? ==> challenge.value >= p.history.nextChallenge)
    ensures Inv(HandleRefreshSession(p, id, active, challenge, now, cfg).0)
  {
    LoadKeeps(p, id, now);
    var (p1, loaded) := Load(p, id, now);
    if loaded.Some? && IsRefreshable(loaded.value.status) && challenge.Some? {
      RenewKeeps(p1, RenewedSession(loaded.value, challenge.value, now, cfg), challenge.value);
    }
  }

  lemma EvaluationKeeps(p: Platform, challenge: Option<NewSession>, now: int, cfg: Config)
    requires Inv(p) && (challenge.Some? ==> FreshSession(p, challenge.value))
    ensures Inv(HandleEvaluation(p, challenge, now, cfg).0)
  {
    if challenge.Some? { OpenKeeps(p, challenge.value, now, cfg); }
  }

  lemma TicketUseKeeps(p: Platform, use: TicketUse, routeTTL: int, value: Option<string>, now: int, cfg: Config)
    requires Inv(p) && now == p.history.clock && (value.Some? ==> value.value !in p.history.minted)
    ensures Inv(HandleTicketUse(p, use, routeTTL, value, now, cfg).0)
  {
    hide Inv, Mint, ConsumeTicket, Verify;
    if Verify(p.tickets, use, true, now).1.Accepted? {
      ConsumeAndMintKeeps(p, use, routeTTL, value, now, cfg);
    }
  }

  lemma EvaluatePolicyKeeps(p: Platform, req: PolicyRequest, now: int, cfg: Config)
    requires Inv(p) && now == p.history.clock
    requires req.challenge.Some? ==> FreshSession(p, req.challenge.value)
    requires req.clearanceValue.Some? ==> req.clearanceValue.value !in p.history.minted
    ensures Inv(HandleEvaluatePolicy(p, req, now, cfg).0)
  {
    hide Inv, HandleTicketUse, HandleEvaluation, LogAllow;
    if req.use.value != "" {
      TicketUseKeeps(p, req.use, req.routeTTL, req.clearanceValue, now, cfg);
    } else if req.clearance == "" || req.forced || req.clearance !in p.clearances {
      EvaluationKeeps(p, req.challenge, now, cfg);
    } else {
      var error := ValidateClearance(p.clearances[req.clearance], req.use, now);
      if error.None? {
        LogAllowKeeps(p, req.clearance, now);
      } else if error == Some(Expired) {
        DropKeeps(p, req.clearance);
        EvaluationKeeps(DropClearance(p, req.clearance), req.challenge, now, cfg);
      } else {
        EvaluationKeeps(p, req.challenge, now, cfg);
      }
    }
  }

  lemma VerifyTicketKeeps(p: Platform, gate: bool, use: TicketUse, consume: bool, routeTTL: int,
                          value: Option<string>, now: int, cfg: Config)
    requires Inv(p) && now == p.history.clock && (value.Some? ==> value.value !in p.history.minted)
    ensures Inv(HandleVerifyTicket(p, gate, use, consume, routeTTL, value, now, cfg).0)
  {
    hide Inv, Mint, ConsumeTicket;
    if Verify(p.tickets, use, true, now).1.Accepted? {
      ConsumeAndMintKeeps(p, use, routeTTL, value, now, cfg);
    }
  }

  lemma ServeKeeps(p: Platform, e: Event, now: int, cfg: Config)
    requires Inv(p) && Fresh(p, e, now)
    ensures Inv(Serve(p, e, now, cfg).0)
  {
    hide Inv, HandleEvaluatePolicy, HandleVerifySession, HandleRefreshSession, HandleVerifyTicket, OpenSession, Load;
    ClockKeeps(p, now);
    var q := p.(history := p.history.(clock := now));
    match e {
      case Create(n) => OpenKeeps(q, n, now, cfg);
      case Show(id) => LoadKeeps(q, id, now);
      case VerifySession(id, req) => VerifySessionKeeps(q, id, req, now, cfg);
      case RefreshSession(id, active, challenge) => RefreshSessionKeeps(q, id, active, challenge, now, cfg);
      case EvaluatePolicy(req) => EvaluatePolicyKeeps(q, req, now, cfg);
      case VerifyTicket(gate, use, consume, routeTTL, value) =>
        VerifyTicketKeeps(q, gate, use, consume, routeTTL, value, now, cfg);
    }
  }

  lemma {:induction false} RunsKeep(p: Platform, requests: seq<Request>, cfg: Config, p': Platform)
    requires Inv(p) && Runs(p, requests, cfg, p')
    ensures Inv(p')
    decreases requests
  {
    if requests != [] {
      ServeKeeps(p, requests[0].event, requests[0].now, cfg);
      RunsKeep(Serve(p, requests[0].event, requests[0].now, cfg).0, requests[1..], cfg, p');
    }
  }

  lemma ReachableInv(p: Platform, cfg: Config)
    requires Reachable(p, cfg)
    ensures Inv(p)
  {
    var clock, requests :| Runs(Initial(clock), requests, cfg, p);
    RunsKeep(Initial(clock), requests, cfg, p);
  }
}
