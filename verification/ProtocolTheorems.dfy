/** The protocol's laws, for every reachable platform and every request. */
module ProtocolTheorems {
  import opened Text
  import opened Tickets
  import opened Protocol
  import opened ProtocolSafety

  // FailureCount never passes 5 and reaches it only when the session has lapsed; an active session
  // shows a challenge of its own type.
  lemma SessionLaws(p: Platform, cfg: Config, id: string)
    requires Reachable(p, cfg) && id in p.sessions
    ensures var s := p.sessions[id];
            && 0 <= s.failureCount <= MAX_SESSION_FAILURES
            && (s.failureCount == MAX_SESSION_FAILURES ==> s.status == Lapsed)
            && (IsActive(s.status) ==> s.challenge.Some? && s.challenge.value.captchaType == s.captchaType)
  {
    ReachableInv(p, cfg);
    assert SessionOK(p.sessions[id]);
  }

  // A generated challenge is attempted again only after an attempt the engine accepted and for which
  // no ticket could be issued.
  lemma ChallengeAttemptedOnce(p: Platform, cfg: Config, i: nat, j: nat)
    requires Reachable(p, cfg) && i < j < |p.history.attempts|
    requires p.history.attempts[i].challenge == p.history.attempts[j].challenge
    ensures p.history.attempts[i].result == NotIssued
  {
    ReachableInv(p, cfg);
  }

  // That exception is real: the session stays active with the same challenge.
  lemma UnissuedAttemptIsRepeatable(s: Session, cfg: Config)
    requires s.route == "" && s.requestNonce == "" && s.failureCount == 0 && cfg.sessionTTL >= 0
    ensures exists p :: Reachable(p, cfg) && p.history.attempts == [Attempt(0, NotIssued), Attempt(0, Failed)]
  {
    var p0 := Initial(0);
    assert Runs(p0, [], cfg, p0) && Reachable(p0, cfg);
    var p1 := Next(p0, Create(NewSession(s, 0)), 0, cfg);
    assert p1.sessions[s.id] == RenewedSession(s, 0, 0, cfg) && p1.history.attempts == [];
    var p2 := Next(p1, VerifySession(s.id, VerifyRequest(true, true, "", "", EngineResult(true, Pass), None)), 0, cfg);
    assert p2.sessions == p1.sessions && p2.history.attempts == [Attempt(0, NotIssued)];
    var p3 := Next(p2, VerifySession(s.id, VerifyRequest(true, true, "", "", EngineResult(false, Retry), None)), 0,
        cfg);
    assert p3.history.attempts == [Attempt(0, NotIssued)] + [Attempt(0, Failed)];
  }

  lemma {:induction false} RunsOn(p: Platform, requests: seq<Request>, cfg: Config, p': Platform, r: Request)
    requires Runs(p, requests, cfg, p') && Fresh(p', r.event, r.now)
    ensures Runs(p, requests + [r], cfg, Serve(p', r.event, r.now, cfg).0)
    decreases requests
  {
    if requests == [] {
      assert ([] + [r])[1..] == [];
      assert Runs(Serve(p, r.event, r.now, cfg).0, [], cfg, Serve(p, r.event, r.now, cfg).0);
    } else {
      RunsOn(Serve(p, requests[0].event, requests[0].now, cfg).0, requests[1..], cfg, p', r);
      assert (requests + [r])[1..] == requests[1..] + [r];
    }
  }

  lemma Next(p: Platform, e: Event, now: int, cfg: Config) returns (p': Platform)
    requires Reachable(p, cfg) && Fresh(p, e, now)
    ensures p' == Serve(p, e, now, cfg).0 && Reachable(p', cfg)
  {
    var clock, requests :| Runs(Initial(clock), requests, cfg, p);
    RunsOn(Initial(clock), requests, cfg, p, Request(e, now));
    p' := Serve(p, e, now, cfg).0;
  }

  // ----- Two-state laws -----

  // How one session may change: verified and lapsed sessions stay closed, and only an active session
  // becomes verified.
  predicate SessionPersists(s: Session, s': Session) {
    && (IsClosed(s.status) ==> IsClosed(s'.status))
    && (s'.status == Verified && s.status != Verified ==> IsActive(s.status))
  }

  ghost predicate SessionsPersist(sessions: map<string, Session>, sessions': map<string, Session>) {
    forall id :: id in sessions ==> id in sessions' && SessionPersists(sessions[id], sessions'[id])
  }

  // Tickets are only added and consumed, and consumption is final.
  ghost predicate TicketsPersist(tickets: map<string, Ticket>, tickets': map<string, Ticket>, now: int) {
    forall v :: v in tickets ==>
      && v in tickets'
      && (tickets'[v] == tickets[v] || (!tickets[v].consumed && tickets'[v] == Consume(tickets[v], now)))
  }

  ghost predicate Persists(p: Platform, p': Platform, now: int) {
    SessionsPersist(p.sessions, p'.sessions) && TicketsPersist(p.tickets, p'.tickets, now)
  }

  lemma SetPersists(p: Platform, s: Session, now: int)
    requires s.id in p.sessions ==> SessionPersists(p.sessions[s.id], s)
    ensures Persists(p, SetSession(p, s), now)
  {
  }

  lemma LoadPersists(p: Platform, id: string, now: int)
    requires Inv(p)
    ensures Persists(p, Load(p, id, now).0, now)
  {
    if id in p.sessions { SetPersists(p, p.sessions[id].(status := Lapsed), now); }
  }

  lemma IssuePersists(p: Platform, s: Session, t: Ticket, now: int)
    requires s.id in p.sessions && p.sessions[s.id] == s && IsActive(s.status) && t.value !in p.tickets
    ensures Persists(p, IssueTicket(LogAttempt(p, s, Passed), s, t), now)
  {
    SetPersists(p, s.(status := Verified), now);
  }

  lemma FailurePersists(p: Platform, s: Session, cfg: Config, decision: Decision, now: int)
    requires Inv(p) && s.id in p.sessions && p.sessions[s.id] == s && IsActive(s.status)
    ensures Persists(p, RecordFailure(p, s, cfg, decision).0, now)
    ensures Persists(p, RecordFailure(LogAttempt(p, s, Failed), s, cfg, decision).0, now)
  {
    FailedSessionCloses(s, cfg, decision);
    hide Inv, FailedSession, Persists;
    SetPersists(p, FailedSession(s, cfg, decision), now);
    SetPersists(LogAttempt(p, s, Failed), FailedSession(s, cfg, decision), now);
    SamePersists(p, LogAttempt(p, s, Failed), RecordFailure(LogAttempt(p, s, Failed), s, cfg, decision).0, now);
  }

  lemma FailedSessionCloses(s: Session, cfg: Config, decision: Decision)
    requires IsActive(s.status)
    ensures var f := FailedSession(s, cfg, decision); f.id == s.id && SessionPersists(s, f)
  {
  }

  lemma SamePersists(p: Platform, q: Platform, p': Platform, now: int)
    requires p.sessions == q.sessions && p.tickets == q.tickets
    ensures Persists(p, p', now) <==> Persists(q, p', now)
  {
  }

  lemma VerifySessionPersists(p: Platform, id: string, req: VerifyRequest, now: int, cfg: Config)
    requires Inv(p) && (req.ticketValue.Some? ==> req.ticketValue.value !in p.tickets)
    ensures Persists(p, HandleVerifySession(p, id, req, now, cfg).0, now)
  {
    hide Inv, Load, RecordFailure, IssueTicket;
    LoadKeeps(p, id, now);
    LoadPersists(p, id, now);
    var (p1, loaded) := Load(p, id, now);
    if loaded.Some? && IsActive(loaded.value.status) {
      var s := loaded.value;
      FailurePersists(p, s, cfg, Retry, now);
      FailurePersists(p, s, cfg, req.engine.decision, now);
      if req.ticketValue.Some? {
        IssuePersists(p, s, NewTicket(s, req.ticketValue.value, RouteForSession(s, req.route).0, now, cfg), now);
      }
    }
  }

  lemma RefreshSessionPersists(p: Platform, id: string, active: bool, challenge: Option<nat>, now: int, cfg: Config)
    requires Inv(p)
    ensures Persists(p, HandleRefreshSession(p, id, active, challenge, now, cfg).0, now)
  {
    LoadKeeps(p, id, now);
    LoadPersists(p, id, now);
    var (p1, loaded) := Load(p, id, now);
    if loaded.Some? && IsRefreshable(loaded.value.status) && challenge.Some? {
      SetPersists(p, RenewedSession(loaded.value, challenge.value, now, cfg), now);
    }
  }

  lemma EvaluationPersists(p: Platform, challenge: Option<NewSession>, now: int, cfg: Config)
    requires challenge.Some? ==> FreshSession(p, challenge.value)
    ensures Persists(p, HandleEvaluation(p, challenge, now, cfg).0, now)
  {
  }

  lemma TicketUsePersists(p: Platform, use: TicketUse, routeTTL: int, value: Option<string>, now: int, cfg: Config)
    ensures Persists(p, HandleTicketUse(p, use, routeTTL, value, now, cfg).0, now)
  {
  }

  lemma EvaluatePolicyPersists(p: Platform, req: PolicyRequest, now: int, cfg: Config)
    requires req.challenge.Some? ==> FreshSession(p, req.challenge.value)
    ensures Persists(p, HandleEvaluatePolicy(p, req, now, cfg).0, now)
  {
    TicketUsePersists(p, req.use, req.routeTTL, req.clearanceValue, now, cfg);
    EvaluationPersists(p, req.challenge, now, cfg);
    EvaluationPersists(DropClearance(p, req.clearance), req.challenge, now, cfg);
  }

  // Every request, on every reachable platform.
  lemma RequestPersists(p: Platform, e: Event, now: int, cfg: Config)
    requires Reachable(p, cfg) && Fresh(p, e, now)
    ensures Persists(p, Serve(p, e, now, cfg).0, now)
  {
    hide Inv, Reachable, SessionsPersist, TicketsPersist, HandleEvaluatePolicy, HandleVerifySession,
        HandleRefreshSession, HandleVerifyTicket, OpenSession, Load;
    ReachableInv(p, cfg);
    ClockKeeps(p, now);
    var q := p.(history := p.history.(clock := now));
    assert q.sessions == p.sessions && q.tickets == p.tickets;
    match e {
      case Create(n) => EvaluationPersists(q, Some(n), now, cfg);
      case Show(id) => LoadPersists(q, id, now);
      case VerifySession(id, req) => VerifySessionPersists(q, id, req, now, cfg);
      case RefreshSession(id, active, challenge) => RefreshSessionPersists(q, id, active, challenge, now, cfg);
      case EvaluatePolicy(req) => EvaluatePolicyPersists(q, req, now, cfg);
      case VerifyTicket(gate, use, consume, routeTTL, value) =>
        VerifyTicketPersists(q, gate, use, consume, routeTTL, value, now, cfg);
    }
  }

  lemma VerifyTicketPersists(p: Platform, gate: bool, use: TicketUse, consume: bool, routeTTL: int,
                             value: Option<string>, now: int, cfg: Config)
    ensures Persists(p, HandleVerifyTicket(p, gate, use, consume, routeTTL, value, now, cfg).0, now)
  {
    TicketUsePersists(p, use, routeTTL, value, now, cfg);
  }

  // ----- Conservation -----

  // Each ticket was issued for a session of its own that became verified, is closed since, and whose
  // bindings the ticket carries.
  lemma TicketsComeFromDistinctSessions(p: Platform, cfg: Config, v: string, w: string)
    requires Reachable(p, cfg) && v in p.tickets && w in p.tickets
    ensures v in p.history.ticketSession && p.history.ticketSession[v] in p.sessions
    ensures p.history.ticketSession[v] in p.history.verified
    ensures IssuedFor(p.tickets[v], p.sessions[p.history.ticketSession[v]])
    ensures w in p.history.ticketSession
    ensures v != w ==> p.history.ticketSession[v] != p.history.ticketSession[w]
  {
    ReachableInv(p, cfg);
  }

  // Each clearance was paid for by one consumed ticket, its own, whose bindings it carries.
  lemma ClearancesComeFromConsumedTickets(p: Platform, cfg: Config, c: string, d: string)
    requires Reachable(p, cfg) && c in p.clearances && d in p.clearances
    ensures c in p.history.minted && d in p.history.minted && p.history.minted[c].ticket in p.tickets
    ensures PaidBy(p.clearances[c], p.tickets[p.history.minted[c].ticket])
    ensures c != d ==> p.history.minted[c].ticket != p.history.minted[d].ticket
  {
    ReachableInv(p, cfg);
  }

  lemma {:induction false} InjectionBounds(keys: set<string>, m: map<string, string>, image: set<string>)
    requires keys <= m.Keys && forall k :: k in keys ==> m[k] in image
    requires forall k, l :: k in keys && l in keys && k != l ==> m[k] != m[l]
    ensures |keys| <= |image|
    decreases keys
  {
    if keys != {} {
      var k :| k in keys;
      InjectionBounds(keys - {k}, m, image - {m[k]});
    }
  }

  lemma MintedAtMostConsumed(tickets: map<string, Ticket>, clearances: map<string, Clearance>,
                             minted: map<string, Minting>)
    requires ClearancesInv(tickets, clearances, minted)
    ensures |minted| <= |set v | v in tickets && tickets[v].consumed|
  {
    var payer := map c | c in minted :: minted[c].ticket;
    assert payer.Keys == minted.Keys;
    InjectionBounds(payer.Keys, payer, set v | v in tickets && tickets[v].consumed);
  }

  lemma VerifiedAreClosed(p: Platform)
    requires TicketsInv(p.sessions, p.tickets, p.history.ticketSession)
    requires VerifiedInv(p.history.ticketSession, p.history.verified)
    ensures p.history.verified <= set id | id in p.sessions && IsClosed(p.sessions[id].status)
  {
    forall id | id in p.history.verified ensures id in p.sessions && IsClosed(p.sessions[id].status) {
      var v :| v in p.history.ticketSession && p.history.ticketSession[v] == id;
      assert IssuedFor(p.tickets[v], p.sessions[id]);
    }
  }

  // Nothing is created along the way: clearances minted <= tickets consumed, and tickets issued <=
  // sessions that became verified, all of them closed.
  lemma Conservation(p: Platform, cfg: Config)
    requires Reachable(p, cfg)
    ensures |p.history.minted| <= |set v | v in p.tickets && p.tickets[v].consumed|
    ensures |p.tickets| <= |p.history.verified|
    ensures p.history.verified <= set id | id in p.sessions && IsClosed(p.sessions[id].status)
  {
    ReachableInv(p, cfg);
    hide Reachable, SessionsInv, ChallengesInv, ClearancesInv, AllowsInv;
    MintedAtMostConsumed(p.tickets, p.clearances, p.history.minted);
    VerifiedAreClosed(p);
    InjectionBounds(p.tickets.Keys, p.history.ticketSession, p.history.verified);
  }

  // A request is let through by a clearance only within that clearance's time to live, counted from
  // the instant the ticket behind it was consumed.
  lemma ClearanceAllowWithinTTL(p: Platform, req: PolicyRequest, now: int, cfg: Config, c: string)
    requires Reachable(p, cfg) && Fresh(p, EvaluatePolicy(req), now)
    requires Serve(p, EvaluatePolicy(req), now, cfg).1 == Allowed("CLEARANCE_VALID", Some(c))
    ensures c in p.clearances && c in p.history.minted && p.history.minted[c].ticket in p.tickets
    ensures var paid, lifetime := p.tickets[p.history.minted[c].ticket],
        p.clearances[c].expiresAt - p.clearances[c].createdAt;
            && paid.consumed && paid.consumedAt.Some?
            && paid.consumedAt.value <= now <= paid.consumedAt.value + lifetime
            && paid.clientID == req.use.clientID && paid.scene == req.use.scene
            && Binds(paid.ipHash, req.use.ipHash) && Binds(paid.userAgentHash, req.use.userAgentHash)
            && Binds(paid.accountIDHash, req.use.accountIDHash) && Binds(paid.deviceIDHash, req.use.deviceIDHash)
  {
    ReachableInv(p, cfg);
    assert PaidBy(p.history.minted[c].clearance, p.tickets[p.history.minted[c].ticket]);
  }

  // A ticket that may be spent in a context now.
  predicate Spendable(p: Platform, use: TicketUse, now: int) {
    use.value in p.tickets && Redeemable(p.tickets[use.value], use, now)
  }

  // A ticket lets a request through, or is reported consumed, exactly when it is stored, unconsumed,
  // unexpired and presented in its own context, and in the step that consumes it.
  lemma TicketPassesOnce(p: Platform, e: Event, now: int, cfg: Config)
    requires Reachable(p, cfg) && Fresh(p, e, now)
    ensures var (p', r) := Serve(p, e, now, cfg);
            && (e.EvaluatePolicy? && e.policy.use.value != "" ==>
                  var use := e.policy.use;
                  && (r.Allowed? <==> e.policy.gate && Spendable(p, use, now))
                  && (r.Allowed? ==>
                        use.value in p'.tickets && p'.tickets[use.value] == Consume(p.tickets[use.value], now)))
            && (e.VerifyTicket? && e.consume && r.TicketValid? ==>
                  var v := e.use.value;
                  Spendable(p, e.use, now) && v in p'.tickets
                      && p'.tickets[v] == Consume(p.tickets[v], now) == r.accepted)
  {
    hide Inv, Reachable;
  }
}
