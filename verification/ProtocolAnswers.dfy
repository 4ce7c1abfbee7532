/** What the handlers answer, in terms of what was asked and what is stored: when a ticket is issued, what a
    refused attempt promises, and where tickets and clearances come from. */
module ProtocolAnswers {
  import opened Text
  import opened Tickets
  import opened Protocol
  import opened ProtocolSafety

  // A session that may be verified now.
  predicate Verifiable(p: Platform, id: string, now: int) {
    id in p.sessions && now <= p.sessions[id].expiresAt && IsActive(p.sessions[id].status)
  }

  predicate RouteAccepted(s: Session, submitted: string) {
    s.route == "" || submitted == "" || submitted == s.route
  }

  predicate NonceAccepted(s: Session, nonce: string) {
    s.requestNonce == "" || nonce == s.requestNonce
  }

  lemma StoredSession(p: Platform, id: string)
    requires Inv(p) && id in p.sessions
    ensures SessionOK(p.sessions[id]) && p.sessions[id].id == id
  {
  }

  // A ticket is issued exactly for an accepted answer to a live session in its own context; the session,
  // active until then, becomes verified and is recorded as the ticket's own; the ticket starts unconsumed,
  // lives for the configured time, and is bound to the session's route if there is one.
  lemma TicketIsEarned(p: Platform, id: string, req: VerifyRequest, now: int, cfg: Config)
    requires Inv(p)
    ensures var (p', r) := Serve(p, VerifySession(id, req), now, cfg);
            && (r.IssuedTicket? <==>
                  Verifiable(p, id, now) && req.applicationActive && req.wellFormed
                  && RouteAccepted(p.sessions[id], req.route) && NonceAccepted(p.sessions[id], req.nonce)
                  && req.engine.ok && req.ticketValue.Some?)
            && (r.IssuedTicket? ==>
                  && r.ticket == req.ticketValue.value && r.ticket in p'.tickets
                  && var s, t := p.sessions[id], p'.tickets[r.ticket];
                     && !t.consumed && t.createdAt == now && t.expiresAt == now + cfg.ticketTTL
                     && t.route == (if s.route == "" then req.route else s.route)
                     && IsActive(s.status) && p'.sessions == p.sessions[id := s.(status := Verified)]
                     && p'.history.ticketSession == p.history.ticketSession[r.ticket := id]
                     && p'.history.verified == p.history.verified + {id})
  {
    hide Inv, FailedSession, Escalations;
    if id in p.sessions { StoredSession(p, id); }
  }

  // ----- Attempts on a challenge -----

  ghost predicate LogsAttempt(p: Platform, p': Platform) {
    p'.history.attempts != p.history.attempts
  }

  // An attempt leaves its challenge open exactly when the engine accepted it and no ticket was issued.
  lemma AttemptLeavesOpenExactly(p: Platform, id: string, req: VerifyRequest, now: int, cfg: Config)
    requires Inv(p)
    ensures var p' := Serve(p, VerifySession(id, req), now, cfg).0;
            LogsAttempt(p, p') ==>
              && Verifiable(p, id, now) && id in p'.sessions && p.sessions[id].challenge.Some?
              && (Shows(p'.sessions[id]) && p'.sessions[id].challenge == p.sessions[id].challenge
                  <==> req.engine.ok && req.ticketValue.None?)
              && (!Shows(p'.sessions[id]) <==> !(req.engine.ok && req.ticketValue.None?))
              && (req.engine.ok && req.ticketValue.None? ==> p'.sessions == p.sessions)
  {
    hide Inv, NewTicket, Escalations;
    if id in p.sessions { StoredSession(p, id); }
  }

  // An answer that reaches the engine: in time, well formed, on its session's route and nonce.
  predicate ReachesEngine(p: Platform, id: string, req: VerifyRequest, now: int) {
    && Verifiable(p, id, now) && req.applicationActive && req.wellFormed
    && RouteAccepted(p.sessions[id], req.route) && NonceAccepted(p.sessions[id], req.nonce)
  }

  lemma EngineLogsAttempt(p: Platform, id: string, req: VerifyRequest, now: int, cfg: Config)
    requires Inv(p)
    ensures var p' := Serve(p, VerifySession(id, req), now, cfg).0;
            if ReachesEngine(p, id, req, now) then
              && p.sessions[id].challenge.Some? && |p'.history.attempts| == |p.history.attempts| + 1
              && p'.history.attempts[|p.history.attempts|].challenge == p.sessions[id].challenge.value.number
            else p'.history.attempts == p.history.attempts
  {
    hide Inv, NewTicket, FailedSession, Escalations;
    if id in p.sessions { StoredSession(p, id); }
  }

  // On every reachable platform: after an answer that reached the engine, the same answer sent again in time
  // is a second attempt on the same challenge if and only if the first was accepted and no ticket was issued.
  lemma AttemptRepeatsExactly(p: Platform, id: string, req: VerifyRequest, again: VerifyRequest, now: int,
                              later: int, cfg: Config)
    requires Reachable(p, cfg) && ReachesEngine(p, id, req, now) && now <= later <= p.sessions[id].expiresAt
    requires again.applicationActive && again.wellFormed && again.route == req.route && again.nonce == req.nonce
    requires req.ticketValue.Some? ==> req.ticketValue.value !in p.tickets
    requires now >= p.history.clock
    ensures var p1 := Serve(p, VerifySession(id, req), now, cfg).0;
            var p2 := Serve(p1, VerifySession(id, again), later, cfg).0;
            var n := |p.history.attempts|;
            && |p1.history.attempts| == n + 1
            && (|p2.history.attempts| == n + 2 && p2.history.attempts[n + 1].challenge
                == p1.history.attempts[n].challenge
                <==> req.engine.ok && req.ticketValue.None?)
  {
    ReachableInv(p, cfg);
    var p1 := Serve(p, VerifySession(id, req), now, cfg).0;
    ServeKeeps(p, VerifySession(id, req), now, cfg);
    EngineLogsAttempt(p, id, req, now, cfg);
    EngineLogsAttempt(p1, id, again, later, cfg);
    AttemptLeavesOpenExactly(p, id, req, now, cfg);
    ShowsIsActive(p1, id);
    hide Inv, Reachable, Serve;
    if req.engine.ok && req.ticketValue.None? {
      assert ReachesEngine(p1, id, again, later);
    } else {
      assert !ReachesEngine(p1, id, again, later);
    }
  }

  lemma ShowsIsActive(p: Platform, id: string)
    requires Inv(p) && id in p.sessions
    ensures Shows(p.sessions[id]) <==> IsActive(p.sessions[id].status)
  {
    assert SessionOK(p.sessions[id]);
  }

  lemma FailureCounts(s: Session, cfg: Config, decision: Decision)
    ensures var failed := FailedSession(s, cfg, decision);
            var r := FailureResponse(s, failed, cfg, decision);
            && r.FailedAttempt? && failed.id == s.id && failed.failureCount == s.failureCount + 1
            && failed.captchaType == r.captchaType
            && (IsActive(s.status) ==> !IsActive(failed.status) && (r.decision.Block? ==> failed.status == Lapsed))
  {
    hide Escalations;
  }

  // A failed attempt is counted once and closes the challenge; the answer's type is the one the session
  // now has.
  lemma FailureIsCounted(p: Platform, id: string, req: VerifyRequest, now: int, cfg: Config)
    requires Inv(p)
    ensures var (p', r) := Serve(p, VerifySession(id, req), now, cfg);
            r.FailedAttempt? ==>
              && Verifiable(p, id, now) && id in p'.sessions
              && p'.sessions[id].failureCount == p.sessions[id].failureCount + 1
              && p'.sessions[id].captchaType == r.captchaType
              && !IsActive(p'.sessions[id].status)
              && (r.decision.Block? ==> p'.sessions[id].status == Lapsed)
  {
    hide Inv, NewTicket, IssueTicket, FailedSession, FailureResponse;
    if id in p.sessions {
      StoredSession(p, id);
      FailureCounts(p.sessions[id], cfg, Retry);
      FailureCounts(p.sessions[id], cfg, req.engine.decision);
    }
  }

  // The answer's offer to refresh is honest: a refresh at once is granted exactly when it was offered.
  lemma RefreshOfferIsHonest(p: Platform, id: string, req: VerifyRequest, now: int, cfg: Config, challenge: nat)
    requires Inv(p)
    ensures var (p', r) := Serve(p, VerifySession(id, req), now, cfg);
            r.FailedAttempt? ==>
              (r.canRefresh <==> Serve(p', RefreshSession(id, true, Some(challenge)), now, cfg).1 == Refreshed)
  {
    hide ChallengesInv, TicketsInv, ClearancesInv, AllowsInv, HandleVerifySession;
    FailureIsCounted(p, id, req, now, cfg);
    var (p', r) := Serve(p, VerifySession(id, req), now, cfg);
    if r.FailedAttempt? {
      assert p.sessions[id].id == id;
      FailureLeaves(p, id, req, now, cfg);
    }
  }

  lemma FailureLeaves(p: Platform, id: string, req: VerifyRequest, now: int, cfg: Config)
    requires Inv(p) && Serve(p, VerifySession(id, req), now, cfg).1.FailedAttempt?
    ensures var (p', r) := Serve(p, VerifySession(id, req), now, cfg);
            && id in p'.sessions && p'.sessions[id].expiresAt >= now
            && (r.canRefresh <==> p'.sessions[id].status == RefreshRequired)
            && (p'.sessions[id].status == RefreshRequired || p'.sessions[id].status == Lapsed)
  {
    hide Inv, NewTicket, IssueTicket, Escalations;
    if id in p.sessions { StoredSession(p, id); }
  }

  // What a session is bound to: whose it is, where, and on what route and request.
  predicate SameBindings(s: Session, s': Session) {
    && s'.id == s.id && s'.clientID == s.clientID && s'.scene == s.scene && s'.route == s.route
    && s'.requestNonce == s.requestNonce && s'.ipHash == s.ipHash && s'.userAgentHash == s.userAgentHash
    && s'.accountIDHash == s.accountIDHash && s'.deviceIDHash == s.deviceIDHash
  }

  // A granted refresh keeps the session's failures, bindings and type; its challenge is of that type, has never
  // been attempted and is shown by no other session; and an answer may be given from now until the new expiry.
  lemma RefreshRenews(p: Platform, id: string, active: bool, challenge: Option<nat>, now: int, cfg: Config)
    requires Inv(p) && Fresh(p, RefreshSession(id, active, challenge), now)
    ensures var (p', r) := Serve(p, RefreshSession(id, active, challenge), now, cfg);
            r == Refreshed ==>
              && id in p.sessions && id in p'.sessions && SameBindings(p.sessions[id], p'.sessions[id])
              && p'.sessions[id].failureCount == p.sessions[id].failureCount < MAX_SESSION_FAILURES
              && p'.sessions[id].captchaType == p.sessions[id].captchaType && p'.sessions[id].challenge.Some?
              && var c := p'.sessions[id].challenge.value;
                 && c.captchaType == p'.sessions[id].captchaType
                 && (forall i :: 0 <= i < |p'.history.attempts| ==> p'.history.attempts[i].challenge != c.number)
                 && (forall other :: other in p'.sessions && other != id && Shows(p'.sessions[other]) ==>
                       p'.sessions[other].challenge.value.number != c.number)
                 && (forall later :: now <= later <= now + cfg.sessionTTL ==> Verifiable(p', id, later))
  {
    if id in p.sessions { assert SessionOK(p.sessions[id]) && p.sessions[id].id == id; }
    ServeKeeps(p, RefreshSession(id, active, challenge), now, cfg);
    hide TicketsInv, VerifiedInv, ClearancesInv, AllowsInv;
  }

  // ----- Where tickets and clearances come from -----

  // A ticket appears only in the step that issues it.
  lemma TicketsAppearOnlyIssued(p: Platform, e: Event, now: int, cfg: Config, v: string)
    requires v !in p.tickets
    ensures var (p', r) := Serve(p, e, now, cfg);
            v in p'.tickets ==> e.VerifySession? && r == IssuedTicket(v)
  {
    hide ValidateTicket, ValidateClearance, NewTicket, NewClearance, FailedSession;
  }

  predicate ConsumesTicket(e: Event) {
    match e
    case EvaluatePolicy(req) => req.use.value != ""
    case VerifyTicket(_, _, consume, _, _) => consume
    case _ => false
  }

  function UseOf(e: Event): TicketUse
    requires e.EvaluatePolicy? || e.VerifyTicket?
  {
    if e.EvaluatePolicy? then e.policy.use else e.use
  }

  // A clearance appears only in a step that consumes a matching, unexpired ticket, with a complete context,
  // and is handed out in that step's answer.
  lemma ClearancesAppearOnlyPaid(p: Platform, e: Event, now: int, cfg: Config, c: string)
    requires c !in p.clearances
    ensures var (p', r) := Serve(p, e, now, cfg);
            c in p'.clearances ==>
              && ConsumesTicket(e)
              && (r == Allowed("TICKET_CONSUMED", Some(c)) || (r.TicketValid? && r.clearance == Some(c)))
              && var use := UseOf(e);
                 && use.scene != "" && use.ipHash != "" && use.userAgentHash != ""
                 && use.value in p.tickets && !p.tickets[use.value].consumed && now <= p.tickets[use.value].expiresAt
                 && Matches(p.tickets[use.value], use)
  {
    hide ValidateClearance, NewTicket, FailedSession, Matches;
  }
}
