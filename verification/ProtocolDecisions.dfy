/** What decides each answer of the protocol, and everything it leaves behind, field by field: failed attempts,
    refreshes, tickets, clearances and new sessions. */
module ProtocolDecisions {
  import opened Text
  import opened Tickets
  import opened Protocol
  import opened ProtocolSafety
  import Escalation

  // ----- Failed attempts -----

  // The answer names another route than the session's, or not its nonce.
  predicate Misplaced(s: Session, req: VerifyRequest) {
    || (s.route != "" && req.route != "" && req.route != s.route)
    || (s.requestNonce != "" && req.nonce != s.requestNonce)
  }

  // The harder type by the session's own escalation, if it has one.
  function HarderFor(s: Session, cfg: Config): string {
    Escalation.HarderType(s.captchaType, if s.escalation != [] then s.escalation else cfg.escalation)
  }

  // An answer to a live session is a failed attempt exactly when its route or its nonce is refused, which
  // counts as Retry, or the engine refuses it.  The fifth failure and a block close the session; any other
  // failure takes its challenge away and offers a refresh; only ChallengeHarder changes its type.
  lemma FailureExactly(p: Platform, id: string, req: VerifyRequest, now: int, cfg: Config)
    requires Inv(p)
    ensures var (p', r) := Serve(p, VerifySession(id, req), now, cfg);
            && (r.FailedAttempt? <==>
                  && id in p.sessions && now <= p.sessions[id].expiresAt
                  && (p.sessions[id].status == Active || p.sessions[id].status == Blank)
                  && req.applicationActive && req.wellFormed && (Misplaced(p.sessions[id], req) || !req.engine.ok))
            && (r.FailedAttempt? ==>
                  var s := p.sessions[id];
                  var d, last := if Misplaced(s, req) then Retry else req.engine.decision, s.failureCount + 1 >= 5;
                  && id in p'.sessions && p'.sessions == p.sessions[id := p'.sessions[id]]
                  && p'.tickets == p.tickets && p'.clearances == p.clearances
                  && var s' := p'.sessions[id];
                     && s' == s.(failureCount := s.failureCount + 1, status := s'.status, challenge := s'.challenge,
                                 captchaType := s'.captchaType)
                     && (s'.status == Lapsed <==> last || d.Block?)
                     && (s'.status != Lapsed ==> s'.status == RefreshRequired && s'.challenge.None?)
                     && (r.canRefresh <==> s'.status != Lapsed)
                     && r.decision == (if last then Block else d)
                     && r.captchaType == s'.captchaType
                     && s'.captchaType == (if d.ChallengeHarder? then HarderFor(s, cfg) else s.captchaType))
  {
    hide Inv, NewTicket, IssueTicket, FailedSession, FailureResponse, LogAttempt;
    if id in p.sessions {
      StoredAs(p, id);
      FailedSessionIs(p.sessions[id], cfg, Retry);
      FailedSessionIs(p.sessions[id], cfg, req.engine.decision);
      LoggedAs(p.(history := p.history.(clock := now)), p.sessions[id], Failed);
    }
  }

  lemma StoredAs(p: Platform, id: string)
    requires Inv(p) && id in p.sessions
    ensures p.sessions[id].id == id
  {
  }

  lemma LoggedAs(p: Platform, s: Session, result: AttemptResult)
    ensures var p' := LogAttempt(p, s, result);
            p'.sessions == p.sessions && p'.tickets == p.tickets && p'.clearances == p.clearances
  {
  }

  lemma FailedSessionIs(s: Session, cfg: Config, d: Decision)
    ensures var s' := FailedSession(s, cfg, d);
            var r, last := FailureResponse(s, s', cfg, d), s.failureCount + 1 >= 5;
            && s' == s.(failureCount := s.failureCount + 1, status := s'.status, challenge := s'.challenge,
                        captchaType := s'.captchaType)
            && r.FailedAttempt? && r.decision == (if last then Block else d) && r.captchaType == s'.captchaType
            && s'.captchaType == (if d.ChallengeHarder? then HarderFor(s, cfg) else s.captchaType)
            && (s.status == Active || s.status == Blank ==>
                  && (s'.status == Lapsed <==> last || d.Block?)
                  && (s'.status != Lapsed ==> s'.status == RefreshRequired && s'.challenge.None?)
                  && (r.canRefresh <==> s'.status != Lapsed))
  {
  }

  // ----- Loading, refreshing, opening -----

  // A refresh is granted exactly to a stored session of an active application, in time and not closed, when a
  // challenge could be generated; an overdue session is marked, by any look at it.
  lemma RefreshExactly(p: Platform, id: string, active: bool, challenge: Option<nat>, now: int, cfg: Config)
    requires Inv(p)
    ensures var (p', r) := Serve(p, RefreshSession(id, active, challenge), now, cfg);
            && (r == Refreshed <==>
                  && id in p.sessions && now <= p.sessions[id].expiresAt && active && challenge.Some?
                  && p.sessions[id].status != Verified && p.sessions[id].status != Lapsed)
            && (r == Refreshed ==>
                  var s := p.sessions[id];
                  p'.sessions == p.sessions[id := s.(challenge := Some(Challenge(challenge.value, s.captchaType)),
                                                     status := Active, expiresAt := now + cfg.sessionTTL)])
            && (r != Refreshed && id in p.sessions ==>
                  p'.sessions == p.sessions[id := p'.sessions[id]]
                  && p'.sessions[id] == if now > p.sessions[id].expiresAt then p.sessions[id].(status := Lapsed)
                                        else p.sessions[id])
  {
    hide Inv;
    if id in p.sessions { StoredAs(p, id); }
  }

  // Looking at a session changes it only when it is overdue, which closes it.
  lemma ShowExactly(p: Platform, id: string, now: int, cfg: Config)
    ensures var p' := Serve(p, Show(id), now, cfg).0;
            && p'.tickets == p.tickets && p'.clearances == p.clearances
            && p'.sessions == if id in p.sessions && now > p.sessions[id].expiresAt
                              then p.sessions[id := p.sessions[id].(status := Lapsed)] else p.sessions
  {
  }

  // A session as it is opened: active, without failures, with its challenge and its time to live.
  function Opened(n: NewSession, now: int, cfg: Config): Session {
    n.session.(challenge := Some(Challenge(n.challenge, n.session.captchaType)), failureCount := 0, status := Active,
               expiresAt := now + cfg.sessionTTL)
  }

  lemma CreateExactly(p: Platform, n: NewSession, now: int, cfg: Config)
    ensures var p' := Serve(p, Create(n), now, cfg).0;
            && p'.tickets == p.tickets && p'.clearances == p.clearances
            && p'.sessions == p.sessions[n.session.id := Opened(n, now, cfg)]
  {
  }

  // ----- Tickets -----

  // What spending a ticket leaves: the ticket consumed now and, for a complete context and a random value, a
  // clearance for that context, living for the route's time if it has one.
  ghost predicate Spent(p: Platform, p': Platform, use: TicketUse, routeTTL: int, value: Option<string>, now: int,
                        cfg: Config, minted: Option<string>)
  {
    && use.value in p.tickets && p'.sessions == p.sessions
    && p'.tickets == p.tickets[use.value := p.tickets[use.value].(consumed := true, consumedAt := Some(now))]
    && minted == (if use.scene != "" && use.ipHash != "" && use.userAgentHash != "" then value else None)
    && p'.clearances == if minted.None? then p.clearances
                        else p.clearances[minted.value :=
                                            Clearance(minted.value, use.clientID, use.scene, use.ipHash,
                                                      use.userAgentHash, use.accountIDHash, use.deviceIDHash,
                                                      now + (if routeTTL > 0 then routeTTL else cfg.clearanceTTL), now)]
  }

  ghost predicate SameStores(p: Platform, p': Platform) {
    p'.sessions == p.sessions && p'.tickets == p.tickets && p'.clearances == p.clearances
  }

  // Why a ticket is refused: overdue before consumed before anything else.
  function Refusal(tickets: map<string, Ticket>, use: TicketUse, now: int): StoreError {
    if use.value !in tickets then NotFound
    else if now > tickets[use.value].expiresAt then Expired
    else if tickets[use.value].consumed then Consumed
    else NotFound
  }

  // A request with a ticket is let through exactly when the ticket is stored and may be redeemed in the
  // request's context now; it is spent then, and blocked otherwise with nothing changed.
  lemma TicketAllowsExactly(p: Platform, req: PolicyRequest, now: int, cfg: Config)
    requires req.use.value != ""
    ensures var (p', r) := Serve(p, EvaluatePolicy(req), now, cfg);
            && (r.Allowed? <==>
                  req.gate && req.use.value in p.tickets && Redeemable(p.tickets[req.use.value], req.use, now))
            && (r.Allowed? ==>
                  r == Allowed("TICKET_CONSUMED", r.clearance)
                  && Spent(p, p', req.use, req.routeTTL, req.clearanceValue, now, cfg, r.clearance))
            && (!r.Allowed? ==>
                  SameStores(p, p')
                  && r == if req.gate then Blocked(Refusal(p.tickets, req.use, now)) else Refused("GATE"))
  {
    AcceptsExactly(p.tickets, req.use, true, now);
    hide ValidateTicket, Redeemable;
  }

  // The same at the verification endpoint, which may also only look.
  lemma TicketAnswerExactly(p: Platform, gate: bool, use: TicketUse, consume: bool, routeTTL: int,
                            value: Option<string>, now: int, cfg: Config)
    ensures var (p', r) := Serve(p, VerifyTicket(gate, use, consume, routeTTL, value), now, cfg);
            var asked := gate && use.value != "" && use.clientID != "" && use.scene != "";
            && (r.TicketValid? <==>
                  asked && use.value in p.tickets && Redeemable(p.tickets[use.value], use, now))
            && (r.TicketValid? && consume ==>
                  Spent(p, p', use, routeTTL, value, now, cfg, r.clearance) && r.accepted == p'.tickets[use.value])
            && (r.TicketValid? && !consume ==>
                  SameStores(p, p') && r == TicketValid(p.tickets[use.value], None))
            && (!r.TicketValid? ==>
                  SameStores(p, p')
                  && r == if asked then TicketInvalid(Refusal(p.tickets, use, now)) else Refused("TICKET_REQUEST"))
  {
    AcceptsExactly(p.tickets, use, consume, now);
    hide ValidateTicket, Redeemable;
  }

  // ----- Clearances -----

  // A clearance that opens a context now.
  predicate Opens(c: Clearance, use: TicketUse, now: int) {
    && now <= c.expiresAt && c.clientID == use.clientID && c.scene == use.scene
    && (c.ipHash == "" || c.ipHash == use.ipHash) && (c.userAgentHash == "" || c.userAgentHash == use.userAgentHash)
    && (c.accountIDHash == "" || c.accountIDHash == use.accountIDHash)
    && (c.deviceIDHash == "" || c.deviceIDHash == use.deviceIDHash)
  }

  // A request without a ticket is let through exactly when the route does not force a challenge and its
  // clearance is stored and opens its context now.  Otherwise it is evaluated, which may open a session; an
  // overdue clearance that was looked at is gone, and no other ever is.
  lemma ClearanceAllowsExactly(p: Platform, req: PolicyRequest, now: int, cfg: Config)
    requires req.use.value == ""
    ensures var (p', r) := Serve(p, EvaluatePolicy(req), now, cfg);
            var looked := req.gate && !req.forced && req.clearance != "" && req.clearance in p.clearances;
            && (r.Allowed? <==> looked && Opens(p.clearances[req.clearance], req.use, now))
            && (r.Allowed? ==> r == Allowed("CLEARANCE_VALID", Some(req.clearance)) && SameStores(p, p'))
            && (!req.gate ==> r == Refused("GATE") && SameStores(p, p'))
            && (req.gate && !r.Allowed? ==>
                  && r == Evaluated(if req.challenge.Some? then Some(req.challenge.value.session.id) else None)
                  && p'.tickets == p.tickets
                  && (p'.sessions == if req.challenge.None? then p.sessions
                                     else p.sessions[req.challenge.value.session.id :=
                                                       Opened(req.challenge.value, now, cfg)])
                  && (forall c :: c in p'.clearances <==>
                                    c in p.clearances
                                    && !(looked && c == req.clearance && now > p.clearances[c].expiresAt))
                  && (forall c :: c in p'.clearances ==> p'.clearances[c] == p.clearances[c]))
  {
  }
}
