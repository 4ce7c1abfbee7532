/** The HTTP handlers over the in-memory stores, as methods that update the stores step by step; each
    is proved to take the step the protocol's functions describe. */
module Server {
  import opened Text
  import opened Tickets
  import opened Protocol
  import Escalation

  class Server {
    var sessions: map<string, Session>
    var tickets: map<string, Ticket>
    var clearances: map<string, Clearance>
    ghost var history: History
    const cfg: Config

    ghost function View(): Platform
      reads this
    {
      Platform(sessions, tickets, clearances, history)
    }

    constructor (cfg: Config, ghost clock: int)
      ensures View() == Platform(map[], map[], map[], History(0, [], map[], {}, map[], [], clock)) && this.cfg == cfg
    {
      this.cfg := cfg;
      sessions, tickets, clearances := map[], map[], map[];
      history := History(0, [], map[], {}, map[], [], clock);
    }

    method GetSession(id: string, now: int) returns (session: Option<Session>)
      modifies this
      ensures (View(), session) == Load(old(View()), id, now)
    {
      if id !in sessions { return None; }
      var s := sessions[id];
      if now > s.expiresAt {
        s := s.(status := Lapsed);
        sessions := sessions[id := s];
        return None;
      }
      return Some(s);
    }

    method UpdateSession(session: Session)
      modifies this
      ensures View() == SetSession(old(View()), session)
    {
      sessions := sessions[session.id := session];
    }

    method RecordFailedVerification(session: Session, decision: Decision) returns (r: Response)
      modifies this
      ensures (View(), r) == RecordFailure(old(View()), session, cfg, decision)
    {
      var s := session.(failureCount := session.failureCount + 1);
      var nextType := s.captchaType;
      var reported := decision;
      if decision.ChallengeHarder? {
        nextType := Escalation.HarderType(s.captchaType, Escalations(s, cfg));
        s := s.(captchaType := nextType);
      }
      if s.failureCount >= MAX_SESSION_FAILURES {
        s := s.(status := Lapsed);
        reported := Block;
      } else if decision.Block? {
        s := s.(status := Lapsed);
      } else if IsActive(s.status) {
        s := s.(status := RefreshRequired);
        s := s.(challenge := None);
      }
      UpdateSession(s);
      var canRefresh := IsRefreshable(s.status) && s.failureCount < MAX_SESSION_FAILURES && !reported.Block?;
      r := FailedAttempt(reported, nextType, canRefresh);
    }

    method HandleVerifySession(id: string, req: VerifyRequest, now: int) returns (r: Response)
      modifies this
      ensures (View(), r) == Protocol.HandleVerifySession(old(View()), id, req, now, cfg)
    {
      var loaded := GetSession(id, now);
      if loaded.None? { return Refused("SESSION"); }
      if !req.applicationActive || !req.wellFormed { return Refused("BAD_REQUEST"); }
      var session := loaded.value;
      if !IsActive(session.status) { return Refused("SESSION_NOT_ACTIVE"); }
      var (route, routeOK) := RouteForSession(session, req.route);
      if !routeOK {
        r := RecordFailedVerification(session, Retry);
        return;
      }
      if session.requestNonce != "" && req.nonce != session.requestNonce {
        r := RecordFailedVerification(session, Retry);
        return;
      }
      if !req.engine.ok {
        history := LogAttempt(View(), session, Failed).history;
        r := RecordFailedVerification(session, req.engine.decision);
        return;
      }
      if req.ticketValue.None? {
        history := LogAttempt(View(), session, NotIssued).history;
        return Refused("ISSUE_TICKET_FAILED");
      }
      history := LogAttempt(View(), session, Passed).history;
      var ticket := NewTicket(session, req.ticketValue.value, route, now, cfg);
      tickets := tickets[ticket.value := ticket];
      history := history.(ticketSession := history.ticketSession[ticket.value := session.id],
                          verified := history.verified + {session.id});
      session := session.(status := Verified);
      UpdateSession(session);
      r := IssuedTicket(ticket.value);
    }

    method HandleRefreshSession(id: string, applicationActive: bool, challenge: Option<nat>, now: int)
      returns (r: Response)
      modifies this
      ensures (View(), r) == Protocol.HandleRefreshSession(old(View()), id, applicationActive, challenge, now, cfg)
    {
      var loaded := GetSession(id, now);
      if loaded.None? { return Refused("SESSION"); }
      if !applicationActive || !IsRefreshable(loaded.value.status) { return Refused("SESSION_NOT_ACTIVE"); }
      if challenge.None? { return Refused("REFRESH_FAILED"); }
      var refreshed := RenewedSession(loaded.value, challenge.value, now, cfg);
      history := history.(nextChallenge := challenge.value + 1);
      UpdateSession(refreshed);
      r := Refreshed;
    }

    method PutNewSession(n: NewSession, now: int)
      modifies this
      ensures View() == OpenSession(old(View()), n, now, cfg)
    {
      var session := RenewedSession(n.session.(failureCount := 0), n.challenge, now, cfg);
      history := history.(nextChallenge := n.challenge + 1);
      UpdateSession(session);
    }

    method ConsumeOrCheck(use: TicketUse, consume: bool, now: int) returns (outcome: Outcome)
      modifies this
      ensures outcome == Verify(old(tickets), use, consume, now).1
      ensures View() == if outcome.Accepted? && consume then ConsumeTicket(old(View()), use.value, now) else old(View())
    {
      if use.value !in tickets { return Rejected(NotFound); }
      var ticket := tickets[use.value];
      var error := ValidateTicket(ticket, use, now);
      if error.Some? { return Rejected(error.value); }
      if consume {
        ticket := Consume(ticket, now);
        tickets := tickets[use.value := ticket];
      }
      return Accepted(ticket);
    }

    method MintClearance(use: TicketUse, routeTTL: int, value: Option<string>, now: int)
      returns (minted: Option<string>)
      modifies this
      ensures (View(), minted) == Mint(old(View()), use, routeTTL, value, now, cfg)
    {
      if use.scene == "" { return None; }
      if use.ipHash == "" || use.userAgentHash == "" { return None; }
      if value.None? { return None; }
      var ttl := routeTTL;
      if ttl <= 0 { ttl := cfg.clearanceTTL; }
      var clearance := NewClearance(use, value.value, now, ttl);
      clearances := clearances[clearance.value := clearance];
      history := history.(minted := history.minted[clearance.value := Minting(clearance, use.value)]);
      return Some(clearance.value);
    }

    method CheckClearance(value: string, use: TicketUse, now: int) returns (error: Option<StoreError>)
      requires value in clearances
      modifies this
      ensures error == ValidateClearance(old(clearances)[value], use, now)
      ensures View() == if error == Some(Expired) then DropClearance(old(View()), value) else old(View())
    {
      error := ValidateClearance(clearances[value], use, now);
      if error == Some(Expired) {
        clearances := map c | c in clearances && c != value :: clearances[c];
      }
    }

    method Evaluate(challenge: Option<NewSession>, now: int) returns (r: Response)
      modifies this
      ensures (View(), r) == HandleEvaluation(old(View()), challenge, now, cfg)
    {
      if challenge.None? { return Evaluated(None); }
      PutNewSession(challenge.value, now);
      return Evaluated(Some(challenge.value.session.id));
    }

    method HandleEvaluatePolicy(req: PolicyRequest, now: int) returns (r: Response)
      modifies this
      ensures (View(), r) == Protocol.HandleEvaluatePolicy(old(View()), req, now, cfg)
    {
      if !req.gate { return Refused("GATE"); }
      if req.use.value != "" {
        var outcome := ConsumeOrCheck(req.use, true, now);
        if outcome.Rejected? { return Blocked(outcome.error); }
        var minted := MintClearance(req.use, req.routeTTL, req.clearanceValue, now);
        return Allowed("TICKET_CONSUMED", minted);
      }
      if req.clearance != "" && !req.forced && req.clearance in clearances {
        var error := CheckClearance(req.clearance, req.use, now);
        if error.None? {
          history := history.(allows := history.allows + [ClearanceAllow(req.clearance, now)]);
          return Allowed("CLEARANCE_VALID", Some(req.clearance));
        }
      }
      r := Evaluate(req.challenge, now);
    }

    method HandleVerifyTicket(gate: bool, use: TicketUse, consume: bool, routeTTL: int, value: Option<string>,
                              now: int) returns (r: Response)
      modifies this
      ensures (View(), r) == Protocol.HandleVerifyTicket(old(View()), gate, use, consume, routeTTL, value, now, cfg)
    {
      if use.value == "" || use.clientID == "" || use.scene == "" || !gate { return Refused("TICKET_REQUEST"); }
      var outcome := ConsumeOrCheck(use, consume, now);
      if outcome.Rejected? { return TicketInvalid(outcome.error); }
      var minted := None;
      if consume {
        minted := MintClearance(use, routeTTL, value, now);
      }
      r := TicketValid(outcome.ticket, minted);
    }
  }
}
