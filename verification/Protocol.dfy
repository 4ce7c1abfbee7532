/** The life of a challenge: a session is verified, its ticket is consumed, a clearance is minted.
    Every HTTP handler is one step with one clock reading.  Random values and what the engine, the
    policy evaluator and the application checks decide are inputs. */
module Protocol {
  import opened Text
  import opened Tickets
  import Escalation

  const MAX_SESSION_FAILURES := 5

  // ----- Sessions -----

  datatype Status = Blank | Active | RefreshRequired | Verified | Lapsed

  // A generated challenge: its answer and payload are known only by their number and type.
  datatype Challenge = Challenge(number: nat, captchaType: string)

  datatype Session = Session(
    id: string, clientID: string, scene: string, captchaType: string, escalation: seq<string>,
    route: string, requestNonce: string, ipHash: string, userAgentHash: string,
    accountIDHash: string, deviceIDHash: string,
    challenge: Option<Challenge>, failureCount: int, status: Status, expiresAt: int)

  predicate IsActive(s: Status) { s == Active || s == Blank }

  predicate IsRefreshable(s: Status) { IsActive(s) || s == RefreshRequired }

  predicate IsClosed(s: Status) { s == Verified || s == Lapsed }

  datatype Clearance = Clearance(
    value: string, clientID: string, scene: string, ipHash: string, userAgentHash: string,
    accountIDHash: string, deviceIDHash: string, expiresAt: int, createdAt: int)

  function ValidateClearance(c: Clearance, use: TicketUse, now: int): Option<StoreError> {
    if now > c.expiresAt then Some(Expired)
    else if c.clientID != use.clientID || c.scene != use.scene then Some(NotFound)
    else if Binds(c.ipHash, use.ipHash) && Binds(c.userAgentHash, use.userAgentHash)
            && Binds(c.accountIDHash, use.accountIDHash) && Binds(c.deviceIDHash, use.deviceIDHash) then None
    else Some(NotFound)
  }

  // ----- The platform: the stores, and the history the properties speak about -----

  datatype AttemptResult = Failed | Passed | NotIssued

  datatype Attempt = Attempt(challenge: nat, result: AttemptResult)

  datatype Minting = Minting(clearance: Clearance, ticket: string)

  datatype ClearanceAllow = ClearanceAllow(clearance: string, at: int)

  datatype History = History(
    nextChallenge: nat,                      // challenges numbered from here have not been generated
    attempts: seq<Attempt>,                  // engine verifications, in order
    ticketSession: map<string, string>,      // the session each ticket was issued for
    verified: set<string>,                   // the sessions that ever became verified
    minted: map<string, Minting>,            // every clearance ever minted, with the ticket that paid for it
    allows: seq<ClearanceAllow>,             // requests let through by a clearance
    clock: int)

  datatype Platform = Platform(
    sessions: map<string, Session>, tickets: map<string, Ticket>, clearances: map<string, Clearance>, history: History)

  datatype Config = Config(sessionTTL: int, ticketTTL: int, clearanceTTL: int, escalation: seq<string>)

  datatype Decision = Pass | Retry | ChallengeHarder | Block

  datatype EngineResult = EngineResult(ok: bool, decision: Decision)

  datatype NewSession = NewSession(session: Session, challenge: nat)

  datatype VerifyRequest = VerifyRequest(
    applicationActive: bool, wellFormed: bool, route: string, nonce: string,
    engine: EngineResult, ticketValue: Option<string>)

  // What the handler receives beside the presented context: whether the application, secret and IP
  // checks let it through, the route's token TTL, a random clearance value, whether the route forces
  // a challenge, and the challenge session the evaluation leads to, if any.
  datatype PolicyRequest = PolicyRequest(
    gate: bool, use: TicketUse, clearance: string, routeTTL: int, clearanceValue: Option<string>,
    forced: bool, challenge: Option<NewSession>)

  datatype Event =
    | Create(created: NewSession)
    | Show(id: string)
    | VerifySession(id: string, verify: VerifyRequest)
    | RefreshSession(id: string, applicationActive: bool, challenge: Option<nat>)
    | EvaluatePolicy(policy: PolicyRequest)
    | VerifyTicket(gate: bool, use: TicketUse, consume: bool, routeTTL: int, clearanceValue: Option<string>)

  datatype Response =
    | Refused(reason: string)
    | Shown
    | FailedAttempt(decision: Decision, captchaType: string, canRefresh: bool)
    | IssuedTicket(ticket: string)
    | Refreshed
    | Allowed(reason: string, clearance: Option<string>)
    | Blocked(error: StoreError)
    | Evaluated(session: Option<string>)
    | TicketValid(accepted: Ticket, clearance: Option<string>)
    | TicketInvalid(error: StoreError)

  // ----- Session transitions -----

  function SetSession(p: Platform, s: Session): Platform {
    p.(sessions := p.sessions[s.id := s])
  }

  function Escalations(s: Session, cfg: Config): seq<string> {
    if s.escalation != [] then s.escalation else cfg.escalation
  }

  // recordFailedVerification
  function FailedSession(s: Session, cfg: Config, decision: Decision): Session {
    var counted := s.(failureCount := s.failureCount + 1);
    var typed := if decision.ChallengeHarder?
                 then counted.(captchaType := Escalation.HarderType(s.captchaType, Escalations(s, cfg))) else counted;
    if typed.failureCount >= MAX_SESSION_FAILURES || decision.Block? then typed.(status := Lapsed)
    else if IsActive(typed.status) then typed.(status := RefreshRequired, challenge := None)
    else typed
  }

  function FailureResponse(s: Session, failed: Session, cfg: Config, decision: Decision): Response {
    var reported := if failed.failureCount >= MAX_SESSION_FAILURES then Block else decision;
    var nextType := if decision.ChallengeHarder? then Escalation.HarderType(s.captchaType, Escalations(s, cfg))
        else s.captchaType;
    FailedAttempt(reported, nextType,
                  IsRefreshable(failed.status) && failed.failureCount < MAX_SESSION_FAILURES && !reported.Block?)
  }

  function RecordFailure(p: Platform, s: Session, cfg: Config, decision: Decision): (Platform, Response) {
    var failed := FailedSession(s, cfg, decision);
    (SetSession(p, failed), FailureResponse(s, failed, cfg, decision))
  }

  function LogAttempt(p: Platform, s: Session, result: AttemptResult): Platform {
    if s.challenge.None? then p
    else p.(history := p.history.(attempts := p.history.attempts + [Attempt(s.challenge.value.number, result)]))
  }

  function RouteForSession(s: Session, submitted: string): (string, bool) {
    if s.route == "" then (submitted, true)
    else if submitted != "" && submitted != s.route then (s.route, false)
    else (s.route, true)
  }

  function NewTicket(s: Session, value: string, route: string, now: int, cfg: Config): Ticket {
    Ticket(value, s.clientID, s.scene, route, s.requestNonce, s.ipHash, s.userAgentHash, s.accountIDHash,
           s.deviceIDHash, false, now + cfg.ticketTTL, now, None)
  }

  function IssueTicket(p: Platform, s: Session, t: Ticket): Platform {
    var h := p.history.(ticketSession := p.history.ticketSession[t.value := s.id],
        verified := p.history.verified + {s.id});
    SetSession(p.(tickets := p.tickets[t.value := t], history := h), s.(status := Verified))
  }

  function RenewedSession(s: Session, challenge: nat, now: int, cfg: Config): Session {
    s.(challenge := Some(Challenge(challenge, s.captchaType)), status := Active, expiresAt := now + cfg.sessionTTL)
  }

  function PutChallenge(p: Platform, s: Session, challenge: nat): Platform {
    SetSession(p.(history := p.history.(nextChallenge := challenge + 1)), s)
  }

  // engine.NewSession and PutSession
  function OpenSession(p: Platform, n: NewSession, now: int, cfg: Config): Platform {
    PutChallenge(p, RenewedSession(n.session.(failureCount := 0), n.challenge, now, cfg), n.challenge)
  }

  // ----- Tickets and clearances -----

  function ConsumeTicket(p: Platform, value: string, now: int): Platform
    requires value in p.tickets
  {
    p.(tickets := p.tickets[value := Consume(p.tickets[value], now)])
  }

  function NewClearance(use: TicketUse, value: string, now: int, ttl: int): Clearance {
    Clearance(value, use.clientID, use.scene, use.ipHash, use.userAgentHash, use.accountIDHash, use.deviceIDHash,
              now + ttl, now)
  }

  function PutClearance(p: Platform, c: Clearance, ticket: string): Platform {
    p.(clearances := p.clearances[c.value := c],
       history := p.history.(minted := p.history.minted[c.value := Minting(c, ticket)]))
  }

  // withClearance and addClearanceFields: minted only for a complete context, with the route's TTL
  // when it has one.
  function Mint(p: Platform, use: TicketUse, routeTTL: int, value: Option<string>, now: int,
                cfg: Config): (Platform, Option<string>) {
    if use.scene == "" || use.ipHash == "" || use.userAgentHash == "" || value.None? then (p, None)
    else
      var c := NewClearance(use, value.value, now, if routeTTL <= 0 then cfg.clearanceTTL else routeTTL);
      (PutClearance(p, c, use.value), Some(c.value))
  }

  function DropClearance(p: Platform, value: string): Platform {
    p.(clearances := map c | c in p.clearances && c != value :: p.clearances[c])
  }

  function LogAllow(p: Platform, value: string, now: int): Platform {
    p.(history := p.history.(allows := p.history.allows + [ClearanceAllow(value, now)]))
  }

  // ----- Handlers -----

  // GetSession: an overdue session is marked before it is refused.
  function Load(p: Platform, id: string, now: int): (Platform, Option<Session>) {
    if id !in p.sessions then (p, None)
    else if now > p.sessions[id].expiresAt then
      (p.(sessions := p.sessions[id := p.sessions[id].(status := Lapsed)]), None)
    else (p, Some(p.sessions[id]))
  }

  function HandleVerifySession(p: Platform, id: string, req: VerifyRequest, now: int,
                               cfg: Config): (Platform, Response) {
    var (p, loaded) := Load(p, id, now);
    if loaded.None? then (p, Refused("SESSION"))
    else if !req.applicationActive || !req.wellFormed then (p, Refused("BAD_REQUEST"))
    else
      var s := loaded.value;
      var (route, routeOK) := RouteForSession(s, req.route);
      if !IsActive(s.status) then (p, Refused("SESSION_NOT_ACTIVE"))
      else if !routeOK then RecordFailure(p, s, cfg, Retry)
      else if s.requestNonce != "" && req.nonce != s.requestNonce then RecordFailure(p, s, cfg, Retry)
      else if !req.engine.ok then RecordFailure(LogAttempt(p, s, Failed), s, cfg, req.engine.decision)
      else if req.ticketValue.None? then (LogAttempt(p, s, NotIssued), Refused("ISSUE_TICKET_FAILED"))
      else
        var t := NewTicket(s, req.ticketValue.value, route, now, cfg);
        (IssueTicket(LogAttempt(p, s, Passed), s, t), IssuedTicket(t.value))
  }

  function HandleRefreshSession(p: Platform, id: string, applicationActive: bool, challenge: Option<nat>, now: int,
                                cfg: Config): (Platform, Response) {
    var (p, loaded) := Load(p, id, now);
    if loaded.None? then (p, Refused("SESSION"))
    else if !applicationActive || !IsRefreshable(loaded.value.status) then (p, Refused("SESSION_NOT_ACTIVE"))
    else if challenge.None? then (p, Refused("REFRESH_FAILED"))
    else (PutChallenge(p, RenewedSession(loaded.value, challenge.value, now, cfg), challenge.value), Refreshed)
  }

  function HandleTicketUse(p: Platform, use: TicketUse, routeTTL: int, value: Option<string>, now: int,
                           cfg: Config): (Platform, Response) {
    var outcome := Verify(p.tickets, use, true, now).1;
    if outcome.Rejected? then (p, Blocked(outcome.error))
    else
      var (p', minted) := Mint(ConsumeTicket(p, use.value, now), use, routeTTL, value, now, cfg);
      (p', Allowed("TICKET_CONSUMED", minted))
  }

  function HandleEvaluation(p: Platform, challenge: Option<NewSession>, now: int, cfg: Config): (Platform, Response) {
    if challenge.None? then (p, Evaluated(None))
    else (OpenSession(p, challenge.value, now, cfg), Evaluated(Some(challenge.value.session.id)))
  }

  function HandleEvaluatePolicy(p: Platform, req: PolicyRequest, now: int, cfg: Config): (Platform, Response) {
    if !req.gate then (p, Refused("GATE"))
    else if req.use.value != "" then HandleTicketUse(p, req.use, req.routeTTL, req.clearanceValue, now, cfg)
    else if req.clearance == "" || req.forced || req.clearance !in p.clearances
    then HandleEvaluation(p, req.challenge, now, cfg)
    else
      var error := ValidateClearance(p.clearances[req.clearance], req.use, now);
      if error.None? then (LogAllow(p, req.clearance, now), Allowed("CLEARANCE_VALID", Some(req.clearance)))
      else
        var left := if error == Some(Expired) then DropClearance(p, req.clearance) else p;
        HandleEvaluation(left, req.challenge, now, cfg)
  }

  function HandleVerifyTicket(p: Platform, gate: bool, use: TicketUse, consume: bool, routeTTL: int,
                              value: Option<string>, now: int, cfg: Config): (Platform, Response) {
    if use.value == "" || use.clientID == "" || use.scene == "" || !gate then (p, Refused("TICKET_REQUEST"))
    else
      var outcome := Verify(p.tickets, use, consume, now).1;
      if outcome.Rejected? then (p, TicketInvalid(outcome.error))
      else if !consume then (p, TicketValid(outcome.ticket, None))
      else
        var (p', minted) := Mint(ConsumeTicket(p, use.value, now), use, routeTTL, value, now, cfg);
        (p', TicketValid(outcome.ticket, minted))
  }

  function Handle(p: Platform, e: Event, now: int, cfg: Config): (Platform, Response) {
    match e
    case Create(n) => (OpenSession(p, n, now, cfg), Shown)
    case Show(id) => (Load(p, id, now).0, Shown)
    case VerifySession(id, req) => HandleVerifySession(p, id, req, now, cfg)
    case RefreshSession(id, active, challenge) => HandleRefreshSession(p, id, active, challenge, now, cfg)
    case EvaluatePolicy(req) => HandleEvaluatePolicy(p, req, now, cfg)
    case VerifyTicket(gate, use, consume, routeTTL, value) =>
      HandleVerifyTicket(p, gate, use, consume, routeTTL, value, now, cfg)
  }

  // One request: the clock moves on, then the handler runs.
  function Serve(p: Platform, e: Event, now: int, cfg: Config): (Platform, Response) {
    Handle(p.(history := p.history.(clock := now)), e, now, cfg)
  }
}
