/** Which sessions became verified: in every step exactly those whose status turns Verified, and over
    whole runs exactly those a ticket was issued for, one ticket each. */
module ProtocolVerified {
  import opened Text
  import opened Tickets
  import opened Protocol
  import opened ProtocolSafety
  import ProtocolTheorems

  predicate IsVerified(sessions: map<string, Session>, id: string) {
    id in sessions && sessions[id].status == Verified
  }

  // A verified session is on record.
  ghost predicate Recorded(sessions: map<string, Session>, verified: set<string>) {
    forall id :: IsVerified(sessions, id) ==> id in verified
  }

  // The record grows by sessions that were active and are verified now, and misses none.
  ghost predicate RecordGrows(p: Platform, p': Platform) {
    && p.history.verified <= p'.history.verified
    && (forall id :: IsVerified(p'.sessions, id) ==> IsVerified(p.sessions, id) || id in p'.history.verified)
    && (forall id :: id in p'.history.verified - p.history.verified ==>
          id in p.sessions && IsActive(p.sessions[id].status) && IsVerified(p'.sessions, id))
  }

  // Storing a session that is not verified leaves the record as it was.
  lemma SetGrows(p: Platform, s: Session)
    requires s.status != Verified
    ensures RecordGrows(p, SetSession(p, s))
  {
  }

  lemma LoadGrows(p: Platform, id: string, now: int)
    requires Inv(p)
    ensures RecordGrows(p, Load(p, id, now).0)
  {
  }

  lemma FailureGrows(p: Platform, s: Session, cfg: Config, decision: Decision, result: AttemptResult)
    requires IsActive(s.status)
    ensures RecordGrows(p, RecordFailure(p, s, cfg, decision).0)
    ensures RecordGrows(p, RecordFailure(LogAttempt(p, s, result), s, cfg, decision).0)
  {
    FailedIsNotVerified(s, cfg, decision);
    hide FailedSession;
    SetGrows(p, FailedSession(s, cfg, decision));
  }

  lemma FailedIsNotVerified(s: Session, cfg: Config, decision: Decision)
    requires IsActive(s.status)
    ensures FailedSession(s, cfg, decision).status != Verified
  {
  }

  lemma IssueGrows(p: Platform, s: Session, t: Ticket)
    requires s.id in p.sessions && p.sessions[s.id] == s && IsActive(s.status)
    ensures RecordGrows(p, IssueTicket(LogAttempt(p, s, Passed), s, t))
  {
  }

  lemma NotIssuedGrows(p: Platform, s: Session)
    ensures RecordGrows(p, LogAttempt(p, s, NotIssued))
  {
  }

  lemma VerifySessionGrows(p: Platform, id: string, req: VerifyRequest, now: int, cfg: Config)
    requires Inv(p)
    ensures RecordGrows(p, HandleVerifySession(p, id, req, now, cfg).0)
  {
    LoadKeeps(p, id, now);
    LoadGrows(p, id, now);
    hide Inv, Load, RecordFailure, IssueTicket, LogAttempt, RecordGrows;
    var (p1, loaded) := Load(p, id, now);
    if loaded.Some? && IsActive(loaded.value.status) {
      var s := loaded.value;
      NotIssuedGrows(p, s);
      FailureGrows(p, s, cfg, Retry, Failed);
      FailureGrows(p, s, cfg, req.engine.decision, Failed);
      if req.ticketValue.Some? {
        IssueGrows(p, s, NewTicket(s, req.ticketValue.value, RouteForSession(s, req.route).0, now, cfg));
      }
    }
  }

  lemma RefreshSessionGrows(p: Platform, id: string, active: bool, challenge: Option<nat>, now: int, cfg: Config)
    requires Inv(p)
    ensures RecordGrows(p, HandleRefreshSession(p, id, active, challenge, now, cfg).0)
  {
    LoadKeeps(p, id, now);
    LoadGrows(p, id, now);
    hide Inv, Load;
  }

  lemma OpenGrows(p: Platform, n: NewSession, now: int, cfg: Config)
    ensures RecordGrows(p, OpenSession(p, n, now, cfg))
  {
  }

  // Ticket use touches neither sessions nor the record.
  lemma TicketUseGrows(p: Platform, use: TicketUse, routeTTL: int, value: Option<string>, now: int, cfg: Config)
    ensures RecordGrows(p, HandleTicketUse(p, use, routeTTL, value, now, cfg).0)
  {
    hide ValidateTicket, NewClearance;
  }

  lemma EvaluatePolicyGrows(p: Platform, req: PolicyRequest, now: int, cfg: Config)
    ensures RecordGrows(p, HandleEvaluatePolicy(p, req, now, cfg).0)
  {
    TicketUseGrows(p, req.use, req.routeTTL, req.clearanceValue, now, cfg);
    if req.challenge.Some? {
      OpenGrows(p, req.challenge.value, now, cfg);
      OpenGrows(DropClearance(p, req.clearance), req.challenge.value, now, cfg);
    }
    hide HandleTicketUse, OpenSession, ValidateClearance;
  }

  lemma VerifyTicketGrows(p: Platform, gate: bool, use: TicketUse, consume: bool, routeTTL: int,
                          value: Option<string>, now: int, cfg: Config)
    ensures RecordGrows(p, HandleVerifyTicket(p, gate, use, consume, routeTTL, value, now, cfg).0)
  {
    hide ValidateTicket, NewClearance;
  }

  lemma ServeGrows(p: Platform, e: Event, now: int, cfg: Config)
    requires Inv(p) && now >= p.history.clock
    ensures RecordGrows(p, Serve(p, e, now, cfg).0)
  {
    ClockKeeps(p, now);
    hide Inv, Handle;
    var q := p.(history := p.history.(clock := now));
    HandleGrows(q, e, now, cfg);
  }

  lemma HandleGrows(p: Platform, e: Event, now: int, cfg: Config)
    requires Inv(p)
    ensures RecordGrows(p, Handle(p, e, now, cfg).0)
  {
    hide Inv, RecordGrows, OpenSession, Load, HandleVerifySession, HandleRefreshSession, HandleEvaluatePolicy,
        HandleVerifyTicket;
    match e {
      case Create(n) => OpenGrows(p, n, now, cfg);
      case Show(id) => LoadGrows(p, id, now);
      case VerifySession(id, req) => VerifySessionGrows(p, id, req, now, cfg);
      case RefreshSession(id, active, challenge) => RefreshSessionGrows(p, id, active, challenge, now, cfg);
      case EvaluatePolicy(req) => EvaluatePolicyGrows(p, req, now, cfg);
      case VerifyTicket(gate, use, consume, routeTTL, value) =>
        VerifyTicketGrows(p, gate, use, consume, routeTTL, value, now, cfg);
    }
  }

  // ----- Whole runs -----

  lemma {:induction false} RunsRecord(p: Platform, requests: seq<Request>, cfg: Config, p': Platform)
    requires Inv(p) && Recorded(p.sessions, p.history.verified) && Runs(p, requests, cfg, p')
    ensures Recorded(p'.sessions, p'.history.verified)
    decreases requests
  {
    hide Inv, Serve;
    if requests != [] {
      var r := requests[0];
      ServeKeeps(p, r.event, r.now, cfg);
      ServeGrows(p, r.event, r.now, cfg);
      RunsRecord(Serve(p, r.event, r.now, cfg).0, requests[1..], cfg, p');
    }
  }

  lemma ReachableRecorded(p: Platform, cfg: Config)
    requires Reachable(p, cfg)
    ensures Recorded(p.sessions, p.history.verified)
  {
    var clock, requests :| Runs(Initial(clock), requests, cfg, p);
    RunsRecord(Initial(clock), requests, cfg, p);
  }

  // A session is on record only if a ticket was issued for it, and closed since.
  lemma RecordedAreClosed(p: Platform, id: string)
    requires Inv(p) && id in p.history.verified
    ensures id in p.sessions && IsClosed(p.sessions[id].status)
  {
    var v :| v in p.history.ticketSession && p.history.ticketSession[v] == id;
    assert IssuedFor(p.tickets[v], p.sessions[id]);
  }

  lemma EntersExactly(p: Platform, p': Platform, id: string)
    requires RecordGrows(p, p') && Recorded(p.sessions, p.history.verified)
    requires id in p.history.verified ==>
               && id in p.sessions && id in p'.sessions && IsClosed(p.sessions[id].status)
               && ProtocolTheorems.SessionPersists(p.sessions[id], p'.sessions[id])
    ensures id in p'.history.verified && id !in p.history.verified
            <==> IsVerified(p'.sessions, id) && !IsVerified(p.sessions, id)
  {
  }

  // In every step exactly those sessions enter the record whose status becomes Verified.
  lemma EntersRecordExactly(p: Platform, e: Event, now: int, cfg: Config, id: string)
    requires Reachable(p, cfg) && Fresh(p, e, now)
    ensures var p' := Serve(p, e, now, cfg).0;
            id in p'.history.verified && id !in p.history.verified
            <==> IsVerified(p'.sessions, id) && !IsVerified(p.sessions, id)
  {
    assert now >= p.history.clock;
    hide *;
    ReachableInv(p, cfg);
    ServeGrows(p, e, now, cfg);
    ReachableRecorded(p, cfg);
    var p' := Serve(p, e, now, cfg).0;
    if id in p.history.verified {
      RecordedAreClosed(p, id);
      ProtocolTheorems.RequestPersists(p, e, now, cfg);
      PersistsAt(p, p', now, id);
    }
    EntersExactly(p, p', id);
  }

  lemma PersistsAt(p: Platform, p': Platform, now: int, id: string)
    requires ProtocolTheorems.Persists(p, p', now) && id in p.sessions
    ensures id in p'.sessions && ProtocolTheorems.SessionPersists(p.sessions[id], p'.sessions[id])
  {
  }

  ghost function KeyOf(m: map<string, string>, x: string): (k: string)
    requires x in m.Values
    ensures k in m && m[k] == x
  {
    var k :| k in m && m[k] == x;
    k
  }

  // An injective map has as many values as keys.
  lemma ValuesCount(m: map<string, string>)
    requires forall k, l :: k in m && l in m && k != l ==> m[k] != m[l]
    ensures |m.Values| == |m.Keys|
  {
    ProtocolTheorems.InjectionBounds(m.Keys, m, m.Values);
    var inverse := map x | x in m.Values :: KeyOf(m, x);
    ProtocolTheorems.InjectionBounds(m.Values, inverse, m.Keys);
  }

  // Over any run, one ticket for every session that became verified: each of them is closed, each ticket
  // belongs to one of them, and there are as many.
  lemma OneTicketPerVerifiedSession(p: Platform, cfg: Config)
    requires Reachable(p, cfg)
    ensures p.history.ticketSession.Keys == p.tickets.Keys
    ensures p.history.ticketSession.Values == p.history.verified
    ensures |p.tickets| == |p.history.verified|
    ensures forall id :: id in p.history.verified ==> id in p.sessions && IsClosed(p.sessions[id].status)
    ensures forall id :: IsVerified(p.sessions, id) ==> id in p.history.verified
  {
    ReachableInv(p, cfg);
    ReachableRecorded(p, cfg);
    forall id | id in p.history.verified ensures id in p.sessions && IsClosed(p.sessions[id].status) {
      RecordedAreClosed(p, id);
    }
    ValuesCount(p.history.ticketSession);
    assert |p.tickets| == |p.tickets.Keys|;
  }
}
