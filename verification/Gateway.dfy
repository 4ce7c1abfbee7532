/** Local decisions of the gateway, made on its cached configuration, against what the server would answer
    over the same lists, request and clock. */
module Gateway {
  import opened Text
  import opened Sorting
  import opened PolicyRules

  datatype IPPolicy = IPPolicy(kind: string, cidr: string, action: Decision, enabled: bool)

  datatype Route = Route(id: string, pathPattern: string, httpMethod: string, mode: string, priority: int,
                         enabled: bool, rolloutPercent: int)

  // Address parsing and containment, the rollout hash of routes, and the tests of rules.
  datatype World = World(parses: string -> bool, contains: (string, string) -> bool,
                         bucket: (Route, Request) -> nat, tests: Tests)

  datatype Config = Config(applicationStatus: string, ipPolicies: seq<IPPolicy>, rules: seq<Rule>, routes: seq<Route>)

  // ----- What both sides compute -----

  predicate Listed(p: IPPolicy, kind: string) {
    if kind != "" then EqualFold(p.kind, kind)
    else !EqualFold(p.kind, "allowlist") && !EqualFold(p.kind, "blocklist")
  }

  predicate IPMatches(p: IPPolicy, kind: string, ip: string, world: World) {
    p.enabled && Listed(p, kind) && world.contains(p.cidr, ip)
  }

  function FirstIPPolicy(policies: seq<IPPolicy>, kind: string, ip: string, world: World): Option<Decision> {
    match FirstMatch(policies, (p: IPPolicy) => IPMatches(p, kind, ip, world))
    case Some(p) => Some(p.action)
    case None => None
  }

  // The allow list goes first, then the block list, then anything else.
  function IPDecision(policies: seq<IPPolicy>, ip: string, world: World): Option<Decision> {
    if ip == "" || !world.parses(ip) then None
    else
      var allow := FirstIPPolicy(policies, "allowlist", ip, world);
      if allow.Some? then allow
      else
        var block := FirstIPPolicy(policies, "blocklist", ip, world);
        if block.Some? then block else FirstIPPolicy(policies, "", ip, world)
  }

  predicate RouteMatches(r: Route, req: Request, world: World) {
    && r.enabled
    && (r.httpMethod == "" || ToUpper(r.httpMethod) == ToUpper(req.httpMethod))
    && MatchPath(r.pathPattern, req.path)
    && (RolloutPercent(r.rolloutPercent) >= 100 || world.bucket(r, req) < RolloutPercent(r.rolloutPercent))
  }

  function ByRoutePriority(): (Route, Route) -> bool {
    (a: Route, b: Route) => a.priority > b.priority
  }

  function MatchedRoute(routes: seq<Route>, req: Request, world: World): Option<Route> {
    FirstMatch(StableSort(routes, ByRoutePriority()), (r: Route) => RouteMatches(r, req, world))
  }

  datatype Mode = ManualBypass | Silent | ObserveMode | ForceChallenge | Always | RateLimited | RiskBased | UnknownMode

  function ModeOf(r: Route): Mode {
    var mode := ToLower(TrimSpace(r.mode));
    if mode == "manual_bypass" then ManualBypass
    else if mode == "silent" then Silent
    else if mode == "observe" then ObserveMode
    else if mode == "force_challenge" || mode == "always_challenge" then ForceChallenge
    else if mode == "always" then Always
    else if mode == "rate_limit" then RateLimited
    else if mode == "risk_based" then RiskBased
    else UnknownMode
  }

  // ----- The server: the application gate, then Evaluate -----

  // What the server's counters and risk scores contribute: whether a rule's aggregation has any key and is
  // over its limit, and the outcome of rate-limited and risk-based routes.
  datatype Counters = Counters(anyKey: Rule -> bool, over: Rule -> bool, rateLimited: Route -> Decision,
                               riskBased: Route -> Decision)

  function RuleAction(rule: Rule, counters: Counters): Decision {
    var base := if rule.action.Unset? then Observe else rule.action;
    if !Aggregated(rule.aggregation) then base
    else if !counters.anyKey(rule) then Allow
    else if counters.over(rule) then base
    else Allow
  }

  function RouteAction(route: Option<Route>, counters: Counters): Decision {
    if route.None? then Allow
    else
      match ModeOf(route.value)
      case ForceChallenge => Challenge
      case Always => Challenge
      case RateLimited => counters.rateLimited(route.value)
      case RiskBased => counters.riskBased(route.value)
      case Silent => Observe
      case ObserveMode => Observe
      case ManualBypass => Allow
      case UnknownMode => Allow
  }

  function WithClient(req: Request): Request {
    if req.clientID == "" then req.(clientID := "demo") else req
  }

  function Evaluate(c: Config, request: Request, now: int, world: World, counters: Counters): Decision {
    var req := WithClient(request);
    var byIP := IPDecision(c.ipPolicies, req.ip, world);
    if byIP.Some? then byIP.value
    else
      var rule := MatchedRule(c.rules, req, now, world.tests);
      if rule.Some? then RuleAction(rule.value, counters)
      else RouteAction(MatchedRoute(c.routes, req, world), counters)
  }

  // The gate: an application that is not active is blocked before anything else.
  function ServerDecision(c: Config, req: Request, now: int, world: World, counters: Counters): Decision {
    if !EqualFold(c.applicationStatus, "active") then Block else Evaluate(c, req, now, world, counters)
  }

  // ----- The gateway -----

  predicate AppBlocked(c: Config) { c.applicationStatus != "" && !EqualFold(c.applicationStatus, "active") }

  // A matched rule the gateway cannot apply on its own is passed over, and the routes are tried.
  function CachedRule(c: Config, req: Request, now: int, world: World): Option<Decision> {
    match MatchedRule(c.rules, req, now, world.tests)
    case None => None
    case Some(rule) =>
      if Aggregated(rule.aggregation) || ChallengeLike(rule.action) then None
      else if AllowLike(rule.action) || BlockLike(rule.action) then Some(rule.action)
      else None
  }

  function CachedRoute(c: Config, req: Request, world: World): Option<Decision> {
    match MatchedRoute(c.routes, req, world)
    case None => Some(Allow)
    case Some(route) =>
      match ModeOf(route)
      case ManualBypass => Some(Allow)
      case Silent => Some(Observe)
      case ObserveMode => Some(Observe)
      case _ => None
  }

  function LocalDecision(c: Config, req: Request, now: int, world: World): Option<Decision> {
    if req.ticket != "" then None
    else if AppBlocked(c) then Some(Block)
    else
      match IPDecision(c.ipPolicies, req.ip, world)
      case Some(action) => if action.Allow? || action.Block? then Some(action) else None
      case None =>
        var rule := CachedRule(c, req, now, world);
        if rule.Some? then rule else CachedRoute(c, req, world)
  }

  // The decision made before tickets are looked at.
  function HardDecision(c: Config, req: Request, world: World): Option<Decision> {
    if AppBlocked(c) then Some(Block)
    else
      match IPDecision(c.ipPolicies, req.ip, world)
      case Some(action) => if action.Allow? || action.Block? then Some(action) else None
      case None => None
  }

  class ConfigCache {
    var snapshot: Config
    var ready: bool

    constructor ()
      ensures !ready
    {
      snapshot, ready := Config("", [], [], []), false;
    }

    method Update(c: Config)
      modifies this
      ensures ready && snapshot == c
    {
      snapshot, ready := c, true;
    }

    method FirstMatchingCachedIPPolicy(kind: string, ip: string, world: World) returns (action: Option<Decision>)
      ensures action == FirstIPPolicy(snapshot.ipPolicies, kind, ip, world)
    {
      hide Listed;
      var policies := snapshot.ipPolicies;
      ghost var p := (p: IPPolicy) => IPMatches(p, kind, ip, world);
      for i := 0 to |policies|
        invariant FirstMatch(policies, p) == FirstMatch(policies[i..], p)
      {
        var policy := policies[i];
        if policy.enabled && Listed(policy, kind) && world.contains(policy.cidr, ip) { return Some(policy.action); }
      }
      return None;
    }

    method EvaluateCachedIP(ip: string, world: World) returns (action: Option<Decision>)
      ensures action == IPDecision(snapshot.ipPolicies, ip, world)
    {
      hide FirstIPPolicy;
      if ip == "" || !world.parses(ip) { return None; }
      action := FirstMatchingCachedIPPolicy("allowlist", ip, world);
      if action.Some? { return; }
      action := FirstMatchingCachedIPPolicy("blocklist", ip, world);
      if action.Some? { return; }
      action := FirstMatchingCachedIPPolicy("", ip, world);
    }

    method MatchCachedRoute(req: Request, world: World) returns (route: Option<Route>)
      ensures route == MatchedRoute(snapshot.routes, req, world)
    {
      hide RouteMatches;
      var candidates := StableSort(snapshot.routes, ByRoutePriority());
      ghost var p := (r: Route) => RouteMatches(r, req, world);
      for i := 0 to |candidates|
        invariant MatchedRoute(snapshot.routes, req, world) == FirstMatch(candidates[i..], p)
      {
        if RouteMatches(candidates[i], req, world) { return Some(candidates[i]); }
      }
      return None;
    }

    method EvaluateCachedPolicyRules(req: Request, now: int, world: World) returns (action: Option<Decision>)
      ensures action == CachedRule(snapshot, req, now, world)
    {
      var rule := EvaluatePolicyRules(snapshot.rules, req, now, world.tests);
      if rule.None? { return None; }
      if Aggregated(rule.value.aggregation) || ChallengeLike(rule.value.action) { return None; }
      if AllowLike(rule.value.action) || BlockLike(rule.value.action) { return Some(rule.value.action); }
      return None;
    }

    // Nothing is decided locally before the first snapshot has arrived.
    method Decide(req: Request, now: int, world: World) returns (decision: Option<Decision>)
      ensures decision == if ready then LocalDecision(snapshot, req, now, world) else None
    {
      hide IPDecision, CachedRule, MatchedRoute, ModeOf;
      if req.ticket != "" || !ready { return None; }
      if AppBlocked(snapshot) { return Some(Block); }
      var byIP := EvaluateCachedIP(req.ip, world);
      if byIP.Some? {
        if byIP.value.Allow? || byIP.value.Block? { return byIP; }
        return None;
      }
      var byRule := EvaluateCachedPolicyRules(req, now, world);
      if byRule.Some? { return byRule; }
      var route := MatchCachedRoute(req, world);
      if route.None? { return Some(Allow); }
      match ModeOf(route.value) {
        case ManualBypass => return Some(Allow);
        case Silent => return Some(Observe);
        case ObserveMode => return Some(Observe);
        case _ => return None;
      }
    }
  }

  // ----- What the first match is -----

  // An enabled policy on the list asked for, or on neither named list, that contains the address.
  ghost predicate PolicyFits(p: IPPolicy, kind: string, ip: string, world: World) {
    && p.enabled && world.contains(p.cidr, ip)
    && if kind == "" then ToLower(p.kind) !in ["allowlist", "blocklist"] else ToLower(p.kind) == ToLower(kind)
  }

  lemma PolicyFitsExactly(p: IPPolicy, kind: string, ip: string, world: World)
    ensures PolicyFits(p, kind, ip, world) <==> IPMatches(p, kind, ip, world)
  {
    assert ToLower("allowlist") == "allowlist" && ToLower("blocklist") == "blocklist";
    hide ToLower;
  }

  // The first policy of a kind that contains the address decides for that kind.
  ghost predicate Decides(policies: seq<IPPolicy>, kind: string, ip: string, world: World, i: int) {
    && 0 <= i < |policies| && PolicyFits(policies[i], kind, ip, world)
    && forall j :: 0 <= j < i ==> !PolicyFits(policies[j], kind, ip, world)
  }

  lemma {:induction false} FirstIPPolicyDecides(policies: seq<IPPolicy>, kind: string, ip: string, world: World)
    ensures var d := FirstIPPolicy(policies, kind, ip, world);
            if d.Some? then exists i :: Decides(policies, kind, ip, world, i) && policies[i].action == d.value
            else forall i :: 0 <= i < |policies| ==> !PolicyFits(policies[i], kind, ip, world)
  {
    hide PolicyFits, IPMatches;
    if policies != [] {
      var rest := policies[1..];
      PolicyFitsExactly(policies[0], kind, ip, world);
      FirstIPPolicyDecides(rest, kind, ip, world);
      if PolicyFits(policies[0], kind, ip, world) {
        assert Decides(policies, kind, ip, world, 0);
      } else {
        assert FirstIPPolicy(policies, kind, ip, world) == FirstIPPolicy(rest, kind, ip, world);
        forall i | 0 < i < |policies| ensures policies[i] == rest[i - 1] {}
        if i :| Decides(rest, kind, ip, world, i) && rest[i].action == FirstIPPolicy(rest, kind, ip, world).value {
          assert Decides(policies, kind, ip, world, i + 1);
        }
      }
    }
  }

  // An address on the allow list is never judged by the block list, nor one on either by anything else.
  lemma AllowListGoesFirst(policies: seq<IPPolicy>, ip: string, world: World, kind: string, i: int)
    requires ip != "" && world.parses(ip) && kind in ["allowlist", "blocklist", ""]
    requires Decides(policies, kind, ip, world, i)
    requires kind != "allowlist" ==>
               forall j :: 0 <= j < |policies| ==> !PolicyFits(policies[j], "allowlist", ip, world)
    requires kind == "" ==> forall j :: 0 <= j < |policies| ==> !PolicyFits(policies[j], "blocklist", ip, world)
    ensures IPDecision(policies, ip, world) == Some(policies[i].action)
  {
    hide PolicyFits, FirstIPPolicy;
    FirstIPPolicyDecides(policies, "allowlist", ip, world);
    FirstIPPolicyDecides(policies, "blocklist", ip, world);
    FirstIPPolicyDecides(policies, "", ip, world);
    var d := FirstIPPolicy(policies, kind, ip, world);
    if d.Some? {
      var k :| Decides(policies, kind, ip, world, k) && policies[k].action == d.value;
      assert k == i;
    }
  }

  // An enabled route for the request's method and path that is rolled out to it.
  ghost predicate RouteFits(r: Route, req: Request, world: World) {
    && r.enabled && (r.httpMethod == "" || ToUpper(r.httpMethod) == ToUpper(req.httpMethod))
    && PathFits(r.pathPattern, req.path)
    && (r.rolloutPercent <= 0 || r.rolloutPercent >= 100 || world.bucket(r, req) < r.rolloutPercent)
  }

  // Such a route that none outranks, and the earliest of its priority.
  ghost predicate RouteOutranks(routes: seq<Route>, req: Request, world: World, i: int)
    requires 0 <= i < |routes|
  {
    && RouteFits(routes[i], req, world)
    && forall j :: 0 <= j < |routes| && RouteFits(routes[j], req, world) ==>
         routes[j].priority <= routes[i].priority && (j < i ==> routes[j].priority < routes[i].priority)
  }

  lemma RouteFitsExactly(r: Route, req: Request, world: World)
    ensures RouteFits(r, req, world) <==> RouteMatches(r, req, world)
  {
    PathFitsExactly(r.pathPattern, req.path);
    hide PathFits, MatchPath, ToUpper;
  }

  lemma MatchedRouteOutranks(routes: seq<Route>, req: Request, world: World)
    ensures var m := MatchedRoute(routes, req, world);
            if m.None? then forall i :: 0 <= i < |routes| ==> !RouteFits(routes[i], req, world)
            else exists i :: 0 <= i < |routes| && routes[i] == m.value && RouteOutranks(routes, req, world, i)
  {
    hide RouteMatches, RouteFits;
    var p := (r: Route) => RouteMatches(r, req, world);
    FirstMatchOfSorted(routes, ByRoutePriority(), p);
    forall r ensures p(r) <==> RouteFits(r, req, world) { RouteFitsExactly(r, req, world); }
    var m := MatchedRoute(routes, req, world);
    if m.Some? {
      var i :| IsBest(routes, ByRoutePriority(), p, i) && routes[i] == m.value;
      forall j | 0 <= j < |routes| && RouteFits(routes[j], req, world)
        ensures routes[j].priority <= routes[i].priority && (j < i ==> routes[j].priority < routes[i].priority)
      {
        assert p(routes[j]);
      }
      assert RouteOutranks(routes, req, world, i);
    } else {
      forall i | 0 <= i < |routes| ensures !RouteFits(routes[i], req, world) { assert !p(routes[i]); }
    }
  }

  // ----- Agreement -----

  // The snapshot c and the server's lists s: the same entries in the same order within every priority, however
  // the priorities are interleaved.
  ghost predicate SameLists(c: Config, s: Config) {
    && c.applicationStatus == s.applicationStatus && c.ipPolicies == s.ipPolicies
    && SameGroups(c.rules, s.rules, ByRulePriority()) && SameGroups(c.routes, s.routes, ByRoutePriority())
  }

  lemma SameListsMatch(c: Config, s: Config, req: Request, now: int, world: World)
    requires SameLists(c, s)
    ensures MatchedRule(c.rules, req, now, world.tests) == MatchedRule(s.rules, req, now, world.tests)
    ensures MatchedRoute(c.routes, req, world) == MatchedRoute(s.routes, req, world)
  {
    StableSortByGroups(c.rules, s.rules, ByRulePriority());
    StableSortByGroups(c.routes, s.routes, ByRoutePriority());
  }

  // Every block-like local decision is the server's own.
  lemma BlockLikeAgrees(c: Config, s: Config, req: Request, now: int, world: World, counters: Counters)
    requires SameLists(c, s) && c.applicationStatus != "" && req.clientID != ""
    ensures var d := LocalDecision(c, req, now, world);
            d.Some? && BlockLike(d.value) ==> ServerDecision(s, req, now, world, counters) == d.value
  {
    SameListsMatch(c, s, req, now, world);
    hide IPDecision, MatchedRule, MatchedRoute, ModeOf, EqualFold, SameGroups;
  }

  // The rule in the way of a local decision, if the first matching rule is one the gateway passes over.
  function PassedOver(c: Config, req: Request, now: int, world: World): Option<Rule> {
    match MatchedRule(c.rules, req, now, world.tests)
    case None => None
    case Some(rule) => if CachedRule(c, req, now, world).Some? then None else Some(rule)
  }

  // Unless a rule was passed over, every local decision is the server's own.
  lemma LocalAgrees(c: Config, s: Config, req: Request, now: int, world: World, counters: Counters)
    requires SameLists(c, s) && c.applicationStatus != "" && req.clientID != ""
    requires PassedOver(c, req, now, world).None?
    ensures var d := LocalDecision(c, req, now, world);
            d.Some? ==> ServerDecision(s, req, now, world, counters) == d.value
  {
    SameListsMatch(c, s, req, now, world);
    hide IPDecision, MatchedRule, MatchedRoute, ModeOf, EqualFold, SameGroups;
  }

  // When one was passed over and a decision is still made, it comes from a route; the two sides agree
  // exactly in these cases: the rule has no action and the route observes, or the rule is aggregated and its
  // counters let the request through and the route allows it, or they do not and its action is the route's.
  lemma PassedOverExactly(c: Config, s: Config, req: Request, now: int, world: World, counters: Counters)
    requires SameLists(c, s) && c.applicationStatus != "" && req.clientID != ""
    requires PassedOver(c, req, now, world).Some? && LocalDecision(c, req, now, world).Some?
    requires !AppBlocked(c) && IPDecision(c.ipPolicies, req.ip, world).None?
    ensures var rule, d := PassedOver(c, req, now, world).value, LocalDecision(c, req, now, world).value;
            var through := Aggregated(rule.aggregation) && !(counters.anyKey(rule) && counters.over(rule));
            && (d == Allow || d == Observe)
            && (ServerDecision(s, req, now, world, counters) == d <==>
                  if through then d == Allow
                  else if rule.action.Unset? then d == Observe
                  else Aggregated(rule.aggregation) && rule.action == d)
  {
    SameListsMatch(c, s, req, now, world);
    hide IPDecision, MatchedRule, MatchedRoute, ModeOf, EqualFold, SameGroups;
  }

  // An application without a status is let through locally and blocked by the server.
  lemma EmptyStatusDiffers(c: Config, req: Request, now: int, world: World, counters: Counters)
    requires c.applicationStatus == ""
    ensures ServerDecision(c, req, now, world, counters) == Block && !AppBlocked(c)
    ensures HardDecision(c, req, world) == if IPDecision(c.ipPolicies, req.ip, world) in {Some(Allow), Some(Block)}
                                           then IPDecision(c.ipPolicies, req.ip, world) else None
  {
    assert |ToLower("")| != |ToLower("active")|;
    hide IPDecision, ToLower;
  }

  // What is decided before tickets are looked at stands without one, and is the server's decision.
  lemma HardDecisionAgrees(c: Config, s: Config, req: Request, now: int, world: World, counters: Counters)
    requires SameLists(c, s) && c.applicationStatus != "" && req.clientID != "" && HardDecision(c, req, world).Some?
    ensures ServerDecision(s, req, now, world, counters) == HardDecision(c, req, world).value
    ensures LocalDecision(c, req.(ticket := ""), now, world) == HardDecision(c, req, world)
  {
    hide IPDecision, MatchedRule, MatchedRoute, ModeOf, EqualFold;
  }

  // The gateway lets through what the server challenges: a challenge rule in front of an open route.
  lemma ChallengeRuleIsPassedOver(req: Request, now: int, world: World, counters: Counters)
    requires req.clientID != "" && req.ticket == ""
    ensures var anything := Condition([], [], None, "", "", []);
            var rule := Rule("r", "", "", 0, true, "", Scope("", [], [], [], [], None, None, 0), anything,
                Aggregation(0, 0, []), Challenge, 100);
            var c := Config("active", [], [rule], []);
            LocalDecision(c, req, now, world) == Some(Allow)
                && ServerDecision(c, req, now, world, counters) == Challenge
  {
    var anything := Condition([], [], None, "", "", []);
    var rule := Rule("r", "", "", 0, true, "", Scope("", [], [], [], [], None, None, 0), anything,
        Aggregation(0, 0, []), Challenge, 100);
    var c := Config("active", [], [rule], []);
    assert RuleMatches(rule, req, now, world.tests) by {
      assert TrimSpace("") == "" && |ToLower("")| != |ToLower("retired")|;
    }
    assert StableSort([rule], ByRulePriority()) == [rule];
    assert MatchedRule([rule], req, now, world.tests) == Some(rule);
    assert MatchedRoute([], req, world) == None;
    assert FirstIPPolicy([], "allowlist", req.ip, world) == FirstIPPolicy([], "blocklist", req.ip, world)
        == FirstIPPolicy([], "", req.ip, world) == None;
    hide RuleMatches, MatchedRule, MatchedRoute, FirstIPPolicy, ToLower, TrimSpace;
    assert IPDecision([], req.ip, world) == None;
    assert EqualFold("active", "active");
  }


  // ----- Routes by the mode they are written with -----

  function ModeText(r: Route): string { ToLower(TrimSpace(r.mode)) }

  // With nothing before the routes, the gateway allows without a route or by a bypass, observes a silent or
  // observing route, and leaves every other mode to the server, which challenges the forcing ones.
  lemma RouteModesDecide(c: Config, req: Request, now: int, world: World, counters: Counters)
    requires req.ticket == "" && EqualFold(c.applicationStatus, "active") && req.clientID != ""
    requires IPDecision(c.ipPolicies, req.ip, world).None? && MatchedRule(c.rules, req, now, world.tests).None?
    ensures var route, d := MatchedRoute(c.routes, req, world), LocalDecision(c, req, now, world);
            var server := ServerDecision(c, req, now, world, counters);
            && (d == Some(Allow) <==> route.None? || ModeText(route.value) == "manual_bypass")
            && (d == Some(Observe) <==> route.Some? && ModeText(route.value) in ["silent", "observe"])
            && (d.Some? ==> server == d.value)
            && (route.Some? && ModeText(route.value) in ["force_challenge", "always_challenge", "always"] ==>
                  d.None? && server == Challenge)
  {
    hide IPDecision, MatchedRule, MatchedRoute, EqualFold, ToLower, TrimSpace;
    var route := MatchedRoute(c.routes, req, world);
    if route.Some? { ModeByText(route.value); }
    hide ModeOf;
  }

  lemma ModeByText(r: Route)
    ensures ModeOf(r).ManualBypass? <==> ModeText(r) == "manual_bypass"
    ensures ModeOf(r).Silent? || ModeOf(r).ObserveMode? <==> ModeText(r) in ["silent", "observe"]
    ensures ModeText(r) in ["force_challenge", "always_challenge", "always"] ==>
              ModeOf(r).ForceChallenge? || ModeOf(r).Always?
  {
    hide ToLower, TrimSpace;
  }
}
