/** Policy rules, shared by the server and the gateway: the condition trees, the match of one rule, and the
    choice of the rule that applies.  The test of a single field and the rollout hash are parameters. */
module PolicyRules {
  import opened Text
  import opened Sorting

  datatype Decision =
    | Unset | Allow | Pass | Observe | SkipChallenge
    | Block | Cooldown | BusinessVerify
    | Challenge | ChallengeHarder | StepUpChallenge | RateLimit
    | Retry | Other(name: string)

  predicate AllowLike(d: Decision) { d.Allow? || d.Pass? || d.Observe? || d.SkipChallenge? }

  predicate BlockLike(d: Decision) { d.Block? || d.Cooldown? || d.BusinessVerify? }

  predicate ChallengeLike(d: Decision) { d.Challenge? || d.ChallengeHarder? || d.StepUpChallenge? || d.RateLimit? }

  datatype Request = Request(clientID: string, scene: string, path: string, httpMethod: string, ip: string,
                             userAgent: string, accountID: string, deviceID: string, ticket: string,
                             resourceTag: string)

  datatype Condition = Condition(all: seq<Condition>, any: seq<Condition>, not: Option<Condition>,
                                 field: string, op: string, values: seq<string>)

  datatype Scope = Scope(clientID: string, scenes: seq<string>, pathPatterns: seq<string>, methods: seq<string>,
                         resourceTags: seq<string>, activeFrom: Option<int>, activeUntil: Option<int>,
                         rolloutPercent: int)

  datatype Aggregation = Aggregation(windowSeconds: int, maxRequests: int, dimensions: seq<string>)

  datatype Rule = Rule(id: string, clientID: string, name: string, priority: int, enabled: bool, status: string,
                       scope: Scope, conditions: Condition, aggregation: Aggregation, action: Decision,
                       rolloutPercent: int)

  // The test of one field against a request, and the hash of a rule and a request modulo 100.
  datatype Tests = Tests(leaf: (Condition, Request) -> bool, bucket: (Rule, Request) -> nat)

  // ----- Condition trees -----

  // The meaning of a tree: all of All, some of Any, not Not, and the field's own test, where present.
  predicate Holds(c: Condition, req: Request, leaf: (Condition, Request) -> bool)
    decreases c
  {
    && (forall i :: 0 <= i < |c.all| ==> Holds(c.all[i], req, leaf))
    && (c.any == [] || exists i :: 0 <= i < |c.any| && Holds(c.any[i], req, leaf))
    && (c.not.Some? ==> !Holds(c.not.value, req, leaf))
    && (TrimSpace(c.field) != "" ==> leaf(c, req))
  }

  // The code visits every child, even once the outcome is known.
  method ConditionMatches(c: Condition, req: Request, leaf: (Condition, Request) -> bool) returns (matched: bool)
    ensures matched <==> Holds(c, req, leaf)
    decreases c
  {
    hide TrimSpace;
    if c.all == [] && c.any == [] && c.not.None? && TrimSpace(c.field) == "" { return true; }
    matched := true;
    for i := 0 to |c.all|
      invariant matched <==> forall k :: 0 <= k < i ==> Holds(c.all[k], req, leaf)
    {
      var child := ConditionMatches(c.all[i], req, leaf);
      if !child { matched := false; }
    }
    if |c.any| > 0 {
      var anyMatched := false;
      for i := 0 to |c.any|
        invariant anyMatched <==> exists k :: 0 <= k < i && Holds(c.any[k], req, leaf)
      {
        var child := ConditionMatches(c.any[i], req, leaf);
        if child { anyMatched := true; }
      }
      if !anyMatched { matched := false; }
    }
    if c.not.Some? {
      var child := ConditionMatches(c.not.value, req, leaf);
      if child { matched := false; }
    }
    if TrimSpace(c.field) != "" && !leaf(c, req) { matched := false; }
  }

  // ----- One rule -----

  function FirstNonEmpty(a: string, b: string): string {
    if TrimSpace(a) != "" then TrimSpace(a) else TrimSpace(b)
  }

  predicate MatchPath(pattern: string, path: string) {
    var pattern, path := TrimSpace(pattern), TrimSpace(path);
    || pattern == "" || pattern == "*" || pattern == path
    || (pattern != "" && pattern[|pattern| - 1] == '*' && pattern[..|pattern| - 1] <= path)
  }

  predicate StringIn(value: string, candidates: seq<string>) {
    exists c :: c in candidates && ToLower(TrimSpace(c)) == ToLower(TrimSpace(value))
  }

  predicate MethodIn(value: string, methods: seq<string>) {
    exists m :: m in methods && ToUpper(TrimSpace(m)) == TrimSpace(ToUpper(value))
  }

  predicate ScopeMatches(rule: Rule, req: Request, now: int) {
    var scope := rule.scope;
    var clientID := FirstNonEmpty(scope.clientID, rule.clientID);
    && (clientID == "" || clientID == req.clientID)
    && (scope.scenes == [] || StringIn(req.scene, scope.scenes))
    && (scope.methods == [] || MethodIn(req.httpMethod, scope.methods))
    && (scope.pathPatterns == [] || exists p :: p in scope.pathPatterns && MatchPath(p, req.path))
    && (scope.resourceTags == [] || StringIn(req.resourceTag, scope.resourceTags))
    && (scope.activeFrom.None? || now >= scope.activeFrom.value)
    && (scope.activeUntil.None? || now < scope.activeUntil.value)
  }

  function RolloutPercent(percent: int): int {
    if percent <= 0 || percent > 100 then 100 else percent
  }

  predicate RuleRolledOut(rule: Rule, req: Request, tests: Tests) {
    var percent := RolloutPercent(if rule.rolloutPercent <= 0 then rule.scope.rolloutPercent else rule.rolloutPercent);
    percent >= 100 || tests.bucket(rule, req) < percent
  }

  predicate RuleMatches(rule: Rule, req: Request, now: int, tests: Tests) {
    && rule.enabled && !EqualFold(TrimSpace(rule.status), "retired")
    && ScopeMatches(rule, req, now) && RuleRolledOut(rule, req, tests)
    && Holds(rule.conditions, req, tests.leaf)
  }

  // ----- The rule that applies -----

  function ByRulePriority(): (Rule, Rule) -> bool {
    (a: Rule, b: Rule) => a.priority > b.priority
  }

  function MatchedRule(rules: seq<Rule>, req: Request, now: int, tests: Tests): Option<Rule> {
    FirstMatch(StableSort(rules, ByRulePriority()), (r: Rule) => RuleMatches(r, req, now, tests))
  }

  method EvaluatePolicyRules(rules: seq<Rule>, req: Request, now: int, tests: Tests) returns (rule: Option<Rule>)
    ensures rule == MatchedRule(rules, req, now, tests)
  {
    hide RuleMatches;
    var candidates := StableSort(rules, ByRulePriority());
    ghost var p := (r: Rule) => RuleMatches(r, req, now, tests);
    var i := 0;
    while i < |candidates|
      invariant i <= |candidates|
      invariant MatchedRule(rules, req, now, tests) == FirstMatch(candidates[i..], p)
    {
      var matched := EvaluatePolicyRule(candidates[i], req, now, tests);
      if matched { return Some(candidates[i]); }
      i := i + 1;
    }
    return None;
  }

  method EvaluatePolicyRule(rule: Rule, req: Request, now: int, tests: Tests) returns (matched: bool)
    ensures matched <==> RuleMatches(rule, req, now, tests)
  {
    hide ScopeMatches, RuleRolledOut, Holds, EqualFold, TrimSpace;
    if !rule.enabled { return false; }
    if EqualFold(TrimSpace(rule.status), "retired") { return false; }
    if !ScopeMatches(rule, req, now) { return false; }
    if !RuleRolledOut(rule, req, tests) { return false; }
    matched := ConditionMatches(rule.conditions, req, tests.leaf);
  }

  // ----- When a rule applies, field by field -----

  // A pattern without its surrounding white space: empty or a star for any path, the path itself, or a stem
  // and a star for every path that starts with the stem.
  ghost predicate PathFits(pattern: string, path: string) {
    var p, q := TrimSpace(pattern), TrimSpace(path);
    p in ["", "*", q] || exists stem :: p == stem + "*" && stem <= q
  }

  lemma PathFitsExactly(pattern: string, path: string)
    ensures PathFits(pattern, path) <==> MatchPath(pattern, path)
  {
    hide TrimSpace;
    var p, q := TrimSpace(pattern), TrimSpace(path);
    if p != "" && p[|p| - 1] == '*' { assert p == p[..|p| - 1] + "*"; }
    if stem :| p == stem + "*" && stem <= q { assert p[..|p| - 1] == stem; }
  }

  ghost predicate SameText(a: string, b: string) { ToLower(TrimSpace(a)) == ToLower(TrimSpace(b)) }

  // Enabled and not retired; for the request's client, scene, method, path and resource tag, where it names any;
  // in its time; rolled out to the request; and its conditions hold.
  ghost predicate RuleFits(rule: Rule, req: Request, now: int, tests: Tests) {
    var scope := rule.scope;
    var client := if TrimSpace(scope.clientID) != "" then TrimSpace(scope.clientID) else TrimSpace(rule.clientID);
    var percent := if rule.rolloutPercent > 0 then rule.rolloutPercent else scope.rolloutPercent;
    && rule.enabled && ToLower(TrimSpace(rule.status)) != "retired" && client in ["", req.clientID]
    && (scope.scenes == [] || exists x :: x in scope.scenes && SameText(x, req.scene))
    && (scope.methods == []
        || exists x :: x in scope.methods && ToUpper(TrimSpace(x)) == TrimSpace(ToUpper(req.httpMethod)))
    && (scope.pathPatterns == [] || exists x :: x in scope.pathPatterns && PathFits(x, req.path))
    && (scope.resourceTags == [] || exists x :: x in scope.resourceTags && SameText(x, req.resourceTag))
    && (scope.activeFrom.Some? ==> scope.activeFrom.value <= now)
    && (scope.activeUntil.Some? ==> now < scope.activeUntil.value)
    && (percent <= 0 || percent >= 100 || tests.bucket(rule, req) < percent)
    && Holds(rule.conditions, req, tests.leaf)
  }

  lemma RuleFitsExactly(rule: Rule, req: Request, now: int, tests: Tests)
    ensures RuleFits(rule, req, now, tests) <==> RuleMatches(rule, req, now, tests)
  {
    assert ToLower("retired") == "retired";
    hide TrimSpace, ToLower, ToUpper, PathFits, MatchPath, Holds;
    forall x ensures PathFits(x, req.path) <==> MatchPath(x, req.path) { PathFitsExactly(x, req.path); }
    assert forall x :: x in rule.scope.scenes ==> (SameText(x, req.scene) <==>
        ToLower(TrimSpace(x)) == ToLower(TrimSpace(req.scene)));
  }

  ghost predicate Outranks(rules: seq<Rule>, req: Request, now: int, tests: Tests, i: int)
    requires 0 <= i < |rules|
  {
    && RuleFits(rules[i], req, now, tests)
    && forall j :: 0 <= j < |rules| && RuleFits(rules[j], req, now, tests) ==>
         rules[j].priority <= rules[i].priority && (j < i ==> rules[j].priority < rules[i].priority)
  }

  // A rule that applies and that no such rule outranks, and the earliest of its priority; none exactly when no
  // rule applies.
  lemma MatchedRuleOutranks(rules: seq<Rule>, req: Request, now: int, tests: Tests)
    ensures var m := MatchedRule(rules, req, now, tests);
            if m.None? then forall i :: 0 <= i < |rules| ==> !RuleFits(rules[i], req, now, tests)
            else exists i :: 0 <= i < |rules| && rules[i] == m.value && Outranks(rules, req, now, tests, i)
  {
    hide RuleMatches, RuleFits;
    var p := (r: Rule) => RuleMatches(r, req, now, tests);
    FirstMatchOfSorted(rules, ByRulePriority(), p);
    forall r ensures p(r) <==> RuleFits(r, req, now, tests) { RuleFitsExactly(r, req, now, tests); }
    var m := MatchedRule(rules, req, now, tests);
    if m.Some? {
      var i :| IsBest(rules, ByRulePriority(), p, i) && rules[i] == m.value;
      forall j | 0 <= j < |rules| && RuleFits(rules[j], req, now, tests)
        ensures rules[j].priority <= rules[i].priority && (j < i ==> rules[j].priority < rules[i].priority)
      {
        assert p(rules[j]);
      }
      assert Outranks(rules, req, now, tests, i);
    } else {
      forall i | 0 <= i < |rules| ensures !RuleFits(rules[i], req, now, tests) { assert !p(rules[i]); }
    }
  }

  predicate Aggregated(a: Aggregation) { a.windowSeconds > 0 && a.maxRequests > 0 && a.dimensions != [] }
}
