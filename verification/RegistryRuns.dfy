/** What holds of the model registry over whole runs: one active version per name always, the active one
    the last activated under stated conditions, and rollback as the undoing of an activation. */
module RegistryRuns {
  import opened Text
  import opened ModelRegistry

  datatype Step =
    | Uploading(upload: Upload, freshID: string, now: int)
    | Activating(id: string, now: int)
    | RollingBack(id: string, now: int)

  ghost predicate Next(models: Models, step: Step, models': Models) {
    match step
    case Uploading(u, freshID, now) => models' == Upsert(models, u, freshID, now)
    case Activating(id, now) => models' == Activate(models, id, now)
    case RollingBack(id, now) => RollsBack(models, id, now, models')
  }

  ghost predicate Runs(models: Models, steps: seq<Step>, models': Models)
    decreases steps
  {
    if steps == [] then models' == models
    else exists m :: Next(models, steps[0], m) && Runs(m, steps[1..], models')
  }

  // ----- One active version per name -----

  ghost predicate OneActive(models: Models) {
    forall j, k :: j in models && k in models && j != k && models[j].status.Active? && models[k].status.Active? ==>
      models[j].name != models[k].name
  }

  lemma UpsertKeepsOneActive(models: Models, u: Upload, freshID: string, now: int)
    requires WellKept(models) && OneActive(models)
    ensures WellKept(Upsert(models, u, freshID, now)) && OneActive(Upsert(models, u, freshID, now))
  {
    TrimSpaceTwice(u.name);
    hide TrimSpace, NormalizeStatus;
  }

  lemma ActivateKeepsOneActive(models: Models, id: string, now: int)
    requires WellKept(models) && OneActive(models)
    ensures WellKept(Activate(models, id, now)) && OneActive(Activate(models, id, now))
  {
    hide TrimSpace;
  }

  lemma RollbackKeepsOneActive(models: Models, id: string, now: int, models': Models)
    requires WellKept(models) && OneActive(models) && RollsBack(models, id, now, models')
    ensures WellKept(models') && OneActive(models')
  {
    hide TrimSpace, Precedes;
  }

  lemma StepKeepsOneActive(models: Models, step: Step, models': Models)
    requires WellKept(models) && OneActive(models) && Next(models, step, models')
    ensures WellKept(models') && OneActive(models')
  {
    hide WellKept, OneActive, Upsert, Activate, RollsBack;
    match step {
      case Uploading(u, freshID, now) => UpsertKeepsOneActive(models, u, freshID, now);
      case Activating(id, now) => ActivateKeepsOneActive(models, id, now);
      case RollingBack(id, now) => RollbackKeepsOneActive(models, id, now, models');
    }
  }

  lemma {:induction false} RunKeepsOneActive(models: Models, steps: seq<Step>, models': Models)
    requires WellKept(models) && OneActive(models) && Runs(models, steps, models')
    ensures WellKept(models') && OneActive(models')
    decreases steps
  {
    if steps != [] {
      var m :| Next(models, steps[0], m) && Runs(m, steps[1..], models');
      hide WellKept, OneActive, Next;
      StepKeepsOneActive(models, steps[0], m);
      RunKeepsOneActive(m, steps[1..], models');
    }
  }

  // Whatever is uploaded, activated and rolled back, in any order and at any times.
  lemma AtMostOneActive(steps: seq<Step>, models: Models)
    requires Runs(map[], steps, models)
    ensures WellKept(models) && OneActive(models)
  {
    RunKeepsOneActive(map[], steps, models);
  }

  // ----- The active version is the last activated -----

  ghost predicate ActiveIsLatest(models: Models) {
    forall j, k ::
      j in models && k in models && j != k && models[j].status.Active? && models[j].name == models[k].name ==>
        ActivatedAt(models[j]) > ActivatedAt(models[k])
  }

  ghost predicate TimesOK(models: Models, now: int) {
    0 < now && forall k :: k in models ==>
      && (models[k].activatedAt.Some? ==> 0 < models[k].activatedAt.value < now)
      && (models[k].status.Active? ==> models[k].activatedAt.Some?)
  }

  // An upload that keeps an old activation time where it no longer fits: an active one over a version that
  // is not the last activated of its name, or one that carries the time into a name whose active version is
  // older.
  ghost predicate StaleClaim(models: Models, u: Upload, freshID: string) {
    var id, name := if u.id == "" then freshID else u.id, TrimSpace(u.name);
    && id in models && models[id].createdAt != 0 && models[id].activatedAt.Some?
    && exists k :: k in models && k != id && models[k].name == name
                   && if NormalizeStatus(u.status).Active? then ActivatedAt(models[k]) >= ActivatedAt(models[id])
                      else models[k].status.Active? && ActivatedAt(models[k]) <= ActivatedAt(models[id])
  }

  // What an operator can go by: an upload that is not active and leaves its version's name never makes one.
  lemma SameNameIsNeverStale(models: Models, u: Upload, freshID: string)
    requires ActiveIsLatest(models) && !NormalizeStatus(u.status).Active?
    requires var id := if u.id == "" then freshID else u.id; id in models ==> models[id].name == TrimSpace(u.name)
    ensures !StaleClaim(models, u, freshID)
  {
    hide TrimSpace, NormalizeStatus;
  }

  // What an upload leaves of the versions it does not replace.
  lemma OthersAfterUpload(models: Models, u: Upload, freshID: string, now: int)
    requires WellKept(models)
    ensures var r, models' := Stored(models, u, freshID, now), Upsert(models, u, freshID, now);
            && r.id in models' && models'[r.id] == r && models'.Keys == models.Keys + {r.id}
            && forall k :: k in models && k != r.id ==>
                 && models'[k].name == models[k].name && models'[k].activatedAt == models[k].activatedAt
                 && (models'[k].status.Active? <==>
                       models[k].status.Active? && !(r.status.Active? && models[k].name == r.name))
  {
    hide TrimSpace, NormalizeStatus;
  }

  // The activation time an upload without one ends up with.
  lemma StoredTime(models: Models, u: Upload, freshID: string, now: int)
    requires u.activatedAt.None?
    ensures var r := Stored(models, u, freshID, now);
            var kept := r.id in models && models[r.id].createdAt != 0 && models[r.id].activatedAt.Some?;
            && r.id == (if u.id == "" then freshID else u.id) && r.name == TrimSpace(u.name)
            && r.status == NormalizeStatus(u.status)
            && r.activatedAt == if kept then models[r.id].activatedAt else if r.status.Active? then Some(now) else None
  {
    hide TrimSpace, NormalizeStatus;
  }

  lemma StaleUploadBreaks(models: Models, u: Upload, freshID: string, now: int)
    requires WellKept(models) && u.activatedAt.None? && StaleClaim(models, u, freshID)
    ensures !ActiveIsLatest(Upsert(models, u, freshID, now))
  {
    OthersAfterUpload(models, u, freshID, now);
    StoredTime(models, u, freshID, now);
    hide TrimSpace, NormalizeStatus, WellKept, Stored, Upsert;
    var r, models' := Stored(models, u, freshID, now), Upsert(models, u, freshID, now);
    var k :| k in models && k != r.id && models[k].name == r.name
      && if r.status.Active? then ActivatedAt(models[k]) >= ActivatedAt(models[r.id])
         else models[k].status.Active? && ActivatedAt(models[k]) <= ActivatedAt(models[r.id]);
    assert ActivatedAt(models'[k]) == ActivatedAt(models[k]) && ActivatedAt(models'[r.id]) == ActivatedAt(models[r.id]);
  }

  lemma FreshUploadKeeps(models: Models, u: Upload, freshID: string, now: int)
    requires WellKept(models) && ActiveIsLatest(models) && TimesOK(models, now)
    requires u.activatedAt.None? && !StaleClaim(models, u, freshID)
    ensures ActiveIsLatest(Upsert(models, u, freshID, now))
  {
    OthersAfterUpload(models, u, freshID, now);
    StoredTime(models, u, freshID, now);
    hide TrimSpace, NormalizeStatus, WellKept, Stored, Upsert;
    var r, models' := Stored(models, u, freshID, now), Upsert(models, u, freshID, now);
    forall j, k | j in models' && k in models' && j != k && models'[j].status.Active?
        && models'[j].name == models'[k].name
      ensures ActivatedAt(models'[j]) > ActivatedAt(models'[k])
    {
      if j == r.id { assert k in models; }
      if k == r.id { assert j in models; }
    }
  }

  lemma UploadKeepsTimes(models: Models, u: Upload, freshID: string, now: int)
    requires WellKept(models) && TimesOK(models, now) && u.activatedAt.None?
    ensures TimesOK(Upsert(models, u, freshID, now), now + 1)
  {
    OthersAfterUpload(models, u, freshID, now);
    StoredTime(models, u, freshID, now);
    hide TrimSpace, NormalizeStatus, WellKept, Stored, Upsert;
    var r, models' := Stored(models, u, freshID, now), Upsert(models, u, freshID, now);
    assert forall k :: k in models' && k != r.id ==> k in models;
  }

  // An upload without an activation time keeps the active versions the latest exactly when it makes no
  // stale claim.
  lemma UploadKeepsLatestExactly(models: Models, u: Upload, freshID: string, now: int)
    requires WellKept(models) && ActiveIsLatest(models) && TimesOK(models, now) && u.activatedAt.None?
    ensures ActiveIsLatest(Upsert(models, u, freshID, now)) <==> !StaleClaim(models, u, freshID)
  {
    hide *;
    if StaleClaim(models, u, freshID) {
      StaleUploadBreaks(models, u, freshID, now);
    } else {
      FreshUploadKeeps(models, u, freshID, now);
    }
  }

  lemma ActivateKeepsLatest(models: Models, id: string, now: int)
    requires WellKept(models) && ActiveIsLatest(models) && TimesOK(models, now)
    ensures ActiveIsLatest(Activate(models, id, now)) && TimesOK(Activate(models, id, now), now + 1)
  {
    hide TrimSpace;
  }

  lemma RollbackKeepsLatest(models: Models, id: string, now: int, models': Models)
    requires WellKept(models) && ActiveIsLatest(models) && TimesOK(models, now) && RollsBack(models, id, now, models')
    ensures ActiveIsLatest(models') && TimesOK(models', now + 1)
  {
    hide TrimSpace, Precedes;
  }

  function Now(step: Step): int {
    match step case Uploading(_, _, now) => now case Activating(_, now) => now case RollingBack(_, now) => now
  }

  // Runs with strictly increasing times after a given one, whose uploads bring no activation time and make
  // no stale claim.
  ghost predicate CarefulRun(models: Models, after: int, steps: seq<Step>, models': Models)
    decreases steps
  {
    if steps == [] then models' == models
    else
      && Now(steps[0]) > after
      && (steps[0].Uploading? ==>
            steps[0].upload.activatedAt.None? && !StaleClaim(models, steps[0].upload, steps[0].freshID))
      && exists m :: Next(models, steps[0], m) && CarefulRun(m, Now(steps[0]), steps[1..], models')
  }

  lemma LaterIsFine(models: Models, now: int, later: int)
    requires TimesOK(models, now) && now <= later
    ensures TimesOK(models, later)
  {
  }

  lemma CarefulStep(models: Models, step: Step, m: Models)
    requires WellKept(models) && OneActive(models) && ActiveIsLatest(models) && TimesOK(models, Now(step))
    requires step.Uploading? ==> step.upload.activatedAt.None? && !StaleClaim(models, step.upload, step.freshID)
    requires Next(models, step, m)
    ensures WellKept(m) && OneActive(m) && ActiveIsLatest(m) && TimesOK(m, Now(step) + 1)
  {
    StepKeepsOneActive(models, step, m);
    hide WellKept, OneActive, ActiveIsLatest, TimesOK, StaleClaim, Upsert, Activate, RollsBack;
    match step {
      case Uploading(u, freshID, now) =>
        UploadKeepsLatestExactly(models, u, freshID, now);
        UploadKeepsTimes(models, u, freshID, now);
      case Activating(id, now) => ActivateKeepsLatest(models, id, now);
      case RollingBack(id, now) => RollbackKeepsLatest(models, id, now, m);
    }
  }

  lemma {:induction false} CarefulRunKeeps(models: Models, after: int, steps: seq<Step>, models': Models)
    requires WellKept(models) && OneActive(models) && ActiveIsLatest(models) && TimesOK(models, after + 1)
    requires CarefulRun(models, after, steps, models')
    ensures WellKept(models') && OneActive(models') && ActiveIsLatest(models')
    decreases steps
  {
    if steps != [] {
      var m :| Next(models, steps[0], m) && CarefulRun(m, Now(steps[0]), steps[1..], models');
      hide WellKept, OneActive, ActiveIsLatest, StaleClaim, Next;
      LaterIsFine(models, after + 1, Now(steps[0]));
      hide TimesOK;
      CarefulStep(models, steps[0], m);
      CarefulRunKeeps(m, Now(steps[0]), steps[1..], models');
    }
  }

  lemma CarefulRunsKeepTheLatestActive(steps: seq<Step>, models: Models)
    requires CarefulRun(map[], 0, steps, models)
    ensures ActiveIsLatest(models)
  {
    CarefulRunKeeps(map[], 0, steps, models);
  }

  // ----- Uploads that break it -----

  // The server turns away uploads that say they are active, but compares before trimming.
  predicate ServerAccepts(u: Upload) { !EqualFold(u.status, "active") }

  lemma PaddedActivePasses()
    ensures var u := Upload("a", "m", "active ", 1, None); ServerAccepts(u) && NormalizeStatus(u.status).Active?
  {
    var u := Upload("a", "m", "active ", 1, None);
    assert |ToLower("active ")| != |ToLower("active")|;
    assert TrimRight("active ") == "active" by { assert "active "[..6] == "active"; }
    assert TrimLeft("active ") == "active ";
    assert ToLower("active") == "active";
  }

  // Version b was activated last; a's upload makes a active again with its old time.
  lemma ReuploadedVersionIsNotLatest()
    ensures var models := map["a" := Model("a", "m", Retired, 1, Some(10)),
        "b" := Model("b", "m", Active, 1, Some(20))];
            var models' := Upsert(models, Upload("a", "m", "active ", 1, None), "", 30);
            ActiveIsLatest(models) && models'["a"] == Model("a", "m", Active, 1, Some(10))
            && models'["b"] == Model("b", "m", Retired, 1, Some(20)) && !ActiveIsLatest(models')
  {
    PaddedActivePasses();
    assert TrimSpace("m") == "m" by { TrimSpaceFixed("m"); }
    hide TrimSpace, NormalizeStatus, ToLower;
    var models := map["a" := Model("a", "m", Retired, 1, Some(10)), "b" := Model("b", "m", Active, 1, Some(20))];
    var u := Upload("a", "m", "active ", 1, None);
    assert Stored(models, u, "", 30) == Model("a", "m", Active, 1, Some(10));
    assert Retire(models, "m", "a")["b"] == Model("b", "m", Retired, 1, Some(20));
  }

  // ----- Rollback undoes activation -----

  // Among the other retired versions of its name, none ranks before a.
  ghost predicate RanksFirst(models: Models, a: string, b: string)
    requires a in models
  {
    forall k :: k in models && k != a && k != b && models[k].name == models[a].name && models[k].status.Retired? ==>
      !Precedes(models[k], models[a])
  }

  // After Activate(b), the versions a rollback of b may return are a and the others already retired.
  lemma AfterActivation(models: Models, a: string, b: string, now: int)
    requires WellKept(models) && a in models && b in models && a != b
    requires models[a].name == models[b].name && models[a].status.Active? && OneActive(models)
    ensures var m := Activate(models, b, now);
            && WellKept(m) && m.Keys == models.Keys && m[b].id == b
            && m[b] == models[b].(status := Active, activatedAt := Some(now)) && m[a] == models[a].(status := Retired)
            && (forall k :: k in models && k != a && k != b ==> m[k] == models[k])
            && MayReturn(m[a], m[b]) && !MayReturn(m[b], m[b])
            && forall k :: k in models && k != a && k != b ==>
                 (MayReturn(m[k], m[b]) <==> models[k].name == models[a].name && models[k].status.Retired?)
  {
    hide TrimSpace;
    OthersAreNotActive(models, a);
  }

  lemma TargetAfterActivation(models: Models, a: string, b: string, now: int, c: Model)
    requires WellKept(models) && a in models && b in models && a != b
    requires models[a].name == models[b].name && models[a].status.Active? && OneActive(models)
    requires var m := Activate(models, b, now); WellKept(m) && b in m && IsTarget(m, m[b], c)
    ensures c.id == a <==> RanksFirst(models, a, b)
  {
    var m := Activate(models, b, now);
    AfterActivation(models, a, b, now);
    PrecedesIgnoresStatus(models, a);
    hide Activate, WellKept, OneActive, Precedes, MayReturn;
    IDsAreKeys(m, m[b], c);
    if RanksFirst(models, a, b) {
      forall k | k in m && MayReturn(m[k], m[b]) ensures !Precedes(m[k], m[a]) {
        if k == a { PrecedesOrder(m[a], m[a], m[a]); }
      }
      assert IsTarget(m, m[b], m[a]);
      TargetIsUnique(m, m[b], c, m[a]);
      IDsAreKeys(m, m[b], m[a]);
    }
  }

  lemma IDsAreKeys(models: Models, current: Model, c: Model)
    requires WellKept(models) && IsTarget(models, current, c)
    ensures c.id in models && models[c.id] == c
    ensures forall k :: k in models ==> models[k].id == k
  {
  }

  // The retired version returns exactly when no other retired version of its name ranks before it.
  lemma RollbackUndoesActivate(models: Models, a: string, b: string, now: int, later: int, models': Models)
    requires WellKept(models) && a in models && b in models && a != b
    requires models[a].name == models[b].name && models[a].status.Active?
    requires OneActive(models) && RollsBack(Activate(models, b, now), b, later, models')
    ensures models'.Keys == models.Keys
    ensures models'[a].status.Active? <==> RanksFirst(models, a, b)
    ensures models'[b].status.RolledBack?
    ensures forall k :: k in models && models[k].name != models[a].name ==> models'[k] == models[k]
  {
    hide *;
    var m := Activate(models, b, now);
    AfterActivation(models, a, b, now);
    SomeTarget(m, m[b], a);
    var c := TargetOf(m, b, later, models');
    TargetAfterActivation(models, a, b, now, c);
    Reinstated(m, m[b], c, later);
  }

  lemma TargetOf(models: Models, id: string, now: int, models': Models) returns (c: Model)
    requires RollsBack(models, id, now, models') && id in models && exists c :: IsTarget(models, models[id], c)
    ensures IsTarget(models, models[id], c) && models' == Reinstate(models, models[id], c, now)
  {
    hide IsTarget, Reinstate;
    c :| IsTarget(models, models[id], c) && models' == Reinstate(models, models[id], c, now);
  }

  lemma Reinstated(models: Models, current: Model, c: Model, now: int)
    requires WellKept(models) && IsTarget(models, current, c)
    ensures var models' := Reinstate(models, current, c, now);
            models'.Keys == models.Keys
            && forall k :: k in models ==>
                 if k == c.id then models'[k].status.Active? && models[k].name == current.name
                 else if models[k].name == current.name && models[k].status.Active? then
                   models'[k] == models[k].(status := RolledBack)
                 else models'[k] == models[k]
    ensures c.id != current.id
  {
    hide Precedes;
  }

  lemma OthersAreNotActive(models: Models, a: string)
    requires OneActive(models) && a in models && models[a].status.Active?
    ensures forall k :: k in models && k != a && models[k].name == models[a].name ==> !models[k].status.Active?
  {
  }

  lemma PrecedesIgnoresStatus(models: Models, a: string)
    requires a in models
    ensures forall x :: Precedes(x, models[a].(status := Retired)) <==> Precedes(x, models[a])
  {
  }

  // Among finitely many versions that may return, one ranks first.
  lemma SomeTarget(models: Models, current: Model, a: string)
    requires WellKept(models) && a in models && MayReturn(models[a], current)
    ensures exists c :: IsTarget(models, current, c)
  {
    var c := BestOf(models, current, models.Keys, a);
    assert IsTarget(models, current, c);
  }

  lemma {:induction false} BestOf(models: Models, current: Model, keys: set<string>, a: string) returns (c: Model)
    requires WellKept(models) && keys <= models.Keys && a in keys && MayReturn(models[a], current)
    ensures c.id in keys && models[c.id] == c && MayReturn(c, current)
    ensures forall k :: k in keys && MayReturn(models[k], current) ==> !Precedes(models[k], c)
    decreases keys
  {
    hide Precedes, MayReturn;
    PrecedesOrder(models[a], models[a], models[a]);
    if rest :| rest in keys && rest != a {
      c := BestOf(models, current, keys - {rest}, a);
      if MayReturn(models[rest], current) && Precedes(models[rest], c) {
        forall k | k in keys && MayReturn(models[k], current) ensures !Precedes(models[k], models[rest]) {
          PrecedesOrder(models[k], models[rest], c);
          PrecedesOrder(models[rest], models[rest], models[rest]);
        }
        c := models[rest];
      }
    } else {
      c := models[a];
      assert keys == {a};
    }
  }

  // In particular, after a careful run: rolling back right after an activation reinstates the version that
  // was active before it.
  lemma RollbackReinstates(steps: seq<Step>, models: Models, a: string, b: string, now: int, later: int,
                           models': Models)
    requires CarefulRun(map[], 0, steps, models)
    requires a in models && b in models && a != b && models[a].name == models[b].name && models[a].status.Active?
    requires RollsBack(Activate(models, b, now), b, later, models')
    ensures models'.Keys == models.Keys && models'[a].status.Active? && models'[b].status.RolledBack?
  {
    CarefulRunKeeps(map[], 0, steps, models);
    RollbackUndoesActivate(models, a, b, now, later, models');
    hide RollsBack, Activate;
    assert RanksFirst(models, a, b);
  }
}
