/** The registry of risk-model versions: uploads, activation, and rollback to the version activated
    before.  Times are positive; zero stands for the zero time. */
module ModelRegistry {
  import opened Text
  import opened Sorting

  datatype Status = Candidate | Active | Retired | RolledBack

  datatype Model = Model(id: string, name: string, status: Status, createdAt: int, activatedAt: Option<int>)

  // A version as a caller sends it.
  datatype Upload = Upload(id: string, name: string, status: string, createdAt: int, activatedAt: Option<int>)

  type Models = map<string, Model>

  function NormalizeStatus(status: string): Status {
    var s := ToLower(TrimSpace(status));
    if s == "active" then Active
    else if s == "retired" then Retired
    else if s == "rolled_back" then RolledBack
    else Candidate
  }

  // The record an upload becomes; a missing ID and creation time are filled in.
  function Prepare(u: Upload, freshID: string, now: int): Model {
    Model(if u.id == "" then freshID else u.id, TrimSpace(u.name), NormalizeStatus(u.status),
          if u.createdAt == 0 then now else u.createdAt, u.activatedAt)
  }

  function Retire(models: Models, name: string, exclude: string): Models {
    map k | k in models ::
      if models[k].name == name && models[k].id != exclude && models[k].status.Active?
      then models[k].(status := Retired) else models[k]
  }

  // An upload over a known version keeps its creation time, and its activation time if it brings none.
  function Stored(models: Models, u: Upload, freshID: string, now: int): Model {
    var m := Prepare(u, freshID, now);
    var kept :=
      if m.id in models && models[m.id].createdAt != 0 then
        m.(createdAt := models[m.id].createdAt,
           activatedAt := if m.activatedAt.None? then models[m.id].activatedAt else m.activatedAt)
      else m;
    if kept.status.Active? && kept.activatedAt.None? then kept.(activatedAt := Some(now)) else kept
  }

  function Upsert(models: Models, u: Upload, freshID: string, now: int): Models {
    var m := Stored(models, u, freshID, now);
    (if m.status.Active? then Retire(models, m.name, m.id) else models)[m.id := m]
  }

  function Activated(m: Model, now: int): Model {
    m.(name := TrimSpace(m.name), status := Active, activatedAt := Some(now))
  }

  function Activate(models: Models, id: string, now: int): Models {
    if id !in models then models
    else
      var m := Activated(models[id], now);
      Retire(models, m.name, m.id)[m.id := m]
  }

  function ActivatedAt(m: Model): int { if m.activatedAt.Some? then m.activatedAt.value else 0 }

  // Latest activation first, then latest creation, then least ID.
  predicate Precedes(a: Model, b: Model) {
    if ActivatedAt(a) != ActivatedAt(b) then ActivatedAt(a) > ActivatedAt(b)
    else if a.createdAt != b.createdAt then a.createdAt > b.createdAt
    else StrLess(a.id, b.id)
  }

  predicate MayReturn(m: Model, current: Model) {
    m.id != current.id && m.name == current.name && m.status.Retired?
  }

  // The version a rollback of current reinstates: the first retired one of the same name.
  ghost predicate IsTarget(models: Models, current: Model, c: Model) {
    && (exists k :: k in models && models[k] == c)
    && MayReturn(c, current)
    && forall k :: k in models && MayReturn(models[k], current) ==> !Precedes(models[k], c)
  }

  function RolledBackOf(models: Models, name: string): Models {
    map k | k in models ::
      if models[k].name == name && models[k].status.Active? then models[k].(status := RolledBack) else models[k]
  }

  function Reinstate(models: Models, current: Model, c: Model, now: int): Models {
    RolledBackOf(models, current.name)[c.id := c.(status := Active, activatedAt := Some(now))]
  }

  // What a rollback leaves: unchanged when the version is unknown or nothing was retired.
  ghost predicate RollsBack(models: Models, id: string, now: int, models': Models) {
    if id !in models then models' == models
    else if exists c :: IsTarget(models, models[id], c) then
      exists c :: IsTarget(models, models[id], c) && models' == Reinstate(models, models[id], c, now)
    else models' == models
  }

  ghost predicate WellKept(models: Models) {
    forall k :: k in models ==> models[k].id == k && TrimSpace(models[k].name) == models[k].name
  }

  lemma RetireKeepsWellKept(models: Models, name: string, exclude: string)
    requires WellKept(models)
    ensures WellKept(Retire(models, name, exclude))
  {
    hide TrimSpace;
  }

  // ----- The order of activation -----

  function ByActivation(): (Model, Model) -> bool {
    (a: Model, b: Model) => Precedes(a, b)
  }

  lemma ByActivationStrictWeak()
    ensures StrictWeak(ByActivation())
  {
    forall a, b, c
      ensures !Precedes(a, a)
      ensures Precedes(a, b) && Precedes(b, c) ==> Precedes(a, c)
      ensures Precedes(a, c) ==> Precedes(a, b) || Precedes(b, c)
    {
      PrecedesOrder(a, b, c);
    }
  }

  lemma PrecedesOrder(a: Model, b: Model, c: Model)
    ensures !Precedes(a, a)
    ensures Precedes(a, b) && Precedes(b, c) ==> Precedes(a, c)
    ensures Precedes(a, c) ==> Precedes(a, b) || Precedes(b, c)
    ensures a.id != b.id ==> Precedes(a, b) != Precedes(b, a)
  {
    StrLessTotal(a.id, a.id);
    StrLessTotal(a.id, b.id);
    StrLessTotal(b.id, c.id);
    StrLessTotal(a.id, c.id);
    if StrLess(a.id, b.id) && StrLess(b.id, c.id) { StrLessTransitive(a.id, b.id, c.id); }
    if StrLess(c.id, b.id) && StrLess(b.id, a.id) { StrLessTransitive(c.id, b.id, a.id); }
  }

  // The first in activation order: activated last, then created last, then of the least ID.
  lemma TargetIsLatest(models: Models, current: Model, c: Model, k: string)
    requires IsTarget(models, current, c) && k in models && models[k].id != current.id
    requires models[k].name == current.name && models[k].status == Retired
    ensures var d := models[k];
            var at, at' := if c.activatedAt.Some? then c.activatedAt.value else 0,
                           if d.activatedAt.Some? then d.activatedAt.value else 0;
            && at >= at'
            && (at == at' ==> c.createdAt >= d.createdAt)
            && (at == at' && c.createdAt == d.createdAt ==> c.id == d.id || StrLess(c.id, d.id))
  {
    StrLessTotal(c.id, models[k].id);
  }

  lemma TargetIsUnique(models: Models, current: Model, c: Model, d: Model)
    requires WellKept(models) && IsTarget(models, current, c) && IsTarget(models, current, d)
    ensures c == d
  {
    PrecedesOrder(c, d, c);
  }

  // ----- The store -----

  class Registry {
    var models: Models

    constructor ()
      ensures models == map[]
    {
      models := map[];
    }

    method RetireActiveModels(name: string, exclude: string)
      requires WellKept(models)
      modifies this
      ensures models == Retire(old(models), name, exclude)
    {
      var todo := models.Keys;
      while todo != {}
        invariant models.Keys == old(models).Keys && todo <= models.Keys
        invariant forall k :: k in models ==>
                    models[k] == if k in todo then old(models)[k] else Retire(old(models), name, exclude)[k]
        decreases todo
      {
        var k :| k in todo;
        var version := models[k];
        if version.name == name && version.id != exclude && version.status.Active? {
          version := version.(status := Retired);
          models := models[version.id := version];
        }
        todo := todo - {k};
      }
    }

    method UpsertRiskModelVersion(upload: Upload, freshID: string, now: int) returns (version: Model)
      requires WellKept(models)
      modifies this
      ensures WellKept(models)
      ensures version == Stored(old(models), upload, freshID, now)
      ensures models == Upsert(old(models), upload, freshID, now)
    {
      hide TrimSpace, Retire, NormalizeStatus;
      TrimSpaceTwice(upload.name);
      version := Prepare(upload, freshID, now);
      if version.id in models && models[version.id].createdAt != 0 {
        var existing := models[version.id];
        version := version.(createdAt := existing.createdAt);
        if version.activatedAt.None? { version := version.(activatedAt := existing.activatedAt); }
      }
      if version.status.Active? {
        RetireKeepsWellKept(models, version.name, version.id);
        RetireActiveModels(version.name, version.id);
        if version.activatedAt.None? { version := version.(activatedAt := Some(now)); }
      }
      models := models[version.id := version];
    }

    method ActivateRiskModelVersion(id: string, now: int) returns (version: Option<Model>)
      requires WellKept(models)
      modifies this
      ensures WellKept(models) && models == Activate(old(models), id, now)
      ensures version == if id in old(models) then Some(Activated(old(models)[id], now)) else None
    {
      if id !in models { return None; }
      var v := models[id];
      v := v.(name := TrimSpace(v.name));
      RetireActiveModels(v.name, v.id);
      v := v.(status := Active, activatedAt := Some(now));
      models := models[v.id := v];
      version := Some(v);
    }

    // All versions, in whatever order the map is walked, sorted by activation.
    method ModelsByActivationDesc() returns (versions: seq<Model>, ghost unsorted: seq<Model>)
      ensures versions == StableSort(unsorted, ByActivation())
      ensures forall m :: m in unsorted <==> exists k :: k in models && models[k] == m
    {
      versions := [];
      var todo := models.Keys;
      while todo != {}
        invariant todo <= models.Keys
        invariant forall m :: m in versions ==> exists k :: k in models && models[k] == m
        invariant forall k :: k in models && k !in todo ==> models[k] in versions
        decreases todo
      {
        var k :| k in todo;
        versions, todo := versions + [models[k]], todo - {k};
      }
      unsorted := versions;
      versions := StableSort(versions, ByActivation());
    }

    method MarkRolledBack(name: string)
      requires WellKept(models)
      modifies this
      ensures models == RolledBackOf(old(models), name)
    {
      var todo := models.Keys;
      while todo != {}
        invariant models.Keys == old(models).Keys && todo <= models.Keys
        invariant forall k :: k in models ==>
                    models[k] == if k in todo then old(models)[k] else RolledBackOf(old(models), name)[k]
        decreases todo
      {
        var k :| k in todo;
        var version := models[k];
        if version.name == name && version.status.Active? {
          version := version.(status := RolledBack);
          models := models[version.id := version];
        }
        todo := todo - {k};
      }
    }

    method RollbackRiskModelVersion(id: string, now: int) returns (version: Option<Model>)
      requires WellKept(models)
      modifies this
      ensures WellKept(models) && RollsBack(old(models), id, now, models)
      ensures version.None? <==> id !in old(models) || !exists c :: IsTarget(old(models), old(models)[id], c)
      ensures version.Some? ==> version.value.id in models && models[version.value.id] == version.value
    {
      hide MayReturn, Precedes;
      if id !in models { return None; }
      var current := models[id];
      var versions, unsorted := ModelsByActivationDesc();
      var found := FirstMatch(versions, (m: Model) => MayReturn(m, current));
      FirstRetiredIsTarget(models, current, unsorted);
      if found.None? { return None; }
      var candidate := found.value;
      assert IsTarget(old(models), current, candidate);
      MarkRolledBack(current.name);
      candidate := candidate.(status := Active, activatedAt := Some(now));
      models := models[candidate.id := candidate];
      version := Some(candidate);
    }
  }

  // Sorting and taking the first retired version finds the target, if there is one.
  lemma FirstRetiredIsTarget(models: Models, current: Model, unsorted: seq<Model>)
    requires WellKept(models)
    requires forall m :: m in unsorted <==> exists k :: k in models && models[k] == m
    ensures var found := FirstMatch(StableSort(unsorted, ByActivation()), (m: Model) => MayReturn(m, current));
            if found.Some? then IsTarget(models, current, found.value)
            else forall c :: !IsTarget(models, current, c)
  {
    var less, p := ByActivation(), (m: Model) => MayReturn(m, current);
    ByActivationStrictWeak();
    FirstMatchOfSorted(unsorted, less, p);
    var found := FirstMatch(StableSort(unsorted, less), p);
    if found.Some? {
      var i :| IsBest(unsorted, less, p, i) && unsorted[i] == found.value;
      forall k | k in models && MayReturn(models[k], current) ensures !Precedes(models[k], found.value) {
        assert models[k] in unsorted;
        var j :| 0 <= j < |unsorted| && unsorted[j] == models[k];
        assert p(unsorted[j]);
      }
      assert unsorted[i] in unsorted;
    } else {
      assert forall j :: 0 <= j < |unsorted| ==> !p(unsorted[j]);
      assert forall k :: k in models ==> models[k] in unsorted;
    }
  }
}
