/** Resource selection: one pass keeps the best resource of every single type and all top-scored ones
    of every collection type; the result is sorted by type and ID. */
module Selector {
  import opened Text
  import opened Sorting

  datatype Resource = Resource(
    id: string, scene: string, captchaType: string, resourceType: string, uri: string, tag: string, status: string)

  datatype Query = Query(captchaType: string, scene: string, tag: string)

  // The short names of captcha types, and the one type that is served as another.
  function RequestedType(captchaType: string): string {
    var t := ToUpper(TrimSpace(captchaType));
    if t == "SLIDER2" then "SLIDER_V2"
    else if t == "CURVE2" then "CURVE_V2"
    else if t == "CURVE3" then "CURVE_V3"
    else if t == "WORD_ORDER_IMAGE_CLICK" then "WORD_IMAGE_CLICK"
    else t
  }

  // The resource types a captcha type needs: one of each group.
  function RequiredGroups(captchaType: string): seq<seq<string>> {
    var t := RequestedType(captchaType);
    var background := ["background_image", "background_library"];
    if t == "GESTURE" then [background]
    else if t == "CURVE" || t == "CURVE_V2" || t == "CURVE_V3" then [background, ["curve_template"]]
    else if t == "SLIDER" || t == "SLIDER_V2" then [background, ["slider_template"]]
    else if t == "ROTATE" then [["rotate_library"]]
    else if t == "CONCAT" then [["concat_background_image", "concat_background_library"], ["concat_template"]]
    else if t == "WORD_IMAGE_CLICK" then [background, ["font"]]
    else if t == "IMAGE_CLICK" then [background, ["icon", "icon_library"]]
    else if t == "ROTATE_DEGREE" then [background, ["degree_template"]]
    else if t == "JIGSAW" then [["jigsaw_background_image", "jigsaw_background_library"]]
    else if t == "GRID_IMAGE_CLICK" then [["grid_category_library"]]
    else []
  }

  // The resource types worth selecting; none listed means any.
  function SelectableTypes(captchaType: string): set<string> {
    var groups := RequiredGroups(captchaType);
    set g, t | g in groups && t in g && ToLower(TrimSpace(t)) != "" :: ToLower(TrimSpace(t))
  }

  function IsCollection(resourceType: string): bool {
    var t := ToLower(TrimSpace(resourceType));
    t == "background_library" || t == "concat_background_library" || t == "jigsaw_background_library"
    || t == "rotate_library" || t == "grid_category_library" || t == "icon_library"
  }

  predicate Eligible(r: Resource, q: Query) {
    && (r.status == "" || EqualFold(r.status, "active"))
    && (r.captchaType == q.captchaType || r.captchaType == "AUTO" || r.captchaType == "")
    && (r.scene == "" || (q.scene != "" && EqualFold(r.scene, q.scene)))
    && (q.tag == "" || r.tag == "" || EqualFold(r.tag, "default") || EqualFold(r.tag, q.tag))
    && r.resourceType != "" && r.uri != ""
    && (var types := SelectableTypes(q.captchaType); types == {} || ToLower(TrimSpace(r.resourceType)) in types)
  }

  function Score(r: Resource, q: Query): int {
    (if r.captchaType == q.captchaType then 100 else 0)
    + (if q.scene != "" && EqualFold(r.scene, q.scene) then 50 else 0)
    + (if q.tag != "" && EqualFold(r.tag, q.tag) then 30 else 0)
    + (if EqualFold(r.tag, "default") then 10 else 0)
  }

  predicate Better(candidate: Resource, current: Resource, q: Query) {
    if Score(candidate, q) != Score(current, q) then Score(candidate, q) > Score(current, q)
    else StrLess(candidate.id, current.id)
  }

  function ByTypeThenID(): (Resource, Resource) -> bool {
    (a: Resource, b: Resource) =>
      if a.resourceType != b.resourceType then StrLess(a.resourceType, b.resourceType) else StrLess(a.id, b.id)
  }

  // ----- The declarative selection -----

  // Entry i competes with the eligible entries of its own type.
  predicate Rival(items: seq<Resource>, q: Query, i: int, j: int)
    requires 0 <= i < |items| && 0 <= j < |items|
  {
    Eligible(items[j], q) && items[j].resourceType == items[i].resourceType
  }

  // A collection entry wins with a maximal score; a single entry wins when no rival is better and no
  // earlier rival is as good.
  ghost predicate Wins(items: seq<Resource>, q: Query, i: int)
    requires 0 <= i < |items|
  {
    && Eligible(items[i], q)
    && forall j :: 0 <= j < |items| && Rival(items, q, i, j) ==>
         if IsCollection(items[i].resourceType) then Score(items[j], q) <= Score(items[i], q)
         else !Better(items[j], items[i], q) && (j < i ==> Better(items[i], items[j], q))
  }

  // The winners among the first n entries' positions, of one type, in input order.
  ghost function WinnersOfType(items: seq<Resource>, q: Query, t: string, n: nat): seq<Resource>
    requires n <= |items|
  {
    if n == 0 then []
    else
      WinnersOfType(items, q, t, n - 1)
      + (if items[n - 1].resourceType == t && Wins(items, q, n - 1) then [items[n - 1]] else [])
  }

  ghost function Winners(items: seq<Resource>, q: Query, n: nat): seq<Resource>
    requires n <= |items|
  {
    if n == 0 then []
    else Winners(items, q, n - 1) + (if Wins(items, q, n - 1) then [items[n - 1]] else [])
  }

  ghost function Selection(items: seq<Resource>, q: Query): seq<Resource> {
    StableSort(Winners(items, q, |items|), ByTypeThenID())
  }

  // ----- The order of candidates -----

  // What the score ranks by, in order of importance.
  function Merits(r: Resource, q: Query): seq<bool> {
    [r.captchaType == q.captchaType, q.scene != "" && EqualFold(r.scene, q.scene),
     q.tag != "" && EqualFold(r.tag, q.tag), EqualFold(r.tag, "default")]
  }

  predicate MoreMerit(a: seq<bool>, b: seq<bool>)
    requires |a| == |b|
  {
    a != [] && if a[0] != b[0] then a[0] else MoreMerit(a[1..], b[1..])
  }

  // The points are set so that an earlier merit outweighs all later ones together.
  lemma ScoreRanksByMerit(a: Resource, b: Resource, q: Query)
    ensures Score(a, q) > Score(b, q) <==> MoreMerit(Merits(a, q), Merits(b, q))
    ensures Score(a, q) == Score(b, q) <==> Merits(a, q) == Merits(b, q)
  {
    hide EqualFold;
    var m, n := Merits(a, q), Merits(b, q);
    assert m[3..] == [m[3]] && n[3..] == [n[3]] && [m[3]][1..] == [] && [n[3]][1..] == [];
    assert MoreMerit(m[3..], n[3..]) == (m[3] && !n[3]);
    assert m[2..][1..] == m[3..] && n[2..][1..] == n[3..];
    assert MoreMerit(m[2..], n[2..]) == if m[2] != n[2] then m[2] else MoreMerit(m[3..], n[3..]);
    assert m[1..][1..] == m[2..] && n[1..][1..] == n[2..];
    assert MoreMerit(m[1..], n[1..]) == if m[1] != n[1] then m[1] else MoreMerit(m[2..], n[2..]);
  }

  lemma BetterAsymmetric(a: Resource, b: Resource, q: Query)
    ensures !(Better(a, b, q) && Better(b, a, q))
    ensures a.id != b.id ==> Better(a, b, q) || Better(b, a, q)
  {
    StrLessTotal(a.id, b.id);
  }

  // Beating the best so far is beating everything the best so far was no worse than.
  lemma BetterThanBest(x: Resource, best: Resource, other: Resource, q: Query)
    requires Better(x, best, q) && !Better(other, best, q)
    ensures Better(x, other, q) && !Better(other, x, q)
  {
    StrLessTotal(x.id, other.id);
    StrLessTotal(x.id, best.id);
    StrLessTotal(other.id, best.id);
    if StrLess(best.id, other.id) && StrLess(x.id, best.id) { StrLessTransitive(x.id, best.id, other.id); }
  }

  lemma ByTypeThenIDStrictWeak()
    ensures StrictWeak(ByTypeThenID())
  {
    var less := ByTypeThenID();
    forall a: Resource, b: Resource, c: Resource
      ensures !less(a, a)
      ensures less(a, b) && less(b, c) ==> less(a, c)
      ensures less(a, c) ==> less(a, b) || less(b, c)
    {
      KeyOrder(a.resourceType, b.resourceType, c.resourceType);
      KeyOrder(a.id, b.id, c.id);
    }
  }

  lemma KeyOrder(a: string, b: string, c: string)
    ensures !StrLess(a, a)
    ensures StrLess(a, b) && StrLess(b, c) ==> StrLess(a, c)
    ensures StrLess(a, c) ==> StrLess(a, b) || StrLess(b, c)
    ensures a != b ==> StrLess(a, b) != StrLess(b, a)
    ensures b != c ==> StrLess(b, c) != StrLess(c, b)
    ensures a != c ==> StrLess(a, c) != StrLess(c, a)
  {
    StrLessTotal(a, a);
    StrLessTotal(a, b);
    StrLessTotal(b, c);
    StrLessTotal(a, c);
    if StrLess(a, b) && StrLess(b, c) { StrLessTransitive(a, b, c); }
    if StrLess(c, b) && StrLess(b, a) { StrLessTransitive(c, b, a); }
  }

  // Only entries of the same type and ID are equivalent.
  lemma SameKey(a: Resource, b: Resource)
    ensures var less := ByTypeThenID();
            (!less(a, b) && !less(b, a)) <==> (a.resourceType == b.resourceType && a.id == b.id)
  {
    StrLessTotal(a.resourceType, b.resourceType);
    StrLessTotal(a.id, b.id);
  }

  // ----- The winners of one type -----

  lemma {:induction false} WinnersNone(items: seq<Resource>, q: Query, t: string, n: nat)
    requires n <= |items|
    requires forall j :: 0 <= j < n ==> !(Eligible(items[j], q) && items[j].resourceType == t)
    ensures WinnersOfType(items, q, t, n) == []
  {
    if n > 0 { WinnersNone(items, q, t, n - 1); }
  }

  lemma OneWinner(items: seq<Resource>, q: Query, i: nat, k: nat)
    requires i < |items| && k < |items| && Wins(items, q, i) && Wins(items, q, k)
    requires items[i].resourceType == items[k].resourceType && !IsCollection(items[i].resourceType)
    ensures i == k
  {
    assert Rival(items, q, i, k) && Rival(items, q, k, i);
    BetterAsymmetric(items[i], items[k], q);
  }

  lemma WinnersAtStart(items: seq<Resource>, q: Query, t: string)
    ensures WinnersOfType(items, q, t, 0) == []
  {
  }

  lemma WinnersWith(items: seq<Resource>, q: Query, n: nat)
    requires n < |items|
    ensures Wins(items, q, n) && WinnersOfType(items, q, items[n].resourceType, n) == []
            ==> WinnersOfType(items, q, items[n].resourceType, n + 1) == [items[n]]
  {
    hide Wins;
  }

  lemma WinnersWithout(items: seq<Resource>, q: Query, t: string, n: nat)
    requires n < |items|
    ensures (items[n].resourceType == t && Wins(items, q, n))
            || WinnersOfType(items, q, t, n + 1) == WinnersOfType(items, q, t, n)
  {
    hide Wins;
  }

  lemma {:induction false} WinnersSingle(items: seq<Resource>, q: Query, i: nat, n: nat)
    requires i < |items| && n <= |items| && Wins(items, q, i) && !IsCollection(items[i].resourceType)
    ensures WinnersOfType(items, q, items[i].resourceType, n) == if i < n then [items[i]] else []
  {
    hide *;
    if n == 0 {
      WinnersAtStart(items, q, items[i].resourceType);
      return;
    }
    WinnersSingle(items, q, i, n - 1);
    if n - 1 == i {
      WinnersWith(items, q, i);
    } else {
      if items[n - 1].resourceType == items[i].resourceType && Wins(items, q, n - 1) { OneWinner(items, q, i, n - 1); }
      WinnersWithout(items, q, items[i].resourceType, n - 1);
    }
  }

  // The eligible entries of one type with a given score.
  function TopOfType(items: seq<Resource>, q: Query, t: string, score: int, n: nat): seq<Resource>
    requires n <= |items|
  {
    if n == 0 then []
    else
      var r := items[n - 1];
      TopOfType(items, q, t, score, n - 1)
      + (if Eligible(r, q) && r.resourceType == t && Score(r, q) == score then [r] else [])
  }

  ghost predicate MaxScore(items: seq<Resource>, q: Query, t: string, score: int) {
    && (exists i :: 0 <= i < |items| && Eligible(items[i], q) && items[i].resourceType == t
          && Score(items[i], q) == score)
    && (forall i :: 0 <= i < |items| && Eligible(items[i], q) && items[i].resourceType == t
          ==> Score(items[i], q) <= score)
  }

  lemma {:induction false} WinnersCollection(items: seq<Resource>, q: Query, t: string, score: int, n: nat)
    requires n <= |items| && IsCollection(t) && MaxScore(items, q, t, score)
    ensures WinnersOfType(items, q, t, n) == TopOfType(items, q, t, score, n)
  {
    hide Eligible, Score, IsCollection;
    if n > 0 {
      WinnersCollection(items, q, t, score, n - 1);
      if items[n - 1].resourceType == t && Wins(items, q, n - 1) {
        var i :| 0 <= i < |items| && Eligible(items[i], q) && items[i].resourceType == t && Score(items[i], q) == score;
        assert Rival(items, q, n - 1, i);
      }
    }
  }

  lemma {:induction false} TopOfTypePrefix(items: seq<Resource>, x: Resource, q: Query, t: string, score: int, n: nat)
    requires n <= |items|
    ensures TopOfType(items + [x], q, t, score, n) == TopOfType(items, q, t, score, n)
  {
    hide Eligible, Score;
    if n > 0 { TopOfTypePrefix(items, x, q, t, score, n - 1); }
  }

  lemma {:induction false} TopOfTypeEmpty(items: seq<Resource>, q: Query, t: string, score: int, n: nat)
    requires n <= |items|
    requires forall j :: 0 <= j < n && Eligible(items[j], q) && items[j].resourceType == t
               ==> Score(items[j], q) < score
    ensures TopOfType(items, q, t, score, n) == []
  {
    hide Eligible, Score;
    if n > 0 { TopOfTypeEmpty(items, q, t, score, n - 1); }
  }

  // ----- The pass -----

  // What the maps hold for a type after the first entries.
  ghost predicate SingleOK(items: seq<Resource>, q: Query, t: string, index: int, r: Resource) {
    0 <= index < |items| && items[index] == r && r.resourceType == t && !IsCollection(t) && Wins(items, q, index)
  }

  ghost predicate CollectionOK(items: seq<Resource>, q: Query, t: string, rs: seq<Resource>, score: int) {
    IsCollection(t) && MaxScore(items, q, t, score) && rs == TopOfType(items, q, t, score, |items|)
  }

  ghost predicate Absent(items: seq<Resource>, q: Query, t: string) {
    forall j :: 0 <= j < |items| ==> !(Eligible(items[j], q) && items[j].resourceType == t)
  }

  lemma SingleStep(items: seq<Resource>, x: Resource, q: Query, t: string, index: int, r: Resource)
    requires SingleOK(items, q, t, index, r)
    requires !(Eligible(x, q) && x.resourceType == t && Better(x, r, q))
    ensures SingleOK(items + [x], q, t, index, r)
  {
    assert forall j :: 0 <= j < |items| && Rival(items + [x], q, index, j) ==> Rival(items, q, index, j);
  }

  lemma SingleReplaced(items: seq<Resource>, x: Resource, q: Query, index: int, r: Resource)
    requires SingleOK(items, q, x.resourceType, index, r) && Eligible(x, q) && Better(x, r, q)
    ensures SingleOK(items + [x], q, x.resourceType, |items|, x)
  {
    hide Eligible, Score, IsCollection;
    forall j | 0 <= j < |items| && Rival(items + [x], q, |items|, j)
      ensures !Better(items[j], x, q) && Better(x, items[j], q)
    {
      assert Rival(items, q, index, j);
      BetterThanBest(x, r, items[j], q);
    }
    BetterAsymmetric(x, x, q);
  }

  lemma SingleFirst(items: seq<Resource>, x: Resource, q: Query)
    requires Absent(items, q, x.resourceType) && Eligible(x, q) && !IsCollection(x.resourceType)
    ensures SingleOK(items + [x], q, x.resourceType, |items|, x)
  {
    assert forall j :: 0 <= j < |items| ==> !Rival(items + [x], q, |items|, j);
    BetterAsymmetric(x, x, q);
  }

  // A collection keeps its list, extends it, or starts over, as the new entry's score compares.
  lemma CollectionStep(items: seq<Resource>, x: Resource, q: Query, t: string, rs: seq<Resource>, score: int)
    requires CollectionOK(items, q, t, rs, score)
    ensures var items' := items + [x];
            if !Eligible(x, q) || x.resourceType != t || Score(x, q) < score then CollectionOK(items', q, t, rs, score)
            else if Score(x, q) == score then CollectionOK(items', q, t, rs + [x], score)
            else CollectionOK(items', q, t, [x], Score(x, q))
  {
    hide Eligible, Score, IsCollection;
    var items' := items + [x];
    var i :| 0 <= i < |items| && Eligible(items[i], q) && items[i].resourceType == t && Score(items[i], q) == score;
    assert items'[i] == items[i] && items'[|items|] == x;
    TopOfTypePrefix(items, x, q, t, score, |items|);
    TopOfTypePrefix(items, x, q, t, Score(x, q), |items|);
    if Score(x, q) > score { TopOfTypeEmpty(items, q, t, Score(x, q), |items|); }
    var top := if Eligible(x, q) && x.resourceType == t && Score(x, q) > score then Score(x, q) else score;
    assert MaxScore(items', q, t, top);
  }

  lemma CollectionFirst(items: seq<Resource>, x: Resource, q: Query)
    requires Absent(items, q, x.resourceType) && Eligible(x, q) && IsCollection(x.resourceType)
    ensures CollectionOK(items + [x], q, x.resourceType, [x], Score(x, q))
  {
    hide Eligible, Score, IsCollection;
    var items' := items + [x];
    assert items'[|items|] == x;
    TopOfTypePrefix(items, x, q, x.resourceType, Score(x, q), |items|);
    TopOfTypeEmpty(items, q, x.resourceType, Score(x, q), |items|);
    assert TopOfType(items', q, x.resourceType, Score(x, q), |items'|) == [] + [x];
    assert MaxScore(items', q, x.resourceType, Score(x, q));
  }

  // ----- The method -----

  // The three maps of the pass, for every type.
  ghost predicate PassOK(items: seq<Resource>, q: Query, single: map<string, Resource>, index: map<string, int>,
                         collection: map<string, seq<Resource>>, scores: map<string, int>) {
    && single.Keys == index.Keys && collection.Keys == scores.Keys
    && (forall t :: t in single ==> SingleOK(items, q, t, index[t], single[t]))
    && (forall t :: t in collection ==> CollectionOK(items, q, t, collection[t], scores[t]))
    && (forall t :: t !in single && t !in collection ==> Absent(items, q, t))
  }

  lemma AbsentStep(items: seq<Resource>, x: Resource, q: Query, t: string)
    requires Absent(items, q, t) && !(Eligible(x, q) && x.resourceType == t)
    ensures Absent(items + [x], q, t)
  {
  }

  // An entry leaves every type but its own as it was.
  lemma OthersStep(items: seq<Resource>, x: Resource, q: Query, single: map<string, Resource>, index: map<string, int>,
                   collection: map<string, seq<Resource>>, scores: map<string, int>, t: string)
    requires PassOK(items, q, single, index, collection, scores)
    requires !(Eligible(x, q) && x.resourceType == t)
    ensures t in single ==> SingleOK(items + [x], q, t, index[t], single[t])
    ensures t in collection ==> CollectionOK(items + [x], q, t, collection[t], scores[t])
    ensures t !in single && t !in collection ==> Absent(items + [x], q, t)
  {
    if t in single { SingleStep(items, x, q, t, index[t], single[t]); }
    if t in collection { CollectionStep(items, x, q, t, collection[t], scores[t]); }
    if t !in single && t !in collection { AbsentStep(items, x, q, t); }
  }

  lemma KeepSkips(items: seq<Resource>, x: Resource, q: Query, single: map<string, Resource>, index: map<string, int>,
                  collection: map<string, seq<Resource>>, scores: map<string, int>)
    requires PassOK(items, q, single, index, collection, scores) && !Eligible(x, q)
    ensures PassOK(items + [x], q, single, index, collection, scores)
  {
    hide Eligible, Score, Wins, MaxScore, TopOfType, Absent;
    forall u: string
      ensures u in single ==> SingleOK(items + [x], q, u, index[u], single[u])
      ensures u in collection ==> CollectionOK(items + [x], q, u, collection[u], scores[u])
      ensures u !in single && u !in collection ==> Absent(items + [x], q, u)
    {
      OthersStep(items, x, q, single, index, collection, scores, u);
    }
  }

  lemma KeepSingle(items: seq<Resource>, x: Resource, q: Query, single: map<string, Resource>, index: map<string, int>,
                   collection: map<string, seq<Resource>>, scores: map<string, int>, i: int, r: Resource)
    requires PassOK(items, q, single, index, collection, scores)
    requires SingleOK(items + [x], q, x.resourceType, i, r)
    ensures PassOK(items + [x], q, single[x.resourceType := r], index[x.resourceType := i], collection, scores)
  {
    hide Eligible, Score, Wins, MaxScore, TopOfType, Absent;
    forall u | u != x.resourceType
      ensures u in single ==> SingleOK(items + [x], q, u, index[u], single[u])
      ensures u in collection ==> CollectionOK(items + [x], q, u, collection[u], scores[u])
      ensures u !in single && u !in collection ==> Absent(items + [x], q, u)
    {
      OthersStep(items, x, q, single, index, collection, scores, u);
    }
  }

  lemma KeepCollection(items: seq<Resource>, x: Resource, q: Query, single: map<string, Resource>,
                       index: map<string, int>,
                       collection: map<string, seq<Resource>>, scores: map<string, int>, rs: seq<Resource>, score: int)
    requires PassOK(items, q, single, index, collection, scores)
    requires CollectionOK(items + [x], q, x.resourceType, rs, score)
    ensures PassOK(items + [x], q, single, index, collection[x.resourceType := rs], scores[x.resourceType := score])
  {
    hide Eligible, Score, Wins, MaxScore, TopOfType, Absent;
    forall u | u != x.resourceType
      ensures u in single ==> SingleOK(items + [x], q, u, index[u], single[u])
      ensures u in collection ==> CollectionOK(items + [x], q, u, collection[u], scores[u])
      ensures u !in single && u !in collection ==> Absent(items + [x], q, u)
    {
      OthersStep(items, x, q, single, index, collection, scores, u);
    }
  }

  // One turn of the loop for an entry of a collection type.
  method KeepInCollection(x: Resource, q: Query, ghost single: map<string, Resource>, ghost index: map<string, int>,
                          collection: map<string, seq<Resource>>, scores: map<string, int>, ghost items: seq<Resource>)
    returns (collection': map<string, seq<Resource>>, scores': map<string, int>)
    requires PassOK(items, q, single, index, collection, scores)
    requires Eligible(x, q) && IsCollection(x.resourceType)
    ensures PassOK(items + [x], q, single, index, collection', scores')
  {
    hide Eligible, Score, IsCollection;
    collection', scores' := collection, scores;
    var t, score := x.resourceType, Score(x, q);
    assert t !in single;
    if t in scores { CollectionStep(items, x, q, t, collection[t], scores[t]); } else { CollectionFirst(items, x, q); }
    if t !in scores || score > scores[t] {
      scores', collection' := scores[t := score], collection[t := [x]];
    } else if score == scores[t] {
      collection' := collection[t := collection[t] + [x]];
      assert scores == scores[t := score];
    } else {
      assert scores == scores[t := scores[t]] && collection == collection[t := collection[t]];
    }
    KeepCollection(items, x, q, single, index, collection, scores, collection'[t], scores'[t]);
  }

  // One turn of the loop for an entry of any other type.
  method KeepBetter(x: Resource, q: Query, single: map<string, Resource>, ghost index: map<string, int>,
                    ghost collection: map<string, seq<Resource>>, ghost scores: map<string, int>,
                        ghost items: seq<Resource>)
    returns (single': map<string, Resource>, ghost index': map<string, int>)
    requires PassOK(items, q, single, index, collection, scores)
    requires Eligible(x, q) && !IsCollection(x.resourceType)
    ensures PassOK(items + [x], q, single', index', collection, scores)
  {
    hide Eligible, Score, IsCollection;
    single', index' := single, index;
    var t := x.resourceType;
    assert t !in collection;
    if t !in single || Better(x, single[t], q) {
      if t in single { SingleReplaced(items, x, q, index[t], single[t]); } else { SingleFirst(items, x, q); }
      single', index' := single[t := x], index[t := |items|];
    } else {
      SingleStep(items, x, q, t, index[t], single[t]);
      assert single == single[t := single[t]] && index == index[t := index[t]];
    }
    KeepSingle(items, x, q, single, index, collection, scores, index'[t], single'[t]);
  }

  // The entries kept for a type.
  function Block(single: map<string, Resource>, collection: map<string, seq<Resource>>, t: string): seq<Resource> {
    if t in single then [single[t]] else if t in collection then collection[t] else []
  }

  lemma BlockIsWinners(items: seq<Resource>, q: Query, single: map<string, Resource>, index: map<string, int>,
                       collection: map<string, seq<Resource>>, scores: map<string, int>, t: string)
    requires PassOK(items, q, single, index, collection, scores)
    ensures Block(single, collection, t) == WinnersOfType(items, q, t, |items|)
  {
    if t in single {
      WinnersSingle(items, q, index[t], |items|);
    } else if t in collection {
      WinnersCollection(items, q, t, scores[t], |items|);
    } else {
      WinnersNone(items, q, t, |items|);
    }
  }

  lemma {:induction false} EquivalentsOfOtherType(s: seq<Resource>, t: string, x: Resource)
    requires forall i :: 0 <= i < |s| ==> s[i].resourceType == t
    requires x.resourceType != t
    ensures Equivalents(s, x, ByTypeThenID()) == []
  {
    if s != [] {
      SameKey(s[0], x);
      EquivalentsOfOtherType(s[1..], t, x);
    }
  }

  // What one more entry adds to a group, on either side.
  ghost function Added(items: seq<Resource>, q: Query, x: Resource, i: nat): seq<Resource>
    requires i < |items|
  {
    if Wins(items, q, i) && items[i].resourceType == x.resourceType
    then Equivalents([items[i]], x, ByTypeThenID()) else []
  }

  lemma WinnersAdd(items: seq<Resource>, q: Query, x: Resource, n: nat)
    requires 0 < n <= |items|
    ensures Equivalents(Winners(items, q, n), x, ByTypeThenID())
            == Equivalents(Winners(items, q, n - 1), x, ByTypeThenID()) + Added(items, q, x, n - 1)
  {
    hide ByTypeThenID, Wins;
    var before, r := Winners(items, q, n - 1), items[n - 1];
    if Wins(items, q, n - 1) {
      EquivalentsConcat(before, [r], x, ByTypeThenID());
      if r.resourceType != x.resourceType { EquivalentsOfOtherType([r], r.resourceType, x); }
    } else {
      assert before + [] == before;
    }
  }

  lemma WinnersOfTypeAdd(items: seq<Resource>, q: Query, x: Resource, n: nat)
    requires 0 < n <= |items|
    ensures Equivalents(WinnersOfType(items, q, x.resourceType, n), x, ByTypeThenID())
            == Equivalents(WinnersOfType(items, q, x.resourceType, n - 1), x, ByTypeThenID())
                + Added(items, q, x, n - 1)
  {
    hide ByTypeThenID, Wins;
    var before, r := WinnersOfType(items, q, x.resourceType, n - 1), items[n - 1];
    if Wins(items, q, n - 1) && r.resourceType == x.resourceType {
      EquivalentsConcat(before, [r], x, ByTypeThenID());
    } else {
      assert before + [] == before;
    }
  }

  lemma {:induction false} EquivalentsOfWinners(items: seq<Resource>, q: Query, x: Resource, n: nat)
    requires n <= |items|
    ensures Equivalents(Winners(items, q, n), x, ByTypeThenID())
            == Equivalents(WinnersOfType(items, q, x.resourceType, n), x, ByTypeThenID())
  {
    hide Wins, ByTypeThenID;
    if n > 0 {
      hide *;
      EquivalentsOfWinners(items, q, x, n - 1);
      WinnersAdd(items, q, x, n);
      WinnersOfTypeAdd(items, q, x, n);
    }
  }

  lemma {:induction false} WinnersOfTypeHaveIt(items: seq<Resource>, q: Query, t: string, n: nat)
    requires n <= |items|
    ensures forall i :: 0 <= i < |WinnersOfType(items, q, t, n)| ==> WinnersOfType(items, q, t, n)[i].resourceType == t
  {
    hide Wins;
    if n > 0 { WinnersOfTypeHaveIt(items, q, t, n - 1); }
  }

  // What a list gathered from some types' blocks holds.
  ghost predicate Gathered(selected: seq<Resource>, single: map<string, Resource>,
                           collection: map<string, seq<Resource>>, todo: set<string>) {
    forall x {:trigger Equivalents(selected, x, ByTypeThenID())} ::
      Equivalents(selected, x, ByTypeThenID())
      == if x.resourceType in todo then []
         else Equivalents(Block(single, collection, x.resourceType), x, ByTypeThenID())
  }

  lemma GatherOne(selected: seq<Resource>, single: map<string, Resource>, collection: map<string, seq<Resource>>,
                  todo: set<string>, t: string)
    requires Gathered(selected, single, collection, todo) && t in todo
    requires forall i :: 0 <= i < |Block(single, collection, t)| ==> Block(single, collection, t)[i].resourceType == t
    ensures Gathered(selected + Block(single, collection, t), single, collection, todo - {t})
  {
    var block := Block(single, collection, t);
    forall x: Resource ensures Equivalents(selected + block, x, ByTypeThenID())
                     == if x.resourceType in todo - {t} then []
                        else Equivalents(Block(single, collection, x.resourceType), x, ByTypeThenID()) {
      EquivalentsConcat(selected, block, x, ByTypeThenID());
      if x.resourceType != t { EquivalentsOfOtherType(block, t, x); }
    }
  }

  lemma GatheredIsSelection(items: seq<Resource>, q: Query, selected: seq<Resource>, single: map<string, Resource>,
                            index: map<string, int>, collection: map<string, seq<Resource>>, scores: map<string, int>)
    requires PassOK(items, q, single, index, collection, scores) && Gathered(selected, single, collection, {})
    ensures StableSort(selected, ByTypeThenID()) == Selection(items, q)
  {
    forall x ensures Equivalents(selected, x, ByTypeThenID())
        == Equivalents(Winners(items, q, |items|), x, ByTypeThenID()) {
      BlockIsWinners(items, q, single, index, collection, scores, x.resourceType);
      EquivalentsOfWinners(items, q, x, |items|);
    }
    ByTypeThenIDStrictWeak();
    StableSortByGroups(selected, Winners(items, q, |items|), ByTypeThenID());
  }

  // Whatever order the maps are walked in, sorting gives the declarative selection.
  method Select(items: seq<Resource>, q: Query) returns (selected: seq<Resource>)
    ensures selected == Selection(items, q)
  {
    hide Eligible, Score, IsCollection;
    var single: map<string, Resource> := map[];
    var collection: map<string, seq<Resource>>, scores: map<string, int> := map[], map[];
    ghost var index: map<string, int> := map[];
    var i := 0;
    while i < |items|
      invariant i <= |items|
      invariant PassOK(items[..i], q, single, index, collection, scores)
    {
      var item := items[i];
      assert items[..i] + [item] == items[..i + 1];
      if !Eligible(item, q) {
        KeepSkips(items[..i], item, q, single, index, collection, scores);
      } else if IsCollection(item.resourceType) {
        collection, scores := KeepInCollection(item, q, single, index, collection, scores, items[..i]);
      } else {
        single, index := KeepBetter(item, q, single, index, collection, scores, items[..i]);
      }
      i := i + 1;
    }
    assert items[..i] == items;
    selected := [];
    var todo := single.Keys + collection.Keys;
    while todo != {}
      invariant todo <= single.Keys + collection.Keys
      invariant Gathered(selected, single, collection, todo)
      decreases todo
    {
      var t :| t in todo;
      BlockIsWinners(items, q, single, index, collection, scores, t);
      WinnersOfTypeHaveIt(items, q, t, |items|);
      GatherOne(selected, single, collection, todo, t);
      selected, todo := selected + Block(single, collection, t), todo - {t};
    }
    GatheredIsSelection(items, q, selected, single, index, collection, scores);
    selected := StableSort(selected, ByTypeThenID());
  }

  // ----- Independence of the input order -----

  predicate SameKeyAs(a: Resource, b: Resource) {
    a.resourceType == b.resourceType && a.id == b.id
  }

  ghost predicate DistinctIDs(items: seq<Resource>, q: Query) {
    forall i, j :: 0 <= i < j < |items| && Eligible(items[i], q) && Eligible(items[j], q)
        ==> !SameKeyAs(items[i], items[j])
  }

  // Winning, without positions.
  ghost predicate WinsAmong(items: seq<Resource>, q: Query, r: Resource) {
    && Eligible(r, q)
    && forall j :: 0 <= j < |items| && Eligible(items[j], q) && items[j].resourceType == r.resourceType ==>
         if IsCollection(r.resourceType) then Score(items[j], q) <= Score(r, q) else !Better(items[j], r, q)
  }

  lemma WinsWithoutPositions(items: seq<Resource>, q: Query, i: nat)
    requires DistinctIDs(items, q) && i < |items|
    ensures Wins(items, q, i) <==> WinsAmong(items, q, items[i])
  {
    hide Eligible, Score, IsCollection, Better;
    forall j: nat | j < i && Eligible(items[j], q) && Eligible(items[i], q)
        && items[j].resourceType == items[i].resourceType
      ensures Better(items[j], items[i], q) || Better(items[i], items[j], q)
    {
      assert !SameKeyAs(items[j], items[i]);
      BetterAsymmetric(items[j], items[i], q);
    }
    if WinsAmong(items, q, items[i]) {
      assert forall j :: 0 <= j < |items| && Rival(items, q, i, j) ==> Eligible(items[j], q);
    } else if Eligible(items[i], q) {
      var j :| 0 <= j < |items| && Eligible(items[j], q) && items[j].resourceType == items[i].resourceType
        && !(if IsCollection(items[i].resourceType) then Score(items[j], q) <= Score(items[i], q)
            else !Better(items[j], items[i], q));
      assert Rival(items, q, i, j);
    }
  }

  // The group of one key among the first n winners: at most the one winner that has it.
  ghost predicate GroupIs(e: seq<Resource>, items: seq<Resource>, q: Query, x: Resource, n: nat)
    requires n <= |items|
  {
    if e == [] then forall i: nat :: i < n && WinsAmong(items, q, items[i]) ==> !SameKeyAs(items[i], x)
    else exists i: nat :: i < n && WinsAmong(items, q, items[i]) && SameKeyAs(items[i], x) && e == [items[i]]
  }

  lemma GroupStep(items: seq<Resource>, q: Query, x: Resource, n: nat, e: seq<Resource>)
    requires DistinctIDs(items, q) && 0 < n <= |items| && GroupIs(e, items, q, x, n - 1)
    ensures var r := items[n - 1];
            GroupIs(e + if WinsAmong(items, q, r) && SameKeyAs(r, x) then [r] else [], items, q, x, n)
  {
    hide Eligible, WinsAmong, IsCollection, Score, Better;
    var r := items[n - 1];
    if WinsAmong(items, q, r) && SameKeyAs(r, x) {
      WinsAreEligible(items, q, r);
      forall i: nat | i < n - 1 && WinsAmong(items, q, items[i]) ensures !SameKeyAs(items[i], x) {
        WinsAreEligible(items, q, items[i]);
        assert !SameKeyAs(items[i], r);
      }
      assert e == [] && e + [r] == [r];
    } else {
      assert e + [] == e;
    }
  }

  lemma EquivalentsStep(items: seq<Resource>, q: Query, x: Resource, n: nat)
    requires DistinctIDs(items, q) && 0 < n <= |items|
    ensures var r := items[n - 1];
            Equivalents(Winners(items, q, n), x, ByTypeThenID())
            == Equivalents(Winners(items, q, n - 1), x, ByTypeThenID())
               + if WinsAmong(items, q, r) && SameKeyAs(r, x) then [r] else []
  {
    hide Wins, WinsAmong, DistinctIDs, ByTypeThenID;
    var r, before := items[n - 1], Winners(items, q, n - 1);
    WinsWithoutPositions(items, q, n - 1);
    SameKey(r, x);
    if Wins(items, q, n - 1) {
      assert Winners(items, q, n) == before + [r];
      EquivalentsConcat(before, [r], x, ByTypeThenID());
    } else {
      assert Winners(items, q, n) == before + [] == before;
    }
  }

  lemma {:induction false} KeyOccursOnce(items: seq<Resource>, q: Query, x: Resource, n: nat)
    requires DistinctIDs(items, q) && n <= |items|
    ensures GroupIs(Equivalents(Winners(items, q, n), x, ByTypeThenID()), items, q, x, n)
  {
    hide DistinctIDs, WinsAmong, Wins, ByTypeThenID;
    if n > 0 {
      hide *;
      KeyOccursOnce(items, q, x, n - 1);
      EquivalentsStep(items, q, x, n);
      GroupStep(items, q, x, n, Equivalents(Winners(items, q, n - 1), x, ByTypeThenID()));
    }
  }

  ghost predicate Shuffled(a: seq<Resource>, b: seq<Resource>) {
    multiset(a) == multiset(b)
  }

  lemma ShuffledMember(a: seq<Resource>, b: seq<Resource>, i: nat) returns (j: nat)
    requires Shuffled(a, b) && i < |a|
    ensures j < |b| && b[j] == a[i]
  {
    assert a[i] in multiset(b);
    j :| 0 <= j < |b| && b[j] == a[i];
  }

  lemma {:induction false} TwoPlaces(s: seq<Resource>, x: Resource) returns (k: nat, l: nat)
    requires multiset(s)[x] >= 2
    ensures k < l < |s| && s[k] == s[l] == x
  {
    var last := |s| - 1;
    assert s == s[..last] + [s[last]];
    if s[last] == x {
      assert x in s[..last];
      k :| 0 <= k < last && s[..last][k] == x;
      l := last;
    } else {
      k, l := TwoPlaces(s[..last], x);
    }
  }

  lemma TwoCounted(s: seq<Resource>, i: nat, j: nat)
    requires i < j < |s| && s[i] == s[j]
    ensures multiset(s)[s[i]] >= 2
  {
    assert s == s[..j] + s[j..];
    assert s[..j][i] == s[i] && s[j..][0] == s[j];
  }

  lemma ShuffledDistinct(a: seq<Resource>, b: seq<Resource>, q: Query)
    requires Shuffled(a, b) && DistinctIDs(a, q)
    ensures DistinctIDs(b, q)
  {
    hide Eligible;
    forall i, j | 0 <= i < j < |b| && Eligible(b[i], q) && Eligible(b[j], q) ensures !SameKeyAs(b[i], b[j]) {
      if b[i] == b[j] {
        TwoCounted(b, i, j);
        var k, l := TwoPlaces(a, b[i]);
        assert !SameKeyAs(a[k], a[l]);
      } else {
        var k := ShuffledMember(b, a, i);
        var l := ShuffledMember(b, a, j);
        assert k < l ==> !SameKeyAs(a[k], a[l]);
        assert l < k ==> !SameKeyAs(a[l], a[k]);
      }
    }
  }

  lemma ShuffledWins(a: seq<Resource>, b: seq<Resource>, q: Query, r: Resource)
    requires Shuffled(a, b) && WinsAmong(a, q, r)
    ensures WinsAmong(b, q, r)
  {
    hide Eligible, Score, IsCollection, Better;
    forall j | 0 <= j < |b| ensures exists i :: 0 <= i < |a| && a[i] == b[j] {
      var i := ShuffledMember(b, a, j);
    }
  }

  // The group of a key is the same in both orders.
  lemma SameGroup(a: seq<Resource>, b: seq<Resource>, q: Query, x: Resource, e: seq<Resource>, f: seq<Resource>)
    requires Shuffled(a, b) && DistinctIDs(b, q)
    requires GroupIs(e, a, q, x, |a|) && GroupIs(f, b, q, x, |b|) && e != []
    ensures e == f
  {
    hide Score, IsCollection, Better, WinsAmong;
    var i: nat :| i < |a| && WinsAmong(a, q, a[i]) && SameKeyAs(a[i], x) && e == [a[i]];
    ShuffledWins(a, b, q, a[i]);
    var j := ShuffledMember(a, b, i);
    assert f != [];
    var k: nat :| k < |b| && WinsAmong(b, q, b[k]) && SameKeyAs(b[k], x) && f == [b[k]];
    WinsAreEligible(b, q, b[j]);
    WinsAreEligible(b, q, b[k]);
    assert k < j ==> !SameKeyAs(b[k], b[j]);
    assert j < k ==> !SameKeyAs(b[j], b[k]);
  }

  lemma WinsAreEligible(items: seq<Resource>, q: Query, r: Resource)
    requires WinsAmong(items, q, r)
    ensures Eligible(r, q)
  {
  }

  // No two eligible resources of a type share an ID: then the order of the list does not matter.
  lemma SelectionIgnoresOrder(a: seq<Resource>, b: seq<Resource>, q: Query)
    requires Shuffled(a, b) && DistinctIDs(a, q)
    ensures Selection(a, q) == Selection(b, q)
  {
    ShuffledDistinct(a, b, q);
    hide DistinctIDs, GroupIs, ByTypeThenID;
    forall x ensures Equivalents(Winners(a, q, |a|), x, ByTypeThenID())
        == Equivalents(Winners(b, q, |b|), x, ByTypeThenID()) {
      var e, f := Equivalents(Winners(a, q, |a|), x, ByTypeThenID()),
          Equivalents(Winners(b, q, |b|), x, ByTypeThenID());
      KeyOccursOnce(a, q, x, |a|);
      KeyOccursOnce(b, q, x, |b|);
      if e != [] { SameGroup(a, b, q, x, e, f); } else if f != [] { SameGroup(b, a, q, x, f, e); }
    }
    ByTypeThenIDStrictWeak();
    StableSortByGroups(Winners(a, q, |a|), Winners(b, q, |b|), ByTypeThenID());
  }

  // ----- Which captcha types can be served -----

  ghost predicate Offered(items: seq<Resource>, q: Query, t: string) {
    exists i :: 0 <= i < |items| && Eligible(items[i], q) && items[i].resourceType == t
  }

  // A type with an eligible entry among the first n has one no other of those beats.
  lemma {:induction false} BestIndex(items: seq<Resource>, q: Query, t: string, n: nat) returns (i: nat)
    requires n <= |items| && exists j :: 0 <= j < n && Eligible(items[j], q) && items[j].resourceType == t
    ensures i < n && Eligible(items[i], q) && items[i].resourceType == t
    ensures forall j :: 0 <= j < n && Eligible(items[j], q) && items[j].resourceType == t ==>
              !Better(items[j], items[i], q) && (j < i ==> Better(items[i], items[j], q))
  {
    hide Eligible, Better;
    var last := items[n - 1];
    BetterAsymmetric(last, last, q);
    if exists j :: 0 <= j < n - 1 && Eligible(items[j], q) && items[j].resourceType == t {
      i := BestIndex(items, q, t, n - 1);
      if Eligible(last, q) && last.resourceType == t && Better(last, items[i], q) {
        forall j | 0 <= j < n - 1 && Eligible(items[j], q) && items[j].resourceType == t
          ensures !Better(items[j], last, q) && Better(last, items[j], q)
        {
          BetterThanBest(last, items[i], items[j], q);
        }
        i := n - 1;
      }
    } else {
      i := n - 1;
    }
  }

  lemma OfferedHasWinner(items: seq<Resource>, q: Query, t: string)
    requires Offered(items, q, t)
    ensures exists i :: 0 <= i < |items| && Wins(items, q, i) && items[i].resourceType == t
  {
    hide Eligible, IsCollection, Score;
    var i := BestIndex(items, q, t, |items|);
    assert forall j :: 0 <= j < |items| && Rival(items, q, i, j) ==> Score(items[j], q) <= Score(items[i], q);
    assert Wins(items, q, i);
  }

  lemma {:induction false} WinnersAre(items: seq<Resource>, q: Query, r: Resource, n: nat)
    requires n <= |items|
    ensures r in Winners(items, q, n) <==> exists i :: 0 <= i < n && Wins(items, q, i) && items[i] == r
  {
    hide Wins;
    if n > 0 { WinnersAre(items, q, r, n - 1); }
  }

  lemma SelectionMembers(items: seq<Resource>, q: Query, r: Resource)
    ensures r in Selection(items, q) <==> exists i :: 0 <= i < |items| && Wins(items, q, i) && items[i] == r
  {
    hide Eligible, ByTypeThenID, Wins;
    var winners := Winners(items, q, |items|);
    ByTypeThenIDStrictWeak();
    StableSortSorts(winners, ByTypeThenID());
    assert r in Selection(items, q) <==> r in multiset(winners);
    WinnersAre(items, q, r, |items|);
  }

  // Every resource type with an eligible resource is represented in the selection, and no other.
  lemma SelectionTypes(items: seq<Resource>, q: Query, t: string)
    ensures (exists r :: r in Selection(items, q) && r.resourceType == t) <==> Offered(items, q, t)
  {
    hide Eligible, Selection;
    if r :| r in Selection(items, q) && r.resourceType == t {
      SelectionMembers(items, q, r);
    }
    if Offered(items, q, t) {
      OfferedHasWinner(items, q, t);
      var i :| 0 <= i < |items| && Wins(items, q, i) && items[i].resourceType == t;
      SelectionMembers(items, q, items[i]);
    }
  }

  method SupportsCaptchaType(items: seq<Resource>, q: Query) returns (supported: bool)
    ensures supported <==> RequiredGroups(q.captchaType) != []
                           && forall g :: g in RequiredGroups(q.captchaType) ==> exists t :: t in g
                                                                                   && Offered(items, q, t)
  {
    hide RequiredGroups, Eligible, Offered, Selection;
    var groups := RequiredGroups(q.captchaType);
    if groups == [] { return false; }
    var selected := Select(items, q);
    var selectedTypes := set r | r in selected :: r.resourceType;
    forall t: string ensures t in selectedTypes <==> Offered(items, q, t) { SelectionTypes(items, q, t); }
    var i := 0;
    while i < |groups|
      invariant i <= |groups|
      invariant forall k :: 0 <= k < i ==> exists t :: t in groups[k] && Offered(items, q, t)
    {
      var found := HasAny(selectedTypes, groups[i]);
      if !found {
        assert groups[i] in groups;
        return false;
      }
      i := i + 1;
    }
    return true;
  }

  method HasAny(selectedTypes: set<string>, alternatives: seq<string>) returns (found: bool)
    ensures found <==> exists t :: t in alternatives && t in selectedTypes
  {
    var i := 0;
    while i < |alternatives|
      invariant i <= |alternatives|
      invariant forall k :: 0 <= k < i ==> alternatives[k] !in selectedTypes
    {
      if alternatives[i] in selectedTypes { return true; }
      i := i + 1;
    }
    return false;
  }
}
