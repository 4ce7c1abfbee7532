/** What a selection holds: the best of every single type, all top-scored ones of every collection type, in
    order of type and ID. */
module SelectedResources {
  import opened Text
  import opened Sorting
  import opened Selector

  // ----- What a query may be served with -----

  // An active resource with content, for the query's captcha type, scene and tag, of a type the captcha needs.
  ghost predicate Suits(r: Resource, q: Query) {
    && r.resourceType != "" && r.uri != "" && (r.status == "" || ToLower(r.status) == "active")
    && r.captchaType in ["", "AUTO", q.captchaType]
    && (r.scene == "" || (q.scene != "" && ToLower(r.scene) == ToLower(q.scene)))
    && (q.tag == "" || r.tag == "" || ToLower(r.tag) in ["default", ToLower(q.tag)])
    && (RequiredGroups(q.captchaType) == []
        || (TrimSpace(r.resourceType) != ""
            && exists g, t :: g in RequiredGroups(q.captchaType) && t in g
                              && ToLower(TrimSpace(t)) == ToLower(TrimSpace(r.resourceType))))
  }

  lemma {:induction false} TrimRightKeeps(s: string)
    ensures s != "" && !IsSpace(s[0]) ==> TrimRight(s) != ""
  {
    hide IsSpace;
    if |s| > 1 { TrimRightKeeps(s[..|s| - 1]); }
  }

  lemma LowerLength(s: string)
    ensures |ToLower(s)| == |s|
  {
  }

  lemma SomethingNeeded(captchaType: string)
    ensures SelectableTypes(captchaType) == {} <==> RequiredGroups(captchaType) == []
  {
    hide ToLower, RequestedType, IsSpace, TrimRight;
    var groups := RequiredGroups(captchaType);
    if groups != [] {
      var g, t := groups[0], groups[0][0];
      assert t[0] in ['b', 'r', 'c', 'j', 'g'];
      LettersAreNoSpace();
      TrimRightKeeps(t);
      LowerLength(TrimSpace(t));
      assert g in groups && t in g && ToLower(TrimSpace(t)) != "";
      assert ToLower(TrimSpace(t)) in SelectableTypes(captchaType);
    }
  }

  lemma LettersAreNoSpace()
    ensures !IsSpace('b') && !IsSpace('r') && !IsSpace('c') && !IsSpace('j') && !IsSpace('g')
  {
  }

  lemma SuitsExactly(r: Resource, q: Query)
    ensures Suits(r, q) <==> Eligible(r, q)
  {
    SomethingNeeded(q.captchaType);
    LowerLength(TrimSpace(r.resourceType));
    hide TrimSpace, RequiredGroups;
    assert ToLower("active") == "active" && ToLower("default") == "default";
    hide ToLower;
  }

  // ----- What is selected -----

  // No listed resource of the type that suits has a higher score nor, for a single type, the same score and a
  // lower ID, nor both the same and an earlier place.
  ghost predicate BestAt(items: seq<Resource>, q: Query, i: int)
    requires 0 <= i < |items|
  {
    forall j :: 0 <= j < |items| && Suits(items[j], q) && items[j].resourceType == items[i].resourceType ==>
      && Score(items[j], q) <= Score(items[i], q)
      && (!IsCollection(items[i].resourceType) && Score(items[j], q) == Score(items[i], q) ==>
            !StrLess(items[j].id, items[i].id) && (items[j].id == items[i].id ==> j >= i))
  }

  lemma WinnerIsBest(items: seq<Resource>, q: Query, i: nat)
    requires i < |items|
    ensures Wins(items, q, i) <==> Suits(items[i], q) && BestAt(items, q, i)
  {
    hide Suits, IsCollection, Score, Eligible;
    SuitsExactly(items[i], q);
    forall j | 0 <= j < |items|
      ensures Suits(items[j], q) <==> Eligible(items[j], q)
      ensures Rival(items, q, i, j) <==> Suits(items[j], q) && items[j].resourceType == items[i].resourceType
      ensures StrLess(items[i].id, items[j].id) <==> items[i].id != items[j].id && !StrLess(items[j].id, items[i].id)
    {
      SuitsExactly(items[j], q);
      StrLessTotal(items[i].id, items[j].id);
    }
  }

  // The selection holds exactly the resources that are listed, suit, and are the best of their type.
  lemma SelectedExactly(items: seq<Resource>, q: Query, r: Resource)
    ensures r in Selection(items, q) <==>
              exists i :: 0 <= i < |items| && items[i] == r && Suits(r, q) && BestAt(items, q, i)
  {
    hide Suits, BestAt, Selection, Wins;
    SelectionMembers(items, q, r);
    forall i: nat | i < |items| ensures Wins(items, q, i) <==> Suits(items[i], q) && BestAt(items, q, i) {
      WinnerIsBest(items, q, i);
    }
  }

  // Of a collection type all listed resources that suit and have the highest score, as often as they are listed.
  lemma CollectionsExactly(items: seq<Resource>, q: Query, r: Resource)
    requires IsCollection(r.resourceType)
    ensures multiset(Selection(items, q))[r] == if TopScored(items, q, r) then multiset(items)[r] else 0
  {
    hide Suits, IsCollection, Score, Wins, Selection;
    var top := TopScored(items, q, r);
    forall i: nat | i < |items| && items[i] == r ensures Wins(items, q, i) <==> top {
      WinnerIsBest(items, q, i);
    }
    WinnersCounted(items, q, r, top, |items|);
    assert items[..|items|] == items;
    SelectionCounts(items, q, r);
  }

  ghost predicate TopScored(items: seq<Resource>, q: Query, r: Resource) {
    && Suits(r, q)
    && forall x :: x in items && Suits(x, q) && x.resourceType == r.resourceType ==> Score(x, q) <= Score(r, q)
  }

  lemma WinnersGrow(items: seq<Resource>, q: Query, r: Resource, n: nat)
    requires n < |items|
    ensures multiset(Winners(items, q, n + 1))[r]
            == multiset(Winners(items, q, n))[r] + if Wins(items, q, n) && items[n] == r then 1 else 0
  {
    hide Wins;
  }

  lemma NoWinners(items: seq<Resource>, q: Query)
    ensures Winners(items, q, 0) == []
  {
  }

  lemma {:induction false} WinnersCounted(items: seq<Resource>, q: Query, r: Resource, top: bool, n: nat)
    requires n <= |items| && forall i: nat :: i < |items| && items[i] == r ==> (Wins(items, q, i) <==> top)
    ensures multiset(Winners(items, q, n))[r] == if top then multiset(items[..n])[r] else 0
  {
    hide Wins, Winners;
    if n == 0 {
      NoWinners(items, q);
    } else {
      WinnersGrow(items, q, r, n - 1);
      WinnersCounted(items, q, r, top, n - 1);
      assert items[..n] == items[..n - 1] + [items[n - 1]];
    }
  }

  // Of a single type exactly one, if any suits.
  lemma OnePerSingleType(items: seq<Resource>, q: Query, t: string)
    requires !IsCollection(t)
    ensures (exists x :: x in items && Suits(x, q) && x.resourceType == t) <==>
              exists i :: 0 <= i < |Selection(items, q)| && Selection(items, q)[i].resourceType == t
    ensures forall i, j :: 0 <= i < j < |Selection(items, q)| ==>
              !(Selection(items, q)[i].resourceType == Selection(items, q)[j].resourceType == t)
  {
    hide Selection, IsCollection, Suits;
    SomeOfType(items, q, t);
    var chosen := Selection(items, q);
    forall i, j | 0 <= i < j < |chosen| ensures !(chosen[i].resourceType == chosen[j].resourceType == t) {
      if chosen[i].resourceType == chosen[j].resourceType == t { NotTwo(items, q, i, j); }
    }
  }

  lemma SomeOfType(items: seq<Resource>, q: Query, t: string)
    ensures (exists x :: x in items && Suits(x, q) && x.resourceType == t) <==>
              exists i :: 0 <= i < |Selection(items, q)| && Selection(items, q)[i].resourceType == t
  {
    hide Selection, Suits, Eligible;
    forall x ensures Suits(x, q) <==> Eligible(x, q) { SuitsExactly(x, q); }
    SelectionTypes(items, q, t);
    if r :| r in Selection(items, q) && r.resourceType == t {
      var i :| 0 <= i < |Selection(items, q)| && Selection(items, q)[i] == r;
    }
  }

  lemma NotTwo(items: seq<Resource>, q: Query, i: nat, j: nat)
    requires i < j < |Selection(items, q)|
    requires Selection(items, q)[i].resourceType == Selection(items, q)[j].resourceType
    ensures IsCollection(Selection(items, q)[i].resourceType)
  {
    hide Wins, Selection, IsCollection;
    var a, b := Selection(items, q)[i], Selection(items, q)[j];
    SelectionMembers(items, q, a);
    SelectionMembers(items, q, b);
    var k :| 0 <= k < |items| && Wins(items, q, k) && items[k] == a;
    var l :| 0 <= l < |items| && Wins(items, q, l) && items[l] == b;
    if !IsCollection(a.resourceType) {
      OneWinner(items, q, k, l);
      TwoCounted(Selection(items, q), i, j);
      SelectionCounts(items, q, a);
      WinsOnce(items, q, k, |items|);
      assert false;
    }
  }

  lemma SelectionCounts(items: seq<Resource>, q: Query, r: Resource)
    ensures multiset(Selection(items, q))[r] == multiset(Winners(items, q, |items|))[r]
  {
    hide Winners, ByTypeThenID;
    ByTypeThenIDStrictWeak();
    StableSortSorts(Winners(items, q, |items|), ByTypeThenID());
  }

  lemma {:induction false} WinsOnce(items: seq<Resource>, q: Query, k: nat, n: nat)
    requires n <= |items| && k < |items| && Wins(items, q, k) && !IsCollection(items[k].resourceType)
    ensures multiset(Winners(items, q, n))[items[k]] == if k < n then 1 else 0
  {
    hide *;
    if n == 0 {
      NoWinners(items, q);
    } else {
      WinnersGrow(items, q, items[k], n - 1);
      WinsOnce(items, q, k, n - 1);
      if Wins(items, q, n - 1) && items[n - 1] == items[k] { OneWinner(items, q, k, n - 1); }
    }
  }

  // In order of type, and of ID within a type.
  lemma SelectionInOrder(items: seq<Resource>, q: Query, i: nat, j: nat)
    requires i < j < |Selection(items, q)|
    ensures var a, b := Selection(items, q)[i], Selection(items, q)[j];
            StrLess(a.resourceType, b.resourceType) || (a.resourceType == b.resourceType && !StrLess(b.id, a.id))
  {
    hide Winners;
    ByTypeThenIDStrictWeak();
    StableSortSorts(Winners(items, q, |items|), ByTypeThenID());
    var a, b := Selection(items, q)[i], Selection(items, q)[j];
    assert !ByTypeThenID()(b, a);
    StrLessTotal(a.resourceType, b.resourceType);
  }
}
