/** The in-place shuffle that picks random tile indices, as a function of its random draws: every order
    comes from exactly one sequence of draws, so uniform draws give uniform orders. */
module Shuffle {
  import opened Text
  import opened Jigsaw

  // Draw i is between i and the last index, both included.
  ghost predicate ValidDraws(draws: seq<int>, n: nat) {
    |draws| == n && forall i :: 0 <= i < n ==> i <= draws[i] < n
  }

  function Exchange(s: seq<int>, i: nat, j: nat): seq<int>
    requires i < |s| && j < |s|
  {
    s[i := s[j]][j := s[i]]
  }

  // The indices after the first k exchanges.
  ghost function After(draws: seq<int>, n: nat, k: nat): (s: seq<int>)
    requires k <= n && |draws| >= k && forall i :: 0 <= i < k ==> i <= draws[i] < n
    ensures |s| == n
  {
    if k == 0 then Identity(n) else Exchange(After(draws, n, k - 1), k - 1, draws[k - 1])
  }

  method RandomIndexes(length: int, count: int, draws: seq<int>) returns (indexes: seq<int>)
    requires length > 0 ==> ValidDraws(draws, length)
    ensures length <= 0 || count <= 0 ==> indexes == []
    ensures length > 0 && count > 0 ==>
              indexes == After(draws, length, length)[..if count < length then count else length]
  {
    if length <= 0 || count <= 0 { return []; }
    var a := new int[length](i => i);
    assert a[..] == Identity(length);
    for i := 0 to length
      invariant a[..] == After(draws, length, i)
    {
      var j := draws[i];
      a[i], a[j] := a[j], a[i];
    }
    indexes := a[..if count < length then count else length];
  }

  lemma {:induction false} AfterIsOrder(draws: seq<int>, n: nat, k: nat)
    requires k <= n && ValidDraws(draws, n)
    ensures IsOrder(After(draws, n, k), n)
  {
    if k > 0 { AfterIsOrder(draws, n, k - 1); }
  }

  // The picked indices are different and in range, as many as asked for if there are so many.
  lemma PickedAreDistinct(draws: seq<int>, n: nat, count: nat)
    requires ValidDraws(draws, n)
    ensures var picked := After(draws, n, n)[..if count < n then count else n];
            InRange(picked, n) && Distinct(picked)
  {
    AfterIsOrder(draws, n, n);
  }

  // Position i is final after exchange i.
  lemma {:induction false} Settled(draws: seq<int>, n: nat, i: nat, k: nat)
    requires ValidDraws(draws, n) && i < k <= n
    ensures After(draws, n, k)[i] == After(draws, n, i + 1)[i] == After(draws, n, i)[draws[i]]
  {
    if i + 1 < k { Settled(draws, n, i, k - 1); }
  }

  lemma {:induction false} SamePrefix(a: seq<int>, b: seq<int>, n: nat, k: nat)
    requires ValidDraws(a, n) && ValidDraws(b, n) && k <= n && a[..k] == b[..k]
    ensures After(a, n, k) == After(b, n, k)
  {
    if k > 0 {
      assert a[..k][k - 1] == b[..k][k - 1];
      assert a[..k - 1] == a[..k][..k - 1] && b[..k - 1] == b[..k][..k - 1];
      SamePrefix(a, b, n, k - 1);
    }
  }

  lemma {:induction false} SameDraws(a: seq<int>, b: seq<int>, n: nat, k: nat)
    requires ValidDraws(a, n) && ValidDraws(b, n) && k <= n && After(a, n, n) == After(b, n, n)
    ensures a[..k] == b[..k]
  {
    if k > 0 {
      SameDraws(a, b, n, k - 1);
      SamePrefix(a, b, n, k - 1);
      Settled(a, n, k - 1, n);
      Settled(b, n, k - 1, n);
      AfterIsOrder(a, n, k - 1);
      var s := After(a, n, k - 1);
      assert s[a[k - 1]] == s[b[k - 1]];
      assert a[k - 1] == b[k - 1];
      assert a[..k] == a[..k - 1] + [a[k - 1]] && b[..k] == b[..k - 1] + [b[k - 1]];
    }
  }

  // Different draws give different orders.
  lemma DrawsAreDetermined(a: seq<int>, b: seq<int>, n: nat)
    requires ValidDraws(a, n) && ValidDraws(b, n)
    ensures After(a, n, n) == After(b, n, n) <==> a == b
  {
    if After(a, n, n) == After(b, n, n) {
      SameDraws(a, b, n, n);
      assert a[..n] == a && b[..n] == b;
    }
  }

  // Draws that bring the first k positions to those of a given order.
  lemma {:induction false} DrawsTowards(order: seq<int>, n: nat, k: nat) returns (draws: seq<int>)
    requires IsOrder(order, n) && k <= n
    ensures ValidDraws(draws, n) && forall i :: 0 <= i < k ==> After(draws, n, k)[i] == order[i]
  {
    if k == 0 { return seq(n, i => i); }
    var before := DrawsTowards(order, n, k - 1);
    var s := After(before, n, k - 1);
    AfterIsOrder(before, n, k - 1);
    EveryValueOccurs(s, n, order[k - 1]);
    var j :| 0 <= j < n && s[j] == order[k - 1];
    draws := before[k - 1 := j];
    assert draws[..k - 1] == before[..k - 1];
    SamePrefix(draws, before, n, k - 1);
  }

  // Every order comes from some draws.
  lemma EveryOrderIsDrawn(order: seq<int>, n: nat) returns (draws: seq<int>)
    requires IsOrder(order, n)
    ensures ValidDraws(draws, n) && After(draws, n, n) == order
  {
    draws := DrawsTowards(order, n, n);
  }
}
