/** Jigsaw tile orders: the scramble, its inverse, the text in which the expected order is stored, what
    the renderer reads back from that text, and which submitted orders are accepted. */
module Jigsaw {
  import opened Text

  // ----- Orders -----

  ghost predicate InRange(order: seq<int>, count: int) {
    forall i :: 0 <= i < |order| ==> 0 <= order[i] < count
  }

  // A permutation of 0..count.
  ghost predicate IsOrder(order: seq<int>, count: nat) {
    |order| == count && InRange(order, count) && Distinct(order)
  }

  function Identity(count: nat): (order: seq<int>) {
    seq(count, i => i)
  }

  // The last position holding a value below n, if any.
  function LastIndex(order: seq<int>, value: int, n: nat): Option<nat>
    requires n <= |order|
  {
    if n == 0 then None else if order[n - 1] == value then Some(n - 1) else LastIndex(order, value, n - 1)
  }

  // Where each value stands; a value that is missing stays where it is.
  function Inverse(order: seq<int>): (inverse: seq<int>)
    ensures |inverse| == |order|
  {
    seq(|order|, i requires 0 <= i < |order| =>
      match LastIndex(order, i, |order|) case Some(t) => t case None => i)
  }

  lemma {:induction false} LastIndexFinds(order: seq<int>, value: int, n: nat)
    requires n <= |order|
    ensures var r := LastIndex(order, value, n);
            if r.Some? then r.value < n && order[r.value] == value
            else forall i :: 0 <= i < n ==> order[i] != value
  {
    if n > 0 && order[n - 1] != value { LastIndexFinds(order, value, n - 1); }
  }

  method InvertJigsawOrder(order: seq<int>) returns (out: seq<int>)
    ensures out == Inverse(order)
  {
    var a := new int[|order|](i => i);
    for target := 0 to |order|
      invariant forall i :: 0 <= i < a.Length ==>
                  a[i] == match LastIndex(order, i, target) case Some(t) => t case None => i
    {
      var source := order[target];
      if 0 <= source < a.Length { a[source] := target; }
    }
    out := a[..];
  }

  // The pigeonhole fact: a list of distinct numbers below n, n long, holds every number below n.
  lemma {:induction false} EveryValueOccurs(order: seq<int>, count: nat, value: int)
    requires IsOrder(order, count) && 0 <= value < count
    ensures exists i :: 0 <= i < count && order[i] == value
  {
    var values := set i | 0 <= i < count :: order[i];
    DistinctCount(order, count);
    var below := Below(count);
    BelowCount(count);
    assert values <= below;
    if value !in values {
      assert values <= below - {value};
      SubsetCount(values, below - {value});
    }
  }

  lemma {:induction false} DistinctCount(order: seq<int>, n: nat)
    requires n <= |order| && Distinct(order)
    ensures |set i | 0 <= i < n :: order[i]| == n
  {
    if n > 0 {
      DistinctCount(order, n - 1);
      assert (set i | 0 <= i < n :: order[i]) == (set i | 0 <= i < n - 1 :: order[i]) + {order[n - 1]};
    }
  }

  ghost function Below(n: nat): set<int> {
    if n == 0 then {} else Below(n - 1) + {n - 1}
  }

  lemma {:induction false} BelowCount(n: nat)
    ensures |Below(n)| == n && forall v :: v in Below(n) <==> 0 <= v < n
  {
    if n > 0 { BelowCount(n - 1); }
  }

  lemma {:induction false} SubsetCount<T>(a: set<T>, b: set<T>)
    requires a <= b
    ensures |a| <= |b|
  {
    if a != {} {
      var x :| x in a;
      SubsetCount(a - {x}, b - {x});
    }
  }

  // For a permutation, inversion is a two-sided inverse and gives a permutation.
  lemma InverseIsTwoSided(order: seq<int>, count: nat)
    requires IsOrder(order, count)
    ensures IsOrder(Inverse(order), count)
    ensures forall t :: 0 <= t < count ==> Inverse(order)[order[t]] == t
    ensures forall s :: 0 <= s < count ==> order[Inverse(order)[s]] == s
  {
    var inverse := Inverse(order);
    forall s | 0 <= s < count ensures 0 <= inverse[s] < count && order[inverse[s]] == s {
      EveryValueOccurs(order, count, s);
      LastIndexFinds(order, s, count);
    }
    forall t | 0 <= t < count ensures inverse[order[t]] == t {
      assert order[inverse[order[t]]] == order[t];
    }
  }

  lemma InverseOfInverse(order: seq<int>, count: nat)
    requires IsOrder(order, count)
    ensures Inverse(Inverse(order)) == order
  {
    InverseIsTwoSided(order, count);
    InverseIsTwoSided(Inverse(order), count);
    forall i | 0 <= i < count ensures Inverse(Inverse(order))[i] == order[i] {
      assert Inverse(order)[order[i]] == i;
    }
  }

  // ----- The scramble -----

  function Swapped(count: nat, first: nat, second: nat): seq<int>
    requires first < count && second < count
  {
    Identity(count)[first := second][second := first]
  }

  // The second draw is among the other positions; both draws are given.
  method ScrambledSourceOrder(count: nat, draw1: nat, draw2: nat) returns (order: seq<int>)
    requires count >= 2 ==> draw1 <= count - 1 && draw2 <= count - 2
    ensures if count < 2 then order == Identity(count)
            else exists second :: 0 <= second < count && second != draw1 && order == Swapped(count, draw1, second)
  {
    order := Identity(count);
    if count < 2 { return; }
    var first, second := draw1, draw2;
    if second >= first { second := second + 1; }
    order := order[first := order[second]][second := order[first]];
    assert order == Swapped(count, first, second);
  }

  lemma SwapIsItsOwnInverse(count: nat, first: nat, second: nat)
    requires first < count && second < count
    ensures IsOrder(Swapped(count, first, second), count)
    ensures Inverse(Swapped(count, first, second)) == Swapped(count, first, second)
  {
    var s := Swapped(count, first, second);
    InverseIsTwoSided(s, count);
    forall i | 0 <= i < count ensures Inverse(s)[i] == s[i] {
      assert s[s[i]] == i;
    }
  }

  // ----- The stored text -----

  function Printed(n: int): string {
    if n >= 0 then Digits(n) else ['-'] + Digits(-n)
  }

  function EncodeOrder(order: seq<int>): string {
    Join(seq(|order|, i requires 0 <= i < |order| => Printed(order[i])), ',')
  }

  function ParseIndex(part: string, count: nat): Option<int> {
    match Atoi(TrimSpace(part))
    case Some(n) => if 0 <= n < count then Some(n) else None
    case None => None
  }

  // What the text means: the right number of indices, all in range, no two the same.
  ghost predicate Denotes(value: string, order: seq<int>, count: nat) {
    var parts := Split(TrimSpace(value), ',');
    && |parts| == |order| == count && Distinct(order)
    && forall i :: 0 <= i < count ==> ParseIndex(parts[i], count) == Some(order[i])
  }

  // A bad or repeated part spoils the text, whatever follows.
  lemma NotDenoted(value: string, count: nat, result: seq<int>)
    requires var parts := Split(TrimSpace(value), ',');
             && |result| < count == |parts|
             && (forall k :: 0 <= k < |result| ==> ParseIndex(parts[k], count) == Some(result[k]))
             && (ParseIndex(parts[|result|], count).None?
                 || exists k :: 0 <= k < |result| && ParseIndex(parts[|result|], count) == Some(result[k]))
    ensures forall o :: !Denotes(value, o, count)
  {
    var parts, i := Split(TrimSpace(value), ','), |result|;
    hide TrimSpace, Split, ParseIndex;
    forall o ensures !Denotes(value, o, count) {
      if ParseIndex(parts[i], count).Some? {
        var k :| 0 <= k < i && ParseIndex(parts[i], count) == Some(result[k]);
        assert ParseIndex(parts[k], count) == ParseIndex(parts[i], count);
      }
    }
  }

  method DecodeOrder(value: string, count: nat) returns (order: Option<seq<int>>)
    ensures order.Some? ==> Denotes(value, order.value, count)
    ensures order.None? ==> forall o :: !Denotes(value, o, count)
  {
    var parts := Split(TrimSpace(value), ',');
    if |parts| != count { return None; }
    var result: seq<int> := [];
    var seen := new bool[count](i => false);
    for i := 0 to count
      invariant |result| == i && Distinct(result)
      invariant forall k :: 0 <= k < i ==> ParseIndex(parts[k], count) == Some(result[k])
      invariant forall v :: 0 <= v < count ==> (seen[v] <==> exists k :: 0 <= k < i && result[k] == v)
    {
      var parsed := Atoi(TrimSpace(parts[i]));
      if parsed.None? || parsed.value < 0 || parsed.value >= count || seen[parsed.value] {
        NotDenoted(value, count, result);
        return None;
      }
      result := result + [parsed.value];
      seen[parsed.value] := true;
    }
    order := Some(result);
  }

  lemma PrintedIndex(n: nat, count: nat)
    requires n < count <= 0x8000_0000_0000_0000
    ensures ',' !in Printed(n) && SpaceFree(Printed(n)) && Printed(n) != ""
    ensures ParseIndex(Printed(n), count) == Some(n)
  {
    DigitsRoundTrip(n);
    AtoiDigits(n);
    assert forall c :: IsDigit(c) ==> !IsSpace(c) && c != ',';
    assert forall i :: 0 <= i < |Digits(n)| ==> Digits(n)[i] in Digits(n);
    TrimSpaceFixed(Digits(n));
  }

  // Decoding undoes encoding: the text of a permutation denotes it, and nothing else.
  lemma DecodeEncode(order: seq<int>, count: nat)
    requires IsOrder(order, count) && 0 < count <= 0x8000_0000_0000_0000
    ensures forall o :: Denotes(EncodeOrder(order), o, count) <==> o == order
  {
    var parts := seq(count, i requires 0 <= i < count => Printed(order[i]));
    forall i | 0 <= i < count
      ensures ',' !in parts[i] && SpaceFree(parts[i]) && ParseIndex(parts[i], count) == Some(order[i])
    {
      PrintedIndex(order[i], count);
    }
    JoinSpaceFree(parts, ',');
    TrimSpaceFixed(Join(parts, ','));
    SplitJoin(parts, ',');
    assert EncodeOrder(order) == Join(parts, ',');
    assert Denotes(EncodeOrder(order), order, count);
    hide TrimSpace, Split, Join, ParseIndex, EncodeOrder;
    forall o | Denotes(EncodeOrder(order), o, count) ensures o == order {}
  }

  // ----- The renderer -----

  // The renderer decodes the expected order and inverts it to know which tile to draw where.
  method DecodeSourceOrder(token: string, count: nat) returns (source: Option<seq<int>>)
    ensures source.Some? ==> exists o :: Denotes(token, o, count) && source.value == Inverse(o)
    ensures source.None? ==> forall o :: !Denotes(token, o, count)
  {
    var expected := DecodeOrder(token, count);
    if expected.None? { return None; }
    var inverted := InvertJigsawOrder(expected.value);
    source := Some(inverted);
  }

  // It recovers the very scramble the challenge was made from.
  method RenderedSource(source: seq<int>, count: nat) returns (recovered: Option<seq<int>>)
    requires IsOrder(source, count) && 0 < count <= 0x8000_0000_0000_0000
    ensures recovered == Some(source)
  {
    var expected := InvertJigsawOrder(source);
    InverseIsTwoSided(source, count);
    DecodeEncode(expected, count);
    InverseOfInverse(source, count);
    assert Denotes(EncodeOrder(expected), expected, count);
    recovered := DecodeSourceOrder(EncodeOrder(expected), count);
  }

  // ----- Verification -----

  datatype Verdict = Ok | AnswerMissing | AnswerMismatch

  method ValidJigsawOrder(order: seq<int>, count: nat) returns (valid: bool)
    ensures valid <==> IsOrder(order, count)
  {
    if |order| != count { return false; }
    var seen := new bool[count](i => false);
    for i := 0 to count
      invariant forall k :: 0 <= k < i ==> 0 <= order[k] < count
      invariant Distinct(order[..i])
      invariant forall v :: 0 <= v < count ==> (seen[v] <==> exists k :: 0 <= k < i && order[k] == v)
    {
      var value := order[i];
      if value < 0 || value >= count || seen[value] { return false; }
      assert order[..i + 1] == order[..i] + [value];
      seen[value] := true;
    }
    assert order[..count] == order;
    valid := true;
  }

  // fallback is the order reconstructed from the answer's points, used when the token does not decode.
  method VerifyTileOrder(token: string, fallback: seq<int>, actual: seq<int>, count: nat) returns (verdict: Verdict)
    requires count >= 1
    ensures |actual| != count ==> verdict == AnswerMissing
    ensures |actual| == count && !IsOrder(actual, count) ==> verdict == AnswerMismatch
    ensures forall expected :: Denotes(token, expected, count) && IsOrder(actual, count) ==>
              verdict == if actual == expected then Ok else AnswerMismatch
    ensures (forall expected :: !Denotes(token, expected, count)) && IsOrder(actual, count) ==>
              verdict == if |fallback| != count then AnswerMissing else if actual == fallback then Ok
                  else AnswerMismatch
  {
    if |actual| != count { return AnswerMissing; }
    var valid := ValidJigsawOrder(actual, count);
    if !valid { return AnswerMismatch; }
    var decoded := DecodeOrder(token, count);
    var expected := if decoded.Some? then decoded.value else fallback;
    forall o | Denotes(token, o, count) ensures o == expected { DenotesOne(token, o, expected, count); }
    if |expected| != count { return AnswerMissing; }
    for i := 0 to count
      invariant forall k :: 0 <= k < i ==> expected[k] == actual[k]
    {
      if expected[i] != actual[i] { return AnswerMismatch; }
    }
    return Ok;
  }

  lemma DenotesOne(value: string, a: seq<int>, b: seq<int>, count: nat)
    requires Denotes(value, a, count) && Denotes(value, b, count)
    ensures a == b
  {
    var parts := Split(TrimSpace(value), ',');
    forall i | 0 <= i < count ensures a[i] == b[i] {
      assert ParseIndex(parts[i], count) == Some(a[i]);
    }
  }

  // ----- The picture -----

  // What the challenge shows: position t holds tile source[t] of the picture.
  ghost function Displayed<T>(picture: seq<T>, source: seq<int>): seq<T>
    requires InRange(source, |picture|)
  {
    seq(|source|, t requires 0 <= t < |source| => picture[source[t]])
  }

  // What a submitted order makes of it: position i takes the displayed tile actual[i].
  ghost function Rearranged<T>(displayed: seq<T>, actual: seq<int>): seq<T>
    requires InRange(actual, |displayed|)
  {
    seq(|actual|, i requires 0 <= i < |actual| => displayed[actual[i]])
  }

  // An order restores a picture of distinct tiles exactly when it is the inverse of the scramble.
  lemma RestoresExactly<T>(picture: seq<T>, source: seq<int>, actual: seq<int>)
    requires IsOrder(source, |picture|) && Distinct(picture) && InRange(actual, |picture|) && |actual| == |picture|
    ensures Rearranged(Displayed(picture, source), actual) == picture <==> actual == Inverse(source)
  {
    var n, restored := |picture|, Rearranged(Displayed(picture, source), actual);
    InverseIsTwoSided(source, n);
    assert forall i :: 0 <= i < n ==> restored[i] == picture[source[actual[i]]];
    if restored == picture {
      forall i | 0 <= i < n ensures actual[i] == Inverse(source)[i] {
        assert picture[source[actual[i]]] == picture[i];
        assert source[actual[i]] == i;
      }
    }
  }

  // The challenge end to end: whatever the tiles show, the accepted order is the one that restores the
  // picture.
  method JudgeOrder<T>(picture: seq<T>, source: seq<int>, fallback: seq<int>, actual: seq<int>)
    returns (verdict: Verdict)
    requires 0 < |picture| <= 0x8000_0000_0000_0000 && IsOrder(source, |picture|) && Distinct(picture)
    ensures verdict == Ok <==>
              |actual| == |picture| && InRange(actual, |picture|)
              && Rearranged(Displayed(picture, source), actual) == picture
  {
    var expected := InvertJigsawOrder(source);
    InverseIsTwoSided(source, |picture|);
    DecodeEncode(expected, |picture|);
    assert Denotes(EncodeOrder(expected), expected, |picture|);
    if |actual| == |picture| && InRange(actual, |picture|) { RestoresExactly(picture, source, actual); }
    verdict := VerifyTileOrder(EncodeOrder(expected), fallback, actual, |picture|);
  }
}
