/** Captcha types ranked by difficulty, the configured escalation sequence, and the step to a harder type. */
module Escalation {
  import opened Text

  const DEFAULT_ESCALATION: seq<string> := ["SLIDER", "ROTATE", "CONCAT", "WORD_IMAGE_CLICK"]

  function CaptchaTypeRank(t: string): (r: Option<nat>)
    ensures r.Some? ==> 1 <= r.value <= 13
  {
    if t == "SLIDER" then Some(1)
    else if t == "SLIDER_V2" then Some(2)
    else if t == "ROTATE" then Some(3)
    else if t == "CONCAT" then Some(4)
    else if t == "GESTURE" then Some(5)
    else if t == "CURVE" then Some(6)
    else if t == "CURVE_V2" then Some(7)
    else if t == "CURVE_V3" then Some(8)
    else if t == "ROTATE_DEGREE" then Some(9)
    else if t == "WORD_IMAGE_CLICK" then Some(10)
    else if t == "IMAGE_CLICK" then Some(11)
    else if t == "JIGSAW" then Some(12)
    else if t == "GRID_IMAGE_CLICK" then Some(13)
    else None
  }

  predicate Ranked(t: string) {
    CaptchaTypeRank(t).Some?
  }

  function NormalizeType(t: string): string {
    var upper := ToUpper(TrimSpace(t));
    if upper == "SLIDER2" then "SLIDER_V2"
    else if upper == "CURVE2" then "CURVE_V2"
    else if upper == "CURVE3" then "CURVE_V3"
    else upper
  }

  // The first occurrence of every ranked type, normalised, in order.
  function Normalized(configured: seq<string>): seq<string> {
    if configured == [] then []
    else
      var before := Normalized(configured[..|configured| - 1]);
      var t := NormalizeType(configured[|configured| - 1]);
      if !Ranked(t) || t in before then before else before + [t]
  }

  method NormalizeConfiguredEscalation(configured: seq<string>) returns (sequence: seq<string>)
    ensures sequence == Normalized(configured)
  {
    var seen: set<string> := {};
    sequence := [];
    for i := 0 to |configured|
      invariant sequence == Normalized(configured[..i])
      invariant forall t :: t in seen <==> t in sequence
    {
      assert configured[..i + 1][..i] == configured[..i];
      var t := NormalizeType(configured[i]);
      if CaptchaTypeRank(t).None? { continue; }
      if t in seen { continue; }
      seen := seen + {t};
      sequence := sequence + [t];
    }
    assert configured[..|configured|] == configured;
  }

  function NormalizeEscalation(configured: seq<string>): (r: seq<string>)
    ensures |r| > 0
  {
    var sequence := Normalized(configured);
    if sequence == [] then DEFAULT_ESCALATION else sequence
  }

  function IndexOf(s: seq<string>, t: string): (i: nat)
    requires t in s
    ensures i < |s| && s[i] == t && t !in s[..i]
  {
    if s[0] == t then 0 else 1 + IndexOf(s[1..], t)
  }

  function FirstHarder(s: seq<string>, rank: nat): Option<string> {
    if s == [] then None
    else
      var r := CaptchaTypeRank(s[0]);
      if r.Some? && r.value > rank then Some(s[0]) else FirstHarder(s[1..], rank)
  }

  function HarderOutside(current: string, sequence: seq<string>): string
    requires sequence != [] && current !in sequence
  {
    var rank := CaptchaTypeRank(current);
    if rank.None? then sequence[|sequence| - 1]
    else
      var harder := FirstHarder(sequence, rank.value);
      if harder.Some? then harder.value else current
  }

  function HarderIn(current: string, sequence: seq<string>): string
    requires sequence != []
  {
    if current in sequence then
      var i := IndexOf(sequence, current);
      if i + 1 < |sequence| then sequence[i + 1] else current
    else HarderOutside(current, sequence)
  }

  function HarderType(current: string, configured: seq<string>): string {
    HarderIn(current, NormalizeEscalation(configured))
  }

  // ----- Normalisation -----

  ghost predicate Clean(s: seq<string>) {
    && (forall t :: t in s ==> Ranked(t))
    && (forall i, j :: 0 <= i < j < |s| ==> s[i] != s[j])
  }

  predicate PlainChar(c: char) { 'A' <= c <= 'Z' || c == '_' || IsDigit(c) }

  ghost predicate Plain(s: string) {
    s != "" && forall i :: 0 <= i < |s| ==> PlainChar(s[i])
  }

  lemma RankedNamesPlain()
    ensures Plain("SLIDER") && Plain("SLIDER_V2") && Plain("ROTATE") && Plain("CONCAT") && Plain("GESTURE")
    ensures Plain("CURVE") && Plain("CURVE_V2") && Plain("CURVE_V3") && Plain("ROTATE_DEGREE") && Plain("JIGSAW")
    ensures Plain("WORD_IMAGE_CLICK") && Plain("IMAGE_CLICK") && Plain("GRID_IMAGE_CLICK")
  {
  }

  lemma RankedPlain(t: string)
    requires Ranked(t)
    ensures Plain(t)
  {
    RankedNamesPlain();
  }

  lemma PlainFixed(t: string)
    requires Plain(t)
    ensures SpaceFree(t) && ',' !in t
    ensures ToUpper(TrimSpace(t)) == t
  {
    assert forall i :: 0 <= i < |t| ==> PlainChar(t[i]) && !IsSpace(t[i]) && t[i] != ',' && UpperChar(t[i]) == t[i];
    TrimSpaceFixed(t);
    assert ToUpper(t) == t;
  }

  lemma RankedFixed(t: string)
    requires Ranked(t)
    ensures NormalizeType(t) == t && ',' !in t && t != ""
  {
    RankedPlain(t);
    PlainFixed(t);
  }

  lemma {:induction false} NormalizedClean(configured: seq<string>)
    ensures Clean(Normalized(configured))
  {
    if configured != [] {
      NormalizedClean(configured[..|configured| - 1]);
      var before, t := Normalized(configured[..|configured| - 1]), NormalizeType(configured[|configured| - 1]);
      if Ranked(t) && t !in before {
        forall i, j | 0 <= i < j < |before + [t]| ensures (before + [t])[i] != (before + [t])[j] {
          if j == |before| { assert (before + [t])[i] in before; }
        }
      }
    }
  }

  lemma {:induction false} CleanIsNormalized(s: seq<string>)
    requires Clean(s)
    ensures Normalized(s) == s
  {
    if s != [] {
      var init, t := s[..|s| - 1], s[|s| - 1];
      assert s == init + [t] && t in s;
      CleanIsNormalized(init);
      RankedFixed(t);
      assert t !in init;
    }
  }

  // A type is kept exactly when it is ranked and was configured, in whatever spelling.
  lemma {:induction false} NormalizedHolds(configured: seq<string>, t: string)
    ensures t in Normalized(configured)
            <==> Ranked(t) && exists i :: 0 <= i < |configured| && NormalizeType(configured[i]) == t
  {
    hide Ranked, NormalizeType;
    if configured != [] { NormalizedHolds(configured[..|configured| - 1], t); }
  }

  // A clean list is exactly what normalisation produces and leaves alone.
  lemma NormalizationIsIdempotent(configured: seq<string>)
    ensures Clean(Normalized(configured))
    ensures Normalized(Normalized(configured)) == Normalized(configured)
  {
    NormalizedClean(configured);
    CleanIsNormalized(Normalized(configured));
  }

  // ----- The CSV form -----

  function ParseEscalationCSV(value: string): seq<string> {
    var trimmed := TrimSpace(value);
    if trimmed == "" then [] else Normalized(Split(trimmed, ','))
  }

  function FormatEscalationCSV(sequence: seq<string>): string {
    Join(Normalized(sequence), ',')
  }

  // Printing and parsing back gives the normalised sequence, whatever was configured.
  lemma ParseOfFormat(sequence: seq<string>)
    ensures ParseEscalationCSV(FormatEscalationCSV(sequence)) == Normalized(sequence)
  {
    var parts := Normalized(sequence);
    NormalizationIsIdempotent(sequence);
    forall i | 0 <= i < |parts| ensures ',' !in parts[i] && parts[i] != "" && SpaceFree(parts[i]) {
      assert parts[i] in parts;
      RankedPlain(parts[i]);
      PlainFixed(parts[i]);
    }
    JoinSpaceFree(parts, ',');
    TrimSpaceFixed(Join(parts, ','));
    if parts != [] {
      SplitJoin(parts, ',');
      assert Join(parts, ',') == "" ==> parts == [""];
    }
  }

  // ----- Escalating -----

  function Harder(t: string, sequence: seq<string>, steps: nat): string
    requires sequence != []
    decreases steps
  {
    if steps == 0 then t else Harder(HarderIn(t, sequence), sequence, steps - 1)
  }

  lemma IndexOfClean(sequence: seq<string>, i: nat)
    requires Clean(sequence) && i < |sequence|
    ensures IndexOf(sequence, sequence[i]) == i
  {
  }

  lemma {:induction false} HarderFromIndex(sequence: seq<string>, i: nat, steps: nat)
    requires Clean(sequence) && i < |sequence| <= steps + i + 1
    ensures Harder(sequence[i], sequence, steps) == sequence[|sequence| - 1]
    decreases steps
  {
    hide Clean, IndexOf, HarderOutside;
    if steps > 0 {
      IndexOfClean(sequence, i);
      assert sequence[i] in sequence;
      HarderFromIndex(sequence, if i + 1 < |sequence| then i + 1 else i, steps - 1);
    }
  }

  lemma {:induction false} FirstHarderIsMember(s: seq<string>, rank: nat)
    ensures var h := FirstHarder(s, rank);
            h.Some? ==> h.value in s && CaptchaTypeRank(h.value).Some? && CaptchaTypeRank(h.value).value > rank
  {
    if s != [] { FirstHarderIsMember(s[1..], rank); }
  }

  lemma {:induction false} HarderStays(t: string, sequence: seq<string>, steps: nat)
    requires sequence != [] && HarderIn(t, sequence) == t
    ensures Harder(t, sequence, steps) == t
  {
    if steps > 0 { HarderStays(t, sequence, steps - 1); }
  }

  // The first step lands in the sequence, or the type is ranked above everything in it.
  lemma HarderLands(t: string, sequence: seq<string>)
    requires Clean(sequence) && sequence != []
    ensures HarderIn(t, sequence) in sequence || HarderIn(t, sequence) == t
  {
    if CaptchaTypeRank(t).Some? { FirstHarderIsMember(sequence, CaptchaTypeRank(t).value); }
  }

  lemma NormalizeEscalationClean(configured: seq<string>)
    ensures Clean(NormalizeEscalation(configured))
  {
    NormalizedClean(configured);
  }

  // Escalating from any type under any configuration stops changing within |sequence| steps: at the
  // end of the sequence, unless the type is ranked above everything configured and never moves.
  lemma EscalationReachesFixedPoint(t: string, configured: seq<string>, steps: nat)
    requires steps >= |NormalizeEscalation(configured)|
    ensures var sequence := NormalizeEscalation(configured);
            var last := Harder(t, sequence, steps);
            && HarderType(last, configured) == last
            && (last == sequence[|sequence| - 1] || last == t == HarderType(t, configured))
  {
    NormalizeEscalationClean(configured);
    HarderInReachesFixedPoint(t, NormalizeEscalation(configured), steps);
    EndIsFixed(NormalizeEscalation(configured));
  }

  lemma EndIsFixed(sequence: seq<string>)
    requires Clean(sequence) && sequence != []
    ensures HarderIn(sequence[|sequence| - 1], sequence) == sequence[|sequence| - 1]
  {
    IndexOfClean(sequence, |sequence| - 1);
  }

  lemma HarderInReachesFixedPoint(t: string, sequence: seq<string>, steps: nat)
    requires Clean(sequence) && 0 < |sequence| <= steps
    ensures Harder(t, sequence, steps) == sequence[|sequence| - 1]
            || Harder(t, sequence, steps) == t == HarderIn(t, sequence)
  {
    hide Clean, HarderIn;
    var next := HarderIn(t, sequence);
    HarderLands(t, sequence);
    if next in sequence {
      HarderFromIndex(sequence, IndexOf(sequence, next), steps - 1);
    } else {
      HarderStays(t, sequence, steps);
    }
  }

  // A step never goes back to an easier type of the sequence.
  lemma HarderMovesForward(t: string, configured: seq<string>)
    requires t in NormalizeEscalation(configured)
    ensures var sequence, next := NormalizeEscalation(configured), HarderType(t, configured);
            && next in sequence
            && IndexOf(sequence, next) == if IndexOf(sequence, t) + 1 < |sequence| then IndexOf(sequence, t) + 1
                                          else IndexOf(sequence, t)
  {
    var sequence := NormalizeEscalation(configured);
    NormalizeEscalationClean(configured);
    if IndexOf(sequence, t) + 1 < |sequence| { IndexOfClean(sequence, IndexOf(sequence, t) + 1); }
  }


  // From a type outside the sequence the step goes to the earliest entry ranked above it, if there is one; a type
  // without a rank goes to the end.
  lemma HarderFromOutside(t: string, configured: seq<string>)
    requires t !in NormalizeEscalation(configured)
    ensures var sequence, next := NormalizeEscalation(configured), HarderType(t, configured);
            if !Ranked(t) then next == sequence[|sequence| - 1]
            else if exists i :: 0 <= i < |sequence| && RankedAbove(sequence[i], t) then
              exists i :: 0 <= i < |sequence| && sequence[i] == next && RankedAbove(next, t)
                          && forall j :: 0 <= j < i ==> !RankedAbove(sequence[j], t)
            else next == t
  {
    if Ranked(t) {
      NormalizeEscalationClean(configured);
      FirstHarderIsEarliest(NormalizeEscalation(configured), t);
    }
  }

  predicate RankedAbove(a: string, b: string) {
    var ranks := (CaptchaTypeRank(a), CaptchaTypeRank(b));
    ranks.0.Some? && ranks.1.Some? && ranks.0.value > ranks.1.value
  }

  lemma {:induction false} FirstHarderIsEarliest(s: seq<string>, t: string)
    requires Ranked(t)
    ensures match FirstHarder(s, CaptchaTypeRank(t).value)
            case None => forall j :: 0 <= j < |s| ==> !RankedAbove(s[j], t)
            case Some(h) => exists i :: 0 <= i < |s| && s[i] == h && RankedAbove(h, t)
                                        && forall j :: 0 <= j < i ==> !RankedAbove(s[j], t)
  {
    hide CaptchaTypeRank;
    if s != [] && !RankedAbove(s[0], t) {
      FirstHarderIsEarliest(s[1..], t);
      var h := FirstHarder(s[1..], CaptchaTypeRank(t).value);
      if h.Some? {
        var i :| 0 <= i < |s[1..]| && s[1..][i] == h.value && forall j :: 0 <= j < i ==> !RankedAbove(s[1..][j], t);
        assert s[i + 1] == h.value;
        forall j | 0 <= j < i + 1 ensures !RankedAbove(s[j], t) { assert j > 0 ==> s[j] == s[1..][j - 1]; }
      } else {
        forall j | 0 <= j < |s| ensures !RankedAbove(s[j], t) { assert j > 0 ==> s[j] == s[1..][j - 1]; }
      }
    }
  }


  // Only when nothing configured has a rank, in any spelling, the default sequence is used.
  lemma DefaultExactly(configured: seq<string>)
    ensures var unranked := forall i :: 0 <= i < |configured| ==> !Ranked(NormalizeType(configured[i]));
            NormalizeEscalation(configured)
            == if unranked then ["SLIDER", "ROTATE", "CONCAT", "WORD_IMAGE_CLICK"] else Normalized(configured)
  {
    hide Ranked, NormalizeType, Normalized;
    var sequence := Normalized(configured);
    forall i | 0 <= i < |configured| && Ranked(NormalizeType(configured[i])) ensures sequence != [] {
      NormalizedHolds(configured, NormalizeType(configured[i]));
    }
    if sequence != [] { NormalizedHolds(configured, sequence[0]); }
  }
}
