/**
 * The risk score and gauge of team2.py. The score is the sum of fixed
 * weights over the selected risk factors, clamped to 0..10, and the gauge
 * needle turns 18 degrees per point from 180 down to 0.
 *
 * Every weight is a multiple of 0.5, so scores are counted here in half
 * points (0..20) and the needle turns 9 degrees per half point; the
 * floating-point arithmetic of the source is exact on these values.
 */
module RiskGauge {
  /** The options of the risk-factor multiselect, in the offered order. */
  const Factors: seq<string> :=
    ["Premature", "Low birth weight", "Co-morbidity", "Genetic syndrome", "Recent infection", "Post-op bleed"]

  /** The clamp's upper bound, 10 points. */
  const MaxHalves := 20

  /** `weights.get(x, 0)` in half points: 2.5, 2.0, 1.5, 1.5, 1.0, 3.0, and 0 for any other label. */
  function HalfWeight(factor: string): (w: nat)
    ensures factor !in Factors ==> w == 0
    ensures factor in Factors ==> 2 <= w <= 6
  {
    if factor == "Premature" then 5
    else if factor == "Low birth weight" then 4
    else if factor == "Co-morbidity" then 3
    else if factor == "Genetic syndrome" then 3
    else if factor == "Recent infection" then 2
    else if factor == "Post-op bleed" then 6
    else 0
  }

  /** The unclamped sum over the selection, in half points. */
  function WeightSum(selection: seq<string>): (s: nat)
    ensures (forall i :: 0 <= i < |selection| ==> selection[i] !in Factors) ==> s == 0
  {
    if selection == [] then 0 else HalfWeight(selection[0]) + WeightSum(selection[1..])
  }

  lemma {:induction false} WeightSumConcat(a: seq<string>, b: seq<string>)
    ensures WeightSum(a + b) == WeightSum(a) + WeightSum(b)
  {
    if a == [] {
      assert a + b == b;
    } else {
      assert (a + b)[0] == a[0];
      assert (a + b)[1..] == a[1..] + b;
      WeightSumConcat(a[1..], b);
    }
  }

  /** A factor put in front of a selection adds its weight. */
  lemma WeightSumCons(x: string, s: seq<string>)
    ensures WeightSum([x] + s) == HalfWeight(x) + WeightSum(s)
  {
    assert ([x] + s)[0] == x;
    assert ([x] + s)[1..] == s;
  }

  /** Taking one factor out of the selection takes its weight out of the sum. */
  lemma WeightSumRemove(s: seq<string>, k: nat)
    requires k < |s|
    ensures WeightSum(s) == HalfWeight(s[k]) + WeightSum(s[..k] + s[k + 1..])
  {
    var before, after := s[..k], s[k + 1..];
    assert s == before + ([s[k]] + after);
    WeightSumConcat(before, [s[k]] + after);
    WeightSumCons(s[k], after);
    WeightSumConcat(before, after);
  }

  /** Removing one element of a sequence removes one occurrence from its multiset. */
  lemma MultisetRemove(s: seq<string>, k: nat)
    requires k < |s|
    ensures multiset(s[..k] + s[k + 1..]) == multiset(s) - multiset{s[k]}
  {
    assert s == s[..k] + [s[k]] + s[k + 1..];
  }

  /** The sum does not depend on the order in which factors were selected. */
  lemma {:induction false} WeightSumPermutation(a: seq<string>, b: seq<string>)
    requires multiset(a) == multiset(b)
    ensures WeightSum(a) == WeightSum(b)
  {
    if a != [] {
      assert a[0] in multiset(b);
      var k :| 0 <= k < |b| && b[k] == a[0];
      MultisetRemove(a, 0);
      MultisetRemove(b, k);
      assert a[..0] + a[1..] == a[1..];
      WeightSumPermutation(a[1..], b[..k] + b[k + 1..]);
      WeightSumRemove(b, k);
    }
  }

  /** `max(0.0, min(10.0, sum(...)))` in half points. */
  function Score(selection: seq<string>): (h: int)
    ensures 0 <= h <= MaxHalves
    ensures WeightSum(selection) <= MaxHalves ==> h == WeightSum(selection)
    ensures WeightSum(selection) > MaxHalves ==> h == MaxHalves
  {
    var sum := WeightSum(selection);
    if sum < 0 then 0 else if sum > MaxHalves then MaxHalves else sum
  }

  /** The score as the source prints it, in points. */
  function ScorePoints(selection: seq<string>): (p: real)
    ensures 0.0 <= p <= 10.0
    ensures p * 2.0 == Score(selection) as real
  {
    Score(selection) as real / 2.0
  }

  /** Bleed, premature and low birth weight give 7.5 points; all six give 10, clamped from 11.5. */
  lemma ExampleScores()
    ensures ScorePoints(["Post-op bleed", "Premature", "Low birth weight"]) == 7.5
    ensures WeightSum(Factors) == 23 && ScorePoints(Factors) == 10.0
  {
    assert HalfWeight("Post-op bleed") == 6 && HalfWeight("Premature") == 5 && HalfWeight("Low birth weight") == 4;
    assert WeightSum(["Post-op bleed", "Premature", "Low birth weight"]) == 15;
    assert HalfWeight("Co-morbidity") == 3 && HalfWeight("Genetic syndrome") == 3 && HalfWeight("Recent infection") == 2;
  }

  /** Selecting one more factor, anywhere in the selection, never lowers the score. */
  lemma AddingNeverLowers(a: seq<string>, x: string, b: seq<string>)
    ensures Score(a + b) <= Score(a + [x] + b)
  {
    WeightSumConcat(a, b);
    WeightSumConcat(a + [x], b);
    WeightSumConcat(a, [x]);
  }

  /** A label outside the weight table contributes nothing. */
  lemma UnknownFactorIgnored(a: seq<string>, x: string, b: seq<string>)
    requires x !in Factors
    ensures Score(a + [x] + b) == Score(a + b)
  {
    WeightSumConcat(a, b);
    WeightSumConcat(a + [x], b);
    WeightSumConcat(a, [x]);
  }

  /** Reordering the selection leaves the score unchanged. */
  lemma ScoreOrderIndependent(a: seq<string>, b: seq<string>)
    requires multiset(a) == multiset(b)
    ensures Score(a) == Score(b)
  {
    WeightSumPermutation(a, b);
  }

  /** `180 - max(0, min(10, score)) * 18`, with the score in half points. */
  function NeedleAngle(halves: int): (deg: int)
    ensures 0 <= deg <= 180
    ensures halves <= 0 ==> deg == 180
    ensures halves >= MaxHalves ==> deg == 0
    ensures deg % 9 == 0
  {
    var clamped := if halves < 0 then 0 else if halves > MaxHalves then MaxHalves else halves;
    180 - 9 * clamped
  }

  /** A higher score never moves the needle back up. */
  lemma NeedleAntitone(h1: int, h2: int)
    requires h1 <= h2
    ensures NeedleAngle(h2) <= NeedleAngle(h1)
  {
  }

  /** Within the scale the needle is exactly 9 degrees per half point below 180. */
  lemma NeedleOfSelection(selection: seq<string>)
    ensures NeedleAngle(Score(selection)) == 180 - 9 * Score(selection)
    ensures Score(selection) == 0 <==> NeedleAngle(Score(selection)) == 180
  {
  }
}
