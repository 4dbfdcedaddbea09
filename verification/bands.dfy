/**
 * The three-level risk scale of team1.py and the threshold rules that pick
 * a level: the overall risk label, the badge on each notification column,
 * the surgical-weight card and the procedure-duration bars.
 */
module Bands {

  datatype Risk = Low | Medium | High

  /** Position on the scale, Low < Medium < High. */
  function Level(r: Risk): nat
  {
    match r
    case Low => 0
    case Medium => 1
    case High => 2
  }

  /** `compute_risk_label`: Low up to 30, Medium up to 70, High above. */
  function ComputeRiskLabel(score: int): (r: Risk)
    ensures r == Low <==> score <= 30
    ensures r == Medium <==> 30 < score <= 70
    ensures r == High <==> 70 < score
  {
    if score <= 30 then Low
    else if score <= 70 then Medium
    else High
  }

  /** The "N active" badge: none is Low, one or two Medium, more High. */
  function CountRisk(activeCount: nat): (r: Risk)
    ensures r == Low <==> activeCount == 0
    ensures r == Medium <==> 1 <= activeCount <= 2
    ensures r == High <==> activeCount > 2
  {
    if activeCount > 2 then High
    else if activeCount > 0 then Medium
    else Low
  }

  /** The weight-at-surgery card: under 3.0 kg High, under 3.5 kg Medium, else Low. */
  function WeightRisk(surgicalWeightKg: real): (r: Risk)
    ensures r == High <==> surgicalWeightKg < 3.0
    ensures r == Medium <==> 3.0 <= surgicalWeightKg < 3.5
    ensures r == Low <==> 3.5 <= surgicalWeightKg
  {
    if surgicalWeightKg < 3.0 then High
    else if surgicalWeightKg < 3.5 then Medium
    else Low
  }

  /** `risk_bg` of a procedure time in minutes: the colour band of the bar. */
  function DurationRisk(minutes: int): Risk
  {
    if minutes <= 30 then Low
    else if minutes <= 70 then Medium
    else High
  }

  /** The duration bars use exactly the cut-offs of the overall risk label. */
  lemma DurationMatchesRiskLabel(minutes: int)
    ensures DurationRisk(minutes) == ComputeRiskLabel(minutes)
  {
  }

  /** A higher score never gives a lower risk label. */
  lemma RiskLabelMonotone(a: int, b: int)
    requires a <= b
    ensures Level(ComputeRiskLabel(a)) <= Level(ComputeRiskLabel(b))
  {
  }

  /** More active items never give a lower badge. */
  lemma CountRiskMonotone(a: nat, b: nat)
    requires a <= b
    ensures Level(CountRisk(a)) <= Level(CountRisk(b))
  {
  }

  /** A heavier infant never gets a higher weight risk. */
  lemma WeightRiskAntitone(a: real, b: real)
    requires a <= b
    ensures Level(WeightRisk(b)) <= Level(WeightRisk(a))
  {
  }
}
