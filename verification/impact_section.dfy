/**
  The validation and the level label of the impact card (src/components/ImpactSection.tsx).
  The incoming metrics are arbitrary numbers, NaN included.
 */
module ImpactSection {
  import opened Numbers

  /** `isNaN(x) ? 0 : Math.min(100, Math.max(0, x))`. */
  function Percent(x: Num): (r: real)
    ensures 0.0 <= r <= 100.0
    ensures x.Fin? && 0.0 <= x.val <= 100.0 ==> r == x.val
    ensures x.NaN? ==> r == 0.0
    ensures x.Fin? && x.val > 100.0 ==> r == 100.0
    ensures x.Fin? && x.val < 0.0 ==> r == 0.0
  {
    if x.NaN? then 0.0 else Clamp(x.val, 0.0, 100.0)
  }

  /** `isNaN(x) ? 0 : Math.max(0, x)`. */
  function NonNegative(x: Num): (r: real)
    ensures r >= 0.0
    ensures x.Fin? && x.val >= 0.0 ==> r == x.val
  {
    if x.NaN? then 0.0 else Max(0.0, x.val)
  }

  datatype Metrics = Metrics(
    prMergeRate: Num,
    totalContributions: Num,
    projectsImpacted: Num,
    contributionStreak: Num,
    impactScore: Num)

  datatype ValidMetrics = ValidMetrics(
    prMergeRate: real,
    totalContributions: real,
    projectsImpacted: real,
    contributionStreak: real,
    impactScore: real)

  /** `validMetrics`. */
  function Validate(m: Metrics): ValidMetrics {
    ValidMetrics(
      Percent(m.prMergeRate),
      NonNegative(m.totalContributions),
      NonNegative(m.projectsImpacted),
      NonNegative(m.contributionStreak),
      Percent(m.impactScore))
  }

  /** The validated metrics, as the numbers they are. */
  function AsMetrics(v: ValidMetrics): Metrics {
    Metrics(Fin(v.prMergeRate), Fin(v.totalContributions), Fin(v.projectsImpacted),
            Fin(v.contributionStreak), Fin(v.impactScore))
  }

  predicate InRange(v: ValidMetrics) {
    && 0.0 <= v.prMergeRate <= 100.0
    && v.totalContributions >= 0.0
    && v.projectsImpacted >= 0.0
    && v.contributionStreak >= 0.0
    && 0.0 <= v.impactScore <= 100.0
  }

  /**
    Validation always lands in range, passes values that are already in range through
    unchanged, and so validating twice is the same as validating once.
   */
  lemma ValidateRange(m: Metrics)
    ensures InRange(Validate(m))
    ensures forall v :: InRange(v) ==> Validate(AsMetrics(v)) == v
    ensures Validate(AsMetrics(Validate(m))) == Validate(m)
  {
  }

  /** NaN becomes 0, and a negative count becomes 0. */
  lemma ValidateNaN(m: Metrics)
    ensures m.prMergeRate.NaN? ==> Validate(m).prMergeRate == 0.0
    ensures m.impactScore.NaN? ==> Validate(m).impactScore == 0.0
    ensures m.totalContributions.NaN? || m.totalContributions.val < 0.0 ==> Validate(m).totalContributions == 0.0
    ensures m.projectsImpacted.NaN? || m.projectsImpacted.val < 0.0 ==> Validate(m).projectsImpacted == 0.0
    ensures m.contributionStreak.NaN? || m.contributionStreak.val < 0.0 ==> Validate(m).contributionStreak == 0.0
  {
  }

  datatype Level = Growing | Medium | High

  /** `impactLevel`. */
  function ImpactLevel(score: real): Level {
    if score >= 80.0 then High else if score >= 50.0 then Medium else Growing
  }

  function Rank(l: Level): nat {
    match l
    case Growing => 0
    case Medium => 1
    case High => 2
  }

  /** A higher score never gives a lower level. */
  lemma ImpactLevelMonotone(a: real, b: real)
    requires a <= b
    ensures Rank(ImpactLevel(a)) <= Rank(ImpactLevel(b))
  {
  }

  /** The level is High exactly from 80 on and Growing exactly below 50. */
  lemma ImpactLevelThresholds(score: real)
    ensures ImpactLevel(score) == High <==> score >= 80.0
    ensures ImpactLevel(score) == Growing <==> score < 50.0
  {
  }
}
