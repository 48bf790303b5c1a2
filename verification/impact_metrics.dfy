/**
  The validation of the developer-impact card (src/components/ImpactMetrics.tsx) and
  its mentee label. The incoming values are arbitrary numbers, NaN included.
 */
module ImpactMetricsCard {
  import opened Numbers
  import ImpactSection

  datatype UserMetrics = UserMetrics(contributions: Num, reach: Num, helpfulnessScore: Num, mentorshipCount: Num)

  datatype ValidData = ValidData(contributions: real, reach: real, helpfulnessScore: real, mentorshipCount: real)

  /** `validData`: counts floored at 0, the helpfulness score clamped to [0, 100], NaN as 0. */
  function Validate(u: UserMetrics): (v: ValidData)
    ensures v.contributions >= 0.0 && v.reach >= 0.0 && v.mentorshipCount >= 0.0
    ensures 0.0 <= v.helpfulnessScore <= 100.0
    ensures u.helpfulnessScore.Fin? && 0.0 <= u.helpfulnessScore.val <= 100.0 ==> v.helpfulnessScore == u.helpfulnessScore.val
  {
    ValidData(
      ImpactSection.NonNegative(u.contributions),
      ImpactSection.NonNegative(u.reach),
      ImpactSection.Percent(u.helpfulnessScore),
      ImpactSection.NonNegative(u.mentorshipCount))
  }

  function AsUserMetrics(v: ValidData): UserMetrics {
    UserMetrics(Fin(v.contributions), Fin(v.reach), Fin(v.helpfulnessScore), Fin(v.mentorshipCount))
  }

  /**
    NaN and negative counts become 0 and other counts are kept; a NaN or negative
    helpfulness score becomes 0, one above 100 becomes 100, and one in range is kept;
    validating the validated data changes nothing.
   */
  lemma ValidateKeeps(u: UserMetrics)
    ensures u.contributions.NaN? || u.contributions.val < 0.0 ==> Validate(u).contributions == 0.0
    ensures u.reach.NaN? || u.reach.val < 0.0 ==> Validate(u).reach == 0.0
    ensures u.contributions.Fin? && u.contributions.val >= 0.0 ==> Validate(u).contributions == u.contributions.val
    ensures u.reach.Fin? && u.reach.val >= 0.0 ==> Validate(u).reach == u.reach.val
    ensures u.mentorshipCount.Fin? && u.mentorshipCount.val >= 0.0 ==> Validate(u).mentorshipCount == u.mentorshipCount.val
    ensures u.mentorshipCount.NaN? || u.mentorshipCount.val < 0.0 ==> Validate(u).mentorshipCount == 0.0
    ensures u.helpfulnessScore.NaN? ==> Validate(u).helpfulnessScore == 0.0
    ensures u.helpfulnessScore.Fin? && u.helpfulnessScore.val < 0.0 ==> Validate(u).helpfulnessScore == 0.0
    ensures u.helpfulnessScore.Fin? && u.helpfulnessScore.val > 100.0 ==> Validate(u).helpfulnessScore == 100.0
    ensures u.helpfulnessScore.Fin? && 0.0 <= u.helpfulnessScore.val <= 100.0 ==> Validate(u).helpfulnessScore == u.helpfulnessScore.val
    ensures Validate(AsUserMetrics(Validate(u))) == Validate(u)
  {
  }

  /** `mentee{count !== 1 ? 's' : ''}`. */
  function MenteeLabel(count: real): (text: string)
    ensures text == "mentees" <==> count != 1.0
    ensures text == "mentee" <==> count == 1.0
  {
    "mentee" + (if count != 1.0 then "s" else "")
  }
}
