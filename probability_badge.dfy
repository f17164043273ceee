/** Score tiering of the probability badge (ProbabilityBadge.tsx). */
module ProbabilityBadge {

  datatype Tier = High | Medium | Low

  /** `getScoreStyle`: the first threshold the score reaches decides its tier. */
  function ScoreStyle(score: int): (t: Tier)
    ensures t == High <==> score >= 80
    ensures t == Medium <==> 50 <= score < 80
    ensures t == Low <==> score < 50
  {
    if score >= 80 then High
    else if score >= 50 then Medium
    else Low
  }

  /** The CSS class name the badge receives for a tier. */
  function ClassName(t: Tier): (c: string)
    ensures |c| > 6 && c[..6] == "score-"
  {
    match t
    case High => "score-high"
    case Medium => "score-medium"
    case Low => "score-low"
  }

  /** Tiers ordered from low to high. */
  function TierRank(t: Tier): nat
  {
    match t
    case Low => 0
    case Medium => 1
    case High => 2
  }

  /** A higher score never receives a lower tier. */
  lemma ScoreStyleMonotone(a: int, b: int)
    requires a <= b
    ensures TierRank(ScoreStyle(a)) <= TierRank(ScoreStyle(b))
  {
  }

  /** The class a score's badge receives names its tier by the thresholds 80 and 50. */
  lemma ClassNameOfScore(score: int)
    ensures ClassName(ScoreStyle(score)) == "score-high" <==> score >= 80
    ensures ClassName(ScoreStyle(score)) == "score-medium" <==> 50 <= score < 80
    ensures ClassName(ScoreStyle(score)) == "score-low" <==> score < 50
  {
    if score >= 80 {
      assert ClassName(ScoreStyle(score)) == "score-high";
      assert "score-high" != "score-medium" && "score-high" != "score-low";
    } else if score >= 50 {
      assert ClassName(ScoreStyle(score)) == "score-medium";
      assert "score-medium" != "score-high" && "score-medium" != "score-low";
    } else {
      assert ClassName(ScoreStyle(score)) == "score-low";
      assert "score-low" != "score-high" && "score-low" != "score-medium";
    }
  }

  /** Distinct tiers get distinct class names, so the badge shows which tier applies. */
  lemma ClassNameInjective(s: Tier, t: Tier)
    requires ClassName(s) == ClassName(t)
    ensures s == t
  {
  }
}
