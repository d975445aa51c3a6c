/**
 * Score conversion and the coverage thresholds of src/main.ts:34-35 and
 * 56-88, in exact real arithmetic.
 */
module Scoring {
  import opened Scores

  const MinimumKnowledgePercentage: int := 50
  const MinimumPracticePercentage: int := 30

  /** A value of the declared four-point scale (not a stray JSON string). */
  predicate Recognized(s: Score)
  {
    !s.Unrecognized?
  }

  /** Position of a declared value on the scale, from 0 (not familiar) to 3. */
  function Rank(s: Score): nat
    requires Recognized(s)
  {
    match s
    case NotFamiliar => 0
    case Elementary => 1
    case Intermediate => 2
    case Advanced => 3
  }

  /**
   * `computeScore`: every step up the scale is worth half a point; a value
   * outside the scale (the `default` branch, which only logs) is worth 0.
   */
  function ComputeScore(score: Score): (r: real)
    ensures Recognized(score) ==> r == Rank(score) as real / 2.0
    ensures !Recognized(score) ==> r == 0.0
    ensures 0.0 <= r <= 1.5
  {
    match score
    case NotFamiliar => 0.0
    case Elementary => 0.5
    case Intermediate => 1.0
    case Advanced => 1.5
    case Unrecognized(_) => 0.0
  }

  /** The four weights of the scale. */
  lemma ScoreWeights()
    ensures ComputeScore(NotFamiliar) == 0.0
    ensures ComputeScore(Elementary) == 0.5
    ensures ComputeScore(Intermediate) == 1.0
    ensures ComputeScore(Advanced) == 1.5
  {
  }

  /** The weight follows the scale: a higher rank is never worth less. */
  lemma ScoreMonotone(a: Score, b: Score)
    requires Recognized(a) && Recognized(b)
    ensures Rank(a) <= Rank(b) <==> ComputeScore(a) <= ComputeScore(b)
  {
  }

  /**
   * `computeMinimumKnowledgeCount`: half of the group size, so never
   * negative and never above the size for a size of at least 0.
   */
  function MinimumKnowledgeCount(total: int): (r: real)
    ensures r == total as real / 2.0
    ensures total >= 0 ==> 0.0 <= r <= total as real
  {
    (total as real / 100.0) * MinimumKnowledgePercentage as real
  }

  /**
   * `computeMinimumPracticeCount`: three tenths of the group size, never
   * above the knowledge threshold for a size of at least 0.
   */
  function MinimumPracticeCount(total: int): (r: real)
    ensures r == total as real * 3.0 / 10.0
    ensures total >= 0 ==> 0.0 <= r <= MinimumKnowledgeCount(total)
    ensures total == 0 ==> r == MinimumKnowledgeCount(total) == 0.0
  {
    (total as real / 100.0) * MinimumPracticePercentage as real
  }
}
