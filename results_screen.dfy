/**
 * The grading logic of `ResultsScreen` (src/ui/results_screen.py): the
 * score percentage, its display clamp, the S/A/B/C tier with its star count,
 * the confetti threshold and the width of the filled progress bar. All
 * drawing is left out.
 */
module ResultsScreen {

  /** The palette entries the tiers choose from. */
  datatype Color = Yellow | Green | Blue | Cyan | Gray | White

  datatype RankInfo = RankInfo(rank: string, color: Color, message: string, messageColor: Color,
                               particleColor: Color, stars: nat)

  /** Width in pixels of the progress bar. */
  const BarWidth: int := 500

  /** Score as a percentage of the estimate; zero when there is no estimate. Not clamped. */
  function Percentage(score: int, maxScore: int): (p: real)
    ensures maxScore <= 0 ==> p == 0.0
    ensures maxScore > 0 ==> p * maxScore as real == score as real * 100.0
    ensures score >= 0 ==> p >= 0.0
    ensures maxScore > 0 && score <= maxScore ==> p <= 100.0
    ensures maxScore > 0 && score >= maxScore ==> p >= 100.0
  {
    if maxScore > 0 then
      var q := score as real / maxScore as real;
      assert q * maxScore as real == score as real;
      assert (q - 1.0) * maxScore as real == score as real - maxScore as real;
      q * 100.0
    else 0.0
  }

  /** `min(percentage, 100)`. */
  function DisplayPercentage(p: real): (d: real)
    ensures d <= 100.0 && d <= p
    ensures d == p || d == 100.0
  {
    if p < 100.0 then p else 100.0
  }

  /** The tier for a percentage: S from 80, A from 60, B from 40, else C. */
  function GetRankInfo(p: real): (info: RankInfo)
    ensures info.rank == "S" <==> p >= 80.0
    ensures info.rank == "A" <==> 60.0 <= p < 80.0
    ensures info.rank == "B" <==> 40.0 <= p < 60.0
    ensures info.rank == "C" <==> p < 40.0
    ensures info.stars == StarsForRank(info.rank)
  {
    if p >= 80.0 then RankInfo("S", Yellow, "LUAR BIASA!", Green, Yellow, 5)
    else if p >= 60.0 then RankInfo("A", Green, "BAGUS SEKALI!", Blue, Green, 4)
    else if p >= 40.0 then RankInfo("B", Blue, "CUKUP BAIK!", Cyan, Blue, 3)
    else RankInfo("C", Gray, "TERUS BERLATIH!", White, Gray, 1)
  }

  /** Stars per tier: 5, 4, 3, and a single star for C. */
  function StarsForRank(rank: string): nat {
    if rank == "S" then 5 else if rank == "A" then 4 else if rank == "B" then 3 else 1
  }

  /** Every percentage lands in exactly one of the four tiers. */
  lemma TiersPartition(p: real)
    ensures GetRankInfo(p).rank in {"S", "A", "B", "C"}
    ensures GetRankInfo(p).stars in {5, 4, 3, 1}
  {
  }

  /** A better percentage never earns fewer stars. */
  lemma StarsMonotone(p1: real, p2: real)
    requires p1 <= p2
    ensures GetRankInfo(p1).stars <= GetRankInfo(p2).stars
  {
  }

  /** Confetti is shown from 60 percent on, which is exactly tiers S and A. */
  predicate ShowConfetti(p: real)
    ensures ShowConfetti(p) <==> GetRankInfo(p).rank == "S" || GetRankInfo(p).rank == "A"
  {
    p >= 60.0
  }

  /** Python's `int(x)`: truncation toward zero. */
  function Trunc(x: real): (n: int)
    ensures x >= 0.0 ==> n as real <= x < n as real + 1.0
    ensures x < 0.0 ==> n as real - 1.0 < x <= n as real
  {
    if x >= 0.0 then x.Floor else -((-x).Floor)
  }

  /** Filled part of the bar: the truncated share of 500 pixels, capped at 500. */
  function FillWidth(displayPercentage: real): (w: int)
    ensures w <= BarWidth
    ensures displayPercentage >= 0.0 ==> w >= 0
    ensures 0.0 <= displayPercentage <= 100.0 ==> w as real <= displayPercentage * 5.0 < w as real + 1.0
  {
    var raw := Trunc(displayPercentage / 100.0 * BarWidth as real);
    if raw < BarWidth then raw else BarWidth
  }

  /** What `draw` derives from the final score before drawing. */
  datatype ResultsView = ResultsView(percentage: real, displayPercentage: real, rankInfo: RankInfo,
                                     confetti: bool, fillWidth: int)

  /**
   * The percentage answers the score against the estimate; the clamped
   * values fit the screen; confetti, tier and bar agree with one another.
   */
  function Grade(score: int, maxScore: int): (view: ResultsView)
    ensures maxScore > 0 ==> view.percentage * maxScore as real == 100.0 * score as real
    ensures maxScore <= 0 ==> view.percentage == 0.0
    ensures view.displayPercentage <= 100.0 && view.fillWidth <= BarWidth
    ensures view.confetti <==> view.rankInfo.rank == "S" || view.rankInfo.rank == "A"
    ensures view.rankInfo.rank == "S" ==> view.fillWidth >= 400
    ensures view.rankInfo.rank == "C" ==> view.fillWidth < 200
  {
    var p := Percentage(score, maxScore);
    var d := DisplayPercentage(p);
    ResultsView(p, d, GetRankInfo(p), ShowConfetti(p), FillWidth(d))
  }

  /** For any non-negative score the bar stays within its frame and the shown percentage within 0..100. */
  lemma GradeBounded(score: int, maxScore: int)
    requires score >= 0
    ensures 0.0 <= Grade(score, maxScore).displayPercentage <= 100.0
    ensures 0 <= Grade(score, maxScore).fillWidth <= BarWidth
  {
  }

  /**
   * Beating the estimate is allowed: the tier uses the unclamped percentage
   * (so S), while the shown percentage and the bar are clamped to full.
   */
  lemma ScoreAtOrAboveEstimate(score: int, maxScore: int)
    requires 0 < maxScore <= score
    ensures Grade(score, maxScore).rankInfo.rank == "S" && Grade(score, maxScore).rankInfo.stars == 5
    ensures Grade(score, maxScore).displayPercentage == 100.0
    ensures Grade(score, maxScore).fillWidth == BarWidth
    ensures Grade(score, maxScore).confetti
  {
  }

  /** No estimate (a zero maximum) grades as 0 percent: tier C, one star, an empty bar. */
  lemma NoEstimateIsC(score: int)
    ensures Grade(score, 0).rankInfo.rank == "C" && Grade(score, 0).rankInfo.stars == 1
    ensures Grade(score, 0).fillWidth == 0 && !Grade(score, 0).confetti
  {
  }
}
