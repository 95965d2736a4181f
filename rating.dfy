/** The rating rule of src/lib/rating.ts: pure integer arithmetic over a player's rate. */
module Rating {
  import opened Types

  /** Points for a first game, indexed by finishing rank minus one. */
  const FirstGamePoints: seq<int> := [4, 3, 2, 1, 0, 0]
  /** From this rate up, a gain is multiplied by 0.8 and floored. */
  const HighRate := 130
  /** Up to this rate, a gain is multiplied by 1.2 and floored. */
  const LowRate := 70
  /** A rate never drops below this floor. */
  const MinRate := 30
  /** Rate points per place gained over the previous round. */
  const PointsPerPlace := 8
  /** Bonus for finishing at the same rank as in the previous round. */
  const SameRankBonus := 10

  /** `points[rank - 1] || 0`: a rank outside the table reads `undefined`, which becomes 0. */
  function FirstGameChange(rank: int): (c: int)
    ensures 1 <= rank <= 4 ==> c == 5 - rank
    ensures rank < 1 || rank > 4 ==> c == 0
  {
    if 1 <= rank <= |FirstGamePoints| then FirstGamePoints[rank - 1] else 0
  }

  /** The change before the high/low-rate correction. */
  function BaseChange(rank: int, prevRank: Option<int>, isFirstGame: bool): (c: int)
    ensures isFirstGame || prevRank.None? ==> c == FirstGameChange(rank)
    ensures !isFirstGame && prevRank.Some? && rank == prevRank.value ==> c == SameRankBonus
    ensures !isFirstGame && prevRank.Some? && rank < prevRank.value ==> c >= PointsPerPlace && c % PointsPerPlace == 0
    ensures !isFirstGame && prevRank.Some? && rank > prevRank.value ==> c <= -PointsPerPlace && c % PointsPerPlace == 0
    ensures !isFirstGame && prevRank.Some? && rank != prevRank.value ==> c / PointsPerPlace == prevRank.value - rank
  {
    if isFirstGame || prevRank.None? then
      FirstGameChange(rank)
    else
      var change := (prevRank.value - rank) * PointsPerPlace;
      if prevRank.value == rank then change + SameRankBonus else change
  }

  /**
   * The correction applied to a gain: `Math.floor(change * 0.8)` at a high rate, then
   * `Math.floor(change * 1.2)` at a low rate.  For integer changes the double products
   * floor to (4 * change) / 5 and (6 * change) / 5.
   */
  function Corrected(currentRate: int, change: int): (r: int)
    ensures change <= 0 ==> r == change
    ensures change > 0 && currentRate >= HighRate ==> 0 <= r <= change && 5 * r <= 4 * change < 5 * r + 5
    ensures change > 0 && currentRate <= LowRate ==> change <= r && 5 * r <= 6 * change < 5 * r + 5
    ensures change > 0 && LowRate < currentRate < HighRate ==> r == change
  {
    if change > 0 then
      var afterHigh := if currentRate >= HighRate then (4 * change) / 5 else change;
      if currentRate <= LowRate then (6 * afterHigh) / 5 else afterHigh
    else
      change
  }

  /** calculateRateChange: the base change, corrected when it is a gain. */
  function CalculateRateChange(currentRate: int, rank: int, prevRank: Option<int>, isFirstGame: bool): (r: int)
    ensures var c := BaseChange(rank, prevRank, isFirstGame);
      (c <= 0 ==> r == c) &&
      (c > 0 ==> 0 <= r) &&
      (c > 0 && currentRate >= HighRate ==> r <= c) &&
      (c > 0 && currentRate <= LowRate ==> r >= c) &&
      (LowRate < currentRate < HighRate ==> r == c)
  {
    Corrected(currentRate, BaseChange(rank, prevRank, isFirstGame))
  }

  /** applyRateChange: the new rate is floored at MinRate and appended to the history; nothing else changes. */
  function ApplyRateChange(p: Player, change: int): (q: Player)
    ensures q.rate >= MinRate && q.rate >= p.rate + change
    ensures p.rate + change >= MinRate ==> q.rate == p.rate + change
    ensures p.rate + change < MinRate ==> q.rate == MinRate
    ensures |q.rateHistory| == |p.rateHistory| + 1
    ensures q.rateHistory[..|p.rateHistory|] == p.rateHistory && q.rateHistory[|p.rateHistory|] == q.rate
    ensures q == p.(rate := q.rate, rateHistory := q.rateHistory)
  {
    var newRate := if p.rate + change < MinRate then MinRate else p.rate + change;
    p.(rate := newRate, rateHistory := p.rateHistory + [newRate])
  }

  /** A first game (or an unknown previous rank) scores 4, 3, 2, 1 for ranks 1 to 4 and 0 otherwise, before correction. */
  lemma FirstGameTable(currentRate: int, rank: int, prevRank: Option<int>, isFirstGame: bool)
    requires isFirstGame || prevRank.None?
    requires LowRate < currentRate < HighRate
    ensures CalculateRateChange(currentRate, rank, prevRank, isFirstGame) == if 1 <= rank <= 4 then 5 - rank else 0
  {
  }

  /** Correction never changes the sign of a change: a loss is kept as it is, a gain stays non-negative. */
  lemma SignPreserved(currentRate: int, rank: int, prevRank: Option<int>, isFirstGame: bool)
    ensures var c := BaseChange(rank, prevRank, isFirstGame);
      var r := CalculateRateChange(currentRate, rank, prevRank, isFirstGame);
      (c < 0 <==> r < 0) && (c > 0 ==> r >= 0) && (c <= 0 ==> r == c)
  {
  }

  /** The expected values of the repository's rating check script. */
  lemma ScriptExamples()
    ensures CalculateRateChange(100, 1, None, true) == 4
    ensures CalculateRateChange(100, 3, None, true) == 2
    ensures CalculateRateChange(100, 2, Some(4), false) == 16
    ensures CalculateRateChange(100, 4, Some(2), false) == -16
    ensures CalculateRateChange(100, 2, Some(2), false) == 10
    ensures CalculateRateChange(130, 2, Some(4), false) == 12
    ensures CalculateRateChange(70, 2, Some(4), false) == 19
    ensures CalculateRateChange(140, 2, Some(1), false) == -8
  {
  }
}
