/**
 * The season-summary cards: for points, rebounds and assists, the average
 * over the games where the stat is known, and a trend that compares the
 * last three such games with the three before them.
 */
module PlayerStatsSummary {
  import opened Wrappers
  import opened Types

  datatype StatKey = Pts | Reb | Ast

  datatype Trend = Up | Down | Neutral

  /**
   * A JavaScript number as far as the trend needs it: an exact value, or
   * one of the non-finite results of dividing by zero.
   */
  datatype JsNumber = Finite(value: real) | PositiveInfinity | NegativeInfinity | NaN

  /** One card; `title` is the card's label (`label` is a Dafny keyword). */
  datatype StatCard = StatCard(title: string, value: real, trend: Trend, trendValue: JsNumber)

  /** The card's label: a per-game abbreviation (PPG, RPG, APG). */
  function Label(key: StatKey): (r: string)
    ensures |r| == 3 && r[1..] == "PG"
  {
    match key
    case Pts => "PPG"
    case Reb => "RPG"
    case Ast => "APG"
  }

  /** The three cards carry three different labels. */
  lemma LabelsDistinct(a: StatKey, b: StatKey)
    requires a != b
    ensures Label(a) != Label(b)
  {
  }

  /** `s[statKey]`. */
  function StatOf(s: Stats, key: StatKey): Option<int>
  {
    match key
    case Pts => s.pts
    case Reb => s.reb
    case Ast => s.ast
  }

  /** The known values of the stat, in game order (`filter` then `s[statKey]`). */
  function ValidValues(stats: seq<Stats>, key: StatKey): (r: seq<int>)
    ensures |r| <= |stats|
    ensures (forall i :: 0 <= i < |stats| ==> StatOf(stats[i], key).Some?) ==> |r| == |stats|
    ensures (forall i :: 0 <= i < |stats| ==> StatOf(stats[i], key).None?) ==> r == []
    ensures |stats| == 1 ==> r == (match StatOf(stats[0], key) case Some(v) => [v] case None => [])
  {
    if stats == [] then []
    else
      (match StatOf(stats[0], key) case Some(v) => [v] case None => [])
      + ValidValues(stats[1..], key)
  }

  /** Filtering keeps game order: it distributes over concatenation. */
  lemma {:induction false} ValidValuesAppend(a: seq<Stats>, b: seq<Stats>, key: StatKey)
    ensures ValidValues(a + b, key) == ValidValues(a, key) + ValidValues(b, key)
  {
    if a == [] {
      assert a + b == b;
    } else {
      assert (a + b)[0] == a[0] && (a + b)[1..] == a[1..] + b;
      ValidValuesAppend(a[1..], b, key);
    }
  }

  /**
   * The kept values are exactly the known values: every known value is
   * kept, and every kept value is the known value of some game.
   */
  lemma {:induction false} ValidValuesContents(stats: seq<Stats>, key: StatKey)
    ensures forall i :: 0 <= i < |stats| && StatOf(stats[i], key).Some? ==>
      StatOf(stats[i], key).value in ValidValues(stats, key)
    ensures forall x :: x in ValidValues(stats, key) ==>
      exists i :: 0 <= i < |stats| && StatOf(stats[i], key) == Some(x)
  {
    if stats != [] {
      ValidValuesContents(stats[1..], key);
      forall x | x in ValidValues(stats, key)
        ensures exists i :: 0 <= i < |stats| && StatOf(stats[i], key) == Some(x)
      {
        if x in ValidValues(stats[1..], key) {
          var j :| 0 <= j < |stats[1..]| && StatOf(stats[1..][j], key) == Some(x);
          assert StatOf(stats[j + 1], key) == Some(x);
        } else {
          assert StatOf(stats[0], key) == Some(x);
        }
      }
      forall i | 0 <= i < |stats| && StatOf(stats[i], key).Some?
        ensures StatOf(stats[i], key).value in ValidValues(stats, key)
      {
        if i > 0 {
          assert stats[i] == stats[1..][i - 1];
        }
      }
    }
  }

  function Sum(xs: seq<int>): int
  {
    if xs == [] then 0 else xs[0] + Sum(xs[1..])
  }

  /** `total / count` over a non-empty list. */
  function Mean(xs: seq<int>): real
    requires |xs| > 0
  {
    Sum(xs) as real / |xs| as real
  }

  /** Division as JavaScript does it, for a zero divisor too. */
  function Divide(a: real, b: real): (r: JsNumber)
    ensures b != 0.0 ==> r == Finite(a / b)
    ensures b == 0.0 && a > 0.0 ==> r == PositiveInfinity
    ensures b == 0.0 && a < 0.0 ==> r == NegativeInfinity
    ensures b == 0.0 && a == 0.0 ==> r == NaN
  {
    if b != 0.0 then Finite(a / b)
    else if a > 0.0 then PositiveInfinity
    else if a < 0.0 then NegativeInfinity
    else NaN
  }

  /** `x * 100`. */
  function TimesHundred(x: JsNumber): JsNumber
  {
    match x
    case Finite(v) => Finite(v * 100.0)
    case _ => x
  }

  /** `Math.abs`. */
  function JsAbs(x: JsNumber): (r: JsNumber)
    ensures r.Finite? ==> r.value >= 0.0
    ensures r != NegativeInfinity
  {
    match x
    case Finite(v) => Finite(if v < 0.0 then -v else v)
    case NegativeInfinity => PositiveInfinity
    case _ => x
  }

  /** `x < c`; every comparison with NaN is false. */
  predicate LessThan(x: JsNumber, c: real)
  {
    match x
    case Finite(v) => v < c
    case NegativeInfinity => true
    case _ => false
  }

  /** `x > c`; every comparison with NaN is false. */
  predicate GreaterThan(x: JsNumber, c: real)
  {
    match x
    case Finite(v) => v > c
    case PositiveInfinity => true
    case _ => false
  }

  /**
   * The trend and its reported size for a recent and a previous average:
   * the percentage change decides, with a band of 2% either way counted as
   * no change; a zero previous average gives JavaScript's infinite or NaN
   * change.
   */
  ghost predicate TrendFits(recent: real, previous: real, trend: Trend, trendValue: JsNumber)
  {
    if previous != 0.0 then
      var change := (recent - previous) / previous * 100.0;
      && trendValue == Finite(if change < 0.0 then -change else change)
      && (trend == Neutral <==> -2.0 < change < 2.0)
      && (trend == Up <==> change >= 2.0)
      && (trend == Down <==> change <= -2.0)
    else
      && (recent > 0.0 ==> trend == Up && trendValue == PositiveInfinity)
      && (recent < 0.0 ==> trend == Down && trendValue == PositiveInfinity)
      && (recent == 0.0 ==> trend == Down && trendValue == NaN)
  }

  /** `card` is the summary card of `key` over `stats`. */
  ghost predicate Summarizes(stats: seq<Stats>, key: StatKey, card: StatCard)
  {
    var valid := ValidValues(stats, key);
    var n := |valid|;
    && card.title == Label(key)
    && card.value == (if n == 0 then 0.0 else Mean(valid))
    && (n < 6 ==> card.trend == Neutral && card.trendValue == Finite(0.0))
    && (n >= 6 ==> TrendFits(Mean(valid[n - 3..]), Mean(valid[n - 6..n - 3]), card.trend, card.trendValue))
  }

  /** `calculateAverageAndTrend(statKey)`. */
  method CalculateAverageAndTrend(stats: seq<Stats>, key: StatKey) returns (card: StatCard)
    ensures Summarizes(stats, key, card)
  {
    var validStats := ValidValues(stats, key);
    if |validStats| == 0 {
      return StatCard(Label(key), 0.0, Neutral, Finite(0.0));
    }
    var average := Mean(validStats);
    var trend := Neutral;
    var trendValue := Finite(0.0);
    var n := |validStats|;
    if n >= 6 {
      var recentAvg := Mean(validStats[n - 3..]);
      var previousAvg := Mean(validStats[n - 6..n - 3]);
      trendValue := TimesHundred(Divide(recentAvg - previousAvg, previousAvg));
      if LessThan(JsAbs(trendValue), 2.0) {
        trend := Neutral;
      } else if GreaterThan(trendValue, 0.0) {
        trend := Up;
      } else {
        trend := Down;
      }
    }
    card := StatCard(Label(key), average, trend, JsAbs(trendValue));
  }

  /** The whole summary: nothing for missing or empty stats, else the three cards. */
  method Summary(stats: Option<seq<Stats>>) returns (cards: Option<seq<StatCard>>)
    ensures cards.None? <==> stats.None? || |stats.value| == 0
    ensures cards.Some? ==>
      && |cards.value| == 3
      && Summarizes(stats.value, Pts, cards.value[0])
      && Summarizes(stats.value, Reb, cards.value[1])
      && Summarizes(stats.value, Ast, cards.value[2])
  {
    if stats.None? || |stats.value| == 0 {
      return None;
    }
    var pointsStats := CalculateAverageAndTrend(stats.value, Pts);
    var reboundsStats := CalculateAverageAndTrend(stats.value, Reb);
    var assistsStats := CalculateAverageAndTrend(stats.value, Ast);
    cards := Some([pointsStats, reboundsStats, assistsStats]);
  }

  /** A card is fully determined by the stats and the key. */
  lemma SummaryIsDetermined(stats: seq<Stats>, key: StatKey, a: StatCard, b: StatCard)
    requires Summarizes(stats, key, a) && Summarizes(stats, key, b)
    ensures a == b
  {
  }

  /** The reported trend value is never negative. */
  lemma TrendValueNotNegative(stats: seq<Stats>, key: StatKey, card: StatCard)
    requires Summarizes(stats, key, card)
    ensures card.trendValue.Finite? ==> card.trendValue.value >= 0.0
    ensures card.trendValue != NegativeInfinity
  {
  }

  /**
   * Against a positive previous average, the trend is up exactly when the
   * recent average is at least 2% higher, and down exactly when it is at
   * least 2% lower.
   */
  lemma TrendAgainstPreviousAverage(recent: real, previous: real, trend: Trend, trendValue: JsNumber)
    requires previous > 0.0
    requires TrendFits(recent, previous, trend, trendValue)
    ensures trend == Up <==> recent >= previous * 1.02
    ensures trend == Down <==> recent <= previous * 0.98
    ensures trend == Neutral <==> previous * 0.98 < recent < previous * 1.02
  {
    var change := (recent - previous) / previous * 100.0;
    assert change * previous == (recent - previous) * 100.0;
  }
}
