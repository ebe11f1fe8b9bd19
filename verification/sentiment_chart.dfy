/** The sentiment chart of a video: the time labels of its points, the
    colour of each point, and the summary counts under the chart. */
module SentimentChart {
  import opened Core
  import opened Text
  import opened Models

  datatype Point = Point(timestamp: real, sentiment_label: string, sentiment_score: real, text_segment: string)

  /** JavaScript's `%` on integers: the sign follows the dividend. */
  function JsIntRem(a: int, m: int): (r: int)
    requires m > 0
    ensures a >= 0 ==> r == a % m
    ensures -m < r < m
  {
    if a >= 0 then a % m else -((-a) % m)
  }

  /** `formatTimestamp(seconds)`: `Math.floor(seconds / 60)`, a colon, and
      `seconds % 60` padded to two characters. */
  function FormatTimestamp(seconds: int): string
  {
    IntToString(seconds / 60) + ":" + PadStart2(IntToString(JsIntRem(seconds, 60)))
  }

  /** On whole non-negative seconds the label is the `m:ss` clock, which
      reads back as those seconds. */
  lemma {:induction false} FormatTimestampIsClock(seconds: nat)
    ensures FormatTimestamp(seconds) == FormatClock(seconds)
    ensures ClockValue(FormatTimestamp(seconds)) == Some(seconds)
  {
    ClockRoundTrip(seconds);
  }

  /** The chart's labels: one per point, in order, from the floored timestamp. */
  function Labels(data: seq<Point>): (r: seq<string>)
    ensures |r| == |data|
    ensures forall i | 0 <= i < |data| && data[i].timestamp >= 0.0 :: ClockValue(r[i]) == Some(data[i].timestamp.Floor as nat)
  {
    var r := Map(data, (p: Point) => FormatTimestamp(p.timestamp.Floor));
    forall i | 0 <= i < |data| && data[i].timestamp >= 0.0
      ensures ClockValue(r[i]) == Some(data[i].timestamp.Floor as nat)
    {
      FormatTimestampIsClock(data[i].timestamp.Floor as nat);
    }
    r
  }

  datatype Colour = Green | Red | Yellow

  /** `getColorForSentiment` and `getBorderColorForSentiment` share these bands. */
  function ColourFor(score: real): (c: Colour)
  {
    if score > 0.1 then Green else if score < -0.1 then Red else Yellow
  }

  /** A point's colour is its sentiment category: green for positive, red
      for negative, yellow for neutral. */
  lemma {:induction false} ColourIsCategory(score: real)
    ensures ColourFor(score) == Green <==> Classify(score) == Positive
    ensures ColourFor(score) == Red <==> Classify(score) == Negative
    ensures ColourFor(score) == Yellow <==> Classify(score) == Neutral
  {
  }

  predicate PointPositive(p: Point) { p.sentiment_score > 0.1 }
  predicate PointNegative(p: Point) { p.sentiment_score < -0.1 }
  predicate PointNeutral(p: Point) { -0.1 <= p.sentiment_score <= 0.1 }

  function ScoreSum(data: seq<Point>): real
  {
    if |data| == 0 then 0.0 else ScoreSum(data[..|data| - 1]) + data[|data| - 1].sentiment_score
  }

  datatype Summary = Summary(positive: nat, negative: nat, neutral: nat, total: nat, averageScore: real)

  /** `getSentimentSummary`: the counts of each band and the average. With
      no points the divisions give `NaN`, here `None`. */
  function SentimentSummary(data: seq<Point>): (r: Option<Summary>)
    ensures r.Some? <==> |data| > 0
    ensures r.Some? ==>
      r.value.positive + r.value.negative + r.value.neutral == r.value.total == |data| &&
      r.value.positive == Count(data, PointPositive) &&
      r.value.negative == Count(data, PointNegative) &&
      r.value.neutral == Count(data, PointNeutral) &&
      r.value.averageScore == ScoreSum(data) / |data| as real
  {
    if |data| == 0 then None
    else
      var p := Count(data, PointPositive);
      var n := Count(data, PointNegative);
      CountPartition3(data, PointPositive, PointNeutral, PointNegative);
      Some(Summary(p, n, |data| - p - n, |data|, ScoreSum(data) / |data| as real))
  }

  /** The summary under the chart counts the points drawn in each colour:
      the positives are the green points, the negatives the red ones and
      the neutrals the yellow ones. */
  lemma {:induction false} SummaryCountsColours(data: seq<Point>)
    requires |data| > 0
    ensures var s := SentimentSummary(data).value;
      s.positive == Count(data, (p: Point) => ColourFor(p.sentiment_score) == Green) &&
      s.negative == Count(data, (p: Point) => ColourFor(p.sentiment_score) == Red) &&
      s.neutral == Count(data, (p: Point) => ColourFor(p.sentiment_score) == Yellow)
  {
    FilterSame(data, PointPositive, (p: Point) => ColourFor(p.sentiment_score) == Green);
    FilterSame(data, PointNegative, (p: Point) => ColourFor(p.sentiment_score) == Red);
    FilterSame(data, PointNeutral, (p: Point) => ColourFor(p.sentiment_score) == Yellow);
  }
}
