/** The sentiment analysis script: normalising the model's confidence into a
    signed score, the three-way classification, the per-segment guards, the
    statistics over a transcript and the command-line entry point. The
    classifier model itself is a parameter. */
module SentimentAnalyzer {
  import opened Core
  import opened Text
  import opened Models

  /** `normalize_sentiment_score`: the confidence is kept for the POSITIVE
      label and negated for any other label. */
  function NormalizeScore(modelLabel: string, score: real): (r: real)
    ensures modelLabel == "POSITIVE" ==> r == score
    ensures modelLabel != "POSITIVE" ==> r == -score
    ensures 0.0 <= score <= 1.0 ==> -1.0 <= r <= 1.0
  {
    if modelLabel == "POSITIVE" then score else -score
  }

  /** What one call of the classifier model did. */
  datatype ModelCall = Prediction(modelLabel: string, score: real) | ModelFailed(message: string)

  /** The result for one text segment. */
  datatype SegmentSentiment = SegmentSentiment(category: Label, score: real, confidence: real)

  /** The longest text the model is given, in words. */
  const MaxWords: nat := 512
  const DivisionByZeroMessage := "Sentiment analysis failed: division by zero"
  const NoSegmentsMessage := "No transcript segments provided"
  const UsageMessage := "Usage: python sentiment_analyzer.py \"<transcript_segments_json_file>\""
  const InvalidJsonPrefix := "Invalid JSON input: "
  const NotAListMessage := "Unexpected error: Transcript segments must be a list"
  const LoadFailedPrefix := "Unexpected error: Failed to load sentiment model: "

  /** The model input: the text itself, or its first 512 words re-joined by
      single spaces when it has more. */
  function ModelInput(text: string): (r: string)
    ensures |Words(text)| <= MaxWords ==> r == text
  {
    var ws := Words(text);
    if |ws| > MaxWords then JoinWords(ws[..MaxWords]) else text
  }

  /** The model sees at most 512 words, and they are the text's first words. */
  lemma {:induction false} ModelInputWords(text: string)
    ensures var ws := Words(ModelInput(text));
      |ws| <= MaxWords && ws <= Words(text)
  {
    var ws := Words(text);
    if |ws| > MaxWords {
      var first := ws[..MaxWords];
      assert forall k | 0 <= k < |first| :: IsWord(first[k]) by {
        forall k | 0 <= k < |first| ensures IsWord(first[k]) {
          assert first[k] == ws[k];
        }
      }
      WordsOfJoin(first);
    }
  }

  /** `analyze_text_segment`: stripped text shorter than 3 characters and a
      failing model both give a neutral 0.0; otherwise the label is the
      classification of the normalised score, and the score and the
      confidence are reported rounded to four places. */
  function AnalyzeTextSegment(text: string, model: string -> ModelCall): (r: SegmentSentiment)
    ensures |Strip(text)| < 3 ==> r == SegmentSentiment(Neutral, 0.0, 0.0)
    ensures |Strip(text)| >= 3 && model(ModelInput(text)).ModelFailed? ==> r == SegmentSentiment(Neutral, 0.0, 0.0)
    ensures |Strip(text)| >= 3 && model(ModelInput(text)).Prediction? ==>
      var n := NormalizeScore(model(ModelInput(text)).modelLabel, model(ModelInput(text)).score);
      r.category == Classify(n) && r.score == PyRound(n, 4) &&
      r.confidence == PyRound(model(ModelInput(text)).score, 4)
  {
    if |Strip(text)| < 3 then SegmentSentiment(Neutral, 0.0, 0.0)
    else match model(ModelInput(text))
      case ModelFailed(_) => SegmentSentiment(Neutral, 0.0, 0.0)
      case Prediction(modelLabel, score) =>
        var n := NormalizeScore(modelLabel, score);
        SegmentSentiment(Classify(n), PyRound(n, 4), PyRound(score, 4))
  }

  /** Rounding to four places cannot carry a score across either class
      boundary, only onto it: a rounded score of exactly 0.1 or -0.1 may
      belong to a segment labelled positive or negative. */
  lemma {:induction false} RoundedKeepsClass(n: real)
    ensures var r := PyRound(n, 4);
      (r > 0.1 ==> Classify(n) == Positive) && (r < -0.1 ==> Classify(n) == Negative) &&
      (-0.1 < r < 0.1 ==> Classify(n) == Neutral) &&
      (r == 0.1 ==> Classify(n) != Negative) && (r == -0.1 ==> Classify(n) != Positive)
  {
    assert Pow10(4) == 10000 by {
      assert Pow10(1) == 10 && Pow10(2) == 100 && Pow10(3) == 1000;
    }
    PyRoundFixed(0.1, 1000, 4);
    PyRoundFixed(-0.1, -1000, 4);
    if n <= 0.1 {
      PyRoundMonotone(n, 0.1, 4);
    }
    if n >= -0.1 {
      PyRoundMonotone(-0.1, n, 4);
    }
  }

  /** Whatever the model does, the label agrees with the reported score
      away from the two boundary values, and the score is in [-1, 1] when
      the model's confidences are in [0, 1]. */
  lemma {:induction false} SegmentLabelMatchesScore(text: string, model: string -> ModelCall)
    requires forall t :: model(t).Prediction? ==> 0.0 <= model(t).score <= 1.0
    ensures var r := AnalyzeTextSegment(text, model);
      -1.0 <= r.score <= 1.0 &&
      (r.score != 0.1 && r.score != -0.1 ==> r.category == Classify(r.score))
  {
    if |Strip(text)| >= 3 && model(ModelInput(text)).Prediction? {
      var n := NormalizeScore(model(ModelInput(text)).modelLabel, model(ModelInput(text)).score);
      PyRoundInUnit(n, 4);
      RoundedKeepsClass(n);
    }
  }

  /** The boundary case: a model confidence of 0.10004 for POSITIVE gives
      the label positive and the reported score 0.1, which the three-way
      split itself calls neutral. */
  lemma {:induction false} RoundedScoreOnBoundary(text: string, model: string -> ModelCall)
    requires |Strip(text)| >= 3 && model(ModelInput(text)) == Prediction("POSITIVE", 0.10004)
    ensures var r := AnalyzeTextSegment(text, model);
      r.category == Positive && r.score == 0.1 && Classify(r.score) == Neutral
  {
    assert Pow10(4) == 10000 by {
      assert Pow10(1) == 10 && Pow10(2) == 100 && Pow10(3) == 1000;
    }
    assert (0.10004 * 10000.0).Floor == 1000;
  }

  // ---------------------------------------------------------------------------
  // analyze_transcript

  /** A segment as read from the input file; `text` and `start` may be absent. */
  datatype InputSegment = InputSegment(text: Option<string>, start: Option<real>)

  /** One entry of the output `sentiments` list. */
  datatype SentimentItem = SentimentItem(
    timestamp: real,
    sentiment_label: Label,
    sentiment_score: real,
    text_segment: string,
    confidence: real)

  function AnalyzeSegment(s: InputSegment, model: string -> ModelCall): (r: SentimentItem)
    ensures r.timestamp == s.start.GetOr(0.0)
    ensures r.text_segment == Excerpt(Strip(s.text.GetOr("")))
  {
    var text := Strip(s.text.GetOr(""));
    var a := AnalyzeTextSegment(text, model);
    SentimentItem(s.start.GetOr(0.0), a.category, a.score, Excerpt(text), a.confidence)
  }

  /** The `statistics` object: the average rounded to four places and the
      percentages to two. */
  datatype Statistics = Statistics(
    total_segments: nat,
    positive_segments: nat,
    negative_segments: nat,
    neutral_segments: nat,
    average_score: real,
    positive_percentage: real,
    negative_percentage: real,
    neutral_percentage: real)

  function Scores(items: seq<SentimentItem>): seq<real>
  {
    Map(items, (s: SentimentItem) => s.sentiment_score)
  }

  function Sum(xs: seq<real>): real
  {
    if |xs| == 0 then 0.0 else xs[0] + Sum(xs[1..])
  }

  lemma {:induction false} SumBounds(xs: seq<real>, b: real)
    requires forall i | 0 <= i < |xs| :: -b <= xs[i] <= b
    ensures -(|xs| as real) * b <= Sum(xs) <= (|xs| as real) * b
  {
    if |xs| > 0 {
      assert forall i | 0 <= i < |xs[1..]| :: xs[1..][i] == xs[i + 1];
      SumBounds(xs[1..], b);
    }
  }

  /** The mean of the non-zero scores, 0.0 when every score is zero. */
  function AverageNonZero(scores: seq<real>): real
  {
    var nz := Filter(scores, (x: real) => x != 0.0);
    if |nz| == 0 then 0.0 else Sum(nz) / |nz| as real
  }

  /** Averaging keeps the scores' range. */
  lemma {:induction false} AverageInRange(scores: seq<real>)
    requires forall i | 0 <= i < |scores| :: -1.0 <= scores[i] <= 1.0
    ensures -1.0 <= AverageNonZero(scores) <= 1.0
  {
    var nz := Filter(scores, (x: real) => x != 0.0);
    if |nz| > 0 {
      SumBounds(nz, 1.0);
      var n := |nz| as real;
      assert -n <= Sum(nz) <= n;
      DivBounds(Sum(nz), n);
    }
  }

  lemma {:induction false} DivBounds(s: real, n: real)
    requires n > 0.0 && -n <= s <= n
    ensures -1.0 <= s / n <= 1.0
  {
  }

  /** A share of the segments in percent, rounded to two places. */
  function Percentage(count: nat, total: nat): real
    requires total > 0
  {
    PyRound(count as real / total as real * 100.0, 2)
  }

  predicate IsPositive(s: SentimentItem) { s.sentiment_label == Positive }
  predicate IsNegative(s: SentimentItem) { s.sentiment_label == Negative }
  predicate IsNeutral(s: SentimentItem) { s.sentiment_label == Neutral }

  /** The JSON the script prints. */
  datatype SentimentJson =
    | SentimentOk(sentiments: seq<SentimentItem>, statistics: Statistics)
    | SentimentFailed(error: string)

  /** `analyze_transcript`: one item per input segment, in order, then the
      statistics. An empty list divides by zero, which the method's handler
      turns into a failure. */
  function AnalyzeTranscript(segments: seq<InputSegment>, model: string -> ModelCall): (r: SentimentJson)
    ensures r.SentimentOk? <==> |segments| > 0
    ensures r.SentimentOk? ==> |r.sentiments| == |segments|
    ensures r.SentimentOk? ==> forall i | 0 <= i < |segments| :: r.sentiments[i] == AnalyzeSegment(segments[i], model)
    ensures r.SentimentOk? ==> r.statistics.total_segments == |segments|
    ensures r.SentimentOk? ==>
      r.statistics.positive_segments == Count(r.sentiments, IsPositive) &&
      r.statistics.negative_segments == Count(r.sentiments, IsNegative) &&
      r.statistics.neutral_segments == Count(r.sentiments, IsNeutral)
    ensures r.SentimentOk? ==>
      r.statistics.average_score == PyRound(AverageNonZero(Scores(r.sentiments)), 4)
    ensures r.SentimentOk? ==>
      var st := r.statistics;
      st.positive_percentage == Percentage(st.positive_segments, |segments|) &&
      st.negative_percentage == Percentage(st.negative_segments, |segments|) &&
      st.neutral_percentage == Percentage(st.neutral_segments, |segments|)
  {
    if |segments| == 0 then SentimentFailed(DivisionByZeroMessage)
    else
      var items := Map(segments, (s: InputSegment) => AnalyzeSegment(s, model));
      var total := |segments|;
      var pos := Count(items, IsPositive);
      var neg := Count(items, IsNegative);
      var neu := Count(items, IsNeutral);
      SentimentOk(items, Statistics(
        total, pos, neg, neu,
        PyRound(AverageNonZero(Scores(items)), 4),
        Percentage(pos, total), Percentage(neg, total), Percentage(neu, total)))
  }

  /** The three label counts add up to the number of segments. */
  lemma {:induction false} CountsAddUp(segments: seq<InputSegment>, model: string -> ModelCall)
    ensures AnalyzeTranscript(segments, model).SentimentOk? ==>
      var st := AnalyzeTranscript(segments, model).statistics;
      st.positive_segments + st.negative_segments + st.neutral_segments == st.total_segments
  {
    if |segments| > 0 {
      LabelsPartition(AnalyzeTranscript(segments, model).sentiments);
    }
  }

  /** When every score is zero the average is 0.0: the source skips the
      division when no non-zero score is left. */
  lemma {:induction false} AllZeroAverage(segments: seq<InputSegment>, model: string -> ModelCall)
    requires var r := AnalyzeTranscript(segments, model);
      r.SentimentOk? && forall i | 0 <= i < |r.sentiments| :: r.sentiments[i].sentiment_score == 0.0
    ensures AnalyzeTranscript(segments, model).statistics.average_score == 0.0
  {
    var scores := Scores(AnalyzeTranscript(segments, model).sentiments);
    FilterNone(scores, (x: real) => x != 0.0);
    PyRoundFixed(0.0, 0, 4);
  }

  /** Every item has exactly one of the three labels. */
  lemma {:induction false} LabelsPartition(items: seq<SentimentItem>)
    ensures Count(items, IsPositive) + Count(items, IsNegative) + Count(items, IsNeutral) == |items|
  {
    CountPartition3(items, IsPositive, IsNegative, IsNeutral);
  }

  /** The average lies in [-1, 1] when the model's confidences lie in [0, 1]. */
  lemma {:induction false} AverageBounded(segments: seq<InputSegment>, model: string -> ModelCall)
    requires forall t :: model(t).Prediction? ==> 0.0 <= model(t).score <= 1.0
    ensures AnalyzeTranscript(segments, model).SentimentOk? ==>
      -1.0 <= AnalyzeTranscript(segments, model).statistics.average_score <= 1.0
  {
    if |segments| > 0 {
      var items := AnalyzeTranscript(segments, model).sentiments;
      ScoresInRange(segments, model, items);
      AverageInRange(Scores(items));
      PyRoundInUnit(AverageNonZero(Scores(items)), 4);
    }
  }

  lemma {:induction false} ScoresInRange(segments: seq<InputSegment>, model: string -> ModelCall, items: seq<SentimentItem>)
    requires forall t :: model(t).Prediction? ==> 0.0 <= model(t).score <= 1.0
    requires |items| == |segments|
    requires forall i | 0 <= i < |segments| :: items[i] == AnalyzeSegment(segments[i], model)
    ensures forall i | 0 <= i < |Scores(items)| :: -1.0 <= Scores(items)[i] <= 1.0
  {
    forall i | 0 <= i < |items|
      ensures -1.0 <= Scores(items)[i] <= 1.0
    {
      SegmentLabelMatchesScore(Strip(segments[i].text.GetOr("")), model);
    }
  }

  /** Every item's label is the classification of its own reported score,
      unless that score is one of the two boundary values. */
  lemma {:induction false} ItemLabelsMatchScores(segments: seq<InputSegment>, model: string -> ModelCall)
    requires forall t :: model(t).Prediction? ==> 0.0 <= model(t).score <= 1.0
    ensures var r := AnalyzeTranscript(segments, model);
      r.SentimentOk? ==> forall i | 0 <= i < |r.sentiments| ::
        var x := r.sentiments[i];
        x.sentiment_score != 0.1 && x.sentiment_score != -0.1 ==> x.sentiment_label == Classify(x.sentiment_score)
  {
    var r := AnalyzeTranscript(segments, model);
    if r.SentimentOk? {
      forall i | 0 <= i < |r.sentiments|
        ensures var x := r.sentiments[i];
          x.sentiment_score != 0.1 && x.sentiment_score != -0.1 ==> x.sentiment_label == Classify(x.sentiment_score)
      {
        SegmentLabelMatchesScore(Strip(segments[i].text.GetOr("")), model);
      }
    }
  }

  // ---------------------------------------------------------------------------
  // main

  /** What reading the input argument gave: a list of segments, some other
      JSON value, or text that is not JSON. */
  datatype SentimentInput = SegmentList(items: seq<InputSegment>) | NotAList | InvalidJson(reason: string)

  /** The command-line entry point. `loadError` is the failure of loading the
      model, if any. */
  function ScriptMain(argv: seq<string>, read: string -> SentimentInput, loadError: Option<string>,
                model: string -> ModelCall): (r: Exit<SentimentJson>)
    ensures r.code == 0 <==> r.output.SentimentOk?
    ensures r.code == 0 ==> |argv| == 1 && read(argv[0]).SegmentList? && |read(argv[0]).items| > 0 && loadError.None?
    ensures |argv| == 1 && read(argv[0]).SegmentList? && |read(argv[0]).items| == 0 ==>
      r == Exit(SentimentFailed(NoSegmentsMessage), 1)
  {
    if |argv| != 1 then
      Exit(SentimentFailed(UsageMessage), 1)
    else match read(argv[0])
      case InvalidJson(why) => Exit(SentimentFailed(InvalidJsonPrefix + why), 1)
      case NotAList => Exit(SentimentFailed(NotAListMessage), 1)
      case SegmentList(items) =>
        if |items| == 0 then Exit(SentimentFailed(NoSegmentsMessage), 1)
        else if loadError.Some? then
          Exit(SentimentFailed(LoadFailedPrefix + loadError.value), 1)
        else
          var result := AnalyzeTranscript(items, model);
          Exit(result, if result.SentimentOk? then 0 else 1)
  }
}
