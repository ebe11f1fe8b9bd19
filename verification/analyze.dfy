/** The analyze route: request validation, the cache path, the three hard
    script stages and the soft embeddings stage, persistence with
    delete-then-insert replace semantics, and the status classifier. Each
    stage's envelope is a function of the stage's input, so the handler is
    a pure function from the request and the store to the response, the
    store it leaves and the stages it called. */
module Analyze {
  import opened Core
  import opened Text
  import opened Models
  import VideoUrls
  import Store
  import PythonBridge
  import TranscriptExtractor
  import Summarizer
  import SentimentAnalyzer

  // ---------------------------------------------------------------------------
  // Request validation

  const UrlRequiredMessage := "YouTube URL is required"
  const BadUrlFormatMessage := "Invalid YouTube URL format"
  const EmptyUrlMessage := "\"youtube_url\" is not allowed to be empty"

  datatype Validation = Valid(url: string) | Invalid(message: string)

  /** The request schema: `youtube_url` is a required, non-empty string
      matching the anchored watch-or-short pattern. The empty string gets
      the schema library's own message, which the route does not override. */
  function ValidateRequest(youtubeUrl: Option<string>): (r: Validation)
    ensures r.Valid? <==> youtubeUrl.Some? && VideoUrls.MatchesAnalyzeSchema(youtubeUrl.value)
    ensures r.Valid? ==> r.url == youtubeUrl.value
    ensures youtubeUrl.None? ==> r == Invalid(UrlRequiredMessage)
    ensures youtubeUrl == Some("") ==> r == Invalid(EmptyUrlMessage)
    ensures youtubeUrl.Some? && |youtubeUrl.value| > 0 && !VideoUrls.MatchesAnalyzeSchema(youtubeUrl.value) ==>
      r == Invalid(BadUrlFormatMessage)
  {
    match youtubeUrl
    case None => Invalid(UrlRequiredMessage)
    case Some(u) =>
      if |u| == 0 then
        assert !VideoUrls.MatchesAnalyzeSchema(u);
        Invalid(EmptyUrlMessage)
      else if !VideoUrls.MatchesAnalyzeSchema(u) then Invalid(BadUrlFormatMessage)
      else Valid(u)
  }

  // ---------------------------------------------------------------------------
  // Responses

  /** One entry of `sentiment_timeline`; a fresh run passes the analyser's
      items through, so they carry a confidence that stored records lack. */
  datatype TimelineEntry = TimelineEntry(
    timestamp: real, sentiment_label: string, sentiment_score: real, text_segment: string, confidence: Option<real>)

  datatype Analysis = Analysis(
    video_id: string,
    title: string,
    summary_short: string,
    summary_detailed: string,
    topics: seq<string>,
    sentiment_timeline: seq<TimelineEntry>,
    created_at: int,
    cached: bool)

  /** The `error` field of a failed analysis, one per way the route fails. */
  datatype ErrorKind =
    | ValidationError
    | InvalidUrl
    | TranscriptExtractionFailed
    | SummarizationFailed
    | SentimentAnalysisFailed
    | AnalysisFailed
  {
    /** The string the JSON response carries. */
    function Name(): string {
      match this
      case ValidationError => "Validation Error"
      case InvalidUrl => "Invalid URL"
      case TranscriptExtractionFailed => "Transcript Extraction Failed"
      case SummarizationFailed => "Summarization Failed"
      case SentimentAnalysisFailed => "Sentiment Analysis Failed"
      case AnalysisFailed => "Analysis Failed"
    }
  }

  datatype Response =
    | Analyzed(body: Analysis)
    | Failure(status: nat, error: ErrorKind, message: string, details: Option<string>)

  /** The script stages the handler called, with their inputs. */
  datatype Call =
    | ExtractCall(videoId: string)
    | SummaryCall(text: string)
    | SentimentCall(segments: seq<Segment>)
    | EmbeddingsCall(videoId: string, text: string, segments: seq<Segment>, title: Option<string>, summary: Option<string>)

  datatype Outcome = Outcome(response: Response, db: Store.Db, calls: seq<Call>)

  /** JavaScript `a || b` on optional strings: `a` when it is a non-empty
      string, otherwise `b`, whatever `b` is. */
  function Or(a: Option<string>, b: Option<string>): (r: Option<string>)
    ensures a.Some? && |a.value| > 0 ==> r == a
    ensures (a.None? || |a.value| == 0) ==> r == b
  {
    if a.Some? && |a.value| > 0 then a else b
  }

  /** `a || b || fallback`: the first non-empty message. */
  function FirstMessage(a: Option<string>, b: Option<string>, fallback: string): (r: string)
    ensures a.Some? && |a.value| > 0 ==> r == a.value
    ensures (a.None? || |a.value| == 0) && b.Some? && |b.value| > 0 ==> r == b.value
    ensures (a.None? || |a.value| == 0) && (b.None? || |b.value| == 0) ==> r == fallback
  {
    match Or(a, b)
    case Some(m) => if |m| > 0 then m else fallback
    case None => fallback
  }

  /** The exception message of a failed save; the validation library's exact
      wording is not modelled, only which document failed. */
  function ValidationFailed(kind: string): string { kind + " validation failed" }

  const AnalysisFailedDetails := "Please check if the video is public and has captions available"
  const NoVideoIdMessage := "Could not extract video ID from YouTube URL"
  const NoTranscriptMessage := "Could not extract transcript from video"
  const NoSummaryMessage := "Could not generate summary"
  const NoSentimentMessage := "Could not analyze sentiment"

  // ---------------------------------------------------------------------------
  // Persistence

  /** The stored Sentiment record of one analyser item. */
  function SentimentRecord(id: string, videoId: string, item: SentimentAnalyzer.SentimentItem): SentimentDoc
  {
    SentimentDoc(id, videoId, item.timestamp, LabelName(item.sentiment_label), item.sentiment_score, item.text_segment)
  }

  function Records(videoId: string, items: seq<SentimentAnalyzer.SentimentItem>, uuid: nat -> string): (r: seq<SentimentDoc>)
    ensures |r| == |items|
    ensures forall i | 0 <= i < |r| :: r[i] == SentimentRecord(uuid(i + 1), videoId, items[i])
  {
    seq(|items|, i requires 0 <= i < |items| => SentimentRecord(uuid(i + 1), videoId, items[i]))
  }

  /** `insertMany` with its default ordering validates every record first
      and inserts none when one fails. */
  function SaveAll(docs: seq<SentimentDoc>): (r: Option<seq<SentimentDoc>>)
    ensures r.Some? <==> forall i | 0 <= i < |docs| :: SaveSentiment(docs[i]).Some?
    ensures r.Some? ==> |r.value| == |docs|
    ensures r.Some? ==> forall i | 0 <= i < |docs| :: r.value[i] == SaveSentiment(docs[i]).value
  {
    if forall i | 0 <= i < |docs| :: SaveSentiment(docs[i]).Some? then
      Some(seq(|docs|, i requires 0 <= i < |docs| => SaveSentiment(docs[i]).value))
    else None
  }

  datatype Saved = Saved(db: Store.Db, error: Option<string>)

  /** Deletes the video's old records, then saves the Video, the Summary and
      the Sentiment records in that order. A save that fails validation
      throws and leaves whatever was written before it. */
  function Persist(db: Store.Db, video: VideoDoc, summary: SummaryDoc, records: seq<SentimentDoc>): (r: Saved)
    requires video.video_id == summary.video_id
    ensures r.error.None? <==>
      SaveVideo(video).Some? && SaveSummary(summary).Some? && SaveAll(records).Some?
  {
    var id := video.video_id;
    var cleared := Store.DeleteVideoRecords(db, id);
    match SaveVideo(video)
    case None => Saved(cleared, Some(ValidationFailed("Video")))
    case Some(v) =>
      var withVideo := cleared.(videos := cleared.videos[id := v]);
      match SaveSummary(summary)
      case None => Saved(withVideo, Some(ValidationFailed("Summary")))
      case Some(s) =>
        var withSummary := withVideo.(summaries := withVideo.summaries[id := s]);
        match SaveAll(records)
        case None => Saved(withSummary, Some(ValidationFailed("Sentiment")))
        case Some(docs) => Saved(withSummary.(sentiments := withSummary.sentiments + docs), None)
  }

  /** After a successful save the store holds exactly the new Video, the new
      Summary and the new records for the id, and nothing of the video's
      earlier records; other videos and the users are untouched. */
  lemma {:induction false} PersistReplaces(db: Store.Db, video: VideoDoc, summary: SummaryDoc, records: seq<SentimentDoc>)
    requires video.video_id == summary.video_id
    requires forall i | 0 <= i < |records| :: records[i].video_id == video.video_id
    requires Persist(db, video, summary, records).error.None?
    ensures var id := video.video_id; var r := Persist(db, video, summary, records).db;
      id in r.videos && r.videos[id] == SaveVideo(video).value &&
      id in r.summaries && r.summaries[id] == SaveSummary(summary).value &&
      Store.SentimentsOf(r, id) == SaveAll(records).value &&
      r.users == db.users
    ensures var id := video.video_id; var r := Persist(db, video, summary, records).db;
      forall other | other != id ::
        (other in r.videos <==> other in db.videos) &&
        (other in r.summaries <==> other in db.summaries) &&
        Store.SentimentsOf(r, other) == Store.SentimentsOf(db, other)
  {
    var id := video.video_id;
    var cleared := Store.DeleteVideoRecords(db, id);
    var docs := SaveAll(records).value;
    assert forall i | 0 <= i < |docs| :: docs[i].video_id == id by {
      forall i | 0 <= i < |docs| ensures docs[i].video_id == id {
        assert docs[i] == SaveSentiment(records[i]).value;
      }
    }
    var d := Store.DeleteSentiments(db.sentiments, id);
    var r := Persist(db, video, summary, records).db;
    assert r == Store.Db(cleared.videos[id := SaveVideo(video).value], cleared.summaries[id := SaveSummary(summary).value],
                         d + docs, db.users);
    Store.AppendedRecords(d, docs, id);
    forall other | other != id
      ensures other in r.videos <==> other in db.videos
      ensures other in r.summaries <==> other in db.summaries
      ensures Store.SentimentsOf(r, other) == Store.SentimentsOf(db, other)
    {
      Store.DeleteLeavesOtherVideos(db, id, other);
      OthersUnaffected(d, docs, id, other);
    }
  }

  lemma {:induction false} OthersUnaffected(d: seq<SentimentDoc>, docs: seq<SentimentDoc>, id: string, other: string)
    requires other != id
    requires forall i | 0 <= i < |docs| :: docs[i].video_id == id
    ensures Filter(d + docs, (x: SentimentDoc) => x.video_id == other) == Filter(d, (x: SentimentDoc) => x.video_id == other)
  {
    var p := (x: SentimentDoc) => x.video_id == other;
    FilterAppend(d, docs, p);
    Store.FilterNoneMatch(docs, other);
  }

  // ---------------------------------------------------------------------------
  // POST /

  /** The stage envelopes the bridge resolves with, as functions of each stage's input. */
  datatype Stages = Stages(
    transcript: string -> PythonBridge.PythonResult<TranscriptExtractor.TranscriptJson>,
    summary: string -> PythonBridge.PythonResult<Summarizer.SummaryJson>,
    sentiment: seq<Segment> -> PythonBridge.PythonResult<SentimentAnalyzer.SentimentJson>)

  predicate TranscriptSucceeded(r: PythonBridge.PythonResult<TranscriptExtractor.TranscriptJson>) {
    r.success && r.data.Some? && r.data.value.TranscriptOk?
  }
  predicate SummarySucceeded(r: PythonBridge.PythonResult<Summarizer.SummaryJson>) {
    r.success && r.data.Some? && r.data.value.SummaryOk?
  }
  predicate SentimentSucceeded(r: PythonBridge.PythonResult<SentimentAnalyzer.SentimentJson>) {
    r.success && r.data.Some? && r.data.value.SentimentOk?
  }

  function TranscriptError(r: PythonBridge.PythonResult<TranscriptExtractor.TranscriptJson>): Option<string> {
    if r.data.Some? && r.data.value.TranscriptFailed? then Some(r.data.value.error) else None
  }
  function SummaryError(r: PythonBridge.PythonResult<Summarizer.SummaryJson>): Option<string> {
    if r.data.Some? && r.data.value.SummaryFailed? then Some(r.data.value.error) else None
  }
  function SentimentError(r: PythonBridge.PythonResult<SentimentAnalyzer.SentimentJson>): Option<string> {
    if r.data.Some? && r.data.value.SentimentFailed? then Some(r.data.value.error) else None
  }

  /** A stored record as a timeline entry, which carries no confidence. */
  function StoredEntry(d: SentimentDoc): TimelineEntry {
    TimelineEntry(d.timestamp, d.sentiment_label, d.sentiment_score, d.text_segment, None)
  }

  /** The response to a cache hit: the stored records, the timeline sorted
      by ascending timestamp. */
  function CachedAnalysis(db: Store.Db, videoId: string): Analysis
    requires videoId in db.videos && videoId in db.summaries
  {
    var v := db.videos[videoId];
    var s := db.summaries[videoId];
    var timeline := Store.SentimentTimeline(db, videoId);
    Analysis(videoId, v.title, s.summary_short, s.summary_detailed, s.topics,
             Map(timeline, StoredEntry), s.created_at, true)
  }

  function ItemEntry(item: SentimentAnalyzer.SentimentItem): TimelineEntry {
    TimelineEntry(item.timestamp, LabelName(item.sentiment_label), item.sentiment_score, item.text_segment,
                  Some(item.confidence))
  }

  /** The whole sequence of stage calls a fresh run makes. */
  function FullCalls(videoId: string, t: TranscriptExtractor.TranscriptJson, summaryShort: string): seq<Call>
    requires t.TranscriptOk?
  {
    var text := TranscriptText(t.transcript);
    [ExtractCall(videoId), SummaryCall(text), SentimentCall(t.transcript),
     EmbeddingsCall(videoId, text, t.transcript, Some(t.title), Some(summaryShort))]
  }

  /** `POST /`. `uuid(0)` is the Summary's id and `uuid(i + 1)` the id of the
      `i`-th Sentiment record; `now` is the creation time. The embeddings
      stage is called but its envelope is only logged, so it is not an input. */
  function AnalyzeVideo(youtubeUrl: Option<string>, db: Store.Db, stages: Stages, uuid: nat -> string, now: int): (r: Outcome)
    ensures ValidateRequest(youtubeUrl).Invalid? ==>
      r == Outcome(Failure(400, ValidationError, ValidateRequest(youtubeUrl).message, None), db, [])
    ensures r.response.Analyzed? && r.response.body.cached ==> r.db == db && r.calls == []
  {
    match ValidateRequest(youtubeUrl)
    case Invalid(m) => Outcome(Failure(400, ValidationError, m, None), db, [])
    case Valid(url) =>
      match VideoUrls.ExtractVideoIdLoose(url)
      case None =>
        Outcome(Failure(400, InvalidUrl, NoVideoIdMessage, None), db, [])
      case Some(videoId) =>
        if videoId in db.videos && videoId in db.summaries then
          Outcome(Analyzed(CachedAnalysis(db, videoId)), db, [])
        else
          RunStages(url, videoId, db, stages, uuid, now)
  }

  /** The stages and the save, for a video not in the cache: a transcript
      that fails ends the request with 400 before any other stage runs. */
  function RunStages(url: string, videoId: string, db: Store.Db, stages: Stages, uuid: nat -> string, now: int): (r: Outcome)
    ensures |r.calls| >= 1 && r.calls[0] == ExtractCall(videoId)
    ensures !TranscriptSucceeded(stages.transcript(videoId)) <==>
      r.calls == [ExtractCall(videoId)] && r.response.Failure? && r.response.status == 400
    ensures !TranscriptSucceeded(stages.transcript(videoId)) ==> r.db == db
    ensures r.response.Failure? ==>
      r.response.error in {TranscriptExtractionFailed, SummarizationFailed, SentimentAnalysisFailed, AnalysisFailed}
  {
    var tr := stages.transcript(videoId);
    if !TranscriptSucceeded(tr) then
      Outcome(Failure(400, TranscriptExtractionFailed,
                      FirstMessage(tr.error, TranscriptError(tr), NoTranscriptMessage), None),
              db, [ExtractCall(videoId)])
    else
      var r := AfterTranscript(url, videoId, tr.data.value, db, stages, uuid, now);
      Outcome(r.response, r.db, [ExtractCall(videoId)] + r.calls)
  }

  /** Summary, sentiment, embeddings and the save, once the transcript is in;
      a summary that fails ends the request with 500 before the sentiment
      stage. */
  function AfterTranscript(url: string, videoId: string, t: TranscriptExtractor.TranscriptJson, db: Store.Db,
                           stages: Stages, uuid: nat -> string, now: int): (r: Outcome)
    requires t.TranscriptOk?
    ensures |r.calls| >= 1 && r.calls[0] == SummaryCall(TranscriptText(t.transcript))
    ensures !SummarySucceeded(stages.summary(TranscriptText(t.transcript))) <==> |r.calls| == 1
    ensures |r.calls| == 1 ==> r.db == db && r.response.Failure? && r.response.status == 500
    ensures r.response.Failure? ==> r.response.error in {SummarizationFailed, SentimentAnalysisFailed, AnalysisFailed}
  {
    var text := TranscriptText(t.transcript);
    var sr := stages.summary(text);
    if !SummarySucceeded(sr) then
      Outcome(Failure(500, SummarizationFailed,
                      FirstMessage(sr.error, SummaryError(sr), NoSummaryMessage), Or(sr.stderr, sr.stdout)),
              db, [SummaryCall(text)])
    else
      var r := AfterSummary(url, videoId, t, sr.data.value, db, stages, uuid, now);
      Outcome(r.response, r.db, [SummaryCall(text)] + r.calls)
  }

  /** Sentiment, embeddings and the save; a sentiment stage that fails ends
      the request with 500 before anything is written. */
  function AfterSummary(url: string, videoId: string, t: TranscriptExtractor.TranscriptJson, s: Summarizer.SummaryJson,
                        db: Store.Db, stages: Stages, uuid: nat -> string, now: int): (r: Outcome)
    requires t.TranscriptOk? && s.SummaryOk?
    ensures |r.calls| >= 1 && r.calls[0] == SentimentCall(t.transcript)
    ensures !SentimentSucceeded(stages.sentiment(t.transcript)) <==> |r.calls| == 1
    ensures |r.calls| == 1 ==> r.db == db && r.response.Failure? && r.response.status == 500
    ensures |r.calls| > 1 ==>
      r.calls == [SentimentCall(t.transcript),
                  EmbeddingsCall(videoId, TranscriptText(t.transcript), t.transcript, Some(t.title), Some(s.summary_short))]
    ensures r.response.Failure? ==> r.response.error in {SentimentAnalysisFailed, AnalysisFailed}
  {
    var mr := stages.sentiment(t.transcript);
    if !SentimentSucceeded(mr) then
      Outcome(Failure(500, SentimentAnalysisFailed,
                      FirstMessage(mr.error, SentimentError(mr), NoSentimentMessage), Or(mr.stderr, mr.stdout)),
              db, [SentimentCall(t.transcript)])
    else
      var r := Save(url, videoId, t, s, mr.data.value.sentiments, db, uuid, now);
      Outcome(r.response, r.db,
              [SentimentCall(t.transcript),
               EmbeddingsCall(videoId, TranscriptText(t.transcript), t.transcript, Some(t.title), Some(s.summary_short))])
  }

  /** The save after every hard stage succeeded; a document that fails
      validation is answered with 500 "Analysis Failed". */
  function Save(url: string, videoId: string, t: TranscriptExtractor.TranscriptJson, s: Summarizer.SummaryJson,
                items: seq<SentimentAnalyzer.SentimentItem>, db: Store.Db, uuid: nat -> string, now: int): (r: Outcome)
    requires t.TranscriptOk? && s.SummaryOk?
    ensures r.response.Analyzed? <==> Persist(db, FreshVideo(url, videoId, t, now), FreshSummary(videoId, s, uuid, now),
                                              Records(videoId, items, uuid)).error.None?
    ensures r.db == Persist(db, FreshVideo(url, videoId, t, now), FreshSummary(videoId, s, uuid, now),
                            Records(videoId, items, uuid)).db
    ensures r.response.Analyzed? ==>
      var b := r.response.body;
      b.video_id == videoId && !b.cached && b.title == t.title &&
      b.summary_short == s.summary_short && b.summary_detailed == s.summary_detailed && b.topics == s.topics &&
      b.created_at == now && b.sentiment_timeline == Map(items, ItemEntry)
    ensures r.response.Failure? ==> r.response.status == 500 && r.response.error == AnalysisFailed
  {
    var saved := Persist(db, FreshVideo(url, videoId, t, now), FreshSummary(videoId, s, uuid, now), Records(videoId, items, uuid));
    match saved.error
    case Some(m) => Outcome(Failure(500, AnalysisFailed, m, Some(AnalysisFailedDetails)), saved.db, [])
    case None =>
      Outcome(Analyzed(Analysis(videoId, t.title, s.summary_short, s.summary_detailed, s.topics,
                                Map(items, ItemEntry), now, false)),
              saved.db, [])
  }

  function FreshVideo(url: string, videoId: string, t: TranscriptExtractor.TranscriptJson, now: int): VideoDoc
    requires t.TranscriptOk?
  {
    VideoDoc(videoId, t.title, url, t.transcript, now)
  }

  function FreshSummary(videoId: string, s: Summarizer.SummaryJson, uuid: nat -> string, now: int): SummaryDoc
    requires s.SummaryOk?
  {
    SummaryDoc(uuid(0), videoId, s.summary_short, s.summary_detailed, s.topics, now)
  }

  /** The stages run in the fixed order extract, summarise, sentiment,
      embeddings, each only when every earlier hard stage succeeded: the
      calls made are a prefix of the full order, and the store changes only
      after all four were called. */
  lemma {:induction false} CallsFollowStageOrder(url: string, videoId: string, db: Store.Db, stages: Stages, uuid: nat -> string, now: int)
    ensures var r := RunStages(url, videoId, db, stages, uuid, now);
      TranscriptSucceeded(stages.transcript(videoId)) ==>
      var t := stages.transcript(videoId).data.value;
      var s := stages.summary(TranscriptText(t.transcript));
      (SummarySucceeded(s) ==> r.calls <= FullCalls(videoId, t, s.data.value.summary_short)) &&
      (SummarySucceeded(s) && SentimentSucceeded(stages.sentiment(t.transcript)) ==>
        r.calls == FullCalls(videoId, t, s.data.value.summary_short))
    ensures var r := RunStages(url, videoId, db, stages, uuid, now);
      r.db != db ==> |r.calls| == 4 && r.calls[3].EmbeddingsCall?
  {
    var tr := stages.transcript(videoId);
    if TranscriptSucceeded(tr) {
      var t := tr.data.value;
      var a := AfterTranscript(url, videoId, t, db, stages, uuid, now);
      assert RunStages(url, videoId, db, stages, uuid, now).calls == [ExtractCall(videoId)] + a.calls;
      var sr := stages.summary(TranscriptText(t.transcript));
      if SummarySucceeded(sr) {
        var full := FullCalls(videoId, t, sr.data.value.summary_short);
        AfterTranscriptCalls(url, videoId, t, db, stages, uuid, now);
        assert full == [ExtractCall(videoId)] + full[1..];
      }
    }
  }

  /** Once the summary is in, the calls are a prefix of the rest of the full order. */
  lemma {:induction false} AfterTranscriptCalls(url: string, videoId: string, t: TranscriptExtractor.TranscriptJson, db: Store.Db,
                             stages: Stages, uuid: nat -> string, now: int)
    requires t.TranscriptOk? && SummarySucceeded(stages.summary(TranscriptText(t.transcript)))
    ensures var r := AfterTranscript(url, videoId, t, db, stages, uuid, now);
      var rest := FullCalls(videoId, t, stages.summary(TranscriptText(t.transcript)).data.value.summary_short)[1..];
      r.calls <= rest &&
      (SentimentSucceeded(stages.sentiment(t.transcript)) ==> r.calls == rest) &&
      (r.db != db ==> r.calls == rest)
  {
    var text := TranscriptText(t.transcript);
    var s := stages.summary(text).data.value;
    var b := AfterSummary(url, videoId, t, s, db, stages, uuid, now);
    var calls := AfterTranscript(url, videoId, t, db, stages, uuid, now).calls;
    var rest := FullCalls(videoId, t, s.summary_short)[1..];
    assert calls == [SummaryCall(text)] + b.calls;
    assert rest == [SummaryCall(text), SentimentCall(t.transcript),
                    EmbeddingsCall(videoId, text, t.transcript, Some(t.title), Some(s.summary_short))];
    if |b.calls| == 1 {
      assert calls == rest[..2];
    } else {
      assert calls == rest;
    }
  }

  /** A cache hit answers from the store alone: no stage runs, nothing is
      written, the answer carries the stored Video's title and the stored
      Summary's texts, topics and creation time, and the timeline holds every
      stored Sentiment record of the video exactly once, in ascending
      timestamp order. */
  lemma {:induction false} CacheHitRunsNothing(youtubeUrl: Option<string>, db: Store.Db, stages: Stages, uuid: nat -> string, now: int)
    requires ValidateRequest(youtubeUrl).Valid?
    requires var id := VideoUrls.ExtractVideoIdLoose(youtubeUrl.value);
      id.Some? && id.value in db.videos && id.value in db.summaries
    ensures var r := AnalyzeVideo(youtubeUrl, db, stages, uuid, now);
      r.db == db && r.calls == [] && r.response.Analyzed? && r.response.body.cached &&
      forall i, j | 0 <= i < j < |r.response.body.sentiment_timeline| ::
        r.response.body.sentiment_timeline[i].timestamp <= r.response.body.sentiment_timeline[j].timestamp
    ensures var r := AnalyzeVideo(youtubeUrl, db, stages, uuid, now);
      var id := VideoUrls.ExtractVideoIdLoose(youtubeUrl.value).value;
      var v, s := db.videos[id], db.summaries[id];
      var b := r.response.body;
      r.response.Analyzed? &&
      b.video_id == id && b.title == v.title &&
      b.summary_short == s.summary_short && b.summary_detailed == s.summary_detailed &&
      b.topics == s.topics && b.created_at == s.created_at &&
      multiset(b.sentiment_timeline) == multiset(Map(Store.SentimentsOf(db, id), StoredEntry))
  {
    var id := VideoUrls.ExtractVideoIdLoose(youtubeUrl.value).value;
    var timeline := Store.SentimentTimeline(db, id);
    MapPermutation(timeline, Store.SentimentsOf(db, id), StoredEntry);
    var tl := AnalyzeVideo(youtubeUrl, db, stages, uuid, now).response.body.sentiment_timeline;
    forall i, j | 0 <= i < j < |tl| ensures tl[i].timestamp <= tl[j].timestamp {
      assert tl[i].timestamp == Store.Timestamp(timeline[i]);
      assert tl[j].timestamp == Store.Timestamp(timeline[j]);
    }
  }

  /** A valid request always has an id, so the route's "could not extract"
      answer is unreachable. */
  lemma {:induction false} ValidRequestHasId(youtubeUrl: Option<string>, db: Store.Db, stages: Stages, uuid: nat -> string, now: int)
    requires ValidateRequest(youtubeUrl).Valid?
    ensures var r := AnalyzeVideo(youtubeUrl, db, stages, uuid, now).response;
      !(r.Failure? && r.error == InvalidUrl)
  {
    VideoUrls.AnalyzeSchemaYieldsId(youtubeUrl.value);
  }

  /** A completed fresh run replaces the video's records: exactly one Video
      and one Summary for the id, exactly one Sentiment record per returned
      timeline entry and none from before, other videos untouched. */
  lemma {:induction false} FreshRunReplacesRecords(url: string, videoId: string, db: Store.Db, stages: Stages, uuid: nat -> string, now: int)
    requires var r := RunStages(url, videoId, db, stages, uuid, now); r.response.Analyzed?
    ensures var r := RunStages(url, videoId, db, stages, uuid, now);
      !r.response.body.cached && videoId in r.db.videos && videoId in r.db.summaries &&
      |Store.SentimentsOf(r.db, videoId)| == |r.response.body.sentiment_timeline| &&
      r.db.users == db.users &&
      forall other | other != videoId ::
        (other in r.db.videos <==> other in db.videos) &&
        (other in r.db.summaries <==> other in db.summaries) &&
        Store.SentimentsOf(r.db, other) == Store.SentimentsOf(db, other)
  {
    var t := stages.transcript(videoId).data.value;
    var s := stages.summary(TranscriptText(t.transcript)).data.value;
    var items := stages.sentiment(t.transcript).data.value.sentiments;
    var records := Records(videoId, items, uuid);
    PersistReplaces(db, FreshVideo(url, videoId, t, now), FreshSummary(videoId, s, uuid, now), records);
  }

  /** What a stored record keeps of a fresh timeline entry: no confidence,
      and the segment text trimmed by the schema's `trim` setter. */
  function AsStored(e: TimelineEntry): TimelineEntry {
    e.(text_segment := Trim(e.text_segment), confidence := None)
  }

  /** A fresh analysis is what the next request for the same URL gets back
      from the cache: the video's status is then `completed`, and a second
      request answers `cached` with the saved title and summary texts (as
      the `trim` setters store them), the same topics and creation time, and
      the same timeline entries in timestamp order, without their confidence. */
  lemma {:induction false} FreshThenCached(youtubeUrl: Option<string>, db: Store.Db, stages: Stages, uuid: nat -> string, now: int,
                                           stages2: Stages, uuid2: nat -> string, now2: int)
    requires ValidateRequest(youtubeUrl).Valid?
    requires var r := AnalyzeVideo(youtubeUrl, db, stages, uuid, now); r.response.Analyzed? && !r.response.body.cached
    ensures var r := AnalyzeVideo(youtubeUrl, db, stages, uuid, now);
      var id := r.response.body.video_id;
      GetStatus(r.db, id).StatusOk? && GetStatus(r.db, id).status.Completed?
    ensures var r := AnalyzeVideo(youtubeUrl, db, stages, uuid, now);
      var first := r.response.body;
      var again := AnalyzeVideo(youtubeUrl, r.db, stages2, uuid2, now2);
      again.db == r.db && again.calls == [] && again.response.Analyzed? &&
      again.response.body.cached && again.response.body.video_id == first.video_id &&
      again.response.body.title == Trim(first.title) &&
      again.response.body.summary_short == Trim(first.summary_short) &&
      again.response.body.summary_detailed == Trim(first.summary_detailed) &&
      again.response.body.topics == first.topics && again.response.body.created_at == first.created_at &&
      multiset(again.response.body.sentiment_timeline) == multiset(Map(first.sentiment_timeline, AsStored))
  {
    var url := youtubeUrl.value;
    var id := VideoUrls.ExtractVideoIdLoose(url).value;
    var t := stages.transcript(id).data.value;
    var s := stages.summary(TranscriptText(t.transcript)).data.value;
    var items := stages.sentiment(t.transcript).data.value.sentiments;
    var records := Records(id, items, uuid);
    var video, summary := FreshVideo(url, id, t, now), FreshSummary(id, s, uuid, now);
    var r := AnalyzeVideo(youtubeUrl, db, stages, uuid, now);
    assert r == RunStages(url, id, db, stages, uuid, now);
    PersistReplaces(db, video, summary, records);
    var saved := SaveAll(records).value;
    assert Store.SentimentsOf(r.db, id) == saved;
    CacheHitRunsNothing(youtubeUrl, r.db, stages2, uuid2, now2);
    var stored := Map(saved, StoredEntry);
    var expected := Map(Map(items, ItemEntry), AsStored);
    assert stored == expected by {
      forall i | 0 <= i < |items| ensures stored[i] == expected[i] {
        assert saved[i] == SaveSentiment(records[i]).value;
      }
    }
  }

  // ---------------------------------------------------------------------------
  // GET /status/:videoId

  datatype StatusResponse = BadStatusRequest | StatusOk(status: Store.Status)

  /** The id must match `^[a-zA-Z0-9_-]{11}$` before any lookup. */
  function GetStatus(db: Store.Db, videoId: string): (r: StatusResponse)
    ensures r == BadStatusRequest <==> !IsVideoId(videoId)
    ensures r.StatusOk? ==>
      (r.status == Store.NotFound <==> videoId !in db.videos) &&
      (r.status == Store.Processing <==> videoId in db.videos && videoId !in db.summaries) &&
      (r.status.Completed? <==> videoId in db.videos && videoId in db.summaries)
  {
    if !IsVideoId(videoId) then BadStatusRequest else StatusOk(Store.StatusOf(db, videoId))
  }
}
