/** The video routes: the paginated listing, the details view with its
    statistics, the transcript and sentiment views, deletion, and the
    database overview. MongoDB's `find().sort({ created_at: -1 })` order is
    an input (`newestFirst`); the sentiment-label aggregation is not part of
    this model. */
module VideosRoute {
  import opened Core
  import opened Text
  import opened Models
  import Store
  import Paging

  // ---------------------------------------------------------------------------
  // GET /

  /** One listed video, enriched with its Summary if there is one. */
  datatype VideoEntry = VideoEntry(
    video_id: string, title: string, url: string,
    summary_short: Option<string>, summary_detailed: Option<string>, topics: seq<string>,
    transcript_length: nat, duration: real, created_at: int,
    has_summary: bool, has_sentiments: bool)

  /** `s || null` on a string. */
  function NonEmpty(s: string): (r: Option<string>)
    ensures r.Some? <==> |s| > 0
    ensures r.Some? ==> r.value == s
  {
    if |s| > 0 then Some(s) else None
  }

  function EntryOf(db: Store.Db, v: VideoDoc): (e: VideoEntry)
    ensures e.video_id == v.video_id
    ensures e.has_summary <==> v.video_id in db.summaries
    ensures e.transcript_length == |v.transcript| && e.duration == TotalDuration(v.transcript)
    ensures !e.has_summary ==> e.summary_short.None? && e.summary_detailed.None? && e.topics == []
    ensures !e.has_sentiments
  {
    if v.video_id in db.summaries then
      var s := db.summaries[v.video_id];
      VideoEntry(v.video_id, v.title, v.url, NonEmpty(s.summary_short), NonEmpty(s.summary_detailed), s.topics,
                 |v.transcript|, TotalDuration(v.transcript), v.created_at, true, false)
    else
      VideoEntry(v.video_id, v.title, v.url, None, None, [],
                 |v.transcript|, TotalDuration(v.transcript), v.created_at, false, false)
  }

  datatype ListResponse =
    | BadPagination
    | Listing(videos: seq<VideoEntry>, pagination: Paging.Pagination)

  /** `GET /?page=&limit=`, with the defaults applied before the bounds check. */
  function ListVideos(pageParam: Option<string>, limitParam: Option<string>, db: Store.Db, newestFirst: seq<VideoDoc>)
    : ListResponse
  {
    ListAt(Paging.ReadWindow(pageParam, limitParam), db, newestFirst)
  }

  /** The listing for the window read from the query: the page must be at
      least 1 and the limit 1 to 100, and the listing is the window
      `skip .. skip + limit` of the newest-first order, while `total` counts
      every stored Video. */
  function ListAt(w: Paging.Window, db: Store.Db, newestFirst: seq<VideoDoc>): (r: ListResponse)
    requires w.limit != 0 && w.skip == (w.page - 1) * w.limit
    ensures r.BadPagination? <==> !Paging.InBounds(w)
    ensures r.Listing? ==>
      |r.videos| <= w.limit && |r.videos| == Paging.PageLength(|newestFirst|, w.skip, w.limit) &&
      r.pagination == Paging.PaginationOf(w, |db.videos|) &&
      forall i | 0 <= i < |r.videos| :: 0 <= w.skip + i < |newestFirst| && r.videos[i] == EntryOf(db, newestFirst[w.skip + i])
  {
    if !Paging.InBounds(w) then BadPagination
    else
      Listing(Entries(db, Window(w, newestFirst)), Paging.PaginationOf(w, |db.videos|))
  }

  /** The listed entries of a page of videos, in the page's order. */
  function Entries(db: Store.Db, page: seq<VideoDoc>): (es: seq<VideoEntry>)
    ensures |es| == |page|
    ensures forall i | 0 <= i < |page| :: es[i] == EntryOf(db, page[i])
  {
    seq(|page|, i requires 0 <= i < |page| => EntryOf(db, page[i]))
  }

  /** The videos the window selects from the newest-first order. */
  function Window(w: Paging.Window, newestFirst: seq<VideoDoc>): (r: seq<VideoDoc>)
    requires Paging.InBounds(w) && w.skip == (w.page - 1) * w.limit
    ensures |r| <= w.limit && w.skip >= 0 && |r| == Paging.PageLength(|newestFirst|, w.skip, w.limit)
    ensures forall i | 0 <= i < |r| :: w.skip + i < |newestFirst| && r[i] == newestFirst[w.skip + i]
  {
    Paging.MulMono(0, w.page - 1, w.limit);
    Paging.MongoPage(newestFirst, w.skip, w.limit).value
  }

  /** Paging through the listing shows every stored video exactly once:
      the video at position `k` of the newest-first order is on the page
      `k / limit + 1`, at offset `k - skip`, and on no other page. */
  lemma {:induction false} ListingShowsEachVideoOnce(page: int, limit: int, k: nat, db: Store.Db, newestFirst: seq<VideoDoc>)
    requires page >= 1 && 1 <= limit <= 100 && k < |newestFirst|
    ensures var w := Paging.Window(page, limit, (page - 1) * limit); var r := ListAt(w, db, newestFirst);
      r.Listing? &&
      (w.skip <= k < w.skip + |r.videos| <==> page == k / limit + 1) &&
      (w.skip <= k < w.skip + |r.videos| ==> r.videos[k - w.skip] == EntryOf(db, newestFirst[k]))
  {
    Paging.ItemOnOnePage(newestFirst, limit, page, k);
  }

  /** Without parameters the first twenty videos are listed, and there is a
      next page exactly when more than twenty are stored. */
  lemma {:induction false} DefaultListing(db: Store.Db, newestFirst: seq<VideoDoc>)
    ensures var r := ListVideos(None, None, db, newestFirst);
      r.Listing? && |r.videos| <= 20 && r.pagination.page == 1 && r.pagination.limit == 20 &&
      !r.pagination.hasPrev && (r.pagination.hasNext <==> |db.videos| > 20) &&
      (r.pagination.hasNext <==> r.pagination.totalPages > 1)
  {
    Paging.PaginationCounts(Paging.Window(1, 20, 0), |db.videos|);
  }

  // ---------------------------------------------------------------------------
  // GET /:videoId

  /** Positive above 0.1, negative below -0.1, neutral in between. */
  predicate IsPositive(d: SentimentDoc) { d.sentiment_score > 0.1 }
  predicate IsNegative(d: SentimentDoc) { d.sentiment_score < -0.1 }
  predicate IsNeutral(d: SentimentDoc) { -0.1 <= d.sentiment_score <= 0.1 }

  function SumScores(ss: seq<SentimentDoc>): real
  {
    if |ss| == 0 then 0.0 else SumScores(ss[..|ss| - 1]) + ss[|ss| - 1].sentiment_score
  }

  lemma {:induction false} SumScoresAppend(a: seq<SentimentDoc>, b: seq<SentimentDoc>)
    ensures SumScores(a + b) == SumScores(a) + SumScores(b)
    decreases |b|
  {
    if |b| == 0 {
      assert a + b == a;
    } else {
      assert (a + b)[..|a + b| - 1] == a + b[..|b| - 1];
      SumScoresAppend(a, b[..|b| - 1]);
    }
  }

  /** The total score depends only on which records there are, not on their order. */
  lemma {:induction false} SumScoresPermutation(xs: seq<SentimentDoc>, ys: seq<SentimentDoc>)
    requires multiset(xs) == multiset(ys)
    ensures SumScores(xs) == SumScores(ys)
    decreases |xs|
  {
    if |xs| == 0 {
      assert |ys| == |multiset(ys)| == 0;
    } else {
      var j := PickOut(xs, ys);
      var x, a, b := xs[0], ys[..j], ys[j + 1..];
      SumScoresPermutation(xs[1..], a + b);
      SumScoresAppend([x], xs[1..]);
      SumScoresAppend(a + [x], b);
      SumScoresAppend(a, [x]);
      SumScoresAppend(a, b);
      assert [x][..0] == [];
    }
  }

  /** The percentages and the average score of a video's records. */
  datatype SentimentStats = SentimentStats(positive: int, neutral: int, negative: int, averageScore: real)

  /** Counts of each category, the neutral one by subtraction as in the route. */
  datatype Counts = Counts(positive: nat, neutral: int, negative: nat)

  function CountsOf(ss: seq<SentimentDoc>): Counts
  {
    var p := Count(ss, IsPositive);
    var n := Count(ss, IsNegative);
    Counts(p, |ss| - p - n, n)
  }

  /** The neutral count the route computes by subtraction is the number of
      records scored within [-0.1, 0.1], and the three categories are those
      of each record's `getSentimentCategory`. */
  lemma {:induction false} NeutralBySubtraction(ss: seq<SentimentDoc>)
    ensures CountsOf(ss).neutral == Count(ss, IsNeutral)
    ensures CountsOf(ss).positive == Count(ss, (d: SentimentDoc) => SentimentCategory(d) == Positive)
    ensures CountsOf(ss).negative == Count(ss, (d: SentimentDoc) => SentimentCategory(d) == Negative)
  {
    CountPartition3(ss, IsPositive, IsNeutral, IsNegative);
    FilterSame(ss, IsPositive, (d: SentimentDoc) => SentimentCategory(d) == Positive);
    FilterSame(ss, IsNegative, (d: SentimentDoc) => SentimentCategory(d) == Negative);
  }

  /** The route's statistics: all zero without records, otherwise rounded
      percentages of each category and the average rounded to three places. */
  function StatsOf(ss: seq<SentimentDoc>): (s: SentimentStats)
    ensures |ss| == 0 ==> s == SentimentStats(0, 0, 0, 0.0)
    ensures 0 <= s.positive <= 100 && 0 <= s.negative <= 100 && 0 <= s.neutral <= 100
    ensures |ss| > 0 && Count(ss, IsPositive) == |ss| ==> s.positive == 100 && s.neutral == 0 && s.negative == 0
  {
    if |ss| == 0 then SentimentStats(0, 0, 0, 0.0)
    else
      var c := CountsOf(ss);
      var n := |ss| as real;
      NeutralBySubtraction(ss);
      Percentage(c.positive, |ss|);
      Percentage(c.negative, |ss|);
      Percentage(c.neutral, |ss|);
      SentimentStats(
        Paging.Round(c.positive as real / n * 100.0),
        Paging.Round(c.neutral as real / n * 100.0),
        Paging.Round(c.negative as real / n * 100.0),
        Paging.Round(SumScores(ss) / n * 1000.0) as real / 1000.0)
  }

  /** The statistics of a video's records do not depend on the order they
      are read in. */
  lemma {:induction false} StatsPermutation(xs: seq<SentimentDoc>, ys: seq<SentimentDoc>)
    requires multiset(xs) == multiset(ys)
    ensures StatsOf(xs) == StatsOf(ys)
  {
    assert |xs| == |multiset(xs)| == |multiset(ys)| == |ys|;
    CountPermutation(xs, ys, IsPositive);
    CountPermutation(xs, ys, IsNegative);
    SumScoresPermutation(xs, ys);
  }

  /** `Math.round(part / whole * 100)` lies in 0..100, and is 0 or 100 at the ends. */
  lemma {:induction false} Percentage(part: nat, whole: nat)
    requires whole > 0
    ensures 0 <= Paging.Round(part as real / whole as real * 100.0)
    ensures part <= whole ==> Paging.Round(part as real / whole as real * 100.0) <= 100
    ensures part == 0 ==> Paging.Round(part as real / whole as real * 100.0) == 0
    ensures part == whole ==> Paging.Round(part as real / whole as real * 100.0) == 100
  {
    var x := part as real / whole as real;
    assert x * whole as real == part as real;
    assert 0.0 <= x;
    if part == whole {
      assert x == 1.0;
      assert Paging.Round(x * 100.0) == (100.5).Floor;
    }
    if part <= whole {
      Paging.RealDivBounds(x, part as real, -1.0, 1.0, whole as real);
    }
  }

  function WordTotal(transcript: seq<Segment>): nat
  {
    if |transcript| == 0 then 0 else WordTotal(transcript[..|transcript| - 1]) + |SplitSpaces(transcript[|transcript| - 1].text)|
  }

  /** The word count is at least the number of segments, since each
      segment's text splits into at least one part. */
  lemma {:induction false} WordTotalAtLeastSegments(transcript: seq<Segment>)
    ensures WordTotal(transcript) >= |transcript|
  {
    if |transcript| > 0 {
      WordTotalAtLeastSegments(transcript[..|transcript| - 1]);
    }
  }

  datatype TimelineEntry = TimelineEntry(timestamp: real, sentiment_label: string, sentiment_score: real, text_segment: string)

  function TimelineOf(d: SentimentDoc): TimelineEntry {
    TimelineEntry(d.timestamp, d.sentiment_label, d.sentiment_score, d.text_segment)
  }

  /** A timeline is in order of ascending timestamp. */
  predicate ByTimestamp(timeline: seq<TimelineEntry>) {
    forall i, j | 0 <= i < j < |timeline| :: timeline[i].timestamp <= timeline[j].timestamp
  }

  /** The timeline both views return: every stored record of the video,
      each exactly once, as a timeline entry, by ascending timestamp; its
      statistics are those of the stored records in any order. */
  lemma {:induction false} TimelineOfStore(db: Store.Db, videoId: string)
    ensures var ss := Store.SentimentTimeline(db, videoId); var timeline := Map(ss, TimelineOf);
      ByTimestamp(timeline) &&
      multiset(timeline) == multiset(Map(Store.SentimentsOf(db, videoId), TimelineOf)) &&
      |ss| == |Store.SentimentsOf(db, videoId)| &&
      StatsOf(ss) == StatsOf(Store.SentimentsOf(db, videoId))
  {
    var ss := Store.SentimentTimeline(db, videoId);
    var timeline := Map(ss, TimelineOf);
    assert forall i | 0 <= i < |timeline| :: timeline[i].timestamp == Store.Timestamp(ss[i]);
    MapPermutation(ss, Store.SentimentsOf(db, videoId), TimelineOf);
    StatsPermutation(ss, Store.SentimentsOf(db, videoId));
  }

  datatype Statistics = Statistics(
    duration_seconds: int, transcript_segments: nat, word_count: nat, sentiment_segments: nat, sentiment: SentimentStats)

  datatype Details = Details(
    video_id: string, title: string, url: string,
    summary_short: Option<string>, summary_detailed: Option<string>, topics: seq<string>,
    transcript: seq<Segment>, sentiment_timeline: seq<TimelineEntry>, statistics: Statistics,
    created_at: int, summary_created_at: Option<int>)

  datatype DetailsResponse = BadVideoId | VideoNotFound | VideoDetails(details: Details)

  /** `GET /:videoId`. */
  function GetDetails(db: Store.Db, videoId: string): (r: DetailsResponse)
    ensures r == BadVideoId <==> !IsVideoId(videoId)
    ensures r == VideoNotFound <==> IsVideoId(videoId) && videoId !in db.videos
    ensures r.VideoDetails? ==>
      var v := db.videos[videoId]; var d := r.details;
      d.video_id == videoId && d.title == v.title && d.url == v.url &&
      d.transcript == v.transcript && d.created_at == v.created_at &&
      d.statistics.duration_seconds == Paging.Round(TotalDuration(v.transcript)) &&
      d.statistics.transcript_segments == |v.transcript| &&
      d.statistics.word_count == WordTotal(v.transcript) &&
      d.statistics.word_count >= |v.transcript| &&
      d.statistics.sentiment_segments == |d.sentiment_timeline| == |Store.SentimentsOf(db, videoId)| &&
      d.statistics.sentiment == StatsOf(Store.SentimentsOf(db, videoId)) &&
      ByTimestamp(d.sentiment_timeline) &&
      multiset(d.sentiment_timeline) == multiset(Map(Store.SentimentsOf(db, videoId), TimelineOf))
    ensures r.VideoDetails? && videoId in db.summaries ==>
      var s := db.summaries[videoId]; var d := r.details;
      d.summary_short == NonEmpty(s.summary_short) && d.summary_detailed == NonEmpty(s.summary_detailed) &&
      d.topics == s.topics && d.summary_created_at == Some(s.created_at)
    ensures r.VideoDetails? && videoId !in db.summaries ==>
      var d := r.details;
      d.summary_short.None? && d.summary_detailed.None? && d.topics == [] && d.summary_created_at.None?
  {
    if !IsVideoId(videoId) then BadVideoId
    else if videoId !in db.videos then VideoNotFound
    else
      var v := db.videos[videoId];
      var ss := Store.SentimentTimeline(db, videoId);
      var timeline := Map(ss, TimelineOf);
      TimelineOfStore(db, videoId);
      WordTotalAtLeastSegments(v.transcript);
      var stats := Statistics(Paging.Round(TotalDuration(v.transcript)), |v.transcript|, WordTotal(v.transcript),
                              |ss|, StatsOf(ss));
      var hasSummary := videoId in db.summaries;
      VideoDetails(Details(
        videoId, v.title, v.url,
        if hasSummary then NonEmpty(db.summaries[videoId].summary_short) else None,
        if hasSummary then NonEmpty(db.summaries[videoId].summary_detailed) else None,
        if hasSummary then db.summaries[videoId].topics else [],
        v.transcript, timeline, stats, v.created_at,
        if hasSummary then Some(db.summaries[videoId].created_at) else None))
  }

  // ---------------------------------------------------------------------------
  // GET /:videoId/transcript and GET /:videoId/sentiment

  datatype TranscriptResponse =
    | TranscriptBadId
    | TranscriptNotFound
    | TranscriptView(video_id: string, title: string, transcript: seq<Segment>, total_segments: nat, total_duration: real)

  function GetTranscript(db: Store.Db, videoId: string): (r: TranscriptResponse)
    ensures r == TranscriptBadId <==> !IsVideoId(videoId)
    ensures r == TranscriptNotFound <==> IsVideoId(videoId) && videoId !in db.videos
    ensures r.TranscriptView? ==>
      r.transcript == db.videos[videoId].transcript && r.total_segments == |r.transcript| &&
      r.total_duration == TotalDuration(r.transcript)
  {
    if !IsVideoId(videoId) then TranscriptBadId
    else if videoId !in db.videos then TranscriptNotFound
    else
      var v := db.videos[videoId];
      TranscriptView(videoId, v.title, v.transcript, |v.transcript|, TotalDuration(v.transcript))
  }

  datatype SentimentResponse =
    | SentimentBadId
    | SentimentNotFound
    | SentimentView(video_id: string, title: string, sentiment_timeline: seq<TimelineEntry>, total_segments: nat)

  /** The per-label aggregation the route also returns is not modelled. */
  function GetSentiment(db: Store.Db, videoId: string): (r: SentimentResponse)
    ensures r == SentimentBadId <==> !IsVideoId(videoId)
    ensures r == SentimentNotFound <==> IsVideoId(videoId) && videoId !in db.videos
    ensures r.SentimentView? ==>
      r.video_id == videoId && r.title == db.videos[videoId].title &&
      r.total_segments == |r.sentiment_timeline| == |Store.SentimentsOf(db, videoId)| &&
      ByTimestamp(r.sentiment_timeline) &&
      multiset(r.sentiment_timeline) == multiset(Map(Store.SentimentsOf(db, videoId), TimelineOf))
  {
    if !IsVideoId(videoId) then SentimentBadId
    else if videoId !in db.videos then SentimentNotFound
    else
      var ss := Store.SentimentTimeline(db, videoId);
      TimelineOfStore(db, videoId);
      SentimentView(videoId, db.videos[videoId].title, Map(ss, TimelineOf), |ss|)
  }

  /** The details view and the sentiment view of a stored video show the
      same timeline, and the details count it as its sentiment segments. */
  lemma {:induction false} ViewsShareTimeline(db: Store.Db, videoId: string)
    requires IsVideoId(videoId) && videoId in db.videos
    ensures GetDetails(db, videoId).VideoDetails? && GetSentiment(db, videoId).SentimentView?
    ensures GetDetails(db, videoId).details.sentiment_timeline == GetSentiment(db, videoId).sentiment_timeline
    ensures GetDetails(db, videoId).details.statistics.sentiment_segments == GetSentiment(db, videoId).total_segments
  {
  }

  // ---------------------------------------------------------------------------
  // DELETE /:videoId

  datatype DeleteResponse = DeleteBadId | DeleteNotFound | Deleted(video_id: string, title: string)

  /** `DELETE /:videoId`: a well-formed id of a stored Video removes that
      Video, its Summary and all its Sentiment records; otherwise nothing
      changes. */
  function DeleteVideo(db: Store.Db, videoId: string): (r: (DeleteResponse, Store.Db))
    ensures r.0 == DeleteBadId <==> !IsVideoId(videoId)
    ensures r.0 == DeleteNotFound <==> IsVideoId(videoId) && videoId !in db.videos
    ensures !r.0.Deleted? ==> r.1 == db
    ensures r.0.Deleted? ==> r.1 == Store.DeleteVideoRecords(db, videoId)
  {
    if !IsVideoId(videoId) then (DeleteBadId, db)
    else if videoId !in db.videos then (DeleteNotFound, db)
    else (Deleted(videoId, db.videos[videoId].title), Store.DeleteVideoRecords(db, videoId))
  }

  /** After a delete the video is gone in every collection, and a second
      delete of the same id answers 404 and changes nothing. */
  lemma {:induction false} DeleteTwice(db: Store.Db, videoId: string)
    requires DeleteVideo(db, videoId).0.Deleted?
    ensures var after := DeleteVideo(db, videoId).1;
      videoId !in after.videos && videoId !in after.summaries && Store.SentimentsOf(after, videoId) == [] &&
      DeleteVideo(after, videoId) == (DeleteNotFound, after)
  {
  }

  // ---------------------------------------------------------------------------
  // GET /stats/overview

  datatype Overview = Overview(
    total_videos: nat, total_summaries: nat, total_sentiment_segments: nat, completion_rate: int,
    recent_videos: seq<VideoDoc>, popular_topics: seq<Store.TopicCount>)

  /** The share of Videos that have a Summary, as a rounded percentage; 0
      without Videos. */
  function CompletionRate(videos: nat, summaries: nat): (r: int)
    ensures videos == 0 ==> r == 0
    ensures videos > 0 && summaries <= videos ==> 0 <= r <= 100
    ensures videos > 0 && summaries == videos ==> r == 100
  {
    if videos > 0 then
      Percentage(summaries, videos);
      Paging.Round(summaries as real / videos as real * 100.0)
    else 0
  }

  /** `GET /stats/overview`: collection sizes, the completion rate, the five
      newest videos and the ten most used topics. `topicGroups` is the
      topic aggregation up to its sort stage. */
  function StatsOverview(db: Store.Db, newestFirst: seq<VideoDoc>, topicGroups: seq<Store.TopicCount>): (r: Overview)
    ensures r.total_videos == |db.videos| && r.total_summaries == |db.summaries| &&
      r.total_sentiment_segments == |db.sentiments|
    ensures r.recent_videos <= newestFirst && |r.recent_videos| == Min(5, |newestFirst|)
    ensures |r.popular_topics| <= 10
  {
    Overview(|db.videos|, |db.summaries|, |db.sentiments|, CompletionRate(|db.videos|, |db.summaries|),
             Take(newestFirst, 5), Store.MostFrequent(topicGroups, 10))
  }

  /** When every Summary belongs to a stored Video the completion rate is a
      percentage, and it is 100 exactly when every Video has its Summary. */
  lemma {:induction false} CompletionRateIsPercentage(db: Store.Db)
    requires db.summaries.Keys <= db.videos.Keys && |db.videos| > 0
    ensures var r := CompletionRate(|db.videos|, |db.summaries|);
      0 <= r <= 100 && (db.summaries.Keys == db.videos.Keys ==> r == 100)
  {
    SubsetCard(db.summaries.Keys, db.videos.Keys);
  }

  lemma {:induction false} SubsetCard(a: set<string>, b: set<string>)
    requires a <= b
    ensures |a| <= |b|
  {
    assert b == a + (b - a);
  }
}
