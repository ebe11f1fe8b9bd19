/** The application's document store as one immutable value: Videos and
    Summaries keyed by their unique `video_id`, the Sentiment records in
    insertion order, and the users. Every route handler takes a store and
    returns the store it leaves behind; the queries below are the ones the
    handlers run. */
module Store {
  import opened Core
  import opened Models
  import Ranking

  datatype Db = Db(
    videos: map<string, VideoDoc>,
    summaries: map<string, SummaryDoc>,
    sentiments: seq<SentimentDoc>,
    users: seq<UserDoc>)

  /** The store every key of whose maps is the `video_id` of its document. */
  predicate WellKeyed(db: Db) {
    (forall k | k in db.videos :: db.videos[k].video_id == k) &&
    (forall k | k in db.summaries :: db.summaries[k].video_id == k)
  }

  function Timestamp(d: SentimentDoc): real { d.timestamp }
  function Score(d: SentimentDoc): real { d.sentiment_score }

  /** The records of one video, in store order. */
  function SentimentsOf(db: Db, videoId: string): (r: seq<SentimentDoc>)
    ensures forall i | 0 <= i < |r| :: r[i].video_id == videoId && r[i] in db.sentiments
    ensures forall i | 0 <= i < |db.sentiments| && db.sentiments[i].video_id == videoId :: db.sentiments[i] in r
  {
    Filter(db.sentiments, (d: SentimentDoc) => d.video_id == videoId)
  }

  /** `Sentiment.find({ video_id }).sort({ timestamp: 1 })`, also
      `findByVideoId`: the video's records by ascending timestamp. */
  function SentimentTimeline(db: Db, videoId: string): (r: seq<SentimentDoc>)
    ensures Ranking.SortedAsc(r, Timestamp)
    ensures multiset(r) == multiset(SentimentsOf(db, videoId))
  {
    Ranking.SortAsc(SentimentsOf(db, videoId), Timestamp)
  }

  /** `findBySentimentRange`: the video's records whose score lies in the
      closed range, by ascending timestamp. */
  function SentimentsInRange(db: Db, videoId: string, minScore: real, maxScore: real): (r: seq<SentimentDoc>)
    ensures Ranking.SortedAsc(r, Timestamp)
    ensures forall i | 0 <= i < |r| :: r[i].video_id == videoId && minScore <= r[i].sentiment_score <= maxScore
    ensures forall i | 0 <= i < |db.sentiments| ::
      (db.sentiments[i].video_id == videoId && minScore <= db.sentiments[i].sentiment_score <= maxScore) ==>
      db.sentiments[i] in r
  {
    var f := Filter(db.sentiments, (d: SentimentDoc) => d.video_id == videoId && minScore <= d.sentiment_score <= maxScore);
    var r := Ranking.SortAsc(f, Timestamp);
    Ranking.SortAscMembers(f, Timestamp);
    r
  }

  /** Both ends of the range are included. */
  lemma {:induction false} RangeIsInclusive(db: Db, videoId: string, d: SentimentDoc)
    requires d in db.sentiments && d.video_id == videoId
    ensures d in SentimentsInRange(db, videoId, d.sentiment_score, d.sentiment_score)
  {
  }

  /** `deleteMany({ video_id })` on the Sentiment collection. */
  function DeleteSentiments(sentiments: seq<SentimentDoc>, videoId: string): (r: seq<SentimentDoc>)
    ensures forall i | 0 <= i < |r| :: r[i].video_id != videoId && r[i] in sentiments
    ensures forall i | 0 <= i < |sentiments| && sentiments[i].video_id != videoId :: sentiments[i] in r
  {
    Filter(sentiments, (d: SentimentDoc) => d.video_id != videoId)
  }

  /** Removing a video's Video, Summary and every one of its Sentiments. */
  function DeleteVideoRecords(db: Db, videoId: string): (r: Db)
    ensures videoId !in r.videos && videoId !in r.summaries && |SentimentsOf(r, videoId)| == 0
    ensures r.users == db.users
  {
    var s := DeleteSentiments(db.sentiments, videoId);
    var r := Db(db.videos - {videoId}, db.summaries - {videoId}, s, db.users);
    assert forall i | 0 <= i < |s| :: s[i].video_id != videoId;
    FilterNoneMatch(s, videoId);
    r
  }

  lemma {:induction false} FilterNoneMatch(s: seq<SentimentDoc>, videoId: string)
    requires forall i | 0 <= i < |s| :: s[i].video_id != videoId
    ensures Filter(s, (d: SentimentDoc) => d.video_id == videoId) == []
  {
    if |s| > 0 {
      FilterNoneMatch(s[1..], videoId);
    }
  }

  /** Another video's records are exactly what they were before the delete. */
  lemma {:induction false} DeleteLeavesOtherVideos(db: Db, videoId: string, other: string)
    requires other != videoId
    ensures var r := DeleteVideoRecords(db, videoId);
      (other in r.videos <==> other in db.videos) &&
      (other in r.videos ==> r.videos[other] == db.videos[other]) &&
      (other in r.summaries <==> other in db.summaries) &&
      (other in r.summaries ==> r.summaries[other] == db.summaries[other]) &&
      SentimentsOf(r, other) == SentimentsOf(db, other)
  {
    FilterTwice(db.sentiments, videoId, other);
  }

  /** Keeping the records not of `a`, then those of `b != a`, keeps those of `b`. */
  lemma {:induction false} FilterTwice(s: seq<SentimentDoc>, a: string, b: string)
    requires a != b
    ensures Filter(DeleteSentiments(s, a), (d: SentimentDoc) => d.video_id == b) ==
            Filter(s, (d: SentimentDoc) => d.video_id == b)
  {
    if |s| > 0 {
      FilterTwice(s[1..], a, b);
      var p := (d: SentimentDoc) => d.video_id != a;
      if p(s[0]) {
        assert Filter(s, p) == [s[0]] + Filter(s[1..], p);
      } else {
        assert Filter(s, p) == Filter(s[1..], p);
      }
    }
  }

  /** `insertMany` of records for one video that has none stored: they
      become exactly that video's records. */
  lemma {:induction false} AppendedRecords(sentiments: seq<SentimentDoc>, docs: seq<SentimentDoc>, videoId: string)
    requires forall i | 0 <= i < |sentiments| :: sentiments[i].video_id != videoId
    requires forall i | 0 <= i < |docs| :: docs[i].video_id == videoId
    ensures Filter(sentiments + docs, (d: SentimentDoc) => d.video_id == videoId) == docs
  {
    var p := (d: SentimentDoc) => d.video_id == videoId;
    FilterAppend(sentiments, docs, p);
    FilterNoneMatch(sentiments, videoId);
  }

  /** The status route's three states. */
  datatype Status = NotFound | Processing | Completed(has_sentiments: bool)

  /** `GET /status/:videoId` on a well-formed id: no Video is `not_found`,
      a Video without a Summary is `processing`, both is `completed`
      whatever the Sentiment records. */
  function StatusOf(db: Db, videoId: string): (s: Status)
    ensures s == NotFound <==> videoId !in db.videos
    ensures s == Processing <==> videoId in db.videos && videoId !in db.summaries
    ensures s.Completed? ==> s.has_sentiments == (|SentimentsOf(db, videoId)| > 0)
  {
    if videoId !in db.videos then NotFound
    else if videoId !in db.summaries then Processing
    else Completed(|SentimentTimeline(db, videoId)| > 0)
  }

  // ---------------------------------------------------------------------------
  // Topic aggregations

  /** One group of a `$unwind: '$topics'`, `$group` aggregation: a topic and
      how many summaries list it. */
  datatype TopicCount = TopicCount(text: string, count: nat)

  function CountKey(t: TopicCount): real { t.count as real }

  /** `$sort: { count: -1 }` then `$limit: k`. */
  function MostFrequent(groups: seq<TopicCount>, k: nat): (r: seq<TopicCount>)
    ensures |r| <= k && |r| <= |groups|
    ensures Ranking.SortedDesc(r, CountKey)
    ensures forall i | 0 <= i < |r| :: r[i] in groups
  {
    var sorted := Ranking.SortDesc(groups, CountKey);
    var r := Take(sorted, k);
    Ranking.SortDescMembers(groups, CountKey);
    assert forall i | 0 <= i < |r| :: r[i] == sorted[i];
    r
  }

  /** A group left out means `k` were kept, none less frequent than it. */
  lemma {:induction false} MostFrequentDominates(groups: seq<TopicCount>, k: nat, g: TopicCount)
    requires g in groups && g !in MostFrequent(groups, k)
    ensures var r := MostFrequent(groups, k);
      |r| == k && forall i | 0 <= i < |r| :: r[i].count >= g.count
  {
    Ranking.TakeSortedDominates(groups, CountKey, k, g);
  }
}
