/** The search routes: request validation, running the semantic-search
    script and mapping how it ended, the text-search fallback with its
    merge, dedup, sort and cut, the lookup-and-format step shared by both
    routes, the similar-videos route and the topic suggestions. MongoDB's
    scored text search and the topic aggregation are oracles. */
module SearchRoute {
  import opened Core
  import opened Text
  import opened Models
  import Ranking
  import Store
  import PythonBridge
  import SemanticSearch

  // ---------------------------------------------------------------------------
  // Request validation

  /** The request body: `limit` is any JSON number when present. */
  datatype SearchRequest = SearchRequest(query: Option<string>, limit: Option<real>)

  datatype SearchValidation = SearchValid(query: string, limit: int) | SearchInvalid(message: string)

  predicate IsInteger(x: real) { x.Floor as real == x }

  const DefaultLimit := 10
  const MaxQueryLength := 500
  /** JavaScript's `Number.MAX_SAFE_INTEGER`, 2^53 - 1. */
  const MaxSafeInteger: real := 9007199254740991.0
  const UnsafeLimitMessage := "\"limit\" must be a safe number"

  /** What the query's rules accept. */
  predicate QueryAccepted(q: Option<string>) {
    q.Some? && 0 < |q.value| && Utf16Length(q.value) <= MaxQueryLength
  }

  /** The schema checks `query` first (required, non-empty, at most 500
      characters), then `limit`: the number type's own check refuses a
      magnitude beyond 2^53 - 1 before the integer, minimum and maximum rules
      run (an integer from 1 to 50, default 10). The first rule that fails
      is reported. */
  function ValidateSearch(req: SearchRequest): (r: SearchValidation)
    ensures r.SearchValid? <==>
      QueryAccepted(req.query) &&
      (req.limit.None? || (IsInteger(req.limit.value) && 1.0 <= req.limit.value <= 50.0))
    ensures (QueryAccepted(req.query) && req.limit.Some? &&
             (req.limit.value > MaxSafeInteger || req.limit.value < -MaxSafeInteger)) ==>
      r == SearchInvalid(UnsafeLimitMessage)
    ensures r.SearchValid? ==> r.query == req.query.value && 1 <= r.limit <= 50
    ensures r.SearchValid? && req.limit.None? ==> r.limit == DefaultLimit
    ensures r.SearchValid? && req.limit.Some? ==> r.limit as real == req.limit.value
  {
    match req.query
    case None => SearchInvalid("Search query is required")
    case Some(q) =>
      if |q| == 0 then SearchInvalid("\"query\" is not allowed to be empty")
      else if Utf16Length(q) > MaxQueryLength then SearchInvalid("Search query is too long (max 500 characters)")
      else match req.limit
        case None => SearchValid(q, DefaultLimit)
        case Some(x) =>
          if x > MaxSafeInteger || x < -MaxSafeInteger then SearchInvalid(UnsafeLimitMessage)
          else if !IsInteger(x) then SearchInvalid("\"limit\" must be an integer")
          else if x < 1.0 then SearchInvalid("Limit must be at least 1")
          else if x > 50.0 then SearchInvalid("Limit cannot exceed 50")
          else SearchValid(q, x.Floor)
  }

  // ---------------------------------------------------------------------------
  // Running the script

  /** How the search process ended: closed with an exit code and a signal
      (a signal is how the spawn timeout kills it), or failed to start. */
  datatype SearchProcess =
    | Exited(code: Option<int>, signal: Option<string>, stdout: string, stderr: string)
    | SpawnFailed(message: string)

  datatype Settled<J> = Resolved(value: J) | Rejected(message: string)

  const SearchTimeoutMs := 120000
  const TimedOut := "Semantic search timed out - consider optimizing or increasing timeout"

  /** The route passes the query and the decimal limit as the script's two arguments. */
  function SearchInvocation(query: string, limit: int): PythonBridge.Invocation {
    PythonBridge.Invocation("semantic_search.py", [query, IntToString(limit)], SearchTimeoutMs)
  }

  /** `executeSemanticSearch`: a SIGTERM is always the timeout, whatever the
      exit code; otherwise only exit 0 with parseable output resolves. */
  function ExecuteSemanticSearch(p: SearchProcess, parse: string -> PythonBridge.Parse<SemanticSearch.SearchJson>)
    : (r: Settled<SemanticSearch.SearchJson>)
    ensures r.Resolved? <==>
      p.Exited? && p.signal != Some("SIGTERM") && p.code == Some(0) && parse(p.stdout).Parsed?
    ensures r.Resolved? ==> r.value == parse(p.stdout).value
    ensures p.Exited? && p.signal == Some("SIGTERM") ==> r == Rejected(TimedOut)
  {
    match p
    case Exited(code, signal, out, err) =>
      if signal == Some("SIGTERM") then Rejected(TimedOut)
      else if code == Some(0) then
        match parse(out)
        case Parsed(v) => Resolved(v)
        case ParseFailed(why) => Rejected("Failed to parse semantic search output: " + why)
      else Rejected("Semantic search failed with code " + PythonBridge.CodeText(code) + ": " + err)
    case SpawnFailed(m) => Rejected("Failed to execute semantic search: " + m)
  }

  /** `result.success ? result.results || [] : []`, and `[]` on a rejection. */
  function SemanticResults(s: Settled<SemanticSearch.SearchJson>): (r: seq<SemanticSearch.Match>)
    ensures |r| > 0 ==> s.Resolved? && s.value.SearchOk? && r == s.value.results
  {
    if s.Resolved? && s.value.SearchOk? then s.value.results else []
  }

  /** A validated request's arguments pass the script's own argument check,
      so the script runs the search it was asked for. */
  lemma {:induction false} ValidatedRequestReachesSearch(req: SearchRequest, initError: Option<string>, collection: bool,
                                      collectionSize: nat, nearest: (string, int) -> SemanticSearch.QueryCall)
    requires ValidateSearch(req).SearchValid?
    ensures var v := ValidateSearch(req);
      SearchInvocation(v.query, v.limit).timeoutMs == 120000 &&
      SemanticSearch.ScriptMain(SearchInvocation(v.query, v.limit).args, None, true, collectionSize, nearest).output ==
        SemanticSearch.Result(SemanticSearch.Search(v.query, v.limit, true, collectionSize, nearest))
  {
    var v := ValidateSearch(req);
    SemanticSearch.MainAcceptsServerLimits(v.query, v.limit, collectionSize, nearest);
  }

  // ---------------------------------------------------------------------------
  // Candidates, the text fallback and formatting

  /** A video id with the score it was ranked by. */
  datatype Candidate = Candidate(video_id: string, score: real)

  function CandidateId(c: Candidate): string { c.video_id }
  function CandidateScore(c: Candidate): real { c.score }

  /** A document returned by MongoDB's `$text` search, with its `textScore`. */
  datatype TextHit = TextHit(video_id: string, score: Option<real>)

  /** `x || fallback` on a number: `undefined` and `0` give the fallback. */
  function NumberOr(x: Option<real>, fallback: real): (r: real)
    ensures x.Some? && x.value != 0.0 ==> r == x.value
    ensures x.None? || x.value == 0.0 ==> r == fallback
  {
    if x.Some? && x.value != 0.0 then x.value else fallback
  }

  function SummaryCandidate(h: TextHit): Candidate { Candidate(h.video_id, NumberOr(h.score, 0.5)) }
  function TitleCandidate(h: TextHit): Candidate { Candidate(h.video_id, NumberOr(h.score, 0.3)) }

  /** Summary hits (default score 0.5) followed by title hits (default 0.3). */
  function Merged(summaryHits: seq<TextHit>, titleHits: seq<TextHit>): (r: seq<Candidate>)
    ensures |r| == |summaryHits| + |titleHits|
    ensures forall i | 0 <= i < |summaryHits| :: r[i] == SummaryCandidate(summaryHits[i])
    ensures forall i | 0 <= i < |titleHits| :: r[|summaryHits| + i] == TitleCandidate(titleHits[i])
  {
    Map(summaryHits, SummaryCandidate) + Map(titleHits, TitleCandidate)
  }

  /** The text fallback: merge, keep the best-scoring entry per video (a
      later duplicate wins only with a strictly higher score), sort by
      descending score, cut to `limit`. */
  function Fallback(summaryHits: seq<TextHit>, titleHits: seq<TextHit>, limit: nat): (r: seq<Candidate>)
    ensures |r| <= limit
    ensures Ranking.SortedDesc(r, CandidateScore) && Ranking.DistinctIds(r, CandidateId)
    ensures forall i | 0 <= i < |r| :: r[i] in Merged(summaryHits, titleHits)
  {
    var all := Merged(summaryHits, titleHits);
    var best := Ranking.DedupBest(all, CandidateId, CandidateScore);
    var sorted := Ranking.SortDesc(best, CandidateScore);
    Ranking.SortPreservesDistinctIds(best, CandidateScore, CandidateId);
    var r := Take(sorted, limit);
    Ranking.PrefixKeepsOrder(sorted, r, CandidateScore, CandidateId);
    Ranking.SortDescMembers(best, CandidateScore);
    forall i | 0 <= i < |r| ensures r[i] in all {
      assert r[i] == sorted[i] && sorted[i] in best;
    }
    r
  }

  /** Sorting the per-video best entries and cutting them to `limit`. */
  function TopOf(all: seq<Candidate>, limit: nat): seq<Candidate> {
    Take(Ranking.SortDesc(Ranking.DedupBest(all, CandidateId, CandidateScore), CandidateScore), limit)
  }

  lemma {:induction false} FallbackIsTopOf(summaryHits: seq<TextHit>, titleHits: seq<TextHit>, limit: nat)
    ensures Fallback(summaryHits, titleHits, limit) == TopOf(Merged(summaryHits, titleHits), limit)
  {
  }

  /** No merged hit outscores the kept entry of its own video. */
  lemma {:induction false} FallbackKeepsBest(summaryHits: seq<TextHit>, titleHits: seq<TextHit>, limit: nat, i: nat, j: nat)
    requires i < |Merged(summaryHits, titleHits)| && j < |Fallback(summaryHits, titleHits, limit)|
    requires Merged(summaryHits, titleHits)[i].video_id == Fallback(summaryHits, titleHits, limit)[j].video_id
    ensures Merged(summaryHits, titleHits)[i].score <= Fallback(summaryHits, titleHits, limit)[j].score
  {
    var all := Merged(summaryHits, titleHits);
    FallbackIsTopOf(summaryHits, titleHits, limit);
    TopKeepsBest(all, limit, i, j);
  }

  lemma {:induction false} TopKeepsBest(all: seq<Candidate>, limit: nat, i: nat, j: nat)
    requires i < |all| && j < |TopOf(all, limit)| && all[i].video_id == TopOf(all, limit)[j].video_id
    ensures all[i].score <= TopOf(all, limit)[j].score
  {
    var s := Ranking.SortDesc(Ranking.DedupBest(all, CandidateId, CandidateScore), CandidateScore);
    assert TopOf(all, limit)[j] == s[j];
    Ranking.SortedDedupKeepsMaximum(all, CandidateId, CandidateScore, i, j);
  }

  /** A merged video missing from the fallback means `limit` videos were
      kept, each scoring at least as high: the fallback is the top `limit`. */
  lemma {:induction false} FallbackIsTopK(summaryHits: seq<TextHit>, titleHits: seq<TextHit>, limit: nat, i: nat)
    requires i < |Merged(summaryHits, titleHits)|
    requires forall j | 0 <= j < |Fallback(summaryHits, titleHits, limit)| ::
      Fallback(summaryHits, titleHits, limit)[j].video_id != Merged(summaryHits, titleHits)[i].video_id
    ensures |Fallback(summaryHits, titleHits, limit)| == limit
    ensures forall j | 0 <= j < limit ::
      Fallback(summaryHits, titleHits, limit)[j].score >= Merged(summaryHits, titleHits)[i].score
  {
    FallbackIsTopOf(summaryHits, titleHits, limit);
    TopDominates(Merged(summaryHits, titleHits), limit, i);
  }

  lemma {:induction false} TopDominates(all: seq<Candidate>, limit: nat, i: nat)
    requires i < |all|
    requires forall j | 0 <= j < |TopOf(all, limit)| :: TopOf(all, limit)[j].video_id != all[i].video_id
    ensures |TopOf(all, limit)| == limit
    ensures forall j | 0 <= j < limit :: TopOf(all, limit)[j].score >= all[i].score
  {
    var t := TopOf(all, limit);
    assert forall j | 0 <= j < |t| :: CandidateId(t[j]) != CandidateId(all[i]);
    Ranking.TakeDedupDominates(all, CandidateId, CandidateScore, limit, i);
    assert forall j | 0 <= j < limit :: CandidateScore(t[j]) >= CandidateScore(all[i]);
  }

  /** One entry of the response. */
  datatype Formatted = Formatted(
    video_id: string, title: string, similarity_score: real, url: string,
    summary_short: string, topics: seq<string>, created_at: int)

  function FormattedScore(f: Formatted): real { f.similarity_score }

  /** Both a Video and a Summary are stored for the id. */
  predicate Analyzed(db: Store.Db, id: string) { id in db.videos && id in db.summaries }

  /** The candidates whose video has both a Video and a Summary, in order. */
  function Kept(db: Store.Db, cands: seq<Candidate>): (k: seq<Candidate>)
    ensures |k| <= |cands|
    ensures forall i | 0 <= i < |k| :: k[i] in cands && Analyzed(db, k[i].video_id)
    ensures forall j | 0 <= j < |cands| && Analyzed(db, cands[j].video_id) :: cands[j] in k
  {
    Filter(cands, (c: Candidate) => Analyzed(db, c.video_id))
  }

  /** One formatted entry; a zero score is replaced by `zeroAs`
      (JavaScript's `score || zeroAs`). */
  function Entry(db: Store.Db, c: Candidate, zeroAs: real): (f: Formatted)
    requires Analyzed(db, c.video_id)
    ensures f.video_id == c.video_id
    ensures f.similarity_score == if c.score != 0.0 then c.score else zeroAs
  {
    var v := db.videos[c.video_id];
    var s := db.summaries[c.video_id];
    Formatted(c.video_id, v.title, if c.score != 0.0 then c.score else zeroAs, v.url,
              s.summary_short, s.topics, s.created_at)
  }

  /** The per-result lookup: candidates whose video lacks a Video or a
      Summary are dropped, the others formatted in order. */
  function FormatAll(db: Store.Db, cands: seq<Candidate>, zeroAs: real): (r: seq<Formatted>)
    ensures |r| == |Kept(db, cands)|
    ensures forall i | 0 <= i < |r| :: r[i] == Entry(db, Kept(db, cands)[i], zeroAs)
    ensures forall i | 0 <= i < |r| :: Analyzed(db, r[i].video_id)
  {
    var k := Kept(db, cands);
    seq(|k|, i requires 0 <= i < |k| => Entry(db, k[i], zeroAs))
  }

  /** Formatting keeps exactly the analysed candidates' videos. */
  lemma {:induction false} FormatAllIds(db: Store.Db, cands: seq<Candidate>, zeroAs: real, id: string)
    ensures (exists i | 0 <= i < |FormatAll(db, cands, zeroAs)| :: FormatAll(db, cands, zeroAs)[i].video_id == id) <==>
      Analyzed(db, id) && exists j | 0 <= j < |cands| :: cands[j].video_id == id
  {
    var r := FormatAll(db, cands, zeroAs);
    var k := Kept(db, cands);
    if exists i | 0 <= i < |r| :: r[i].video_id == id {
      var i :| 0 <= i < |r| && r[i].video_id == id;
      assert k[i] in cands;
    }
    if Analyzed(db, id) && exists j | 0 <= j < |cands| :: cands[j].video_id == id {
      var j :| 0 <= j < |cands| && cands[j].video_id == id;
      assert cands[j] in k;
      var i :| 0 <= i < |k| && k[i] == cands[j];
      assert r[i].video_id == id;
    }
  }

  // ---------------------------------------------------------------------------
  // POST /

  /** The `search_type` field of a search response. */
  datatype SearchKind = Semantic | Text | TopicBased {
    /** The string the JSON response carries. */
    function Name(): string {
      match this
      case Semantic => "semantic"
      case Text => "text"
      case TopicBased => "topic-based"
    }
  }

  datatype SearchResponse =
    | SearchBadRequest(reason: string)
    | SearchOk(results: seq<Formatted>, total: nat, query: string, search_type: SearchKind, message: Option<string>)

  const NothingFound := "No similar videos found. Try analyzing more videos or using different keywords."

  /** `POST /`. `run` is how the script ended for the given arguments;
      `summariesMatching` and `titlesMatching` are the scored text searches. */
  function Search(req: SearchRequest, db: Store.Db,
                  run: (string, int) -> SearchProcess, parse: string -> PythonBridge.Parse<SemanticSearch.SearchJson>,
                  summariesMatching: (string, int) -> seq<TextHit>, titlesMatching: (string, int) -> seq<TextHit>)
    : (r: SearchResponse)
    ensures ValidateSearch(req).SearchInvalid? ==> r == SearchBadRequest(ValidateSearch(req).message)
    ensures ValidateSearch(req).SearchValid? ==>
      var v := ValidateSearch(req);
      r == SearchResponseOf(db, v.query, SemanticResults(ExecuteSemanticSearch(run(v.query, v.limit), parse)),
                            Fallback(summariesMatching(v.query, v.limit), titlesMatching(v.query, v.limit), v.limit))
  {
    match ValidateSearch(req)
    case SearchInvalid(m) => SearchBadRequest(m)
    case SearchValid(query, limit) =>
      SearchResponseOf(db, query, SemanticResults(ExecuteSemanticSearch(run(query, limit), parse)),
                       Fallback(summariesMatching(query, limit), titlesMatching(query, limit), limit))
  }

  /** The answer to a valid search: the analyzed candidates by descending
      score, labelled with where they came from, and a message exactly when
      there are none. */
  function SearchResponseOf(db: Store.Db, query: string, semantic: seq<SemanticSearch.Match>, fallback: seq<Candidate>)
    : (r: SearchResponse)
    ensures r.SearchOk? && r.query == query && r.total == |r.results|
    ensures Ranking.SortedDesc(r.results, FormattedScore)
    ensures forall i | 0 <= i < |r.results| :: Analyzed(db, r.results[i].video_id)
    ensures r.message.Some? <==> |r.results| == 0
    ensures r.search_type == Semantic <==> |semantic| > 0
    ensures r.search_type == Text <==> |semantic| == 0
  {
    var cands := SearchCandidates(semantic, fallback);
    var results := Ranking.SortDesc(FormatAll(db, cands, 0.0), FormattedScore);
    Ranking.SortDescMembers(FormatAll(db, cands, 0.0), FormattedScore);
    SearchOk(results, |results|, query, if |semantic| > 0 then Semantic else Text,
             if |results| == 0 then Some(NothingFound) else None)
  }

  /** The candidates of a search: the semantic matches with their scores when
      there are any, else the text fallback's. */
  function SearchCandidates(semantic: seq<SemanticSearch.Match>, fallback: seq<Candidate>): (cands: seq<Candidate>)
    ensures |semantic| > 0 ==> |cands| == |semantic|
    ensures |semantic| > 0 ==>
      forall i | 0 <= i < |cands| :: i < |semantic| && cands[i] == Candidate(semantic[i].video_id, semantic[i].similarity_score)
    ensures |semantic| == 0 ==> cands == fallback
  {
    if |semantic| > 0 then Map(semantic, (m: SemanticSearch.Match) => Candidate(m.video_id, m.similarity_score))
    else fallback
  }

  /** The response lists exactly the candidate videos that have both a Video
      and a Summary: none is lost in formatting, none is invented. */
  lemma {:induction false} SearchKeepsAnalyzedCandidates(req: SearchRequest, db: Store.Db,
                                      run: (string, int) -> SearchProcess,
                                      parse: string -> PythonBridge.Parse<SemanticSearch.SearchJson>,
                                      summariesMatching: (string, int) -> seq<TextHit>,
                                      titlesMatching: (string, int) -> seq<TextHit>, id: string)
    requires ValidateSearch(req).SearchValid?
    ensures var r := Search(req, db, run, parse, summariesMatching, titlesMatching);
      var v := ValidateSearch(req);
      var cands := SearchCandidates(SemanticResults(ExecuteSemanticSearch(run(v.query, v.limit), parse)),
                                    Fallback(summariesMatching(v.query, v.limit), titlesMatching(v.query, v.limit), v.limit));
      r.SearchOk? &&
      ((exists i | 0 <= i < |r.results| :: r.results[i].video_id == id) <==>
        Analyzed(db, id) && exists j | 0 <= j < |cands| :: cands[j].video_id == id)
  {
    var v := ValidateSearch(req);
    var cands := SearchCandidates(SemanticResults(ExecuteSemanticSearch(run(v.query, v.limit), parse)),
                                  Fallback(summariesMatching(v.query, v.limit), titlesMatching(v.query, v.limit), v.limit));
    var formatted := FormatAll(db, cands, 0.0);
    assert Search(req, db, run, parse, summariesMatching, titlesMatching).results ==
      Ranking.SortDesc(formatted, FormattedScore);
    PermutationKeepsIds(Ranking.SortDesc(formatted, FormattedScore), formatted, id);
    FormatAllIds(db, cands, 0.0, id);
  }

  /** Reordering a result list keeps the set of videos it mentions. */
  lemma {:induction false} PermutationKeepsIds(a: seq<Formatted>, b: seq<Formatted>, id: string)
    requires multiset(a) == multiset(b)
    ensures (exists i | 0 <= i < |a| :: a[i].video_id == id) <==> exists i | 0 <= i < |b| :: b[i].video_id == id
  {
    if exists i | 0 <= i < |a| :: a[i].video_id == id {
      var i :| 0 <= i < |a| && a[i].video_id == id;
      IdSurvivesPermutation(a, b, i);
    }
    if exists i | 0 <= i < |b| :: b[i].video_id == id {
      var i :| 0 <= i < |b| && b[i].video_id == id;
      IdSurvivesPermutation(b, a, i);
    }
  }

  lemma {:induction false} IdSurvivesPermutation(a: seq<Formatted>, b: seq<Formatted>, i: int)
    requires multiset(a) == multiset(b) && 0 <= i < |a|
    ensures exists j | 0 <= j < |b| :: b[j].video_id == a[i].video_id
  {
    assert a[i] in multiset(b);
    var k :| 0 <= k < |b| && b[k] == a[i];
    assert b[k].video_id == a[i].video_id;
  }

  // ---------------------------------------------------------------------------
  // GET /similar/:videoId

  datatype SimilarResponse =
    | SimilarBadId
    | SimilarNotFound
    | SimilarOk(results: seq<Formatted>, total: nat, reference_video_id: string, search_type: SearchKind,
                topicQuery: Option<string>)

  /** `parseInt(limit) || 5`: NaN and zero give 5; a negative number is kept. */
  function SimilarLimit(param: Option<string>): (n: int)
    ensures param.None? ==> n == 5
    ensures n != 0
  {
    if param.None? then 5
    else match JsParseInt(param.value)
      case None => 5
      case Some(v) => if v == 0 then 5 else v
  }

  /** The query for the topic fallback: the first three topics joined by spaces. */
  function TopicQuery(topics: seq<string>): string { Join(Take(topics, 3), " ") }

  /** `GET /similar/:videoId`: the Summary's short text is the query, asked
      for one more result than wanted to make room for the video itself,
      which is then removed. The topic fallback runs only when that leaves
      nothing and the video has topics, and scores each hit 0.6. */
  function Similar(videoId: string, limitParam: Option<string>, db: Store.Db,
                   run: (string, int) -> SearchProcess, parse: string -> PythonBridge.Parse<SemanticSearch.SearchJson>,
                   summariesMatching: (string, int) -> seq<TextHit>)
    : (r: SimilarResponse)
    ensures r == SimilarBadId <==> !IsVideoId(videoId)
    ensures r == SimilarNotFound <==> IsVideoId(videoId) && videoId !in db.summaries
    ensures r.SimilarOk? ==> videoId in db.summaries
    ensures r.SimilarOk? ==>
      var limit := SimilarLimit(limitParam);
      var s := db.summaries[videoId];
      r == SimilarResponseOf(db, videoId, limit, s.topics,
                             Filter(SemanticResults(ExecuteSemanticSearch(run(s.summary_short, limit + 1), parse)),
                                    (m: SemanticSearch.Match) => m.video_id != videoId),
                             summariesMatching)
  {
    if !IsVideoId(videoId) then SimilarBadId
    else if videoId !in db.summaries then SimilarNotFound
    else
      var limit := SimilarLimit(limitParam);
      var s := db.summaries[videoId];
      SimilarResponseOf(db, videoId, limit, s.topics,
                        Filter(SemanticResults(ExecuteSemanticSearch(run(s.summary_short, limit + 1), parse)),
                               (m: SemanticSearch.Match) => m.video_id != videoId),
                        summariesMatching)
  }

  /** The answer once the reference video's semantic matches, without the
      video itself, are known: at most `limit` analyzed videos other than the
      reference, from the semantic matches or else from the topic query. */
  function SimilarResponseOf(db: Store.Db, videoId: string, limit: int, topics: seq<string>,
                             semantic: seq<SemanticSearch.Match>, summariesMatching: (string, int) -> seq<TextHit>)
    : (r: SimilarResponse)
    requires forall i | 0 <= i < |semantic| :: semantic[i].video_id != videoId
    ensures r.SimilarOk? && r.total == |r.results| && r.reference_video_id == videoId
    ensures forall i | 0 <= i < |r.results| :: r.results[i].video_id != videoId && Analyzed(db, r.results[i].video_id)
    ensures limit >= 0 ==> |r.results| <= limit
    ensures r.search_type == Semantic <==> |semantic| > 0
    ensures r.topicQuery.Some? <==> |semantic| == 0 && |topics| > 0
    ensures r.topicQuery.Some? ==> r.topicQuery.value == TopicQuery(topics)
  {
    var topicQuery := if |semantic| == 0 && |topics| > 0 then Some(TopicQuery(topics)) else None;
    var cut := JsSliceTo(SimilarCandidates(videoId, limit, semantic, topicQuery, summariesMatching), limit);
    var results := FormatAll(db, cut, 0.6);
    FormatAllAvoids(db, cut, 0.6, videoId);
    SimilarOk(results, |results|, videoId, if |semantic| > 0 then Semantic else TopicBased, topicQuery)
  }

  /** The candidates before the cut: the semantic matches when there are
      any, else the topic query's text hits without the reference video,
      each scored 0.6. */
  function SimilarCandidates(videoId: string, limit: int, semantic: seq<SemanticSearch.Match>,
                             topicQuery: Option<string>, summariesMatching: (string, int) -> seq<TextHit>)
    : (cands: seq<Candidate>)
    requires forall i | 0 <= i < |semantic| :: semantic[i].video_id != videoId
    ensures forall i | 0 <= i < |cands| :: cands[i].video_id != videoId
    ensures |semantic| > 0 ==> |cands| == |semantic|
    ensures |semantic| == 0 && topicQuery.Some? ==> forall i | 0 <= i < |cands| :: cands[i].score == 0.6
  {
    if |semantic| > 0 then Map(semantic, (m: SemanticSearch.Match) => Candidate(m.video_id, m.similarity_score))
    else if topicQuery.Some? then
      Map(JsSliceTo(Filter(summariesMatching(topicQuery.value, limit + 1), (h: TextHit) => h.video_id != videoId), limit),
          (h: TextHit) => Candidate(h.video_id, 0.6))
    else []
  }

  /** Formatting keeps only candidates, so a video absent from them stays absent. */
  lemma {:induction false} FormatAllAvoids(db: Store.Db, cands: seq<Candidate>, zeroAs: real, id: string)
    requires forall i | 0 <= i < |cands| :: cands[i].video_id != id
    ensures |FormatAll(db, cands, zeroAs)| <= |cands|
    ensures forall i | 0 <= i < |FormatAll(db, cands, zeroAs)| :: FormatAll(db, cands, zeroAs)[i].video_id != id
  {
    var r := FormatAll(db, cands, zeroAs);
    var k := Kept(db, cands);
    forall i | 0 <= i < |r|
      ensures r[i].video_id != id
    {
      assert r[i].video_id == k[i].video_id && k[i] in cands;
    }
  }

  /** Without a `limit` parameter at most five similar videos come back, and
      the reference video is never among them. */
  lemma {:induction false} SimilarDefaultsToFive(videoId: string, db: Store.Db,
                              run: (string, int) -> SearchProcess,
                              parse: string -> PythonBridge.Parse<SemanticSearch.SearchJson>,
                              summariesMatching: (string, int) -> seq<TextHit>)
    requires IsVideoId(videoId) && videoId in db.summaries
    ensures var r := Similar(videoId, None, db, run, parse, summariesMatching);
      r.SimilarOk? && |r.results| <= 5 && forall i | 0 <= i < |r.results| :: r.results[i].video_id != videoId
  {
  }

  /** A limit written in decimal is the limit used, trailing text ignored. */
  lemma {:induction false} SimilarLimitReadsDecimal(n: int, rest: string)
    requires n != 0 && (|rest| == 0 || !IsDigit(rest[0]))
    ensures SimilarLimit(Some(IntToString(n) + rest)) == n
  {
    JsParseIntOfIntToString(n, rest);
  }

  // ---------------------------------------------------------------------------
  // GET /suggestions

  /** The answer: the suggestions and whether the aggregation ran, or the
      500 "Suggestions Failed" with an empty list. */
  datatype Suggestions = Suggestions(suggestions: seq<Store.TopicCount>, queried: bool) | SuggestionsFailed

  const MaxSuggestions := 10

  /** `GET /suggestions?q=`: a missing or one-character `q` answers an empty
      list without querying; otherwise the groups whose topic matches are
      sorted by descending count and cut to ten. `groups` is the aggregation
      up to its sort stage; it is `None` when the aggregation throws, as it
      does for a `q` that is not a valid regular expression. */
  function Suggest(q: Option<string>, groups: string -> Option<seq<Store.TopicCount>>): (r: Suggestions)
    ensures r.SuggestionsFailed? <==> q.Some? && Utf16Length(q.value) >= 2 && groups(q.value).None?
    ensures r.Suggestions? ==> (r.queried <==> q.Some? && Utf16Length(q.value) >= 2)
    ensures r.Suggestions? && !r.queried ==> r.suggestions == []
    ensures r.Suggestions? ==> |r.suggestions| <= MaxSuggestions && Ranking.SortedDesc(r.suggestions, Store.CountKey)
    ensures r.Suggestions? && r.queried ==>
      forall i | 0 <= i < |r.suggestions| :: r.suggestions[i] in groups(q.value).value
  {
    if q.None? || Utf16Length(q.value) < 2 then Suggestions([], false)
    else match groups(q.value)
      case None => SuggestionsFailed
      case Some(gs) => Suggestions(Store.MostFrequent(gs, MaxSuggestions), true)
  }

  /** The suggestions are the ten most frequent matching topics: a group
      left out means ten were kept, none less frequent than it. */
  lemma {:induction false} SuggestionsAreMostFrequent(q: string, groups: string -> Option<seq<Store.TopicCount>>, g: Store.TopicCount)
    requires Utf16Length(q) >= 2 && groups(q).Some? && g in groups(q).value
    requires g !in Suggest(Some(q), groups).suggestions
    ensures var r := Suggest(Some(q), groups).suggestions;
      |r| == MaxSuggestions && forall i | 0 <= i < |r| :: r[i].count >= g.count
  {
    Store.MostFrequentDominates(groups(q).value, MaxSuggestions, g);
  }
}
