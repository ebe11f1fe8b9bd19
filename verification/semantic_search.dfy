/** The semantic search script: turning vector distances into boosted
    similarity scores, keeping the best hit per video, ranking, cutting to
    the limit, dropping weak matches, and the command-line entry point. The
    embedding model and the nearest-neighbour query are parameters. */
module SemanticSearch {
  import opened Core
  import opened Text
  import Ranking

  /** One raw hit of the nearest-neighbour query, with its metadata; the
      metadata fields the script reads with a default may be absent. */
  datatype Hit = Hit(
    document: string,
    video_id: string,
    chunk_type: Option<string>,
    distance: real,
    chunk_index: Option<int>,
    estimated_timestamp: Option<real>,
    word_count: Option<int>)

  datatype QueryCall = Hits(hits: seq<Hit>) | QueryFailed(message: string)

  /** How much a match on a title or a summary document counts extra. */
  function Boost(chunkType: string): (b: real)
    ensures chunkType == "title" ==> b == 1.3
    ensures chunkType == "summary" ==> b == 1.15
    ensures chunkType != "title" && chunkType != "summary" ==> b == 1.0
  {
    if chunkType == "title" then 1.3
    else if chunkType == "summary" then 1.15
    else 1.0
  }

  /** The cosine similarity recovered from a squared L2 distance, clamped at
      0, boosted by the chunk type and capped at 1. */
  function Similarity(distance: real, chunkType: string): (s: real)
    ensures 0.0 <= s <= 1.0
    ensures distance >= 2.0 ==> s == 0.0
    ensures chunkType != "title" && chunkType != "summary" && 0.0 <= distance <= 2.0 ==>
      s == 1.0 - distance / 2.0
  {
    var base := if 1.0 - distance / 2.0 > 0.0 then 1.0 - distance / 2.0 else 0.0;
    var boosted := base * Boost(chunkType);
    if boosted < 1.0 then boosted else 1.0
  }

  /** A closer hit never scores lower, and for the same distance a title
      match scores at least a summary match, which scores at least a
      transcript match. */
  lemma {:induction false} SimilarityMonotone(d1: real, d2: real, chunkType: string)
    requires d1 <= d2
    ensures Similarity(d2, chunkType) <= Similarity(d1, chunkType)
    ensures Similarity(d1, "transcript") <= Similarity(d1, "summary") <= Similarity(d1, "title")
  {
    var b1 := if 1.0 - d1 / 2.0 > 0.0 then 1.0 - d1 / 2.0 else 0.0;
    var b2 := if 1.0 - d2 / 2.0 > 0.0 then 1.0 - d2 / 2.0 else 0.0;
    assert b2 <= b1;
    assert b2 * Boost(chunkType) <= b1 * Boost(chunkType);
    assert b1 * 1.0 <= b1 * 1.15 <= b1 * 1.3;
  }

  /** One entry of the `results` list. */
  datatype Match = Match(
    video_id: string,
    similarity_score: real,
    match_type: string,
    best_match_text: string,
    chunk_index: int,
    estimated_timestamp: real,
    word_count: int)

  /** The result built from one hit, with the metadata defaults filled in. */
  function MatchOf(h: Hit): (m: Match)
    ensures m.video_id == h.video_id
    ensures m.match_type == h.chunk_type.GetOr("transcript")
    ensures m.similarity_score == Similarity(h.distance, m.match_type)
    ensures m.best_match_text == Excerpt(h.document)
  {
    var t := h.chunk_type.GetOr("transcript");
    Match(h.video_id, Similarity(h.distance, t), t, Excerpt(h.document),
          h.chunk_index.GetOr(0), h.estimated_timestamp.GetOr(0.0), h.word_count.GetOr(0))
  }

  function MatchId(m: Match): string { m.video_id }
  function MatchScore(m: Match): real { m.similarity_score }

  /** Matches scoring at most this are dropped. */
  const MinSimilarity: real := 0.2

  predicate Relevant(m: Match) { m.similarity_score > MinSimilarity }

  /** How many raw hits are asked for: `min(limit * 5, 100)`. */
  function CandidateCount(limit: int): (n: int)
    ensures n <= 100
    ensures 1 <= limit <= 20 ==> n == 5 * limit
  {
    Min(limit * 5, 100)
  }

  /** The JSON `search` returns. `NoMatches` is the successful empty answer
      given when the query returned no hits at all. */
  datatype SearchJson =
    | SearchOk(results: seq<Match>, query: string, total_found: nat, collection_size: nat)
    | NoMatches(query: string)
    | SearchFailed(error: string)

  predicate Success(j: SearchJson) { j.SearchOk? || j.NoMatches? }

  /** The hits ranked: best per video, sorted by descending score. */
  function Ranked(hits: seq<Hit>): (r: seq<Match>)
    ensures Ranking.DistinctIds(r, MatchId) && Ranking.SortedDesc(r, MatchScore)
    ensures forall j | 0 <= j < |r| :: r[j] in Map(hits, MatchOf)
  {
    var best := Ranking.DedupBest(Map(hits, MatchOf), MatchId, MatchScore);
    Ranking.SortPreservesDistinctIds(best, MatchScore, MatchId);
    Ranking.SortDescMembers(best, MatchScore);
    Ranking.SortDesc(best, MatchScore)
  }

  /** The answer for a non-empty list of hits: ranked, cut to `limit` with
      Python slice semantics, then stripped of the weak matches. */
  function Answer(hits: seq<Hit>, limit: int): (r: seq<Match>)
    ensures Ranking.DistinctIds(r, MatchId) && Ranking.SortedDesc(r, MatchScore)
    ensures limit >= 0 ==> |r| <= limit
    ensures forall j | 0 <= j < |r| :: Relevant(r[j]) && r[j] in Ranked(hits)
  {
    var ranked := Ranked(hits);
    var cut := JsSliceTo(ranked, limit);
    Ranking.PrefixKeepsOrder(ranked, cut, MatchScore, MatchId);
    FilterKeepsOrder(cut, Relevant);
    Filter(cut, Relevant)
  }

  const NoCollectionMessage := "ChromaDB collection not available. No videos have been analyzed yet."
  const EmptyQueryMessage := "Empty search query provided"
  const SearchFailedPrefix := "Semantic search failed: "

  /** `SemanticSearcher.search`. `collection` is false when the collection
      could not be opened, and `collectionSize` is its document count. */
  function Search(query: string, limit: int, collection: bool, collectionSize: nat,
                  nearest: (string, int) -> QueryCall): (r: SearchJson)
    ensures !collection ==>
      r == SearchFailed(NoCollectionMessage)
    ensures collection && IsPyBlank(query) ==> r == SearchFailed(EmptyQueryMessage)
    ensures Success(r) <==> collection && !IsPyBlank(query) && nearest(query, CandidateCount(limit)).Hits?
    ensures r.NoMatches? <==> Success(r) && |nearest(query, CandidateCount(limit)).hits| == 0
    ensures r.SearchOk? ==>
      r.results == Answer(nearest(query, CandidateCount(limit)).hits, limit) &&
      r.total_found == |r.results| && r.collection_size == collectionSize
  {
    if !collection then SearchFailed(NoCollectionMessage)
    else if IsPyBlank(query) then SearchFailed(EmptyQueryMessage)
    else match nearest(query, CandidateCount(limit))
      case QueryFailed(m) => SearchFailed(SearchFailedPrefix + m)
      case Hits(hits) =>
        if |hits| == 0 then NoMatches(query)
        else
          var results := Answer(hits, limit);
          SearchOk(results, query, |results|, collectionSize)
  }

  /** Filtering a ranked list keeps it ranked. */
  lemma {:induction false} FilterKeepsOrder(xs: seq<Match>, p: Match -> bool)
    requires Ranking.DistinctIds(xs, MatchId) && Ranking.SortedDesc(xs, MatchScore)
    ensures var f := Filter(xs, p);
      Ranking.DistinctIds(f, MatchId) && Ranking.SortedDesc(f, MatchScore)
  {
    Ranking.FilterKeepsSorted(xs, p, MatchScore);
    Ranking.FilterKeepsDistinct(xs, p, MatchId);
  }

  /** Cutting to the limit before dropping weak matches is the same as
      dropping them first and then cutting: the answer is the `limit`
      best-scoring relevant videos, so it is shorter than `limit` only when
      fewer videos qualify. */
  lemma {:induction false} AnswerIsTopRelevant(hits: seq<Hit>, limit: nat)
    ensures Answer(hits, limit) == Take(Filter(Ranked(hits), Relevant), limit)
  {
    var ranked := Ranked(hits);
    assert Ranking.PrefixClosed(ranked, Relevant) by {
      forall i, j | 0 <= i < j < |ranked| && Relevant(ranked[j]) ensures Relevant(ranked[i]) {
        assert MatchScore(ranked[j]) <= MatchScore(ranked[i]);
      }
    }
    Ranking.FilterTake(ranked, Relevant, limit);
  }

  /** No hit of a ranked video scores higher than the entry kept for it. */
  lemma {:induction false} RankedHoldsBestHits(hits: seq<Hit>)
    ensures var r := Ranked(hits);
      forall j, i | 0 <= j < |r| && 0 <= i < |hits| && hits[i].video_id == r[j].video_id ::
        MatchOf(hits[i]).similarity_score <= r[j].similarity_score
  {
    var r := Ranked(hits);
    var ms := Map(hits, MatchOf);
    forall j, i | 0 <= j < |r| && 0 <= i < |hits| && hits[i].video_id == r[j].video_id
      ensures MatchOf(hits[i]).similarity_score <= r[j].similarity_score
    {
      assert ms[i] == MatchOf(hits[i]);
      Ranking.SortedDedupKeepsMaximum(ms, MatchId, MatchScore, i, j);
    }
  }

  /** Each answer is built from one of the hits, and no hit of the same
      video scores higher than the answer kept for it. */
  lemma {:induction false} AnswerHoldsBestHits(hits: seq<Hit>, limit: int)
    ensures var r := Answer(hits, limit);
      forall j | 0 <= j < |r| ::
        r[j] in Map(hits, MatchOf) &&
        forall i | 0 <= i < |hits| && hits[i].video_id == r[j].video_id ::
          MatchOf(hits[i]).similarity_score <= r[j].similarity_score
  {
    var r := Answer(hits, limit);
    var ranked := Ranked(hits);
    RankedHoldsBestHits(hits);
    forall j | 0 <= j < |r|
      ensures r[j] in Map(hits, MatchOf)
      ensures forall i | 0 <= i < |hits| && hits[i].video_id == r[j].video_id ::
        MatchOf(hits[i]).similarity_score <= r[j].similarity_score
    {
      assert r[j] in ranked;
      var k :| 0 <= k < |ranked| && ranked[k] == r[j];
    }
  }

  // ---------------------------------------------------------------------------
  // main

  datatype SearchOutput = Result(json: SearchJson) | Failed(error: string)

  const UsageMessage := "Usage: python semantic_search.py \"<query>\" <limit>"
  // The message quotes the argument as Python's `repr` does for plain
  // text; an argument holding a quote or a backslash, which `repr` puts
  // in double quotes or escapes, is quoted the plain way here.
  const InvalidLimitPrefix := "Invalid limit parameter: invalid literal for int() with base 10: '"
  const LimitRangeMessage := "Invalid limit parameter: Limit must be between 1 and 50"
  const UnexpectedPrefix := "Unexpected error: "

  /** The argument checks made before the searcher is built: exactly a
      query and a limit, the limit an integer from 1 to 50. `None` means
      they pass; otherwise the message printed. */
  function ArgsError(argv: seq<string>): (e: Option<string>)
    ensures e.None? <==> |argv| == 2 && ParsePyInt(argv[1]).Some? && 1 <= ParsePyInt(argv[1]).value <= 50
  {
    if |argv| != 2 then Some(UsageMessage)
    else match ParsePyInt(argv[1])
      case None => Some(InvalidLimitPrefix + argv[1] + "'")
      case Some(limit) => if limit < 1 || limit > 50 then Some(LimitRangeMessage) else None
  }

  /** The command-line entry point. Once the arguments pass, the searcher is
      built, and its failure (`initError`) is an unexpected error. */
  function ScriptMain(argv: seq<string>, initError: Option<string>, collection: bool, collectionSize: nat,
                nearest: (string, int) -> QueryCall): (r: Exit<SearchOutput>)
    ensures r.code == 0 <==> r.output.Result? && Success(r.output.json)
    ensures r.code != 0 ==> r.code == 1
    ensures r.code == 0 ==> ArgsError(argv).None? && initError.None?
    ensures r.output.Result? <==> ArgsError(argv).None? && initError.None?
    ensures r.output.Result? ==> r.output.json == Search(argv[0], ParsePyInt(argv[1]).value, collection, collectionSize, nearest)
  {
    match ArgsError(argv)
    case Some(m) => Exit(Failed(m), 1)
    case None =>
      if initError.Some? then Exit(Failed(UnexpectedPrefix + initError.value), 1)
      else
        var result := Search(argv[0], ParsePyInt(argv[1]).value, collection, collectionSize, nearest);
        Exit(Result(result), if Success(result) then 0 else 1)
  }

  /** A limit the server renders in decimal is accepted exactly when it lies
      in 1..50, and the search then asks for five candidates per result. */
  lemma {:induction false} MainAcceptsServerLimits(query: string, limit: int, collectionSize: nat,
                                nearest: (string, int) -> QueryCall)
    ensures var r := ScriptMain([query, IntToString(limit)], None, true, collectionSize, nearest);
      r.output.Result? <==> 1 <= limit <= 50
    ensures 1 <= limit <= 50 ==>
      ScriptMain([query, IntToString(limit)], None, true, collectionSize, nearest).output ==
        Result(Search(query, limit, true, collectionSize, nearest)) &&
      CandidateCount(limit) == Min(5 * limit, 100)
  {
    var argv := [query, IntToString(limit)];
    DecimalLimitArgs(query, limit);
    assert argv[0] == query;
  }

  /** The arguments `[query, str(limit)]` pass exactly when `limit` is in 1..50, and then read back `limit`. */
  lemma {:induction false} DecimalLimitArgs(query: string, limit: int)
    ensures ArgsError([query, IntToString(limit)]).None? <==> 1 <= limit <= 50
    ensures ParsePyInt([query, IntToString(limit)][1]) == Some(limit)
  {
    ParsePyIntOfIntToString(limit);
    assert [query, IntToString(limit)][1] == IntToString(limit);
  }
}
