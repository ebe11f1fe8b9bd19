/** The semantic search box: the similarity badge of a result, the search
    handler's guard and state changes, and the link each result opens. */
module SearchInterface {
  import opened Core
  import opened Text
  import VideoUrls

  datatype SearchResult = SearchResult(video_id: string, title: string, similarity_score: real, url: Option<string>)

  datatype Similarity = High | Medium | Low
  datatype Colour = Green | Yellow | Red

  function Rank(s: Similarity): nat {
    match s
    case Low => 0
    case Medium => 1
    case High => 2
  }

  /** `getSimilarityLabel`. */
  function SimilarityLabel(score: real): (l: Similarity)
    ensures l == High <==> score >= 0.8
    ensures l == Medium <==> 0.6 <= score < 0.8
    ensures l == Low <==> score < 0.6
  {
    if score >= 0.8 then High else if score >= 0.6 then Medium else Low
  }

  /** `getSimilarityColor`, on its own copy of the thresholds. */
  function SimilarityColour(score: real): (c: Colour)
  {
    if score >= 0.8 then Green else if score >= 0.6 then Yellow else Red
  }

  /** The colour and the label always agree, and a higher score never gets a lower label. */
  lemma {:induction false} ColourMatchesLabel(score: real, higher: real)
    requires score <= higher
    ensures SimilarityColour(score) == Green <==> SimilarityLabel(score) == High
    ensures SimilarityColour(score) == Yellow <==> SimilarityLabel(score) == Medium
    ensures SimilarityColour(score) == Red <==> SimilarityLabel(score) == Low
    ensures Rank(SimilarityLabel(score)) <= Rank(SimilarityLabel(higher))
  {
  }

  datatype State = State(query: string, results: seq<SearchResult>, loading: bool, error: Option<string>)

  /** The request body `{ query, limit }`. */
  datatype Request = Request(query: string, limit: nat)

  const SearchLimit := 10
  const FallbackError := "Search failed"

  /** What the search produced: results (`data.results`, possibly absent)
      or a thrown value (an `Error`'s message, or anything else). */
  datatype Outcome = Responded(results: Option<seq<SearchResult>>) | Threw(message: Option<string>)

  /** The start of `handleSearch`: a blank query returns before touching
      anything; otherwise loading starts, the error and the results are
      cleared, and the trimmed query goes out with limit 10. */
  function StartSearch(st: State): (r: (Option<Request>, State))
    ensures IsBlank(st.query) <==> r.0.None?
    ensures r.0.None? ==> r.1 == st
    ensures r.0.Some? ==> r.0.value == Request(Trim(st.query), SearchLimit) && |r.0.value.query| > 0
    ensures r.0.Some? ==> r.1 == State(st.query, [], true, None)
  {
    TrimEmptyIffBlank(st.query);
    if |Trim(st.query)| == 0 then (None, st)
    else (Some(Request(Trim(st.query), SearchLimit)), st.(loading := true, error := None, results := []))
  }

  /** The end of `handleSearch`: results or an error, and loading always
      ends. A thrown `Error` sets its own message, even an empty one; any
      other thrown value sets the fallback message. */
  function FinishSearch(st: State, outcome: Outcome): (r: State)
    ensures !r.loading && r.query == st.query
    ensures outcome.Responded? ==> r.error == st.error && r.results == outcome.results.GetOr([])
    ensures outcome.Threw? ==> r.results == st.results && r.error.Some?
    ensures outcome.Threw? && outcome.message.Some? ==> r.error.value == outcome.message.value
    ensures outcome.Threw? && outcome.message.None? ==> r.error.value == FallbackError
  {
    match outcome
    case Responded(rs) => st.(results := rs.GetOr([]), loading := false)
    case Threw(m) => st.(error := Some(m.GetOr(FallbackError)), loading := false)
  }

  /** The error box renders when `error` is truthy: set and non-empty. */
  predicate ShowsError(st: State) { st.error.Some? && |st.error.value| > 0 }

  /** A whole search: a non-blank query ends not loading, with either the
      new results and no error or no results and an error. */
  lemma {:induction false} SearchSettles(st: State, outcome: Outcome)
    requires !IsBlank(st.query)
    ensures var s := FinishSearch(StartSearch(st).1, outcome);
      !s.loading && (s.error.None? <==> outcome.Responded?) &&
      (outcome.Threw? ==> s.results == [])
  {
  }

  /** After a failure the error box shows exactly when the thrown value is
      not an `Error` or its message is non-empty; the route's own HTTP
      failure always carries a non-empty message, so it always shows. */
  lemma {:induction false} FailureShowsError(st: State, outcome: Outcome, statusText: string)
    requires outcome.Threw?
    ensures ShowsError(FinishSearch(st, outcome)) <==> outcome.message.None? || |outcome.message.value| > 0
    ensures ShowsError(FinishSearch(st, Threw(Some("Search failed: " + statusText))))
  {
  }

  /** The result link: its own `url` when non-empty, else the canonical
      watch URL of its id. */
  function ResultLink(r: SearchResult): (link: string)
    ensures r.url.Some? && |r.url.value| > 0 ==> link == r.url.value
    ensures (r.url.None? || |r.url.value| == 0) ==> VideoUrls.CanonicalPrefix <= link
  {
    if r.url.Some? && |r.url.value| > 0 then r.url.value else VideoUrls.CanonicalPrefix + r.video_id
  }

  /** The fallback link of a well-formed id leads back to that id. */
  lemma {:induction false} FallbackLinkOpensVideo(r: SearchResult)
    requires r.url.None? && VideoUrls.IsCapture(r.video_id)
    ensures VideoUrls.ExtractVideoId(ResultLink(r)) == Some(r.video_id)
  {
    VideoUrls.ExtractFromCanonical(r.video_id);
  }
}
