/** The summarisation script: text cleaning, the word-count guards and the
    truncation before the language model is called, the removal of one
    introductory phrase from the short summary, the post-filter on extracted
    topics, and the command-line entry point. The language model and the
    regular-expression scrubbing of its replies are parameters. */
module Summarizer {
  import opened Core
  import opened Text

  /** A word survives cleaning when it is longer than one character or is
      the word "a" or "i" in either case. */
  predicate KeepWord(w: string) {
    |w| > 1 || Lower(w) == "a" || Lower(w) == "i"
  }

  /** `clean_text`: whitespace runs collapse to single spaces, the ends are
      trimmed, and one-letter words other than a/i are dropped. */
  function CleanText(text: string): string
  {
    JoinWords(Filter(Words(text), KeepWord))
  }

  /** The words of the cleaned text are exactly the kept words, in order. */
  lemma {:induction false} CleanTextWords(text: string)
    ensures Words(CleanText(text)) == Filter(Words(text), KeepWord)
  {
    var kept := Filter(Words(text), KeepWord);
    assert forall k | 0 <= k < |kept| :: IsWord(kept[k]);
    WordsOfJoin(kept);
  }

  /** Cleaning cleaned text changes nothing. */
  lemma {:induction false} CleanTextIdempotent(text: string)
    ensures CleanText(CleanText(text)) == CleanText(text)
  {
    CleanTextWords(text);
    var kept := Filter(Words(text), KeepWord);
    assert forall k | 0 <= k < |kept| :: KeepWord(kept[k]);
  }

  // ---------------------------------------------------------------------------
  // Introductory phrases

  const IntroPhrases: seq<string> := [
    "Here is a concise summary of the video transcript in 3-5 sentences:",
    "Here's a concise summary of the video transcript in 3-5 sentences:",
    "Here is a concise summary in 3-5 sentences:",
    "Here's a concise summary in 3-5 sentences:",
    "Here is a concise summary:",
    "Here's a concise summary:",
    "The video transcript discusses:",
    "This video discusses:",
    "Summary:",
    "Here is the summary:",
    "Here's the summary:"
  ]

  /** `s.lower().startswith(p.lower())`. */
  predicate StartsWithIgnoreCase(s: string, p: string) {
    Lower(p) <= Lower(s)
  }

  /** Index of the first phrase that starts `s`, ignoring case. */
  function FirstIntro(s: string, phrases: seq<string>): (r: Option<nat>)
    ensures r.Some? ==> r.value < |phrases| && StartsWithIgnoreCase(s, phrases[r.value])
    ensures r.Some? ==> forall j | 0 <= j < r.value :: !StartsWithIgnoreCase(s, phrases[j])
    ensures r.None? ==> forall j | 0 <= j < |phrases| :: !StartsWithIgnoreCase(s, phrases[j])
  {
    if |phrases| == 0 then None
    else if StartsWithIgnoreCase(s, phrases[0]) then Some(0)
    else match FirstIntro(s, phrases[1..])
      case None => None
      case Some(k) => Some(k + 1)
  }

  /** Removes the first matching phrase, and only that one, then trims. */
  function StripIntro(s: string): (r: string)
    ensures FirstIntro(s, IntroPhrases).None? ==> r == s
    ensures FirstIntro(s, IntroPhrases).Some? ==>
      r == Strip(s[|IntroPhrases[FirstIntro(s, IntroPhrases).value]|..])
  {
    match FirstIntro(s, IntroPhrases)
    case None => s
    case Some(k) => Strip(s[|IntroPhrases[k]|..])
  }

  /** A matched phrase is at most as long as the text it starts. */
  lemma {:induction false} IntroFits(s: string, p: string)
    requires StartsWithIgnoreCase(s, p)
    ensures |p| <= |s|
  {
    assert |Lower(p)| <= |Lower(s)|;
  }

  /** Stripping never lengthens the text, and a matched phrase that is not
      empty makes it strictly shorter. */
  lemma {:induction false} StripIntroShortens(s: string)
    ensures |StripIntro(s)| <= |s|
    ensures FirstIntro(s, IntroPhrases).Some? ==> |StripIntro(s)| <= |s| - |IntroPhrases[FirstIntro(s, IntroPhrases).value]|
    ensures FirstIntro(s, IntroPhrases).Some? ==> |StripIntro(s)| < |s|
  {
    match FirstIntro(s, IntroPhrases)
    case None =>
    case Some(k) =>
      IntroFits(s, IntroPhrases[k]);
      assert |IntroPhrases[k]| > 0;
  }

  /** A reply from the language model. */
  datatype LlmCall = Reply(text: string) | LlmFailed(message: string)

  /** `generate_short_summary` after the model call: trim, strip one
      introductory phrase, clean. */
  function ShortSummary(reply: string): string
  {
    CleanText(StripIntro(Strip(reply)))
  }

  // ---------------------------------------------------------------------------
  // Topic post-filter

  const MaxTopics: nat := 15

  /** The per-topic checks of `extract_topics`: longer than 2 characters, at
      most 50, at most 5 words, not noise. */
  predicate AcceptableTopic(t: string, isNoise: string -> bool) {
    2 < |t| <= 50 && |Words(t)| <= 5 && !isNoise(Lower(t))
  }

  /** Whether `t` is already among the kept topics, ignoring case. */
  predicate Duplicate(t: string, kept: seq<string>) {
    exists j | 0 <= j < |kept| :: Lower(kept[j]) == Lower(t)
  }

  /** Lower-case, between 3 and 50 characters, at most 5 words. */
  predicate WellFormedTopic(t: string) {
    Lower(t) == t && 2 < |t| <= 50 && |Words(t)| <= 5
  }

  /** No two kept topics are equal ignoring case. */
  predicate DistinctIgnoringCase(ts: seq<string>) {
    forall i, j | 0 <= i < j < |ts| :: Lower(ts[i]) != Lower(ts[j])
  }

  /** An acceptable topic in lower case is well formed. */
  lemma {:induction false} AcceptableLowered(t: string, isNoise: string -> bool)
    requires AcceptableTopic(t, isNoise)
    ensures WellFormedTopic(Lower(t))
  {
    LowerIdempotent(t);
    WordsLower(t);
  }

  /** Appending a topic new ignoring case keeps the kept topics distinct. */
  lemma {:induction false} AppendFresh(kept: seq<string>, t: string)
    requires DistinctIgnoringCase(kept)
    requires !Duplicate(t, kept)
    ensures DistinctIgnoringCase(kept + [Lower(t)])
  {
    LowerIdempotent(t);
    var next := kept + [Lower(t)];
    forall i, j | 0 <= i < j < |next|
      ensures Lower(next[i]) != Lower(next[j])
    {
      if j == |kept| {
        assert next[i] == kept[i];
      } else {
        assert next[i] == kept[i] && next[j] == kept[j];
      }
    }
  }

  lemma {:induction false} PrefixOfPrefix<T>(a: seq<T>, b: seq<T>, c: seq<T>)
    requires a <= b && b <= c
    ensures a <= c
  {
    assert c[..|a|] == b[..|a|];
  }

  /** The filtering loop: each candidate that `accept`s and is not yet
      seen ignoring case is appended in lower case; the topics kept so far
      stay in front. `extract_topics` runs it with `Acceptable(isNoise)`. */
  function FilterTopicsFrom(kept: seq<string>, candidates: seq<string>, accept: string -> bool): (r: seq<string>)
    ensures kept <= r
    decreases |candidates|
  {
    if |candidates| == 0 then kept
    else
      var t := candidates[0];
      if accept(t) && !Duplicate(t, kept) then
        var next := kept + [Lower(t)];
        var r := FilterTopicsFrom(next, candidates[1..], accept);
        PrefixOfPrefix(kept, next, r);
        r
      else
        FilterTopicsFrom(kept, candidates[1..], accept)
  }

  /** The acceptance test as a function value. */
  function Acceptable(isNoise: string -> bool): (accept: string -> bool)
    ensures forall t :: accept(t) ==> WellFormedTopic(Lower(t))
  {
    var accept := (t: string) => AcceptableTopic(t, isNoise);
    forall t | accept(t) ensures WellFormedTopic(Lower(t)) {
      AcceptableLowered(t, isNoise);
    }
    accept
  }

  /** The loop keeps its invariant: every kept topic is well formed and no
      two are equal ignoring case. */
  lemma {:induction false} FilterTopicsKeepsInvariant(kept: seq<string>, candidates: seq<string>, accept: string -> bool)
    requires forall t :: accept(t) ==> WellFormedTopic(Lower(t))
    requires forall i | 0 <= i < |kept| :: WellFormedTopic(kept[i])
    requires DistinctIgnoringCase(kept)
    ensures var r := FilterTopicsFrom(kept, candidates, accept);
      (forall i | 0 <= i < |r| :: WellFormedTopic(r[i])) && DistinctIgnoringCase(r)
    decreases |candidates|
  {
    if |candidates| > 0 {
      var t := candidates[0];
      if accept(t) && !Duplicate(t, kept) {
        AppendFresh(kept, t);
        var next := kept + [Lower(t)];
        assert forall i | 0 <= i < |next| :: WellFormedTopic(next[i]) by {
          assert forall i | 0 <= i < |kept| :: next[i] == kept[i];
        }
        FilterTopicsKeepsInvariant(next, candidates[1..], accept);
      } else {
        FilterTopicsKeepsInvariant(kept, candidates[1..], accept);
      }
    }
  }

  /** `extract_topics` after the reply has been split and scrubbed into
      `candidates`: at most 15 topics survive. */
  function FilterTopics(candidates: seq<string>, isNoise: string -> bool): (r: seq<string>)
    ensures |r| <= MaxTopics
    ensures forall i | 0 <= i < |r| :: WellFormedTopic(r[i])
    ensures DistinctIgnoringCase(r)
  {
    var all := FilterTopicsFrom([], candidates, Acceptable(isNoise));
    FilterTopicsKeepsInvariant([], candidates, Acceptable(isNoise));
    Take(all, MaxTopics)
  }

  /** `x` is the lower-case form of an accepted candidate. */
  predicate FromCandidate(x: string, candidates: seq<string>, accept: string -> bool) {
    exists j | 0 <= j < |candidates| :: accept(candidates[j]) && x == Lower(candidates[j])
  }

  lemma {:induction false} FromLaterCandidate(x: string, candidates: seq<string>, accept: string -> bool)
    requires |candidates| > 0 && FromCandidate(x, candidates[1..], accept)
    ensures FromCandidate(x, candidates, accept)
  {
    var j :| 0 <= j < |candidates[1..]| && accept(candidates[1..][j]) && x == Lower(candidates[1..][j]);
    assert candidates[1..][j] == candidates[j + 1];
  }

  /** Every newly kept topic is the lower-case form of an accepted candidate. */
  lemma {:induction false} FilterTopicsFromSources(kept: seq<string>, candidates: seq<string>, accept: string -> bool)
    ensures forall i | |kept| <= i < |FilterTopicsFrom(kept, candidates, accept)| ::
      FromCandidate(FilterTopicsFrom(kept, candidates, accept)[i], candidates, accept)
    decreases |candidates|
  {
    if |candidates| > 0 {
      var t := candidates[0];
      var rest := candidates[1..];
      var r := FilterTopicsFrom(kept, candidates, accept);
      var next := if accept(t) && !Duplicate(t, kept) then kept + [Lower(t)] else kept;
      assert r == FilterTopicsFrom(next, rest, accept);
      FilterTopicsFromSources(next, rest, accept);
      forall i | |kept| <= i < |r| ensures FromCandidate(r[i], candidates, accept) {
        if i < |next| {
          assert r[i] == next[i] == Lower(t);
        } else {
          FromLaterCandidate(r[i], candidates, accept);
        }
      }
    }
  }

  /** An accepted candidate is kept, or an equal one ignoring case was
      kept before it: the loop drops only what it does not accept and
      repeats. */
  lemma {:induction false} FilterTopicsKeepsNew(kept: seq<string>, candidates: seq<string>, accept: string -> bool, j: nat)
    requires j < |candidates| && accept(candidates[j])
    ensures Duplicate(candidates[j], FilterTopicsFrom(kept, candidates, accept))
    decreases |candidates|
  {
    var t := candidates[0];
    var rest := candidates[1..];
    if accept(t) && !Duplicate(t, kept) {
      var next := kept + [Lower(t)];
      assert FilterTopicsFrom(kept, candidates, accept) == FilterTopicsFrom(next, rest, accept);
      if j == 0 {
        DuplicateInPrefix(t, next, FilterTopicsFrom(next, rest, accept), |kept|);
      } else {
        assert rest[j - 1] == candidates[j];
        FilterTopicsKeepsNew(next, rest, accept, j - 1);
      }
    } else {
      assert FilterTopicsFrom(kept, candidates, accept) == FilterTopicsFrom(kept, rest, accept);
      if j == 0 {
        var k :| 0 <= k < |kept| && Lower(kept[k]) == Lower(t);
        DuplicateInPrefix(t, kept, FilterTopicsFrom(kept, rest, accept), k);
      } else {
        assert rest[j - 1] == candidates[j];
        FilterTopicsKeepsNew(kept, rest, accept, j - 1);
      }
    }
  }

  lemma {:induction false} DuplicateInPrefix(t: string, a: seq<string>, r: seq<string>, k: int)
    requires a <= r && 0 <= k < |a| && Lower(a[k]) == Lower(t)
    ensures Duplicate(t, r)
  {
    assert r[k] == a[k];
  }

  // ---------------------------------------------------------------------------
  // summarize

  const MinWords: nat := 10
  const MaxWordsIn: nat := 1500
  const TooShortMessage := "Transcript too short for meaningful summarization"
  const ShortFailedPrefix := "Summarization failed: Failed to generate short summary: "
  const DetailedFailedPrefix := "Summarization failed: Failed to generate detailed summary: "
  const UsageMessage := "Usage: python summarizer.py <data_file_path>"
  const InvalidJsonPrefix := "Invalid JSON in data file: "
  const NotFoundPrefix := "Data file not found: "
  const NoApiKeyMessage := "Unexpected error: GROQ_API_KEY environment variable is required"

  /** The language model, one call per request kind; `scrubDetailed` is the
      markdown removal applied to the detailed reply and `topicCandidates`
      the splitting and scrubbing of the topics reply. */
  datatype Llm = Llm(
    short: string -> LlmCall,
    detailed: string -> LlmCall,
    topics: string -> LlmCall,
    scrubDetailed: string -> string,
    topicCandidates: string -> seq<string>,
    isNoise: string -> bool)

  /** The JSON the script prints. */
  datatype SummaryJson =
    | SummaryOk(summary_short: string, summary_detailed: string, topics: seq<string>,
                word_count: nat, processed_words: nat)
    | SummaryFailed(error: string)

  /** The text sent to the model: the cleaned text, cut to its first 1500 words. */
  function ModelText(cleaned: string): string
  {
    var words := Words(cleaned);
    if |words| > MaxWordsIn then JoinWords(words[..MaxWordsIn]) else cleaned
  }

  /** `summarize`. */
  function Summarize(transcriptText: string, llm: Llm): (r: SummaryJson)
    ensures |Words(CleanText(transcriptText))| < MinWords <==>
      r == SummaryFailed(TooShortMessage)
    ensures r.SummaryOk? ==> r.word_count == |Words(CleanText(transcriptText))|
    ensures r.SummaryOk? ==> r.processed_words == Min(r.word_count, MaxWordsIn)
    ensures r.SummaryOk? ==> |r.topics| <= MaxTopics
    ensures r.SummaryOk? <==>
      |Words(CleanText(transcriptText))| >= MinWords &&
      llm.short(ModelText(CleanText(transcriptText))).Reply? &&
      llm.detailed(ModelText(CleanText(transcriptText))).Reply?
    ensures r.SummaryOk? ==>
      (forall i | 0 <= i < |r.topics| :: WellFormedTopic(r.topics[i])) && DistinctIgnoringCase(r.topics)
    ensures var text := ModelText(CleanText(transcriptText));
      r.SummaryOk? ==>
        r.summary_short == ShortSummary(llm.short(text).text) &&
        r.summary_detailed == CleanText(llm.scrubDetailed(Strip(llm.detailed(text).text))) &&
        r.topics == (match llm.topics(text)
          case LlmFailed(_) => []
          case Reply(t) => FilterTopics(llm.topicCandidates(Strip(t)), llm.isNoise))
    ensures var text := ModelText(CleanText(transcriptText));
      |Words(CleanText(transcriptText))| >= MinWords && llm.short(text).LlmFailed? ==>
        r == SummaryFailed(ShortFailedPrefix + llm.short(text).message)
    ensures var text := ModelText(CleanText(transcriptText));
      |Words(CleanText(transcriptText))| >= MinWords && llm.short(text).Reply? && llm.detailed(text).LlmFailed? ==>
        r == SummaryFailed(DetailedFailedPrefix + llm.detailed(text).message)
  {
    var cleaned := CleanText(transcriptText);
    var words := Words(cleaned);
    if |words| < MinWords then SummaryFailed(TooShortMessage)
    else
      var text := ModelText(cleaned);
      ProcessedWords(cleaned);
      match llm.short(text)
      case LlmFailed(m) => SummaryFailed(ShortFailedPrefix + m)
      case Reply(s) =>
        match llm.detailed(text)
        case LlmFailed(m) => SummaryFailed(DetailedFailedPrefix + m)
        case Reply(d) =>
          var topics := match llm.topics(text)
            case LlmFailed(_) => []
            case Reply(t) => FilterTopics(llm.topicCandidates(Strip(t)), llm.isNoise);
          SummaryOk(ShortSummary(s), CleanText(llm.scrubDetailed(Strip(d))), topics, |words|, |Words(text)|)
  }

  /** The word count after truncation is the smaller of the count and 1500. */
  lemma {:induction false} ProcessedWords(cleaned: string)
    ensures |Words(ModelText(cleaned))| == Min(|Words(cleaned)|, MaxWordsIn)
  {
    var words := Words(cleaned);
    if |words| > MaxWordsIn {
      var first := words[..MaxWordsIn];
      assert forall k | 0 <= k < |first| :: IsWord(first[k]) by {
        forall k | 0 <= k < |first| ensures IsWord(first[k]) {
          assert first[k] == words[k];
        }
      }
      WordsOfJoin(first);
    }
  }

  /** A failing topic request does not fail the summary. */
  lemma {:induction false} TopicFailureIsSoft(transcriptText: string, llm: Llm)
    requires |Words(CleanText(transcriptText))| >= MinWords
    requires llm.short(ModelText(CleanText(transcriptText))).Reply?
    requires llm.detailed(ModelText(CleanText(transcriptText))).Reply?
    requires llm.topics(ModelText(CleanText(transcriptText))).LlmFailed?
    ensures Summarize(transcriptText, llm).SummaryOk? && Summarize(transcriptText, llm).topics == []
  {
  }

  /** Both summaries come out cleaned: cleaning them again changes nothing. */
  lemma {:induction false} SummariesAreClean(transcriptText: string, llm: Llm)
    ensures var r := Summarize(transcriptText, llm);
      r.SummaryOk? ==>
        CleanText(r.summary_short) == r.summary_short &&
        CleanText(r.summary_detailed) == r.summary_detailed
  {
    var r := Summarize(transcriptText, llm);
    if r.SummaryOk? {
      var text := ModelText(CleanText(transcriptText));
      CleanTextIdempotent(StripIntro(Strip(llm.short(text).text)));
      CleanTextIdempotent(llm.scrubDetailed(Strip(llm.detailed(text).text)));
    }
  }

  /** Every topic of a summary is the lower-case form of a candidate the
      topics reply offered and the filter accepts. */
  lemma {:induction false} SummaryTopicsFromReply(transcriptText: string, llm: Llm)
    ensures var r := Summarize(transcriptText, llm);
      var text := ModelText(CleanText(transcriptText));
      r.SummaryOk? && llm.topics(text).Reply? ==>
        forall i | 0 <= i < |r.topics| ::
          FromCandidate(r.topics[i], llm.topicCandidates(Strip(llm.topics(text).text)), Acceptable(llm.isNoise))
  {
    var r := Summarize(transcriptText, llm);
    var text := ModelText(CleanText(transcriptText));
    if r.SummaryOk? && llm.topics(text).Reply? {
      var candidates := llm.topicCandidates(Strip(llm.topics(text).text));
      var accept := Acceptable(llm.isNoise);
      var all := FilterTopicsFrom([], candidates, accept);
      FilterTopicsFromSources([], candidates, accept);
      assert r.topics == Take(all, MaxTopics);
      forall i | 0 <= i < |r.topics| ensures FromCandidate(r.topics[i], candidates, accept) {
        assert r.topics[i] == all[i];
      }
    }
  }

  // ---------------------------------------------------------------------------
  // main

  /** What reading the data file gave: the `transcript_text` field (absent
      is `None`), invalid JSON, or a missing file. */
  datatype DataFile = Data(transcript_text: Option<string>) | InvalidJson(reason: string) | NotFound

  /** The command-line entry point. `apiKey` is the `GROQ_API_KEY` variable. */
  function ScriptMain(argv: seq<string>, read: string -> DataFile, apiKey: Option<string>, llm: Llm): (r: Exit<SummaryJson>)
    ensures r.code == 0 <==> r.output.SummaryOk?
    ensures r.code == 0 ==> |argv| == 1 && read(argv[0]).Data? && apiKey.Some? && |apiKey.value| > 0
    ensures r.code != 0 ==> r.code == 1
  {
    if |argv| != 1 then Exit(SummaryFailed(UsageMessage), 1)
    else match read(argv[0])
      case InvalidJson(why) => Exit(SummaryFailed(InvalidJsonPrefix + why), 1)
      case NotFound => Exit(SummaryFailed(NotFoundPrefix + argv[0]), 1)
      case Data(text) =>
        if apiKey.None? || |apiKey.value| == 0 then
          Exit(SummaryFailed(NoApiKeyMessage), 1)
        else
          var result := Summarize(text.GetOr(""), llm);
          Exit(result, if result.SummaryOk? then 0 else 1)
  }
}
