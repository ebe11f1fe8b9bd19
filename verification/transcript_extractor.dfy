/** The transcript extraction script: merging of short segments, the
    processing of fetched snippets, the classification of fetch errors and
    the command-line entry point. Fetching the transcript and the video
    title, and the regular-expression cleaning of snippet text, are outside
    the model: they arrive as parameters. */
module TranscriptExtractor {
  import opened Core
  import opened Text
  import opened Models

  // ---------------------------------------------------------------------------
  // merge_short_segments

  /** The end time of a segment. */
  function End(s: Segment): real { s.start + s.duration }

  /** Absorbing `next` into `cur`: the texts are joined by a space, the start
      stays, and the duration stretches to the end of `next`. */
  function Absorb(cur: Segment, next: Segment): (r: Segment)
    ensures r.start == cur.start && End(r) == End(next)
  {
    Segment(cur.text + " " + next.text, cur.start, End(next) - cur.start)
  }

  /** The loop of `merge_short_segments`: `merged` are the finished segments,
      `cur` the segment being grown, `rest` the segments not yet visited. */
  function MergeLoop(merged: seq<Segment>, cur: Segment, rest: seq<Segment>, minDuration: real): (r: seq<Segment>)
    ensures |merged| + 1 <= |r| <= |merged| + 1 + |rest|
    ensures merged <= r
    decreases |rest|
  {
    if |rest| == 0 then merged + [cur]
    else if cur.duration < minDuration then MergeLoop(merged, Absorb(cur, rest[0]), rest[1..], minDuration)
    else MergeLoop(merged + [cur], rest[0], rest[1..], minDuration)
  }

  /** `merge_short_segments(transcript, min_duration)`. */
  function MergeShortSegments(transcript: seq<Segment>, minDuration: real): (r: seq<Segment>)
    ensures |transcript| == 0 <==> |r| == 0
    ensures |r| <= |transcript|
  {
    if |transcript| == 0 then transcript
    else MergeLoop([], transcript[0], transcript[1..], minDuration)
  }

  /** The default minimum duration, in seconds. */
  const MinDuration: real := 3.0
  const NoSnippetsMessage := "Could not retrieve transcript from this video"
  const UsageMessage := "Usage: python transcript_extractor.py <video_id>"
  const BadIdMessage := "Invalid video ID format. Must be 11 characters long."
  const DefaultTitlePrefix := "YouTube Video "

  /** Every finished segment is long enough; only the last one may be short. */
  lemma {:induction false} MergeLoopDurations(merged: seq<Segment>, cur: Segment, rest: seq<Segment>, minDuration: real)
    requires forall i | 0 <= i < |merged| :: merged[i].duration >= minDuration
    ensures var r := MergeLoop(merged, cur, rest, minDuration);
      forall i | 0 <= i < |r| - 1 :: r[i].duration >= minDuration
    decreases |rest|
  {
    if |rest| > 0 {
      assert MergeLoop(merged, cur, rest, minDuration) ==
        if cur.duration < minDuration then MergeLoop(merged, Absorb(cur, rest[0]), rest[1..], minDuration)
        else MergeLoop(merged + [cur], rest[0], rest[1..], minDuration);
      if cur.duration < minDuration {
        MergeLoopDurations(merged, Absorb(cur, rest[0]), rest[1..], minDuration);
      } else {
        MergeLoopDurations(merged + [cur], rest[0], rest[1..], minDuration);
      }
    }
  }

  lemma {:induction false} MergeDurations(transcript: seq<Segment>, minDuration: real)
    ensures var r := MergeShortSegments(transcript, minDuration);
      forall i | 0 <= i < |r| - 1 :: r[i].duration >= minDuration
  {
    if |transcript| > 0 {
      assert MergeShortSegments(transcript, minDuration) == MergeLoop([], transcript[0], transcript[1..], minDuration);
      MergeLoopDurations([], transcript[0], transcript[1..], minDuration);
    }
  }

  /** Joining two adjacent parts with the separator inside one part gives the
      same text as joining them as two parts. */
  lemma {:induction false} JoinFuse(xs: seq<string>, a: string, b: string, ys: seq<string>, sep: string)
    ensures Join(xs + [a + sep + b] + ys, sep) == Join(xs + [a, b] + ys, sep)
  {
    if |xs| == 0 {
      assert xs + [a + sep + b] + ys == [a + sep + b] + ys;
      assert xs + [a, b] + ys == [a] + ([b] + ys);
      if |ys| == 0 {
        assert Join([a] + [b], sep) == a + sep + Join([b], sep) by { JoinCons(a, [b], sep); }
      } else {
        JoinCons(a + sep + b, ys, sep);
        JoinCons(a, [b] + ys, sep);
        JoinCons(b, ys, sep);
      }
    } else {
      var l := xs + [a + sep + b] + ys;
      var m := xs + [a, b] + ys;
      assert l == [xs[0]] + (xs[1..] + [a + sep + b] + ys);
      assert m == [xs[0]] + (xs[1..] + [a, b] + ys);
      JoinCons(xs[0], xs[1..] + [a + sep + b] + ys, sep);
      JoinCons(xs[0], xs[1..] + [a, b] + ys, sep);
      JoinFuse(xs[1..], a, b, ys, sep);
    }
  }

  function Texts(t: seq<Segment>): seq<string> { Map(t, SegmentText) }

  /** The loop never loses or reorders text: joined with spaces, its output
      reads like the segments it started from. */
  lemma {:induction false} MergeLoopText(merged: seq<Segment>, cur: Segment, rest: seq<Segment>, minDuration: real)
    ensures Join(Texts(MergeLoop(merged, cur, rest, minDuration)), " ") == Join(Texts(merged + [cur] + rest), " ")
    decreases |rest|
  {
    if |rest| > 0 {
      var n := rest[0];
      if cur.duration < minDuration {
        MergeLoopText(merged, Absorb(cur, n), rest[1..], minDuration);
        assert Texts(merged + [Absorb(cur, n)] + rest[1..]) == Texts(merged) + [cur.text + " " + n.text] + Texts(rest[1..]);
        assert Texts(merged + [cur] + rest) == Texts(merged) + [cur.text, n.text] + Texts(rest[1..]);
        JoinFuse(Texts(merged), cur.text, n.text, Texts(rest[1..]), " ");
      } else {
        MergeLoopText(merged + [cur], n, rest[1..], minDuration);
        assert merged + [cur] + [n] + rest[1..] == merged + [cur] + rest;
      }
    } else {
      assert merged + [cur] + rest == merged + [cur];
    }
  }

  /** Merging keeps the transcript's text: `' '.join` of the output texts
      equals `' '.join` of the input texts. */
  lemma {:induction false} MergeKeepsText(transcript: seq<Segment>, minDuration: real)
    ensures TranscriptText(MergeShortSegments(transcript, minDuration)) == TranscriptText(transcript)
  {
    if |transcript| > 0 {
      MergeLoopText([], transcript[0], transcript[1..], minDuration);
      assert [] + [transcript[0]] + transcript[1..] == transcript;
    }
  }

  /** The start times and end times present in a transcript. */
  function Starts(t: seq<Segment>): set<real> { set i | 0 <= i < |t| :: t[i].start }
  function Ends(t: seq<Segment>): set<real> { set i | 0 <= i < |t| :: End(t[i]) }

  /** The loop only produces start and end times it was given, and the last
      end time is the end of the last segment visited. */
  lemma {:induction false} MergeLoopBounds(merged: seq<Segment>, cur: Segment, rest: seq<Segment>, minDuration: real,
                                           starts: set<real>, ends: set<real>)
    requires forall i | 0 <= i < |merged| :: merged[i].start in starts && End(merged[i]) in ends
    requires cur.start in starts
    requires forall i | 0 <= i < |rest| :: rest[i].start in starts && End(rest[i]) in ends
    requires End(cur) in ends
    ensures var r := MergeLoop(merged, cur, rest, minDuration);
      forall i | 0 <= i < |r| :: r[i].start in starts && End(r[i]) in ends
    ensures var r := MergeLoop(merged, cur, rest, minDuration);
      End(r[|r| - 1]) == if |rest| == 0 then End(cur) else End(rest[|rest| - 1])
    decreases |rest|
  {
    if |rest| > 0 {
      var n := rest[0];
      assert n.start in starts && End(n) in ends;
      if cur.duration < minDuration {
        MergeLoopBounds(merged, Absorb(cur, n), rest[1..], minDuration, starts, ends);
      } else {
        MergeLoopBounds(merged + [cur], n, rest[1..], minDuration, starts, ends);
      }
    }
  }

  /** Every output segment starts where some input segment starts and ends
      where some input segment ends; the first start and the last end are
      those of the input. */
  lemma {:induction false} MergeBounds(transcript: seq<Segment>, minDuration: real)
    requires |transcript| > 0
    ensures var r := MergeShortSegments(transcript, minDuration);
      forall i | 0 <= i < |r| :: r[i].start in Starts(transcript) && End(r[i]) in Ends(transcript)
    ensures var r := MergeShortSegments(transcript, minDuration);
      r[0].start == transcript[0].start && End(r[|r| - 1]) == End(transcript[|transcript| - 1])
  {
    var rest := transcript[1..];
    forall i | 0 <= i < |rest| ensures rest[i].start in Starts(transcript) && End(rest[i]) in Ends(transcript) {
      assert rest[i] == transcript[i + 1];
    }
    assert transcript[0].start in Starts(transcript);
    assert End(transcript[0]) in Ends(transcript);
    MergeLoopBounds([], transcript[0], rest, minDuration, Starts(transcript), Ends(transcript));
    MergeLoopFirst([], transcript[0], rest, minDuration);
  }

  /** The first output segment starts with the first input segment. */
  lemma {:induction false} MergeLoopFirst(merged: seq<Segment>, cur: Segment, rest: seq<Segment>, minDuration: real)
    ensures var r := MergeLoop(merged, cur, rest, minDuration);
      r[|merged|].start == cur.start
    decreases |rest|
  {
    if |rest| > 0 {
      if cur.duration < minDuration {
        MergeLoopFirst(merged, Absorb(cur, rest[0]), rest[1..], minDuration);
      } else {
        var r := MergeLoop(merged + [cur], rest[0], rest[1..], minDuration);
        assert merged + [cur] <= r;
        assert r[|merged|] == (merged + [cur])[|merged|];
      }
    }
  }

  // ---------------------------------------------------------------------------
  // Processing fetched snippets

  /** The processed form of a snippet: its text cleaned, its start and
      duration rounded to two decimals. */
  function Cleaned(s: Segment, clean: string -> string): (c: Segment)
    ensures c.text == clean(s.text)
    ensures c.start == PyRound(s.start, 2) && c.duration == PyRound(s.duration, 2)
  {
    Segment(clean(s.text), PyRound(s.start, 2), PyRound(s.duration, 2))
  }

  /** Whether a snippet survives processing: its cleaned text is non-empty. */
  function Kept(clean: string -> string): Segment -> bool
  {
    (s: Segment) => |clean(s.text)| > 0
  }

  /** The processing loop of `extract_transcript`: each snippet's text is
      cleaned by `clean`, snippets whose cleaned text is empty are dropped,
      and start and duration are rounded. The result holds one processed
      snippet per kept snippet, in order: kept snippet `i` is entry `k`, `k`
      the number of kept snippets before it. */
  function ProcessSnippets(snippets: seq<Segment>, clean: string -> string): (r: seq<Segment>)
    ensures |r| == Count(snippets, Kept(clean))
    ensures forall i | 0 <= i < |snippets| && |clean(snippets[i].text)| > 0 ::
      Count(snippets[..i], Kept(clean)) < |r| && r[Count(snippets[..i], Kept(clean))] == Cleaned(snippets[i], clean)
    ensures forall i | 0 <= i < |r| :: |r[i].text| > 0
  {
    var kept := Filter(snippets, Kept(clean));
    forall i | 0 <= i < |snippets| && |clean(snippets[i].text)| > 0
      ensures Count(snippets[..i], Kept(clean)) < |kept| && kept[Count(snippets[..i], Kept(clean))] == snippets[i]
    {
      FilterAt(snippets, Kept(clean), i);
    }
    Map(kept, (s: Segment) => Cleaned(s, clean))
  }

  /** Rounding happens before merging: a first snippet of 2.996 seconds is
      reported as 3.0 seconds, which is not short, so it stays apart from the
      next one, although unrounded it would have been merged. */
  lemma {:induction false} RoundingDecidesMerge(clean: string -> string)
    requires clean("a") == "a" && clean("b") == "b"
    ensures var p := ProcessSnippets([Segment("a", 0.0, 2.996), Segment("b", 3.0, 4.0)], clean);
      p == [Segment("a", 0.0, 3.0), Segment("b", 3.0, 4.0)] && |MergeShortSegments(p, MinDuration)| == 2
    ensures |MergeShortSegments([Segment("a", 0.0, 2.996), Segment("b", 3.0, 4.0)], MinDuration)| == 1
  {
    var xs := [Segment("a", 0.0, 2.996), Segment("b", 3.0, 4.0)];
    PyRoundFixed(0.0, 0, 2);
    PyRoundFixed(3.0, 300, 2);
    PyRoundFixed(4.0, 400, 2);
    assert RoundHalfEven(299.6) == 300;
    assert PyRound(2.996, 2) == 3.0;
    assert Filter(xs, Kept(clean)) == xs by {
      assert Kept(clean)(xs[0]) && Kept(clean)(xs[1]);
    }
  }

  /** The running maximum of the end times, starting from 0. */
  function MaxEnd(segments: seq<Segment>): (m: real)
    ensures m >= 0.0
    ensures forall i | 0 <= i < |segments| :: End(segments[i]) <= m
    ensures m == 0.0 || exists i | 0 <= i < |segments| :: End(segments[i]) == m
  {
    if |segments| == 0 then 0.0
    else
      var init := segments[..|segments| - 1];
      var m := MaxEnd(init);
      var e := End(segments[|segments| - 1]);
      assert forall i | 0 <= i < |init| :: segments[i] == init[i];
      if e > m then e else m
  }

  // ---------------------------------------------------------------------------
  // Error classification

  datatype ErrorType = NoTranscript | VideoUnavailable | NonEnglishTranscript | RateLimited | UnknownError

  function ErrorTypeName(e: ErrorType): string
  {
    match e
    case NoTranscript => "NO_TRANSCRIPT"
    case VideoUnavailable => "VIDEO_UNAVAILABLE"
    case NonEnglishTranscript => "NON_ENGLISH_TRANSCRIPT"
    case RateLimited => "RATE_LIMITED"
    case UnknownError => "UNKNOWN_ERROR"
  }

  /** The class name or the message says no English transcript exists. */
  predicate NonEnglishSign(errorType: string, message: string) {
    Contains(errorType, "NoTranscriptFound") || Contains(errorType, "NoTranscriptAvailable") ||
    Contains(message, "No transcripts were found") || Contains(message, "language codes")
  }

  /** The message says YouTube is refusing requests. */
  predicate RateLimitSign(message: string) {
    Contains(message, "429") || Contains(message, "Too Many Requests") || Contains(Lower(message), "rate limit")
  }

  /** Classifies a fetch exception by its class name and message, the first
      matching test winning: each outcome holds exactly when its own test
      passes and no earlier one does. */
  function ClassifyFetchError(errorType: string, message: string): (e: ErrorType)
    ensures e == NoTranscript <==> Contains(errorType, "TranscriptsDisabled")
    ensures e == VideoUnavailable <==>
      !Contains(errorType, "TranscriptsDisabled") && Contains(errorType, "VideoUnavailable")
    ensures e == NonEnglishTranscript <==>
      !Contains(errorType, "TranscriptsDisabled") && !Contains(errorType, "VideoUnavailable") &&
      NonEnglishSign(errorType, message)
    ensures e == RateLimited <==>
      !Contains(errorType, "TranscriptsDisabled") && !Contains(errorType, "VideoUnavailable") &&
      !NonEnglishSign(errorType, message) && RateLimitSign(message)
    ensures e == UnknownError <==>
      !Contains(errorType, "TranscriptsDisabled") && !Contains(errorType, "VideoUnavailable") &&
      !NonEnglishSign(errorType, message) && !RateLimitSign(message)
  {
    if Contains(errorType, "TranscriptsDisabled") then NoTranscript
    else if Contains(errorType, "VideoUnavailable") then VideoUnavailable
    else if Contains(errorType, "NoTranscriptFound") || Contains(errorType, "NoTranscriptAvailable") then NonEnglishTranscript
    else if Contains(message, "No transcripts were found") || Contains(message, "language codes") then NonEnglishTranscript
    else if Contains(message, "429") || Contains(message, "Too Many Requests") || Contains(Lower(message), "rate limit") then RateLimited
    else UnknownError
  }

  const NonEnglishMessage := "Currently, only English videos are supported. This video does not have English captions/subtitles available. Please try a video with English captions."

  /** The user-facing message for each error type; the unknown type carries the exception text. */
  function ErrorMessage(e: ErrorType, message: string): string
  {
    match e
    case NoTranscript => "This video does not have captions/subtitles enabled."
    case VideoUnavailable => "This video is unavailable, private, or does not exist."
    case NonEnglishTranscript => NonEnglishMessage
    case RateLimited => "YouTube has temporarily blocked transcript requests due to too many requests. Please wait 15-30 minutes and try again."
    case UnknownError => "Could not retrieve English transcript: " + message
  }

  // ---------------------------------------------------------------------------
  // extract_transcript and main

  /** What fetching the English transcript did. */
  datatype Fetch = Fetched(snippets: seq<Segment>, language: Option<string>) | FetchFailed(errorType: string, message: string)

  /** The JSON the script prints. */
  datatype TranscriptJson =
    | TranscriptOk(video_id: string, title: string, transcript: seq<Segment>, total_duration: real,
                   segment_count: nat, language: string)
    | TranscriptFailed(error: string, error_type: Option<ErrorType>, failed_video_id: Option<string>)

  /** `extract_transcript`. `title` is what the oEmbed lookup found, if anything. */
  function ExtractTranscript(videoId: string, title: Option<string>, fetch: Fetch, clean: string -> string): (r: TranscriptJson)
    ensures r.TranscriptOk? <==> fetch.Fetched? && |fetch.snippets| > 0
    ensures r.TranscriptOk? ==> r.video_id == videoId && r.segment_count == |r.transcript|
    ensures r.TranscriptOk? ==> r.title == title.GetOr(DefaultTitlePrefix + videoId)
    ensures r.TranscriptOk? ==> r.transcript == MergeShortSegments(ProcessSnippets(fetch.snippets, clean), MinDuration)
    ensures r.TranscriptOk? ==> TranscriptText(r.transcript) == TranscriptText(ProcessSnippets(fetch.snippets, clean))
    ensures r.TranscriptOk? ==> r.total_duration == PyRound(MaxEnd(Filter(fetch.snippets, Kept(clean))), 2)
    ensures r.TranscriptFailed? ==> r.failed_video_id == Some(videoId)
    ensures fetch.FetchFailed? ==> r.error_type == Some(ClassifyFetchError(fetch.errorType, fetch.message))
  {
    match fetch
    case FetchFailed(t, m) =>
      var e := ClassifyFetchError(t, m);
      TranscriptFailed(ErrorMessage(e, m), Some(e), Some(videoId))
    case Fetched(snippets, language) =>
      if |snippets| == 0 then TranscriptFailed(NoSnippetsMessage, None, Some(videoId))
      else
        var p := ProcessSnippets(snippets, clean);
        var merged := MergeShortSegments(p, MinDuration);
        MergeKeepsText(p, MinDuration);
        var total := PyRound(MaxEnd(Filter(snippets, Kept(clean))), 2);
        TranscriptOk(videoId, title.GetOr(DefaultTitlePrefix + videoId), merged, total, |merged|, language.GetOr("en"))
  }

  /** `validate_video_id`: `re.match` with `^...{11}$`; Python's `$` also
      matches just before a final newline. */
  predicate ValidateVideoId(s: string) {
    IsVideoId(s) || (|s| == 12 && s[11] == '\n' && IsVideoId(s[..11]))
  }

  /** On a stripped argument the newline allowance never applies. */
  lemma {:induction false} ValidateStrippedId(s: string)
    ensures ValidateVideoId(Strip(s)) <==> IsVideoId(Strip(s))
  {
    var t := Strip(s);
    if |t| == 12 {
      assert !IsPySpace(t[11]);
    }
  }

  /** The command-line entry point: the printed JSON and the exit status. */
  function ScriptMain(argv: seq<string>, extract: string -> TranscriptJson): (r: Exit<TranscriptJson>)
    ensures r.code == 0 || r.code == 1
    ensures r.code == 0 <==> r.output.TranscriptOk?
    ensures r.code == 0 ==> |argv| == 1 && IsVideoId(Strip(argv[0])) && r.output == extract(Strip(argv[0]))
  {
    if |argv| != 1 then
      Exit(TranscriptFailed(UsageMessage, None, None), 1)
    else
      var id := Strip(argv[0]);
      ValidateStrippedId(argv[0]);
      if !ValidateVideoId(id) then
        Exit(TranscriptFailed(BadIdMessage, None, None), 1)
      else
        var result := extract(id);
        Exit(result, if result.TranscriptOk? then 0 else 1)
  }
}
