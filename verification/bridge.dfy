/** The bridge between the web server and the Python scripts. Spawning a
    process is not modelled; what the process did is given as a
    `ProcessOutcome`, and the bridge turns every outcome into the uniform
    `PythonResult` envelope. The temp-file stages are modelled as the list of
    side effects they perform plus the envelope they return. */
module PythonBridge {
  import opened Core
  import opened Text
  import Models

  /** How a script run ended. `Closed` carries the exit code, `None` when the
      process was killed by a signal (the timeout kill included); `SpawnError`
      is the process's `error` event (the executable could not be started). */
  datatype ProcessOutcome =
    | Closed(code: Option<int>, stdout: string, stderr: string)
    | SpawnError(message: string, stdout: string, stderr: string)

  /** Result of `JSON.parse` on the collected standard output. */
  datatype Parse<J> = Parsed(value: J) | ParseFailed(reason: string)

  /** The envelope every bridge call resolves with. */
  datatype PythonResult<J> = PythonResult(
    success: bool,
    data: Option<J>,
    error: Option<string>,
    stdout: Option<string>,
    stderr: Option<string>)

  const ParseFailurePrefix := "Failed to parse Python script output: "
  const ExitFailurePrefix := "Python script failed with code "
  const SpawnFailurePrefix := "Failed to execute Python script: "

  /** `${code}` for a number or `null`. */
  function CodeText(code: Option<int>): string
  {
    match code
    case Some(c) => IntToString(c)
    case None => "null"
  }

  /** `executeScript`: exit code 0 with parseable output is the only success;
      every other ending is a failure with its own message, and the collected
      output streams are always passed back. */
  function ExecuteScript<J>(o: ProcessOutcome, parse: string -> Parse<J>): (r: PythonResult<J>)
    ensures r.success <==> o.Closed? && o.code == Some(0) && parse(o.stdout).Parsed?
    ensures r.success ==> r.data == Some(parse(o.stdout).value) && r.error.None?
    ensures !r.success ==> r.data.None? && r.error.Some?
    ensures r.stdout == Some(o.stdout) && r.stderr == Some(o.stderr)
  {
    match o
    case Closed(code, out, err) =>
      if code == Some(0) then
        match parse(out)
        case Parsed(v) => PythonResult(true, Some(v), None, Some(out), Some(err))
        case ParseFailed(why) => PythonResult(false, None, Some(ParseFailurePrefix + why), Some(out), Some(err))
      else
        PythonResult(false, None, Some(ExitFailurePrefix + CodeText(code)), Some(out), Some(err))
    case SpawnError(msg, out, err) =>
      PythonResult(false, None, Some(SpawnFailurePrefix + msg), Some(out), Some(err))
  }

  /** The three ways a script run fails. */
  datatype FailureKind = UnparseableOutput | NonZeroExit | NotStarted

  /** Which failure an outcome is, if it is one. */
  function KindOf<J>(o: ProcessOutcome, parse: string -> Parse<J>): Option<FailureKind>
  {
    match o
    case Closed(code, out, _) =>
      if code != Some(0) then Some(NonZeroExit)
      else if parse(out).ParseFailed? then Some(UnparseableOutput)
      else None
    case SpawnError(_, _, _) => Some(NotStarted)
  }

  /** Reads the failure kind back from an error message by its prefix. */
  function KindOfMessage(msg: string): Option<FailureKind>
  {
    if ParseFailurePrefix <= msg then Some(UnparseableOutput)
    else if ExitFailurePrefix <= msg then Some(NonZeroExit)
    else if SpawnFailurePrefix <= msg then Some(NotStarted)
    else None
  }

  /** The three failure messages are distinct: the message alone tells which
      kind of failure happened, and a failure happened exactly when the
      outcome is one of the three kinds. */
  lemma {:induction false} FailureMessagesAreDistinct<J>(o: ProcessOutcome, parse: string -> Parse<J>)
    ensures var r := ExecuteScript(o, parse);
      r.success <==> KindOf(o, parse).None?
    ensures var r := ExecuteScript(o, parse);
      !r.success ==> KindOfMessage(r.error.value) == KindOf(o, parse)
  {
    var r := ExecuteScript(o, parse);
    if !r.success {
      var msg := r.error.value;
      match o
      case Closed(code, out, _) =>
        if code != Some(0) {
          assert msg == ExitFailurePrefix + CodeText(code);
          assert msg[0] == 'P';
          assert ExitFailurePrefix <= msg;
        } else {
          assert msg == ParseFailurePrefix + parse(out).reason;
          assert ParseFailurePrefix <= msg;
        }
      case SpawnError(m, _, _) =>
        assert msg == SpawnFailurePrefix + m;
        assert msg[10] == 'e';
        assert SpawnFailurePrefix <= msg;
    }
  }

  /** An exit failure's message names the exit code it saw. */
  lemma {:induction false} ExitMessageNamesCode<J>(code: int, out: string, err: string, parse: string -> Parse<J>)
    requires code != 0
    ensures var r := ExecuteScript(Closed(Some(code), out, err), parse);
      r.error == Some(ExitFailurePrefix + IntToString(code)) &&
      (code > 0 ==> ParseNat(r.error.value[|ExitFailurePrefix|..]) == Some(code))
  {
    var r := ExecuteScript(Closed(Some(code), out, err), parse);
    if code > 0 {
      assert r.error.value[|ExitFailurePrefix|..] == NatToString(code);
      ParseNatToString(code);
    }
  }

  // ---------------------------------------------------------------------------
  // Invocations and the per-stage timeouts

  /** One call of `executeScript`: the script, its arguments and the timeout in milliseconds. */
  datatype Invocation = Invocation(script: string, args: seq<string>, timeoutMs: nat)

  const TranscriptTimeoutMs: nat := 60000
  const SummaryTimeoutMs: nat := 180000
  const SentimentTimeoutMs: nat := 300000
  const EmbeddingsTimeoutMs: nat := 180000
  const SemanticSearchTimeoutMs: nat := 30000

  /** `extractTranscript`. */
  function TranscriptInvocation(videoId: string): (inv: Invocation)
    ensures inv.script == "transcript_extractor.py" && inv.args == [videoId]
    ensures inv.timeoutMs == 60000
  {
    Invocation("transcript_extractor.py", [videoId], TranscriptTimeoutMs)
  }

  /** `semanticSearch`: the query and the limit rendered in decimal. */
  function SemanticSearchInvocation(query: string, limit: int): (inv: Invocation)
    ensures inv.script == "semantic_search.py" && |inv.args| == 2 && inv.args[0] == query
    ensures inv.timeoutMs == 30000
  {
    Invocation("semantic_search.py", [query, IntToString(limit)], SemanticSearchTimeoutMs)
  }

  /** The script reads back the limit the server passed. */
  lemma {:induction false} SemanticSearchLimitRoundTrip(query: string, limit: nat)
    ensures ParseNat(SemanticSearchInvocation(query, limit).args[1]) == Some(limit)
  {
    ParseNatToString(limit);
  }

  // ---------------------------------------------------------------------------
  // Temp-file stages

  /** The JSON written to a stage's temporary file. */
  datatype Payload =
    | SummaryPayload(transcript_text: string)
    | SentimentPayload(segments: seq<Models.Segment>)
    | EmbeddingsPayload(
        video_id: string,
        transcript_text: string,
        transcript_segments: seq<Models.Segment>,
        title: string,
        summary: string)

  /** The observable side effects of a temp-file stage, in order. */
  datatype Effect =
    | WriteFile(path: string, payload: Payload)
    | Run(inv: Invocation)
    | Unlink(path: string)

  datatype StageRun<J> = StageRun(effects: seq<Effect>, result: PythonResult<J>)

  /** The three temp-file stages share one shape: write the payload, run the
      script on the file, delete the file on the normal and on the error
      path. `writeError` is the failure of the write, if any; a failed
      delete is swallowed, so its outcome is not an input at all. */
  function TempFileStage<J>(
    path: string, payload: Payload, inv: Invocation, failurePrefix: string,
    writeError: Option<string>, o: ProcessOutcome, parse: string -> Parse<J>): (r: StageRun<J>)
    ensures |r.effects| >= 2 && r.effects[0] == WriteFile(path, payload)
    ensures r.effects[|r.effects| - 1] == Unlink(path)
    ensures Run(inv) in r.effects <==> writeError.None?
    ensures writeError.None? ==> r.result == ExecuteScript(o, parse)
    ensures writeError.Some? ==>
      r.result == PythonResult(false, None, Some(failurePrefix + writeError.value), None, None)
  {
    match writeError
    case None => StageRun([WriteFile(path, payload), Run(inv), Unlink(path)], ExecuteScript(o, parse))
    case Some(e) =>
      StageRun([WriteFile(path, payload), Unlink(path)], PythonResult(false, None, Some(failurePrefix + e), None, None))
  }

  /** `generateSummary`. */
  function GenerateSummary<J>(path: string, transcriptText: string, writeError: Option<string>,
                              o: ProcessOutcome, parse: string -> Parse<J>): StageRun<J>
  {
    TempFileStage(path, SummaryPayload(transcriptText), Invocation("summarizer.py", [path], SummaryTimeoutMs),
                  "Failed to generate summary: ", writeError, o, parse)
  }

  /** `analyzeSentiment`. */
  function AnalyzeSentiment<J>(path: string, segments: seq<Models.Segment>, writeError: Option<string>,
                               o: ProcessOutcome, parse: string -> Parse<J>): StageRun<J>
  {
    TempFileStage(path, SentimentPayload(segments), Invocation("sentiment_analyzer.py", [path], SentimentTimeoutMs),
                  "Failed to process sentiment analysis: ", writeError, o, parse)
  }

  /** JavaScript `s || ''` on an optional string. */
  function OrEmpty(s: Option<string>): (r: string)
    ensures s.Some? ==> r == s.value
    ensures s.None? ==> r == ""
  {
    s.GetOr("")
  }

  /** The embeddings payload: a missing title or summary becomes `''`. */
  function EmbeddingsPayloadOf(videoId: string, text: string, segments: seq<Models.Segment>,
                               title: Option<string>, summary: Option<string>): Payload
  {
    EmbeddingsPayload(videoId, text, segments, OrEmpty(title), OrEmpty(summary))
  }

  /** `generateEmbeddings`: the `store` sub-command on the temp file. */
  function GenerateEmbeddings<J>(path: string, videoId: string, text: string, segments: seq<Models.Segment>,
                                 title: Option<string>, summary: Option<string>, writeError: Option<string>,
                                 o: ProcessOutcome, parse: string -> Parse<J>): StageRun<J>
  {
    TempFileStage(path, EmbeddingsPayloadOf(videoId, text, segments, title, summary),
                  Invocation("embedding_generator.py", ["store", path], EmbeddingsTimeoutMs),
                  "Failed to generate embeddings: ", writeError, o, parse)
  }

  /** Every temp-file stage writes its file first and deletes it last, runs
      the script it is meant to with the file as its last argument and the
      fixed timeout, and a write failure skips the script. */
  lemma {:induction false} StagesCleanUpAndUseTheirTimeouts<J>(path: string, text: string, segments: seq<Models.Segment>,
                                            videoId: string, title: Option<string>, summary: Option<string>,
                                            writeError: Option<string>, o: ProcessOutcome, parse: string -> Parse<J>)
    ensures var s := GenerateSummary(path, text, writeError, o, parse);
      s.effects[|s.effects| - 1] == Unlink(path) &&
      (writeError.None? <==> Run(Invocation("summarizer.py", [path], 180000)) in s.effects)
    ensures var s := AnalyzeSentiment(path, segments, writeError, o, parse);
      s.effects[|s.effects| - 1] == Unlink(path) &&
      (writeError.None? <==> Run(Invocation("sentiment_analyzer.py", [path], 300000)) in s.effects)
    ensures var s := GenerateEmbeddings(path, videoId, text, segments, title, summary, writeError, o, parse);
      s.effects[|s.effects| - 1] == Unlink(path) &&
      s.effects[0] == WriteFile(path, EmbeddingsPayload(videoId, text, segments, title.GetOr(""), summary.GetOr(""))) &&
      (writeError.None? <==> Run(Invocation("embedding_generator.py", ["store", path], 180000)) in s.effects)
  {
  }
}
