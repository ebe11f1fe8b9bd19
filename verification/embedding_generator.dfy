/** The embedding script: overlapping word chunks of a transcript, the
    document list stored for one video (title, summary, chunks), the replace
    semantics of storing, the per-video dedup of its own search, and the
    command-line dispatch. The sentence-embedding model and the vector
    store's nearest-neighbour query are parameters. */
module EmbeddingGenerator {
  import opened Core
  import opened Text
  import opened Models
  import Ranking

  // ---------------------------------------------------------------------------
  // chunk_text

  const ChunkSize: nat := 500
  const ChunkOverlap: nat := 50
  // The message quotes the argument as Python's `repr` does for plain
  // text; an argument holding a quote or a backslash, which `repr` puts
  // in double quotes or escapes, is quoted the plain way here.
  const InvalidLiteralPrefix := "Unexpected error: invalid literal for int() with base 10: '"
  const EmbedFailedPrefix := "Failed to store embeddings: Failed to generate embeddings: "
  const DivisionByZeroMessage := "Failed to store embeddings: division by zero"
  const StoreFailedPrefix := "Failed to store embeddings: "
  const NoChunksMessage := "No valid text chunks generated"
  const EmptyQueryMessage := "Empty query provided"
  const SearchFailedPrefix := "Search failed: "
  const UsageMessage := "Usage: python embedding_generator.py <command> [args...]"
  const UnexpectedPrefix := "Unexpected error: "
  const InvalidJsonPrefix := "Invalid JSON input: "
  const InvalidCommandMessage := "Invalid command. Use \"store\" or \"search\"."
  const ChunkInfix := "_chunk_"
  const TitleSuffix := "_title"
  const SummarySuffix := "_summary"
  const StoreCommand := "store"
  const SearchCommand := "search"

  /** The words of one chunk: at most `size` words from `start`. */
  function Span(words: seq<string>, size: nat, start: nat): (c: seq<string>)
    requires start <= |words|
    ensures |c| <= size
  {
    words[start..Min(start + size, |words|)]
  }

  /** The chunking loop from word `start` on: take up to `size` words, stop
      once the last word is taken, otherwise back up by `overlap` words. */
  function ChunksFrom(words: seq<string>, size: nat, overlap: nat, start: nat): (cs: seq<seq<string>>)
    requires overlap < size && start < |words|
    ensures |cs| >= 1 && cs[0] == Span(words, size, start)
    decreases |words| - start
  {
    var end := Min(start + size, |words|);
    if end >= |words| then [words[start..end]]
    else [words[start..end]] + ChunksFrom(words, size, overlap, end - overlap)
  }

  /** The word positions the loop starts its chunks at, over `n` words. */
  function ChunkStarts(n: nat, size: nat, overlap: nat, start: nat): (ss: seq<nat>)
    requires overlap < size && start < n
    ensures |ss| >= 1 && ss[0] == start
    decreases n - start
  {
    if start + size >= n then [start] else [start] + ChunkStarts(n, size, overlap, start + size - overlap)
  }

  /** Each chunk is the span at its start. */
  lemma {:induction false} ChunksAreSpans(words: seq<string>, size: nat, overlap: nat, start: nat)
    requires overlap < size && start < |words|
    ensures var cs := ChunksFrom(words, size, overlap, start);
      var ss := ChunkStarts(|words|, size, overlap, start);
      |cs| == |ss| && forall i | 0 <= i < |cs| :: ss[i] < |words| && cs[i] == Span(words, size, ss[i])
    decreases |words| - start
  {
    if start + size < |words| {
      var next := start + size - overlap;
      ChunksAreSpans(words, size, overlap, next);
      var cs := ChunksFrom(words, size, overlap, start);
      var ss := ChunkStarts(|words|, size, overlap, start);
      assert cs == [Span(words, size, start)] + ChunksFrom(words, size, overlap, next);
      assert ss == [start] + ChunkStarts(|words|, size, overlap, next);
    }
  }

  /** Consecutive starts are `size - overlap` words apart; every chunk but
      the last stops short of the final word, and the last one reaches it. */
  lemma {:induction false} ChunkStartsStep(n: nat, size: nat, overlap: nat, start: nat)
    requires overlap < size && start < n
    ensures var ss := ChunkStarts(n, size, overlap, start);
      (forall i | 0 <= i < |ss| - 1 :: ss[i + 1] == ss[i] + (size - overlap) && ss[i] + size < n) &&
      ss[|ss| - 1] + size >= n
    decreases n - start
  {
    if start + size < n {
      var next := start + size - overlap;
      ChunkStartsStep(n, size, overlap, next);
      var ss := ChunkStarts(n, size, overlap, start);
      var rest := ChunkStarts(n, size, overlap, next);
      assert ss == [start] + rest;
      forall i | 0 <= i < |ss| - 1
        ensures ss[i + 1] == ss[i] + (size - overlap) && ss[i] + size < n
      {
        if i > 0 {
          assert ss[i] == rest[i - 1] && ss[i + 1] == rest[i];
        }
      }
    }
  }

  /** Chunk `i` starts at word `start + i * (size - overlap)`. */
  lemma {:induction false} ChunkStartsAreMultiples(n: nat, size: nat, overlap: nat, start: nat)
    requires overlap < size && start < n
    ensures var ss := ChunkStarts(n, size, overlap, start);
      forall i | 0 <= i < |ss| :: ss[i] == start + i * (size - overlap)
  {
    var ss := ChunkStarts(n, size, overlap, start);
    var step := size - overlap;
    ChunkStartsStep(n, size, overlap, start);
    forall i | 0 <= i < |ss| ensures ss[i] == start + i * step {
      StartsByInduction(ss, start, step, i);
    }
  }

  lemma {:induction false} StartsByInduction(ss: seq<nat>, start: nat, step: int, i: nat)
    requires |ss| >= 1 && ss[0] == start && i < |ss|
    requires forall j | 0 <= j < |ss| - 1 :: ss[j + 1] == ss[j] + step
    ensures ss[i] == start + i * step
  {
    if i > 0 {
      StartsByInduction(ss, start, step, i - 1);
      assert ss[i] == ss[i - 1] + step;
      assert (i - 1) * step + step == i * step;
    }
  }

  /** The first chunk from `start` that holds word `k`. */
  function CoveringChunk(n: nat, size: nat, overlap: nat, start: nat, k: nat): nat
    requires overlap < size && start <= k < n
    decreases n - start
  {
    if k < start + size || start + size >= n then 0
    else 1 + CoveringChunk(n, size, overlap, start + (size - overlap), k)
  }

  /** Every word from `start` on lies in the span of its covering chunk;
      with `ChunkTextShape`, every word of the text is in some chunk. */
  lemma {:induction false} ChunksFromCover(words: seq<string>, size: nat, overlap: nat, start: nat, k: nat)
    requires overlap < size && start <= k < |words|
    ensures var ss := ChunkStarts(|words|, size, overlap, start);
      var i := CoveringChunk(|words|, size, overlap, start, k);
      i < |ss| && ss[i] <= k < Min(ss[i] + size, |words|)
    decreases |words| - start
  {
    if !(k < start + size || start + size >= |words|) {
      var next := start + (size - overlap);
      ChunksFromCover(words, size, overlap, next, k);
      var ss := ChunkStarts(|words|, size, overlap, start);
      assert ss == [start] + ChunkStarts(|words|, size, overlap, next);
    }
  }

  /** `chunk_text`: the text itself when it has at most `size` words (the
      empty text included), otherwise the word chunks re-joined by single
      spaces. With `overlap >= size` and more than `size` words the loop
      never ends, which the precondition excludes. */
  function ChunkText(text: string, size: nat, overlap: nat): (r: seq<string>)
    requires overlap < size || |Words(text)| <= size
    ensures |r| >= 1
    ensures |Words(text)| <= size ==> r == [text]
  {
    var words := Words(text);
    if |words| <= size then [text]
    else Map(ChunksFrom(words, size, overlap, 0), JoinWords)
  }

  /** Re-splitting a joined span gives the span back. */
  lemma {:induction false} SpanWords(words: seq<string>, size: nat, start: nat)
    requires start <= |words|
    requires forall k | 0 <= k < |words| :: IsWord(words[k])
    ensures Words(JoinWords(Span(words, size, start))) == Span(words, size, start)
  {
    var c := Span(words, size, start);
    assert forall k | 0 <= k < |c| :: IsWord(c[k]) by {
      forall k | 0 <= k < |c| ensures IsWord(c[k]) {
        assert c[k] == words[start + k];
      }
    }
    WordsOfJoin(c);
  }

  /** Chunk `i` re-split into words is the span of the text's words at the
      `i`-th start. */
  lemma {:induction false} ChunkWords(text: string, size: nat, overlap: nat, i: nat)
    requires overlap < size && |Words(text)| > size
    requires i < |ChunkText(text, size, overlap)|
    ensures var ss := ChunkStarts(|Words(text)|, size, overlap, 0);
      i < |ss| && ss[i] < |Words(text)| &&
      Words(ChunkText(text, size, overlap)[i]) == Span(Words(text), size, ss[i])
  {
    var words := Words(text);
    var cs := ChunksFrom(words, size, overlap, 0);
    var ss := ChunkStarts(|words|, size, overlap, 0);
    ChunksAreSpans(words, size, overlap, 0);
    assert ChunkText(text, size, overlap)[i] == JoinWords(cs[i]);
    assert cs[i] == Span(words, size, ss[i]);
    SpanWords(words, size, ss[i]);
  }

  /** Chunk `i` re-split into words is the text's words from the `i`-th
      start on (word `i * (size - overlap)`, by `StartAt`), at most `size` of
      them; every chunk but the last holds exactly `size` words, and the last
      one ends at the final word. */
  lemma {:induction false} ChunkTextShape(text: string, size: nat, overlap: nat, i: nat)
    requires overlap < size && |Words(text)| > size
    requires i < |ChunkText(text, size, overlap)|
    ensures var r := ChunkText(text, size, overlap); var words := Words(text);
      var ss := ChunkStarts(|words|, size, overlap, 0);
      |ss| == |r| && ss[i] < |words| &&
      Words(r[i]) == words[ss[i]..Min(ss[i] + size, |words|)] &&
      (i < |r| - 1 ==> |Words(r[i])| == size) &&
      (i == |r| - 1 ==> ss[i] + |Words(r[i])| == |words|)
  {
    ChunkWords(text, size, overlap, i);
    ChunkCount(text, size, overlap);
    StartAt(|Words(text)|, size, overlap, i);
  }

  /** There is one chunk per start. */
  lemma {:induction false} ChunkCount(text: string, size: nat, overlap: nat)
    requires overlap < size && |Words(text)| > size
    ensures |ChunkText(text, size, overlap)| == |ChunkStarts(|Words(text)|, size, overlap, 0)|
  {
    ChunksAreSpans(Words(text), size, overlap, 0);
  }

  /** The `i`-th start from word 0, and where its chunk stops. */
  lemma {:induction false} StartAt(n: nat, size: nat, overlap: nat, i: nat)
    requires overlap < size && size < n
    requires i < |ChunkStarts(n, size, overlap, 0)|
    ensures var ss := ChunkStarts(n, size, overlap, 0);
      ss[i] == i * (size - overlap) &&
      (i < |ss| - 1 ==> ss[i] + size < n) &&
      (i == |ss| - 1 ==> ss[i] + size >= n)
  {
    ChunkStartsStep(n, size, overlap, 0);
    ChunkStartsAreMultiples(n, size, overlap, 0);
  }

  // ---------------------------------------------------------------------------
  // Document ids and the document list

  /** `create_document_id`. */
  function DocumentId(videoId: string, chunkIndex: nat): string
  {
    videoId + ChunkInfix + NatToString(chunkIndex)
  }

  /** The chunk index can be read back from a document id. */
  lemma {:induction false} DocumentIdRoundTrip(videoId: string, chunkIndex: nat)
    ensures var d := DocumentId(videoId, chunkIndex);
      |d| > |videoId| + 7 && d[..|videoId| + 7] == videoId + ChunkInfix &&
      ParseNat(d[|videoId| + 7..]) == Some(chunkIndex)
  {
    var d := DocumentId(videoId, chunkIndex);
    assert d[|videoId| + 7..] == NatToString(chunkIndex);
    ParseNatToString(chunkIndex);
  }

  /** Different chunk indices give different ids. */
  lemma {:induction false} DocumentIdsDistinct(videoId: string, i: nat, j: nat)
    requires i != j
    ensures DocumentId(videoId, i) != DocumentId(videoId, j)
  {
    DocumentIdRoundTrip(videoId, i);
    DocumentIdRoundTrip(videoId, j);
  }

  datatype ChunkType = TitleChunk | SummaryChunk | TranscriptChunk

  /** The metadata stored with each document. */
  datatype Metadata = Metadata(
    video_id: string,
    chunk_index: int,
    estimated_timestamp: real,
    word_count: nat,
    chunk_type: ChunkType)

  /** The four parallel lists handed to the vector store. */
  datatype Documents = Documents(
    ids: seq<string>,
    documents: seq<string>,
    texts: seq<string>,
    metadatas: seq<Metadata>)

  predicate Parallel(d: Documents) {
    |d.ids| == |d.documents| == |d.texts| == |d.metadatas|
  }

  /** Appends one document to all four lists; the text embedded is the document itself. */
  function Add(d: Documents, id: string, doc: string, meta: Metadata): (r: Documents)
    requires Parallel(d)
    ensures Parallel(r) && |r.ids| == |d.ids| + 1
    ensures r.ids == d.ids + [id] && r.documents == d.documents + [doc] && r.metadatas == d.metadatas + [meta]
    ensures r.texts == r.documents <== d.texts == d.documents
  {
    Documents(d.ids + [id], d.documents + [doc], d.texts + [doc], d.metadatas + [meta])
  }

  /** `bool(s)` on a Python string. */
  predicate Truthy(s: string) { |s| > 0 }

  /** The title document (chunk index -1) and the summary document (chunk
      index -2), each present when its text is not blank. */
  function HeaderDocuments(videoId: string, title: string, summary: string): (r: Documents)
    ensures Parallel(r) && r.texts == r.documents
  {
    var empty := Documents([], [], [], []);
    var withTitle :=
      if Truthy(title) && !IsPyBlank(title) then
        Add(empty, videoId + TitleSuffix, title, Metadata(videoId, -1, 0.0, |Words(title)|, TitleChunk))
      else empty;
    if Truthy(summary) && !IsPyBlank(summary) then
      Add(withTitle, videoId + SummarySuffix, summary, Metadata(videoId, -2, 0.0, |Words(summary)|, SummaryChunk))
    else withTitle
  }

  /** The end of the last segment, the duration the chunk timestamps are scaled by. */
  function LastSegmentEnd(segments: seq<Segment>): real
  {
    if |segments| == 0 then 0.0
    else segments[|segments| - 1].start + segments[|segments| - 1].duration
  }

  /** How far into the transcript chunk `i` is taken to start:
      `(i * words in the chunk) / words in the transcript`. */
  function Progress(i: nat, chunkWords: nat, totalWords: nat): real
    requires totalWords > 0
  {
    (i * chunkWords) as real / totalWords as real
  }

  /** The metadata of chunk `i`: its estimated timestamp is its progress
      times the duration, rounded to two decimals. */
  function ChunkMetadata(videoId: string, chunk: string, i: nat, totalWords: nat, duration: real): Metadata
    requires totalWords > 0
  {
    var wpc := |Words(chunk)|;
    Metadata(videoId, i, EstimatedTimestamp(i, wpc, totalWords, duration), wpc, TranscriptChunk)
  }

  /** The progress of a chunk times the duration, rounded to two decimals. */
  function EstimatedTimestamp(i: nat, chunkWords: nat, totalWords: nat, duration: real): real
    requires totalWords > 0
  {
    PyRound(Progress(i, chunkWords, totalWords) * duration, 2)
  }

  /** On a transcript of non-negative length the estimated timestamps are
      never negative, and the first chunk is stamped at 0. */
  lemma {:induction false} ChunkTimestampNonNegative(videoId: string, chunk: string, i: nat, totalWords: nat, duration: real)
    requires totalWords > 0 && duration >= 0.0
    ensures ChunkMetadata(videoId, chunk, i, totalWords, duration).estimated_timestamp >= 0.0
    ensures i == 0 ==> ChunkMetadata(videoId, chunk, i, totalWords, duration).estimated_timestamp == 0.0
  {
    EstimatedTimestampBounds(i, |Words(chunk)|, totalWords, duration);
  }

  lemma {:induction false} EstimatedTimestampBounds(i: nat, chunkWords: nat, totalWords: nat, duration: real)
    requires totalWords > 0 && duration >= 0.0
    ensures EstimatedTimestamp(i, chunkWords, totalWords, duration) >= 0.0
    ensures i == 0 ==> EstimatedTimestamp(i, chunkWords, totalWords, duration) == 0.0
  {
    var progress := Progress(i, chunkWords, totalWords);
    ProgressBounds(i, chunkWords, totalWords);
    ScaledNonNegative(progress, duration);
    PyRoundNonNegative(progress * duration, 2);
    if i == 0 {
      ScaledZero(progress, duration);
      PyRoundFixed(0.0, 0, 2);
    }
  }

  lemma {:induction false} ProgressBounds(i: nat, chunkWords: nat, totalWords: nat)
    requires totalWords > 0
    ensures Progress(i, chunkWords, totalWords) >= 0.0
    ensures i == 0 ==> Progress(i, chunkWords, totalWords) == 0.0
  {
    var n := (i * chunkWords) as real;
    var d := totalWords as real;
    assert n >= 0.0 && d > 0.0;
    if i == 0 {
      assert n == 0.0;
    }
  }

  lemma {:induction false} ScaledNonNegative(progress: real, duration: real)
    requires progress >= 0.0 && duration >= 0.0
    ensures progress * duration >= 0.0
  {
    if duration > 0.0 {
      MulMonotone(0.0, progress, duration);
    }
  }

  lemma {:induction false} ScaledZero(progress: real, duration: real)
    requires progress == 0.0
    ensures progress * duration == 0.0
  {
  }

  /** The transcript chunks' documents, in order, under their chunk ids. */
  function ChunkDocuments(videoId: string, chunks: seq<string>, totalWords: nat, duration: real): (r: Documents)
    requires totalWords > 0
    ensures Parallel(r) && |r.ids| == |chunks| && r.texts == r.documents == chunks
    ensures forall k | 0 <= k < |chunks| ::
      r.ids[k] == DocumentId(videoId, k) && r.metadatas[k] == ChunkMetadata(videoId, chunks[k], k, totalWords, duration)
    ensures forall k | 0 <= k < |chunks| ::
      && r.metadatas[k].video_id == videoId
      && r.metadatas[k].chunk_index == k
      && r.metadatas[k].word_count == |Words(chunks[k])|
      && r.metadatas[k].chunk_type == TranscriptChunk
      && r.metadatas[k].estimated_timestamp == EstimatedTimestamp(k, |Words(chunks[k])|, totalWords, duration)
  {
    Documents(
      seq(|chunks|, k requires 0 <= k < |chunks| => DocumentId(videoId, k)),
      chunks, chunks,
      seq(|chunks|, k requires 0 <= k < |chunks| => ChunkMetadata(videoId, chunks[k], k, totalWords, duration)))
  }

  /** The lists of `a` followed by those of `b`. */
  function Concat(a: Documents, b: Documents): (r: Documents)
    requires Parallel(a) && Parallel(b)
    ensures Parallel(r) && |r.ids| == |a.ids| + |b.ids|
    ensures r.ids[..|a.ids|] == a.ids && r.documents[..|a.ids|] == a.documents
    ensures forall k | 0 <= k < |b.ids| :: r.ids[|a.ids| + k] == b.ids[k] && r.documents[|a.ids| + k] == b.documents[k]
    ensures a.texts == a.documents && b.texts == b.documents ==> r.texts == r.documents
  {
    Documents(a.ids + b.ids, a.documents + b.documents, a.texts + b.texts, a.metadatas + b.metadatas)
  }

  /** The full document list: header documents, then one per chunk. The
      chunk loop divides by the transcript's word count, so a transcript
      with no words raises `ZeroDivisionError`, reported as `None`. */
  function AssembleDocuments(videoId: string, text: string, segments: seq<Segment>, title: string, summary: string): (r: Option<Documents>)
    ensures r.None? <==> |Words(text)| == 0
  {
    var header := HeaderDocuments(videoId, title, summary);
    var chunks := ChunkText(text, ChunkSize, ChunkOverlap);
    var total := |Words(text)|;
    if total == 0 then None
    else Some(Concat(header, ChunkDocuments(videoId, chunks, total, LastSegmentEnd(segments))))
  }

  /** The document list for a transcript with words: four parallel lists;
      a title document exactly when the title is not blank, then a summary
      document exactly when the summary is not blank, then the chunks in
      order under their chunk ids. */
  lemma {:induction false} AssembledLayout(videoId: string, text: string, segments: seq<Segment>, title: string, summary: string)
    requires |Words(text)| > 0
    ensures var d := AssembleDocuments(videoId, text, segments, title, summary).value;
      var h := (if IsPyBlank(title) then 0 else 1) + (if IsPyBlank(summary) then 0 else 1);
      var chunks := ChunkText(text, ChunkSize, ChunkOverlap);
      Parallel(d) && d.texts == d.documents && |d.ids| == h + |chunks| &&
      ((videoId + TitleSuffix) in d.ids[..h] <==> !IsPyBlank(title)) &&
      ((videoId + SummarySuffix) in d.ids[..h] <==> !IsPyBlank(summary)) &&
      (forall k | 0 <= k < |chunks| :: d.ids[h + k] == DocumentId(videoId, k) && d.documents[h + k] == chunks[k])
  {
    var header := HeaderDocuments(videoId, title, summary);
    var chunks := ChunkText(text, ChunkSize, ChunkOverlap);
    var cd := ChunkDocuments(videoId, chunks, |Words(text)|, LastSegmentEnd(segments));
    var d := AssembleDocuments(videoId, text, segments, title, summary).value;
    assert d == Concat(header, cd);
    HeaderLayout(videoId, title, summary);
    assert d.ids[..|header.ids|] == header.ids;
  }

  /** A title document exactly when the title is not blank, then a summary
      document exactly when the summary is not blank. */
  lemma {:induction false} HeaderLayout(videoId: string, title: string, summary: string)
    ensures var header := HeaderDocuments(videoId, title, summary);
      |header.ids| == (if IsPyBlank(title) then 0 else 1) + (if IsPyBlank(summary) then 0 else 1) &&
      ((videoId + TitleSuffix) in header.ids <==> !IsPyBlank(title)) &&
      ((videoId + SummarySuffix) in header.ids <==> !IsPyBlank(summary))
  {
    var header := HeaderDocuments(videoId, title, summary);
    assert !IsPyBlank(title) ==> Truthy(title);
    assert !IsPyBlank(summary) ==> Truthy(summary);
    assert (videoId + TitleSuffix) != (videoId + SummarySuffix) by {
      assert (videoId + TitleSuffix)[|videoId| + 1] == 't';
      assert (videoId + SummarySuffix)[|videoId| + 1] == 's';
    }
  }

  /** `title_included` and `summary_included` test `bool(s)`, not
      non-blankness: a whitespace-only title is reported as included although
      no title document is built. */
  lemma {:induction false} TitleIncludedIsTruthiness(videoId: string, text: string, segments: seq<Segment>)
    requires |Words(text)| > 0
    ensures var d := AssembleDocuments(videoId, text, segments, " ", "").value;
      Truthy(" ") && (videoId + TitleSuffix) !in d.ids[..0] && |d.ids| == |ChunkText(text, ChunkSize, ChunkOverlap)|
  {
    AssembledLayout(videoId, text, segments, " ", "");
  }

  // ---------------------------------------------------------------------------
  // store_video_embeddings

  /** One stored document with its embedding. */
  datatype StoredDocument = StoredDocument(document: string, metadata: Metadata, embedding: seq<real>)

  /** The collection, by document id. */
  type VectorStore = map<string, StoredDocument>

  /** Deletes every document of the video. */
  function DeleteVideo(store: VectorStore, videoId: string): (r: VectorStore)
    ensures forall id | id in r :: r[id].metadata.video_id != videoId
    ensures forall id | id in store && store[id].metadata.video_id != videoId :: id in r && r[id] == store[id]
    ensures forall id | id in r :: id in store
  {
    map id | id in store && store[id].metadata.video_id != videoId :: store[id]
  }

  /** Adds the documents with their embeddings; a later id overwrites an earlier one. */
  function Insert(store: VectorStore, d: Documents, embed: string -> seq<real>, k: nat): (r: VectorStore)
    requires Parallel(d) && k <= |d.ids|
    ensures forall j | k <= j < |d.ids| :: d.ids[j] in r
    ensures forall id | id in r :: id in store || id in d.ids[k..]
    ensures forall id | id in store && id !in d.ids[k..] :: id in r && r[id] == store[id]
    decreases |d.ids| - k
  {
    if k == |d.ids| then store
    else
      var next := store[d.ids[k] := StoredDocument(d.documents[k], d.metadatas[k], embed(d.texts[k]))];
      var r := Insert(next, d, embed, k + 1);
      assert forall id | id in d.ids[k + 1..] :: id in d.ids[k..];
      r
  }

  /** The JSON of the `store` command. */
  datatype StoreJson =
    | StoreOk(video_id: string, chunks_stored: nat, title_included: bool, summary_included: bool,
              total_documents: nat, embedding_dimension: nat, collection_size: nat)
    | StoreFailed(error: string)

  datatype StoreRun = StoreRun(result: StoreJson, store: VectorStore)

  /** `store_video_embeddings`. Existing documents of the video are deleted
      first, so every failure after that point leaves the video with no
      documents at all. `embedError` is a failure of the embedding model and
      `addError` a failure of the collection's `add`. */
  function StoreVideoEmbeddings(
    store: VectorStore, videoId: string, text: string, segments: seq<Segment>, title: string, summary: string,
    embed: string -> seq<real>, embedError: Option<string>, addError: Option<string>): (r: StoreRun)
    ensures r.result.StoreOk? <==> |Words(text)| > 0 && embedError.None? && addError.None?
    ensures r.result.StoreFailed? ==> r.store == DeleteVideo(store, videoId)
    ensures r.result.StoreOk? ==>
      r.result.title_included == Truthy(title) && r.result.summary_included == Truthy(summary) &&
      r.result.chunks_stored == |ChunkText(text, ChunkSize, ChunkOverlap)| &&
      r.result.collection_size == |r.store|
  {
    var cleared := DeleteVideo(store, videoId);
    var chunks := ChunkText(text, ChunkSize, ChunkOverlap);
    if |chunks| == 0 then StoreRun(StoreFailed(NoChunksMessage), cleared)
    else match AssembleDocuments(videoId, text, segments, title, summary)
      case None => StoreRun(StoreFailed(DivisionByZeroMessage), cleared)
      case Some(d) =>
        if embedError.Some? then
          StoreRun(StoreFailed(EmbedFailedPrefix + embedError.value), cleared)
        else if addError.Some? then
          StoreRun(StoreFailed(StoreFailedPrefix + addError.value), cleared)
        else
          var updated := Insert(cleared, d, embed, 0);
          StoreRun(StoreOk(videoId, |chunks|, Truthy(title), Truthy(summary), |d.ids|,
                           if |d.texts| > 0 then |embed(d.texts[0])| else 0, |updated|), updated)
  }

  /** Storing replaces the video's documents: afterwards every document of
      the video is one of the new ones, each new id is present, and the
      other videos' documents are untouched unless a new id overwrote them. */
  lemma {:induction false} StoreReplacesVideoDocuments(
    store: VectorStore, videoId: string, text: string, segments: seq<Segment>, title: string, summary: string,
    embed: string -> seq<real>)
    requires |Words(text)| > 0
    ensures var run := StoreVideoEmbeddings(store, videoId, text, segments, title, summary, embed, None, None);
      var d := AssembleDocuments(videoId, text, segments, title, summary).value;
      (forall id | id in run.store && run.store[id].metadata.video_id == videoId :: id in d.ids) &&
      (forall k | 0 <= k < |d.ids| :: d.ids[k] in run.store) &&
      (forall id | id in store && store[id].metadata.video_id != videoId && id !in d.ids ::
        id in run.store && run.store[id] == store[id])
  {
    var d := AssembleDocuments(videoId, text, segments, title, summary).value;
    var cleared := DeleteVideo(store, videoId);
    var updated := Insert(cleared, d, embed, 0);
    ChunkTextNonEmpty(text);
    var run := StoreVideoEmbeddings(store, videoId, text, segments, title, summary, embed, None, None);
    assert run.store == updated;
    assert d.ids[0..] == d.ids;
    forall id | id in updated && updated[id].metadata.video_id == videoId
      ensures id in d.ids
    {
    }
    forall id | id in store && store[id].metadata.video_id != videoId && id !in d.ids
      ensures id in updated && updated[id] == store[id]
    {
      assert id in cleared && cleared[id] == store[id];
    }
  }

  lemma {:induction false} ChunkTextNonEmpty(text: string)
    ensures |ChunkText(text, ChunkSize, ChunkOverlap)| >= 1
  {
  }

  // ---------------------------------------------------------------------------
  // search_similar_videos

  /** One raw hit of the nearest-neighbour query. */
  datatype Hit = Hit(document: string, video_id: string, distance: real, estimated_timestamp: real)

  datatype QueryCall = Hits(hits: seq<Hit>) | QueryFailed(message: string)

  /** One result per video. */
  datatype VideoMatch = VideoMatch(video_id: string, similarity_score: real, best_match_text: string, timestamp: real)

  function MatchOf(h: Hit): VideoMatch
  {
    VideoMatch(h.video_id, 1.0 - h.distance, Excerpt(h.document), h.estimated_timestamp)
  }

  function MatchId(m: VideoMatch): string { m.video_id }
  function MatchScore(m: VideoMatch): real { m.similarity_score }

  datatype SearchJson =
    | SearchOk(results: seq<VideoMatch>, query: string, total_found: nat)
    | NothingFound(query: string)
    | SearchFailed(error: string)

  /** How many raw hits are asked for: `min(limit * 3, 50)`. */
  function CandidateCount(limit: int): int
  {
    Min(limit * 3, 50)
  }

  /** The hits as results: one per video with its best score, by descending
      score, cut to `limit` with Python slice semantics. */
  function TopMatches(hits: seq<Hit>, limit: int): (r: seq<VideoMatch>)
    ensures Ranking.DistinctIds(r, MatchId) && Ranking.SortedDesc(r, MatchScore)
    ensures limit >= 0 ==> |r| <= limit
    ensures |hits| > 0 && limit > 0 ==> |r| > 0
  {
    var best := Ranking.DedupBest(Map(hits, MatchOf), MatchId, MatchScore);
    var sorted := Ranking.SortDesc(best, MatchScore);
    Ranking.SortPreservesDistinctIds(best, MatchScore, MatchId);
    var results := JsSliceTo(sorted, limit);
    Ranking.PrefixKeepsOrder(sorted, results, MatchScore, MatchId);
    results
  }

  /** `search_similar_videos`: a blank query fails; otherwise the raw hits
      are deduplicated per video keeping the best score, sorted by
      descending score and cut to `limit` with Python slice semantics. */
  function SearchSimilarVideos(query: string, limit: int, nearest: (string, int) -> QueryCall): (r: SearchJson)
    ensures IsPyBlank(query) ==> r == SearchFailed(EmptyQueryMessage)
    ensures r.SearchOk? <==>
      !IsPyBlank(query) && nearest(query, CandidateCount(limit)).Hits? && |nearest(query, CandidateCount(limit)).hits| > 0
    ensures r.SearchOk? ==>
      r.results == TopMatches(nearest(query, CandidateCount(limit)).hits, limit) &&
      r.total_found == |r.results| && r.query == query
    ensures r.NothingFound? ==> r.query == query
  {
    if IsPyBlank(query) then SearchFailed(EmptyQueryMessage)
    else match nearest(query, CandidateCount(limit))
      case QueryFailed(m) => SearchFailed(SearchFailedPrefix + m)
      case Hits(hits) =>
        if |hits| == 0 then NothingFound(query)
        else
          var results := TopMatches(hits, limit);
          SearchOk(results, query, |results|)
  }

  /** Each result comes from one of the hits, and no hit of the same video
      scores higher than the result kept for it. */
  lemma {:induction false} TopMatchesHoldBestHits(hits: seq<Hit>, limit: int)
    ensures var r := TopMatches(hits, limit);
      forall j | 0 <= j < |r| ::
        r[j] in Map(hits, MatchOf) &&
        forall i | 0 <= i < |hits| && hits[i].video_id == r[j].video_id ::
          MatchOf(hits[i]).similarity_score <= r[j].similarity_score
  {
    var r := TopMatches(hits, limit);
    var ms := Map(hits, MatchOf);
    var best := Ranking.DedupBest(ms, MatchId, MatchScore);
    var sorted := Ranking.SortDesc(best, MatchScore);
    Ranking.SortDescMembers(best, MatchScore);
    forall j | 0 <= j < |r|
      ensures r[j] in ms
      ensures forall i | 0 <= i < |hits| && hits[i].video_id == r[j].video_id ::
        MatchOf(hits[i]).similarity_score <= r[j].similarity_score
    {
      assert r[j] == sorted[j];
      forall i | 0 <= i < |hits| && hits[i].video_id == r[j].video_id
        ensures MatchOf(hits[i]).similarity_score <= r[j].similarity_score
      {
        assert ms[i] == MatchOf(hits[i]);
        Ranking.SortedDedupKeepsMaximum(ms, MatchId, MatchScore, i, j);
      }
    }
  }

  /** A hit whose video has no result means the cut kept `limit` results,
      none scoring below that hit. */
  lemma {:induction false} TopMatchesAreTopK(hits: seq<Hit>, limit: nat, i: nat)
    requires i < |hits|
    requires forall j | 0 <= j < |TopMatches(hits, limit)| :: TopMatches(hits, limit)[j].video_id != hits[i].video_id
    ensures |TopMatches(hits, limit)| == limit
    ensures forall j | 0 <= j < limit :: TopMatches(hits, limit)[j].similarity_score >= MatchOf(hits[i]).similarity_score
  {
    var ms := Map(hits, MatchOf);
    var t := TopMatches(hits, limit);
    assert ms[i] == MatchOf(hits[i]);
    assert t == Take(Ranking.SortDesc(Ranking.DedupBest(ms, MatchId, MatchScore), MatchScore), limit);
    assert forall j | 0 <= j < |t| :: MatchId(t[j]) != MatchId(ms[i]);
    Ranking.TakeDedupDominates(ms, MatchId, MatchScore, limit, i);
    assert forall j | 0 <= j < limit :: MatchScore(t[j]) >= MatchScore(ms[i]);
  }

  // ---------------------------------------------------------------------------
  // main

  /** What reading the `store` data file gave. A missing key or an unreadable
      file surfaces as the exception's text. */
  datatype StoreInput =
    | StoreData(video_id: string, transcript_text: string, transcript_segments: seq<Segment>,
                title: Option<string>, summary: Option<string>)
    | InvalidJson(reason: string)
    | Unreadable(message: string)

  datatype EmbeddingJson = StoreResult(store: StoreJson) | SearchResult(search: SearchJson) | Failed(error: string)

  predicate Succeeded(j: EmbeddingJson) {
    (j.StoreResult? && j.store.StoreOk?) || (j.SearchResult? && (j.search.SearchOk? || j.search.NothingFound?))
  }

  datatype MainRun = MainRun(exit: Exit<EmbeddingJson>, store: VectorStore)

  /** The command-line entry point: `store <file>` or `search <query> <limit>`. */
  function ScriptMain(
    argv: seq<string>, store: VectorStore, loadError: Option<string>, read: string -> StoreInput,
    embed: string -> seq<real>, embedError: Option<string>, addError: Option<string>,
    nearest: (string, int) -> QueryCall): (r: MainRun)
    ensures r.exit.code == 0 <==> Succeeded(r.exit.output)
    ensures r.exit.code != 0 ==> r.exit.code == 1
    ensures r.store != store ==> |argv| == 2 && argv[0] == StoreCommand
  {
    if |argv| < 1 then MainRun(Exit(Failed(UsageMessage), 1), store)
    else if loadError.Some? then MainRun(Exit(Failed(UnexpectedPrefix + loadError.value), 1), store)
    else if argv[0] == StoreCommand && |argv| == 2 then
      match read(argv[1])
      case InvalidJson(why) => MainRun(Exit(Failed(InvalidJsonPrefix + why), 1), store)
      case Unreadable(m) => MainRun(Exit(Failed(UnexpectedPrefix + m), 1), store)
      case StoreData(v, text, segments, title, summary) =>
        var run := StoreVideoEmbeddings(store, v, text, segments, title.GetOr(""), summary.GetOr(""),
                                        embed, embedError, addError);
        var out := StoreResult(run.result);
        MainRun(Exit(out, if Succeeded(out) then 0 else 1), run.store)
    else if argv[0] == SearchCommand && |argv| == 3 then
      match ParsePyInt(argv[2])
      case None =>
        MainRun(Exit(Failed(InvalidLiteralPrefix + argv[2] + "'"), 1), store)
      case Some(limit) =>
        var out := SearchResult(SearchSimilarVideos(argv[1], limit, nearest));
        MainRun(Exit(out, if Succeeded(out) then 0 else 1), store)
    else MainRun(Exit(Failed(InvalidCommandMessage), 1), store)
  }
}
