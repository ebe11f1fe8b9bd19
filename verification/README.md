# VidSense decision logic in Dafny

VidSense takes a YouTube URL and pulls the video's transcript. It scores
the transcript's sentiment, summarises it and extracts topics, and embeds
it for semantic search. It then shows the results in a web front end with
accounts and an admin area. This project models the deterministic logic
that decides what each part of the system returns:

- **Backend routes**: `POST /analyze` with its cache check, pipeline and
  store writes; the `/search` routes; `/videos` listing, status, details
  and deletion; the `/auth` routes; the `/admin` user and video
  management.
- **Backend support**: the `authenticate` and `requireAdmin` middleware,
  the Mongoose models' validators and helpers, the environment checks,
  and the bridge that runs the Python scripts and reads their JSON output.
- **Python stages**: transcript extraction and cleaning, sentiment
  analysis, summarisation and topic filtering, embedding storage, and
  semantic search with its threshold and de-duplication.
- **Front end**: the API client's headers, error messages and session
  keys; URL validation in the video input; the chart, topic cloud,
  search, summary and history helpers; the admin users page, the profile
  page and navigation.

Each source file is one module: `Analyze`, `SearchRoute`, `VideosRoute`,
`PythonBridge`, `SemanticSearch`, `ApiClient` and so on. Shared
definitions live in `Core`, `Text`, `Ranking`, `Store`, `Models` and
`Paging`. The document store is one immutable value, `Store.Db`. Every
handler takes a store and returns the store it leaves behind, together
with the HTTP status and body.

Everything outside the program's own logic is a parameter or an outcome
datatype. That covers machine-learning models, the LLM, the vector store,
YouTube, subprocesses, token signing, clocks and fresh ids. Password
hashing is modelled as the 72-byte key bcrypt reads, and string lengths
are counted as the source counts them: UTF-16 code units in JavaScript,
characters in Python.

Three points where the code's behaviour is worth stating:

- **Semantic search cut and filter.** Semantic search cuts the ranked
  list to `limit` before dropping results at or below relevance 0.2.
  Because the list is sorted by that same relevance, this gives exactly
  the top `limit` of the results that pass the threshold. The search
  never returns fewer than `limit` while more qualify
  (`SemanticSearch.AnswerIsTopRelevant`).
- **Unreachable "no id" errors.** Any URL the validation pattern accepts
  also yields a video id. So the "Could not extract video ID" error in
  `/analyze` and the matching message in the video input cannot occur
  (`Analyze.ValidRequestHasId`, `VideoInput.SchemaUrlsAreSubmitted`).
- **Roles.** Registration accepts a caller-chosen `admin` role
  (`AuthRoute.SelfRegisteredAdmin`). The middleware trusts the role
  carried in the token, not the stored one
  (`AuthMiddleware.TokenRoleDecides`).

## Model

| member | source | states |
|---|---|---|
| VideoUrls.RunLength | backend/src/routes/analyze.ts:25 | the capture `([^&\n?#]+)` is greedy: every character of the run is a capture character and the one after it is not |
| VideoUrls.CaptureAfter | backend/src/routes/analyze.ts:25 | a capture is non-empty and free of `&`, newline, `?` and `#` |
| VideoUrls.MarkerAt | backend/src/routes/analyze.ts:25 | the alternatives `youtube.com/watch?v=` and `youtu.be/` are tried in order at one position: the first that matches is chosen, and none is chosen exactly when none matches |
| VideoUrls.SearchFindsMatch | backend/src/routes/analyze.ts:29-31 | an unanchored `match` finds a capture whenever some alternative matches at or after the search start |
| VideoUrls.SearchFailsWithoutMatch | backend/src/routes/analyze.ts:29-33 | with no occurrence of any alternative the pattern does not match |
| VideoUrls.BackOffToV | backend/src/routes/analyze.ts:26 | the `.*` of `watch\?.*v=` backtracks to the LAST `v=` followed by a capture character, and fails only when there is none in reach |
| VideoUrls.LineEnd | backend/src/routes/analyze.ts:26 | `.*` runs up to the first line terminator and no further |
| VideoUrls.WatchAnyFindsMatch | backend/src/routes/analyze.ts:26 | the second pattern matches when it matches at some position at or after the search start |
| VideoUrls.WatchAnyAtFinds | backend/src/routes/analyze.ts:26 | a `v=` with a capture character after `youtube.com/watch?` on the same line is matched |
| VideoUrls.AnalyzeSchemaYieldsId | backend/src/routes/analyze.ts:12-56 | every URL the request schema accepts yields an id, so the "Could not extract video ID" answer is unreachable after validation |
| VideoUrls.ClientAcceptedYieldsId | frontend/app/components/VideoInput.tsx:15-54 | every URL the form's validator accepts (either pattern) yields an id, so the form's "Could not extract video ID from URL" message is unreachable |
| VideoUrls.ClientAcceptsSchemaUrls | frontend/app/components/VideoInput.tsx:15-21 | the form accepts every URL the backend schema accepts |
| VideoUrls.NormalizeYouTubeUrl | backend/src/utils/videoUtils.ts:32-37 | a URL normalises exactly when `isValidYouTubeUrl` holds, and then to the canonical watch prefix plus a capture |
| VideoUrls.ExtractFromCanonical | backend/src/utils/videoUtils.ts:4-20 | the canonical watch URL of an id extracts back to exactly that id |
| VideoUrls.NormalizeIdempotent | backend/src/utils/videoUtils.ts:32-37 | normalising a normalised URL changes nothing |
| VideoUrls.ExtractVideoIdLoose | backend/src/routes/analyze.ts:23-34 | an id the route extracts is non-empty and holds no `&`, newline, `?` or `#` |
| VideoUrls.ExtractVideoId | backend/src/utils/videoUtils.ts:4-20 | an id the utility extracts is non-empty and holds no `&`, newline, `?` or `#` |
| Analyze.ValidateRequest | backend/src/routes/analyze.ts:12-20 | a request passes exactly when `youtube_url` is present and matches the anchored watch-or-short pattern; a missing URL, an empty one and a non-matching one get the schema's messages |
| Analyze.Or | backend/src/routes/analyze.ts:113 | JavaScript's logical or on optional strings: `a` when it is a non-empty string, else `b` |
| Analyze.FirstMessage | backend/src/routes/analyze.ts:91 | the error message is the first non-empty of the bridge error, the script's error and the fixed fallback |
| Analyze.Records | backend/src/routes/analyze.ts:175-182 | one Sentiment record per analyser item, in order, each with its own fresh id and the video's id |
| Analyze.SaveAll | backend/src/routes/analyze.ts:184 | `insertMany` stores every record when all validate and none otherwise |
| Analyze.Persist | backend/src/routes/analyze.ts:150-184 | the save succeeds exactly when the Video, the Summary and every Sentiment record pass validation |
| Analyze.PersistReplaces | backend/src/routes/analyze.ts:150-184 | after a successful save the id has exactly the new Video, the new Summary and the new records and none of its old records; other videos and the users are unchanged |
| Analyze.AnalyzeVideo | backend/src/routes/analyze.ts:37-80 | an invalid request is answered 400 "Validation Error" with the schema's message and changes nothing; a cached answer calls no stage and changes nothing |
| Analyze.RunStages | backend/src/routes/analyze.ts:84-93 | the transcript stage is always called first; exactly when it fails the request ends with 400 after that single call, leaving the store as it was; every failure is one of the stage or save failures |
| Analyze.AfterTranscript | backend/src/routes/analyze.ts:95-115 | the summary stage is called next; exactly when it fails the request ends with 500 after that call, leaving the store as it was |
| Analyze.AfterSummary | backend/src/routes/analyze.ts:117-145 | the sentiment stage is called next; exactly when it fails the request ends with 500; otherwise the embeddings stage is called with the transcript, its text, the title and the short summary, whatever it returns |
| Analyze.Save | backend/src/routes/analyze.ts:147-207 | the response is the analysis exactly when the save succeeds, with `cached` false; it carries the video id, the transcript's title, the summarizer's short and detailed texts and topics, the new Summary's creation time, and one timeline entry per analyser item in the analyser's order; a failed save is 500 "Analysis Failed" |
| Analyze.CallsFollowStageOrder | backend/src/routes/analyze.ts:84-184 | stages run in the order extract, summarise, sentiment, embeddings, each only after the previous hard stage succeeded, and the store changes only after all four were called |
| Analyze.AfterTranscriptCalls | backend/src/routes/analyze.ts:95-145 | once the summary succeeded, the calls made are a prefix of summarise, sentiment, embeddings, and all of them when the sentiment stage succeeds |
| Analyze.CacheHitRunsNothing | backend/src/routes/analyze.ts:58-80 | a video with both a Video and a Summary is answered from the store: no stage runs, nothing is written, `cached` is true, the answer carries the Video's title and the Summary's texts, topics and creation time, and the timeline holds every stored Sentiment record of the video exactly once, in ascending timestamp order |
| Analyze.FreshThenCached | backend/src/routes/analyze.ts:58-198 | after a fresh analysis the status is completed, and asking again runs no stage, writes nothing and answers from the store with the same video id, topics and creation time, the title and summaries as stored (trimmed), and the same timeline entries as stored, as a multiset |
| Analyze.ValidRequestHasId | backend/src/routes/analyze.ts:48-56 | a valid request is never answered "Invalid URL" |
| Analyze.FreshRunReplacesRecords | backend/src/routes/analyze.ts:147-198 | a completed fresh run leaves one Video and one Summary for the id and exactly one Sentiment record per returned timeline entry, other videos untouched |
| Analyze.GetStatus | backend/src/routes/analyze.ts:211-246 | a malformed id is a bad request; otherwise `not_found` exactly when there is no Video, `processing` exactly when there is a Video and no Summary, `completed` exactly when there are both |
| SearchRoute.ValidateSearch | backend/src/routes/search.ts:11-30 | a request passes exactly when `query` is a non-empty string of at most 500 UTF-16 code units and `limit` is absent or an integer from 1 to 50; an absent limit is 10 and a present one is kept; a limit beyond 2^53 - 1 in magnitude is refused as not a safe number before the integer and range rules |
| SearchRoute.ExecuteSemanticSearch | backend/src/routes/search.ts:33-86 | the script's result is used exactly when it exited 0 without SIGTERM and its output parses; a SIGTERM is always the timeout rejection, whatever the exit code |
| SearchRoute.SemanticResults | backend/src/routes/search.ts:105-117 | semantic results are non-empty only when the script resolved with `success` and then are its `results` |
| SearchRoute.ValidatedRequestReachesSearch | backend/src/routes/search.ts:33-41 | a validated query and limit, passed as the script's arguments with a 120-second timeout, pass the script's own argument check and run the search asked for |
| SearchRoute.NumberOr | backend/src/routes/search.ts:135 | a missing or zero score gives the default, as JavaScript's logical or does on numbers |
| SearchRoute.Merged | backend/src/routes/search.ts:131-144 | the summary hits (default score 0.5) come first, then the title hits (default score 0.3), one candidate per hit |
| SearchRoute.Fallback | backend/src/routes/search.ts:146-162 | the text fallback holds at most `limit` candidates, by descending score, one per video, each taken from the merged hits |
| SearchRoute.FallbackIsTopOf | backend/src/routes/search.ts:146-162 | the fallback is the per-video best entries sorted by descending score and cut to `limit` |
| SearchRoute.FallbackKeepsBest | backend/src/routes/search.ts:147-158 | no merged hit outscores the entry kept for its video |
| SearchRoute.TopKeepsBest | backend/src/routes/search.ts:147-162 | after sorting and cutting, no candidate outscores the kept entry of its video |
| SearchRoute.FallbackIsTopK | backend/src/routes/search.ts:160-162 | a merged video missing from the fallback means `limit` videos were kept, none with a lower score |
| SearchRoute.TopDominates | backend/src/routes/search.ts:160-162 | a candidate cut from the sorted per-video list is outscored by every one of the `limit` kept |
| SearchRoute.Kept | backend/src/routes/search.ts:169-189 | the candidates kept by the lookup are exactly those whose video has both a Video and a Summary, in order |
| SearchRoute.Entry | backend/src/routes/search.ts:176-184 | a formatted entry keeps its candidate's id, and its score is the candidate's or the fallback when that is zero |
| SearchRoute.FormatAll | backend/src/routes/search.ts:167-189 | one formatted entry per kept candidate, in order, each of an analysed video |
| SearchRoute.FormatAllIds | backend/src/routes/search.ts:167-189 | formatting lists a video exactly when it is a candidate and analysed |
| SearchRoute.Search | backend/src/routes/search.ts:89-202 | an invalid request is answered 400 with the schema's message; a valid one is answered from the semantic results of the validated query and limit, or from the text fallback |
| SearchRoute.SearchResponseOf | backend/src/routes/search.ts:165-202 | the answer lists analysed videos by descending score, `total` is their number, `search_type` is `semantic` exactly when there were semantic results and `text` otherwise, and the message is present exactly when nothing was found |
| SearchRoute.SearchCandidates | backend/src/routes/search.ts:166 | the semantic matches with their scores when there are any, otherwise the text fallback |
| SearchRoute.SearchKeepsAnalyzedCandidates | backend/src/routes/search.ts:165-192 | a video is in the response exactly when it is a candidate and has both a Video and a Summary: sorting loses none and adds none |
| SearchRoute.PermutationKeepsIds | backend/src/routes/search.ts:192 | reordering the results keeps the set of videos listed |
| SearchRoute.SimilarLimit | backend/src/routes/search.ts:217 | an absent limit is 5, and the limit is never zero |
| SearchRoute.Similar | backend/src/routes/search.ts:214-232 | a malformed id is a bad request, an id without a Summary is not found, otherwise the answer is built from the semantic matches of the short summary with the reference video removed |
| SearchRoute.SimilarResponseOf | backend/src/routes/search.ts:234-299 | the answer holds at most `limit` analysed videos, never the reference video; it is `semantic` exactly when semantic matches remain, and the topic query is used exactly when none remain and the video has topics |
| SearchRoute.SimilarCandidates | backend/src/routes/search.ts:252-270 | the candidates never include the reference video; the semantic matches are taken whole when there are any; topic hits are scored 0.6 |
| SearchRoute.FormatAllAvoids | backend/src/routes/search.ts:273-292 | formatting cannot bring in a video that was not a candidate |
| SearchRoute.SimilarDefaultsToFive | backend/src/routes/search.ts:217-299 | without a `limit` parameter at most five similar videos come back, none the reference video |
| SearchRoute.SimilarLimitReadsDecimal | backend/src/routes/search.ts:217 | a non-zero limit written in decimal, followed by non-digits, is the limit used |
| SearchRoute.Suggest | backend/src/routes/search.ts:311-351 | a missing `q` or one under 2 UTF-16 code units answers an empty list without querying; an aggregation that throws (a `q` that is no valid regular expression) answers the 500 failure; otherwise at most ten matching groups by descending count |
| SearchRoute.SuggestionsAreMostFrequent | backend/src/routes/search.ts:321-336 | a matching topic left out means ten were kept, none less frequent |
| Paging.IntOr | backend/src/routes/videos.ts:11-12 | `parseInt(param) or fallback`: an absent, unparseable or zero parameter gives the fallback, any other parsed integer is kept, and a non-zero fallback never yields zero |
| Paging.ReadWindow | backend/src/routes/videos.ts:11-13 | the page defaults to 1 and the limit to 20, neither can be zero, and `skip` is `(page - 1) * limit` |
| Paging.Ceil | backend/src/routes/videos.ts:73 | `Math.ceil(x)` is the least integer not below `x` |
| Paging.Round | backend/src/routes/videos.ts:137-140 | `Math.round(x)` lies within half of `x`, halves rounding up |
| Paging.PaginationCounts | backend/src/routes/videos.ts:69-76 | with a positive limit `totalPages` is the integer ceiling of `total / limit`, the pages cover the total without an empty last page, and `hasNext` holds exactly when the page is before the last one |
| Paging.CeilOfQuotient | backend/src/routes/videos.ts:73 | `Math.ceil(total / limit)` on exact values equals the integer quotient `(total + limit - 1) / limit` |
| Paging.MongoPage | backend/src/routes/videos.ts:26-30 | `.skip(skip).limit(limit)` fails on a negative skip, otherwise returns exactly what remains after `skip` capped by the limit, each item the one `skip` places further on in the ordered result, and nothing past the end |
| Paging.ItemOnOnePage | backend/src/routes/videos.ts:13-29 | every item of a listing appears on exactly one page, page `k / limit + 1`, at its own position |
| VideosRoute.NonEmpty | backend/src/routes/videos.ts:44-45 | `s or null` on a string: present exactly when non-empty, and then unchanged |
| VideosRoute.EntryOf | backend/src/routes/videos.ts:40-53 | a listed video carries its own id, its segment count and total duration, `has_summary` exactly when a Summary is stored for it, no summary fields without one, and `has_sentiments` false |
| VideosRoute.ListAt | backend/src/routes/videos.ts:16-21 | the listing is refused exactly when the page is below 1 or the limit outside 1 to 100; otherwise it holds exactly the smaller of `limit` and the videos remaining after `skip`, entry `i` being the enriched video at `skip + i` of the newest-first order, with the pagination block of every stored video |
| VideosRoute.Entries | backend/src/routes/videos.ts:35-53 | one enriched entry per fetched video, in the fetched order |
| VideosRoute.Window | backend/src/routes/videos.ts:26-30 | the fetched page is the smaller of `limit` and the number of videos after `skip`, each the one `skip` places further on in the newest-first order |
| VideosRoute.ListingShowsEachVideoOnce | backend/src/routes/videos.ts:16-30 | paging through the listing shows every stored video exactly once: the video at position `k` is on page `k / limit + 1`, at offset `k - skip`, and on no other page |
| VideosRoute.DefaultListing | backend/src/routes/videos.ts:11-13 | without parameters page 1 of at most 20 videos is listed, there is no previous page, and there is a next page exactly when more than 20 videos are stored |
| VideosRoute.NeutralBySubtraction | backend/src/routes/videos.ts:131-133 | the neutral count computed by subtraction equals the number of records scored within -0.1 to 0.1, and the positive and negative counts agree with each record's category |
| VideosRoute.StatsOf | backend/src/routes/videos.ts:123-142 | the statistics are all zero without records; otherwise each percentage lies in 0 to 100, and all-positive records give 100, 0, 0 |
| VideosRoute.Percentage | backend/src/routes/videos.ts:137-139 | a rounded share `part / whole * 100` lies in 0 to 100 when `part <= whole`, and is 0 for none and 100 for all |
| VideosRoute.WordTotalAtLeastSegments | backend/src/routes/videos.ts:120 | the word count summed from `split(' ')` over the segments is at least the number of segments |
| VideosRoute.GetDetails | backend/src/routes/videos.ts:91-171 | a malformed id is refused and a well-formed unknown id is not found; the details of a stored video carry its title, url, transcript and creation time, the Summary's texts (empty ones as null), topics and date when a Summary exists and null, null, no topics and no date otherwise, the rounded total of segment durations, the segment count, the space-split word count, and a timeline holding every Sentiment record of the video exactly once in ascending timestamp order, with the statistics of those records |
| VideosRoute.TimelineOfStore | backend/src/routes/videos.ts:113-150 | the timeline is sorted by timestamp and is a permutation of the video's stored records as entries, and its statistics equal those of the records in store order |
| VideosRoute.StatsPermutation | backend/src/routes/videos.ts:123-142 | the statistics do not depend on the order of the records |
| VideosRoute.SumScoresPermutation | backend/src/routes/videos.ts:127 | the summed score does not depend on the order of the records |
| VideosRoute.GetTranscript | backend/src/routes/videos.ts:185-206 | the same id checks, then the stored transcript with its segment count and summed duration |
| VideosRoute.GetSentiment | backend/src/routes/videos.ts:220-251 | the same id checks; then the video id, its title, and a timeline holding every Sentiment record of the video exactly once, in ascending timestamp order, with its length as `total_segments` |
| VideosRoute.ViewsShareTimeline | backend/src/routes/videos.ts:144-149 | the details view and the sentiment view of a stored video show the same timeline |
| VideosRoute.DeleteVideo | backend/src/routes/videos.ts:265-297 | a malformed or unknown id changes nothing; a stored video's Video, Summary and every Sentiment record are removed |
| VideosRoute.DeleteTwice | backend/src/routes/videos.ts:276-288 | after a delete the video is absent from every collection, and deleting it again answers not found and changes nothing |
| VideosRoute.CompletionRate | backend/src/routes/videos.ts:337 | the completion rate is 0 without videos, a percentage when summaries do not outnumber videos, and 100 when they are equal |
| VideosRoute.StatsOverview | backend/src/routes/videos.ts:313-344 | the overview reports the three collection sizes, the five newest videos as a prefix of the newest-first order, and at most ten topics |
| VideosRoute.CompletionRateIsPercentage | backend/src/routes/videos.ts:337 | when every Summary belongs to a stored Video the rate is a percentage, and 100 when every Video has its Summary |
| Store.SentimentsOf | backend/src/models/Sentiment.ts:90-92 | the records of one video are exactly the stored records carrying its id |
| Store.SentimentTimeline | backend/src/models/Sentiment.ts:90-92 | `findByVideoId` returns a permutation of the video's records, ordered by ascending timestamp |
| Store.SentimentsInRange | backend/src/models/Sentiment.ts:130-139 | `findBySentimentRange` returns, in ascending timestamp order, the video's records whose score lies in the closed range, and every such record |
| Store.RangeIsInclusive | backend/src/models/Sentiment.ts:137 | both bounds of the range are inclusive: a record is found by the range from its own score to its own score |
| Store.DeleteSentiments | backend/src/routes/analyze.ts:153 | `deleteMany` keeps exactly the records of the other videos |
| Store.DeleteVideoRecords | backend/src/routes/videos.ts:284-288 | after the three deletes the video has no Video, no Summary and no Sentiment record, and the users are untouched |
| Store.DeleteLeavesOtherVideos | backend/src/routes/videos.ts:284-288 | deleting one video leaves every other video's Video, Summary and Sentiment records exactly as they were |
| Store.FilterTwice | backend/src/routes/videos.ts:287 | deleting one video's records and then selecting another video's records selects the same records as before the delete |
| Store.AppendedRecords | backend/src/routes/analyze.ts:153-184 | `insertMany` after `deleteMany` of the same video leaves exactly the inserted records as that video's records |
| Store.StatusOf | backend/src/routes/analyze.ts:221-246 | the status is `not_found` exactly without a Video, `processing` exactly with a Video but no Summary, and a completed status reports sentiments exactly when the video has records |
| Store.MostFrequent | backend/src/routes/videos.ts:324-329 | the topic aggregation's `$sort` then `$limit` keeps at most `k` groups, all taken from the input, by descending count |
| Store.MostFrequentDominates | backend/src/routes/videos.ts:327-328 | a group left out means `k` groups were kept, none of them less frequent than it |
| Models.SaveVideo | backend/src/models/Video.ts:40-71 | saving a Video trims the title of JavaScript whitespace, and succeeds exactly when the trimmed document passes the schema (an 11-character id, a title of 1 to 500 UTF-16 code units, a watch-or-short URL, segments with text and non-negative start and duration) |
| Models.TrimIdempotent | backend/src/models/Video.ts:55 | the `trim` setter is idempotent |
| Models.SaveVideoIdempotent | backend/src/models/Video.ts:52-56 | a saved Video saves again unchanged |
| Models.TotalDurationAppend | backend/src/models/Video.ts:85-89 | `getTotalDuration` is additive over concatenated transcripts |
| Models.TotalDurationNonNegative | backend/src/models/Video.ts:33-37 | on segments of non-negative duration, as the schema requires, the total duration is non-negative |
| Models.TranscriptTextAppend | backend/src/models/Video.ts:91-93 | `getTranscriptText` of two non-empty transcripts is the first text, a space, and the second text |
| Models.SaveSummary | backend/src/models/Summary.ts:20-60 | saving a Summary trims both summaries and succeeds exactly when the trimmed document passes the schema (non-empty, at most 3000 and 10000 UTF-16 code units, at most 20 topics) |
| Models.SaveSummaryIdempotent | backend/src/models/Summary.ts:39-50 | a saved Summary saves again unchanged |
| Models.TopTopics | backend/src/models/Summary.ts:90-92 | `getTopTopics` returns a prefix of the topics, of length 5 by default or the given limit, capped by the number of topics |
| Models.GetWordCount | backend/src/models/Summary.ts:80-88 | each regex split has at least one field and the total is the sum of the two counts |
| Models.FieldCountOfJoinedWords | backend/src/models/Summary.ts:81-82 | on a space-joined list of words the `split(/\s+/)` count is the number of words |
| Models.Classify | backend/src/models/Sentiment.ts:77-81 | a score is positive exactly above 0.1, negative exactly below -0.1, and neutral exactly within them |
| Models.SaveSentiment | backend/src/models/Sentiment.ts:20-61 | saving a Sentiment trims its text and succeeds exactly when the trimmed record passes the schema (an id, a video id, a non-negative timestamp, one of the three labels, a score in -1 to 1, 1 to 1000 UTF-16 code units of text) |
| Models.LabelNotTiedToScore | backend/src/models/Sentiment.ts:45-55 | the schema accepts a record labelled positive whose score classifies it as negative |
| Models.SentimentCategory | backend/src/models/Sentiment.ts:77-81 | `getSentimentCategory` is positive exactly above 0.1 and negative exactly below -0.1 |
| Models.FloorDivSixty | backend/src/models/Sentiment.ts:84-85 | for a non-negative timestamp, the floored minutes and the floored remainder are the integer quotient and remainder of the whole seconds by 60 |
| Models.FormattedTimestampIsClock | backend/src/models/Sentiment.ts:83-87 | `getFormattedTimestamp` of a valid timestamp is the whole seconds as minutes, a colon and two-digit seconds, and reading that label back gives the whole seconds |
| Models.ParseRole | backend/src/models/User.ts:56-61 | only `admin` and `customer` name a role, and the parsed role names back to the same string |
| Models.MergePreferences | backend/src/models/User.ts:66-80 | merging a partial preferences object keeps every key, takes the update's value where it has one and the old value elsewhere |
| Models.CheckEmail | backend/src/models/User.ts:38-40 | the scan accepts exactly the emails of the shape `^[^\s@]+@[^\s@]+\.[^\s@]+$`, with `\s` the full JavaScript whitespace set |
| Models.SaveUser | backend/src/models/User.ts:29-104 | saving a User succeeds exactly when the document with its lowercased, trimmed email and trimmed name passes the schema (an email of the required shape, a plain password of at least 6 UTF-16 code units, a name of 1 to 100 UTF-16 code units); the saved User keeps the same id, role, activity and preferences and has a hashed password: the stored hash when one was given, the bcrypt key of the plain password otherwise |
| Models.NormalizeEmailIdempotent | backend/src/models/User.ts:34-35 | the `lowercase` and `trim` setters applied to a normalised email change nothing |
| Models.SaveUserIdempotent | backend/src/models/User.ts:94-95 | saving a saved User changes nothing: an unmodified password is not hashed again |
| Models.NormalizedIsLower | backend/src/models/User.ts:34-35 | a normalised email contains no upper-case letter |
| Models.FindByEmail | backend/src/models/User.ts:116-118 | `findByEmail` finds the first user whose stored email equals the argument lowercased and trimmed, as the query casts it through the `email` setters, and nothing exactly when no user has it |
| Models.FindFrom | backend/src/models/User.ts:116-118 | the scan from position `i` finds the first matching email at or after `i`, and nothing exactly when none matches |
| Models.FindByEmailAppended | backend/src/models/User.ts:116-118 | a user stored with an email no earlier user holds is the one found by every spelling of that email that normalises to it, padded or capitalised |
| Models.BcryptKey | backend/src/models/User.ts:98-99 | the key bcrypt hashes is always 72 bytes: the UTF-8 bytes of the password and a terminating zero, repeated |
| Models.LongPasswordIgnoresTail | backend/src/models/User.ts:107-110 | a stored hash of a password whose UTF-8 form reaches 72 bytes matches every extension of that password |
| Models.FindById | backend/src/models/User.ts:22-27 | `findById` finds a user with that id, and nothing exactly when no user has it |
| Models.FindByIdAfterUpdate | backend/src/models/User.ts:22-27 | replacing a user by one with the same id does not change what `findById` returns |
| Models.FindByRole | backend/src/models/User.ts:124-130 | `findAdmins` and `findCustomers` return exactly the active users of that role, in store order |
| AdminRoute.ViewOf | backend/src/routes/admin.ts:41-50 | a listed user carries the stored id, email, role and activity, and no password |
| AdminRoute.UsersAt | backend/src/routes/admin.ts:17-59 | the user listing fails exactly on a negative skip; otherwise it shows exactly the matching users remaining after `skip`, capped by the limit, entry `i` being the view of the matching user at `skip + i` (active, of the requested role; a role naming no role is ignored), with the pagination block counting every matching user |
| AdminRoute.UsersShowsEachUserOnce | backend/src/routes/admin.ts:17-59 | paging through the user listing shows every matching user exactly once, the `k`-th on page `k / limit + 1` |
| AdminRoute.UnknownRoleIgnored | backend/src/routes/admin.ts:25-27 | a `role` parameter that names no role lists the same page as no `role` at all |
| AdminRoute.GetUser | backend/src/routes/admin.ts:73-92 | the lookup answers not found exactly when no user has the id, and otherwise returns that user without the password |
| AdminRoute.CreateUser | backend/src/routes/admin.ts:104-143 | missing email, password or name is refused first, then an email already held once lowercased and trimmed (409); only a created user changes the store, appended with the given id, the requested role (customer by default), `isActive` defaulting to true, a normalised email, a hash of the password and the default preferences |
| AdminRoute.CreatedUserIsFound | backend/src/routes/admin.ts:116-132 | the created user is the one `findByEmail` finds, by its stored email and by the email as the request spelled it |
| AdminRoute.UpdateUser | backend/src/routes/admin.ts:167-202 | an unknown id is not found and a failed save changes nothing; otherwise only that user is replaced, the request's name and activity replace the stored ones, a role only when it names one, preferences are merged, and the email and password are never taken from the request |
| AdminRoute.UpdateKeepsCredentials | backend/src/routes/admin.ts:178-190 | updating a stored user leaves its email and password hash unchanged |
| AdminRoute.DeactivateUser | backend/src/routes/admin.ts:216-238 | an unknown id is not found, the requesting admin's own id is refused, and otherwise only that user changes, to inactive with the same id |
| AdminRoute.DeactivateOnlyClearsActive | backend/src/routes/admin.ts:233-234 | deactivating a stored user clears only its `isActive` field, and the user can no longer authenticate |
| AdminRoute.SaveIgnoresActive | backend/src/routes/admin.ts:233-234 | whether a user is active plays no part in validating or normalising it |
| AdminRoute.AdminVideoOf | backend/src/routes/admin.ts:269-282 | an admin-listed video reports a summary exactly when one is stored, sentiments exactly when it has records, and its segment count and total duration |
| AdminRoute.AdminVideosAt | backend/src/routes/admin.ts:252-294 | the admin video listing fails exactly on a negative skip; otherwise it counts every video, gives the page count of the pagination block, and lists exactly the videos remaining after `skip` capped by the limit, in newest-first order from `skip` |
| AdminRoute.AdminVideosShowEachVideoOnce | backend/src/routes/admin.ts:252-294 | paging through the admin video listing shows every stored video exactly once, the `k`-th on page `k / limit + 1` |
| AdminRoute.AdminDeleteVideo | backend/src/routes/admin.ts:306-330 | an unknown id changes nothing; a stored video loses its Video, Summary and Sentiment records while the users stay |
| AdminRoute.AdminDeleteAgreesWithVideosDelete | backend/src/routes/admin.ts:306-325 | on a well-formed id the admin delete leaves the same store as the public delete; a malformed stored key is removed only by the admin delete, which checks no id format |
| AuthMiddleware.BearerToken | backend/src/middleware/auth.ts:28-37 | a token is read exactly when the header starts with `Bearer `, and the header is that prefix followed by the token |
| AuthMiddleware.BearerRoundTrip | backend/src/middleware/auth.ts:30-37 | reading a header built from a token gives that token back |
| AuthMiddleware.Authenticate | backend/src/middleware/auth.ts:21-66 | a request passes exactly when the header carries a Bearer token that verifies and names an existing active user, and then with the token's claims; every refusal is a 401, and a missing or malformed header gets the no-token message |
| AuthMiddleware.RequireAdmin | backend/src/middleware/auth.ts:71-91 | a request passes exactly when it carries claims with the admin role; no claims is a 401 and another role a 403 |
| AuthMiddleware.RequireOwnerOrAdmin | backend/src/middleware/auth.ts:96-117 | a request passes exactly when its claims are an admin's or name the requested user; no claims is a 401 and anything else a 403 |
| AuthMiddleware.OptionalAuth | backend/src/middleware/auth.ts:122-149 | the optional guard attaches only the claims of an active user, and none without a header |
| AuthMiddleware.OptionalAgreesWithAuthenticate | backend/src/middleware/auth.ts:122-149 | the optional guard attaches a user exactly when `authenticate` would let the request through, and the same claims |
| AuthMiddleware.AdminChain | backend/src/routes/admin.ts:11-12 | the admin routes are reached exactly when `authenticate` passes with admin claims; an authenticated non-admin gets a 403 |
| AuthMiddleware.TokenRoleDecides | backend/src/middleware/auth.ts:53-57 | the role checked is the token's: an admin token still passes the admin chain after the stored user was demoted to customer |
| AuthRoute.TokensFor | backend/src/routes/auth.ts:41-51 | both tokens are signed over the user's id, email and role, the access token with the access signer and the refresh token with the refresh signer |
| AuthRoute.Register | backend/src/routes/auth.ts:9-63 | missing email, password or name is refused first, then an email already held once lowercased and trimmed (409); a registered user is appended with the given id, the role asked for (customer by default), active, default preferences, a normalised email and a hash of the password, and gets the tokens for its own claims; nothing else changes the store |
| AuthRoute.SelfRegisteredAdmin | backend/src/routes/auth.ts:30-36 | a caller who registers with role `admin` gets an access token that passes the admin routes' guard |
| AuthRoute.Login | backend/src/routes/auth.ts:75-139 | missing fields, an email that no stored email equals once lowercased and trimmed, an inactive account and a wrong password are checked in that order, each with its own answer; a login returns the found user and the tokens for its claims |
| AuthRoute.LoginIgnoresPastKey | backend/src/routes/auth.ts:104-110 | whoever logs in with a password of 72 or more characters logs in the same way with any extension of it |
| AuthRoute.RegisterThenLogin | backend/src/routes/auth.ts:9-139 | a user who registered logs in with the same email, however padded or capitalised, and the same password, and gets the same user and tokens |
| AuthRoute.Refresh | backend/src/routes/auth.ts:151-199 | a missing token is a 400; new tokens are issued exactly when the token verifies and names an active user, and they carry that stored user's current claims |
| AuthRoute.GetProfile | backend/src/routes/auth.ts:203-222 | the profile is not found exactly when no user has the token's id, and is otherwise that stored user |
| AuthRoute.UpdateProfile | backend/src/routes/auth.ts:234-267 | an unknown user is not found and a failed save changes nothing; otherwise only that user is replaced, with a truthy name trimmed in, preferences merged, and the id, role, activity and email kept |
| AuthRoute.ChangePassword | backend/src/routes/auth.ts:279-321 | missing fields and then a new password under 6 UTF-16 code units are refused first; a change requires the current password to match, replaces only that user's password by a hash of the new one, which no longer accepts the old one unless both share their 72-byte bcrypt key, and keeps its id, role and activity; every other outcome changes nothing |
| Env.GetEnvVar | backend/src/config/env.ts:18-24 | a set variable wins, then a truthy default; with neither it throws naming the variable |
| Env.GetEnvNumber | backend/src/config/env.ts:26-34 | an unset variable gives the default, a set one its decimal `parseInt`, and an unparseable one throws naming the variable |
| Env.PortReadsBack | backend/src/config/env.ts:29 | a port written in decimal, optionally followed by a non-digit suffix, reads back as that port |
| Env.WithDefaults | backend/src/config/env.ts:36-46 | the configuration keeps the parsed port and the two required settings, and `NODE_ENV` falls back to `development` |
| Env.LoadEnv | backend/src/config/env.ts:36-46 | the configuration loads exactly when `MONGODB_URI` and `GROQ_API_KEY` are set and a set `PORT` parses; it then holds their values and the port or its default 5000, and an unparseable port throws the port's message |
| Env.ValidateEnvironment | backend/src/config/env.ts:49-60 | the start-up check exits with status 1 exactly when a required variable is unset, naming only required variables that are unset |
| Env.ValidationAfterLoad | backend/src/config/env.ts:36-60 | once the configuration has loaded, the start-up check always passes |
| PythonBridge.ExecuteScript | backend/src/services/pythonBridge.ts:42-98 | a run succeeds exactly when the process closed with code 0 and its output parsed, and then carries the parsed value and no error; every failure carries an error and no data, and both streams are always passed back |
| PythonBridge.FailureMessagesAreDistinct | backend/src/services/pythonBridge.ts:61-96 | a run fails exactly when it ended in one of the three failure kinds, and the error message alone tells which one by its prefix |
| PythonBridge.ExitMessageNamesCode | backend/src/services/pythonBridge.ts:80-85 | a non-zero exit's message is the fixed prefix followed by the code, from which a positive code reads back |
| PythonBridge.TranscriptInvocation | backend/src/services/pythonBridge.ts:103-105 | the transcript stage runs `transcript_extractor.py` on the video id with a 60-second timeout |
| PythonBridge.SemanticSearchInvocation | backend/src/services/pythonBridge.ts:184-186 | the search stage runs `semantic_search.py` with the query first and a 30-second timeout |
| PythonBridge.SemanticSearchLimitRoundTrip | backend/src/services/pythonBridge.ts:185 | the limit passed as the second argument reads back as the same number |
| PythonBridge.TempFileStage | backend/src/services/pythonBridge.ts:110-179 | a temp-file stage writes its payload first and deletes the file last, runs the script exactly when the write succeeded and then returns the script's result, and otherwise fails with its own prefix and the write error |
| PythonBridge.OrEmpty | backend/src/services/pythonBridge.ts:163-164 | `s or ''` on an optional string: the string when present, empty otherwise |
| PythonBridge.StagesCleanUpAndUseTheirTimeouts | backend/src/services/pythonBridge.ts:110-179 | the summary, sentiment and embeddings stages each delete their file last and run their own script on it with 180, 300 and 180 seconds exactly when the write succeeded; a missing title or summary is written as empty |
| TranscriptExtractor.Absorb | backend/python/transcript_extractor.py:251-256 | absorbing the next segment keeps the current start and stretches the end to the end of the next segment |
| TranscriptExtractor.MergeLoop | backend/python/transcript_extractor.py:244-263 | the loop only appends: the finished segments stay a prefix, and it adds at least one and at most one more than the segments left to visit |
| TranscriptExtractor.MergeShortSegments | backend/python/transcript_extractor.py:230-265 | merging returns nothing exactly for an empty transcript and never more segments than it was given |
| TranscriptExtractor.MergeLoopDurations | backend/python/transcript_extractor.py:250-260 | a segment is only finished once it is long enough, so every finished segment reaches the minimum duration |
| TranscriptExtractor.MergeDurations | backend/python/transcript_extractor.py:230-265 | every merged segment but the last lasts at least the minimum duration |
| TranscriptExtractor.JoinFuse | backend/python/transcript_extractor.py:253 | joining with spaces reads the same whether two neighbouring texts are fused with a space or kept apart |
| TranscriptExtractor.MergeLoopText | backend/python/transcript_extractor.py:247-263 | the loop neither loses nor reorders text: its output joined with spaces equals its inputs joined with spaces |
| TranscriptExtractor.MergeKeepsText | backend/python/transcript_extractor.py:230-265 | the space-joined text of the merged transcript equals that of the original |
| TranscriptExtractor.MergeLoopBounds | backend/python/transcript_extractor.py:247-263 | the loop produces only start and end times it was given, and its last end is the end of the last segment visited |
| TranscriptExtractor.MergeBounds | backend/python/transcript_extractor.py:230-265 | every merged segment starts where an input segment starts and ends where one ends, and the first start and the last end are those of the transcript |
| TranscriptExtractor.MergeLoopFirst | backend/python/transcript_extractor.py:245 | the first segment the loop finishes starts where the segment it began with starts |
| TranscriptExtractor.ProcessSnippets | backend/python/transcript_extractor.py:194-205 | processing keeps exactly the snippets whose cleaned text is non-empty, in order: there is one segment per kept snippet, and the kept snippet with `k` kept snippets before it becomes segment `k`, with its cleaned text and its start and duration rounded to two decimals |
| TranscriptExtractor.RoundingDecidesMerge | backend/python/transcript_extractor.py:202-203 | start and duration are rounded before merging, so a 2.996-second first snippet counts as 3 seconds and is not merged, although unrounded it would have been |
| TranscriptExtractor.MaxEnd | backend/python/transcript_extractor.py:195-206 | the total duration is the largest end time of the kept segments, or 0 without any |
| TranscriptExtractor.ClassifyFetchError | backend/python/transcript_extractor.py:137-183 | the first matching test decides, and each of the five types holds exactly when its test passes and no earlier one does: `NO_TRANSCRIPT` when the class names `TranscriptsDisabled`; `VIDEO_UNAVAILABLE` when it names `VideoUnavailable`; `NON_ENGLISH_TRANSCRIPT` when the class names `NoTranscriptFound` or `NoTranscriptAvailable` or the message mentions missing transcripts or language codes; `RATE_LIMITED` on a 429, too-many-requests or rate-limit message; `UNKNOWN_ERROR` otherwise |
| TranscriptExtractor.ExtractTranscript | backend/python/transcript_extractor.py:100-221 | extraction succeeds exactly when the fetch returned snippets; a success has the video id, the oEmbed title or `YouTube Video <id>`, the processed snippets merged to the minimum duration as its transcript, a segment count equal to that transcript, and a total duration that is the largest end of the kept unrounded snippets rounded to two decimals; a failed fetch carries its classified type, and every failure the video id |
| TranscriptExtractor.ValidateStrippedId | backend/python/transcript_extractor.py:267-285 | on a stripped argument, Python's `$` allowance for a final newline never applies, so the validation accepts exactly the 11-character id format |
| TranscriptExtractor.ScriptMain | backend/python/transcript_extractor.py:273-305 | the script exits 0 exactly when it prints a successful extraction, which requires one argument whose stripped form is a video id, and then prints the extraction of that id |
| SentimentAnalyzer.NormalizeScore | backend/python/sentiment_analyzer.py:43-57 | the confidence is kept for the `POSITIVE` label and negated for any other, so a confidence in 0 to 1 gives a score in -1 to 1 |
| SentimentAnalyzer.ModelInput | backend/python/sentiment_analyzer.py:95-99 | a text of at most 512 words reaches the model unchanged |
| SentimentAnalyzer.ModelInputWords | backend/python/sentiment_analyzer.py:95-99 | the model sees at most 512 words, and they are the text's first words in order |
| SentimentAnalyzer.AnalyzeTextSegment | backend/python/sentiment_analyzer.py:76-127 | stripped text under 3 characters and a failing model both give neutral with score 0; otherwise the label classifies the normalised score and the reported score and confidence are rounded to four places |
| SentimentAnalyzer.SegmentLabelMatchesScore | backend/python/sentiment_analyzer.py:105-118 | whatever the model does, a segment's label is the classification of its reported score (positive above 0.1, negative below -0.1) unless that score is exactly 0.1 or -0.1, and with confidences in 0 to 1 the score lies in -1 to 1 |
| SentimentAnalyzer.RoundedKeepsClass | backend/python/sentiment_analyzer.py:111-115 | rounding to four places never carries a score across a class boundary, only onto it: a rounded score above 0.1 was positive, below -0.1 negative, strictly between neutral |
| SentimentAnalyzer.RoundedScoreOnBoundary | backend/python/sentiment_analyzer.py:111-115 | a POSITIVE confidence of 0.10004 gives the label positive with the reported score 0.1, which the three-way split calls neutral |
| Core.PyRoundMonotone | backend/python/sentiment_analyzer.py:115 | `round(x, digits)` never reverses the order of two values |
| Core.PyRoundInUnit | backend/python/sentiment_analyzer.py:177 | rounding keeps a value in -1 to 1 |
| SentimentAnalyzer.AnalyzeSegment | backend/python/sentiment_analyzer.py:149-162 | an item's timestamp is the segment's start or 0, and its text is the stripped text cut to 200 characters with an ellipsis when longer |
| SentimentAnalyzer.AverageInRange | backend/python/sentiment_analyzer.py:167-177 | the mean of the non-zero scores stays within -1 to 1 |
| SentimentAnalyzer.AnalyzeTranscript | backend/python/sentiment_analyzer.py:129-195 | the analysis succeeds exactly on a non-empty list (an empty one divides by zero), with one item per segment in order, each the analysis of its segment; the statistics count the items of each label, average the non-zero scores rounded to four places, and give each label's share of the segment count in percent rounded to two places |
| SentimentAnalyzer.CountsAddUp | backend/python/sentiment_analyzer.py:168-176 | the positive, negative and neutral counts add up to the total |
| SentimentAnalyzer.AllZeroAverage | backend/python/sentiment_analyzer.py:166-177 | when every item's score is zero the average score is 0.0 |
| SentimentAnalyzer.LabelsPartition | backend/python/sentiment_analyzer.py:168-170 | every item is counted under exactly one of the three labels |
| SentimentAnalyzer.AverageBounded | backend/python/sentiment_analyzer.py:167-177 | with model confidences in 0 to 1 the rounded average score lies in -1 to 1 |
| SentimentAnalyzer.ScoresInRange | backend/python/sentiment_analyzer.py:145-164 | with model confidences in 0 to 1 every item's score lies in -1 to 1 |
| SentimentAnalyzer.ItemLabelsMatchScores | backend/python/sentiment_analyzer.py:153-162 | every item's label is the classification of its own reported score unless that score is exactly 0.1 or -0.1 |
| SentimentAnalyzer.ScriptMain | backend/python/sentiment_analyzer.py:197-247 | the script exits 0 exactly when it prints a successful analysis, which needs one argument that reads as a non-empty list and a model that loaded; an empty list prints the no-segments error with status 1 |
| Summarizer.CleanTextWords | backend/python/summarizer.py:37-46 | the cleaned text's words are the input's words with the one-character words other than `a` and `i` (either case) dropped, in order |
| Summarizer.CleanTextIdempotent | backend/python/summarizer.py:37-46 | cleaning text that is already clean leaves it unchanged |
| Summarizer.FirstIntro | backend/python/summarizer.py:89-92 | the phrase chosen is the first in list order that starts the reply ignoring case, and none is chosen only when no phrase starts it |
| Summarizer.StripIntro | backend/python/summarizer.py:74-92 | a reply starting with no listed phrase is kept; otherwise exactly the first matching phrase is cut off, once, and the rest trimmed |
| Summarizer.StripIntroShortens | backend/python/summarizer.py:89-92 | stripping never lengthens the reply, and removing a phrase shortens it by at least the phrase's length |
| Summarizer.AcceptableLowered | backend/python/summarizer.py:236-250 | a topic that passes the length, word-count and noise tests is, once lowered, lower-case, 3 to 50 characters long and at most 5 words |
| Summarizer.AppendFresh | backend/python/summarizer.py:242-250 | appending a topic that matches no kept topic ignoring case keeps the kept topics pairwise distinct ignoring case |
| Summarizer.FilterTopicsFrom | backend/python/summarizer.py:203-250 | the loop only ever appends to the topics it has already kept |
| Summarizer.Acceptable | backend/python/summarizer.py:217-240 | every topic the acceptance test lets through is well formed once lowered |
| Summarizer.FilterTopicsKeepsInvariant | backend/python/summarizer.py:203-250 | starting from well-formed topics that are distinct ignoring case, the loop ends with topics that still are |
| Summarizer.FilterTopics | backend/python/summarizer.py:203-253 | at most 15 topics come back, each lower-case, 3 to 50 characters and at most 5 words, no two equal ignoring case |
| Summarizer.FilterTopicsFromSources | backend/python/summarizer.py:245-250 | every topic the loop adds is the lower-cased form of a candidate that passed the tests |
| Summarizer.FilterTopicsKeepsNew | backend/python/summarizer.py:242-250 | every candidate that passes the tests ends up in the result ignoring case, whether added itself or already present |
| Summarizer.Summarize | backend/python/summarizer.py:260-313 | fewer than 10 cleaned words fail as too short; otherwise a failed short or detailed request fails with that request's message under its own prefix, and the result succeeds exactly when both succeed; a success reports the cleaned word count and at most 1500 processed words, the short reply with its intro phrase stripped and cleaned, the scrubbed and cleaned detailed reply, and the filtered topics of the topics reply (none when that request fails), well formed and distinct ignoring case |
| Summarizer.ProcessedWords | backend/python/summarizer.py:284-287 | the text sent to the model has the smaller of the word count and 1500 words |
| Summarizer.TopicFailureIsSoft | backend/python/summarizer.py:255-258 | a failed topic request with both summaries succeeding still succeeds, with no topics |
| Summarizer.SummariesAreClean | backend/python/summarizer.py:37-46 | both summaries of a success are already clean: cleaning them again changes nothing |
| Summarizer.SummaryTopicsFromReply | backend/python/summarizer.py:151-258 | every topic of a success is the lower-case form of a candidate from the topics reply that passes the tests |
| Summarizer.ScriptMain | backend/python/summarizer.py:315-358 | exit code 0 exactly when the printed result is a success, which needs one argument, a readable data file and a non-empty API key; every other outcome exits with 1 |
| EmbeddingGenerator.Span | backend/python/embedding_generator.py:76-77 | a chunk holds at most `chunk_size` words |
| EmbeddingGenerator.ChunksFrom | backend/python/embedding_generator.py:72-85 | the loop yields at least one chunk, and the first is the up-to-500-word span at the start position |
| EmbeddingGenerator.ChunkStarts | backend/python/embedding_generator.py:73-83 | the loop's start positions begin at the given start |
| EmbeddingGenerator.ChunksAreSpans | backend/python/embedding_generator.py:75-83 | there is one chunk per start position, and each chunk is the run of at most `chunk_size` words from its start |
| EmbeddingGenerator.ChunkStartsStep | backend/python/embedding_generator.py:76-83 | consecutive starts are `chunk_size - overlap` words apart, every chunk but the last ends before the final word, and the last reaches it |
| EmbeddingGenerator.ChunkStartsAreMultiples | backend/python/embedding_generator.py:73-83 | chunk `i` starts at word `start + i * (chunk_size - overlap)` |
| EmbeddingGenerator.StartsByInduction | backend/python/embedding_generator.py:83 | a run of positions with a constant step has its `i`-th entry at `start + i * step` |
| EmbeddingGenerator.ChunksFromCover | backend/python/embedding_generator.py:75-83 | every word from the start on lies inside some chunk's span, so the chunks leave no word out |
| EmbeddingGenerator.ChunkText | backend/python/embedding_generator.py:56-85 | there is always at least one chunk, and a text of at most `chunk_size` words, the empty text included, is its own single chunk |
| EmbeddingGenerator.SpanWords | backend/python/embedding_generator.py:77 | joining a chunk's words with spaces and splitting again gives the same words |
| EmbeddingGenerator.ChunkWords | backend/python/embedding_generator.py:75-83 | chunk `i` of a long text, split into words, is the span of the text's words at the `i`-th start |
| EmbeddingGenerator.ChunkTextShape | backend/python/embedding_generator.py:56-85 | chunk `i` of a text longer than `chunk_size` is the text's words from the `i`-th start on; every chunk but the last holds exactly `chunk_size` words and the last ends at the final word |
| EmbeddingGenerator.ChunkCount | backend/python/embedding_generator.py:75-85 | a long text has exactly one chunk per start position |
| EmbeddingGenerator.StartAt | backend/python/embedding_generator.py:73-83 | from word 0, chunk `i` starts at word `i * (chunk_size - overlap)`; only the last chunk reaches the end of the text |
| EmbeddingGenerator.DocumentIdRoundTrip | backend/python/embedding_generator.py:103-105 | the chunk index can be read back from a document id after the video id and `_chunk_` |
| EmbeddingGenerator.DocumentIdsDistinct | backend/python/embedding_generator.py:103-105 | different chunk indices of one video give different document ids |
| EmbeddingGenerator.Add | backend/python/embedding_generator.py:142-151 | adding a document appends it to the id, document and metadata lists together, which stay the same length, and the text embedded is the document itself |
| EmbeddingGenerator.HeaderDocuments | backend/python/embedding_generator.py:140-168 | the title and summary documents form parallel lists whose embedded texts are the documents |
| EmbeddingGenerator.ChunkDocuments | backend/python/embedding_generator.py:181-207 | one document per chunk, in chunk order, under the id for its index; its metadata names the video, the chunk index, the chunk's word count, the `transcript` type, and the timestamp `round((i * chunk words / transcript words) * duration, 2)` |
| EmbeddingGenerator.EstimatedTimestampBounds | backend/python/embedding_generator.py:185-203 | on a non-negative duration the rounded timestamp estimate is never negative, and chunk 0 is stamped at 0 |
| EmbeddingGenerator.ChunkTimestampNonNegative | backend/python/embedding_generator.py:181-203 | every chunk's metadata carries a non-negative timestamp, and the first chunk's is 0 |
| EmbeddingGenerator.Concat | backend/python/embedding_generator.py:134-207 | header documents followed by chunk documents keep the lists parallel, with the header first and the chunks after it in order |
| EmbeddingGenerator.AssembleDocuments | backend/python/embedding_generator.py:186-188 | building the documents fails exactly when the transcript has no words, since the timestamp estimate divides by the word count |
| EmbeddingGenerator.AssembledLayout | backend/python/embedding_generator.py:134-207 | a title document exactly when the title is not blank and a summary document exactly when the summary is not blank, then every chunk in order under its chunk id |
| EmbeddingGenerator.HeaderLayout | backend/python/embedding_generator.py:140-168 | the header holds a `_title` document exactly when the title is not blank and a `_summary` document exactly when the summary is not blank |
| EmbeddingGenerator.TitleIncludedIsTruthiness | backend/python/embedding_generator.py:228 | a whitespace-only title counts as included in the reply although no title document is built |
| EmbeddingGenerator.DeleteVideo | backend/python/embedding_generator.py:124-132 | after the delete no document of the video remains, and every other document is kept unchanged |
| EmbeddingGenerator.Insert | backend/python/embedding_generator.py:215-220 | every new id is in the collection afterwards, nothing else is added, and documents whose ids are not reused are kept unchanged |
| EmbeddingGenerator.StoreVideoEmbeddings | backend/python/embedding_generator.py:107-239 | storing succeeds exactly when the transcript has words and neither the embedding model nor the collection fails; a failure leaves the video with no documents; a success reports title and summary as `bool(s)`, the chunk count and the collection size |
| EmbeddingGenerator.StoreReplacesVideoDocuments | backend/python/embedding_generator.py:124-220 | after a successful store the video's documents are exactly the new ones, and other videos' documents are untouched unless a new id overwrote them |
| EmbeddingGenerator.ChunkTextNonEmpty | backend/python/embedding_generator.py:171-177 | chunking never yields an empty list, so the no-chunks error cannot occur |
| EmbeddingGenerator.SearchSimilarVideos | backend/python/embedding_generator.py:241-316 | a blank query fails; the search succeeds exactly when the store answers with at least one hit, and then its results are the top matches of those hits for `limit`, with `total_found` their count |
| EmbeddingGenerator.TopMatches | backend/python/embedding_generator.py:283-303 | the matches hold at most one entry per video, by descending similarity, at most `limit` of them, and at least one when there is a hit and a positive limit |
| EmbeddingGenerator.TopMatchesHoldBestHits | backend/python/embedding_generator.py:283-296 | every result comes from one of the hits, and no hit of its video scores higher |
| EmbeddingGenerator.TopMatchesAreTopK | backend/python/embedding_generator.py:298-303 | a hit whose video has no result means `limit` results were kept, none scoring below that hit |
| EmbeddingGenerator.ScriptMain | backend/python/embedding_generator.py:318-382 | exit code 0 exactly when the printed result is a successful store or search, every other outcome exits with 1, and only a well-formed `store` command changes the collection |
| SemanticSearch.Boost | backend/python/semantic_search.py:133-138 | a title match is boosted by 1.3, a summary match by 1.15, and any other chunk type not at all |
| SemanticSearch.Similarity | backend/python/semantic_search.py:124-140 | every score lies in 0 to 1; a distance of 2 or more scores 0; an unboosted hit within distance 2 scores `1 - distance / 2` |
| SemanticSearch.SimilarityMonotone | backend/python/semantic_search.py:130-140 | a closer hit never scores lower, and at equal distance a title match scores at least a summary match, which scores at least a transcript match |
| SemanticSearch.MatchOf | backend/python/semantic_search.py:121-156 | a result keeps the hit's video, takes `transcript` as the chunk type when none is stored, scores by that type and shows the first 200 characters of the document |
| SemanticSearch.CandidateCount | backend/python/semantic_search.py:90 | at most 100 hits are asked for, and five per wanted result while the limit is at most 20 |
| SemanticSearch.Ranked | backend/python/semantic_search.py:113-163 | ranking keeps one entry per video, sorted by descending score, each built from one of the hits |
| SemanticSearch.Answer | backend/python/semantic_search.py:158-170 | the answer has one entry per video, by descending score, at most `limit` of them, each scoring above 0.2 and drawn from the ranked list |
| SemanticSearch.Search | backend/python/semantic_search.py:60-186 | no collection and a blank query fail with their messages; the search succeeds exactly when the collection exists, the query is not blank and the query call succeeds; no hits gives the empty success; otherwise the results are the answer and `total_found` is their count |
| SemanticSearch.FilterKeepsOrder | backend/python/semantic_search.py:165-170 | dropping weak matches keeps the list sorted and keeps one entry per video |
| SemanticSearch.AnswerIsTopRelevant | backend/python/semantic_search.py:158-170 | cutting to the limit before dropping weak matches is the same as dropping them first, so the answer is the `limit` best relevant videos |
| SemanticSearch.RankedHoldsBestHits | backend/python/semantic_search.py:146-156 | no hit of a ranked video scores higher than the entry kept for that video |
| SemanticSearch.AnswerHoldsBestHits | backend/python/semantic_search.py:146-170 | each answer comes from one of the hits, and no hit of the same video scores higher than it |
| SemanticSearch.ArgsError | backend/python/semantic_search.py:230-248 | the arguments pass exactly when there are two of them and the second is an integer from 1 to 50 |
| SemanticSearch.ScriptMain | backend/python/semantic_search.py:228-264 | exit code 0 exactly when a search ran and succeeded, which needs valid arguments and a searcher that could be built; every failure exits with 1 |
| SemanticSearch.MainAcceptsServerLimits | backend/python/semantic_search.py:237-252 | a limit written in decimal is accepted exactly when it lies in 1 to 50, and the search then runs with that limit |
| SemanticSearch.DecimalLimitArgs | backend/python/semantic_search.py:239-242 | a query and a decimal limit pass the argument checks exactly when the limit is in 1 to 50, and the limit reads back unchanged |
| ApiClient.AuthorizationHeader | frontend/lib/api.ts:15-23 | a request carries `Authorization: Bearer <token>` exactly when a non-empty access token is stored |
| ApiClient.HeaderCarriesToken | frontend/lib/api.ts:17-19 | the server's bearer parser reads back exactly the token the client attached |
| ApiClient.UserMessage | frontend/lib/api.ts:36-53 | a failed request shows, by priority: the connection message, the session message on 401, the permission message on 403, the server's `error` text, the error's own message, then the generic text |
| ApiClient.GuardRejectionMessages | frontend/lib/api.ts:42-45 | every rejection of the admin guard, received over a working connection, shows the session or the permission message and never the server's text |
| ApiClient.SaveSession | frontend/lib/api.ts:308-312 | a successful login or registration stores the two tokens and the user under their keys and leaves every other key as it was |
| ApiClient.Logout | frontend/lib/api.ts:348-353 | logging out removes the three session keys and nothing else |
| ApiClient.LogoutUndoesSession | frontend/lib/api.ts:330-353 | a login followed by a logout leaves storage as a logout alone would, with no access token |
| ApiClient.Field | backend/src/routes/auth.ts:281 | a destructured body field is present exactly when the body has that key |
| ApiClient.ChangePasswordAlwaysRejected | frontend/lib/api.ts:387-392 | the password change as the client sends it, with snake_case keys, is always answered with the missing-field error and changes nothing |
| ApiClient.ChangePasswordFixedReaches | backend/src/routes/auth.ts:281-288 | a body with the keys the server reads hands both passwords to the password change |
| ApiClient.RefreshAlwaysRejected | frontend/lib/api.ts:402-407 | the refresh as the client sends it, under `refresh_token`, is always answered with the missing-token error |
| ApiClient.RefreshFixedReaches | backend/src/routes/auth.ts:153-160 | a body under `refreshToken` with a valid refresh token of an active user is refreshed |
| VideoInput.HandleSubmit | frontend/app/components/VideoInput.tsx:36-57 | a URL is handed to the analysis, untrimmed, exactly when it is not blank and matches one of the two URL patterns; blank and non-matching URLs get their own messages, and the no-id message is never shown because every matching URL yields an id |
| VideoInput.SchemaUrlsAreSubmitted | frontend/app/components/VideoInput.tsx:15-21 | every non-blank URL the analyze route's request schema accepts is submitted as it is |
| VideoInput.HandleUrlChange | frontend/app/components/VideoInput.tsx:59-62 | typing replaces the URL and leaves no error shown |
| SentimentChart.JsIntRem | frontend/app/components/SentimentChart.tsx:43 | the remainder agrees with the mathematical one on non-negative seconds and is always smaller than the divisor in magnitude |
| SentimentChart.FormatTimestampIsClock | frontend/app/components/SentimentChart.tsx:41-45 | on whole non-negative seconds the label is the `m:ss` clock, with seconds padded to two digits, and it reads back as those seconds |
| SentimentChart.Labels | frontend/app/components/SentimentChart.tsx:61 | one label per point, in order, each reading back as the point's floored timestamp |
| SentimentChart.ColourIsCategory | frontend/app/components/SentimentChart.tsx:47-57 | a point is green exactly when its score is positive, red exactly when negative and yellow exactly when neutral, by the server's 0.1 bands |
| SentimentChart.SentimentSummary | frontend/app/components/SentimentChart.tsx:186-198 | with points, the positive count is the points scored above 0.1, the negative count those below -0.1 and the neutral count those within the band, the three add up to the number of points, and the average is the score sum over the count; with none there is no summary |
| SentimentChart.SummaryCountsColours | frontend/app/components/SentimentChart.tsx:47-57 | the summary's positive, negative and neutral counts are the numbers of green, red and yellow points |
| TopicCloud.FrequencyOf | frontend/app/components/TopicCloud.tsx:14-20 | the distinct topics are listed once each, they are exactly the topics that occur, and each one's frequency is its number of occurrences, at least 1 |
| TopicCloud.FirstMostFrequent | frontend/app/components/TopicCloud.tsx:151-154 | the index `reduce` settles on has a count at least every other key's and strictly above every earlier key's |
| TopicCloud.MostFrequentCell | frontend/app/components/TopicCloud.tsx:151-154 | the "Most Frequent" cell as written throws exactly when the cloud has no topics |
| TopicCloud.MostFrequentTopic | frontend/app/components/TopicCloud.tsx:151-154 | the corrected cell is empty exactly for an empty cloud and otherwise shows a key whose count is the highest |
| TopicCloud.MostFrequentTopicIsMaximal | frontend/app/components/TopicCloud.tsx:151-154 | the corrected cell shows a topic occurring at least as often as every topic, and agrees with the written cell wherever that renders |
| TopicCloud.OccurrencesAbsent | frontend/app/components/TopicCloud.tsx:14-20 | a topic that does not occur has no occurrences |
| TopicCloud.FrequenciesSumToLength | frontend/app/components/TopicCloud.tsx:14-20 | the frequencies add up to the number of topics |
| TopicCloud.SumStep | frontend/app/components/TopicCloud.tsx:16-18 | counting one more topic raises the sum of frequencies by one, whether the topic is new or already listed |
| TopicCloud.SumBump | frontend/app/components/TopicCloud.tsx:17 | raising one listed topic's frequency by one raises the sum by one |
| TopicCloud.SumUnchanged | frontend/app/components/TopicCloud.tsx:17 | setting the frequency of an unlisted topic leaves the sum alone |
| TopicCloud.TopicSize | frontend/app/components/TopicCloud.tsx:22-27 | a topic that occurs is drawn above 12 and at most 24, and the most frequent at exactly 24 |
| TopicCloud.ColourBand | frontend/app/components/TopicCloud.tsx:29-35 | the colour is one of four bands |
| TopicCloud.ColourBandMonotone | frontend/app/components/TopicCloud.tsx:29-35 | a more frequent topic is never in a weaker band, and the most frequent is in the strongest |
| TopicCloud.MaxFrequency | frontend/app/components/TopicCloud.tsx:38 | the maximum is at least every listed frequency and equals one of them |
| TopicCloud.CloudSizes | frontend/app/components/TopicCloud.tsx:37-94 | every topic of the list appears in the cloud at a size between 12 and 24, and the most frequent ones get the strongest colour |
| TopicCloud.Filtered | frontend/app/components/TopicCloud.tsx:41-45 | an empty filter keeps every topic, otherwise exactly the topics containing the term ignoring case are kept |
| TopicCloud.Toggle | frontend/app/components/TopicCloud.tsx:47-53 | clicking the selected topic clears the selection, clicking any other makes it the selection |
| TopicCloud.ToggleTwice | frontend/app/components/TopicCloud.tsx:47-53 | two clicks on the same topic restore a selection that was empty or that topic |
| SearchInterface.SimilarityLabel | frontend/app/components/SearchInterface.tsx:72-76 | a score of 0.8 or more is High, from 0.6 below 0.8 is Medium, below 0.6 is Low |
| SearchInterface.ColourMatchesLabel | frontend/app/components/SearchInterface.tsx:66-76 | the badge colour and the label always agree, and a higher score never gets a lower label |
| SearchInterface.StartSearch | frontend/app/components/SearchInterface.tsx:24-47 | a blank query changes nothing and sends nothing; otherwise loading starts, error and results are cleared, and the trimmed, non-empty query goes out with limit 10 |
| SearchInterface.FinishSearch | frontend/app/components/SearchInterface.tsx:50-63 | loading always ends; a response sets the results, absent ones as empty; a thrown `Error` sets its own message, even an empty one, and any other thrown value the fallback message |
| SearchInterface.SearchSettles | frontend/app/components/SearchInterface.tsx:24-64 | a search of a non-blank query ends not loading, with an error exactly when the request threw, and with no results in that case |
| SearchInterface.FailureShowsError | frontend/app/components/SearchInterface.tsx:59-60 | after a failure the error box shows exactly when the thrown value is no `Error` or has a non-empty message, so the route's own HTTP failure always shows |
| SearchInterface.ResultLink | frontend/app/components/SearchInterface.tsx:203 | a result opens its own non-empty URL, and otherwise the canonical watch URL of its id |
| SearchInterface.FallbackLinkOpensVideo | frontend/app/components/SearchInterface.tsx:78 | the fallback link of a well-formed id leads back to that id |
| SummaryDisplay.ActiveText | frontend/app/components/SummaryDisplay.tsx:78-80 | the short tab shows the short summary and the detailed tab the detailed one |
| SummaryDisplay.CopyActive | frontend/app/components/SummaryDisplay.tsx:84-92 | the copy button copies the active tab's text under the tab's name, so the copied mark shows on the short tab exactly when the short summary was copied |
| SummaryDisplay.WordCount | frontend/app/components/SummaryDisplay.tsx:106 | the word count shown is never below 1 |
| SummaryDisplay.WordCountIsSpacesPlusOne | frontend/app/components/SummaryDisplay.tsx:106 | the count is the number of spaces plus one, so an empty summary shows one word |
| SummaryDisplay.NoSpaceCount | frontend/app/components/SummaryDisplay.tsx:106 | a text without spaces has no spaces to count |
| SummaryDisplay.ExportText | frontend/app/components/SummaryDisplay.tsx:114 | the exported text is as long as the title and both summaries plus two blank-line separators |
| SummaryDisplay.ExportTextParts | frontend/app/components/SummaryDisplay.tsx:131 | the title, the short summary and the detailed summary can be read back out of the exported text |
| SummaryDisplay.SafeChar | frontend/app/components/SummaryDisplay.tsx:136 | each file-name character is an underscore, a lower-case letter or a digit, and ASCII letters and digits survive lower-cased |
| SummaryDisplay.SafeName | frontend/app/components/SummaryDisplay.tsx:136 | the sanitised title has one character per UTF-16 code unit of the title, each a lower-case letter, digit or `_`, and a title without astral characters is sanitised character by character |
| SummaryDisplay.SafePiece | frontend/app/components/SummaryDisplay.tsx:136 | a character becomes as many characters as it has UTF-16 code units, each its sanitised form |
| SummaryDisplay.AstralBecomesTwoUnderscores | frontend/app/components/SummaryDisplay.tsx:136 | an emoji title becomes two underscores, one per surrogate |
| SummaryDisplay.DownloadName | frontend/app/components/SummaryDisplay.tsx:136 | the file name is as many safe characters as the title has UTF-16 code units, followed by `_summary.txt` |
| SummaryDisplay.DownloadNameStem | frontend/app/components/SummaryDisplay.tsx:136 | lower-case letters and digits of a title without astral characters are kept in place, sanitising twice equals sanitising once, and a title of only those is its own stem |
| HistoryPage.FormatDuration | frontend/app/history/page.tsx:72-80 | the label always ends in `m`, and shows an hours part exactly when the duration is at least 60 whole minutes |
| HistoryPage.NotInNumber | frontend/app/history/page.tsx:77 | a rendered number holds no letter, so the `h` of the label comes only from the hours marker |
| HistoryPage.DurationReadsBack | frontend/app/history/page.tsx:72-80 | the label's leading number reads back as the hours when there are any, otherwise as the whole minutes, and hours and remaining minutes make up the whole minutes |
| HistoryPage.FilteredVideos | frontend/app/history/page.tsx:82-85 | the shown videos are exactly the loaded ones whose title or one of whose topics contains the query, ignoring case |
| HistoryPage.EmptyQueryKeepsAll | frontend/app/history/page.tsx:82-85 | an empty query shows every loaded video, in order |
| HistoryPage.PrevPage | frontend/app/history/page.tsx:294 | Previous never goes below page 1 and otherwise goes back one page |
| HistoryPage.NextPage | frontend/app/history/page.tsx:308 | Next never goes past the last page and otherwise goes forward one page |
| HistoryPage.PageButtonsInverse | frontend/app/history/page.tsx:294-308 | from a page in range both buttons stay in range, and away from the ends each undoes the other |
| HistoryPage.TopicChips | frontend/app/history/page.tsx:208-222 | a card shows the first three topics, and a `+k more` chip exactly when there are more, counting the rest |
| HistoryPage.ChipsCoverTopics | frontend/app/history/page.tsx:208-222 | every topic is either shown or counted in `+k more`, and the shown ones followed by the rest are the topics |
| AdminUsersPage.GateOf | frontend/app/admin/users/page.tsx:32-49 | the page waits while the session loads, then sends a signed-out visitor to the login page, a signed-in non-admin to the dashboard, and fetches the users only for an admin |
| AdminUsersPage.HandleCreate | frontend/app/admin/users/page.tsx:63-81 | the name, email and password checks run in that order, each failing with its own message, the password needing 6 UTF-16 code units; a form passing all three sends the trimmed name and email, the password as typed and the chosen role |
| AdminUsersPage.SentFormPassesRequiredFields | frontend/app/admin/users/page.tsx:63-81 | every request the form sends gets past the server's required-field check, names a role the server knows and carries a password of at least 6 characters |
| AdminUsersPage.FormEmailCheckIsLooser | frontend/app/admin/users/page.tsx:69 | every email the User schema's pattern accepts passes the form's check, but `a@b` passes the form and fails the schema |
| AdminUsersPage.ResetForm | frontend/app/admin/users/page.tsx:132-138 | a reset empties name, email and password, sets the role back to customer and deselects the user |
| AdminUsersPage.ResetFormIsRejected | frontend/app/admin/users/page.tsx:63-67 | submitting a freshly reset form fails at the name check |
| AdminUsersPage.DeleteRequest | frontend/app/admin/users/page.tsx:105-112 | the delete request is sent, for that user's id, exactly when the dialog is confirmed |
| ProfilePage.StartPasswordChange | frontend/app/profile/page.tsx:54-72 | messages are cleared; a mismatched confirmation is reported before a short password; only a form whose new password matches and has at least 8 UTF-16 code units sends the current and new password |
| ProfilePage.FinishPasswordChange | frontend/app/profile/page.tsx:72-82 | loading always ends; a success shows the success message, empties the three fields and hides the form; a failure shows a non-empty error and keeps the fields |
| ProfilePage.StartProfileUpdate | frontend/app/profile/page.tsx:38-45 | messages are cleared, loading starts and the name and email are sent as typed |
| ProfilePage.HandlersClearMessages | frontend/app/profile/page.tsx:38-69 | both handlers start from a form with no message, and a password change that is sent carries no error |
| ProfilePage.PageRequestMeetsServerMinimum | frontend/app/profile/page.tsx:64-72 | every password the page sends meets the server's 6-character minimum, so with the server's keys only the user lookup and the current password can refuse it, while with the keys the page sends the server never sees the passwords |
| Navigation.Segment | frontend/app/components/Navigation.tsx:9-11 | a link is active exactly when the current path is its path followed by nothing or by a segment starting with `/` |
| Navigation.ActiveAtBoundary | frontend/app/components/Navigation.tsx:9-11 | an active link's path is a prefix of the current path that ends at a segment boundary |
| Navigation.SiblingIsNotActive | frontend/app/components/Navigation.tsx:9-11 | `/searchx` does not activate the search link, while `/search/abc` does |
| Navigation.AtMostOneLinkActive | frontend/app/components/Navigation.tsx:9-40 | no path activates two of the bar's three links |
| Navigation.FirstLetter | frontend/app/components/Navigation.tsx:9-11 | an active link's first letter after the slash is the current path's |
| Ranking.KeepBest | backend/python/semantic_search.py:146-156 | one step of the per-video fold keeps ids distinct, adds at most one entry, and leaves an entry for the new hit's video scoring at least as high as the hit |
| Ranking.DedupBest | backend/python/semantic_search.py:113-156 | the fold keeps one entry per id, each taken from the input, and every input is matched by a kept entry of its id scoring at least as high |
| Ranking.DedupKeepsMaximum | backend/python/embedding_generator.py:289-296 | the entry kept for an id scores at least as high as every input of that id |
| Ranking.DedupDistinctIsIdentity | backend/python/semantic_search.py:146-156 | a list that already has one entry per id passes through the fold unchanged |
| Ranking.SortDesc | backend/python/semantic_search.py:158-163 | sorting by descending score gives a sorted permutation of the input |
| Ranking.TakeDedupDominates | backend/python/embedding_generator.py:298-303 | a video left out of the cut list means the cut kept `limit` videos, each scoring at least as high as any of its hits |
| Text.Excerpt | backend/python/semantic_search.py:152 | a document of at most 200 characters is shown whole, a longer one as its first 200 characters followed by `...` |
| Text.ParsePyIntOfIntToString | backend/python/semantic_search.py:240 | `int` reads back every integer rendered in decimal |
| Text.TrimEmptyIffBlank | frontend/app/components/VideoInput.tsx:40 | a trimmed string is empty exactly when the string is all whitespace |
| Text.StripEmptyIffBlank | backend/python/semantic_search.py:78 | a stripped string is empty exactly when the string is all Python whitespace |
| Text.Utf16LengthIsLength | backend/src/routes/auth.ts:290 | a string's `.length` equals its number of characters exactly when none lies beyond U+FFFF |

## Left out

- Subprocess mechanics are not modelled: spawning, stream buffering, wall-clock timeouts and signals. The bridge sees each script run as a `ProcessOutcome` value.
- The race between a child process's `error` and `close` events is not modelled, because the model has no event ordering.
- `backend/src/services/chromaService.ts` is not part of this model, because none of the modelled code imports it.
- MongoDB and Mongoose are not modelled: the connection in `database.ts`, the admin seeding script, and the query engine itself. Sorting by `created_at` is the `newestFirst` parameter, fresh `_id` values are the `newId` parameter, and `$text` relevance scoring is a parameter of the search route.
- The sentiment-label aggregation `getVideoSentimentStats` is not modelled, because it is a MongoDB aggregation pipeline. Its result fills only the `statistics` field of `GET /:videoId/sentiment`, which `VideosRoute.GetSentiment` leaves out. The details route computes its own statistics inline, and that computation is modelled as `VideosRoute.StatsOf`.
- `getSentimentTimeline` and `findByTopic` are not modelled, because nothing calls them.
- The `$text` searches `searchSummaries` and `searchByTitle` are not modelled, because their relevance scoring belongs to MongoDB. Their hits are inputs instead: they feed the search route's text fallback (the `summaryHits` and `titleHits` of `SearchRoute.Fallback`) and the similar-videos topic search (the `summariesMatching` parameter of `SearchRoute.SimilarResponseOf`).
- The admin `/stats` route is not modelled, because it only reports collection counts.
- Machine-learning, LLM, vector-store and HTTP calls are oracles passed in as parameters: the Groq chat model, the DistilBERT sentiment pipeline, the SentenceTransformer encoder, ChromaDB, the YouTube transcript service and oEmbed.
- Regular-expression scrubbing of free text is a parameter: markdown and intro stripping of model output in the summarizer, `clean_transcript_text`, and splitting topic candidates.
- JWT signing and verification are function parameters, because their cryptography is not decision logic. Whether a token has expired is part of the verifier's answer.
- bcrypt's Blowfish rounds and its random salt are not modelled. A stored hash is the 72-byte key bcrypt reads (`Models.BcryptKey`: the password's UTF-8 bytes and a zero byte, repeated), so two passwords match exactly when their keys agree. A collision of the cipher itself is not modelled.
- Concurrency is not modelled: two analyze requests for one video that both pass the cache check, the deletes run under `Promise.all`, and a crash between a delete and the following insert. Each handler is one atomic step on the store.
- Floating point is modelled as exact reals, so binary rounding error is not modelled. Python's `round(x, digits)` is modelled as round-half-even on the exact value (`Core.PyRound`) where the sentiment analyzer reports its scores and statistics, where the transcript extractor rounds `start`, `duration` and `total_duration` (`TranscriptExtractor.Cleaned`, `TranscriptExtractor.ExtractTranscript`), and where the embedding generator rounds a chunk's estimated timestamp (`EmbeddingGenerator.EstimatedTimestamp`). The semantic search stores each similarity rounded to four places and its `> 0.2` threshold and ranking test that rounded value (backend/python/semantic_search.py:150-169); the model keeps and tests the exact similarity. `Math.round` is modelled as `Paging.Round`. `toFixed` in the sentiment chart is not modelled.
- Case folding is modelled for ASCII letters only (`Text.Lower`), because the Unicode case tables are not modelled. JavaScript's `toLowerCase` and Python's `lower()` also fold other capitals, such as "É". The members whose statements this narrows are listed below by name.
- A malformed ObjectId, which raises a CastError in `findById`, is not modelled, because ids are plain strings.
- The `created_at` and `updated_at` timestamps are not modelled, because they come from the clock. The analyze route's clock reading is a parameter.
- The text of `error.message` in 500 responses is not modelled. The model keeps only the status and the error kind.
- `checkPythonEnvironment` and `get_collection_stats` in `semantic_search.py` are not modelled, because they only probe the installation.
- The server wiring is not modelled: `index.ts`, the health route, `next.config.js` and the root layout.
- The React pages not named above are not modelled, and neither is `AuthContext`. Browser storage is modelled only for the token and user keys the API client writes. Rendering is not modelled.
- The profile page's handling of a completed profile update is not modelled, because it only re-renders.
- SentimentChart.SentimentSummary: returns the counts and the exact average, not the percentages rounded with `toFixed`.
- TopicCloud.FrequencyOf: counts into a map, while the component counts into a plain `{}` object. The ensures clauses therefore hold only for topics that are not `Object.prototype` member names. A topic named `constructor`, `toString`, `valueOf`, `hasOwnProperty` or another inherited name starts from a function, so its count becomes a string and the sizes become `NaN`. A topic named `__proto__` never becomes a key. The ensures clauses also say nothing about key order, because JavaScript enumerates integer-like keys first.
- Models.SaveUser: lowercases the email with ASCII folding only, where Mongoose's `lowercase` setter uses the Unicode `toLowerCase`.
- Models.NormalizedIsLower: states only that no ASCII capital survives normalisation. This is true of the source too, but the source also removes the non-ASCII capitals that the model keeps.
- Models.FindByEmail: lowers its argument with ASCII folding only, so "É@X.COM" does not find "é@x.com", although the source finds it; the trimming of the `trim` setter is modelled.
- Summarizer.AcceptableLowered: "lower-case" means no ASCII capital, where Python's `lower()` folds every capital.
- Summarizer.FilterTopics: compares topics after ASCII folding only, so "Été" and "été" stay apart, where Python's `lower()` merges them.
- TopicCloud.Filtered: matches ignoring ASCII case only, where `toLowerCase` also folds other capitals.
- HistoryPage.FilteredVideos: matches ignoring ASCII case only, where `toLowerCase` also folds other capitals.
- Analyze.ValidateRequest: takes a typed request, so Joi's refusal of unknown keys and of non-string values (`string.base`) is not modelled.
- SearchRoute.ValidateSearch: takes a typed request, so these Joi behaviours are not modelled: refusing unknown keys, refusing non-string queries, converting a numeric string such as `"5"` into a limit, and refusing `limit: null`.
- EmbeddingGenerator.TopMatches: keeps each hit's exact similarity. The script stores each kept score rounded to four places and compares later hits of the same video against that rounded value, so among hits within 0.00005 of each other it may keep a later one.
- SemanticSearch.Ranked: keeps each hit's exact similarity. As in the embedding search, the script compares later hits against the rounded stored score.
- The invalid-argument messages of the two search scripts quote the argument as Python's `repr` does for plain text. An argument containing a quote or a backslash, which `repr` double-quotes or escapes, is quoted the plain way.
- Ranking.SortDesc: does not promise stability on ties, although Python's `sorted` and JavaScript's `Array.prototype.sort` are stable.
- Text.ParsePyInt: reads ASCII digits only. It does not accept the underscores that Python's `int()` allows between digit groups, nor the non-ASCII decimal digits `int()` also reads, such as "٣" (ARABIC-INDIC DIGIT THREE).
- Text.JsParseInt: reads decimal digits only. A `0x` prefix, which `parseInt` without a radix reads as hexadecimal, is not modelled.

## Findings

| source | as written | input that shows it | evidently intended | confidence | as-written member | corrected member |
|---|---|---|---|---|---|---|
| frontend/lib/api.ts:387-392 | the client sends the password change as `current_password` and `new_password`, while the route reads `currentPassword` and `newPassword` (backend/src/routes/auth.ts:281) | any password change, for example current `a` and new `secret1`: the route sees neither field and answers 400 | the client sends the field names the route reads, so a valid change reaches the password check | not executed | ApiClient.ChangePasswordAlwaysRejected | ApiClient.ChangePasswordFixedReaches |
| frontend/lib/api.ts:402-407 | the client sends the refresh request as `refresh_token`, while the route reads `refreshToken` (backend/src/routes/auth.ts:153) | any refresh with a stored refresh token: the route sees no token and answers 400 | the client sends `refreshToken`, so the route verifies the token | not executed | ApiClient.RefreshAlwaysRejected | ApiClient.RefreshFixedReaches |
| frontend/app/components/TopicCloud.tsx:151-154 | the "Most Frequent" cell calls `reduce` without an initial value on the distinct topics, which throws a `TypeError` on an empty list | a video whose topic extraction failed, which the summarizer reports with an empty topic list; the dashboard renders its cloud (frontend/app/dashboard/page.tsx:159) and the cell throws | an empty cloud shows no most frequent topic and renders the rest | not executed | TopicCloud.MostFrequentCell | TopicCloud.MostFrequentTopic |
