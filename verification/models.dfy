/** The four stored document kinds (Video, Summary, Sentiment, User), the
    setters that normalise them when assigned (`trim`, `lowercase`), the
    validators a save runs, and their instance helpers. A save either yields
    the normalised document or fails validation (`None`). */
module Models {
  import opened Core
  import opened Text
  import VideoUrls

  /** `^[a-zA-Z0-9_-]{11}$`, the video id format every collection enforces. */
  predicate IsVideoId(s: string) {
    |s| == 11 && forall i | 0 <= i < |s| :: IsIdChar(s[i])
  }

  /** Mongoose `required` on a string: present and not the empty string. */
  predicate Required(s: string) { |s| > 0 }

  // ---------------------------------------------------------------------------
  // Video

  /** A transcript segment as stored on a Video and as produced by the transcript extractor. */
  datatype Segment = Segment(text: string, start: real, duration: real)

  datatype VideoDoc = VideoDoc(
    video_id: string,
    title: string,
    url: string,
    transcript: seq<Segment>,
    created_at: int)

  predicate ValidSegment(s: Segment) {
    Required(s.text) && s.start >= 0.0 && s.duration >= 0.0
  }

  /** The Video schema's validators, on an already normalised document. */
  predicate ValidVideo(v: VideoDoc) {
    IsVideoId(v.video_id) &&
    Required(v.title) && Utf16Length(v.title) <= 500 &&
    Required(v.url) && VideoUrls.HasWatchOrShortPrefix(v.url) &&
    forall i | 0 <= i < |v.transcript| :: ValidSegment(v.transcript[i])
  }

  /** Saving a Video: the `trim` setter on `title`, then validation. */
  function SaveVideo(v: VideoDoc): (r: Option<VideoDoc>)
    ensures r.Some? ==> ValidVideo(r.value)
    ensures r.Some? ==> r.value == v.(title := Trim(v.title))
    ensures r.None? ==> !ValidVideo(v.(title := Trim(v.title)))
  {
    var n := v.(title := Trim(v.title));
    if ValidVideo(n) then Some(n) else None
  }

  lemma {:induction false} TrimStartIdempotent(s: string)
    ensures TrimStart(TrimStart(s)) == TrimStart(s)
  {
  }

  lemma {:induction false} TrimIdempotent(s: string)
    ensures Trim(Trim(s)) == Trim(s)
  {
    var t := Trim(s);
    if |t| > 0 {
      assert TrimStart(t) == t;
      assert TrimEnd(t) == t;
    }
  }

  /** A saved Video saves again unchanged. */
  lemma {:induction false} SaveVideoIdempotent(v: VideoDoc)
    requires SaveVideo(v).Some?
    ensures SaveVideo(SaveVideo(v).value) == SaveVideo(v)
  {
    TrimIdempotent(v.title);
  }

  /** Sum of the segment durations, folded from the left like `reduce(..., 0)`. */
  function TotalDuration(transcript: seq<Segment>): real
  {
    if |transcript| == 0 then 0.0
    else TotalDuration(transcript[..|transcript| - 1]) + transcript[|transcript| - 1].duration
  }

  /** `getTotalDuration` is additive over concatenation and never negative on valid segments. */
  lemma {:induction false} TotalDurationAppend(a: seq<Segment>, b: seq<Segment>)
    ensures TotalDuration(a + b) == TotalDuration(a) + TotalDuration(b)
    decreases |b|
  {
    if |b| > 0 {
      assert (a + b)[..|a + b| - 1] == a + b[..|b| - 1];
      TotalDurationAppend(a, b[..|b| - 1]);
    } else {
      assert a + b == a;
    }
  }

  lemma {:induction false} TotalDurationNonNegative(transcript: seq<Segment>)
    requires forall i | 0 <= i < |transcript| :: transcript[i].duration >= 0.0
    ensures TotalDuration(transcript) >= 0.0
  {
    if |transcript| > 0 {
      TotalDurationNonNegative(transcript[..|transcript| - 1]);
    }
  }

  function SegmentText(s: Segment): string { s.text }

  /** `getTranscriptText`: the segment texts joined by single spaces. */
  function TranscriptText(transcript: seq<Segment>): string
  {
    Join(Map(transcript, SegmentText), " ")
  }

  /** Joining splits along segment boundaries: the text of two transcripts is
      the text of the first, a space, and the text of the second. */
  lemma {:induction false} TranscriptTextAppend(a: seq<Segment>, b: seq<Segment>)
    requires |a| > 0 && |b| > 0
    ensures TranscriptText(a + b) == TranscriptText(a) + " " + TranscriptText(b)
  {
    assert Map(a + b, SegmentText) == Map(a, SegmentText) + Map(b, SegmentText);
    JoinAppend(Map(a, SegmentText), Map(b, SegmentText), " ");
  }

  // ---------------------------------------------------------------------------
  // Summary

  datatype SummaryDoc = SummaryDoc(
    summary_id: string,
    video_id: string,
    summary_short: string,
    summary_detailed: string,
    topics: seq<string>,
    created_at: int)

  predicate ValidSummary(s: SummaryDoc) {
    Required(s.summary_id) &&
    IsVideoId(s.video_id) &&
    Required(s.summary_short) && Utf16Length(s.summary_short) <= 3000 &&
    Required(s.summary_detailed) && Utf16Length(s.summary_detailed) <= 10000 &&
    |s.topics| <= 20
  }

  /** Saving a Summary: `trim` on both summaries, then validation. */
  function SaveSummary(s: SummaryDoc): (r: Option<SummaryDoc>)
    ensures r.Some? ==> ValidSummary(r.value)
    ensures r.Some? ==> r.value == s.(summary_short := Trim(s.summary_short), summary_detailed := Trim(s.summary_detailed))
    ensures r.None? ==> !ValidSummary(s.(summary_short := Trim(s.summary_short), summary_detailed := Trim(s.summary_detailed)))
  {
    var n := s.(summary_short := Trim(s.summary_short), summary_detailed := Trim(s.summary_detailed));
    if ValidSummary(n) then Some(n) else None
  }

  lemma {:induction false} SaveSummaryIdempotent(s: SummaryDoc)
    requires SaveSummary(s).Some?
    ensures SaveSummary(SaveSummary(s).value) == SaveSummary(s)
  {
    TrimIdempotent(s.summary_short);
    TrimIdempotent(s.summary_detailed);
  }

  /** `getTopTopics(limit = 5)`: `topics.slice(0, limit)`. */
  function TopTopics(topics: seq<string>, limit: Option<int>): (r: seq<string>)
    ensures r <= topics
    ensures limit.None? ==> |r| == Min(5, |topics|)
    ensures limit.Some? && limit.value >= 0 ==> |r| == Min(limit.value, |topics|)
  {
    JsSliceTo(topics, limit.GetOr(5))
  }

  /** Number of runs of whitespace in `s`. */
  function SpaceRuns(s: string): nat
  {
    if |s| == 0 then 0
    else if IsSpace(s[0]) && (|s| == 1 || !IsSpace(s[1])) then 1 + SpaceRuns(s[1..])
    else SpaceRuns(s[1..])
  }

  /** `s.split(/\s+/).length`: one field more than there are whitespace runs. */
  function RegexFieldCount(s: string): nat
  {
    SpaceRuns(s) + 1
  }

  datatype WordCount = WordCount(short: nat, detailed: nat, total: nat)

  /** `getWordCount` of a Summary. */
  function GetWordCount(s: SummaryDoc): (r: WordCount)
    ensures r.short >= 1 && r.detailed >= 1
    ensures r.total == r.short + r.detailed
  {
    var a := RegexFieldCount(s.summary_short);
    var b := RegexFieldCount(s.summary_detailed);
    WordCount(a, b, a + b)
  }

  lemma {:induction false} SpaceRunsOfWord(w: string)
    requires forall i | 0 <= i < |w| :: !IsSpace(w[i])
    ensures SpaceRuns(w) == 0
  {
    if |w| > 0 {
      SpaceRunsOfWord(w[1..]);
    }
  }

  /** A field of `split(/\s+/)`: non-empty, no JavaScript whitespace. */
  predicate IsJsWord(w: string) {
    |w| > 0 && forall i | 0 <= i < |w| :: !IsSpace(w[i])
  }

  lemma {:induction false} SpaceRunsCons(w: string, rest: string)
    requires IsJsWord(w) && |rest| > 0 && !IsSpace(rest[0])
    ensures SpaceRuns(w + " " + rest) == SpaceRuns(rest) + 1
  {
    SpaceRunsPrefix(w, " " + rest);
    assert (" " + rest)[1..] == rest;
    assert w + " " + rest == w + (" " + rest);
  }

  lemma {:induction false} SpaceRunsPrefix(w: string, tail: string)
    requires forall i | 0 <= i < |w| :: !IsSpace(w[i])
    ensures SpaceRuns(w + tail) == SpaceRuns(tail)
    decreases |w|
  {
    if |w| > 0 {
      assert (w + tail)[1..] == w[1..] + tail;
      if |w| == 1 {
        assert w + tail == [w[0]] + tail;
      }
      SpaceRunsPrefix(w[1..], tail);
    } else {
      assert w + tail == tail;
    }
  }

  /** On text that is a space-joined list of words (the shape the summarizer
      produces), the regex field count is the number of words. */
  lemma {:induction false} FieldCountOfJoinedWords(ws: seq<string>)
    requires |ws| > 0
    requires forall k | 0 <= k < |ws| :: IsJsWord(ws[k])
    ensures RegexFieldCount(JoinWords(ws)) == |ws|
  {
    if |ws| == 1 {
      SpaceRunsOfWord(ws[0]);
    } else {
      var rest := ws[1..];
      JoinCons(ws[0], rest, " ");
      assert ws == [ws[0]] + rest;
      FieldCountOfJoinedWords(rest);
      var j := JoinWords(rest);
      JoinStartsWithWord(rest);
      SpaceRunsCons(ws[0], j);
    }
  }

  lemma {:induction false} JoinStartsWithWord(ws: seq<string>)
    requires |ws| > 0
    requires forall k | 0 <= k < |ws| :: IsJsWord(ws[k])
    ensures |JoinWords(ws)| > 0 && !IsSpace(JoinWords(ws)[0])
  {
    if |ws| > 1 {
      JoinCons(ws[0], ws[1..], " ");
      assert ws == [ws[0]] + ws[1..];
    }
  }

  // ---------------------------------------------------------------------------
  // Sentiment

  datatype Label = Positive | Neutral | Negative

  function LabelName(l: Label): string {
    match l
    case Positive => "positive"
    case Neutral => "neutral"
    case Negative => "negative"
  }

  /** The three-way split of a sentiment score used throughout the
      application: above 0.1 positive, below -0.1 negative, else neutral. */
  function Classify(score: real): (l: Label)
    ensures l == Positive <==> score > 0.1
    ensures l == Negative <==> score < -0.1
    ensures l == Neutral <==> -0.1 <= score <= 0.1
  {
    if score > 0.1 then Positive else if score < -0.1 then Negative else Neutral
  }

  datatype SentimentDoc = SentimentDoc(
    segment_id: string,
    video_id: string,
    timestamp: real,
    sentiment_label: string,
    sentiment_score: real,
    text_segment: string)

  /** The Sentiment schema's validators. Label and score are checked
      independently: nothing ties the stored label to the stored score. */
  predicate ValidSentiment(d: SentimentDoc) {
    Required(d.segment_id) &&
    IsVideoId(d.video_id) &&
    d.timestamp >= 0.0 &&
    d.sentiment_label in {"positive", "neutral", "negative"} &&
    -1.0 <= d.sentiment_score <= 1.0 &&
    Required(d.text_segment) && Utf16Length(d.text_segment) <= 1000
  }

  /** Saving a Sentiment: `trim` on `text_segment`, then validation. */
  function SaveSentiment(d: SentimentDoc): (r: Option<SentimentDoc>)
    ensures r.Some? ==> ValidSentiment(r.value) && r.value == d.(text_segment := Trim(d.text_segment))
    ensures r.None? ==> !ValidSentiment(d.(text_segment := Trim(d.text_segment)))
  {
    var n := d.(text_segment := Trim(d.text_segment));
    if ValidSentiment(n) then Some(n) else None
  }

  /** The validators accept a label that disagrees with the score. */
  lemma {:induction false} LabelNotTiedToScore()
    ensures ValidSentiment(SentimentDoc("s", "abcdefghijk", 0.0, "positive", -1.0, "x"))
    ensures Classify(-1.0) == Negative
  {
  }

  /** `getSentimentCategory`. */
  function SentimentCategory(d: SentimentDoc): (l: Label)
    ensures l == Positive <==> d.sentiment_score > 0.1
    ensures l == Negative <==> d.sentiment_score < -0.1
  {
    Classify(d.sentiment_score)
  }

  /** JavaScript `Math.trunc`. */
  function Trunc(x: real): int
  {
    if x >= 0.0 then x.Floor else -((-x).Floor)
  }

  /** JavaScript `x % m`: the remainder takes the sign of `x`. */
  function JsRem(x: real, m: real): real
    requires m != 0.0
  {
    x - m * (Trunc(x / m) as real)
  }

  /** `getFormattedTimestamp`: `Math.floor(t / 60)`, a colon, then
      `Math.floor(t % 60)` left-padded with `0` to two characters. */
  function FormattedTimestamp(t: real): string
  {
    IntToString((t / 60.0).Floor) + ":" + PadStart2(IntToString(JsRem(t, 60.0).Floor))
  }

  lemma {:induction false} FloorDivSixty(t: real)
    requires t >= 0.0
    ensures (t / 60.0).Floor == t.Floor / 60
    ensures (t - 60.0 * ((t / 60.0).Floor as real)).Floor == t.Floor % 60
  {
    var n := t.Floor;
    var q, r := n / 60, n % 60;
    assert n == 60 * q + r;
    assert (n as real) <= t < (n as real) + 1.0;
    assert 60.0 * (q as real) <= t;
    assert t < 60.0 * (q as real) + 60.0;
    assert (q as real) <= t / 60.0 < (q as real) + 1.0;
    var f := t - 60.0 * (q as real);
    assert (r as real) <= f < (r as real) + 1.0;
  }

  /** For a valid (non-negative) timestamp the label is the whole seconds
      rendered as minutes, a colon and two-digit seconds. */
  lemma {:induction false} FormattedTimestampIsClock(t: real)
    requires t >= 0.0
    ensures FormattedTimestamp(t) == FormatClock(t.Floor)
    ensures ClockValue(FormattedTimestamp(t)) == Some(t.Floor)
  {
    FloorDivSixty(t);
    assert Trunc(t / 60.0) == (t / 60.0).Floor;
    ClockRoundTrip(t.Floor);
  }

  // ---------------------------------------------------------------------------
  // User

  datatype Role = Admin | Customer

  function RoleName(r: Role): string {
    match r
    case Admin => "admin"
    case Customer => "customer"
  }

  /** The role enum: only `admin` and `customer` name a role. */
  function ParseRole(s: string): (r: Option<Role>)
    ensures r.Some? ==> RoleName(r.value) == s
    ensures r.None? <==> s != "admin" && s != "customer"
  {
    if s == "admin" then Some(Admin) else if s == "customer" then Some(Customer) else None
  }

  /** The key bcrypt (bcryptjs, salt version `2b`) derives from a password:
      its UTF-8 bytes and a terminating zero byte, repeated cyclically to
      fill 72 bytes. Bytes past the 72nd play no part. */
  function BcryptKey(p: string): (k: seq<int>)
    ensures |k| == 72
  {
    var bytes := Utf8(p) + [0];
    seq(72, i requires 0 <= i < 72 => bytes[i % |bytes|])
  }

  /** A stored password: plain text until the pre-save hook hashes it. The
      hash is abstract beyond its key: `Hashed(k)` is the hash of every
      password whose key is `k`. */
  datatype Password = Plain(text: string) | Hashed(key: seq<int>)

  /** `bcrypt.hash(p, salt)`. */
  function Hash(p: string): Password
  {
    Hashed(BcryptKey(p))
  }

  /** `comparePassword`, that is `bcrypt.compare`: the candidate derives
      the key the stored hash was made from. */
  predicate ComparePassword(stored: Password, candidate: string) {
    stored == Hash(candidate)
  }

  /** Once a password's encoding fills the 72 key bytes, anything appended
      to it is accepted in its place. */
  lemma {:induction false} LongPasswordIgnoresTail(p: string, tail: string)
    requires |Utf8(p)| >= 72
    ensures ComparePassword(Hash(p), p + tail)
  {
    var u := Utf8(p);
    Utf8Append(p, tail);
    var a := u + [0];
    var b := Utf8(p + tail) + [0];
    var ka, kb := BcryptKey(p), BcryptKey(p + tail);
    forall i | 0 <= i < 72
      ensures ka[i] == kb[i]
    {
      SmallMod(i, |a|);
      SmallMod(i, |b|);
      assert ka[i] == a[i] == u[i];
      assert kb[i] == b[i] == u[i];
    }
    assert ka == kb;
  }

  lemma {:induction false} SmallMod(i: nat, n: nat)
    requires i < n
    ensures i % n == i
  {
  }

  datatype Pref = PBool(b: bool) | PStr(s: string)

  /** Preferences as a field map, so a request's partial object can be merged shallowly. */
  type Preferences = map<string, Pref>

  const DefaultPreferences: Preferences :=
    map["notifications" := PBool(true), "theme" := PStr("light"), "language" := PStr("en")]

  /** `{ ...old, ...update }`: keys of `update` win, everything else is kept. */
  function MergePreferences(current: Preferences, update: Preferences): (r: Preferences)
    ensures r.Keys == current.Keys + update.Keys
    ensures forall k | k in update :: r[k] == update[k]
    ensures forall k | k in current && k !in update :: r[k] == current[k]
  {
    current + update
  }

  datatype UserDoc = UserDoc(
    id: string,
    email: string,
    password: Password,
    name: string,
    role: Role,
    isActive: bool,
    preferences: Preferences)

  /** `^[^\s@]+@[^\s@]+\.[^\s@]+$`: no whitespace, exactly one `@` with
      something before it, and after it a `.` that is neither first nor last. */
  predicate EmailShape(e: string) {
    exists at, dot | 0 < at < dot < |e| - 1 :: EmailSplit(e, at, dot)
  }

  predicate EmailSplit(e: string, at: nat, dot: nat) {
    0 < at && at + 1 < dot && dot + 1 < |e| &&
    e[at] == '@' && e[dot] == '.' &&
    forall i | 0 <= i < |e| :: !IsSpace(e[i]) && (i != at ==> e[i] != '@')
  }

  /** A decision procedure for `EmailShape`, scanning for the single `@` and a later `.`. */
  function CheckEmail(e: string): (ok: bool)
    ensures ok <==> EmailShape(e)
  {
    if exists i | 0 <= i < |e| :: IsSpace(e[i]) then
      assert !EmailShape(e);
      false
    else if exists i, j | 0 <= i < j < |e| :: e[i] == '@' && e[j] == '@' then
      assert !EmailShape(e);
      false
    else if exists at, dot | 0 < at && at + 1 < dot && dot + 1 < |e| :: e[at] == '@' && e[dot] == '.' then
      var at, dot :| 0 < at && at + 1 < dot && dot + 1 < |e| && e[at] == '@' && e[dot] == '.';
      assert EmailSplit(e, at, dot);
      true
    else
      false
  }

  /** The `lowercase` then `trim` setters of `email`. */
  function NormalizeEmail(e: string): string
  {
    Trim(Lower(e))
  }

  predicate ValidPreferences(p: Preferences) {
    ("theme" in p ==> p["theme"] in {PStr("light"), PStr("dark")}) &&
    ("notifications" in p ==> p["notifications"].PBool?) &&
    ("language" in p ==> p["language"].PStr?)
  }

  /** The User schema's validators; a plain password must have at least 6
      characters (validation runs before the hashing hook). */
  predicate ValidUser(u: UserDoc) {
    Required(u.email) && EmailShape(u.email) &&
    (u.password.Plain? ==> Utf16Length(u.password.text) >= 6) &&
    Required(u.name) && Utf16Length(u.name) <= 100 &&
    ValidPreferences(u.preferences)
  }

  /** Saving a User: the setters on email and name, validation, then the
      pre-save hook, which hashes the password only when it was modified
      (when it is still plain text). */
  function SaveUser(u: UserDoc): (r: Option<UserDoc>)
    ensures r.Some? ==> r.value.password.Hashed?
    ensures r.Some? && u.password.Hashed? ==> r.value.password == u.password
    ensures r.Some? && u.password.Plain? ==> ComparePassword(r.value.password, u.password.text)
    ensures r.Some? ==> r.value.email == NormalizeEmail(u.email) && r.value.name == Trim(u.name)
    ensures r.Some? ==> r.value.id == u.id && r.value.role == u.role && r.value.isActive == u.isActive
    ensures r.Some? ==> r.value.preferences == u.preferences
    ensures r.Some? <==> ValidUser(u.(email := NormalizeEmail(u.email), name := Trim(u.name)))
    ensures r.Some? ==> ValidUser(r.value)
  {
    var n := u.(email := NormalizeEmail(u.email), name := Trim(u.name));
    if !ValidUser(n) then None
    else match n.password
      case Plain(p) => Some(n.(password := Hash(p)))
      case Hashed(_) => Some(n)
  }

  lemma {:induction false} LowerOfLowercase(s: string)
    requires forall i | 0 <= i < |s| :: !IsUpper(s[i])
    ensures Lower(s) == s
  {
  }

  /** Trimming only removes characters, so it adds no upper-case letter. */
  lemma {:induction false} TrimKeepsLowercase(x: string)
    requires forall i | 0 <= i < |x| :: !IsUpper(x[i])
    ensures forall i | 0 <= i < |Trim(x)| :: !IsUpper(Trim(x)[i])
  {
    var a := TrimStart(x);
    var t := TrimEnd(a);
    forall i | 0 <= i < |t|
      ensures !IsUpper(t[i])
    {
      var k := |x| - |a|;
      assert a == x[k..];
      assert a[i] == x[k + i];
    }
  }

  /** A normalised email is its own normal form. */
  lemma {:induction false} NormalizeEmailIdempotent(e: string)
    ensures NormalizeEmail(NormalizeEmail(e)) == NormalizeEmail(e)
  {
    var x := Lower(e);
    TrimKeepsLowercase(x);
    LowerOfLowercase(Trim(x));
    TrimIdempotent(x);
  }

  /** Saving a saved user changes nothing: the hash is not hashed again. */
  lemma {:induction false} SaveUserIdempotent(u: UserDoc)
    requires SaveUser(u).Some?
    ensures SaveUser(SaveUser(u).value) == SaveUser(u)
  {
    NormalizeEmailIdempotent(u.email);
    TrimIdempotent(u.name);
  }

  /** `findByEmail`: the first user whose stored email equals the argument
      in normal form. The method lowercases the argument, and the query
      casts the filter value through the `email` path's own `lowercase` and
      `trim` setters, so the value looked up is `NormalizeEmail(email)`
      (lowercasing twice is lowercasing once). */
  function FindByEmail(users: seq<UserDoc>, email: string): (r: Option<nat>)
    ensures r.Some? ==> r.value < |users| && users[r.value].email == NormalizeEmail(email)
    ensures r.Some? ==> forall i | 0 <= i < r.value :: users[i].email != NormalizeEmail(email)
    ensures r.None? <==> forall i | 0 <= i < |users| :: users[i].email != NormalizeEmail(email)
  {
    FindFrom(users, NormalizeEmail(email), 0)
  }

  function FindFrom(users: seq<UserDoc>, email: string, i: nat): (r: Option<nat>)
    requires i <= |users|
    ensures r.Some? ==> i <= r.value < |users| && users[r.value].email == email
    ensures r.Some? ==> forall j | i <= j < r.value :: users[j].email != email
    ensures r.None? <==> forall j | i <= j < |users| :: users[j].email != email
    decreases |users| - i
  {
    if i == |users| then None
    else if users[i].email == email then Some(i)
    else FindFrom(users, email, i + 1)
  }

  /** A normalised email has no upper-case letter. */
  lemma {:induction false} NormalizedIsLower(e: string)
    ensures forall i | 0 <= i < |NormalizeEmail(e)| :: !IsUpper(NormalizeEmail(e)[i])
  {
    TrimKeepsLowercase(Lower(e));
  }

  /** A user appended with an email no earlier user holds is the one found
      by any spelling of that email that normalises to it. */
  lemma {:induction false} FindByEmailAppended(users: seq<UserDoc>, u: UserDoc, e: string)
    requires NormalizeEmail(e) == u.email
    requires !exists i | 0 <= i < |users| :: users[i].email == u.email
    ensures FindByEmail(users + [u], e) == Some(|users|)
  {
    assert (users + [u])[|users|] == u;
    assert forall k | 0 <= k < |users| :: (users + [u])[k] == users[k];
  }

  /** `findById`: the user with the given id, if any. */
  function FindById(users: seq<UserDoc>, id: string): (r: Option<nat>)
    ensures r.Some? ==> r.value < |users| && users[r.value].id == id
    ensures r.None? <==> forall i | 0 <= i < |users| :: users[i].id != id
  {
    if |users| == 0 then None
    else if users[|users| - 1].id == id then Some(|users| - 1)
    else FindById(users[..|users| - 1], id)
  }

  /** Replacing a user by one with the same id does not change what `findById` finds. */
  lemma {:induction false} FindByIdAfterUpdate(users: seq<UserDoc>, i: nat, u: UserDoc, id: string)
    requires i < |users| && u.id == users[i].id
    ensures FindById(users[i := u], id) == FindById(users, id)
  {
    var users' := users[i := u];
    if |users| - 1 != i {
      assert users'[..|users'| - 1] == users[..|users| - 1][i := u];
      FindByIdAfterUpdate(users[..|users| - 1], i, u, id);
    } else {
      assert users'[..|users'| - 1] == users[..|users| - 1];
    }
  }

  /** `findAdmins` / `findCustomers`: active users of the given role, in store order. */
  function FindByRole(users: seq<UserDoc>, role: Role): (r: seq<UserDoc>)
    ensures forall i | 0 <= i < |r| :: r[i].role == role && r[i].isActive && r[i] in users
    ensures forall i | 0 <= i < |users| && users[i].role == role && users[i].isActive :: users[i] in r
  {
    Filter(users, (u: UserDoc) => u.role == role && u.isActive)
  }
}
