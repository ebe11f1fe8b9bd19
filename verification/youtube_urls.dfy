/** The YouTube URL patterns of the application, written as hand-made
    matchers over strings instead of regular expressions.

    Three families appear in the code:
    - the anchored request schema of the analyze route and the client form,
      `^https?://(www.)?(youtube.com/watch?v=|youtu.be/)` followed by `[\w-]+`;
    - the unanchored capture patterns of the analyze route and the client form
      (`youtube.com/watch?v=` or `youtu.be/`, then the looser `watch?...v=`);
    - the four capture patterns of the backend URL utilities (`watch?v=`,
      `youtu.be/`, `embed/`, `/v/`), each with an optional scheme and `www.`.

    A capture is `[^&\n?#]+`, taken greedily. */
module VideoUrls {
  import opened Core
  import opened Text

  /** The capture class `[^&\n?#]`. */
  predicate IsCaptureChar(c: char) {
    c != '&' && c != '\n' && c != '?' && c != '#'
  }

  /** A possible captured id: non-empty and free of `&`, `\n`, `?`, `#`. */
  predicate IsCapture(id: string) {
    |id| > 0 && forall i | 0 <= i < |id| :: IsCaptureChar(id[i])
  }

  lemma {:induction false} IdCharIsCaptureChar(c: char)
    requires IsIdChar(c)
    ensures IsCaptureChar(c)
  {
  }

  /** Length of the greedy run of capture characters starting at `k`. */
  function RunLength(s: string, k: nat): (n: nat)
    requires k <= |s|
    ensures k + n <= |s|
    ensures forall i | k <= i < k + n :: IsCaptureChar(s[i])
    ensures k + n < |s| ==> !IsCaptureChar(s[k + n])
    decreases |s| - k
  {
    if k == |s| || !IsCaptureChar(s[k]) then 0 else 1 + RunLength(s, k + 1)
  }

  /** `marker` occurs at `i` and is followed by at least one capture character. */
  predicate MarkerMatch(s: string, marker: string, i: nat) {
    OccursAt(s, marker, i) && i + |marker| < |s| && IsCaptureChar(s[i + |marker|])
  }

  /** The greedy capture that follows `marker` at `i`. */
  function CaptureAfter(s: string, marker: string, i: nat): (id: string)
    requires MarkerMatch(s, marker, i)
    ensures IsCapture(id)
  {
    var k := i + |marker|;
    s[k..k + RunLength(s, k)]
  }

  /** First marker of `ms` (in order) that matches at `i`. */
  function MarkerAt(s: string, ms: seq<string>, i: nat): (r: Option<string>)
    ensures r.Some? ==> r.value in ms && MarkerMatch(s, r.value, i)
    ensures r.None? <==> forall m | m in ms :: !MarkerMatch(s, m, i)
  {
    if |ms| == 0 then None
    else if MarkerMatch(s, ms[0], i) then Some(ms[0])
    else
      var r := MarkerAt(s, ms[1..], i);
      assert forall m | m in ms :: m == ms[0] || m in ms[1..];
      r
  }

  /** Unanchored search of `(?:m1|m2|...)([^&\n?#]+)`: the leftmost position
      at or after `i` where some alternative matches, alternatives tried in
      order at each position; yields the greedy capture there. */
  function SearchMarkers(s: string, ms: seq<string>, i: nat): (r: Option<string>)
    ensures r.Some? ==> IsCapture(r.value)
    decreases |s| - i
  {
    if i >= |s| then None
    else match MarkerAt(s, ms, i)
      case Some(m) => Some(CaptureAfter(s, m, i))
      case None => SearchMarkers(s, ms, i + 1)
  }

  /** If an alternative matches at `p`, the search from any `i <= p` finds a capture. */
  lemma {:induction false} SearchFindsMatch(s: string, ms: seq<string>, m: string, i: nat, p: nat)
    requires m in ms && MarkerMatch(s, m, p) && i <= p
    ensures SearchMarkers(s, ms, i).Some?
    decreases p - i
  {
    if MarkerAt(s, ms, i).None? {
      assert i != p;
      SearchFindsMatch(s, ms, m, i + 1, p);
    }
  }

  /** Without any occurrence of the alternatives there is nothing to capture. */
  lemma {:induction false} SearchFailsWithoutMatch(s: string, ms: seq<string>, i: nat)
    requires forall p, m | i <= p && m in ms :: !MarkerMatch(s, m, p)
    ensures SearchMarkers(s, ms, i).None?
    decreases |s| - i
  {
    if i < |s| {
      SearchFailsWithoutMatch(s, ms, i + 1);
    }
  }

  const WatchMarker := "youtube.com/watch?v="
  const ShortMarker := "youtu.be/"
  const EmbedMarker := "youtube.com/embed/"
  const LegacyMarker := "youtube.com/v/"
  const WatchAnyMarker := "youtube.com/watch?"

  // ---------------------------------------------------------------------------
  // Anchored schema `^https?://(www\.)?(youtube\.com/watch\?v=|youtu\.be/)`.

  /** The text after `https://` or `http://`, if the string starts with one. */
  function AfterScheme(s: string): Option<string>
  {
    if "https://" <= s then Some(s[8..])
    else if "http://" <= s then Some(s[7..])
    else None
  }

  /** The optional `www.`: taking it whenever present loses no match, since
      neither host alternative starts with `w`. */
  function AfterWww(s: string): string
  {
    if "www." <= s then s[4..] else s
  }

  /** The text after `youtube.com/watch?v=` or `youtu.be/` at the start. */
  function AfterWatchOrShort(s: string): Option<string>
  {
    if WatchMarker <= s then Some(s[|WatchMarker|..])
    else if ShortMarker <= s then Some(s[|ShortMarker|..])
    else None
  }

  /** The id part of an anchored watch or short URL: everything after the prefix. */
  function AnchoredRest(s: string): Option<string>
  {
    match AfterScheme(s)
    case None => None
    case Some(a) => AfterWatchOrShort(AfterWww(a))
  }

  /** Position in `s` where the host alternative starts, for an anchored prefix. */
  function HostStart(s: string): nat
    requires AfterScheme(s).Some?
  {
    var a := AfterScheme(s).value;
    (|s| - |a|) + (|a| - |AfterWww(a)|)
  }

  /** The text after the scheme and the optional `www.` is the suffix of
      the string that starts at the host. */
  lemma {:induction false} HostSuffix(s: string)
    requires AfterScheme(s).Some?
    ensures HostStart(s) <= |s| && s[HostStart(s)..] == AfterWww(AfterScheme(s).value)
  {
    var a := AfterScheme(s).value;
    assert s[|s| - |a|..] == a;
    if "www." <= a {
      assert a[4..] == s[|s| - |a| + 4..];
    }
  }

  /** `^https?://(www\.)?(youtube\.com/watch\?v=|youtu\.be/)`: the URL validator of the Video model. */
  predicate HasWatchOrShortPrefix(s: string) {
    AnchoredRest(s).Some?
  }

  /** The analyze request schema: the anchored prefix followed by at least one `[\w-]`. */
  predicate MatchesAnalyzeSchema(s: string) {
    match AnchoredRest(s)
    case None => false
    case Some(rest) => |rest| > 0 && IsIdChar(rest[0])
  }

  // ---------------------------------------------------------------------------
  // The capture patterns of the analyze route and the client form.

  /** Second pattern `youtube\.com\/watch\?.*v=([^&\n?#]+)` at a fixed start:
      `.*` first runs to the next line terminator, then backs off one
      character at a time until `v=` plus a capture character follows. Returns
      the position of that `v=`. */
  function BackOffToV(s: string, lo: nat, k: int): (r: Option<nat>)
    requires lo <= |s| && k <= |s|
    ensures r.Some? ==> lo <= r.value <= k && MarkerMatch(s, "v=", r.value)
    ensures r.Some? ==> forall j | r.value < j <= k :: !MarkerMatch(s, "v=", j)
    ensures r.None? ==> forall j | lo <= j <= k :: !MarkerMatch(s, "v=", j)
    decreases k - lo + 1
  {
    if k < lo then None
    else if MarkerMatch(s, "v=", k) then Some(k)
    else BackOffToV(s, lo, k - 1)
  }

  /** Index of the first line terminator at or after `k` (or `|s|`): how far `.*` can run. */
  function LineEnd(s: string, k: nat): (e: nat)
    requires k <= |s|
    ensures k <= e <= |s|
    ensures forall j | k <= j < e :: !IsLineTerminator(s[j])
    ensures e < |s| ==> IsLineTerminator(s[e])
    decreases |s| - k
  {
    if k == |s| || IsLineTerminator(s[k]) then k else LineEnd(s, k + 1)
  }

  /** `youtube.com/watch?` at `i` followed, within the same line, by `v=` and a capture character. */
  function WatchAnyAt(s: string, i: nat): (r: Option<string>)
    ensures r.Some? ==> IsCapture(r.value)
  {
    if !OccursAt(s, WatchAnyMarker, i) then None
    else
      var lo := i + |WatchAnyMarker|;
      match BackOffToV(s, lo, LineEnd(s, lo))
      case None => None
      case Some(k) => Some(CaptureAfter(s, "v=", k))
  }

  function SearchWatchAny(s: string, i: nat): (r: Option<string>)
    ensures r.Some? ==> IsCapture(r.value)
    decreases |s| - i
  {
    if i >= |s| then None
    else match WatchAnyAt(s, i)
      case Some(id) => Some(id)
      case None => SearchWatchAny(s, i + 1)
  }

  /** `extractVideoId` of the analyze route, shared verbatim by the client
      form: the watch-or-short capture, else the looser `watch?...v=` capture. */
  function ExtractVideoIdLoose(url: string): (r: Option<string>)
    ensures r.Some? ==> IsCapture(r.value)
  {
    match SearchMarkers(url, [WatchMarker, ShortMarker], 0)
    case Some(id) => Some(id)
    case None => SearchWatchAny(url, 0)
  }

  /** Every URL the analyze schema accepts yields an id, so the route's
      "could not extract" answer cannot be reached after validation. */
  lemma {:induction false} AnalyzeSchemaYieldsId(url: string)
    requires MatchesAnalyzeSchema(url)
    ensures ExtractVideoIdLoose(url).Some?
  {
    var p := HostStart(url);
    var a := AfterScheme(url).value;
    var b := AfterWww(a);
    assert url[p..] == b;
    var m := if WatchMarker <= b then WatchMarker else ShortMarker;
    assert m <= b;
    assert url[p..p + |m|] == b[..|m|] == m;
    assert url[p + |m|] == b[|m|];
    IdCharIsCaptureChar(b[|m|]);
    assert MarkerMatch(url, m, p);
    SearchFindsMatch(url, [WatchMarker, ShortMarker], m, 0, p);
  }

  /** The client form's second accepted shape,
      `^https?://(www\.)?youtube\.com/watch\?.*v=[\w-]+`: after the prefix,
      some `v=` followed by `[\w-]` on the same line. */
  predicate MatchesLooseWatch(s: string) {
    match AfterScheme(s)
    case None => false
    case Some(a) =>
      var b := AfterWww(a);
      WatchAnyMarker <= b && exists k | |WatchAnyMarker| <= k < |b| :: LooseVAt(b, k)
  }

  /** `v=` then `[\w-]` at `k`, with no line terminator between the end of
      `youtube.com/watch?` and `k`. */
  predicate LooseVAt(b: string, k: nat) {
    |WatchAnyMarker| <= k && k + 2 < |b| && b[k..k + 2] == "v=" && IsIdChar(b[k + 2]) &&
    forall j | |WatchAnyMarker| <= j < k :: !IsLineTerminator(b[j])
  }

  /** `validateYouTubeUrl` of the client form: the analyze schema or the loose watch shape. */
  predicate ClientAcceptsUrl(s: string) {
    MatchesAnalyzeSchema(s) || MatchesLooseWatch(s)
  }

  lemma {:induction false} WatchAnyFindsMatch(s: string, i: nat, p: nat)
    requires i <= p && WatchAnyAt(s, p).Some?
    ensures SearchWatchAny(s, i).Some?
    decreases p - i
  {
    if WatchAnyAt(s, i).None? {
      WatchAnyFindsMatch(s, i + 1, p);
    }
  }

  /** A `v=` plus capture character reachable by `.*` from a `watch?` occurrence is found. */
  lemma {:induction false} WatchAnyAtFinds(s: string, p: nat, k: nat)
    requires OccursAt(s, WatchAnyMarker, p)
    requires p + |WatchAnyMarker| <= k && MarkerMatch(s, "v=", k)
    requires forall j | p + |WatchAnyMarker| <= j < k :: !IsLineTerminator(s[j])
    ensures WatchAnyAt(s, p).Some?
  {
    var lo := p + |WatchAnyMarker|;
    var e := LineEnd(s, lo);
    assert k <= e;
  }

  /** The loose watch shape found at host position `p` of `url`. */
  lemma {:induction false} LooseShapeFinds(url: string, b: string, p: nat, k: nat)
    requires p <= |url| && url[p..] == b
    requires WatchAnyMarker <= b && LooseVAt(b, k)
    ensures SearchWatchAny(url, 0).Some?
  {
    SuffixOccurs(url, b, p, 0, WatchAnyMarker);
    SuffixOccurs(url, b, p, k, "v=");
    assert url[p + k + 2] == b[k + 2];
    IdCharIsCaptureChar(b[k + 2]);
    forall j | p + |WatchAnyMarker| <= j < p + k
      ensures !IsLineTerminator(url[j])
    {
      assert url[j] == b[j - p];
      assert !IsLineTerminator(b[j - p]);
    }
    WatchAnyShapeFinds(url, p, p + k);
  }

  /** An occurrence in the suffix of `url` that starts at `p` is an
      occurrence in `url`. */
  lemma {:induction false} SuffixOccurs(url: string, b: string, p: nat, i: nat, m: string)
    requires p <= |url| && url[p..] == b
    requires OccursAt(b, m, i)
    ensures OccursAt(url, m, p + i)
  {
    assert url[p + i..p + i + |m|] == b[i..i + |m|];
  }

  /** A `watch?` occurrence at `p` with `v=` and a capture character at `k`
      on the same line is found by the search from the start. */
  lemma {:induction false} WatchAnyShapeFinds(s: string, p: nat, k: nat)
    requires OccursAt(s, WatchAnyMarker, p)
    requires p + |WatchAnyMarker| <= k && MarkerMatch(s, "v=", k)
    requires forall j | p + |WatchAnyMarker| <= j < k :: !IsLineTerminator(s[j])
    ensures SearchWatchAny(s, 0).Some?
  {
    WatchAnyAtFinds(s, p, k);
    WatchAnyFindsMatch(s, 0, p);
  }

  /** Every URL the client form accepts yields an id, so its "could not
      extract" message cannot be reached either. */
  lemma {:induction false} ClientAcceptedYieldsId(url: string)
    requires ClientAcceptsUrl(url)
    ensures ExtractVideoIdLoose(url).Some?
  {
    if MatchesAnalyzeSchema(url) {
      AnalyzeSchemaYieldsId(url);
    } else {
      var b := AfterWww(AfterScheme(url).value);
      var k :| |WatchAnyMarker| <= k < |b| && LooseVAt(b, k);
      HostSuffix(url);
      LooseShapeFinds(url, b, HostStart(url), k);
    }
  }

  /** The client form accepts everything the analyze route's schema accepts. */
  lemma {:induction false} ClientAcceptsSchemaUrls(url: string)
    requires MatchesAnalyzeSchema(url)
    ensures ClientAcceptsUrl(url)
  {
  }

  // ---------------------------------------------------------------------------
  // Backend URL utilities.

  /** `extractVideoId` of the URL utilities: four single-marker patterns
      tried in order, each searched leftmost. The optional scheme and `www.`
      groups only move where a match starts, never which marker occurrence it
      captures from (an occurrence cannot sit within a prefix's reach of an
      earlier one), so they are not represented. */
  function ExtractVideoId(url: string): (r: Option<string>)
    ensures r.Some? ==> IsCapture(r.value)
  {
    match SearchMarkers(url, [WatchMarker], 0)
    case Some(id) => Some(id)
    case None =>
      match SearchMarkers(url, [ShortMarker], 0)
      case Some(id) => Some(id)
      case None =>
        match SearchMarkers(url, [EmbedMarker], 0)
        case Some(id) => Some(id)
        case None => SearchMarkers(url, [LegacyMarker], 0)
  }

  /** `isValidYouTubeUrl`: some pattern captures an id. */
  predicate IsValidYouTubeUrl(url: string) {
    ExtractVideoId(url).Some?
  }

  const CanonicalPrefix := "https://www.youtube.com/watch?v="

  /** `normalizeYouTubeUrl`: the canonical watch URL of the extracted id. */
  function NormalizeYouTubeUrl(url: string): (r: Option<string>)
    ensures r.Some? <==> IsValidYouTubeUrl(url)
    ensures r.Some? ==> CanonicalPrefix <= r.value && IsCapture(r.value[|CanonicalPrefix|..])
  {
    match ExtractVideoId(url)
    case None => None
    case Some(id) => Some(CanonicalPrefix + id)
  }

  /** Search across positions that cannot host a marker. */
  lemma {:induction false} SearchSkips(s: string, ms: seq<string>, i: nat, p: nat)
    requires i <= p <= |s|
    requires forall j, m | i <= j < p && m in ms :: !MarkerMatch(s, m, j)
    ensures SearchMarkers(s, ms, i) == SearchMarkers(s, ms, p)
    decreases p - i
  {
    if i < p {
      SearchSkips(s, ms, i + 1, p);
    }
  }

  /** The canonical URL of a captured id gives back exactly that id. */
  lemma {:induction false} ExtractFromCanonical(id: string)
    requires IsCapture(id)
    ensures ExtractVideoId(CanonicalPrefix + id) == Some(id)
  {
    var s := CanonicalPrefix + id;
    var p := 12;
    assert s[p..p + |WatchMarker|] == WatchMarker;
    CanonicalHostHasNoY(id);
    forall j | 0 <= j < p
      ensures !MarkerMatch(s, WatchMarker, j)
    {
      assert s[j..j + |WatchMarker|][0] == s[j];
    }
    SearchSkips(s, [WatchMarker], 0, p);
    var k := p + |WatchMarker|;
    assert s[k..] == id;
    assert MarkerMatch(s, WatchMarker, p) by {
      assert s[k] == id[0];
    }
    assert MarkerAt(s, [WatchMarker], p) == Some(WatchMarker);
    RunToEnd(s, k);
    assert CaptureAfter(s, WatchMarker, p) == s[k..|s|] == id;
    assert SearchMarkers(s, [WatchMarker], p) == Some(id);
  }

  /** No `y` precedes the host of the canonical URL. */
  lemma {:induction false} CanonicalHostHasNoY(id: string)
    ensures forall j | 0 <= j < 12 :: (CanonicalPrefix + id)[j] != 'y'
  {
    var s := CanonicalPrefix + id;
    assert s[..12] == "https://www.";
    forall j | 0 <= j < 12
      ensures s[j] != 'y'
    {
      assert s[j] == s[..12][j];
    }
  }

  lemma {:induction false} RunToEnd(s: string, k: nat)
    requires k <= |s|
    requires forall i | k <= i < |s| :: IsCaptureChar(s[i])
    ensures RunLength(s, k) == |s| - k
    decreases |s| - k
  {
    if k < |s| {
      RunToEnd(s, k + 1);
    }
  }

  /** Normalising a URL twice is the same as normalising it once. */
  lemma {:induction false} NormalizeIdempotent(url: string)
    requires IsValidYouTubeUrl(url)
    ensures NormalizeYouTubeUrl(NormalizeYouTubeUrl(url).value) == NormalizeYouTubeUrl(url)
  {
    var id := ExtractVideoId(url).value;
    ExtractFromCanonical(id);
  }
}
