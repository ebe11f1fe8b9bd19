/** The history page: the duration label, the client-side search over the
    loaded page, the previous/next page buttons and the topic chips of a
    card. */
module HistoryPage {
  import opened Core
  import opened Text

  /** `formatDuration(seconds)`: whole minutes, and whole hours when there
      is at least one. `Math.floor` is exact here; with `hours > 0` the
      minutes are positive, so JavaScript's `%` agrees with Dafny's. */
  function FormatDuration(seconds: real): (s: string)
    ensures |s| > 0 && s[|s| - 1] == 'm'
    ensures 'h' in s <==> (seconds / 60.0).Floor >= 60
  {
    var minutes := (seconds / 60.0).Floor;
    var hours := minutes / 60;
    NotInNumber(hours, 'h');
    NotInNumber(minutes, 'h');
    NotInNumber(minutes % 60, 'h');
    if hours > 0 then
      var s := IntToString(hours) + "h " + IntToString(minutes % 60) + "m";
      assert s[|IntToString(hours)|] == 'h';
      s
    else IntToString(minutes) + "m"
  }

  /** A rendered integer holds only digits and a minus sign. */
  lemma {:induction false} NotInNumber(i: int, c: char)
    requires !IsDigit(c) && c != '-'
    ensures c !in IntToString(i)
  {
    var digits := NatToString(if i < 0 then -i else i);
    assert forall k | 0 <= k < |digits| :: IsDigit(digits[k]);
  }

  /** The label's leading number reads back as the hours when there are
      any, otherwise as the whole minutes; the hours and the minutes shown
      make up the whole minutes. */
  lemma {:induction false} DurationReadsBack(seconds: real)
    ensures var m := (seconds / 60.0).Floor;
      (m >= 60 ==> JsParseInt(FormatDuration(seconds)) == Some(m / 60) && 60 * (m / 60) + m % 60 == m && 0 <= m % 60 < 60) &&
      (m < 60 ==> JsParseInt(FormatDuration(seconds)) == Some(m))
  {
    var m := (seconds / 60.0).Floor;
    var shown := FormatDuration(seconds);
    if m >= 60 {
      var rest := "h " + IntToString(m % 60) + "m";
      assert shown == IntToString(m / 60) + rest;
      JsParseIntOfIntToString(m / 60, rest);
    } else {
      assert shown == IntToString(m) + "m";
      JsParseIntOfIntToString(m, "m");
    }
  }

  datatype Video = Video(video_id: string, title: string, topics: Option<seq<string>>)

  /** The title or one of the topics contains the query, ignoring case. */
  predicate Matches(v: Video, query: string) {
    ContainsIgnoreCase(v.title, query) ||
    (v.topics.Some? && exists i | 0 <= i < |v.topics.value| :: ContainsIgnoreCase(v.topics.value[i], query))
  }

  /** `filteredVideos`: the loaded videos that match, in their order. */
  function FilteredVideos(videos: seq<Video>, query: string): (r: seq<Video>)
    ensures forall v :: v in r <==> v in videos && Matches(v, query)
  {
    Filter(videos, v => Matches(v, query))
  }

  /** The empty query keeps every loaded video. */
  lemma {:induction false} EmptyQueryKeepsAll(videos: seq<Video>)
    ensures FilteredVideos(videos, "") == videos
  {
    forall i | 0 <= i < |videos| ensures Matches(videos[i], "") {
      ContainsEmpty(Lower(videos[i].title));
    }
  }

  /** "Previous": never below page 1. */
  function PrevPage(page: int): (p: int)
    ensures p >= 1 && p <= Max(1, page)
    ensures page > 1 ==> p == page - 1
  {
    Max(1, page - 1)
  }

  /** "Next": never past the last page. */
  function NextPage(page: int, totalPages: int): (p: int)
    ensures p <= totalPages && p <= page + 1
    ensures page < totalPages ==> p == page + 1
  {
    Min(totalPages, page + 1)
  }

  /** From a page in range both buttons stay in range, and each undoes the other. */
  lemma {:induction false} PageButtonsInverse(page: int, totalPages: int)
    requires 1 <= page <= totalPages
    ensures 1 <= PrevPage(page) <= totalPages && 1 <= NextPage(page, totalPages) <= totalPages
    ensures page < totalPages ==> PrevPage(NextPage(page, totalPages)) == page
    ensures page > 1 ==> NextPage(PrevPage(page), totalPages) == page
  {
  }

  const ShownTopics := 3

  /** A card's topic chips: the first three, and `+k more` for the rest. */
  function TopicChips(topics: seq<string>): (r: (seq<string>, Option<nat>))
    ensures |r.0| == Min(|topics|, ShownTopics) && r.0 <= topics
    ensures r.1.Some? <==> |topics| > ShownTopics
    ensures r.1.Some? ==> |r.0| + r.1.value == |topics|
  {
    (Take(topics, ShownTopics), if |topics| > ShownTopics then Some(|topics| - ShownTopics) else None)
  }

  /** Every topic is either shown or counted in `+k more`. */
  lemma {:induction false} ChipsCoverTopics(topics: seq<string>)
    ensures var r := TopicChips(topics); |r.0| + r.1.GetOr(0) == |topics|
    ensures var r := TopicChips(topics); r.0 + topics[|r.0|..] == topics
  {
  }
}
