/** The summary card: which summary the active tab shows and copies, its
    word count, the exported text and the download's file name. */
module SummaryDisplay {
  import opened Text

  datatype Tab = Short | Detailed

  function TabName(t: Tab): string {
    match t
    case Short => "short"
    case Detailed => "detailed"
  }

  datatype Card = Card(title: string, summaryShort: string, summaryDetailed: string)

  /** The text the active tab shows. */
  function ActiveText(card: Card, tab: Tab): (s: string)
    ensures tab == Short ==> s == card.summaryShort
    ensures tab == Detailed ==> s == card.summaryDetailed
  {
    if tab == Short then card.summaryShort else card.summaryDetailed
  }

  /** The copy button: the active tab's text, tagged with the tab's name,
      which is the tag the copied mark is shown for. */
  function CopyActive(card: Card, tab: Tab): (r: (string, string))
    ensures r.0 == ActiveText(card, tab)
    ensures r.1 == TabName(tab) && (r.1 == "short" <==> tab == Short)
  {
    (ActiveText(card, tab), TabName(tab))
  }

  /** `text.split(' ').length`: the number of space-separated fields. */
  function WordCount(text: string): (n: nat)
    ensures n >= 1
  {
    |SplitSpaces(text)|
  }

  /** The count is one more than the number of spaces, so an empty text
      counts one word and each extra space one more. */
  lemma {:induction false} WordCountIsSpacesPlusOne(text: string)
    ensures WordCount(text) == SpaceCount(text) + 1
    ensures ' ' !in text ==> WordCount(text) == 1
  {
    SplitSpacesLength(text);
    if ' ' !in text {
      NoSpaceCount(text);
    }
  }

  lemma {:induction false} NoSpaceCount(s: string)
    requires ' ' !in s
    ensures SpaceCount(s) == 0
  {
    if |s| > 0 {
      assert forall k | 0 <= k < |s| - 1 :: s[1..][k] == s[k + 1];
      NoSpaceCount(s[1..]);
    }
  }

  const Separator := "\n\n"

  /** "Copy All" and the download's content: title, blank line, short
      summary, blank line, detailed summary. */
  function ExportText(card: Card): (s: string)
    ensures |s| == |card.title| + |card.summaryShort| + |card.summaryDetailed| + 2 * |Separator|
  {
    card.title + Separator + card.summaryShort + Separator + card.summaryDetailed
  }

  /** Knowing the lengths of the title and the short summary, the three
      parts can be read back out of the exported text. */
  lemma {:induction false} ExportTextParts(card: Card)
    ensures var s := ExportText(card); var a := |card.title|; var b := a + 2 + |card.summaryShort|;
      s[..a] == card.title && s[a..a + 2] == Separator &&
      s[a + 2..b] == card.summaryShort && s[b..b + 2] == Separator &&
      s[b + 2..] == card.summaryDetailed
  {
    var s := ExportText(card);
    var a := |card.title|;
    var b := a + 2 + |card.summaryShort|;
    assert s == card.title + (Separator + (card.summaryShort + (Separator + card.summaryDetailed)));
  }

  /** `/[^a-z0-9]/gi` replaced by `_`, then lower-cased: ASCII letters and
      digits survive in lower case, every other character becomes `_`. */
  function SafeChar(c: char): (r: char)
    ensures r == '_' || IsLower(r) || IsDigit(r)
    ensures IsAlnum(c) ==> LowerChar(r) == r && LowerChar(c) == r
  {
    if IsAlnum(c) then LowerChar(c) else '_'
  }

  /** What one character becomes. The pattern has no `u` flag, so it
      matches UTF-16 code units: a character outside the Basic Multilingual
      Plane is two units and becomes `__`. */
  function SafePiece(c: char): (r: string)
    ensures |r| == Utf16Units(c)
    ensures forall i | 0 <= i < |r| :: r[i] == SafeChar(c)
  {
    if Utf16Units(c) == 2 then [SafeChar(c), SafeChar(c)] else [SafeChar(c)]
  }

  predicate IsSafe(s: string) {
    forall i | 0 <= i < |s| :: s[i] == '_' || IsLower(s[i]) || IsDigit(s[i])
  }

  predicate InBmp(s: string) {
    forall i | 0 <= i < |s| :: s[i] as int < 0x1_0000
  }

  function SafeName(title: string): (r: string)
    ensures |r| == Utf16Length(title)
    ensures IsSafe(r)
    ensures InBmp(title) ==> |r| == |title| && forall i | 0 <= i < |title| :: r[i] == SafeChar(title[i])
  {
    if |title| == 0 then ""
    else
      var p := SafePiece(title[0]);
      var rest := SafeName(title[1..]);
      assert InBmp(title) ==> InBmp(title[1..]) && |p| == 1;
      assert forall i | 0 <= i < |p + rest| :: (p + rest)[i] == if i < |p| then p[i] else rest[i - |p|];
      p + rest
  }

  /** An emoji title becomes two underscores. */
  lemma {:induction false} AstralBecomesTwoUnderscores()
    ensures SafeName("\U{1F389}") == "__"
  {
    assert "\U{1F389}"[1..] == "";
  }

  const FileSuffix := "_summary.txt"

  /** The download's file name. */
  function DownloadName(title: string): (name: string)
    ensures |name| == Utf16Length(title) + |FileSuffix|
    ensures name[Utf16Length(title)..] == FileSuffix
    ensures IsSafe(name[..Utf16Length(title)])
  {
    var stem := SafeName(title);
    assert (stem + FileSuffix)[..|stem|] == stem;
    stem + FileSuffix
  }

  /** A title of lower-case letters and digits only is its own file name
      stem, any such character of a title without astral characters keeps
      its place, and a stem is unchanged by sanitising it again. */
  lemma {:induction false} DownloadNameStem(title: string)
    ensures InBmp(title) ==> forall i | 0 <= i < |title| :: (IsLower(title[i]) || IsDigit(title[i])) ==>
      DownloadName(title)[i] == title[i]
    ensures SafeName(SafeName(title)) == SafeName(title)
    ensures (forall i | 0 <= i < |title| :: IsLower(title[i]) || IsDigit(title[i])) ==>
      DownloadName(title) == title + FileSuffix
  {
    SafeNameIdempotent(title);
    if forall i | 0 <= i < |title| :: IsLower(title[i]) || IsDigit(title[i]) {
      SafeNameOfStem(title);
    }
    if InBmp(title) {
      var name := DownloadName(title);
      assert forall i | 0 <= i < |title| :: name[i] == SafeName(title)[i];
    }
  }

  lemma {:induction false} SafeNameIdempotent(title: string)
    ensures SafeName(SafeName(title)) == SafeName(title)
  {
    var once := SafeName(title);
    assert InBmp(once) by {
      forall i | 0 <= i < |once| ensures once[i] as int < 0x1_0000 {
        assert once[i] == '_' || IsLower(once[i]) || IsDigit(once[i]);
      }
    }
    var twice := SafeName(once);
    assert |twice| == |once|;
    forall i | 0 <= i < |once| ensures twice[i] == once[i] {
      assert twice[i] == SafeChar(once[i]);
    }
  }

  lemma {:induction false} SafeNameOfStem(title: string)
    requires forall i | 0 <= i < |title| :: IsLower(title[i]) || IsDigit(title[i])
    ensures SafeName(title) == title
  {
    assert InBmp(title) by {
      forall i | 0 <= i < |title| ensures title[i] as int < 0x1_0000 {
        assert IsLower(title[i]) || IsDigit(title[i]);
      }
    }
    var r := SafeName(title);
    forall i | 0 <= i < |title| ensures r[i] == title[i] {
      assert r[i] == SafeChar(title[i]);
    }
  }
}
