/** Strings as `seq<char>`: the character classes the application's regular
    expressions use, JavaScript's and Python's whitespace, case folding for
    ASCII letters, `trim()` and `strip()`, Python's whitespace `split()` and
    `' '.join`, decimal rendering of numbers, and string lengths in UTF-16
    code units and UTF-8 bytes. */
module Text {
  import opened Core

  predicate IsDigit(c: char) { '0' <= c <= '9' }
  predicate IsUpper(c: char) { 'A' <= c <= 'Z' }
  predicate IsLower(c: char) { 'a' <= c <= 'z' }
  predicate IsAlnum(c: char) { IsDigit(c) || IsUpper(c) || IsLower(c) }

  /** Regular-expression `\w`: `[A-Za-z0-9_]`. */
  predicate IsWordChar(c: char) { IsAlnum(c) || c == '_' }

  /** `[\w-]`, the same class as `[a-zA-Z0-9_-]`. */
  predicate IsIdChar(c: char) { IsWordChar(c) || c == '-' }

  /** Line terminators, the characters a regular-expression `.` does not match. */
  predicate IsLineTerminator(c: char) {
    c == '\n' || c == '\r' || c == '\U{2028}' || c == '\U{2029}'
  }

  /** JavaScript whitespace, as `\s`, `trim()` and `parseInt` see it: the
      ECMAScript WhiteSpace characters (tab, vertical tab, form feed, space,
      no-break space, the byte-order mark and the other space separators)
      and the line terminators. */
  predicate IsSpace(c: char) {
    c == ' ' || c == '\t' || c == '\U{000B}' || c == '\U{000C}' || c == '\U{00A0}' || c == '\U{FEFF}' ||
    IsSpaceSeparator(c) || IsLineTerminator(c)
  }

  /** The space separators beyond ASCII space and no-break space, which
      both languages count as whitespace. */
  predicate IsSpaceSeparator(c: char) {
    c == '\U{1680}' || ('\U{2000}' <= c <= '\U{200A}') || c == '\U{202F}' || c == '\U{205F}' || c == '\U{3000}'
  }

  /** Python whitespace, as `str.split()`, `str.strip()`, `int()` and a
      `str` pattern's `\s` see it: ASCII whitespace, the information
      separators U+001C to U+001F, next line U+0085, no-break space, the
      space separators and the line and paragraph separators. Unlike
      JavaScript it does not include the byte-order mark U+FEFF. */
  predicate IsPySpace(c: char) {
    c == ' ' || c == '\t' || c == '\n' || c == '\r' || c == '\U{000B}' || c == '\U{000C}' ||
    ('\U{001C}' <= c <= '\U{001F}') || c == '\U{0085}' || c == '\U{00A0}' ||
    IsSpaceSeparator(c) || c == '\U{2028}' || c == '\U{2029}'
  }

  /** Where the two sets part: the byte-order mark is whitespace only to
      JavaScript, next line and the information separators only to Python. */
  lemma {:induction false} SpaceSetsDiffer()
    ensures IsSpace('\U{FEFF}') && !IsPySpace('\U{FEFF}')
    ensures IsPySpace('\U{0085}') && !IsSpace('\U{0085}')
    ensures IsPySpace('\U{001C}') && !IsSpace('\U{001C}')
    ensures IsSpace('\U{3000}') && IsPySpace('\U{3000}')
  {
  }

  function LowerChar(c: char): (r: char)
    ensures IsUpper(c) ==> IsLower(r)
    ensures !IsUpper(c) ==> r == c
    ensures IsSpace(r) <==> IsSpace(c)
    ensures IsPySpace(r) <==> IsPySpace(c)
  {
    if IsUpper(c) then (c as int + 32) as char else c
  }

  /** `toLowerCase()` / `lower()` restricted to ASCII letters: both runtimes
      also fold non-ASCII capitals, which this function leaves alone. */
  function Lower(s: string): (r: string)
    ensures |r| == |s|
    ensures forall i :: 0 <= i < |s| ==> r[i] == LowerChar(s[i])
  {
    seq(|s|, i requires 0 <= i < |s| => LowerChar(s[i]))
  }

  lemma {:induction false} LowerIdempotent(s: string)
    ensures Lower(Lower(s)) == Lower(s)
  {
  }

  /** `t` occurs in `s` starting at index `i`. */
  predicate OccursAt(s: string, t: string, i: int) {
    0 <= i && i + |t| <= |s| && s[i..i + |t|] == t
  }

  /** `s.includes(t)` / `t in s`. */
  predicate Contains(s: string, t: string) {
    exists i | 0 <= i <= |s| - |t| :: OccursAt(s, t, i)
  }

  lemma {:induction false} ContainsEmpty(s: string)
    ensures Contains(s, "")
  {
    assert OccursAt(s, "", 0);
  }

  lemma {:induction false} ContainsItself(s: string)
    ensures Contains(s, s)
  {
    assert OccursAt(s, s, 0);
  }

  /** `s.toLowerCase().includes(t.toLowerCase())`. */
  predicate ContainsIgnoreCase(s: string, t: string) {
    Contains(Lower(s), Lower(t))
  }

  function TrimStart(s: string): (r: string)
    ensures |r| <= |s| && r == s[|s| - |r|..]
    ensures |r| > 0 ==> !IsSpace(r[0])
    ensures forall i :: 0 <= i < |s| - |r| ==> IsSpace(s[i])
  {
    if |s| > 0 && IsSpace(s[0]) then
      var r := TrimStart(s[1..]);
      assert s[1..][|s| - 1 - |r|..] == s[|s| - |r|..];
      assert forall i | 1 <= i < |s| - |r| :: s[i] == s[1..][i - 1];
      r
    else s
  }

  function TrimEnd(s: string): (r: string)
    ensures |r| <= |s| && r == s[..|r|]
    ensures |r| > 0 ==> !IsSpace(r[|r| - 1])
    ensures forall i :: |r| <= i < |s| ==> IsSpace(s[i])
  {
    if |s| > 0 && IsSpace(s[|s| - 1]) then TrimEnd(s[..|s| - 1]) else s
  }

  /** `trim()` / `strip()`. */
  function Trim(s: string): (r: string)
    ensures |r| <= |s|
    ensures |r| > 0 ==> !IsSpace(r[0]) && !IsSpace(r[|r| - 1])
  {
    TrimEnd(TrimStart(s))
  }

  /** A string is blank when trimming leaves nothing (`!s.trim()`, `not s.strip()`). */
  /** JavaScript truthiness of a possibly missing string: present and non-empty. */
  predicate IsTruthy(s: Option<string>) { s.Some? && |s.value| > 0 }

  predicate IsBlank(s: string) {
    forall i | 0 <= i < |s| :: IsSpace(s[i])
  }

  lemma {:induction false} TrimEmptyIffBlank(s: string)
    ensures |Trim(s)| == 0 <==> IsBlank(s)
  {
    var a := TrimStart(s);
    if |a| > 0 {
      assert !IsSpace(s[|s| - |a|]);
    }
  }

  /** Python's `str.lstrip()`, `rstrip()` and `strip()`: the same cuts as
      `TrimStart`, `TrimEnd` and `Trim`, over Python's whitespace. */
  function PyStripStart(s: string): (r: string)
    ensures |r| <= |s| && r == s[|s| - |r|..]
    ensures |r| > 0 ==> !IsPySpace(r[0])
    ensures forall i :: 0 <= i < |s| - |r| ==> IsPySpace(s[i])
  {
    if |s| > 0 && IsPySpace(s[0]) then
      var r := PyStripStart(s[1..]);
      assert s[1..][|s| - 1 - |r|..] == s[|s| - |r|..];
      assert forall i | 1 <= i < |s| - |r| :: s[i] == s[1..][i - 1];
      r
    else s
  }

  function PyStripEnd(s: string): (r: string)
    ensures |r| <= |s| && r == s[..|r|]
    ensures |r| > 0 ==> !IsPySpace(r[|r| - 1])
    ensures forall i :: |r| <= i < |s| ==> IsPySpace(s[i])
  {
    if |s| > 0 && IsPySpace(s[|s| - 1]) then PyStripEnd(s[..|s| - 1]) else s
  }

  function Strip(s: string): (r: string)
    ensures |r| <= |s|
    ensures |r| > 0 ==> !IsPySpace(r[0]) && !IsPySpace(r[|r| - 1])
  {
    PyStripEnd(PyStripStart(s))
  }

  /** `not s.strip()`. */
  predicate IsPyBlank(s: string) {
    forall i | 0 <= i < |s| :: IsPySpace(s[i])
  }

  lemma {:induction false} StripEmptyIffBlank(s: string)
    ensures |Strip(s)| == 0 <==> IsPyBlank(s)
  {
    var a := PyStripStart(s);
    if |a| > 0 {
      assert !IsPySpace(s[|s| - |a|]);
    }
  }

  /** A word of Python's `split()`: non-empty, no whitespace. */
  predicate IsWord(w: string) {
    |w| > 0 && forall i | 0 <= i < |w| :: !IsPySpace(w[i])
  }

  /** Length of the leading run of non-whitespace characters. */
  function WordLength(s: string): (n: nat)
    ensures n <= |s|
    ensures forall i | 0 <= i < n :: !IsPySpace(s[i])
    ensures n < |s| ==> IsPySpace(s[n])
  {
    if |s| == 0 || IsPySpace(s[0]) then 0 else 1 + WordLength(s[1..])
  }

  /** Python's `s.split()`: the maximal runs of non-whitespace characters, in order. */
  function Words(s: string): (ws: seq<string>)
    ensures forall k | 0 <= k < |ws| :: IsWord(ws[k])
    decreases |s|
  {
    var t := PyStripStart(s);
    if |t| == 0 then []
    else
      var n := WordLength(t);
      var rest := Words(t[n..]);
      FirstWord(t, n);
      ConsWords(t[..n], rest);
      [t[..n]] + rest
  }

  lemma {:induction false} FirstWord(t: string, n: nat)
    requires |t| > 0 && !IsPySpace(t[0]) && n == WordLength(t)
    ensures IsWord(t[..n])
  {
    assert n > 0;
    forall i | 0 <= i < n ensures !IsPySpace(t[..n][i]) {
      assert t[..n][i] == t[i];
    }
  }

  lemma {:induction false} ConsWords(w: string, rest: seq<string>)
    requires IsWord(w) && forall k | 0 <= k < |rest| :: IsWord(rest[k])
    ensures forall k | 0 <= k < |[w] + rest| :: IsWord(([w] + rest)[k])
  {
    forall k | 0 <= k < |[w] + rest| ensures IsWord(([w] + rest)[k]) {
      if k > 0 {
        assert ([w] + rest)[k] == rest[k - 1];
      }
    }
  }

  /** `sep.join(parts)`. */
  function Join(parts: seq<string>, sep: string): string
  {
    if |parts| == 0 then ""
    else if |parts| == 1 then parts[0]
    else parts[0] + sep + Join(parts[1..], sep)
  }

  /** `' '.join(words)`. */
  function JoinWords(words: seq<string>): string
  {
    Join(words, " ")
  }

  lemma {:induction false} JoinCons(w: string, rest: seq<string>, sep: string)
    requires |rest| > 0
    ensures Join([w] + rest, sep) == w + sep + Join(rest, sep)
  {
    assert ([w] + rest)[1..] == rest;
  }

  lemma {:induction false} JoinAppend(xs: seq<string>, ys: seq<string>, sep: string)
    requires |xs| > 0 && |ys| > 0
    ensures Join(xs + ys, sep) == Join(xs, sep) + sep + Join(ys, sep)
  {
    if |xs| == 1 {
      JoinCons(xs[0], ys, sep);
      assert xs + ys == [xs[0]] + ys;
    } else {
      assert (xs + ys)[1..] == xs[1..] + ys;
      JoinAppend(xs[1..], ys, sep);
    }
  }

  lemma {:induction false} WordLengthOfWord(w: string, tail: string)
    requires forall i | 0 <= i < |w| :: !IsPySpace(w[i])
    requires |tail| == 0 || IsPySpace(tail[0])
    ensures WordLength(w + tail) == |w|
    decreases |w|
  {
    if |w| > 0 {
      assert (w + tail)[1..] == w[1..] + tail;
      WordLengthOfWord(w[1..], tail);
    } else {
      assert w + tail == tail;
    }
  }

  lemma {:induction false} WordsOfWordThen(w: string, tail: string)
    requires IsWord(w)
    requires |tail| == 0 || IsPySpace(tail[0])
    ensures Words(w + tail) == [w] + Words(tail)
  {
    var s := w + tail;
    assert s[0] == w[0];
    assert PyStripStart(s) == s;
    WordLengthOfWord(w, tail);
    assert s[..|w|] == w;
    assert s[|w|..] == tail;
  }

  lemma {:induction false} WordsAfterSpace(j: string)
    ensures Words(" " + j) == Words(j)
  {
    assert (" " + j)[1..] == j;
    assert PyStripStart(" " + j) == PyStripStart(j);
  }

  lemma {:induction false} WordsOfJoin(ws: seq<string>)
    requires forall k | 0 <= k < |ws| :: IsWord(ws[k])
    ensures Words(JoinWords(ws)) == ws
  {
    if |ws| == 1 {
      WordsOfOneWord(ws);
    } else if |ws| > 1 {
      AllWordsTail(ws);
      WordsOfJoin(ws[1..]);
      WordsOfJoinStep(ws);
    }
  }

  lemma {:induction false} AllWordsTail(ws: seq<string>)
    requires |ws| > 0 && forall k | 0 <= k < |ws| :: IsWord(ws[k])
    ensures forall k | 0 <= k < |ws[1..]| :: IsWord(ws[1..][k])
  {
    forall k | 0 <= k < |ws[1..]| ensures IsWord(ws[1..][k]) {
      assert ws[1..][k] == ws[k + 1];
    }
  }

  lemma {:induction false} WordsOfOneWord(ws: seq<string>)
    requires |ws| == 1 && IsWord(ws[0])
    ensures Words(JoinWords(ws)) == ws
  {
    WordsOfWord(ws[0]);
  }

  /** A single word splits into itself. */
  lemma {:induction false} WordsOfWord(w: string)
    requires IsWord(w)
    ensures Words(w) == [w]
  {
    WordLengthOfWord(w, "");
    assert w + "" == w;
  }

  /** A join of two or more words splits back into them once the join of
      all but the first does. */
  lemma {:induction false} WordsOfJoinStep(ws: seq<string>)
    requires |ws| >= 2 && IsWord(ws[0])
    requires Words(JoinWords(ws[1..])) == ws[1..]
    ensures Words(JoinWords(ws)) == ws
  {
    WordsOfJoinCons(ws);
    HeadThenTail(Words(JoinWords(ws)), Words(JoinWords(ws[1..])), ws);
  }

  lemma {:induction false} HeadThenTail<T>(x: seq<T>, y: seq<T>, ws: seq<T>)
    requires |ws| > 0 && x == [ws[0]] + y && y == ws[1..]
    ensures x == ws
  {
    assert ws == [ws[0]] + ws[1..];
  }

  /** Splitting a join of two or more words gives the first word, then the split of the rest's join. */
  lemma {:induction false} WordsOfJoinCons(ws: seq<string>)
    requires |ws| >= 2 && IsWord(ws[0])
    ensures Words(JoinWords(ws)) == [ws[0]] + Words(JoinWords(ws[1..]))
  {
    var w, rest := ws[0], ws[1..];
    var j := JoinWords(rest);
    assert JoinWords(ws) == w + (" " + j) by {
      assert Join(ws, " ") == w + " " + Join(rest, " ");
    }
    WordsOfWordThen(w, " " + j);
    WordsAfterSpace(j);
  }

  // ---------------------------------------------------------------------------
  // Case folding does not move word boundaries.

  lemma {:induction false} LowerSlices(s: string, n: nat)
    requires n <= |s|
    ensures Lower(s)[..n] == Lower(s[..n]) && Lower(s)[n..] == Lower(s[n..])
  {
  }

  lemma {:induction false} PyStripStartLower(s: string)
    ensures PyStripStart(Lower(s)) == Lower(PyStripStart(s))
    decreases |s|
  {
    if |s| > 0 && IsPySpace(s[0]) {
      LowerSlices(s, 1);
      PyStripStartLower(s[1..]);
    }
  }

  lemma {:induction false} WordLengthLower(s: string)
    ensures WordLength(Lower(s)) == WordLength(s)
    decreases |s|
  {
    if |s| > 0 && !IsPySpace(s[0]) {
      LowerSlices(s, 1);
      WordLengthLower(s[1..]);
    }
  }

  lemma {:induction false} WordsUnfold(s: string)
    ensures var t := PyStripStart(s);
      |t| > 0 ==> Words(s) == [t[..WordLength(t)]] + Words(t[WordLength(t)..])
    ensures |PyStripStart(s)| == 0 ==> Words(s) == []
  {
  }

  /** Splitting a lowercased string gives the lowercased words. */
  lemma {:induction false} WordsLower(s: string)
    ensures Words(Lower(s)) == Map(Words(s), Lower)
    decreases |s|
  {
    var t := PyStripStart(s);
    PyStripStartLower(s);
    WordsUnfold(s);
    WordsUnfold(Lower(s));
    if |t| > 0 {
      WordsLowerStep(t);
    }
  }

  lemma {:induction false} WordsLowerStep(t: string)
    requires |t| > 0 && !IsPySpace(t[0])
    ensures var n := WordLength(t);
      [Lower(t)[..WordLength(Lower(t))]] + Words(Lower(t)[WordLength(Lower(t))..]) ==
      Map([t[..n]] + Words(t[n..]), Lower)
    decreases |t|, 0
  {
    var n := WordLength(t);
    WordLengthLower(t);
    LowerSlices(t, n);
    WordsLower(t[n..]);
    MapCons(t[..n], Words(t[n..]), Lower);
  }

  // ---------------------------------------------------------------------------
  // Decimal rendering of numbers (`${n}`, `str(n)`) and its inverse.

  function DigitChar(d: nat): (c: char)
    requires d < 10
    ensures IsDigit(c)
  {
    ('0' as int + d) as char
  }

  function DigitValue(c: char): nat
    requires IsDigit(c)
  {
    c as int - '0' as int
  }

  predicate AllDigits(s: string) {
    forall i | 0 <= i < |s| :: IsDigit(s[i])
  }

  /** `String(n)` for a non-negative integer: no leading zeros. */
  function NatToString(n: nat): (s: string)
    ensures |s| > 0 && AllDigits(s)
    ensures n < 10 <==> |s| == 1
  {
    if n < 10 then [DigitChar(n)] else NatToString(n / 10) + [DigitChar(n % 10)]
  }

  /** Reads back a non-empty run of decimal digits. */
  function ParseNat(s: string): (r: Option<nat>)
    ensures r.Some? <==> |s| > 0 && AllDigits(s)
  {
    if |s| == 0 || !IsDigit(s[|s| - 1]) then None
    else if |s| == 1 then Some(DigitValue(s[0]))
    else match ParseNat(s[..|s| - 1])
      case None => None
      case Some(p) => Some(10 * p + DigitValue(s[|s| - 1]))
  }

  lemma {:induction false} ParseNatToString(n: nat)
    ensures ParseNat(NatToString(n)) == Some(n)
  {
    if n >= 10 {
      var s := NatToString(n);
      ParseNatToString(n / 10);
      assert s[..|s| - 1] == NatToString(n / 10);
    }
  }

  /** `String(i)` for any integer. */
  function IntToString(i: int): string
  {
    if i < 0 then "-" + NatToString(-i) else NatToString(i)
  }

  /** `s.padStart(2, '0')`. */
  function PadStart2(s: string): (r: string)
    ensures |s| >= 2 ==> r == s
    ensures |s| < 2 ==> |r| == 2
  {
    if |s| == 0 then "00" else if |s| == 1 then "0" + s else s
  }

  /** `m:ss` for a whole number of seconds: minutes, a colon, then the
      seconds within the minute zero-padded to two digits. */
  function FormatClock(seconds: nat): string
  {
    NatToString(seconds / 60) + ":" + PadStart2(NatToString(seconds % 60))
  }

  /** Reads a `m:ss` label back into seconds; `None` for anything else. */
  function ClockValue(text: string): Option<nat>
  {
    if |text| < 4 || text[|text| - 3] != ':' then None
    else match (ParseNat(text[..|text| - 3]), ParseNat(text[|text| - 2..]))
      case (Some(m), Some(sec)) => if sec < 60 then Some(60 * m + sec) else None
      case _ => None
  }

  lemma {:induction false} TwoDigitParse(n: nat)
    requires n < 60
    ensures var p := PadStart2(NatToString(n)); |p| == 2 && ParseNat(p) == Some(n)
  {
    var s := NatToString(n);
    ParseNatToString(n);
    if n < 10 {
      var p := "0" + s;
      assert p[..1] == "0";
      assert ParseNat(p[..1]) == Some(0);
    } else {
      assert n / 10 < 10;
    }
  }

  lemma {:induction false} ClockRoundTrip(seconds: nat)
    ensures ClockValue(FormatClock(seconds)) == Some(seconds)
  {
    var m := NatToString(seconds / 60);
    var p := PadStart2(NatToString(seconds % 60));
    TwoDigitParse(seconds % 60);
    ParseNatToString(seconds / 60);
    var text := m + ":" + p;
    assert |text| == |m| + 3;
    assert text[..|text| - 3] == m;
    assert text[|text| - 2..] == p;
    assert text[|text| - 3] == ':';
  }

  // ---------------------------------------------------------------------------
  // Excerpts and Python's `int()`

  /** `text[:200] + ('...' if len(text) > 200 else '')`: the first 200
      characters, with `...` appended exactly when something was cut. */
  function Excerpt(text: string): (r: string)
    ensures |text| <= 200 ==> r == text
    ensures |text| > 200 ==> r == text[..200] + "..."
    ensures |r| <= 203 && r[..Min(|r|, 200)] <= text
  {
    if |text| > 200 then text[..200] + "..." else text
  }

  /** Python's `int(s)` on a string: surrounding whitespace, an optional
      sign, then at least one decimal digit. Digit-group underscores are
      not modelled. */
  function ParsePyInt(s: string): (r: Option<int>)
    ensures r.Some? ==> |Strip(s)| > 0
  {
    var t := Strip(s);
    if |t| > 0 && (t[0] == '-' || t[0] == '+') then
      match ParseNat(t[1..])
      case None => None
      case Some(n) =>
        var v: int := if t[0] == '-' then 0 - (n as int) else n as int;
        Some(v)
    else
      match ParseNat(t)
      case None => None
      case Some(n) => Some(n)
  }

  /** A string without whitespace at either end is its own strip. */
  lemma {:induction false} StripUnpadded(s: string)
    requires |s| > 0 && !IsPySpace(s[0]) && !IsPySpace(s[|s| - 1])
    ensures Strip(s) == s
  {
  }

  /** `int(str(i)) == i`. */
  lemma {:induction false} ParsePyIntOfIntToString(i: int)
    ensures ParsePyInt(IntToString(i)) == Some(i)
  {
    var s := IntToString(i);
    SignedDigits(i, "");
    assert s + "" == s;
    ParseNatToString(if i < 0 then -i else i);
    DigitsUnpadded(i);
  }

  /** `str(i)` has no whitespace at either end. */
  lemma {:induction false} DigitsUnpadded(i: int)
    ensures Strip(IntToString(i)) == IntToString(i)
  {
    var m: nat := if i < 0 then -i else i;
    var digits := NatToString(m);
    var s := IntToString(i);
    assert s[|s| - 1] == digits[|digits| - 1];
    assert s[0] == if i < 0 then '-' else digits[0];
    StripUnpadded(s);
  }

  // ---------------------------------------------------------------------------
  // JavaScript's `parseInt(s)`

  /** Length of the longest run of decimal digits at the start of `s`. */
  function DigitRun(s: string): (n: nat)
    ensures n <= |s| && AllDigits(s[..n])
    ensures n < |s| ==> !IsDigit(s[n])
  {
    if |s| == 0 || !IsDigit(s[0]) then 0
    else
      var n := 1 + DigitRun(s[1..]);
      assert s[..n] == [s[0]] + s[1..][..n - 1];
      n
  }

  /** `parseInt(s)` in base 10: leading whitespace, an optional sign, then
      the longest run of digits; whatever follows is ignored. `None` is NaN. */
  function JsParseInt(s: string): (r: Option<int>)
    ensures r.Some? ==> exists k | 0 <= k < |s| :: IsDigit(s[k])
  {
    var t := TrimStart(s);
    var signed := |t| > 0 && (t[0] == '-' || t[0] == '+');
    var u := if signed then t[1..] else t;
    var n := DigitRun(u);
    match ParseNat(u[..n])
    case None => None
    case Some(v) =>
      assert IsDigit(s[|s| - |u|]);
      Some(if signed && t[0] == '-' then 0 - (v as int) else v as int)
  }

  /** `parseInt(String(i) + rest) == i` whenever `rest` does not continue the
      digits: the rendering of an integer reads back, trailing text ignored. */
  lemma {:induction false} JsParseIntOfIntToString(i: int, rest: string)
    requires |rest| == 0 || !IsDigit(rest[0])
    ensures JsParseInt(IntToString(i) + rest) == Some(i)
  {
    var m: nat := if i < 0 then -i else i;
    var digits := NatToString(m);
    var s := IntToString(i) + rest;
    SignedDigits(i, rest);
    var u := if i < 0 then s[1..] else s;
    DigitRunOfDigits(digits, rest);
    ParseNatToString(m);
    assert u[..DigitRun(u)] == digits;
  }

  /** `String(i) + rest` starts with a sign exactly when `i` is negative,
      and after the sign come the digits of `|i|`. */
  lemma {:induction false} SignedDigits(i: int, rest: string)
    ensures var s := IntToString(i) + rest;
      |s| > 0 && !IsSpace(s[0]) && TrimStart(s) == s &&
      ((s[0] == '-' || s[0] == '+') <==> i < 0) && (i < 0 ==> s[0] == '-') &&
      (if i < 0 then s[1..] else s) == NatToString(if i < 0 then -i else i) + rest
  {
    var m: nat := if i < 0 then -i else i;
    var digits := NatToString(m);
    var s := IntToString(i) + rest;
    if i < 0 {
      assert s == "-" + (digits + rest);
    } else {
      assert s == digits + rest;
      assert s[0] == digits[0];
    }
  }

  lemma {:induction false} DigitRunOfDigits(digits: string, rest: string)
    requires AllDigits(digits)
    requires |rest| == 0 || !IsDigit(rest[0])
    ensures DigitRun(digits + rest) == |digits| && (digits + rest)[..|digits|] == digits
  {
    if |digits| > 0 {
      DigitRunOfDigits(digits[1..], rest);
      assert (digits + rest)[1..] == digits[1..] + rest;
    }
  }

  // ---------------------------------------------------------------------------
  // JavaScript `split(' ')`

  /** `s.split(' ')`: the fields between single spaces; the empty string is one empty field. */
  function SplitSpaces(s: string): (fs: seq<string>)
    ensures |fs| >= 1
    ensures forall i | 0 <= i < |fs| :: ' ' !in fs[i]
  {
    if |s| == 0 then [""]
    else
      var rest := SplitSpaces(s[1..]);
      if s[0] == ' ' then [""] + rest else [[s[0]] + rest[0]] + rest[1..]
  }

  function SpaceCount(s: string): nat
  {
    if |s| == 0 then 0 else (if s[0] == ' ' then 1 else 0) + SpaceCount(s[1..])
  }

  /** Joining the fields with single spaces gives the string back. */
  lemma {:induction false} SplitSpacesJoin(s: string)
    ensures Join(SplitSpaces(s), " ") == s
  {
    if |s| > 0 {
      var rest := SplitSpaces(s[1..]);
      SplitSpacesJoin(s[1..]);
      if s[0] == ' ' {
        JoinCons("", rest, " ");
        assert s == " " + s[1..];
      } else if |rest| == 1 {
        assert s == [s[0]] + s[1..];
      } else {
        JoinCons([s[0]] + rest[0], rest[1..], " ");
        JoinCons(rest[0], rest[1..], " ");
        assert rest == [rest[0]] + rest[1..];
        assert s == [s[0]] + s[1..];
      }
    }
  }

  /** There is one more field than there are spaces. */
  lemma {:induction false} SplitSpacesLength(s: string)
    ensures |SplitSpaces(s)| == SpaceCount(s) + 1
  {
    if |s| > 0 {
      SplitSpacesLength(s[1..]);
    }
  }

  // ---------------------------------------------------------------------------
  // Lengths and encodings as the runtimes see them

  /** UTF-16 code units of one character: a character beyond the Basic
      Multilingual Plane is a surrogate pair. */
  function Utf16Units(c: char): nat
  {
    if c as int >= 0x1_0000 then 2 else 1
  }

  /** JavaScript's `s.length` (and so Joi's and Mongoose's length limits):
      UTF-16 code units, not characters. Python's `len(s)` is `|s|`. */
  function Utf16Length(s: string): (n: nat)
    ensures |s| <= n <= 2 * |s|
  {
    if |s| == 0 then 0 else Utf16Units(s[0]) + Utf16Length(s[1..])
  }

  lemma {:induction false} Utf16LengthAppend(a: string, b: string)
    ensures Utf16Length(a + b) == Utf16Length(a) + Utf16Length(b)
  {
    if |a| == 0 {
      assert a + b == b;
    } else {
      assert (a + b)[1..] == a[1..] + b;
      Utf16LengthAppend(a[1..], b);
    }
  }

  /** The two counts agree exactly when no character needs a surrogate pair. */
  lemma {:induction false} Utf16LengthIsLength(s: string)
    ensures Utf16Length(s) == |s| <==> forall i | 0 <= i < |s| :: s[i] as int < 0x1_0000
  {
    if |s| > 0 {
      Utf16LengthIsLength(s[1..]);
      assert forall i | 1 <= i < |s| :: s[1..][i - 1] == s[i];
    }
  }

  /** The UTF-8 encoding of one character, as byte values. */
  function Utf8Char(c: char): (bs: seq<int>)
    ensures 1 <= |bs| <= 4
  {
    var v := c as int;
    if v < 0x80 then [v]
    else if v < 0x800 then [0xC0 + v / 0x40, 0x80 + v % 0x40]
    else if v < 0x1_0000 then [0xE0 + v / 0x1000, 0x80 + v / 0x40 % 0x40, 0x80 + v % 0x40]
    else [0xF0 + v / 0x4_0000, 0x80 + v / 0x1000 % 0x40, 0x80 + v / 0x40 % 0x40, 0x80 + v % 0x40]
  }

  /** The UTF-8 encoding of a string. */
  function Utf8(s: string): (bs: seq<int>)
    ensures |bs| >= |s|
  {
    if |s| == 0 then [] else Utf8Char(s[0]) + Utf8(s[1..])
  }

  lemma {:induction false} Utf8Append(a: string, b: string)
    ensures Utf8(a + b) == Utf8(a) + Utf8(b)
  {
    if |a| == 0 {
      assert a + b == b;
    } else {
      var c := Utf8Char(a[0]);
      assert (a + b)[1..] == a[1..] + b;
      assert (a + b)[0] == a[0];
      Utf8Append(a[1..], b);
      calc {
        Utf8(a + b);
        c + Utf8(a[1..] + b);
        c + (Utf8(a[1..]) + Utf8(b));
        (c + Utf8(a[1..])) + Utf8(b);
      }
    }
  }
}
