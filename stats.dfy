/**
 * The status-bar statistics of the editor text (identical in both versions).
 * The character count is the JavaScript string length, in UTF-16 code
 * units.  The word count is 0 when the trimmed text is empty and otherwise
 * the number of pieces of the trimmed text split at runs of whitespace.
 *
 * Whitespace is JavaScript's: the set `trim` removes and `\s` matches.
 * U+200B is not in it, so the invisible marker counts as part of a word.
 */
module Stats {

  /**
   * JavaScript whitespace and line terminators: tab, line feed, vertical
   * tab, form feed, carriage return, space, no-break space, the Ogham space
   * mark, U+2000 to U+200A, the line and paragraph separators, the narrow
   * no-break space, the medium mathematical space, the ideographic space
   * and the byte-order mark.
   */
  predicate IsWs(c: char) {
    || ('\U{0009}' <= c <= '\U{000D}') || c == '\U{0020}' || c == '\U{00A0}' || c == '\U{1680}'
    || ('\U{2000}' <= c <= '\U{200A}') || c == '\U{2028}' || c == '\U{2029}'
    || c == '\U{202F}' || c == '\U{205F}' || c == '\U{3000}' || c == '\U{FEFF}'
  }

  /** The number of UTF-16 code units of a character. */
  function Utf16Units(c: char): nat {
    if c as int >= 0x1_0000 then 2 else 1
  }

  /** `text.length`. */
  function CharCount(text: string): nat
    decreases |text|
  {
    if text == [] then 0 else Utf16Units(text[0]) + CharCount(text[1..])
  }

  /** Drop leading whitespace. */
  function TrimStart(s: string): (r: string)
    ensures |r| <= |s| && r == s[|s| - |r|..]
    ensures r == [] || !IsWs(r[0])
    ensures forall i :: 0 <= i < |s| - |r| ==> IsWs(s[i])
    decreases |s|
  {
    if s != [] && IsWs(s[0]) then TrimStart(s[1..]) else s
  }

  /** Drop trailing whitespace. */
  function TrimEnd(s: string): (r: string)
    ensures |r| <= |s| && r == s[..|r|]
    ensures r == [] || !IsWs(r[|r| - 1])
    ensures forall i :: |r| <= i < |s| ==> IsWs(s[i])
    decreases |s|
  {
    if s != [] && IsWs(s[|s| - 1]) then TrimEnd(s[..|s| - 1]) else s
  }

  /** `s.trim()`. */
  function Trim(s: string): string {
    TrimEnd(TrimStart(s))
  }

  /**
   * `s.split(/\s+/)` continued from the piece `cur` collected so far: every
   * maximal whitespace run ends a piece.
   */
  function SplitFrom(s: string, cur: string): (r: seq<string>)
    ensures |r| >= 1
    decreases |s|
  {
    if s == [] then [cur]
    else if IsWs(s[0]) then [cur] + SplitFrom(TrimStart(s), [])
    else SplitFrom(s[1..], cur + [s[0]])
  }

  function SplitWs(s: string): seq<string> {
    SplitFrom(s, [])
  }

  /** The word count shown in the status bar. */
  function WordCount(text: string): nat {
    var t := Trim(text);
    if t == [] then 0 else |SplitWs(t)|
  }

  // ---------------------------------------------------------------------
  // An independent count: words are where non-whitespace begins
  // ---------------------------------------------------------------------

  /**
   * The number of positions in `s` holding a non-whitespace character that
   * follows whitespace, where `afterWs` says whether the position before
   * `s` counts as whitespace.
   */
  function CountStarts(s: string, afterWs: bool): nat
    decreases |s|
  {
    if s == [] then 0
    else (if !IsWs(s[0]) && afterWs then 1 else 0) + CountStarts(s[1..], IsWs(s[0]))
  }

  /** The number of maximal runs of non-whitespace characters. */
  function WordStarts(s: string): nat {
    CountStarts(s, true)
  }

  // ---------------------------------------------------------------------
  // Properties
  // ---------------------------------------------------------------------

  /** A run of whitespace at the front does not start any word. */
  lemma {:induction false} LeadingWsStarts(s: string, afterWs: bool)
    requires s != [] && IsWs(s[0])
    ensures CountStarts(s, afterWs) == CountStarts(TrimStart(s), true)
    decreases |s|
  {
    if s[1..] != [] && IsWs(s[1]) {
      LeadingWsStarts(s[1..], true);
    }
  }

  /** Trailing whitespace does not start any word. */
  lemma {:induction false} TrailingWsStarts(s: string, w: char, afterWs: bool)
    requires IsWs(w)
    ensures CountStarts(s + [w], afterWs) == CountStarts(s, afterWs)
    decreases |s|
  {
    if s != [] {
      assert (s + [w])[1..] == s[1..] + [w];
      TrailingWsStarts(s[1..], w, IsWs(s[0]));
    }
  }

  /** Trimming does not change the number of words. */
  lemma {:induction false} TrimEndStarts(s: string)
    ensures CountStarts(TrimEnd(s), true) == CountStarts(s, true)
    decreases |s|
  {
    if s != [] && IsWs(s[|s| - 1]) {
      var p := s[..|s| - 1];
      TrimEndStarts(p);
      assert s == p + [s[|s| - 1]];
      TrailingWsStarts(p, s[|s| - 1], true);
    }
  }

  /**
   * Splitting a text that does not end in whitespace gives one piece more
   * than the number of words beginning after its first character.
   */
  lemma {:induction false} SplitLength(s: string, cur: string)
    requires s == [] || !IsWs(s[|s| - 1])
    ensures |SplitFrom(s, cur)| == 1 + CountStarts(s, false)
    decreases |s|
  {
    if s != [] {
      if IsWs(s[0]) {
        LeadingWsStarts(s, false);
        var u := TrimStart(s);
        assert u != [] && u[|u| - 1] == s[|s| - 1];
        SplitLength(u, []);
      } else {
        SplitLength(s[1..], cur + [s[0]]);
      }
    }
  }

  /**
   * The status bar's word count equals the number of maximal
   * non-whitespace runs of the text.
   */
  lemma WordCountIsRuns(text: string)
    ensures WordCount(text) == WordStarts(text)
  {
    var t := Trim(text);
    if text != [] && IsWs(text[0]) {
      LeadingWsStarts(text, true);
    }
    TrimEndStarts(TrimStart(text));
    if t != [] {
      SplitLength(t, []);
    }
  }

  /** Trimming a trimmed text changes nothing. */
  lemma TrimIdempotent(s: string)
    ensures Trim(Trim(s)) == Trim(s)
    ensures Trim(s) == [] || (!IsWs(Trim(s)[0]) && !IsWs(Trim(s)[|Trim(s)| - 1]))
  {
    var a := TrimStart(s);
    var t := TrimEnd(a);
    if t != [] {
      assert t[0] == a[0];
    }
  }

  /** A text of whitespace only has no words, and any other text has at least one. */
  lemma BlankHasNoWords(text: string)
    ensures WordCount(text) == 0 <==> forall i :: 0 <= i < |text| ==> IsWs(text[i])
  {
    var a := TrimStart(text);
    if a != [] {
      assert a[0] == text[|text| - |a|];
    }
  }

  /** The character count adds up over concatenation. */
  lemma {:induction false} CharCountConcat(a: string, b: string)
    ensures CharCount(a + b) == CharCount(a) + CharCount(b)
    decreases |a|
  {
    if a != [] {
      assert (a + b)[1..] == a[1..] + b;
      CharCountConcat(a[1..], b);
    } else {
      assert a + b == b;
    }
  }

  /**
   * Characters outside the supplementary planes, which include all of
   * Khmer, count one each.
   */
  lemma {:induction false} CharCountBmp(text: string)
    requires forall i :: 0 <= i < |text| ==> text[i] as int < 0x1_0000
    ensures CharCount(text) == |text|
    decreases |text|
  {
    if text != [] {
      CharCountBmp(text[1..]);
    }
  }

  /** Two words among surrounding and repeated spaces. */
  lemma TwoWordsExample()
    ensures WordCount(" ab  cd ") == 2
  {
    WordCountIsRuns(" ab  cd ");
    assert " ab  cd "[1..] == "ab  cd ";
  }

  /** No words in the empty text or in whitespace alone. */
  lemma BlankExamples()
    ensures WordCount("") == 0
    ensures WordCount(" \t\n") == 0
  {
    WordCountIsRuns(" \t\n");
  }

  /** No word starts inside a text without whitespace. */
  lemma {:induction false} NoStartsInside(s: string)
    requires forall i :: 0 <= i < |s| ==> !IsWs(s[i])
    ensures CountStarts(s, false) == 0
    decreases |s|
  {
    if s != [] {
      NoStartsInside(s[1..]);
    }
  }

  /** A non-empty text without whitespace is one word. */
  lemma RunIsOneWord(s: string)
    requires s != [] && forall i :: 0 <= i < |s| ==> !IsWs(s[i])
    ensures WordCount(s) == 1
  {
    WordCountIsRuns(s);
    NoStartsInside(s[1..]);
  }

  /**
   * Khmer is written without spaces between words, so a run of Khmer counts
   * as one word; a lone invisible marker counts as a word too.
   */
  lemma KhmerRunIsOneWord()
    ensures WordCount("\U{1781}\U{17D2}\U{1798}\U{17C2}\U{179A}") == 1
    ensures WordCount("\U{200B}") == 1
  {
    var s := "\U{1781}\U{17D2}\U{1798}\U{17C2}\U{179A}";
    assert forall i :: 0 <= i < |s| ==> '\U{1780}' <= s[i] <= '\U{17FF}';
    RunIsOneWord(s);
    RunIsOneWord("\U{200B}");
  }
}
