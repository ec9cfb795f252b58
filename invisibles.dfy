/**
 * The invisible-marker codec.  In "show invisibles" mode every U+200B of the
 * editor's HTML is displayed as an empty, non-editable placeholder span;
 * hiding (and saving) turns every such span back into one U+200B.
 *
 * Both directions are string rewrites of the editor's HTML.  Showing is a
 * global replacement of the character; hiding is a global replacement of the
 * pattern  <span class="invisible-zwsp" [^>]* ></span>  (without the spaces),
 * which is matched here by an explicit left-to-right scanner.
 */
module Invisibles {
  import opened Wrappers
  import Layout

  /** The invisible marker character (the base level of the Space key). */
  const ZWSP: char := Layout.ZWSP

  /** The class name whose presence in the HTML means "already shown". */
  const CLASS_NAME: string := "invisible-zwsp"

  /** The fixed opening of a placeholder span, up to where free attributes may follow. */
  const SPAN_OPEN: string := "<span class=\"invisible-zwsp\""

  /** The attribute text the show direction writes. */
  const SPAN_ATTRS: string := " contenteditable=\"false\""

  /** The fixed closing of a placeholder span. */
  const SPAN_CLOSE: string := "></span>"

  /** The span that stands for one U+200B while invisibles are shown. */
  const MARKER: string := SPAN_OPEN + SPAN_ATTRS + SPAN_CLOSE

  predicate StartsWith(s: string, p: string) {
    |p| <= |s| && s[..|p|] == p
  }

  /** `s.includes(p)`. */
  predicate Contains(s: string, p: string)
    decreases |s|
  {
    StartsWith(s, p) || (|s| > 0 && Contains(s[1..], p))
  }

  // ---------------------------------------------------------------------
  // Show
  // ---------------------------------------------------------------------

  /** Replace every U+200B by the placeholder span. */
  function ReplaceZwsp(h: string): (r: string)
    ensures ZWSP !in h ==> r == h
    decreases |h|
  {
    if h == [] then []
    else if h[0] == ZWSP then MARKER + ReplaceZwsp(h[1..])
    else [h[0]] + ReplaceZwsp(h[1..])
  }

  /**
   * The show direction: rewrite only when the HTML does not mention the
   * placeholder class yet.
   */
  function ShowInvisibles(h: string): string {
    if Contains(h, CLASS_NAME) then h else ReplaceZwsp(h)
  }

  // ---------------------------------------------------------------------
  // Hide
  // ---------------------------------------------------------------------

  /** The index of the first '>' in `s`, or |s| when there is none. */
  function FirstGt(s: string): (r: nat)
    ensures r <= |s|
    ensures forall i :: 0 <= i < r ==> s[i] != '>'
    ensures r < |s| ==> s[r] == '>'
    decreases |s|
  {
    if s == [] then 0
    else if s[0] == '>' then 0
    else 1 + FirstGt(s[1..])
  }

  /**
   * The length of the pattern's match at the start of `s`, if any.  Since
   * the free part `[^>]*` cannot contain '>', it must end at the first '>'
   * after the opening, so the match at a position is unique.
   */
  function MatchLen(s: string): (r: Option<nat>)
    ensures r.Some? ==> |SPAN_OPEN| + |SPAN_CLOSE| <= r.value <= |s|
  {
    if !StartsWith(s, SPAN_OPEN) then None
    else
      var rest := s[|SPAN_OPEN|..];
      var j := FirstGt(rest);
      if StartsWith(rest[j..], SPAN_CLOSE) then Some(|SPAN_OPEN| + j + |SPAN_CLOSE|) else None
  }

  /**
   * The hide direction: scan left to right, replacing each match by one
   * U+200B and copying every other character.
   */
  function HideInvisibles(s: string): string
    decreases |s|
  {
    if s == [] then []
    else
      match MatchLen(s)
      case Some(n) => [ZWSP] + HideInvisibles(s[n..])
      case None => [s[0]] + HideInvisibles(s[1..])
  }

  /** The HTML that is saved: shown markers are stripped first. */
  function StoredContent(shown: bool, html: string): string {
    if shown then HideInvisibles(html) else html
  }

  /**
   * What inserting `text` puts into the HTML: the placeholder span for a
   * lone U+200B while invisibles are shown, the text itself otherwise.
   */
  function InsertedFragment(shown: bool, text: string): string {
    if shown && text == [ZWSP] then MARKER else text
  }

  // ---------------------------------------------------------------------
  // The matcher against the pattern
  // ---------------------------------------------------------------------

  lemma FirstGtAt(a: string, b: string)
    requires '>' !in a && |b| > 0 && b[0] == '>'
    ensures FirstGt(a + b) == |a|
  {
    assert (a + b)[|a|] == '>';
    assert forall i :: 0 <= i < |a| ==> (a + b)[i] == a[i];
  }

  /**
   * Every span of the pattern is matched, whatever its free attribute text
   * (as long as it has no '>'), and the match ends right after "></span>".
   */
  lemma MatchComplete(attrs: string, t: string)
    requires '>' !in attrs
    ensures MatchLen(SPAN_OPEN + attrs + SPAN_CLOSE + t) == Some(|SPAN_OPEN| + |attrs| + |SPAN_CLOSE|)
  {
    var s := SPAN_OPEN + attrs + SPAN_CLOSE + t;
    assert s[..|SPAN_OPEN|] == SPAN_OPEN;
    var rest := s[|SPAN_OPEN|..];
    assert rest == attrs + (SPAN_CLOSE + t);
    FirstGtAt(attrs, SPAN_CLOSE + t);
    assert rest[|attrs|..] == SPAN_CLOSE + t;
    assert (SPAN_CLOSE + t)[..|SPAN_CLOSE|] == SPAN_CLOSE;
  }

  /**
   * Conversely, whatever is matched is an instance of the pattern: the
   * opening, a free part without '>', and the closing.
   */
  lemma MatchSound(s: string)
    requires MatchLen(s).Some?
    ensures var n := MatchLen(s).value;
      && s[..|SPAN_OPEN|] == SPAN_OPEN
      && '>' !in s[|SPAN_OPEN|..n - |SPAN_CLOSE|]
      && s[n - |SPAN_CLOSE|..n] == SPAN_CLOSE
  {
    var n := MatchLen(s).value;
    var rest := s[|SPAN_OPEN|..];
    var j := FirstGt(rest);
    assert s[|SPAN_OPEN|..n - |SPAN_CLOSE|] == rest[..j];
    assert s[n - |SPAN_CLOSE|..n] == rest[j..][..|SPAN_CLOSE|];
  }

  /** The span the show direction writes is a match of the pattern. */
  lemma MatchMarker(t: string)
    ensures MatchLen(MARKER + t) == Some(|MARKER|)
  {
    assert '>' !in SPAN_ATTRS;
    MatchComplete(SPAN_ATTRS, t);
    assert SPAN_OPEN + SPAN_ATTRS + SPAN_CLOSE + t == MARKER + t;
  }

  // ---------------------------------------------------------------------
  // Properties of the codec
  // ---------------------------------------------------------------------

  /**
   * Hiding turns each placeholder span, with any attribute text, into
   * exactly one U+200B and carries on after it.
   */
  lemma HideSpan(attrs: string, t: string)
    requires '>' !in attrs
    ensures HideInvisibles(SPAN_OPEN + attrs + SPAN_CLOSE + t) == [ZWSP] + HideInvisibles(t)
  {
    var s := SPAN_OPEN + attrs + SPAN_CLOSE + t;
    MatchComplete(attrs, t);
    assert s[|SPAN_OPEN| + |attrs| + |SPAN_CLOSE|..] == t;
  }

  /** Hiding the written marker gives back the single character. */
  lemma HideMarker()
    ensures HideInvisibles(MARKER) == [ZWSP]
  {
    assert '>' !in SPAN_ATTRS;
    HideSpan(SPAN_ATTRS, []);
    assert SPAN_OPEN + SPAN_ATTRS + SPAN_CLOSE + [] == MARKER;
  }

  /** HTML without any '<' has no span to hide and comes back unchanged. */
  lemma {:induction false} HideWithoutTags(s: string)
    requires '<' !in s
    ensures HideInvisibles(s) == s
    decreases |s|
  {
    if s != [] {
      assert MatchLen(s).None? by {
        assert SPAN_OPEN[0] == '<';
      }
      HideWithoutTags(s[1..]);
    }
  }

  /** Showing distributes over concatenation. */
  lemma {:induction false} ReplaceConcat(a: string, b: string)
    ensures ReplaceZwsp(a + b) == ReplaceZwsp(a) + ReplaceZwsp(b)
    decreases |a|
  {
    if a != [] {
      assert (a + b)[0] == a[0];
      assert (a + b)[1..] == a[1..] + b;
      ReplaceConcat(a[1..], b);
    } else {
      assert a + b == b;
    }
  }

  /** After showing, no raw U+200B is left. */
  lemma {:induction false} ReplaceLeavesNoZwsp(h: string)
    ensures ZWSP !in ReplaceZwsp(h)
    decreases |h|
  {
    if h != [] {
      ReplaceLeavesNoZwsp(h[1..]);
      assert ZWSP !in MARKER;
    }
  }

  lemma {:induction false} ContainsAt(s: string, p: string, k: nat)
    requires k <= |s| && StartsWith(s[k..], p)
    ensures Contains(s, p)
    decreases k
  {
    if k > 0 {
      assert s[1..][k - 1..] == s[k..];
      ContainsAt(s[1..], p, k - 1);
    }
  }

  /** Showing HTML that has a U+200B introduces the class name. */
  lemma {:induction false} ReplaceIntroducesClass(h: string)
    requires ZWSP in h
    ensures Contains(ReplaceZwsp(h), CLASS_NAME)
    decreases |h|
  {
    var r := ReplaceZwsp(h);
    ReplaceHead(h);
    if h[0] == ZWSP {
      PrefixOfConcat(SPAN_OPEN, SPAN_ATTRS, SPAN_CLOSE, ReplaceZwsp(h[1..]));
      OpenMentionsClass(r);
    } else {
      ReplaceIntroducesClass(h[1..]);
      assert r[1..] == ReplaceZwsp(h[1..]);
    }
  }

  /** Showing twice is showing once. */
  lemma ShowIdempotent(h: string)
    ensures ShowInvisibles(ShowInvisibles(h)) == ShowInvisibles(h)
  {
    if !Contains(h, CLASS_NAME) && ZWSP in h {
      ReplaceIntroducesClass(h);
    }
  }

  /** Prefix tests on a text split into its first character and the rest. */
  lemma StartsWithCons(c: char, t: string, p: string)
    requires p != []
    ensures StartsWith([c] + t, p) <==> c == p[0] && StartsWith(t, p[1..])
  {
    if StartsWith([c] + t, p) {
      assert ([c] + t)[..|p|] == [c] + t[..|p| - 1];
      assert t[..|p| - 1] == p[1..];
    }
    if c == p[0] && StartsWith(t, p[1..]) {
      assert ([c] + t)[..|p|] == [c] + t[..|p| - 1];
    }
  }

  /** The shown form of a non-empty text, by its first character. */
  lemma ReplaceHead(h: string)
    requires h != []
    ensures h[0] == ZWSP ==> ReplaceZwsp(h) == MARKER + ReplaceZwsp(h[1..]) && ReplaceZwsp(h)[0] == '<'
    ensures h[0] != ZWSP ==> ReplaceZwsp(h) == [h[0]] + ReplaceZwsp(h[1..])
  {
  }

  /**
   * If the shown form starts with a text `q` in which '<' does not occur,
   * the original starts with `q` too (a marker always begins with '<').
   */
  lemma {:induction false} ReplacePrefix(h: string, q: string)
    requires '<' !in q && StartsWith(ReplaceZwsp(h), q)
    ensures StartsWith(h, q)
    decreases |h|
  {
    if q != [] {
      ReplaceHead(h);
      var r := ReplaceZwsp(h);
      assert r[0] == q[0] && q[0] != '<';
      StartsWithCons(h[0], ReplaceZwsp(h[1..]), q);
      ReplacePrefix(h[1..], q[1..]);
      StartsWithCons(h[0], h[1..], q);
      assert [h[0]] + h[1..] == h;
    }
  }

  /** Text that starts with a span opening mentions the class. */
  lemma OpenMentionsClass(s: string)
    requires StartsWith(s, SPAN_OPEN)
    ensures Contains(s, CLASS_NAME)
  {
    assert s[..|SPAN_OPEN|] == SPAN_OPEN;
    assert s[13..27] == SPAN_OPEN[13..27] == CLASS_NAME;
    assert s[13..][..|CLASS_NAME|] == s[13..27];
    ContainsAt(s, CLASS_NAME, 13);
  }

  /**
   * In HTML that does not mention the class, a shown character that is not
   * a marker never starts a match.
   */
  lemma NoMatchAtPlainChar(h: string)
    requires h != [] && h[0] != ZWSP && !Contains(h, CLASS_NAME)
    ensures MatchLen(ReplaceZwsp(h)).None?
  {
    OpenTailHasNoLt();
    ShownPrefixMeansPrefix(h, SPAN_OPEN);
    if StartsWith(h, SPAN_OPEN) {
      OpenMentionsClass(h);
    }
  }

  /**
   * A shown text whose first character is not a marker starts with a text
   * `p` that has no '<' after its first character only if the original
   * text already did.
   */
  lemma ShownPrefixMeansPrefix(h: string, p: string)
    requires h != [] && h[0] != ZWSP && p != [] && '<' !in p[1..]
    ensures StartsWith(ReplaceZwsp(h), p) ==> StartsWith(h, p)
  {
    var t := h[1..];
    ReplaceHead(h);
    if StartsWith(ReplaceZwsp(h), p) {
      StartsWithCons(h[0], ReplaceZwsp(t), p);
      ReplacePrefix(t, p[1..]);
      StartsWithCons(h[0], t, p);
      assert [h[0]] + t == h;
    }
  }

  /** A text made of `a` followed by more text starts with `a`. */
  lemma PrefixOfConcat(a: string, b: string, c: string, x: string)
    ensures StartsWith(a + b + c + x, a)
  {
    assert (a + b + c + x)[..|a|] == a;
  }

  /** Past its first character the span opening has no '<'. */
  lemma OpenTailHasNoLt()
    ensures '<' !in SPAN_OPEN[1..]
  {
  }


  /**
   * Round trip: for HTML that does not mention the class, hiding what
   * showing produced gives back the original HTML.
   */
  lemma {:induction false} ShowHideRoundTrip(h: string)
    requires !Contains(h, CLASS_NAME)
    ensures HideInvisibles(ShowInvisibles(h)) == h
    decreases |h|
  {
    if h != [] {
      var r := ReplaceZwsp(h);
      assert !Contains(h[1..], CLASS_NAME);
      ShowHideRoundTrip(h[1..]);
      if h[0] == ZWSP {
        MatchMarker(ReplaceZwsp(h[1..]));
        assert r[|MARKER|..] == ReplaceZwsp(h[1..]);
      } else {
        NoMatchAtPlainChar(h);
        assert r[1..] == ReplaceZwsp(h[1..]);
      }
    }
  }

  /**
   * Saving from the shown view stores the same content as saving from the
   * raw view.
   */
  lemma SaveStripsMarkers(h: string)
    requires !Contains(h, CLASS_NAME)
    ensures StoredContent(true, ShowInvisibles(h)) == StoredContent(false, h)
  {
    ShowHideRoundTrip(h);
  }

  /**
   * Inserting while invisibles are shown keeps the shown view consistent:
   * splicing the inserted fragment into the shown form of `a` and `b` gives
   * the shown form of the raw text with `text` spliced in.  This holds for a
   * lone U+200B (inserted as the span) and for any text without U+200B.
   */
  lemma InsertWhileShown(a: string, text: string, b: string)
    requires text == [ZWSP] || ZWSP !in text
    ensures ReplaceZwsp(a) + InsertedFragment(true, text) + ReplaceZwsp(b) == ReplaceZwsp(a + text + b)
  {
    ReplaceConcat(a + text, b);
    ReplaceConcat(a, text);
    ShownFragment(text);
  }

  /** The fragment inserted while shown is the shown form of the text. */
  lemma ShownFragment(text: string)
    requires text == [ZWSP] || ZWSP !in text
    ensures ReplaceZwsp(text) == InsertedFragment(true, text)
  {
    if text == [ZWSP] {
      assert text[1..] == [];
      assert MARKER + [] == MARKER;
    }
  }

  // ---------------------------------------------------------------------
  // Hiding is idempotent
  // ---------------------------------------------------------------------

  /** The span opening starts with '<' and has no '>'. */
  lemma OpenChars()
    ensures SPAN_OPEN[0] == '<' && '>' !in SPAN_OPEN
  {
  }

  /** Past its first character the span opening has no U+200B. */
  lemma OpenTailHasNoZwsp()
    ensures ZWSP !in SPAN_OPEN[1..]
  {
  }

  /** The span closing starts with '>' and has no U+200B. */
  lemma CloseChars()
    ensures SPAN_CLOSE[0] == '>' && ZWSP !in SPAN_CLOSE[1..]
  {
  }

  /** The first '>' of `a + b`, when `a` has none, is found in `b`. */
  lemma {:induction false} FirstGtSkip(a: string, b: string)
    requires '>' !in a
    ensures FirstGt(a + b) == |a| + FirstGt(b)
    decreases |a|
  {
    if a != [] {
      assert a[0] in a;
      assert (a + b)[0] == a[0];
      assert (a + b)[1..] == a[1..] + b;
      FirstGtSkip(a[1..], b);
    } else {
      assert a + b == b;
    }
  }

  /** The first '>' of a text whose first `k` characters have none. */
  lemma FirstGtAfter(u: string, k: nat)
    requires k <= |u| && '>' !in u[..k]
    ensures FirstGt(u) == k + FirstGt(u[k..])
  {
    assert u[..k] + u[k..] == u;
    FirstGtSkip(u[..k], u[k..]);
  }

  /** The first '>' of `u` is followed by the rest of the span closing. */
  predicate GtClosesSpan(u: string) {
    FirstGt(u) < |u| && StartsWith(u[FirstGt(u)..], SPAN_CLOSE)
  }

  /** A match is a span opening followed by a text whose first '>' closes the span. */
  lemma MatchAtGt(s: string)
    ensures MatchLen(s).Some? <==> StartsWith(s, SPAN_OPEN) && GtClosesSpan(s[|SPAN_OPEN|..])
  {
  }

  /** Dropping a first character other than '>' keeps the first '>' and what follows it. */
  lemma GtClosesSpanTail(u: string)
    requires u != [] && u[0] != '>'
    ensures FirstGt(u[1..]) == FirstGt(u) - 1
    ensures GtClosesSpan(u) <==> GtClosesSpan(u[1..])
  {
    assert u[1..][FirstGt(u[1..])..] == u[FirstGt(u)..];
  }

  /** Dropping a prefix `p` without '>' keeps the first '>' and what follows it. */
  lemma GtClosesAfterPrefix(u: string, p: string)
    requires '>' !in p && StartsWith(u, p)
    ensures GtClosesSpan(u[|p|..]) <==> GtClosesSpan(u)
  {
    FirstGtAfter(u, |p|);
    assert u[|p|..][FirstGt(u[|p|..])..] == u[FirstGt(u)..];
  }

  /** Hiding copies a prefix in which no '<' occurs. */
  lemma {:induction false} HideCopies(u: string, q: string)
    requires '<' !in q && StartsWith(u, q)
    ensures HideInvisibles(u) == q + HideInvisibles(u[|q|..])
    decreases |q|
  {
    if q != [] {
      OpenChars();
      assert u[0] == q[0];
      assert MatchLen(u).None?;
      assert u[1..][..|q| - 1] == q[1..];
      HideCopies(u[1..], q[1..]);
      assert u[1..][|q| - 1..] == u[|q|..];
      assert [q[0]] + q[1..] == q;
    }
  }

  /**
   * The hidden form starts with a text free of U+200B only if the original
   * already did: every character not copied becomes a U+200B.
   */
  lemma {:induction false} HidePrefix(x: string, q: string)
    requires ZWSP !in q
    ensures StartsWith(HideInvisibles(x), q) ==> StartsWith(x, q)
    decreases |x|
  {
    if q != [] && x != [] {
      assert q[0] in q;
      if MatchLen(x).None? {
        HidePrefix(x[1..], q[1..]);
        StartsWithCons(x[0], HideInvisibles(x[1..]), q);
        StartsWithCons(x[0], x[1..], q);
        assert [x[0]] + x[1..] == x;
      }
    }
  }

  /** A text whose first '>' does not close a span starts no match. */
  lemma NoMatchBeforeGt(u: string)
    requires !GtClosesSpan(u)
    ensures MatchLen(u).None?
  {
    MatchAtGt(u);
    if StartsWith(u, SPAN_OPEN) {
      OpenChars();
      GtClosesAfterPrefix(u, SPAN_OPEN);
    }
  }

  /**
   * Up to the first '>' of a text where that '>' does not close a span, no
   * match can start, so hiding copies that part.
   */
  lemma {:induction false} HideBeforeGt(u: string)
    requires !GtClosesSpan(u)
    ensures HideInvisibles(u) == u[..FirstGt(u)] + HideInvisibles(u[FirstGt(u)..])
    decreases |u|
  {
    var j := FirstGt(u);
    if j > 0 {
      NoMatchBeforeGt(u);
      GtClosesSpanTail(u);
      assert u[1..][j - 1..] == u[j..];
      HideBeforeGt(u[1..]);
      assert [u[0]] + u[1..][..j - 1] == u[..j];
    }
  }

  /**
   * Hiding keeps the first '>' in its place, and when it did not close a
   * span it still does not.
   */
  lemma GtKeepsItsPlace(u: string)
    requires !GtClosesSpan(u)
    ensures !GtClosesSpan(HideInvisibles(u))
  {
    var j := FirstGt(u);
    HideBeforeGt(u);
    var h := HideInvisibles(u);
    if j < |u| {
      CloseChars();
      var v := u[j..];
      NoMatchAtGt(v);
      var w := HideInvisibles(v[1..]);
      FirstGtAt(u[..j], ['>'] + w);
      assert h[j..] == ['>'] + w;
      StartsWithCons('>', w, SPAN_CLOSE);
      HidePrefix(v[1..], SPAN_CLOSE[1..]);
      StartsWithCons('>', v[1..], SPAN_CLOSE);
      assert ['>'] + v[1..] == v;
    } else {
      assert u[..j] == u && u[j..] == [];
    }
  }

  /** A text starting with '>' starts no match, so hiding copies the '>'. */
  lemma NoMatchAtGt(v: string)
    requires v != [] && v[0] == '>'
    ensures HideInvisibles(v) == ['>'] + HideInvisibles(v[1..])
  {
    OpenChars();
    assert MatchLen(v).None?;
  }

  /**
   * A character that starts no match still starts none once the rest of the
   * text is hidden: hiding never completes a span the original left open.
   */
  lemma HideKeepsNoMatch(s: string)
    requires s != [] && MatchLen(s).None?
    ensures MatchLen([s[0]] + HideInvisibles(s[1..])).None?
  {
    var t := [s[0]] + HideInvisibles(s[1..]);
    MatchAtGt(t);
    if StartsWith(t, SPAN_OPEN) {
      OpenChars();
      OpenTailHasNoLt();
      OpenTailHasNoZwsp();
      OpenedAfterHide(s);
      MatchAtGt(s);
      GtKeepsItsPlace(s[|SPAN_OPEN|..]);
    }
  }

  /**
   * When the first character followed by the hidden rest starts with a span
   * opening, the original already did, and the hidden form is the opening
   * followed by the hidden rest of the original.
   */
  lemma OpenedAfterHide(s: string)
    requires s != [] && '<' !in SPAN_OPEN[1..] && ZWSP !in SPAN_OPEN[1..] && SPAN_OPEN[0] == '<'
    requires StartsWith([s[0]] + HideInvisibles(s[1..]), SPAN_OPEN)
    ensures StartsWith(s, SPAN_OPEN)
    ensures ([s[0]] + HideInvisibles(s[1..]))[|SPAN_OPEN|..] == HideInvisibles(s[|SPAN_OPEN|..])
  {
    var n := |SPAN_OPEN|;
    var t := [s[0]] + HideInvisibles(s[1..]);
    StartsWithCons(s[0], HideInvisibles(s[1..]), SPAN_OPEN);
    HidePrefix(s[1..], SPAN_OPEN[1..]);
    StartsWithCons(s[0], s[1..], SPAN_OPEN);
    assert [s[0]] + s[1..] == s;
    assert s[1..][n - 1..] == s[n..];
    HideCopies(s[1..], SPAN_OPEN[1..]);
    assert t == [s[0]] + SPAN_OPEN[1..] + HideInvisibles(s[n..]);
  }

  /** Hiding twice is hiding once. */
  lemma {:induction false} HideIdempotent(s: string)
    ensures HideInvisibles(HideInvisibles(s)) == HideInvisibles(s)
    decreases |s|
  {
    if s != [] {
      match MatchLen(s)
      case Some(n) =>
        var w := HideInvisibles(s[n..]);
        OpenChars();
        assert MatchLen([ZWSP] + w).None?;
        assert ([ZWSP] + w)[1..] == w;
        HideIdempotent(s[n..]);
      case None =>
        var w := HideInvisibles(s[1..]);
        HideKeepsNoMatch(s);
        assert ([s[0]] + w)[1..] == w;
        HideIdempotent(s[1..]);
    }
  }

  /**
   * Collapsing what expanding made of collapsed HTML gives the collapsed
   * HTML back, for every HTML: either expanding leaves it alone (it already
   * mentions the class) or the round trip applies.
   */
  lemma CollapseExpandCollapse(x: string)
    ensures HideInvisibles(ShowInvisibles(HideInvisibles(x))) == HideInvisibles(x)
  {
    var y := HideInvisibles(x);
    if Contains(y, CLASS_NAME) {
      HideIdempotent(x);
    } else {
      ShowHideRoundTrip(y);
    }
  }

  // ---------------------------------------------------------------------
  // The editor's HTML
  // ---------------------------------------------------------------------

  /**
   * The editor's HTML and the "show invisibles" flag.  The view operations
   * overwrite the HTML in place.
   */
  class Editor {
    var html: string
    var showInvisibles: bool

    /** A fresh editor shows its HTML raw. */
    constructor(initial: string)
      ensures html == initial && !showInvisibles
    {
      html := initial;
      showInvisibles := false;
    }

    /** Rewrite the HTML into its shown form (unless it is shown already). */
    method ApplyVisuals()
      modifies this
      ensures html == ShowInvisibles(old(html)) && showInvisibles == old(showInvisibles)
    {
      if !Contains(html, CLASS_NAME) {
        var newHtml := ReplaceZwsp(html);
        if newHtml != html {
          html := newHtml;
        }
      }
    }

    /** Rewrite every placeholder span back into U+200B. */
    method RemoveVisuals()
      modifies this
      ensures html == HideInvisibles(old(html)) && showInvisibles == old(showInvisibles)
    {
      var newHtml := HideInvisibles(html);
      if newHtml != html {
        html := newHtml;
      }
    }

    /** Flip the mode and rewrite the HTML for the new mode. */
    method ToggleInvisibles()
      modifies this
      ensures showInvisibles == !old(showInvisibles)
      ensures html == if showInvisibles then ShowInvisibles(old(html)) else HideInvisibles(old(html))
    {
      showInvisibles := !showInvisibles;
      if showInvisibles {
        ApplyVisuals();
      } else {
        RemoveVisuals();
      }
    }

    /**
     * Insert `text` at position `at` of the HTML: as the placeholder span
     * when it is a lone U+200B and invisibles are shown, as itself otherwise.
     */
    method InsertCharacter(at: nat, text: string)
      requires at <= |html|
      modifies this
      ensures html == old(html)[..at] + InsertedFragment(showInvisibles, text) + old(html)[at..]
      ensures showInvisibles == old(showInvisibles)
    {
      if showInvisibles && text == [ZWSP] {
        html := html[..at] + MARKER + html[at..];
      } else {
        html := html[..at] + text + html[at..];
      }
    }

    /** The content the save path stores. */
    method ContentToSave() returns (content: string)
      ensures content == StoredContent(showInvisibles, html)
    {
      content := html;
      if showInvisibles {
        content := HideInvisibles(content);
      }
    }
  }

  /**
   * Toggling the view on and off again restores raw HTML that did not
   * mention the class.
   */
  method ToggleTwice(e: Editor)
    requires !e.showInvisibles && !Contains(e.html, CLASS_NAME)
    modifies e
    ensures e.html == old(e.html) && !e.showInvisibles
  {
    ghost var raw := e.html;
    e.ToggleInvisibles();
    e.ToggleInvisibles();
    ShowHideRoundTrip(raw);
  }

  /** Removing the visuals a second time changes nothing more. */
  method RemoveTwice(e: Editor)
    modifies e
    ensures e.html == HideInvisibles(old(e.html)) && e.showInvisibles == old(e.showInvisibles)
  {
    ghost var shown := e.html;
    e.RemoveVisuals();
    e.RemoveVisuals();
    HideIdempotent(shown);
  }

  /**
   * From the shown view and whatever its HTML holds, toggling off, on and
   * off again leaves the same HTML as toggling off once.
   */
  method ToggleOffOnOff(e: Editor)
    requires e.showInvisibles
    modifies e
    ensures e.html == HideInvisibles(old(e.html)) && !e.showInvisibles
  {
    ghost var shown := e.html;
    e.ToggleInvisibles();
    e.ToggleInvisibles();
    e.ToggleInvisibles();
    CollapseExpandCollapse(shown);
  }

  /**
   * Typing a U+200B into the shown view and then saving stores the raw
   * text with the U+200B at that place.
   */
  method TypeMarkerThenSave(e: Editor, a: string, b: string) returns (saved: string)
    requires e.showInvisibles && !Contains(a + [ZWSP] + b, CLASS_NAME)
    requires e.html == ShowInvisibles(a + b) && !Contains(a + b, CLASS_NAME)
    modifies e
    ensures saved == a + [ZWSP] + b
  {
    ReplaceConcat(a, b);
    e.InsertCharacter(|ReplaceZwsp(a)|, [ZWSP]);
    assert e.html == ReplaceZwsp(a) + InsertedFragment(true, [ZWSP]) + ReplaceZwsp(b);
    InsertWhileShown(a, [ZWSP], b);
    saved := e.ContentToSave();
    ShowHideRoundTrip(a + [ZWSP] + b);
  }
}
