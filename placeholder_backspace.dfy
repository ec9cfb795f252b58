/**
 * Atomic Backspace over placeholder spans (current version only).  When the
 * caret sits at the start of a span, or right after one, Backspace removes
 * the whole span instead of letting the browser delete character by
 * character, and puts the caret where the span's previous sibling ends.
 *
 * The model looks at one element (the editor root or a block inside it) and
 * its children; the caret is in one of those children, directly in the
 * element, or just after the element in its own parent.
 */
module PlaceholderBackspace {
  import opened Wrappers

  /**
   * A child node: a text node, a SPAN element (a placeholder span written
   * by the show-invisibles view, or any other span such as a highlight) with
   * the text it holds, or any other node.
   */
  datatype Child =
    | Text(text: string)
    | Span(placeholder: bool, content: string)
    | Other

  /** Where a collapsed selection's start lies. */
  datatype Caret =
    | InText(index: nat, offset: nat)       // in the text node `children[index]`
    | InSpanText(index: nat, offset: nat)   // in the text node inside the span `children[index]`
    | InSpan(index: nat, offset: nat)       // directly in the span element `children[index]`
    | InParent(offset: nat)                 // directly in the element, before child `offset`
    | AfterParent                           // in the element's parent, right after the element

  /** The number of child nodes of a span element. */
  function SpanChildCount(c: Child): nat
    requires c.Span?
  {
    if c.content == [] then 0 else 1
  }

  /** The caret designates an existing position of the right kind. */
  predicate ValidCaret(children: seq<Child>, c: Caret) {
    match c
    case InText(i, o) => i < |children| && children[i].Text? && o <= |children[i].text|
    case InSpanText(i, o) => i < |children| && children[i].Span? && o <= |children[i].content|
    case InSpan(i, o) => i < |children| && children[i].Span? && o <= SpanChildCount(children[i])
    case InParent(o) => o <= |children|
    case AfterParent => true
  }

  /** A selection that is either absent or at a valid position. */
  predicate ValidSelection(children: seq<Child>, caret: Option<Caret>) {
    caret.Some? ==> ValidCaret(children, caret.value)
  }

  // ---------------------------------------------------------------------
  // The search functions, as written
  // ---------------------------------------------------------------------

  /** The span enclosing the caret's container, if any. */
  function EnclosingSpan(c: Caret): Option<nat> {
    match c
    case InSpanText(i, _) => Some(i)
    case InSpan(i, _) => Some(i)
    case _ => None
  }

  /**
   * Whether the caret is at the start of its enclosing span: offset 0 of a
   * text node inside it, or offset 0 directly in it.
   */
  predicate AtStartOfSpan(c: Caret) {
    match c
    case InSpanText(_, o) => o == 0
    case InSpan(_, o) => o == 0
    case _ => false
  }

  /** The nearest span among `children[..i]`, searching backwards. */
  function NearestSpanBefore(children: seq<Child>, i: nat): (r: Option<nat>)
    requires i <= |children|
    ensures r.None? <==> forall k :: 0 <= k < i ==> !children[k].Span?
    ensures r.Some? ==> r.value < i && children[r.value].Span?
    ensures r.Some? ==> forall k :: r.value < k < i ==> !children[k].Span?
    decreases i
  {
    if i == 0 then None
    else if children[i - 1].Span? then Some(i - 1)
    else NearestSpanBefore(children, i - 1)
  }

  /**
   * The previous-sibling search as written: from offset 0 of a text node,
   * the nearest earlier sibling that is a span, skipping every other
   * sibling; from a position directly in the element, the child just
   * before the caret if it is a span.
   */
  function PreviousSpanAsWritten(children: seq<Child>, c: Caret): Option<nat>
    requires ValidCaret(children, c)
  {
    match c
    case InText(i, o) => if o > 0 then None else NearestSpanBefore(children, i)
    case InParent(o) => if o > 0 && children[o - 1].Span? then Some(o - 1) else None
    case _ => None
  }

  /**
   * Which child Backspace removes as a whole, as written: none without a
   * collapsed selection; inside a span, that span if the caret is at its
   * start (and nothing otherwise); elsewhere, the previous-sibling search.
   */
  function BackspaceTarget(children: seq<Child>, caret: Option<Caret>, collapsed: bool): Option<nat>
    requires ValidSelection(children, caret)
  {
    if caret.None? || !collapsed then None
    else
      var c := caret.value;
      match EnclosingSpan(c)
      case Some(i) => if AtStartOfSpan(c) then Some(i) else None
      case None => PreviousSpanAsWritten(children, c)
  }

  /** The children after removing child `k`. */
  function RemoveAt(children: seq<Child>, k: nat): seq<Child>
    requires k < |children|
  {
    children[..k] + children[k + 1..]
  }

  /**
   * Where the caret lands after child `k` is removed: at the end of the
   * previous sibling if that is a text node, just after it otherwise, and
   * just after the element itself when there was no previous sibling.
   */
  function CaretAfterRemoval(children: seq<Child>, k: nat): Caret
    requires k < |children|
  {
    if k == 0 then AfterParent
    else if children[k - 1].Text? then InText(k - 1, |children[k - 1].text|)
    else InParent(k)
  }

  /** The caret is just after child `j`: at the end of it if it is text, after it in the element otherwise. */
  predicate JustAfter(children: seq<Child>, c: Caret, j: nat)
    requires j < |children|
  {
    if children[j].Text? then c == InText(j, |children[j].text|) else c == InParent(j + 1)
  }

  // ---------------------------------------------------------------------
  // The intended behaviour
  // ---------------------------------------------------------------------

  predicate IsPlaceholder(c: Child) {
    c.Span? && c.placeholder
  }

  /**
   * The placeholder Backspace as intended: remove a placeholder span only
   * when the caret is at its start or immediately after it (offset 0 of the
   * next text node, or directly after it in the element).
   */
  function PlaceholderTarget(children: seq<Child>, caret: Option<Caret>, collapsed: bool): Option<nat>
    requires ValidSelection(children, caret)
  {
    if caret.None? || !collapsed then None
    else
      match caret.value
      case InSpanText(i, o) => if o == 0 && IsPlaceholder(children[i]) then Some(i) else None
      case InSpan(i, o) => if o == 0 && IsPlaceholder(children[i]) then Some(i) else None
      case InText(i, o) => if o == 0 && i > 0 && IsPlaceholder(children[i - 1]) then Some(i - 1) else None
      case InParent(o) => if o > 0 && IsPlaceholder(children[o - 1]) then Some(o - 1) else None
      case AfterParent => None
  }

  /** The caret is at the start of, or immediately after, child `k`. */
  predicate AtOrJustAfter(c: Caret, k: nat) {
    || c == InSpanText(k, 0) || c == InSpan(k, 0)
    || c == InText(k + 1, 0) || c == InParent(k + 1)
  }

  // ---------------------------------------------------------------------
  // The element and its selection
  // ---------------------------------------------------------------------

  /** One element of the editor, its children, and the window's selection. */
  class Block {
    var children: seq<Child>
    var caret: Option<Caret>
    var collapsed: bool

    predicate Valid()
      reads this
    {
      ValidSelection(children, caret)
    }

    constructor(initial: seq<Child>, at: Option<Caret>, isCollapsed: bool)
      requires ValidSelection(initial, at)
      ensures Valid()
      ensures children == initial && caret == at && collapsed == isCollapsed
    {
      children := initial;
      caret := at;
      collapsed := isCollapsed;
    }

    /**
     * Walk back over the siblings before child `i` and return the first
     * span met, if any.
     */
    method PreviousSiblingSpan(i: nat) returns (r: Option<nat>)
      requires i <= |children|
      ensures r.None? <==> forall k :: 0 <= k < i ==> !children[k].Span?
      ensures r.Some? ==> r.value < i && children[r.value].Span?
      ensures r.Some? ==> forall k :: r.value < k < i ==> !children[k].Span?
    {
      var prev := i;
      while prev > 0
        invariant 0 <= prev <= i
        invariant forall k :: prev <= k < i ==> !children[k].Span?
        decreases prev
      {
        prev := prev - 1;
        if children[prev].Span? {
          return Some(prev);
        }
      }
      return None;
    }

    /**
     * Remove child `k` and place a collapsed caret just after its previous
     * sibling (or after the element when it had none).
     */
    method DeleteSpan(k: nat)
      requires k < |children|
      modifies this
      ensures children == RemoveAt(old(children), k)
      ensures caret == Some(CaretAfterRemoval(old(children), k)) && collapsed
    {
      var caretNode := CaretAfterRemoval(children, k);
      children := children[..k] + children[k + 1..];
      caret := Some(caretNode);
      collapsed := true;
    }

    /**
     * The Backspace handler as written.  `handled` says whether the
     * browser's own deletion was suppressed.
     */
    method DeleteSpanIfPossible() returns (handled: bool)
      requires Valid()
      modifies this
      ensures Valid()
      ensures var target := BackspaceTarget(old(children), old(caret), old(collapsed));
        && handled == target.Some?
        && (target.Some? ==>
              children == RemoveAt(old(children), target.value)
              && caret == Some(CaretAfterRemoval(old(children), target.value)) && collapsed)
        && (target.None? ==> children == old(children) && caret == old(caret) && collapsed == old(collapsed))
    {
      if caret.None? || !collapsed {
        return false;
      }
      var c := caret.value;
      match EnclosingSpan(c)
      case Some(i) =>
        if AtStartOfSpan(c) {
          RemovalKeepsSelectionValid(children, i);
          DeleteSpan(i);
          return true;
        }
        return false;
      case None =>
        var prevSpan: Option<nat> := None;
        match c {
          case InText(i, o) =>
            if o == 0 {
              prevSpan := PreviousSiblingSpan(i);
            }
          case InParent(o) =>
            if o > 0 && children[o - 1].Span? {
              prevSpan := Some(o - 1);
            }
          case _ =>
        }
        if prevSpan.Some? {
          RemovalKeepsSelectionValid(children, prevSpan.value);
          DeleteSpan(prevSpan.value);
          return true;
        }
        return false;
    }

    /** The Backspace handler with the intended target. */
    method DeletePlaceholderIfPossible() returns (handled: bool)
      requires Valid()
      modifies this
      ensures Valid()
      ensures var target := PlaceholderTarget(old(children), old(caret), old(collapsed));
        && handled == target.Some?
        && (target.Some? ==>
              children == RemoveAt(old(children), target.value)
              && caret == Some(CaretAfterRemoval(old(children), target.value)) && collapsed)
        && (target.None? ==> children == old(children) && caret == old(caret) && collapsed == old(collapsed))
    {
      var target := PlaceholderTarget(children, caret, collapsed);
      if target.Some? {
        PlaceholderTargetIsPlaceholder(children, caret, collapsed);
        RemovalKeepsSelectionValid(children, target.value);
        DeleteSpan(target.value);
        return true;
      }
      return false;
    }
  }

  // ---------------------------------------------------------------------
  // Properties
  // ---------------------------------------------------------------------

  /**
   * As written, Backspace removes a whole child exactly in three positions
   * of a collapsed selection: at the start of an enclosing span; at offset 0
   * of a text node with an earlier span sibling (the nearest one); directly
   * in the element just after a span.  Only spans are ever removed.
   */
  lemma BackspaceTargetPositions(children: seq<Child>, caret: Option<Caret>, collapsed: bool)
    requires ValidSelection(children, caret)
    ensures var t := BackspaceTarget(children, caret, collapsed);
      && (t.Some? ==> t.value < |children| && children[t.value].Span?)
      && (t.Some? <==>
            && collapsed && caret.Some?
            && (|| AtStartOfSpan(caret.value)
                || (caret.value.InText? && caret.value.offset == 0
                    && exists k :: 0 <= k < caret.value.index && children[k].Span?)
                || (caret.value.InParent? && caret.value.offset > 0 && children[caret.value.offset - 1].Span?)))
  {
    if collapsed && caret.Some? && caret.value.InText? && caret.value.offset == 0 {
      var i := caret.value.index;
      var r := NearestSpanBefore(children, i);
      if r.Some? {
        assert children[r.value].Span?;
      }
    }
  }

  /**
   * Removing child `k` keeps every other child in order, and the caret
   * lands just after the removed child's previous sibling, or after the
   * element when there was none; the new selection is valid.
   */
  lemma RemovalKeepsSelectionValid(children: seq<Child>, k: nat)
    requires k < |children|
    ensures var rest := RemoveAt(children, k);
      && |rest| == |children| - 1
      && (forall j :: 0 <= j < k ==> rest[j] == children[j])
      && (forall j :: k <= j < |rest| ==> rest[j] == children[j + 1])
      && ValidCaret(rest, CaretAfterRemoval(children, k))
      && (k == 0 ==> CaretAfterRemoval(children, k) == AfterParent)
      && (k > 0 ==> JustAfter(rest, CaretAfterRemoval(children, k), k - 1))
  {
  }

  /**
   * The intended handler removes exactly a placeholder span at or
   * immediately before the caret, and nothing in any other position.
   */
  lemma PlaceholderTargetIsPlaceholder(children: seq<Child>, caret: Option<Caret>, collapsed: bool)
    requires ValidSelection(children, caret)
    ensures var t := PlaceholderTarget(children, caret, collapsed);
      && (t.Some? ==> t.value < |children| && IsPlaceholder(children[t.value])
                      && collapsed && AtOrJustAfter(caret.value, t.value))
      && (forall k ::
            (0 <= k < |children| && collapsed && caret.Some? && IsPlaceholder(children[k])
             && AtOrJustAfter(caret.value, k)) ==> t == Some(k))
  {
  }

  /**
   * Whenever the intended handler removes a placeholder, the handler as
   * written removes the same child: the two differ only in the cases the
   * written one removes too much.
   */
  lemma AsWrittenCoversIntended(children: seq<Child>, caret: Option<Caret>, collapsed: bool)
    requires ValidSelection(children, caret)
    requires PlaceholderTarget(children, caret, collapsed).Some?
    ensures BackspaceTarget(children, caret, collapsed) == PlaceholderTarget(children, caret, collapsed)
  {
  }

  /**
   * As written, Backspace at the start of a text node removes a placeholder
   * that is not next to the caret: the search walks past the text node
   * "abc" in between.  The intended handler removes nothing.
   */
  lemma AsWrittenSkipsSiblings()
    ensures var children := [Span(true, ""), Text("abc"), Text("def")];
      var caret := Some(InText(2, 0));
      && BackspaceTarget(children, caret, true) == Some(0)
      && PlaceholderTarget(children, caret, true) == None
  {
  }

  /**
   * As written, any span counts: Backspace at the start of the text after a
   * highlight span removes the whole highlighted text.  The intended handler
   * removes nothing.
   */
  lemma AsWrittenRemovesHighlight()
    ensures var children := [Text("a"), Span(false, "bc"), Text("d")];
      var caret := Some(InText(2, 0));
      && BackspaceTarget(children, caret, true) == Some(1)
      && RemoveAt(children, 1) == [Text("a"), Text("d")]
      && PlaceholderTarget(children, caret, true) == None
  {
  }

  /**
   * Typing "A", the marker and "B" and pressing Backspace at the start of
   * "B" removes the marker and leaves the caret at the end of "A", with the
   * handler as written and with the corrected one alike.
   */
  method BackspaceAfterMarker() returns (asWritten: Block, corrected: Block)
    ensures asWritten.children == corrected.children == [Text("A"), Text("B")]
    ensures asWritten.caret == corrected.caret == Some(InText(0, 1))
    ensures asWritten.collapsed && corrected.collapsed
  {
    var start := [Text("A"), Span(true, ""), Text("B")];
    asWritten := new Block(start, Some(InText(2, 0)), true);
    var handled := asWritten.DeleteSpanIfPossible();
    corrected := new Block(start, Some(InText(2, 0)), true);
    handled := corrected.DeletePlaceholderIfPossible();
  }
}
