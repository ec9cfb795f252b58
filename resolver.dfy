/**
 * Turning a key into text.  The level choice (base, Shift, AltGr), the
 * "typing key" test that decides whether a physical key-down is taken over
 * from the browser, the physical key-down handler, and the on-screen
 * keyboard's dispatch of a clicked key, for both versions of the component.
 */
module Resolver {
  import opened Wrappers
  import opened Layout
  import opened KeyboardStates

  /**
   * The twelve codes on which CapsLock does not stand in for Shift: the
   * digits and the two symbol keys after them.
   */
  const NUMBER_ROW_CODES: seq<string> :=
    ["Digit1", "Digit2", "Digit3", "Digit4", "Digit5", "Digit6",
     "Digit7", "Digit8", "Digit9", "Digit0", "Minus", "Equal"]

  predicate IsNumberRow(code: string) {
    code in NUMBER_ROW_CODES
  }

  /** The three Khmer levels of a key. */
  datatype Level = Base | Shifted | AltGr

  /**
   * Shift wins over AltGr; CapsLock counts as Shift except on the number
   * row; otherwise AltGr; otherwise the base level.
   */
  function ChooseLevel(code: string, shift: bool, caps: bool, altGr: bool): Level {
    if shift || (caps && !IsNumberRow(code)) then Shifted
    else if altGr then AltGr
    else Base
  }

  /** The text at a level; an absent `kmAlt` reads as the empty string. */
  function Variant(k: KeyData, level: Level): string {
    match level
    case Base => k.km
    case Shifted => k.kmShift
    case AltGr => if k.kmAlt.Some? then k.kmAlt.value else ""
  }

  /** The text a key yields under the given modifier flags ("" = nothing). */
  function Resolve(k: KeyData, shift: bool, caps: bool, altGr: bool): string {
    Variant(k, ChooseLevel(k.code, shift, caps, altGr))
  }

  /**
   * A key is a typing key when it has no type or type "char" and at least
   * one of its three Khmer levels is a non-empty string.
   */
  predicate IsTypingKey(k: KeyData) {
    && (k.keyType == None || k.keyType == Some(Char))
    && (k.km != "" || k.kmShift != "" || (k.kmAlt.Some? && k.kmAlt.value != ""))
  }

  // ---------------------------------------------------------------------
  // Physical key-down
  // ---------------------------------------------------------------------

  /**
   * What the physical key-down handler does with the event's text: leave it
   * to the browser, or suppress the browser's insertion and insert `text`
   * itself (nothing when `text` is empty).
   */
  datatype PhysicalOutcome = PassThrough | Intercept(text: string)

  /**
   * The modifier combinations under which the layout is consulted at all:
   * Khmer mode without Ctrl in the current version, Khmer mode without Ctrl,
   * Alt or Meta in the legacy version.
   */
  predicate LayoutActive(v: Version, khmerMode: bool, e: KeyEvent) {
    match v
    case Current => khmerMode && !e.ctrlKey
    case Legacy => khmerMode && !e.ctrlKey && !e.altKey && !e.metaKey
  }

  /**
   * The AltGr flag used for resolution: in the current version AltGraph, Alt
   * or Meta; in the legacy version AltGraph only.
   */
  predicate AltGrLevel(v: Version, e: KeyEvent) {
    match v
    case Current => e.altGraph || e.altKey || e.metaKey
    case Legacy => e.altGraph
  }

  /**
   * The IME part of the key-down handler.  Resolution reads the event's own
   * Shift and CapsLock flags, never the shared keyboard state.
   */
  function PhysicalKeyDown(v: Version, khmerMode: bool, e: KeyEvent): PhysicalOutcome {
    if !LayoutActive(v, khmerMode, e) then PassThrough
    else
      match Lookup(e.code)
      case None => PassThrough
      case Some(k) =>
        if IsTypingKey(k) then Intercept(Resolve(k, e.shiftKey, e.capsLock, AltGrLevel(v, e)))
        else PassThrough
  }

  /**
   * Whether the key-down handler tries the atomic placeholder deletion:
   * only the current version has it, on Backspace without AltGr, Meta or Ctrl.
   */
  predicate TriesPlaceholderBackspace(v: Version, e: KeyEvent) {
    v == Current && e.key == "Backspace" && !AltGrReported(Current, e) && !e.metaKey && !e.ctrlKey
  }

  // ---------------------------------------------------------------------
  // On-screen keyboard
  // ---------------------------------------------------------------------

  datatype Direction = Forward | Backward
  datatype Granularity = Character | Line

  /** What a click on an on-screen key does to the editor. */
  datatype VirtualAction =
    | NoAction
    | DeleteBackward
    | InsertText(text: string)
    | InsertParagraph
    | MoveCaret(direction: Direction, granularity: Granularity)

  /** The new keyboard state and the editor action of one click. */
  datatype VirtualResult = VirtualResult(next: KeyboardState, action: VirtualAction)

  /** The caret movement of an arrow code, if it is one. */
  function ArrowMove(code: string): Option<VirtualAction> {
    if code == "ArrowLeft" then Some(MoveCaret(Backward, Character))
    else if code == "ArrowRight" then Some(MoveCaret(Forward, Character))
    else if code == "ArrowUp" then Some(MoveCaret(Backward, Line))
    else if code == "ArrowDown" then Some(MoveCaret(Forward, Line))
    else None
  }

  /** Codes the click handler treats before looking at the key's type. */
  predicate IsSpecialCode(v: Version, code: string) {
    || IsToggleCode(code) || code == "Backspace" || code == "Tab" || code == "Enter"
    || ArrowMove(code).Some? || (v == Legacy && code == "Space")
  }

  /**
   * The on-screen key handler.  Toggles flip their flag; Backspace, Tab,
   * Enter and the arrows map to editor actions; the legacy version sends
   * Space as a plain space; other modifier and action keys do nothing; every
   * other key is resolved from the shared state, and a non-empty result is
   * inserted and consumes the one-shot Shift and AltGr.
   */
  function VirtualPress(v: Version, s: KeyboardState, k: KeyData): VirtualResult {
    if IsToggleCode(k.code) then VirtualResult(VirtualToggle(s, k.code), NoAction)
    else if k.code == "Backspace" then VirtualResult(s, DeleteBackward)
    else if v == Legacy && k.code == "Space" then VirtualResult(s, InsertText(" "))
    else if k.code == "Tab" then VirtualResult(s, InsertText("\t"))
    else if k.code == "Enter" then VirtualResult(s, InsertParagraph)
    else if ArrowMove(k.code).Some? then VirtualResult(s, ArrowMove(k.code).value)
    else if k.keyType == Some(Modifier) || k.keyType == Some(Action) then VirtualResult(s, NoAction)
    else
      var text := Resolve(k, s.isShift, s.isCaps, s.isRightAlt);
      if text != "" then VirtualResult(ConsumeOneShot(s), InsertText(text))
      else VirtualResult(s, NoAction)
  }

  /**
   * The split up/down key of the on-screen keyboard sends the ArrowUpDown
   * entry with its code replaced by "ArrowUp" or "ArrowDown".
   */
  function SplitArrowKey(up: bool): KeyData {
    var k := ROW_BOTTOM[8];
    k.(code := if up then "ArrowUp" else "ArrowDown")
  }

  // ---------------------------------------------------------------------
  // Level choice
  // ---------------------------------------------------------------------

  /** The number-row exception is exactly row 1's character keys after Backquote. */
  lemma NumberRowIsDigitRow()
    ensures NUMBER_ROW_CODES == Codes(ROW_NUMBERS)[1..13]
    ensures forall i :: 1 <= i < 13 ==> ROW_NUMBERS[i].keyType == None
  {
    var codes := Codes(ROW_NUMBERS);
    forall i | 0 <= i < 12 ensures codes[1..13][i] == NUMBER_ROW_CODES[i] {
      assert codes[1..13][i] == ROW_NUMBERS[i + 1].code;
    }
  }

  /**
   * Shift selects the Shift level whatever AltGr and CapsLock say; CapsLock
   * alone selects it exactly off the number row; AltGr is used only when
   * neither applies.
   */
  lemma LevelPrecedence(code: string, caps: bool, altGr: bool)
    ensures ChooseLevel(code, true, caps, altGr) == Shifted
    ensures ChooseLevel(code, false, true, altGr) == Shifted <==> !IsNumberRow(code)
    ensures ChooseLevel(code, false, caps, altGr) == AltGr <==> altGr && !(caps && !IsNumberRow(code))
  {
  }

  /** Digit5 of the table. */
  lemma LookupDigit5()
    ensures Lookup("Digit5") == Some(ROW_NUMBERS[5])
  {
    var k := ROW_NUMBERS[5];
    assert k.code == "Digit5";
    InAllKeys(k);
    LookupLossless(k);
  }

  /** KeyA of the table. */
  lemma LookupKeyA()
    ensures Lookup("KeyA") == Some(ROW_HOME[1])
  {
    var k := ROW_HOME[1];
    assert k.code == "KeyA";
    InAllKeys(k);
    LookupLossless(k);
  }

  /** KeyE of the table. */
  lemma LookupKeyE()
    ensures Lookup("KeyE") == Some(ROW_QWERTY[3])
  {
    var k := ROW_QWERTY[3];
    assert k.code == "KeyE";
    InAllKeys(k);
    LookupLossless(k);
  }

  /** CapsLock alone on Digit5 gives the base digit U+17E5, not "%". */
  lemma CapsLockSparesDigits()
    ensures Lookup("Digit5").Some? && Resolve(Lookup("Digit5").value, false, true, false) == "\U{17E5}"
  {
    var k := ROW_NUMBERS[5];
    assert k.code == "Digit5" && IsNumberRow(k.code) && k.km == "\U{17E5}";
    LookupDigit5();
  }

  /** CapsLock alone on KeyA gives its Shift level U+17B6 U+17C6. */
  lemma CapsLockShiftsLetters()
    ensures Lookup("KeyA").Some? && Resolve(Lookup("KeyA").value, false, true, false) == "\U{17B6}\U{17C6}"
  {
    var k := ROW_HOME[1];
    assert k.code == "KeyA" && !IsNumberRow(k.code) && k.kmShift == "\U{17B6}\U{17C6}";
    LookupKeyA();
  }

  /** Shift with AltGr on KeyE gives its Shift level U+17C2, not its AltGr level. */
  lemma ShiftOverridesAltGr()
    ensures Lookup("KeyE").Some? && Resolve(Lookup("KeyE").value, true, false, true) == "\U{17C2}"
  {
    var k := ROW_QWERTY[3];
    assert k.code == "KeyE" && k.kmShift == "\U{17C2}";
    LookupKeyE();
  }

  /** In this table the typing keys are exactly the keys that are not action or modifier keys. */
  lemma TypingKeysAreNonControlKeys(k: KeyData)
    requires k in AllKeys()
    ensures IsTypingKey(k) <==> !IsControlKey(k)
  {
    LayoutShaped();
    assert WellShaped(k);
  }

  // ---------------------------------------------------------------------
  // Physical key-down
  // ---------------------------------------------------------------------

  /**
   * A physical key is taken over from the browser exactly when the layout is
   * active for its modifiers and its code names a key of the table that is
   * not an action or modifier key.  The text is then the key's resolution
   * under the event's own Shift and CapsLock flags.
   */
  lemma PhysicalInterceptCondition(v: Version, khmerMode: bool, e: KeyEvent)
    ensures PhysicalKeyDown(v, khmerMode, e).Intercept? <==>
      && LayoutActive(v, khmerMode, e)
      && e.code in Codes(AllKeys())
      && !IsControlKey(Lookup(e.code).value)
    ensures PhysicalKeyDown(v, khmerMode, e).Intercept? ==>
      PhysicalKeyDown(v, khmerMode, e).text ==
        Resolve(Lookup(e.code).value, e.shiftKey, e.capsLock, AltGrLevel(v, e))
  {
    match Lookup(e.code)
    case None =>
    case Some(k) =>
      TypingKeysAreNonControlKeys(k);
      var i :| 0 <= i < |AllKeys()| && AllKeys()[i] == k;
      assert e.code == Codes(AllKeys())[i];
  }

  /** With neither Alt nor Meta down the two versions handle a key-down alike. */
  lemma PhysicalVersionsAgree(khmerMode: bool, e: KeyEvent)
    requires !e.altKey && !e.metaKey
    ensures PhysicalKeyDown(Current, khmerMode, e) == PhysicalKeyDown(Legacy, khmerMode, e)
  {
  }

  /**
   * Meta selects the AltGr level in the current version, while the legacy
   * version leaves a Meta chord to the browser: Meta+E gives U+17AF in one
   * and passes through in the other.
   */
  lemma MetaSelectsAltGrOnlyInCurrent()
    ensures var e := KeyEvent("KeyE", "e", false, false, false, true, false, false);
      && PhysicalKeyDown(Current, true, e) == Intercept("\U{17AF}")
      && PhysicalKeyDown(Legacy, true, e) == PassThrough
  {
    var e := KeyEvent("KeyE", "e", false, false, false, true, false, false);
    var k := ROW_QWERTY[3];
    assert k.code == "KeyE" && IsTypingKey(k) && !IsNumberRow(k.code) && k.kmAlt == Some("\U{17AF}");
    assert Resolve(k, false, false, true) == "\U{17AF}";
    LookupKeyE();
    assert PhysicalKeyDown(Current, true, e) == Intercept(Resolve(k, false, false, true));
  }

  /** The layout path never takes an action or modifier key of the table over. */
  lemma ControlKeysPassThrough(v: Version, khmerMode: bool, e: KeyEvent)
    requires e.code in Codes(AllKeys()) && IsControlKey(Lookup(e.code).value)
    ensures PhysicalKeyDown(v, khmerMode, e) == PassThrough
  {
    PhysicalInterceptCondition(v, khmerMode, e);
  }

  /** Backspace of the table. */
  lemma LookupBackspace()
    ensures Lookup("Backspace") == Some(ROW_NUMBERS[13])
  {
    InAllKeys(ROW_NUMBERS[13]);
    LookupLossless(ROW_NUMBERS[13]);
  }

  /**
   * The layout path never takes a physical Backspace over.  In the current
   * version, unless AltGr, Alt, Meta or Ctrl is down, the placeholder handler
   * runs first, and when it removes a span it cancels the browser's own
   * deletion.  The legacy version has no such handler.
   */
  lemma PhysicalBackspace(v: Version, khmerMode: bool, e: KeyEvent)
    requires e.code == "Backspace" && e.key == "Backspace"
    ensures PhysicalKeyDown(v, khmerMode, e) == PassThrough
    ensures TriesPlaceholderBackspace(v, e) <==>
      v == Current && !e.altGraph && !e.altKey && !e.metaKey && !e.ctrlKey
  {
    var k := ROW_NUMBERS[13];
    assert k.code == "Backspace" && k.keyType == Some(Action);
    LookupBackspace();
  }

  // ---------------------------------------------------------------------
  // On-screen keyboard
  // ---------------------------------------------------------------------

  /**
   * ShiftLeft, ShiftRight, AltRight and CapsLock flip exactly their own flag
   * and insert nothing.
   */
  lemma VirtualTogglesInsertNothing(v: Version, s: KeyboardState, k: KeyData)
    requires IsToggleCode(k.code)
    ensures VirtualPress(v, s, k).action == NoAction
    ensures var t := VirtualPress(v, s, k).next;
      && t.activeKeys == s.activeKeys
      && (t.isShift != s.isShift <==> IsShiftCode(k.code))
      && (t.isRightAlt != s.isRightAlt <==> k.code == "AltRight")
      && (t.isCaps != s.isCaps <==> k.code == "CapsLock")
  {
    VirtualToggleFlipsOwnFlag(s, k.code);
  }

  /**
   * Backspace deletes, Tab inserts a tab, Enter inserts a paragraph and the
   * arrows move the caret (left/right by character, up/down by line); none
   * of them changes the keyboard state.
   */
  lemma VirtualEditingKeys(v: Version, s: KeyboardState, k: KeyData)
    ensures k.code == "Backspace" ==> VirtualPress(v, s, k) == VirtualResult(s, DeleteBackward)
    ensures k.code == "Tab" ==> VirtualPress(v, s, k) == VirtualResult(s, InsertText("\t"))
    ensures k.code == "Enter" ==> VirtualPress(v, s, k) == VirtualResult(s, InsertParagraph)
    ensures k.code == "ArrowLeft" ==> VirtualPress(v, s, k) == VirtualResult(s, MoveCaret(Backward, Character))
    ensures k.code == "ArrowRight" ==> VirtualPress(v, s, k) == VirtualResult(s, MoveCaret(Forward, Character))
    ensures k.code == "ArrowUp" ==> VirtualPress(v, s, k) == VirtualResult(s, MoveCaret(Backward, Line))
    ensures k.code == "ArrowDown" ==> VirtualPress(v, s, k) == VirtualResult(s, MoveCaret(Forward, Line))
  {
  }

  /** The two halves of the split arrow key move the caret by a line. */
  lemma SplitArrowKeyMovesByLine(v: Version, s: KeyboardState)
    ensures VirtualPress(v, s, SplitArrowKey(true)).action == MoveCaret(Backward, Line)
    ensures VirtualPress(v, s, SplitArrowKey(false)).action == MoveCaret(Forward, Line)
  {
  }

  /**
   * The other modifier and action keys of the table (Ctrl, Fn, Win, Alt,
   * the unsplit arrow entry) do nothing at all.
   */
  lemma OtherControlKeysDoNothing(v: Version, s: KeyboardState, k: KeyData)
    requires IsControlKey(k) && !IsSpecialCode(v, k.code)
    ensures VirtualPress(v, s, k) == VirtualResult(s, NoAction)
  {
  }

  /**
   * A character key either inserts a non-empty text, after which Shift and
   * AltGr are off and CapsLock and the held keys are unchanged, or (when the
   * chosen level is empty) does nothing and leaves the state unchanged.
   */
  lemma VirtualCharacterOneShot(v: Version, s: KeyboardState, k: KeyData)
    requires !IsControlKey(k) && !IsSpecialCode(v, k.code)
    ensures var r := VirtualPress(v, s, k);
      || (r.action == InsertText(Resolve(k, s.isShift, s.isCaps, s.isRightAlt))
          && r.action.text != ""
          && !r.next.isShift && !r.next.isRightAlt
          && r.next.isCaps == s.isCaps && r.next.activeKeys == s.activeKeys)
      || (Resolve(k, s.isShift, s.isCaps, s.isRightAlt) == "" && r == VirtualResult(s, NoAction))
  {
    OneShotCleared(s);
  }

  /**
   * Space: the legacy version always inserts a plain " " and never consults
   * the layout or consumes the one-shot modifiers; the current version goes
   * through the layout, giving the invisible marker at the base level, " "
   * under Shift or CapsLock, and nothing under AltGr alone.
   */
  lemma VirtualSpace(s: KeyboardState)
    ensures VirtualPress(Legacy, s, ROW_BOTTOM[4]) == VirtualResult(s, InsertText(" "))
    ensures !s.isShift && !s.isCaps && !s.isRightAlt ==>
      VirtualPress(Current, s, ROW_BOTTOM[4]) == VirtualResult(s, InsertText([ZWSP]))
    ensures s.isShift || s.isCaps ==>
      VirtualPress(Current, s, ROW_BOTTOM[4]) == VirtualResult(ConsumeOneShot(s), InsertText(" "))
    ensures !s.isShift && !s.isCaps && s.isRightAlt ==>
      VirtualPress(Current, s, ROW_BOTTOM[4]) == VirtualResult(s, NoAction)
  {
  }

  /**
   * Clicking the on-screen Shift and then KeyA inserts the Shift level of
   * KeyA and leaves Shift off again.
   */
  lemma OneShotShiftScenario(v: Version)
    ensures var afterShift := VirtualPress(v, INITIAL_STATE, ROW_SHIFT[0]).next;
      var r := VirtualPress(v, afterShift, ROW_HOME[1]);
      afterShift.isShift && r.action == InsertText("\U{17B6}\U{17C6}") && !r.next.isShift
  {
  }

  /**
   * A character click consumes Shift even while a physical Shift key is
   * still held: the on-screen path does not distinguish a held Shift from a
   * toggled one.
   */
  lemma VirtualPressConsumesHeldShift(v: Version)
    ensures var shiftDown := KeyEvent("ShiftLeft", "Shift", true, false, false, false, false, false);
      var held := KeyDown(v, INITIAL_STATE, shiftDown);
      held.isShift && "ShiftLeft" in held.activeKeys
      && !VirtualPress(v, held, ROW_HOME[1]).next.isShift
      && "ShiftLeft" in VirtualPress(v, held, ROW_HOME[1]).next.activeKeys
  {
  }

  /**
   * Given the same flags, a table key resolves to the same text from the
   * physical keyboard (current version, Khmer mode, no Ctrl) as from the
   * on-screen keyboard.
   */
  lemma PhysicalAndVirtualAgree(s: KeyboardState, e: KeyEvent, k: KeyData)
    requires k in AllKeys() && e.code == k.code && !IsControlKey(k)
    requires !e.ctrlKey
    requires s.isShift == e.shiftKey && s.isCaps == e.capsLock && s.isRightAlt == AltGrLevel(Current, e)
    requires !IsSpecialCode(Current, k.code)
    ensures var text := Resolve(k, s.isShift, s.isCaps, s.isRightAlt);
      && PhysicalKeyDown(Current, true, e) == Intercept(text)
      && (text != "" ==> VirtualPress(Current, s, k).action == InsertText(text))
  {
    LookupLossless(k);
    TypingKeysAreNonControlKeys(k);
  }
}
