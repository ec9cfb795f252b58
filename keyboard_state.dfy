/**
 * The modifier state shared by the physical keyboard and the on-screen
 * keyboard, and the updaters the key handlers pass to `setKeyboardState`.
 * Every updater is a pure function from the previous state (and the event)
 * to the next state.
 *
 * Two versions of the application component are modelled side by side:
 * `Current` (src/App.tsx) and `Legacy` (the older App.tsx at the root).
 * They differ in how the physical handlers detect AltGr.
 */
module KeyboardStates {

  /** Which version of the application component handles the event. */
  datatype Version = Current | Legacy

  /** `KeyboardState`: the three modifier flags and the codes held down. */
  datatype KeyboardState = KeyboardState(
    isShift: bool,
    isRightAlt: bool,
    isCaps: bool,
    activeKeys: set<string>)

  /** The state a session starts in. */
  const INITIAL_STATE: KeyboardState := KeyboardState(false, false, false, {})

  /**
   * What a browser keyboard event reports: its `code` and `key`, the four
   * modifier booleans, and `getModifierState("AltGraph")` and
   * `getModifierState("CapsLock")`.
   */
  datatype KeyEvent = KeyEvent(
    code: string,
    key: string,
    shiftKey: bool,
    ctrlKey: bool,
    altKey: bool,
    metaKey: bool,
    altGraph: bool,
    capsLock: bool)

  predicate IsShiftCode(code: string) {
    code == "ShiftLeft" || code == "ShiftRight"
  }

  /**
   * Whether a physical handler treats the event as AltGr.  The current
   * version accepts either the AltGraph modifier state or the Alt key; the
   * legacy version accepts only the AltGraph modifier state.
   */
  predicate AltGrReported(v: Version, e: KeyEvent) {
    match v
    case Current => e.altGraph || e.altKey
    case Legacy => e.altGraph
  }

  /**
   * The key-down updater: add the code to the held keys, set Shift on a Shift
   * key, and on AltGr set `isRightAlt` and drop "ControlLeft" (platforms that
   * synthesise AltGr as Ctrl+Alt would otherwise show a phantom Ctrl).
   */
  function KeyDown(v: Version, prev: KeyboardState, e: KeyEvent): KeyboardState {
    var added := prev.activeKeys + {e.code};
    var active := if AltGrReported(v, e) then added - {"ControlLeft"} else added;
    var shift := if IsShiftCode(e.code) then true else prev.isShift;
    var rightAlt := if AltGrReported(v, e) then true else prev.isRightAlt;
    prev.(activeKeys := active, isShift := shift, isRightAlt := rightAlt)
  }

  /**
   * The key-up handler: a CapsLock release first copies the platform's
   * CapsLock flag into `isCaps`; then the code is dropped from the held keys,
   * Shift is cleared on a Shift release, and `isRightAlt` is cleared whenever
   * AltGr is no longer reported.
   */
  function KeyUp(v: Version, prev: KeyboardState, e: KeyEvent): KeyboardState {
    var synced := if e.code == "CapsLock" then prev.(isCaps := e.capsLock) else prev;
    var shift := if IsShiftCode(e.code) then false else synced.isShift;
    var rightAlt := if !AltGrReported(v, e) then false else synced.isRightAlt;
    synced.(activeKeys := synced.activeKeys - {e.code}, isShift := shift, isRightAlt := rightAlt)
  }

  /**
   * The on-screen keyboard's modifier keys are toggles: Shift (either side),
   * AltRight and CapsLock each flip their own flag.  Any other code leaves
   * the state alone.
   */
  function VirtualToggle(prev: KeyboardState, code: string): KeyboardState {
    if IsShiftCode(code) then prev.(isShift := !prev.isShift)
    else if code == "AltRight" then prev.(isRightAlt := !prev.isRightAlt)
    else if code == "CapsLock" then prev.(isCaps := !prev.isCaps)
    else prev
  }

  /** Whether `code` is one of the on-screen toggle keys. */
  predicate IsToggleCode(code: string) {
    IsShiftCode(code) || code == "AltRight" || code == "CapsLock"
  }

  /**
   * After the on-screen keyboard inserts a character, the Shift and AltGr
   * toggles are one-shot: each updater is queued only when its flag was set
   * at the time of the press.
   */
  function ConsumeOneShot(prev: KeyboardState): KeyboardState {
    var afterShift := if prev.isShift then prev.(isShift := false) else prev;
    if prev.isRightAlt then afterShift.(isRightAlt := false) else afterShift
  }

  // ---------------------------------------------------------------------
  // Key-down
  // ---------------------------------------------------------------------

  /**
   * Key-down holds the pressed code (unless it is ControlLeft under AltGr),
   * keeps every previously held key except ControlLeft under AltGr, and adds
   * nothing else.
   */
  lemma KeyDownActiveKeys(v: Version, prev: KeyboardState, e: KeyEvent)
    ensures var next := KeyDown(v, prev, e);
      && (e.code in next.activeKeys <==> !(AltGrReported(v, e) && e.code == "ControlLeft"))
      && next.activeKeys <= prev.activeKeys + {e.code}
      && (forall c :: c in prev.activeKeys && !(AltGrReported(v, e) && c == "ControlLeft") ==> c in next.activeKeys)
  {
  }

  /**
   * Under AltGr, key-down sets `isRightAlt` and removes "ControlLeft" from
   * the held keys, even when ControlLeft was held before this event.
   */
  lemma AltGrDropsControlLeft(v: Version, prev: KeyboardState, e: KeyEvent)
    requires AltGrReported(v, e)
    ensures KeyDown(v, prev, e).isRightAlt
    ensures "ControlLeft" !in KeyDown(v, prev, e).activeKeys
  {
  }

  /**
   * Key-down sets Shift exactly on a Shift key and never clears it; without
   * AltGr it leaves `isRightAlt` alone; it never touches `isCaps`.
   */
  lemma KeyDownFlags(v: Version, prev: KeyboardState, e: KeyEvent)
    ensures KeyDown(v, prev, e).isShift <==> prev.isShift || IsShiftCode(e.code)
    ensures KeyDown(v, prev, e).isRightAlt <==> prev.isRightAlt || AltGrReported(v, e)
    ensures KeyDown(v, prev, e).isCaps == prev.isCaps
  {
  }

  /** A repeated key-down (keyboard auto-repeat) changes nothing further. */
  lemma KeyDownIdempotent(v: Version, s: KeyboardState, e: KeyEvent)
    ensures KeyDown(v, KeyDown(v, s, e), e) == KeyDown(v, s, e)
  {
  }

  /**
   * Two key-downs reach the same state in either order, unless one of them
   * is ControlLeft and the other reports AltGr.
   */
  lemma KeyDownsCommute(v: Version, s: KeyboardState, e1: KeyEvent, e2: KeyEvent)
    requires !(AltGrReported(v, e1) && e2.code == "ControlLeft")
    requires !(AltGrReported(v, e2) && e1.code == "ControlLeft")
    ensures KeyDown(v, KeyDown(v, s, e1), e2) == KeyDown(v, KeyDown(v, s, e2), e1)
  {
    var a := KeyDown(v, KeyDown(v, s, e1), e2);
    var b := KeyDown(v, KeyDown(v, s, e2), e1);
    assert a.activeKeys == b.activeKeys;
  }

  /**
   * The exception is real: ControlLeft pressed before an AltGr key-down is
   * dropped, pressed after it stays held.
   */
  lemma ControlLeftAltGrOrderMatters(v: Version)
    ensures var ctrl := KeyEvent("ControlLeft", "Control", false, true, false, false, false, false);
      var altGr := KeyEvent("AltRight", "AltGraph", false, true, true, false, true, false);
      && "ControlLeft" !in KeyDown(v, KeyDown(v, INITIAL_STATE, ctrl), altGr).activeKeys
      && "ControlLeft" in KeyDown(v, KeyDown(v, INITIAL_STATE, altGr), ctrl).activeKeys
  {
  }

  // ---------------------------------------------------------------------
  // Key-up
  // ---------------------------------------------------------------------

  /**
   * Key-up releases exactly the code; clears Shift only on a Shift release;
   * clears `isRightAlt` whenever AltGr is not reported (and otherwise keeps
   * it); and sets `isCaps` from the platform flag on a CapsLock release only.
   */
  lemma KeyUpEffect(v: Version, prev: KeyboardState, e: KeyEvent)
    ensures KeyUp(v, prev, e).activeKeys == prev.activeKeys - {e.code}
    ensures KeyUp(v, prev, e).isShift <==> prev.isShift && !IsShiftCode(e.code)
    ensures KeyUp(v, prev, e).isRightAlt <==> prev.isRightAlt && AltGrReported(v, e)
    ensures KeyUp(v, prev, e).isCaps == if e.code == "CapsLock" then e.capsLock else prev.isCaps
  {
  }

  /**
   * Pressing and releasing an ordinary key (not Shift, not CapsLock, not
   * ControlLeft, no AltGr) that was not already held returns to the state
   * before the press, provided AltGr was not latched.
   */
  lemma PressReleaseRoundTrip(v: Version, s: KeyboardState, down: KeyEvent, up: KeyEvent)
    requires down.code == up.code && down.code !in s.activeKeys
    requires !IsShiftCode(down.code) && down.code != "CapsLock" && down.code != "ControlLeft"
    requires !AltGrReported(v, down) && !AltGrReported(v, up) && !s.isRightAlt
    ensures KeyUp(v, KeyDown(v, s, down), up) == s
  {
    assert KeyUp(v, KeyDown(v, s, down), up).activeKeys == s.activeKeys;
  }

  /**
   * A physically held Shift stays set across key-downs and key-ups of any
   * other key; only releasing a Shift key clears it.
   */
  lemma PhysicalShiftHeld(v: Version, s: KeyboardState, e: KeyEvent)
    requires s.isShift && !IsShiftCode(e.code)
    ensures KeyDown(v, s, e).isShift && KeyUp(v, s, e).isShift
  {
  }

  /**
   * The two versions release AltGr differently: an Alt key-up that still
   * reports `altKey` but not AltGraph keeps `isRightAlt` in the current
   * version and clears it in the legacy one.
   */
  lemma AltKeyUpDiffers()
    ensures var s := INITIAL_STATE.(isRightAlt := true);
      var e := KeyEvent("KeyA", "a", false, false, true, false, false, false);
      KeyUp(Current, s, e).isRightAlt && !KeyUp(Legacy, s, e).isRightAlt
  {
  }

  // ---------------------------------------------------------------------
  // On-screen toggles and one-shot modifiers
  // ---------------------------------------------------------------------

  /**
   * A toggle key flips exactly its own flag; the held keys never change; any
   * other code leaves the state unchanged.
   */
  lemma VirtualToggleFlipsOwnFlag(s: KeyboardState, code: string)
    ensures var t := VirtualToggle(s, code);
      && t.activeKeys == s.activeKeys
      && (t.isShift != s.isShift <==> IsShiftCode(code))
      && (t.isRightAlt != s.isRightAlt <==> code == "AltRight")
      && (t.isCaps != s.isCaps <==> code == "CapsLock")
  {
  }

  /** Clicking the same toggle twice restores the state. */
  lemma VirtualToggleInvolution(s: KeyboardState, code: string)
    ensures VirtualToggle(VirtualToggle(s, code), code) == s
  {
  }

  /**
   * After a character from the on-screen keyboard, Shift and AltGr are off,
   * while CapsLock and the held keys are unchanged.
   */
  lemma OneShotCleared(s: KeyboardState)
    ensures !ConsumeOneShot(s).isShift && !ConsumeOneShot(s).isRightAlt
    ensures ConsumeOneShot(s).isCaps == s.isCaps && ConsumeOneShot(s).activeKeys == s.activeKeys
  {
  }
}
