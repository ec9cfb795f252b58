/**
 * The keyboard state over a stream of events: physical key-downs and
 * key-ups and clicks on the on-screen keyboard all update the one shared
 * state, in the order they arrive.
 */
module InputTrace {
  import opened Wrappers
  import opened Layout
  import opened KeyboardStates
  import opened Resolver

  datatype InputEvent =
    | PhysicalDown(e: KeyEvent)
    | PhysicalUp(e: KeyEvent)
    | Click(key: KeyData)

  /** The state after one event. */
  function Step(v: Version, s: KeyboardState, ev: InputEvent): KeyboardState {
    match ev
    case PhysicalDown(e) => KeyDown(v, s, e)
    case PhysicalUp(e) => KeyUp(v, s, e)
    case Click(k) => VirtualPress(v, s, k).next
  }

  /** The state after a whole stream. */
  function Run(v: Version, s: KeyboardState, evs: seq<InputEvent>): KeyboardState
    decreases |evs|
  {
    if evs == [] then s else Run(v, Step(v, s, evs[0]), evs[1..])
  }

  /**
   * The text the handlers insert for one event met in state `s`: an
   * intercepted key-down's text or a click's inserted text.  None when the
   * event is left to the browser or inserts nothing.
   */
  function Inserted(v: Version, khmerMode: bool, s: KeyboardState, ev: InputEvent): Option<string> {
    match ev
    case PhysicalDown(e) =>
      (match PhysicalKeyDown(v, khmerMode, e)
       case Intercept(t) => Some(t)
       case PassThrough => None)
    case PhysicalUp(_) => None
    case Click(k) =>
      (match VirtualPress(v, s, k).action
       case InsertText(t) => Some(t)
       case _ => None)
  }

  /** The inserted text of every event of a stream, each in the state reached before it. */
  function Texts(v: Version, khmerMode: bool, s: KeyboardState, evs: seq<InputEvent>): (r: seq<Option<string>>)
    ensures |r| == |evs|
    decreases |evs|
  {
    if evs == [] then [] else [Inserted(v, khmerMode, s, evs[0])] + Texts(v, khmerMode, Step(v, s, evs[0]), evs[1..])
  }

  /** Events that may change CapsLock: a CapsLock release or a CapsLock click. */
  predicate TouchesCaps(ev: InputEvent) {
    match ev
    case PhysicalDown(_) => false
    case PhysicalUp(e) => e.code == "CapsLock"
    case Click(k) => k.code == "CapsLock"
  }

  /** Events that may set AltGr: a key-down reporting it, or an AltRight click. */
  predicate MaySetAltGr(v: Version, ev: InputEvent) {
    match ev
    case PhysicalDown(e) => AltGrReported(v, e)
    case PhysicalUp(_) => false
    case Click(k) => k.code == "AltRight"
  }

  /** The codes of the physical key-downs of a stream. */
  function PressedCodes(evs: seq<InputEvent>): set<string>
    decreases |evs|
  {
    if evs == [] then {}
    else (if evs[0].PhysicalDown? then {evs[0].e.code} else {}) + PressedCodes(evs[1..])
  }

  /** CapsLock changes only on a CapsLock release or a CapsLock click. */
  lemma {:induction false} CapsOnlyByCapsLock(v: Version, s: KeyboardState, evs: seq<InputEvent>)
    requires forall i :: 0 <= i < |evs| ==> !TouchesCaps(evs[i])
    ensures Run(v, s, evs).isCaps == s.isCaps
    decreases |evs|
  {
    if evs != [] {
      assert !TouchesCaps(evs[0]);
      if evs[0].Click? {
        var k := evs[0].key;
        if IsToggleCode(k.code) {
          VirtualToggleFlipsOwnFlag(s, k.code);
        } else {
          OneShotCleared(s);
        }
      }
      CapsOnlyByCapsLock(v, Step(v, s, evs[0]), evs[1..]);
    }
  }

  /** AltGr is never latched unless some event reports it or clicks AltRight. */
  lemma {:induction false} AltGrOnlyWhenReported(v: Version, s: KeyboardState, evs: seq<InputEvent>)
    requires !s.isRightAlt
    requires forall i :: 0 <= i < |evs| ==> !MaySetAltGr(v, evs[i])
    ensures !Run(v, s, evs).isRightAlt
    decreases |evs|
  {
    if evs != [] {
      assert !MaySetAltGr(v, evs[0]);
      var t := Step(v, s, evs[0]);
      if evs[0].Click? {
        var k := evs[0].key;
        if IsToggleCode(k.code) {
          VirtualToggleFlipsOwnFlag(s, k.code);
        } else {
          OneShotCleared(s);
        }
      }
      assert !t.isRightAlt;
      AltGrOnlyWhenReported(v, t, evs[1..]);
    }
  }

  /** Only physical key-downs add held keys; clicks never change them. */
  lemma {:induction false} HeldKeysComeFromPresses(v: Version, s: KeyboardState, evs: seq<InputEvent>)
    ensures Run(v, s, evs).activeKeys <= s.activeKeys + PressedCodes(evs)
    decreases |evs|
  {
    if evs != [] {
      var t := Step(v, s, evs[0]);
      if evs[0].Click? {
        var k := evs[0].key;
        if IsToggleCode(k.code) {
          VirtualToggleFlipsOwnFlag(s, k.code);
        } else {
          OneShotCleared(s);
        }
      }
      assert t.activeKeys <= s.activeKeys + (if evs[0].PhysicalDown? then {evs[0].e.code} else {});
      HeldKeysComeFromPresses(v, t, evs[1..]);
    }
  }

  /**
   * Pressing physical Shift and clicking a character key leaves Shift off,
   * though the Shift key is still held.
   */
  lemma HeldShiftLostAfterClick(v: Version)
    ensures var shiftDown := KeyEvent("ShiftLeft", "Shift", true, false, false, false, false, false);
      var t := Run(v, INITIAL_STATE, [PhysicalDown(shiftDown), Click(ROW_HOME[1])]);
      !t.isShift && "ShiftLeft" in t.activeKeys
  {
    var shiftDown := KeyEvent("ShiftLeft", "Shift", true, false, false, false, false, false);
    var evs := [PhysicalDown(shiftDown), Click(ROW_HOME[1])];
    VirtualPressConsumesHeldShift(v);
    var s1 := KeyDown(v, INITIAL_STATE, shiftDown);
    var s2 := VirtualPress(v, s1, ROW_HOME[1]).next;
    assert evs[1..] == [Click(ROW_HOME[1])];
    assert [Click(ROW_HOME[1])][1..] == [];
    assert Run(v, s1, [Click(ROW_HOME[1])]) == Run(v, s2, []) == s2;
    assert Run(v, INITIAL_STATE, evs) == Run(v, s1, evs[1..]);
  }

  /**
   * The text of the last event of a stream is what that event inserts in
   * the state the rest of the stream leads to.
   */
  lemma {:induction false} LastText(v: Version, khmerMode: bool, s: KeyboardState, pre: seq<InputEvent>, ev: InputEvent)
    ensures Texts(v, khmerMode, s, pre + [ev])[|pre|] == Inserted(v, khmerMode, Run(v, s, pre), ev)
    decreases |pre|
  {
    if pre == [] {
      assert pre + [ev] == [ev];
    } else {
      assert (pre + [ev])[1..] == pre[1..] + [ev];
      LastText(v, khmerMode, Step(v, s, pre[0]), pre[1..], ev);
    }
  }

  /**
   * A physical key-down inserts the same text whatever came before it: no
   * earlier key-down, key-up or click, and no state it started from, changes
   * it.  The physical handler reads the event's own flags only.
   */
  lemma PhysicalTextIgnoresHistory(v: Version, khmerMode: bool, e: KeyEvent,
                                   s: KeyboardState, pre: seq<InputEvent>,
                                   s': KeyboardState, pre': seq<InputEvent>)
    ensures Texts(v, khmerMode, s, pre + [PhysicalDown(e)])[|pre|]
         == Texts(v, khmerMode, s', pre' + [PhysicalDown(e)])[|pre'|]
  {
    LastText(v, khmerMode, s, pre, PhysicalDown(e));
    LastText(v, khmerMode, s', pre', PhysicalDown(e));
  }

  /**
   * After a click on the on-screen Shift, clicking KeyA inserts its Shift
   * level, while pressing the physical KeyA without Shift still inserts its
   * base level.
   */
  lemma OnScreenShiftSparesPhysicalKeys(v: Version)
    ensures var keyA := KeyEvent("KeyA", "a", false, false, false, false, false, false);
      && Texts(v, true, INITIAL_STATE, [Click(ROW_SHIFT[0]), PhysicalDown(keyA)])[1] == Some("\U{17B6}")
      && Texts(v, true, INITIAL_STATE, [Click(ROW_SHIFT[0]), Click(ROW_HOME[1])])[1] == Some("\U{17B6}\U{17C6}")
  {
    var keyA := KeyEvent("KeyA", "a", false, false, false, false, false, false);
    var k := ROW_HOME[1];
    assert k.code == "KeyA" && IsTypingKey(k) && !IsNumberRow(k.code) && k.km == "\U{17B6}";
    LookupKeyA();
    assert PhysicalKeyDown(v, true, keyA) == Intercept("\U{17B6}");
    LastText(v, true, INITIAL_STATE, [Click(ROW_SHIFT[0])], PhysicalDown(keyA));
    LastText(v, true, INITIAL_STATE, [Click(ROW_SHIFT[0])], Click(k));
    OneShotShiftScenario(v);
    assert [Click(ROW_SHIFT[0])][1..] == [];
    assert Run(v, INITIAL_STATE, [Click(ROW_SHIFT[0])]) == VirtualPress(v, INITIAL_STATE, ROW_SHIFT[0]).next;
  }
}
