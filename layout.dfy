/**
 * The static on-screen keyboard table: five rows of keys, each key carrying its
 * physical code, the English pair, the three Khmer levels (base, Shift, AltGr),
 * an optional classification and a grid width.  The application flattens the rows
 * into a code -> key map once and consults it on every key event.
 */
module Layout {
  import opened Wrappers

  /** The `type` of a key; a key without one is an ordinary character key. */
  datatype KeyType = Char | Modifier | Action | Spacer

  /**
   * One entry of the table.  `kmAlt` is optional in the source; `keyType` is
   * optional too.  The display label and icon are presentation only and not kept.
   */
  datatype KeyData = KeyData(
    code: string,
    en: string,
    enShift: string,
    km: string,
    kmShift: string,
    kmAlt: Option<string>,
    keyType: Option<KeyType>,
    width: nat)

  /** Number of columns of the grid every row fills. */
  const GRID_COLUMNS: nat := 30

  /** Row 1: the number row (13 keys of width 2 and Backspace of width 4). */
  const ROW_NUMBERS: seq<KeyData> := [
    KeyData("Backquote", "`", "~", "\U{00AB}", "\U{00BB}", Some("\U{200D}"), None, 2),
    KeyData("Digit1", "1", "!", "\U{17E1}", "!", Some("\U{200C}"), None, 2),
    KeyData("Digit2", "2", "@", "\U{17E2}", "\U{17D7}", Some("@"), None, 2),
    KeyData("Digit3", "3", "#", "\U{17E3}", "\"", Some("\U{17D1}"), None, 2),
    KeyData("Digit4", "4", "$", "\U{17E4}", "\U{17DB}", Some("$"), None, 2),
    KeyData("Digit5", "5", "%", "\U{17E5}", "%", Some("\U{20AC}"), None, 2),
    KeyData("Digit6", "6", "^", "\U{17E6}", "\U{17CD}", Some("\U{17D9}"), None, 2),
    KeyData("Digit7", "7", "&", "\U{17E7}", "\U{17D0}", Some("\U{17DA}"), None, 2),
    KeyData("Digit8", "8", "*", "\U{17E8}", "\U{17CF}", Some("*"), None, 2),
    KeyData("Digit9", "9", "(", "\U{17E9}", "(", Some("{"), None, 2),
    KeyData("Digit0", "0", ")", "\U{17E0}", ")", Some("}"), None, 2),
    KeyData("Minus", "-", "_", "\U{17A5}", "\U{17CC}", Some("\U{00D7}"), None, 2),
    KeyData("Equal", "=", "+", "\U{17B2}", "=", Some("\U{17CE}"), None, 2),
    KeyData("Backspace", "", "", "", "", None, Some(Action), 4)
  ]

  /** Row 2: Tab, the twelve QWERTY keys and Backslash. */
  const ROW_QWERTY: seq<KeyData> := [
    KeyData("Tab", "", "", "", "", None, Some(Action), 3),
    KeyData("KeyQ", "Q", "Q", "\U{1786}", "\U{1788}", None, None, 2),
    KeyData("KeyW", "W", "W", "\U{17B9}", "\U{17BA}", None, None, 2),
    KeyData("KeyE", "E", "E", "\U{17C1}", "\U{17C2}", Some("\U{17AF}"), None, 2),
    KeyData("KeyR", "R", "R", "\U{179A}", "\U{17AC}", Some("\U{17AB}"), None, 2),
    KeyData("KeyT", "T", "T", "\U{178F}", "\U{1791}", None, None, 2),
    KeyData("KeyY", "Y", "Y", "\U{1799}", "\U{17BD}", None, None, 2),
    KeyData("KeyU", "U", "U", "\U{17BB}", "\U{17BC}", None, None, 2),
    KeyData("KeyI", "I", "I", "\U{17B7}", "\U{17B8}", Some("\U{17A6}"), None, 2),
    KeyData("KeyO", "O", "O", "\U{17C4}", "\U{17C5}", Some("\U{17B1}"), None, 2),
    KeyData("KeyP", "P", "P", "\U{1795}", "\U{1797}", Some("\U{17B0}"), None, 2),
    KeyData("BracketLeft", "[", "{", "\U{17C0}", "\U{17BF}", Some("\U{17A9}"), None, 2),
    KeyData("BracketRight", "]", "}", "\U{17AA}", "\U{17A7}", Some("\U{17B3}"), None, 2),
    KeyData("Backslash", "\\", "|", "\U{17AE}", "\U{17AD}", Some("\\"), None, 3)
  ]

  /** Row 3: Caps Lock, the home row and Enter. */
  const ROW_HOME: seq<KeyData> := [
    KeyData("CapsLock", "", "", "", "", None, Some(Action), 4),
    KeyData("KeyA", "A", "A", "\U{17B6}", "\U{17B6}\U{17C6}", None, None, 2),
    KeyData("KeyS", "S", "S", "\U{179F}", "\U{17C3}", None, None, 2),
    KeyData("KeyD", "D", "D", "\U{178A}", "\U{178C}", None, None, 2),
    KeyData("KeyF", "F", "F", "\U{1790}", "\U{1792}", None, None, 2),
    KeyData("KeyG", "G", "G", "\U{1784}", "\U{17A2}", None, None, 2),
    KeyData("KeyH", "H", "H", "\U{17A0}", "\U{17C7}", None, None, 2),
    KeyData("KeyJ", "J", "J", "\U{17D2}", "\U{1789}", None, None, 2),
    KeyData("KeyK", "K", "K", "\U{1780}", "\U{1782}", None, None, 2),
    KeyData("KeyL", "L", "L", "\U{179B}", "\U{17A1}", None, None, 2),
    KeyData("Semicolon", ";", ":", "\U{17BE}", "\U{17C4}\U{17C7}", Some("\U{17D6}"), None, 2),
    KeyData("Quote", "'", "\"", "\U{17CB}", "\U{17C9}", Some("\U{17C8}"), None, 2),
    KeyData("Enter", "", "", "", "", None, Some(Action), 4)
  ]

  /** Row 4: the two Shift keys around the bottom letter row. */
  const ROW_SHIFT: seq<KeyData> := [
    KeyData("ShiftLeft", "", "", "", "", None, Some(Modifier), 5),
    KeyData("KeyZ", "Z", "Z", "\U{178B}", "\U{178D}", None, None, 2),
    KeyData("KeyX", "X", "X", "\U{1781}", "\U{1783}", None, None, 2),
    KeyData("KeyC", "C", "C", "\U{1785}", "\U{1787}", None, None, 2),
    KeyData("KeyV", "V", "V", "\U{179C}", "\U{17C1}\U{17C7}", None, None, 2),
    KeyData("KeyB", "B", "B", "\U{1794}", "\U{1796}", None, None, 2),
    KeyData("KeyN", "N", "N", "\U{1793}", "\U{178E}", None, None, 2),
    KeyData("KeyM", "M", "M", "\U{1798}", "\U{17C6}", None, None, 2),
    KeyData("Comma", ",", "<", "\U{17BB}\U{17C6}", "\U{17BB}\U{17C7}", Some(","), None, 2),
    KeyData("Period", ".", ">", "\U{17D4}", "\U{17D5}", Some("."), None, 2),
    KeyData("Slash", "/", "?", "\U{17CA}", "?", Some("/"), None, 2),
    KeyData("ShiftRight", "", "", "", "", None, Some(Modifier), 5)
  ]

  /** Row 5: the control keys, Space and the arrow keys. */
  const ROW_BOTTOM: seq<KeyData> := [
    KeyData("ControlLeft", "", "", "", "", None, Some(Modifier), 3),
    KeyData("Fn", "", "", "", "", None, Some(Modifier), 2),
    KeyData("MetaLeft", "", "", "", "", None, Some(Modifier), 3),
    KeyData("AltLeft", "", "", "", "", None, Some(Modifier), 3),
    KeyData("Space", " ", " ", "\U{200B}", " ", None, Some(Char), 10),
    KeyData("AltRight", "", "", "", "", None, Some(Modifier), 3),
    KeyData("ControlRight", "", "", "", "", None, Some(Modifier), 3),
    KeyData("ArrowLeft", "", "", "", "", None, Some(Action), 1),
    KeyData("ArrowUpDown", "", "", "", "", None, Some(Action), 1),
    KeyData("ArrowRight", "", "", "", "", None, Some(Action), 1)
  ]

  /** The whole table, row by row. */
  const KEYBOARD_LAYOUT: seq<seq<KeyData>> := [ROW_NUMBERS, ROW_QWERTY, ROW_HOME, ROW_SHIFT, ROW_BOTTOM]

  /** The rows laid end to end, in order, as `Array.prototype.flat` does. */
  function Flatten(rows: seq<seq<KeyData>>): (r: seq<KeyData>)
    ensures forall k :: k in r <==> exists row :: row in rows && k in row
  {
    if rows == [] then []
    else
      var rest := Flatten(rows[1..]);
      assert forall row :: row in rows <==> row == rows[0] || row in rows[1..];
      rows[0] + rest
  }

  /** Every key of the table in reading order. */
  function AllKeys(): seq<KeyData> {
    Flatten(KEYBOARD_LAYOUT)
  }

  lemma AllKeysConcat()
    ensures AllKeys() == ROW_NUMBERS + ROW_QWERTY + ROW_HOME + ROW_SHIFT + ROW_BOTTOM
  {
    var rows := KEYBOARD_LAYOUT;
    assert rows[1..][1..][1..][1..][1..] == [];
    calc {
      Flatten(rows);
      ROW_NUMBERS + Flatten(rows[1..]);
      ROW_NUMBERS + (ROW_QWERTY + Flatten(rows[1..][1..]));
      ROW_NUMBERS + (ROW_QWERTY + (ROW_HOME + Flatten(rows[1..][1..][1..])));
      ROW_NUMBERS + (ROW_QWERTY + (ROW_HOME + (ROW_SHIFT + Flatten(rows[1..][1..][1..][1..]))));
      ROW_NUMBERS + (ROW_QWERTY + (ROW_HOME + (ROW_SHIFT + (ROW_BOTTOM + Flatten(rows[1..][1..][1..][1..][1..])))));
    }
  }

  /** A key of any row is a key of the table. */
  lemma InAllKeys(k: KeyData)
    requires k in ROW_NUMBERS || k in ROW_QWERTY || k in ROW_HOME || k in ROW_SHIFT || k in ROW_BOTTOM
    ensures k in AllKeys()
  {
    AllKeysConcat();
  }

  /** The codes of `keys`, in order. */
  function Codes(keys: seq<KeyData>): (r: seq<string>)
    ensures |r| == |keys|
    ensures forall i :: 0 <= i < |keys| ==> r[i] == keys[i].code
  {
    seq(|keys|, i requires 0 <= i < |keys| => keys[i].code)
  }

  /** No string occurs twice in `s`. */
  predicate Distinct(s: seq<string>) {
    forall i, j :: 0 <= i < j < |s| ==> s[i] != s[j]
  }

  /** No string of `a` occurs in `b`. */
  predicate Disjoint(a: seq<string>, b: seq<string>) {
    forall i, j :: 0 <= i < |a| && 0 <= j < |b| ==> a[i] != b[j]
  }

  lemma CodesConcat(a: seq<KeyData>, b: seq<KeyData>)
    ensures Codes(a + b) == Codes(a) + Codes(b)
  {
    assert forall i :: 0 <= i < |a + b| ==> Codes(a + b)[i] == (Codes(a) + Codes(b))[i];
  }

  lemma DistinctConcat(a: seq<string>, b: seq<string>)
    requires Distinct(a) && Distinct(b) && Disjoint(a, b)
    ensures Distinct(a + b)
  {
    var ab := a + b;
    forall i, j | 0 <= i < j < |ab| ensures ab[i] != ab[j] {
      if j < |a| {
        assert ab[i] == a[i] && ab[j] == a[j];
      } else if i >= |a| {
        assert ab[i] == b[i - |a|] && ab[j] == b[j - |a|];
      } else {
        assert ab[i] == a[i] && ab[j] == b[j - |a|];
      }
    }
  }

  lemma DisjointConcat(a: seq<string>, b: seq<string>, c: seq<string>)
    requires Disjoint(a, c) && Disjoint(b, c)
    ensures Disjoint(a + b, c)
  {
    forall i, j | 0 <= i < |a + b| && 0 <= j < |c| ensures (a + b)[i] != c[j] {
      if i < |a| {
        assert (a + b)[i] == a[i];
      } else {
        assert (a + b)[i] == b[i - |a|];
      }
    }
  }

  // Row-by-row facts the distinctness proof is assembled from.
  lemma NumbersRowDistinct() ensures Distinct(Codes(ROW_NUMBERS)) {}
  lemma QwertyRowDistinct() ensures Distinct(Codes(ROW_QWERTY)) {}
  lemma HomeRowDistinct() ensures Distinct(Codes(ROW_HOME)) {}
  lemma ShiftRowDistinct() ensures Distinct(Codes(ROW_SHIFT)) {}
  lemma BottomRowDistinct() ensures Distinct(Codes(ROW_BOTTOM)) {}

  lemma NumbersQwertyDisjoint() ensures Disjoint(Codes(ROW_NUMBERS), Codes(ROW_QWERTY)) {}
  lemma NumbersHomeDisjoint() ensures Disjoint(Codes(ROW_NUMBERS), Codes(ROW_HOME)) {}
  lemma NumbersShiftDisjoint() ensures Disjoint(Codes(ROW_NUMBERS), Codes(ROW_SHIFT)) {}
  lemma NumbersBottomDisjoint() ensures Disjoint(Codes(ROW_NUMBERS), Codes(ROW_BOTTOM)) {}
  lemma QwertyHomeDisjoint() ensures Disjoint(Codes(ROW_QWERTY), Codes(ROW_HOME)) {}
  lemma QwertyShiftDisjoint() ensures Disjoint(Codes(ROW_QWERTY), Codes(ROW_SHIFT)) {}
  lemma QwertyBottomDisjoint() ensures Disjoint(Codes(ROW_QWERTY), Codes(ROW_BOTTOM)) {}
  lemma HomeShiftDisjoint() ensures Disjoint(Codes(ROW_HOME), Codes(ROW_SHIFT)) {}
  lemma HomeBottomDisjoint() ensures Disjoint(Codes(ROW_HOME), Codes(ROW_BOTTOM)) {}
  lemma ShiftBottomDisjoint() ensures Disjoint(Codes(ROW_SHIFT), Codes(ROW_BOTTOM)) {}

  /** Every code of the table is distinct. */
  lemma LayoutCodesDistinct()
    ensures Distinct(Codes(AllKeys()))
  {
    var c1, c2, c3 := Codes(ROW_NUMBERS), Codes(ROW_QWERTY), Codes(ROW_HOME);
    var c4, c5 := Codes(ROW_SHIFT), Codes(ROW_BOTTOM);
    AllKeysConcat();
    CodesConcat(ROW_NUMBERS, ROW_QWERTY);
    CodesConcat(ROW_NUMBERS + ROW_QWERTY, ROW_HOME);
    CodesConcat(ROW_NUMBERS + ROW_QWERTY + ROW_HOME, ROW_SHIFT);
    CodesConcat(ROW_NUMBERS + ROW_QWERTY + ROW_HOME + ROW_SHIFT, ROW_BOTTOM);
    NumbersRowDistinct();
    QwertyRowDistinct();
    HomeRowDistinct();
    ShiftRowDistinct();
    BottomRowDistinct();
    NumbersQwertyDisjoint();
    NumbersHomeDisjoint();
    NumbersShiftDisjoint();
    NumbersBottomDisjoint();
    QwertyHomeDisjoint();
    QwertyShiftDisjoint();
    QwertyBottomDisjoint();
    HomeShiftDisjoint();
    HomeBottomDisjoint();
    ShiftBottomDisjoint();
    DistinctConcat(c1, c2);
    DisjointConcat(c1, c2, c3);
    DistinctConcat(c1 + c2, c3);
    DisjointConcat(c1, c2, c4);
    DisjointConcat(c1 + c2, c3, c4);
    DistinctConcat(c1 + c2 + c3, c4);
    DisjointConcat(c1, c2, c5);
    DisjointConcat(c1 + c2, c3, c5);
    DisjointConcat(c1 + c2 + c3, c4, c5);
    DistinctConcat(c1 + c2 + c3 + c4, c5);
  }

  /**
   * The lookup map built by visiting `keys` in order and setting
   * `map[key.code] := key` for each, so a later key with the same code
   * overwrites an earlier one.
   */
  function KeyMapOf(keys: seq<KeyData>): (m: map<string, KeyData>)
    ensures forall c :: c in m <==> c in Codes(keys)
    ensures forall c :: c in m ==> m[c] in keys && m[c].code == c
  {
    if keys == [] then map[]
    else
      var init := keys[..|keys| - 1];
      var last := keys[|keys| - 1];
      var m := KeyMapOf(init);
      assert keys == init + [last];
      CodesConcat(init, [last]);
      m[last.code := last]
  }

  /**
   * When the codes are distinct no entry is overwritten: every key is found
   * again under its own code.
   */
  lemma {:induction false} KeyMapLossless(keys: seq<KeyData>)
    requires Distinct(Codes(keys))
    ensures forall i :: 0 <= i < |keys| ==> KeyMapOf(keys)[keys[i].code] == keys[i]
    ensures |KeyMapOf(keys)| == |keys|
  {
    if keys != [] {
      var n := |keys| - 1;
      var init, last := keys[..n], keys[n];
      var codes := Codes(keys);
      assert Distinct(Codes(init)) by {
        forall i, j | 0 <= i < j < |init| ensures Codes(init)[i] != Codes(init)[j] {
          assert Codes(init)[i] == codes[i] && Codes(init)[j] == codes[j];
        }
      }
      KeyMapLossless(init);
      var m := KeyMapOf(init);
      assert last.code !in m;
      assert KeyMapOf(keys) == m[last.code := last];
      forall i | 0 <= i < |keys| ensures KeyMapOf(keys)[keys[i].code] == keys[i] {
        if i < n {
          assert keys[i] == init[i];
          assert codes[i] != codes[n];
        }
      }
    }
  }

  /** The application's code -> key map. */
  function KeyMap(): map<string, KeyData> {
    KeyMapOf(AllKeys())
  }

  /** `keyMap.get(code)`: the key with that code, if the table has one. */
  function Lookup(code: string): (r: Option<KeyData>)
    ensures r.Some? ==> r.value in AllKeys() && r.value.code == code
    ensures r.None? ==> code !in Codes(AllKeys())
  {
    if code in KeyMap() then Some(KeyMap()[code]) else None
  }

  /** Looking a key of the table up by its code gives back that same key. */
  lemma LookupLossless(k: KeyData)
    requires k in AllKeys()
    ensures Lookup(k.code) == Some(k)
  {
    LayoutCodesDistinct();
    KeyMapLossless(AllKeys());
    var i :| 0 <= i < |AllKeys()| && AllKeys()[i] == k;
  }

  /** The grid widths of a row, key by key. */
  function Widths(row: seq<KeyData>): (r: seq<nat>)
    ensures |r| == |row|
    ensures forall i :: 0 <= i < |row| ==> r[i] == row[i].width
  {
    seq(|row|, i requires 0 <= i < |row| => row[i].width)
  }

  function Sum(ws: seq<nat>): nat {
    if ws == [] then 0 else ws[0] + Sum(ws[1..])
  }

  /** Number of grid columns a row occupies. */
  function RowWidth(row: seq<KeyData>): nat {
    Sum(Widths(row))
  }

  /** Row 1 is 13 keys of 2 columns and Backspace of 4. */
  lemma NumberRowWidth()
    ensures RowWidth(ROW_NUMBERS) == GRID_COLUMNS
  {
    assert Widths(ROW_NUMBERS) == [2, 2, 2, 2, 2, 2, 2, 2, 2, 2, 2, 2, 2, 4];
    NumberRowWidthSum(Widths(ROW_NUMBERS));
  }

  lemma NumberRowWidthSum(ws: seq<nat>)
    requires ws == [2, 2, 2, 2, 2, 2, 2, 2, 2, 2, 2, 2, 2, 4]
    ensures Sum(ws) == GRID_COLUMNS
  {
    assert Sum(ws[13..]) == 4;
    assert Sum(ws[12..]) == 6;
    assert Sum(ws[11..]) == 8;
    assert Sum(ws[10..]) == 10;
    assert Sum(ws[9..]) == 12;
    assert Sum(ws[8..]) == 14;
    assert Sum(ws[7..]) == 16;
    assert Sum(ws[6..]) == 18;
    assert Sum(ws[5..]) == 20;
    assert Sum(ws[4..]) == 22;
    assert Sum(ws[3..]) == 24;
    assert Sum(ws[2..]) == 26;
    assert Sum(ws[1..]) == 28;
  }

  /** Row 2 is Tab (3), twelve keys of 2 and Backslash (3). */
  lemma QwertyRowWidth()
    ensures RowWidth(ROW_QWERTY) == GRID_COLUMNS
  {
    assert Widths(ROW_QWERTY) == [3, 2, 2, 2, 2, 2, 2, 2, 2, 2, 2, 2, 2, 3];
    QwertyRowWidthSum(Widths(ROW_QWERTY));
  }

  lemma QwertyRowWidthSum(ws: seq<nat>)
    requires ws == [3, 2, 2, 2, 2, 2, 2, 2, 2, 2, 2, 2, 2, 3]
    ensures Sum(ws) == GRID_COLUMNS
  {
    assert Sum(ws[13..]) == 3;
    assert Sum(ws[12..]) == 5;
    assert Sum(ws[11..]) == 7;
    assert Sum(ws[10..]) == 9;
    assert Sum(ws[9..]) == 11;
    assert Sum(ws[8..]) == 13;
    assert Sum(ws[7..]) == 15;
    assert Sum(ws[6..]) == 17;
    assert Sum(ws[5..]) == 19;
    assert Sum(ws[4..]) == 21;
    assert Sum(ws[3..]) == 23;
    assert Sum(ws[2..]) == 25;
    assert Sum(ws[1..]) == 27;
  }

  /** Row 3 is Caps Lock (4), eleven keys of 2 and Enter (4). */
  lemma HomeRowWidth()
    ensures RowWidth(ROW_HOME) == GRID_COLUMNS
  {
    assert Widths(ROW_HOME) == [4, 2, 2, 2, 2, 2, 2, 2, 2, 2, 2, 2, 4];
    HomeRowWidthSum(Widths(ROW_HOME));
  }

  lemma HomeRowWidthSum(ws: seq<nat>)
    requires ws == [4, 2, 2, 2, 2, 2, 2, 2, 2, 2, 2, 2, 4]
    ensures Sum(ws) == GRID_COLUMNS
  {
    assert Sum(ws[12..]) == 4;
    assert Sum(ws[11..]) == 6;
    assert Sum(ws[10..]) == 8;
    assert Sum(ws[9..]) == 10;
    assert Sum(ws[8..]) == 12;
    assert Sum(ws[7..]) == 14;
    assert Sum(ws[6..]) == 16;
    assert Sum(ws[5..]) == 18;
    assert Sum(ws[4..]) == 20;
    assert Sum(ws[3..]) == 22;
    assert Sum(ws[2..]) == 24;
    assert Sum(ws[1..]) == 26;
  }

  /** Row 4 is two Shift keys of 5 around ten keys of 2. */
  lemma ShiftRowWidth()
    ensures RowWidth(ROW_SHIFT) == GRID_COLUMNS
  {
    assert Widths(ROW_SHIFT) == [5, 2, 2, 2, 2, 2, 2, 2, 2, 2, 2, 5];
    ShiftRowWidthSum(Widths(ROW_SHIFT));
  }

  lemma ShiftRowWidthSum(ws: seq<nat>)
    requires ws == [5, 2, 2, 2, 2, 2, 2, 2, 2, 2, 2, 5]
    ensures Sum(ws) == GRID_COLUMNS
  {
    assert Sum(ws[11..]) == 5;
    assert Sum(ws[10..]) == 7;
    assert Sum(ws[9..]) == 9;
    assert Sum(ws[8..]) == 11;
    assert Sum(ws[7..]) == 13;
    assert Sum(ws[6..]) == 15;
    assert Sum(ws[5..]) == 17;
    assert Sum(ws[4..]) == 19;
    assert Sum(ws[3..]) == 21;
    assert Sum(ws[2..]) == 23;
    assert Sum(ws[1..]) == 25;
  }

  /** Row 5 is 3, 2, 3, 3, 10, 3, 3, 1, 1 and 1 columns. */
  lemma BottomRowWidth()
    ensures RowWidth(ROW_BOTTOM) == GRID_COLUMNS
  {
    assert Widths(ROW_BOTTOM) == [3, 2, 3, 3, 10, 3, 3, 1, 1, 1];
    BottomRowWidthSum(Widths(ROW_BOTTOM));
  }

  lemma BottomRowWidthSum(ws: seq<nat>)
    requires ws == [3, 2, 3, 3, 10, 3, 3, 1, 1, 1]
    ensures Sum(ws) == GRID_COLUMNS
  {
    assert Sum(ws[9..]) == 1;
    assert Sum(ws[8..]) == 2;
    assert Sum(ws[7..]) == 3;
    assert Sum(ws[6..]) == 6;
    assert Sum(ws[5..]) == 9;
    assert Sum(ws[4..]) == 19;
    assert Sum(ws[3..]) == 22;
    assert Sum(ws[2..]) == 25;
    assert Sum(ws[1..]) == 27;
  }

  /** Every row fills the 30-column grid exactly. */
  lemma LayoutRowWidths()
    ensures forall row :: row in KEYBOARD_LAYOUT ==> RowWidth(row) == GRID_COLUMNS
  {
    NumberRowWidth();
    QwertyRowWidth();
    HomeRowWidth();
    ShiftRowWidth();
    BottomRowWidth();
  }

  /** A key whose `type` is "action" or "modifier". */
  predicate IsControlKey(k: KeyData) {
    k.keyType == Some(Action) || k.keyType == Some(Modifier)
  }

  /**
   * The shape every entry of the table has: a control key carries no Khmer
   * character at any level, every other key has a base character, and no key
   * is a spacer.
   */
  predicate WellShaped(k: KeyData) {
    && (IsControlKey(k) ==> k.km == "" && k.kmShift == "" && k.kmAlt == None)
    && (!IsControlKey(k) ==> k.km != "")
    && k.keyType != Some(Spacer)
  }

  lemma NumbersRowShaped() ensures forall k :: k in ROW_NUMBERS ==> WellShaped(k) {}
  lemma QwertyRowShaped() ensures forall k :: k in ROW_QWERTY ==> WellShaped(k) {}
  lemma HomeRowShaped() ensures forall k :: k in ROW_HOME ==> WellShaped(k) {}
  lemma ShiftRowShaped() ensures forall k :: k in ROW_SHIFT ==> WellShaped(k) {}
  lemma BottomRowShaped() ensures forall k :: k in ROW_BOTTOM ==> WellShaped(k) {}

  lemma LayoutShaped()
    ensures forall k :: k in AllKeys() ==> WellShaped(k)
  {
    AllKeysConcat();
    NumbersRowShaped();
    QwertyRowShaped();
    HomeRowShaped();
    ShiftRowShaped();
    BottomRowShaped();
  }

  /** Every "action" or "modifier" key has empty `km` and `kmShift` and no `kmAlt`. */
  lemma ControlKeysCarryNoCharacter(k: KeyData)
    requires k in AllKeys() && IsControlKey(k)
    ensures k.km == "" && k.kmShift == "" && k.kmAlt == None
  {
    LayoutShaped();
  }

  /**
   * Every key without a type, and Space (the one key typed "char"), has a
   * non-empty base character; no key of the table is a spacer.
   */
  lemma CharacterKeysHaveBase(k: KeyData)
    requires k in AllKeys() && (k.keyType == None || k.keyType == Some(Char))
    ensures k.km != ""
  {
    LayoutShaped();
  }

  /** The invisible marker, U+200B ZERO WIDTH SPACE. */
  const ZWSP: char := '\U{200B}'

  /**
   * The Space key is a "char" key whose base level is the invisible marker,
   * whose Shift level is an ordinary space and which has no AltGr level.
   */
  lemma SpaceKey()
    ensures Lookup("Space").Some?
    ensures var k := Lookup("Space").value;
      k.keyType == Some(Char) && k.km == [ZWSP] && k.kmShift == " " && k.kmAlt == None
  {
    InAllKeys(ROW_BOTTOM[4]);
    LookupLossless(ROW_BOTTOM[4]);
  }
}
