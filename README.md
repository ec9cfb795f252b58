# Khmer typewriter — a verified model of the input-method core

Khmer Typewriter is a browser editor with an on-screen Khmer keyboard. Its core:

- **The keyboard table** (`KEYBOARD_LAYOUT`). Five rows of keys. Each key has a physical code, an English pair, three Khmer levels (base, Shift, AltGr), an optional type and a width on a 30-column grid.
- **The modifier state.** Shift, AltGr, CapsLock and the set of held keys. Physical key-down and key-up events update it, and so do clicks on the on-screen keyboard.
- **The resolver.** It picks a key's Khmer level from the modifiers and decides whether a physical key-down is taken over from the browser.
- **The on-screen keyboard's dispatch.** Toggles, editing keys, and one-shot Shift and AltGr.
- **The invisible-marker view.** It shows each U+200B ZERO WIDTH SPACE as a placeholder `<span class="invisible-zwsp" …></span>` and turns such spans back into U+200B.
- **Atomic Backspace over a placeholder span.** Current version only.
- **The status-bar statistics.** Character count and word count.
- **The saved-documents list.** Save, load, delete and new document.

There are two versions of the component:

- `src/App.tsx`, the *current* version;
- the root `App.tsx`, the *legacy* version.

Where they differ, the model takes a `Version` parameter (`Current` or `Legacy`).

Modules:

| file | module | what it holds |
|---|---|---|
| `wrappers.dfy` | `Wrappers` | `Option` |
| `layout.dfy` | `Layout` | the key table, the code → key map, the grid widths, the table's shape |
| `keyboard_state.dfy` | `KeyboardStates` | the modifier state and its key-down, key-up, toggle and one-shot updates |
| `resolver.dfy` | `Resolver` | level choice, typing keys, the physical key-down outcome, the on-screen dispatch |
| `input_trace.dfy` | `InputTrace` | the modifier state over a stream of mixed physical and on-screen events |
| `invisibles.dfy` | `Invisibles` | the marker codec on the editor's HTML, and the `Editor` class (HTML plus the show-invisibles flag) |
| `placeholder_backspace.dfy` | `PlaceholderBackspace` | the Backspace-over-span search, the `Block` class (children plus caret), and the corrected search |
| `stats.dfy` | `Stats` | JavaScript `length`, `trim` and `split(/\s+/)`; the word count and an independent run count |
| `documents.dfy` | `Documents` | the saved-document list transforms and the `Session` class |

The pure parts are datatypes, functions and lemmas:

- the key table and the resolver;
- the state updaters, which the source writes as functional React updaters;
- the codec;
- the statistics;
- the list transforms.

The parts the source writes as state changes are classes with `modifies` clauses:

- the editor's HTML and view flag (`Invisibles.Editor`);
- one element's children and the window selection (`PlaceholderBackspace.Block`), including the sibling search loop;
- the document session (`Documents.Session`).

Each method is specified by the pure functions, and the properties are proved about those functions.

Where the code departs from the behaviour its interface suggests, the model follows the code:

- **One-shot modifiers.** A character clicked on the on-screen keyboard clears Shift even while a physical Shift key is still held. The on-screen path does not tell a held Shift from a toggled one (`Resolver.VirtualPressConsumesHeldShift`).
- **Meta in the current version.** A Meta chord selects the AltGr level in the current version. In the legacy version it is left to the browser (`Resolver.MetaSelectsAltGrOnlyInCurrent`).
- **Statistics.** They are computed from the editor's text. JavaScript's whitespace set does not contain U+200B, so a lone marker counts as a word (`Stats.KhmerRunIsOneWord`). The source counts the rendered text (`innerText`). While invisibles are shown, each marker is an empty span there, so it adds no character, and a word made only of a marker is not counted. Toggling the view therefore changes both numbers; the model counts the raw text.
- **Space in the legacy version.** A Space click always inserts a plain space and does not consume the one-shot modifiers. The current version has that branch commented out, so Space goes through the layout: the marker at the base level, a space under Shift (`Resolver.VirtualSpace`).

## Model

| member | source | states |
|---|---|---|
| Layout.Flatten | src/App.tsx:72-76 | the flattened rows hold exactly the keys that occur in some row |
| Layout.AllKeysConcat | src/lib/constants.ts:11-90 | the table's keys in reading order are row 1 to row 5 laid end to end |
| Layout.Codes | src/App.tsx:72-76 | the code list has one entry per key, in order |
| Layout.CodesConcat | src/App.tsx:72-76 | the codes of a concatenation are the concatenated codes |
| Layout.DistinctConcat | src/lib/constants.ts:11-90 | two distinct code lists with no code in common concatenate to a distinct list |
| Layout.DisjointConcat | src/lib/constants.ts:11-90 | two lists disjoint from a third stay disjoint from it when concatenated |
| Layout.LayoutCodesDistinct | src/lib/constants.ts:11-90 | no physical code occurs twice in the table, across all five rows |
| Layout.KeyMapOf | src/App.tsx:72-76 | the map built key by key has exactly the table's codes as keys; each entry is a key of the list with that code |
| Layout.KeyMapLossless | src/App.tsx:72-76 | when codes are distinct no `map.set` overwrites: every key is found under its own code, and the map has one entry per key |
| Layout.Lookup | src/App.tsx:72-76 | `keyMap.get(code)` gives a table key carrying that code, or nothing exactly when no key has the code |
| Layout.LookupLossless | src/App.tsx:72-76 | looking up any table key by its code gives back that key |
| Layout.Widths | src/lib/constants.ts:9-12 | one grid width per key, in order |
| Layout.NumberRowWidth | src/lib/constants.ts:12-27 | row 1 (13 keys of 2 and Backspace of 4) spans 30 columns |
| Layout.QwertyRowWidth | src/lib/constants.ts:29-44 | row 2 (3 + 12×2 + 3) spans 30 columns |
| Layout.HomeRowWidth | src/lib/constants.ts:46-60 | row 3 (4 + 11×2 + 4) spans 30 columns |
| Layout.ShiftRowWidth | src/lib/constants.ts:62-75 | row 4 (5 + 10×2 + 5) spans 30 columns |
| Layout.BottomRowWidth | src/lib/constants.ts:77-89 | row 5 spans 30 columns |
| Layout.LayoutRowWidths | src/lib/constants.ts:9-12 | every row of the table fills the 30-column grid exactly |
| Layout.LayoutShaped | src/lib/constants.ts:11-90 | every key is well shaped: control keys carry no Khmer text, other keys have a base character, and no key is a spacer |
| Layout.ControlKeysCarryNoCharacter | src/lib/constants.ts:79-88 | every "action" or "modifier" key has empty `km` and `kmShift` and no `kmAlt` |
| Layout.CharacterKeysHaveBase | src/lib/constants.ts:14-26 | every untyped or "char" key has a non-empty base character |
| Layout.SpaceKey | src/lib/constants.ts:83 | Space is a "char" key whose base level is U+200B and whose Shift level is " ", with no AltGr level |
| KeyboardStates.KeyDownActiveKeys | src/App.tsx:533-556 | key-down holds the pressed code unless it is ControlLeft under AltGr, keeps every other held key, and adds nothing else |
| KeyboardStates.AltGrDropsControlLeft | src/App.tsx:543-546 | under AltGr, key-down sets `isRightAlt` and removes ControlLeft from the held keys |
| KeyboardStates.KeyDownFlags | src/App.tsx:530-556 | after key-down, Shift is set iff it was set or a Shift key went down; AltGr is set iff it was set or AltGr is reported; CapsLock is unchanged |
| KeyboardStates.KeyDownIdempotent | src/App.tsx:533-556 | an auto-repeated key-down changes nothing further |
| KeyboardStates.KeyDownsCommute | src/App.tsx:533-556 | two key-downs commute unless one is ControlLeft and the other reports AltGr |
| KeyboardStates.ControlLeftAltGrOrderMatters | src/App.tsx:543-546 | ControlLeft pressed before AltGr is dropped; pressed after, it stays held |
| KeyboardStates.KeyUpEffect | src/App.tsx:612-633 | key-up releases exactly the code; it clears Shift only on a Shift release; it clears AltGr iff AltGr is no longer reported; it syncs CapsLock only on a CapsLock release |
| KeyboardStates.PressReleaseRoundTrip | src/App.tsx:533-556 | pressing and releasing an ordinary key that was not held returns to the previous state |
| KeyboardStates.PhysicalShiftHeld | App.tsx:393-417 | a held Shift stays set across the key-downs and key-ups of other keys |
| KeyboardStates.AltKeyUpDiffers | App.tsx:477 | a key-up with `altKey` but no AltGraph keeps AltGr in the current version and clears it in the legacy one |
| KeyboardStates.VirtualToggleFlipsOwnFlag | src/App.tsx:445-458 | an on-screen Shift, AltRight or CapsLock click flips exactly its own flag and leaves the held keys alone |
| KeyboardStates.VirtualToggleInvolution | src/App.tsx:445-458 | clicking the same toggle twice restores the state |
| KeyboardStates.OneShotCleared | src/App.tsx:512-521 | after an on-screen character, Shift and AltGr are off; CapsLock and the held keys are unchanged |
| Resolver.NumberRowIsDigitRow | src/App.tsx:502 | the CapsLock exception list is exactly the twelve untyped keys after Backquote on row 1 |
| Resolver.LevelPrecedence | src/App.tsx:502-510 | Shift selects the Shift level whatever else is set; CapsLock alone selects it exactly off the number row; AltGr applies only when neither does |
| Resolver.LookupDigit5 | src/App.tsx:565 | Digit5 looks up to its row-1 key |
| Resolver.LookupKeyA | src/App.tsx:565 | KeyA looks up to its row-3 key |
| Resolver.LookupKeyE | src/App.tsx:565 | KeyE looks up to its row-2 key |
| Resolver.CapsLockSparesDigits | src/App.tsx:572-583 | CapsLock alone on Digit5 gives the Khmer digit five, not the Shift level |
| Resolver.CapsLockShiftsLetters | src/App.tsx:572-583 | CapsLock alone on KeyA gives its Shift level |
| Resolver.ShiftOverridesAltGr | src/App.tsx:577-580 | Shift with AltGr on KeyE gives the Shift level, not the AltGr level |
| Resolver.TypingKeysAreNonControlKeys | src/App.tsx:567 | for table keys, "typing key" holds exactly when the key is neither "action" nor "modifier" |
| Resolver.PhysicalInterceptCondition | src/App.tsx:564-597 | a key-down is intercepted iff the layout is active and the code names a non-control table key; the inserted text is that key's level under the event's Shift, CapsLock and AltGr/Meta |
| Resolver.PhysicalVersionsAgree | App.tsx:425-444 | with neither Alt nor Meta down, the two versions handle a key-down identically |
| Resolver.MetaSelectsAltGrOnlyInCurrent | src/App.tsx:579 | Meta+E inserts KeyE's AltGr level in the current version and passes through in the legacy one |
| Resolver.ControlKeysPassThrough | src/App.tsx:567-569 | the layout path never takes an action or modifier key of the table over |
| Resolver.LookupBackspace | src/App.tsx:565 | Backspace looks up to its row-1 key |
| Resolver.PhysicalBackspace | src/App.tsx:599-601 | the layout path never takes a physical Backspace over; the placeholder handler, which cancels the browser's deletion when it removes a span, runs iff the version is current and none of AltGraph, Alt, Meta and Ctrl is down |
| Resolver.VirtualTogglesInsertNothing | src/App.tsx:445-458 | on-screen toggle clicks insert nothing and flip exactly their own flag |
| Resolver.VirtualEditingKeys | src/App.tsx:460-495 | Backspace deletes; Tab inserts a tab; Enter inserts a paragraph; left and right move by character; up and down move by line; the state is unchanged |
| Resolver.SplitArrowKeyMovesByLine | src/components/Key.tsx:34-50 | the two halves of the split arrow key move the caret up or down a line |
| Resolver.OtherControlKeysDoNothing | src/App.tsx:497-499 | any other modifier or action key click does nothing and changes no state |
| Resolver.VirtualCharacterOneShot | src/App.tsx:502-521 | a character click either inserts the non-empty chosen level and then clears Shift and AltGr, or, when that level is empty, does nothing |
| Resolver.VirtualSpace | App.tsx:327-330 | legacy Space inserts " " and keeps the state; current Space inserts U+200B at the base level, " " under Shift or CapsLock, and nothing under AltGr alone |
| Resolver.OneShotShiftScenario | src/App.tsx:445-521 | on-screen Shift then KeyA inserts KeyA's Shift level and leaves Shift off |
| Resolver.VirtualPressConsumesHeldShift | src/App.tsx:512-516 | a character click clears Shift even while physical ShiftLeft is still held |
| Resolver.PhysicalAndVirtualAgree | src/App.tsx:502-510 | with the same flags, a table key gives the same text from the physical keyboard as from the on-screen one |
| InputTrace.CapsOnlyByCapsLock | src/App.tsx:612-616 | over any event stream, CapsLock changes only through a CapsLock release or a CapsLock click |
| InputTrace.AltGrOnlyWhenReported | src/App.tsx:543-546 | over any event stream, AltGr is never latched unless some key-down reports it or AltRight is clicked |
| InputTrace.HeldKeysComeFromPresses | src/App.tsx:533-537 | over any event stream, every held key was held at the start or went down physically in the stream |
| InputTrace.LastText | src/App.tsx:445-597 | the text an event of a stream inserts is what it inserts in the state the earlier events lead to |
| InputTrace.PhysicalTextIgnoresHistory | src/App.tsx:572-583 | a physical key-down inserts the same text whatever events, and whatever starting state, came before it |
| InputTrace.OnScreenShiftSparesPhysicalKeys | src/App.tsx:445-583 | after an on-screen Shift click, a clicked KeyA inserts its Shift level, while a physical KeyA without Shift inserts its base level |
| InputTrace.HeldShiftLostAfterClick | src/App.tsx:512-516 | physical Shift down then a KeyA click leaves Shift off, with ShiftLeft still held |
| Invisibles.ReplaceZwsp | src/App.tsx:230 | HTML without U+200B is left unchanged by the replacement |
| Invisibles.FirstGt | src/App.tsx:240 | the `[^>]*` run stops at the first `>`, or at the end of the input |
| Invisibles.MatchLen | src/App.tsx:240 | a regex match at the head has at least the opening and closing text and lies within the input |
| Invisibles.FirstGtAt | src/App.tsx:240 | the `[^>]*` run ends where the first `>` is |
| Invisibles.MatchComplete | src/App.tsx:240 | a span with any `>`-free attributes matches, and the match covers exactly the span |
| Invisibles.MatchSound | src/App.tsx:240 | every match is the opening text, `>`-free attributes, then `></span>` |
| Invisibles.MatchMarker | src/App.tsx:230 | the marker span that the view writes is matched whole |
| Invisibles.HideSpan | src/App.tsx:240 | a matching span turns into one U+200B, and the rest is processed on |
| Invisibles.HideMarker | src/App.tsx:237-244 | hiding the marker span gives back U+200B |
| Invisibles.HideWithoutTags | src/App.tsx:237-244 | text with no `<` is unchanged by hiding |
| Invisibles.ReplaceConcat | src/App.tsx:230 | the global replacement distributes over concatenation |
| Invisibles.ReplaceLeavesNoZwsp | src/App.tsx:230 | after showing, no U+200B is left |
| Invisibles.ContainsAt | src/App.tsx:229 | a pattern occurring at some position is contained |
| Invisibles.ReplaceIntroducesClass | src/App.tsx:229-231 | replacing HTML that has a U+200B puts the class name into the HTML |
| Invisibles.ShowIdempotent | src/App.tsx:226-235 | applying the view twice is applying it once |
| Invisibles.StartsWithCons | src/App.tsx:240 | a prefix test on a non-empty pattern checks the first character and then the rest |
| Invisibles.ReplaceHead | src/App.tsx:230 | the replacement maps the first character to the marker if it is U+200B, else to itself |
| Invisibles.ReplacePrefix | src/App.tsx:230 | a `<`-free prefix of the replaced HTML is a prefix of the original |
| Invisibles.OpenMentionsClass | src/App.tsx:240 | text opening with the span's opening tag contains the class name |
| Invisibles.NoMatchAtPlainChar | src/App.tsx:240 | in HTML free of the class name, a replaced non-U+200B character never begins a match |
| Invisibles.ShownPrefixMeansPrefix | src/App.tsx:230 | when the first character is not U+200B, the shown form starts with a text having no `<` past its first character only if the original does |
| Invisibles.ShowHideRoundTrip | src/App.tsx:226-244 | for HTML that does not already mention the class, showing then hiding gives back the HTML |
| Invisibles.SaveStripsMarkers | src/App.tsx:154-158 | the content saved from the shown view equals the content saved from the plain view |
| Invisibles.InsertWhileShown | src/App.tsx:292-294 | inserting U+200B while shown writes the marker span, as if the view had been applied after inserting the character |
| Invisibles.ShownFragment | src/App.tsx:292-294 | the fragment inserted while shown is the shown form of the inserted text |
| Invisibles.FirstGtSkip | src/App.tsx:240 | the first `>` of a text whose first part has none is found in the second part |
| Invisibles.FirstGtAfter | src/App.tsx:240 | when the first k characters have no `>`, the first `>` is k plus the first `>` of the rest |
| Invisibles.MatchAtGt | src/App.tsx:240 | a match is the opening text followed by a text whose first `>` starts `></span>` |
| Invisibles.GtClosesSpanTail | src/App.tsx:240 | dropping a first character other than `>` keeps the first `>` and whether it closes a span |
| Invisibles.GtClosesAfterPrefix | src/App.tsx:240 | dropping a `>`-free prefix keeps whether the first `>` closes a span |
| Invisibles.HideCopies | src/App.tsx:240 | hiding copies a prefix without `<` unchanged |
| Invisibles.HidePrefix | src/App.tsx:240 | a U+200B-free prefix of the hidden HTML is a prefix of the original |
| Invisibles.NoMatchBeforeGt | src/App.tsx:240 | a text whose first `>` does not start `></span>` starts no match |
| Invisibles.HideBeforeGt | src/App.tsx:240 | in such a text, hiding copies everything before the first `>` |
| Invisibles.GtKeepsItsPlace | src/App.tsx:240 | hiding keeps the first `>` where it was, and a `>` that did not start `></span>` still does not |
| Invisibles.NoMatchAtGt | src/App.tsx:240 | hiding copies a leading `>` |
| Invisibles.OpenedAfterHide | src/App.tsx:240 | if a character followed by the hidden rest opens a span, the original already did, and the rest after the opening is the hidden rest of the original |
| Invisibles.HideKeepsNoMatch | src/App.tsx:240 | a position where no match starts still starts none after the rest is hidden |
| Invisibles.HideIdempotent | src/App.tsx:237-244 | hiding twice is hiding once, for every HTML |
| Invisibles.CollapseExpandCollapse | src/App.tsx:226-244 | for every HTML, hiding, showing and hiding again gives the same as hiding once |
| Invisibles.Editor.constructor | src/App.tsx:52 | a new editor is empty, with invisibles hidden |
| Invisibles.Editor.ApplyVisuals | src/App.tsx:226-235 | the HTML becomes the shown view of the old HTML; the flag is unchanged |
| Invisibles.Editor.RemoveVisuals | src/App.tsx:237-244 | the HTML becomes the hidden view of the old HTML; the flag is unchanged |
| Invisibles.Editor.ToggleInvisibles | src/App.tsx:246-255 | the flag flips, and the HTML is shown or hidden to match the new flag |
| Invisibles.Editor.InsertCharacter | src/App.tsx:284-302 | the text (the marker span when shown and the text is U+200B) is spliced in at the caret; the flag is unchanged |
| Invisibles.Editor.ContentToSave | src/App.tsx:154-158 | the content to save is the HTML with markers hidden when shown, else the HTML |
| Invisibles.ToggleTwice | src/App.tsx:246-255 | toggling twice from hidden restores HTML free of the class name, and hides it again |
| Invisibles.RemoveTwice | src/App.tsx:237-244 | removing the visuals twice leaves the HTML as removing them once |
| Invisibles.ToggleOffOnOff | src/App.tsx:246-255 | from the shown view with any HTML, toggling off, on and off gives the HTML of toggling off once |
| Invisibles.TypeMarkerThenSave | src/App.tsx:154-158 | typing U+200B while shown and then saving stores the plain text with the U+200B |
| PlaceholderBackspace.NearestSpanBefore | src/App.tsx:369-375 | the result is the last span before the index, or nothing exactly when no earlier child is a span |
| PlaceholderBackspace.Block.constructor | src/App.tsx:390-401 | a block holds the given children, caret and collapse flag |
| PlaceholderBackspace.Block.PreviousSiblingSpan | src/App.tsx:364-388 | the loop finds the last span before the index, or nothing exactly when no earlier sibling is a span |
| PlaceholderBackspace.Block.DeleteSpan | src/App.tsx:337-348 | child `k` is removed, and the caret collapses after the previous sibling, or after the element when there is none |
| PlaceholderBackspace.Block.DeleteSpanIfPossible | src/App.tsx:390-422 | as written: removes the target span and moves the caret iff the search finds one, reports whether it did, otherwise changes nothing, and keeps the selection valid |
| PlaceholderBackspace.Block.DeletePlaceholderIfPossible | src/App.tsx:390-422 | the corrected handler: the same contract with only an adjacent placeholder span as target |
| PlaceholderBackspace.BackspaceTargetPositions | src/App.tsx:390-422 | as written, a span is removed iff the selection is collapsed and the caret is at a span's start, at offset 0 of a text node with any earlier span sibling, or just after a span in the element |
| PlaceholderBackspace.RemovalKeepsSelectionValid | src/App.tsx:322-348 | removing a child shifts later children down by one, and the caret placed after the previous sibling is valid and just after it |
| PlaceholderBackspace.PlaceholderTargetIsPlaceholder | src/App.tsx:350-388 | the corrected target is a placeholder span at or just before the caret, and any such span is the target |
| PlaceholderBackspace.AsWrittenCoversIntended | src/App.tsx:390-422 | whenever the corrected handler removes a span, the handler as written removes the same one |
| PlaceholderBackspace.AsWrittenSkipsSiblings | src/App.tsx:369-375 | as written, a placeholder two siblings back is removed; the corrected handler removes nothing |
| PlaceholderBackspace.AsWrittenRemovesHighlight | src/App.tsx:312-320 | as written, a highlight span just before the caret is removed with its text; the corrected handler removes nothing |
| PlaceholderBackspace.BackspaceAfterMarker | src/App.tsx:599-601 | Backspace just after a marker between "A" and "B" leaves "A","B" with the caret at the end of "A", with the handler as written and with the corrected one alike |
| Stats.TrimStart | src/App.tsx:113 | the result is a suffix of the input; only whitespace was dropped; it does not start with whitespace |
| Stats.TrimEnd | src/App.tsx:113 | the result is a prefix of the input; only whitespace was dropped; it does not end with whitespace |
| Stats.SplitFrom | src/App.tsx:113 | splitting always yields at least one piece |
| Stats.LeadingWsStarts | src/App.tsx:113 | leading whitespace begins no word |
| Stats.TrailingWsStarts | src/App.tsx:113 | trailing whitespace begins no word |
| Stats.TrimEndStarts | src/App.tsx:113 | trimming the end does not change the number of word starts |
| Stats.SplitLength | src/App.tsx:113 | splitting a text that does not end in whitespace yields one more piece than word starts after its first character |
| Stats.WordCountIsRuns | src/App.tsx:113 | the status-bar word count equals the number of maximal non-whitespace runs |
| Stats.TrimIdempotent | src/App.tsx:113 | trimming twice is trimming once; a trimmed text neither starts nor ends with whitespace |
| Stats.BlankHasNoWords | src/App.tsx:113 | the word count is 0 iff the text is all whitespace |
| Stats.CharCountConcat | src/App.tsx:111 | the character count adds up over concatenation |
| Stats.CharCountBmp | src/App.tsx:111 | in a text with no supplementary-plane characters (all of Khmer), each character counts one |
| Stats.NoStartsInside | src/App.tsx:113 | no word begins after the first character of a text without whitespace |
| Stats.RunIsOneWord | src/App.tsx:113 | any non-empty text without whitespace counts as exactly one word |
| Stats.TwoWordsExample | App.tsx:102 | " ab  cd " has two words |
| Stats.BlankExamples | App.tsx:102 | the empty text and whitespace alone have no words |
| Stats.KhmerRunIsOneWord | src/App.tsx:113 | a space-free Khmer run is one word, and so is a lone U+200B |
| Documents.UpdateDocPointwise | src/App.tsx:165-169 | updating keeps length and order; records with the id get the new title, content and timestamp; the others are unchanged |
| Documents.UpdateDocIds | src/App.tsx:165-169 | updating keeps the set of ids, and keeps ids distinct |
| Documents.RemoveDocMembers | src/App.tsx:208 | the filtered list holds exactly the records without the id, and the ids are the old ones minus it |
| Documents.RemoveDocConcat | src/App.tsx:208 | the filter distributes over concatenation |
| Documents.RemoveDocAbsent | src/App.tsx:208 | deleting an absent id changes nothing |
| Documents.RemoveDocExactlyOne | src/App.tsx:208 | with distinct ids, deleting a record's id removes exactly that record, keeping the order |
| Documents.OthersLackId | src/App.tsx:208 | with distinct ids, no record before or after a given record carries its id |
| Documents.RemoveDocSplice | src/App.tsx:208 | deleting the id of a record whose id occurs nowhere else removes exactly that record |
| Documents.Prepend | src/App.tsx:171-178 | putting a record in front keeps every id and adds its own; ids stay distinct when its id is new |
| Documents.RemoveDocDistinct | src/App.tsx:208 | deleting keeps ids distinct |
| Documents.FinalTitleChoice | src/App.tsx:149-150 | a non-blank answer is taken trimmed and so has no surrounding whitespace; a cancelled or blank answer keeps the current title |
| Documents.AcceptingSuggestionKeepsTitle | src/App.tsx:149-150 | saving again and accepting the suggested title keeps it |
| Documents.TrimPoem | src/App.tsx:150 | the answer "  Poem " is saved as "Poem" |
| Documents.Session.constructor | src/App.tsx:47-57 | a session starts on the stored list with no current document, the title "New Document" and an empty editor |
| Documents.Session.SaveDocument | src/App.tsx:145-183 | the title is the final title; with a truthy current id that record is updated, otherwise a new record goes in front and becomes current; ids stay distinct when the fresh id is new; the current id stays valid |
| Documents.Session.LoadDocument | src/App.tsx:185-203 | when allowed (blank text, same document, or confirmed) the document becomes current, its title is taken and its content is shown in the current view; otherwise nothing changes |
| Documents.Session.DeleteDocument | src/App.tsx:205-218 | if confirmed, the list is filtered and stored, and deleting the current document resets to a new one; otherwise nothing changes; ids stay distinct |
| Documents.Session.NewDocument | src/App.tsx:128-143 | when allowed the session has no current document, the title "New Document" and an empty, hidden editor; otherwise nothing changes |
| Documents.SaveThenDelete | App.tsx:127-199 | saving a new document and then deleting it leaves an empty list and a new document |

## Left out

- **DOM plumbing.** `execCommand`, `Range`/`Selection` plumbing, focus checks and the serialisation of `innerHTML`/`innerText` are left out. The editor is modelled as its HTML string, with insertion at an index.
- **Platform services.** Storage (`localStorage`, JSON), `crypto.randomUUID`, `Date.now`, `prompt` and `confirm` become parameters of the session methods. For example, the prompt's answer is an `Option`, and the confirmation is a `bool`.
- **Browser-specific behaviour.** Timer deferrals, composition-event suppression, the Safari/iOS dead-key workaround and user-agent sniffing depend on browser behaviour that cannot be seen from here.
- **English mode.** English mode passes every key through to the browser and is modelled only as `khmerMode = false`. The English columns of the table are kept but not used.
- **Presentation.** The presentational components, dark mode, full screen, the toolbar's formatting commands, links, images, copying and clearing are not part of the core.
- **Table fields.** The table's `label` and `icon` fields are presentation only.
- PlaceholderBackspace: `findParentSpan` walks up to the editor root. The model looks one level deep: the caret is inside a child span, in a child, directly in the element, or just after it. The element itself is taken not to be a span.
- Invisibles.InsertWhileShown: stated only for inserted text that is exactly U+200B or contains no U+200B. The source wraps only a lone U+200B, and no key of the table yields a longer text with U+200B inside.
- Invisibles.ShowHideRoundTrip: holds only for HTML that does not already contain the class name. The source skips the replacement when the name is present anywhere, so the view is not applied to such HTML. For every HTML, `Invisibles.CollapseExpandCollapse` states the round trip on hidden HTML instead.
- Stats: counts the raw text, every U+200B included. The source counts the rendered text (src/App.tsx:115-120), where a shown marker is an empty span: it adds no character, and a word made only of a marker is not counted.
- Documents.Session.SaveDocument: distinct ids are preserved only when the fresh id is not already in the list. The source relies on `randomUUID` for this.

## Findings

| source | as written | input that shows it | evidently intended | confidence | as-written member | corrected member |
|---|---|---|---|---|---|---|
| src/App.tsx:364-388 | from offset 0 of a text node, `getPreviousSiblingSpan` walks back past any number of non-span siblings. Backspace then removes the nearest earlier span, however far from the caret | children `[placeholder span, "abc", "def"]`, caret at offset 0 of "def": the placeholder two siblings back is deleted | remove a placeholder only when it is the sibling immediately before the caret | not executed | PlaceholderBackspace.AsWrittenSkipsSiblings | PlaceholderBackspace.PlaceholderTargetIsPlaceholder |
| src/App.tsx:312-320 | `findParentSpan` and the sibling search accept any SPAN. A highlight span (from the background-colour command) before the caret is removed whole, with its text | children `["a", highlight span "bc", "d"]`, caret at offset 0 of "d": "bc" disappears in one keystroke | only placeholder spans (`invisible-zwsp`) are removed atomically | not executed | PlaceholderBackspace.AsWrittenRemovesHighlight | PlaceholderBackspace.Block.DeletePlaceholderIfPossible |
