# MEItoVexFlow layout and reference resolution, in Dafny

MEItoVexFlow renders MEI (Music Encoding Initiative) documents with the
VexFlow drawing library. Most of the code hands work to VexFlow, jQuery or
MeiLib. What is left is a small core of sequential, deterministic
transformations, and this project models that core with immutable
datatypes and pure functions:

- **Measure width arithmetic** (`Measure`). It covers these steps:
  - the measure reads its explicit `@width`;
  - it folds running maxima of note-start x and end-modifier width over a sparse array of staves;
  - it adds a 0-or-20 repeat padding;
  - the minimum width is the sum of four terms;
  - the final width is either the explicit width or the minimum width plus extra space;
  - `format` positions every stave and returns the slur start x that the next measure carries forward.
- **Pointer resolution** (`Pointers`, `PointerMarks`).
  - Annotation elements become `{element, atts, startid}` models. `@startid` wins over `@tstamp`.
  - A timestamp is resolved inside the element's staff and layer, against the staff's meter. Each of its four failures is a separate error value.
  - The two near-duplicate collection families differ in one way. The older one skips an element that has no reference and carries on. The newer one stops at that element.
  - Models are then attached to notes from the last model to the first. An id missing from the note table produces a report, never a failure.
  - Each annotation kind places its mark by its own rule.
- **Hairpins** (`Hairpins`). A hairpin whose two ends lie in different systems is drawn as two halves. A hairpin with no resolvable end is skipped.
- **Verse stacking** (`Verses`).
  - Syllables are grouped by staff and verse.
  - On each staff, every verse moves the baseline down by 20 and then folds in its syllables' own lowest points.
  - Every syllable of a verse is placed on that verse's baseline.
- **Staff-definition diffing** (`StaffInfo`). Consecutive staff definitions are compared, giving three flags: clef, key signature and time signature.
- **Voice stack** (`StaveVoices`) and **grace-chord options** (`GraceChord`).

The helper modules supply the JavaScript semantics the source relies on:

- `Wrappers`: the `Option`, `Result` and `Outcome` types.
- `Text`: the ECMAScript white-space set, `trim` and `replace(/\s+/g, ' ')`.
- `JsNumber`: unary `+` on attribute strings, and truthiness.
- `JsObject`: the key order of `for…in`.
- `Mei` and `Notes`: the document skeleton and the id→note table.

Calls into code outside the core are parameters of the functions that make
them, and nothing is assumed about them:

- VexFlow geometry getters, such as `getTieStartX`;
- the voices' `preFormat` width;
- `MeiLib.tstamp2id`;
- a syllable's `preProcess`;
- `EventUtil.processAttsDuration`, `getVexPitch` and `translateDuration`.

Geometry is `real`. Warnings are returned as values, not logged.

Where the code and its stated design disagree, the model follows the code:

- **First staff definition.** A first staff definition is meant to redraw clef, key signature and time signature. The code sets `keysig` twice and never sets `timesig`. See "Findings".
- **Missing `preFormat`.** `src/StaveVoices.js` defines no `preFormat`, yet `src/Measure.js:233` calls `me.voices.preFormat()`. The voices' minimum width is therefore a parameter of `Measure.CalculateMinWidth`, so no behaviour is invented for a method this file lacks.
- **Width argument of `format`.** `Measure.format` passes the first defined stave, not a number, to `voices.format` as its width. `StaveVoices.Format` is generic in that argument, and `Measure.Format` records the call with the stave.

## Model

| member | source | states |
|---|---|---|
| Measure.ReadMEIW | src/Measure.js:114-116 | the explicit width is absent exactly when `+@width` is 0 or NaN (a missing attribute included); otherwise it is that number, negative values included |
| Measure.Init | src/Measure.js:40-105 | a new measure starts with both running maxima at 0 and the explicit width read from `@width`; minimum and final width are still unset |
| Measure.FirstDefinedStaff | src/Measure.js:158-166 | fails with `NoStaffFound` iff no slot is defined; otherwise returns the stave of the lowest-indexed defined slot |
| Measure.RunningMax | src/Measure.js:256-278 | the last-to-first fold is at least its start value and at least the value of every defined stave, equals one of those, and ignores undefined slots |
| Measure.RunningMaxIdempotent | src/Measure.js:256-266 | folding the same staves into the result a second time changes nothing |
| Measure.RunningMaxMonotone | src/Measure.js:268-278 | a larger start value never gives a smaller maximum |
| Measure.RepeatPadding | src/Measure.js:284-293 | 20 iff the first defined stave's first modifier is a repeat-begin barline and it has more than two modifiers, else 0; fails without a stave or without a first modifier |
| Measure.RepeatPaddingBoundary | src/Measure.js:292 | one or two modifiers give no padding even with a leading repeat-begin barline; three give 20 |
| Measure.CalculateMinWidth | src/Measure.js:224-238 | the new note-start and end-modifier maxima are exactly the running folds of `Measure.RunningMax` over the staves from the old values, so they bound every defined stave; the padding is exactly `Measure.RepeatPadding`'s value (20 iff a leading repeat-begin barline with more than two modifiers, else 0); the voices' width is `preFormat`; the minimum width is the sum of the four; nothing else changes; it fails iff the padding fails |
| Measure.MinWidthIdempotent | src/Measure.js:224-238 | recomputing the minimum width of an unchanged measure gives the same measure |
| Measure.MinWidthMonotone | src/Measure.js:237 | the minimum width does not decrease when the voices need more room or the maxima start higher |
| Measure.SetFinalWidth | src/Measure.js:247-250 | the final width is the explicit width when there is one, else minimum width plus the additional width; nothing else changes |
| Measure.FinalWidthPrecedence | src/Measure.js:249 | with an explicit width the additional width has no effect; without one the width grows with it |
| Measure.CarrySlur | src/Measure.js:329 | a missing or zero carried slur start falls back to the stave's tie start; any other value is kept |
| Measure.Position | src/Measure.js:306-329 | the label is added iff one is given; x is set; notes start `maxNoteStartX` after x; the width is the measure width; the end is pulled in by `maxEndModifierW`; the slur start is the carried one or the tie start; modifiers are unchanged |
| Measure.Format | src/Measure.js:301-335 | every defined stave is positioned and every undefined slot stays undefined; the voices are formatted against the first defined stave, and its slur start is returned; fails iff no stave is defined |
| StaveVoices.AddStaffVoice | src/StaveVoices.js:37-39 | the entry is appended and every earlier entry is kept |
| StaveVoices.AddVoice | src/StaveVoices.js:41-43 | exactly one `(voice, staff_n)` pair is appended at the end; earlier entries are unchanged |
| StaveVoices.Reset | src/StaveVoices.js:46-48 | the stack is empty afterwards |
| StaveVoices.VoicesOf | src/StaveVoices.js:51-53 | the voices of the entries, one per entry, in entry order |
| StaveVoices.Format | src/StaveVoices.js:50-58 | one joint formatter call receives every voice, in insertion order, with the caller's width argument |
| StaveVoices.Draw | src/StaveVoices.js:60-66 | entries are visited in insertion order, and each voice is drawn against `staves[staff_n]` (undefined past the end) |
| StaveVoices.FormatAfterAdd | src/StaveVoices.js:41-58 | after `addVoice(v, n)` the formatter sees the earlier voices followed by `v` |
| StaveVoices.FormatAfterReset | src/StaveVoices.js:46-58 | after `reset` the formatter sees no voice |
| StaffInfo.New | src/StaffInfo.js:27-30 | the constructor stores the definition and the three flags as given |
| StaffInfo.DiffDefs | src/StaffInfo.js:48-63 | clef iff `clef.shape` or `clef.line` differ; keysig iff `key.pname`, `key.accid` or `key.mode` differ; timesig iff `meter.count` or `meter.unit` differ; two absent values agree |
| StaffInfo.Look4Changes | src/StaffInfo.js:32-65 | fails iff both definitions are undefined; with no current one gives clef and keysig but not timesig; with no new one gives all false; otherwise gives the attribute diff |
| StaffInfo.FirstDefinitionOmitsTimesig | src/StaffInfo.js:34-38 | a first definition, as written, does not ask for the time signature |
| StaffInfo.Look4ChangesCorrected | src/StaffInfo.js:34-38 | a first definition asks for all three; every case with a current definition is as written |
| StaffInfo.DiffOfSameIsEmpty | src/StaffInfo.js:50-63 | definitions agreeing on all seven attributes produce no change |
| StaffInfo.ClefShapeChangeOnly | src/StaffInfo.js:50-52 | changing only the clef shape gives exactly `{clef}` |
| StaffInfo.UpdateDef | src/StaffInfo.js:68-71 | the flags become the diff of the old definition against the new one, then the new one is stored; fails iff both are undefined |
| StaffInfo.UpdateDefCorrected | src/StaffInfo.js:68-71 | as `UpdateDef`, with the corrected first-definition diff |
| StaffInfo.UpdateDefTwice | src/StaffInfo.js:68-71 | repeating the same defined `updateDef(d)` gives all-false flags, as written and corrected |
| Pointers.StartRefOf | src/PointerCollections.js:104-116 | a truthy `@startid` wins and loses its first character; otherwise a truthy `@tstamp`; no reference iff neither is truthy |
| Pointers.DirectIdRoundTrip | src/PointerCollections.js:104-106 | `@startid="#id"` resolves to `id` whatever else the element carries |
| Pointers.FindNumbered | src/eventpointer/EventPointerCollection.js:83-84 | the first staff (or layer) with the requested `@n`; none iff no element has it |
| Pointers.SelectLayer | src/eventpointer/EventPointerCollection.js:84-94 | the numbered layer if present; otherwise the first layer iff it exists and has no `@n`; none exactly when both fail |
| Pointers.LocalTstamp2Id | src/eventpointer/EventPointerCollection.js:81-104 | fails for a missing staff element, then a missing layer, then a missing staff definition, then a falsy meter count or unit; otherwise returns `tstamp2id(tstamp, layer, meter)` |
| Pointers.TimestampDefaults | src/eventpointer/EventPointerCollection.js:73-78 | without `@staff` and `@layer`, staff "1" and layer "1" are used, and an unnumbered only layer is accepted |
| Pointers.NumberedLayerIsNoFallback | src/eventpointer/EventPointerCollection.js:85-94 | a first layer numbered differently from the request is never used |
| Pointers.ReadModel | src/eventpointer/EventPointerCollection.js:109-128 | an element is skipped iff it has no reference; a direct id becomes a model at once; a timestamp becomes a model or that resolution's error |
| Pointers.ScanContinue | src/PointerCollections.js:99-122 | the first element whose resolution fails ends the call with its error; every element before it has pushed its model (if it has a reference) or been warned about (if not), in order; without a failure that covers all elements |
| Pointers.ContinueErrorIsFirst | src/PointerCollections.js:99-121 | a failing call carries the error of the first failing element, and its models and warnings are exactly those of the elements before it |
| Pointers.ScanAbort | src/eventpointer/EventPointerCollection.js:106-129 | models come from a prefix of the elements; at most one warning, for the element right after that prefix, and then nothing later is read; an error likewise ends the prefix |
| Pointers.AbortIsPrefixOfContinue | src/eventpointer/EventPointerCollection.js:118-121 | when skipping succeeds, aborting succeeds too and its models are a prefix of the skipping variant's; the two agree when no element lacks a reference |
| Pointers.SkipPoliciesDiffer | src/PointerCollections.js:111-115 | an unreferenced element followed by a direct one: the first variant keeps the second model, the second variant keeps none |
| Pointers.CreateInfos | src/PointerCollections.js:64-123 | the models read are appended to those already collected, under either skip policy, with that policy's warnings and error |
| Pointers.AddModel | src/eventpointer/EventPointerCollection.js:136-138 | exactly one model is appended and the others are unchanged |
| Pointers.GetModelsAfterAdds | src/eventpointer/EventPointerCollection.js:136-146 | models added one by one come back from `getModels` in the order added |
| Text.Trim | src/PointerCollections.js:214 | no white space at either end; the result is the input without its leading and trailing white space; the visible characters are kept |
| Text.CollapseSpaces | src/PointerCollections.js:167 | the words (maximal runs without white space) are kept, and between, before and after them every run of white space becomes exactly one plain space: the result equals the independent `SpacedWords` form |
| Text.CollapsedUnique | src/PointerCollections.js:167 | the collapse contract admits exactly one result for each input |
| PointerMarks.DirectiveText | src/PointerCollections.js:167 | a directive's text is exactly the words of the element text joined by single plain spaces, with no white space at either end |
| PointerMarks.AddOrnamentToNote | src/PointerCollections.js:321-339 | a trill above the note, with an upper or lower accidental iff `@accidupper` or `@accidlower` is truthy |
| PointerMarks.DirectivePlacement | src/PointerCollections.js:166-178 | a directive goes to the bottom iff `@place` is "below", always has zero width, and its text is the element text's words joined by single spaces |
| PointerMarks.DynamicsPlacement | src/PointerCollections.js:213-219 | a dynamic goes to the bottom unless `@place` is "above", keeps its width, and its text keeps the element's visible characters |
| PointerMarks.FermataAndOrnamentPlacement | src/PointerCollections.js:272-275 | a fermata's glyph and position are both keyed by `@place`; an ornament is always above |
| PointerMarks.AttachmentFor | src/PointerCollections.js:164-165 | a model attaches iff its `startid` is in the note table, and then to that entry's note |
| PointerMarks.RealizeModels | src/PointerCollections.js:159-185 | attachments are the resolvable models' marks in reverse model order; reports are the unresolved ids in reverse order; every model gives exactly one of the two |
| PointerMarks.CreateVexFromInfos | src/PointerCollections.js:60-62 | the base collection always fails; every concrete kind realises all its models |
| PointerMarks.DanglingModelIsDropped | src/PointerCollections.js:179-183 | an unresolvable model adds one report and leaves every other attachment as it was |
| Hairpins.ValidateAtts | src/mei2vf/eventlink/Hairpins.js:47-51 | fails iff `@form` is absent or empty |
| Hairpins.Endpoint | src/mei2vf/eventlink/Hairpins.js:57-58 | an id missing from the note table gives the empty endpoint, not an error |
| Hairpins.SplitCalls | src/mei2vf/eventlink/Hairpins.js:60-65 | two calls `(first, —)` and `(—, last)` when both systems are known and differ, else the one call `(first, last)` |
| Hairpins.CreateSingleHairpin | src/mei2vf/eventlink/Hairpins.js:70-111 | nothing iff neither end has a note; otherwise one hairpin between the ends' notes with height 10, zero shifts and the model's form and place |
| Hairpins.ModelOutput | src/mei2vf/eventlink/Hairpins.js:53-68 | a cross-system model gives exactly the two halves; any other gives one hairpin, or none and one warning when neither id resolves; always at most two |
| Hairpins.AllHairpinsShape | src/mei2vf/eventlink/Hairpins.js:96-109 | at most two hairpins per model, every one with the fixed geometry |
| Hairpins.AllHairpinsAppend | src/mei2vf/eventlink/Hairpins.js:55-66 | models are processed in forward order: the output for `a + b` is that of `a` followed by that of `b` |
| Hairpins.CreateVexFromInfos | src/mei2vf/eventlink/Hairpins.js:53-68 | the new hairpins are appended after the existing objects, at most two per model, and the warnings add up |
| Verses.Empty | src/mei2vf/lyrics/Verses.js:34-40 | a new stacker has no group |
| Verses.VerseNumber | src/mei2vf/lyrics/Verses.js:56-61 | the parent's `@n` when the parent is a `<verse>` carrying one, otherwise "1" |
| Verses.AddSyllable | src/mei2vf/lyrics/Verses.js:51-80 | the syllable is appended to exactly its `[staff][verse]` group, which is created on first use with its key added last; the hyphenation tracker gets it iff `@wordpos` is truthy; other groups and staves are unchanged |
| Verses.AddSyllableWellformed | src/mei2vf/lyrics/Verses.js:63-72 | each staff's key list keeps listing each verse exactly once |
| Verses.GroupsPartition | src/mei2vf/lyrics/Verses.js:63-74 | after a run of `addSyllable` calls each group holds exactly the syllables of the calls for its staff and verse, in call order |
| JsObject.ForInOrder | src/mei2vf/lyrics/Verses.js:123 | the same verse keys, index keys first in ascending numeric order, then the other keys in creation order |
| JsObject.NamedKeysKeepOrder | src/mei2vf/lyrics/Verses.js:123 | verse keys that are not array indices are visited in creation order |
| Verses.VerseMax | src/mei2vf/lyrics/Verses.js:127-142 | the first pass ends at least at its start value and at every syllable's `preProcess()`, and equal to one of them |
| Verses.BaselineAt | src/mei2vf/lyrics/Verses.js:123-139 | verse k's baseline is the fold of its syllables starting from the previous baseline (or -20) plus 20 |
| Verses.BaselineBounds | src/mei2vf/lyrics/Verses.js:125-146 | each baseline is at least 20 below the previous one and at or below every syllable of its verse, and equal to one of those bounds |
| Verses.BaselinesStack | src/mei2vf/lyrics/Verses.js:121-125 | a later verse's baseline is at least 20 per verse below an earlier one |
| Verses.LowestYBounds | src/mei2vf/lyrics/Verses.js:118-150 | a staff's lowest y is at least −20 + 20 × verses and at or below every syllable of the staff |
| Verses.FormatStaff | src/mei2vf/lyrics/Verses.js:119-150 | the two-pass loop gives every syllable of verse k text line 0 and the k-th baseline, and ends on the last baseline (−20 without verses) |
| Verses.FoldVerse | src/mei2vf/lyrics/Verses.js:127-142 | the first-pass loop computes the fold of `Math.max` over the verse |
| Verses.PlaceVerse | src/mei2vf/lyrics/Verses.js:144-147 | the second-pass loop gives every syllable the same y, in verse order |
| Verses.FormatStaffVerses | src/mei2vf/lyrics/Verses.js:118-150 | the loops on one staff, taking verses in `for…in` order, compute exactly that staff's lowest y and placements |
| Verses.Format | src/mei2vf/lyrics/Verses.js:118-152 | each staff with verses gets its own lowest y, depending on that staff only; entries of other staves are kept |
| Verses.FormatPlacements | src/mei2vf/lyrics/Verses.js:144-146 | placements exist for exactly the staves with verses, each computed from its own staff |
| Verses.GetLowestY | src/mei2vf/lyrics/Verses.js:92-94 | undefined iff the staff was never formatted, else its stored value |
| GraceChord.MaxOf | src/event/GraceChord.js:43 | `Math.max` of the child durations: −Infinity for none, NaN iff some is NaN, else the largest |
| GraceChord.NumberOrZero | src/event/GraceChord.js:33 | `+x \|\| 0`: the number when truthy, else 0 |
| GraceChord.LoopCountExact | src/event/GraceChord.js:62-64 | the dot loop runs once for each natural below the dot count, and no more |
| GraceChord.AppendDots | src/event/GraceChord.js:44-46 | the duration gets exactly as many `d` suffixes as the dot loop runs |
| GraceChord.ChildDurations | src/event/GraceChord.js:38-39 | one `+@dur` per child, in child order |
| GraceChord.LastChildDots | src/event/GraceChord.js:38-42 | the dot count left by the child loop is the last child's, or 0 without children |
| GraceChord.LastChildDotsWin | src/event/GraceChord.js:40 | without `@dur` an earlier child's `@dots` is overwritten by the last child's |
| GraceChord.Build | src/event/GraceChord.js:23-68 | one key per child, in order; with `@dur` the duration is `processAttsDuration`, else `translateDuration` of the largest child duration plus the dot suffix; the dot calls match the loop; slash iff `@stem.mod` is "1slash"; the clef is copied |

## Left out

- Drawing is left out. This covers `Measure.draw`, what a voice does when drawn, `Verses.drawHyphens`, and the Bézier curves of src/mei2vf/overrides/Curve.js. The voice stack's draw call order is modelled.
- `addRehearsalMarks` and `addTempoToStaves` are left out. They only tune glyph offsets with pixel constants.
- The `setX` fallback in `Measure.format` (src/Measure.js:314-322) is left out. Only the `setX(x)` branch is modelled.
- `Measure.getX`, `getN`, `getStaffs` and the other plain getters are left out.
- The drawing library's internals are abstract. Joint voice formatting, `setWidth` (modelled only as end = x + width), `getNoteStartX` and `getTieStartX` are inputs.
- `MeiLib.tstamp2id`, the voices' `preFormat`, a syllable's `preProcess` and the `EventUtil` helpers are function parameters.
- `EventUtil.setStemDir`, `setStave`, `processAttrHo`, articulations and fermata attributes in `GraceChord` are left out.
- The lookup tables are not part of this model. Fermata glyphs, positions, hairpin types and accidentals are kept as the keys that index them.
- Hyphenation is left out. The hyphenation tracker is modelled as the list of `(syllable, wordpos)` pairs it receives; its drawing and font handling are not.
- In `Verses.format`, three things are left out: the `setNote` call for a modifier context with several notes, the `font.size` assignment and the unused `lowestTextLine`. The `setNote` call can change what `preProcess()` then measures. The abstract `preProcess` parameter therefore stands for the value a syllable reports after that call. The `font.size` assignment and `lowestTextLine` do not affect a baseline.
- Timestamp resolution in src/PointerCollections.js:77-87 is modelled with the element-level layer lookup of src/eventpointer/EventPointerCollection.js:83-94. The jQuery version's fallback depends on the truthiness of a jQuery set, which the model does not represent.
- Log messages are left out. Warnings are returned as lists of elements or ids, or as a count for hairpins.
- `JsNumber.ToNumber`: exponent notation, hexadecimal literals and `Infinity` read as NaN. MEI widths, durations and dot counts are plain decimals.
- `JsObject.ForInOrder`: keys inherited from `Object.prototype` are not modelled.
- `Measure.Format` requires the final width to be set. If the source ran `format` before `setFinalWidth`, it would pass `undefined` to `setWidth`.
- `Measure.SetFinalWidth` requires an explicit or a minimum width. Without either, the source would compute `undefined + additionalWidth`.
- Hairpin endpoints: every entry of the note table carries a note, so "an endpoint without `vexNote`" is the empty endpoint of a missing id.
- src/mei2vf/eventpointer/Arpeggios.js is not part of this model. Its resolution is the inherited `createInfos`.
- tests/spec/voice/StaveVoices.js is used only as evidence of call order.

## Findings

| source | as written | input that shows it | evidently intended | confidence | as-written member | corrected member |
|---|---|---|---|---|---|---|
| src/StaffInfo.js:34-38 | with no current definition, `result.keysig = true` is written twice and `timesig` is never set | `look4changes(undefined, d)` for any staff definition `d` gives `{clef: true, keysig: true, timesig: false}` | a first definition redraws clef, key signature and time signature: `{true, true, true}` | not executed; read from the source | StaffInfo.FirstDefinitionOmitsTimesig | StaffInfo.Look4ChangesCorrected |
