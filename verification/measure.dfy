/**
 * Width arithmetic and staff positioning of one measure (src/Measure.js).
 *
 * A measure holds a sparse array of staves indexed by staff number. The
 * first layout pass computes the minimum width from the staves' modifier
 * geometry, the voices' own width and a repeat-barline padding; the second
 * pass fixes the final width and positions every stave.
 */
module Measure {
  import opened Wrappers
  import JsNumber
  import StaveVoices

  /** Extra left padding for a repeat-begin barline followed by other modifiers. */
  const REPEAT_PADDING: real := 20.0

  /** The drawing library's barline types. */
  datatype BarlineType = Single | Double | End | RepeatBegin | RepeatEnd | RepeatBoth | NoBarline

  /** A stave modifier; only barlines carry a barline type, the others leave `.barline` undefined. */
  datatype Modifier = Modifier(barline: Option<BarlineType>)

  /**
   * The fields of a drawing-library stave that the layout reads or writes.
   * `noteStartX` and `glyphEndX` are what `getNoteStartX()` and
   * `getGlyphEndX()` report; `texts` are the labels added with `setText`.
   */
  datatype Stave = Stave(
    x: real,
    startX: real,
    width: real,
    endX: real,
    noteStartX: real,
    glyphEndX: real,
    modifiers: seq<Modifier>,
    slurStartX: real,
    texts: seq<string>)

  datatype LayoutError =
    | NoStaffFound      // getFirstDefinedStaff(): no staff in the measure
    | NoFirstModifier   // `staff.modifiers[0].barline` read on an empty modifier list

  /**
   * A measure between its layout passes. `minWidth` and `w` are `None`
   * until `calculateMinWidth` and `setFinalWidth` have run.
   */
  datatype Measure = Measure(
    n: JsNumber.Num,
    staves: seq<Option<Stave>>,
    voices: StaveVoices.Stack,
    meiW: Option<real>,
    maxNoteStartX: real,
    maxEndModifierW: real,
    repeatPadding: real,
    minVoicesW: real,
    minWidth: Option<real>,
    w: Option<real>)

  function Max(a: real, b: real): (m: real)
    ensures m >= a && m >= b && (m == a || m == b)
  {
    if a >= b then a else b
  }

  /**
   * `readMEIW`: `+@width || null`. The width is absent exactly when the
   * attribute reads as 0 or NaN; any other number, negative ones included,
   * is kept.
   */
  function ReadMEIW(width: Option<string>): (r: Option<real>)
    ensures r.None? <==> !JsNumber.Truthy(JsNumber.FromAttr(width))
    ensures r.Some? ==> JsNumber.FromAttr(width) == JsNumber.Num(r.value)
  {
    var v := JsNumber.FromAttr(width);
    if JsNumber.Truthy(v) then Some(v.value) else None
  }

  /** The measure as `init` leaves it: both maxima at 0, the explicit width read from `@width`. */
  function Init(nAttr: Option<string>, width: Option<string>, staves: seq<Option<Stave>>,
                voices: StaveVoices.Stack): (m: Measure)
    ensures m.staves == staves && m.voices == voices
    ensures m.maxNoteStartX == 0.0 && m.maxEndModifierW == 0.0
    ensures m.meiW == ReadMEIW(width) && m.n == JsNumber.FromAttr(nAttr)
    ensures m.minWidth.None? && m.w.None?
  {
    Measure(JsNumber.FromAttr(nAttr), staves, voices, ReadMEIW(width), 0.0, 0.0, 0.0, 0.0, None, None)
  }

  predicate Defined(staves: seq<Option<Stave>>, i: int)
  {
    0 <= i < |staves| && staves[i].Some?
  }

  /** Index of the first defined slot at or after `from`, if any. */
  function FirstDefinedFrom(staves: seq<Option<Stave>>, from: nat): (r: Option<nat>)
    requires from <= |staves|
    ensures r.Some? ==> from <= r.value < |staves| && staves[r.value].Some?
    ensures r.Some? ==> forall j :: from <= j < r.value ==> staves[j].None?
    ensures r.None? ==> forall j :: from <= j < |staves| ==> staves[j].None?
    decreases |staves| - from
  {
    if from == |staves| then None
    else if staves[from].Some? then Some(from)
    else FirstDefinedFrom(staves, from + 1)
  }

  /**
   * `getFirstDefinedStaff`: the stave in the lowest-indexed defined slot,
   * and a `NoStaffFound` error when no slot is defined.
   */
  function FirstDefinedStaff(staves: seq<Option<Stave>>): (r: Result<Stave, LayoutError>)
    ensures r.Failure? <==> forall j :: 0 <= j < |staves| ==> staves[j].None?
    ensures r.Failure? ==> r.error == NoStaffFound
    ensures r.Success? ==> exists i :: FirstDefinedAt(staves, i) && staves[i] == Some(r.value)
  {
    match FirstDefinedFrom(staves, 0)
    case None => Failure(NoStaffFound)
    case Some(i) =>
      assert FirstDefinedAt(staves, i);
      Success(staves[i].value)
  }

  /** Slot `i` is defined and no slot before it is. */
  predicate FirstDefinedAt(staves: seq<Option<Stave>>, i: int)
  {
    Defined(staves, i) && forall j :: 0 <= j < i ==> staves[j].None?
  }

  /**
   * The running maximum of `calculateMaxNoteStartX` and
   * `calculateMaxEndModifierWidth`: starting from `acc`, the slots are
   * visited from the last to the first (`while (i--)`) and every defined
   * stave's value `f` is folded in with `Math.max`; undefined slots are
   * skipped. The result is the maximum of `acc` and those values.
   */
  function RunningMax(acc: real, staves: seq<Option<Stave>>, f: Stave -> real): (r: real)
    ensures r >= acc
    ensures forall i :: Defined(staves, i) ==> r >= f(staves[i].value)
    ensures r == acc || exists i :: Defined(staves, i) && r == f(staves[i].value)
    decreases |staves|
  {
    if |staves| == 0 then acc
    else
      var init := staves[..|staves| - 1];
      var last := staves[|staves| - 1];
      var acc' := if last.Some? then Max(acc, f(last.value)) else acc;
      var r := RunningMax(acc', init, f);
      assert forall i :: Defined(init, i) ==> Defined(staves, i) && init[i] == staves[i];
      r
  }

  /** The space a stave's left modifiers take: `getNoteStartX()`. */
  function NoteStartX(s: Stave): real
  {
    s.noteStartX
  }

  /** The space a stave's right modifiers take: `getGlyphEndX() - end_x`. */
  function EndModifierW(s: Stave): real
  {
    s.glyphEndX - s.endX
  }

  /** Any two values that are "the maximum of `acc` and the defined staves' values" coincide. */
  lemma RunningMaxUnique(acc: real, staves: seq<Option<Stave>>, f: Stave -> real, a: real, b: real)
    requires a >= acc && forall i :: Defined(staves, i) ==> a >= f(staves[i].value)
    requires a == acc || exists i :: Defined(staves, i) && a == f(staves[i].value)
    requires b >= acc && forall i :: Defined(staves, i) ==> b >= f(staves[i].value)
    requires b == acc || exists i :: Defined(staves, i) && b == f(staves[i].value)
    ensures a == b
  {
  }

  /** Folding the same staves in a second time changes nothing: the maximum is already reached. */
  lemma RunningMaxIdempotent(acc: real, staves: seq<Option<Stave>>, f: Stave -> real)
    ensures RunningMax(RunningMax(acc, staves, f), staves, f) == RunningMax(acc, staves, f)
  {
    var r1 := RunningMax(acc, staves, f);
    var r2 := RunningMax(r1, staves, f);
    RunningMaxUnique(r1, staves, f, r2, r1);
  }

  /** A larger starting value never gives a smaller maximum. */
  lemma {:induction false} RunningMaxMonotone(a: real, b: real, staves: seq<Option<Stave>>, f: Stave -> real)
    requires a <= b
    ensures RunningMax(a, staves, f) <= RunningMax(b, staves, f)
    decreases |staves|
  {
    if |staves| > 0 {
      var init := staves[..|staves| - 1];
      var last := staves[|staves| - 1];
      var a' := if last.Some? then Max(a, f(last.value)) else a;
      var b' := if last.Some? then Max(b, f(last.value)) else b;
      RunningMaxMonotone(a', b', init, f);
    }
  }

  /**
   * `calculateRepeatPadding`: 20 when the first defined stave's first
   * modifier is a repeat-begin barline and the stave has more than two
   * modifiers, 0 otherwise. Reading `modifiers[0]` of a stave without
   * modifiers fails, as does a measure without staves.
   */
  function RepeatPadding(staves: seq<Option<Stave>>): (r: Result<real, LayoutError>)
    ensures r.Failure? <==>
      (FirstDefinedStaff(staves).Failure? || |FirstDefinedStaff(staves).value.modifiers| == 0)
    ensures r.Success? ==> r.value == 0.0 || r.value == REPEAT_PADDING
    ensures r.Success? ==>
      var first := FirstDefinedStaff(staves).value;
      (r.value == REPEAT_PADDING <==>
        first.modifiers[0].barline == Some(RepeatBegin) && |first.modifiers| > 2)
  {
    match FirstDefinedStaff(staves)
    case Failure(e) => Failure(e)
    case Success(first) =>
      if |first.modifiers| == 0 then Failure(NoFirstModifier)
      else if first.modifiers[0].barline == Some(RepeatBegin) && |first.modifiers| > 2 then Success(REPEAT_PADDING)
      else Success(0.0)
  }

  /** A lone repeat-begin barline, or one followed by a single modifier, adds no padding; with two more it adds 20. */
  lemma RepeatPaddingBoundary(s: Stave, other: Modifier)
    ensures RepeatPadding([None, Some(s.(modifiers := [Modifier(Some(RepeatBegin))]))]) == Success(0.0)
    ensures RepeatPadding([Some(s.(modifiers := [Modifier(Some(RepeatBegin)), other]))]) == Success(0.0)
    ensures RepeatPadding([Some(s.(modifiers := [Modifier(Some(RepeatBegin)), other, other]))]) == Success(REPEAT_PADDING)
  {
    var s1 := s.(modifiers := [Modifier(Some(RepeatBegin))]);
    assert FirstDefinedAt([None, Some(s1)], 1);
  }

  /** The sum that makes up the minimum width. */
  function MinWidthOf(noteStart: real, endModifiers: real, voicesW: real, padding: real): real
  {
    noteStart + endModifiers + voicesW + padding
  }

  /**
   * `calculateMinWidth`: updates both running maxima, the repeat padding and
   * the voices' width `preFormat(voices)`, and sets the minimum width to
   * their sum. It fails when the repeat padding cannot be determined.
   */
  function CalculateMinWidth(m: Measure, preFormat: StaveVoices.Stack -> real): (r: Result<Measure, LayoutError>)
    ensures r.Failure? <==> RepeatPadding(m.staves).Failure?
    ensures r.Success? ==> MinWidthCalculated(m, preFormat, r.value)
  {
    var noteStart := RunningMax(m.maxNoteStartX, m.staves, NoteStartX);
    var endMods := RunningMax(m.maxEndModifierW, m.staves, EndModifierW);
    match RepeatPadding(m.staves)
    case Failure(e) => Failure(e)
    case Success(padding) =>
      var voicesW := preFormat(m.voices);
      var m' := m.(maxNoteStartX := noteStart, maxEndModifierW := endMods, repeatPadding := padding,
                   minVoicesW := voicesW, minWidth := Some(MinWidthOf(noteStart, endMods, voicesW, padding)));
      UpdateCalculates(m, preFormat, m', noteStart, endMods, padding, voicesW);
      Success(m')
  }

  /**
   * What `calculateMinWidth` stores in `m'`: each running maximum is the
   * fold over the defined staves (so it bounds every one of them and the
   * old value), the repeat padding is the one the first defined stave
   * calls for, the voices' width is `preFormat`'s, the minimum width is
   * the sum of the four, and no other field changes.
   */
  ghost predicate MinWidthCalculated(m: Measure, preFormat: StaveVoices.Stack -> real, m': Measure)
  {
    && m'.maxNoteStartX == RunningMax(m.maxNoteStartX, m.staves, NoteStartX)
    && m'.maxNoteStartX >= m.maxNoteStartX
    && (forall i :: Defined(m.staves, i) ==> m'.maxNoteStartX >= m.staves[i].value.noteStartX)
    && m'.maxEndModifierW == RunningMax(m.maxEndModifierW, m.staves, EndModifierW)
    && m'.maxEndModifierW >= m.maxEndModifierW
    && (forall i :: Defined(m.staves, i) ==>
          m'.maxEndModifierW >= m.staves[i].value.glyphEndX - m.staves[i].value.endX)
    && RepeatPadding(m.staves).Success?
    && m'.repeatPadding == RepeatPadding(m.staves).value
    && (m'.repeatPadding == 0.0 || m'.repeatPadding == REPEAT_PADDING)
    && m'.minVoicesW == preFormat(m.voices)
    && m'.minWidth == Some(m'.maxNoteStartX + m'.maxEndModifierW + m'.minVoicesW + m'.repeatPadding)
    && m' == m.(maxNoteStartX := m'.maxNoteStartX, maxEndModifierW := m'.maxEndModifierW,
                repeatPadding := m'.repeatPadding, minVoicesW := m'.minVoicesW, minWidth := m'.minWidth)
  }

  lemma UpdateCalculates(m: Measure, preFormat: StaveVoices.Stack -> real, m': Measure,
                         noteStart: real, endMods: real, padding: real, voicesW: real)
    requires noteStart == RunningMax(m.maxNoteStartX, m.staves, NoteStartX)
    requires endMods == RunningMax(m.maxEndModifierW, m.staves, EndModifierW)
    requires RepeatPadding(m.staves) == Success(padding)
    requires voicesW == preFormat(m.voices)
    requires m' == m.(maxNoteStartX := noteStart, maxEndModifierW := endMods, repeatPadding := padding,
                      minVoicesW := voicesW, minWidth := Some(MinWidthOf(noteStart, endMods, voicesW, padding)))
    ensures MinWidthCalculated(m, preFormat, m')
  {
    UpdateKeepsOthers(m, m', noteStart, endMods, padding, voicesW);
  }

  /** The measure `calculateMinWidth` stores differs from the old one in the five layout fields only. */
  lemma UpdateKeepsOthers(m: Measure, m': Measure, noteStart: real, endMods: real, padding: real, voicesW: real)
    requires m' == m.(maxNoteStartX := noteStart, maxEndModifierW := endMods, repeatPadding := padding,
                      minVoicesW := voicesW, minWidth := Some(MinWidthOf(noteStart, endMods, voicesW, padding)))
    ensures m'.maxNoteStartX == noteStart && m'.maxEndModifierW == endMods && m'.repeatPadding == padding
    ensures m'.minVoicesW == voicesW
    ensures m'.minWidth == Some(m'.maxNoteStartX + m'.maxEndModifierW + m'.minVoicesW + m'.repeatPadding)
    ensures m' == m.(maxNoteStartX := m'.maxNoteStartX, maxEndModifierW := m'.maxEndModifierW,
                     repeatPadding := m'.repeatPadding, minVoicesW := m'.minVoicesW, minWidth := m'.minWidth)
  {
  }

  /** Running `calculateMinWidth` a second time on an unchanged measure gives the same measure. */
  lemma MinWidthIdempotent(m: Measure, preFormat: StaveVoices.Stack -> real)
    requires RepeatPadding(m.staves).Success?
    ensures CalculateMinWidth(CalculateMinWidth(m, preFormat).value, preFormat) == CalculateMinWidth(m, preFormat)
  {
    RunningMaxIdempotent(m.maxNoteStartX, m.staves, NoteStartX);
    RunningMaxIdempotent(m.maxEndModifierW, m.staves, EndModifierW);
  }

  /**
   * The minimum width does not decrease when the voices need more room or
   * when the maxima start from larger values.
   */
  lemma MinWidthMonotone(m1: Measure, m2: Measure, pf1: StaveVoices.Stack -> real, pf2: StaveVoices.Stack -> real)
    requires m1.staves == m2.staves
    requires m1.maxNoteStartX <= m2.maxNoteStartX && m1.maxEndModifierW <= m2.maxEndModifierW
    requires pf1(m1.voices) <= pf2(m2.voices)
    requires RepeatPadding(m1.staves).Success?
    ensures CalculateMinWidth(m2, pf2).Success?
    ensures CalculateMinWidth(m1, pf1).value.minWidth.value <= CalculateMinWidth(m2, pf2).value.minWidth.value
  {
    RunningMaxMonotone(m1.maxNoteStartX, m2.maxNoteStartX, m1.staves, NoteStartX);
    RunningMaxMonotone(m1.maxEndModifierW, m2.maxEndModifierW, m1.staves, EndModifierW);
  }

  /**
   * `setFinalWidth(additionalWidth)`: the explicit `@width` when there is
   * one, whatever `additionalWidth` is; otherwise the minimum width plus
   * `additionalWidth`. Nothing else changes.
   */
  function SetFinalWidth(m: Measure, additionalWidth: real): (r: Measure)
    requires m.meiW.Some? || m.minWidth.Some?
    ensures m.meiW.Some? ==> r.w == m.meiW
    ensures m.meiW.None? ==> r.w == Some(m.minWidth.value + additionalWidth)
    ensures r == m.(w := r.w)
  {
    if m.meiW.None? then m.(w := Some(m.minWidth.value + additionalWidth)) else m.(w := m.meiW)
  }

  /** With an explicit width the additional width is ignored; without one the width grows with it. */
  lemma FinalWidthPrecedence(m: Measure, a: real, b: real)
    requires m.meiW.Some? || m.minWidth.Some?
    ensures m.meiW.Some? ==> SetFinalWidth(m, a) == SetFinalWidth(m, b)
    ensures m.meiW.None? && a <= b ==> SetFinalWidth(m, a).w.value <= SetFinalWidth(m, b).w.value
  {
  }

  /** `slurStartX || fallback`: a missing or zero carried slur start falls back. */
  function CarrySlur(slurStartX: Option<real>, fallback: real): (r: real)
    ensures slurStartX.Some? && slurStartX.value != 0.0 ==> r == slurStartX.value
    ensures slurStartX.None? || slurStartX.value == 0.0 ==> r == fallback
  {
    if slurStartX.Some? && slurStartX.value != 0.0 then slurStartX.value else fallback
  }

  /** `labels[i]` when it is a string; a missing `labels` array is the empty sequence. */
  function LabelAt(labels: seq<Option<string>>, i: nat): Option<string>
  {
    if i < |labels| then labels[i] else None
  }

  /** Where the drawing library's `setWidth(w)` puts the end of a stave starting at `x`. */
  function EndAfterSetWidth(x: real, w: real): real
  {
    x + w
  }

  /**
   * One defined stave positioned by `format`: labelled when a label is
   * given, moved to `x`, its notes starting `maxNoteStartX` after `x`, its
   * width set to the measure's width and its end pulled in by the widest
   * right-modifier block, and its slur start set from the carried value
   * or, failing that, its own tie start.
   */
  function Position(s: Stave, caption: Option<string>, x: real, m: Measure, w: real,
                    slurStartX: Option<real>, tieStartX: Stave -> real): (r: Stave)
    ensures r.x == x && r.startX == x + m.maxNoteStartX && r.width == w
    ensures r.endX == EndAfterSetWidth(x, w) - m.maxEndModifierW
    ensures r.texts == (if caption.Some? then s.texts + [caption.value] else s.texts)
    ensures r.noteStartX == s.noteStartX && r.glyphEndX == s.glyphEndX && r.modifiers == s.modifiers
    ensures r.slurStartX == CarrySlur(slurStartX, tieStartX(r.(slurStartX := s.slurStartX)))
  {
    var labelled := if caption.Some? then s.(texts := s.texts + [caption.value]) else s;
    var placed := labelled.(x := x, startX := x + m.maxNoteStartX, width := w,
                            endX := EndAfterSetWidth(x, w) - m.maxEndModifierW);
    placed.(slurStartX := CarrySlur(slurStartX, tieStartX(placed)))
  }

  /** The outcome of `format`: the positioned measure, the slur start carried to the next measure and the voices' format call. */
  datatype Formatted = Formatted(measure: Measure, carriedSlurX: real, voiceFormat: StaveVoices.JoinFormat<Stave>)

  /**
   * `format(x, labels, slurStartX)`: positions every defined stave (from
   * the last slot to the first), hands the voices to the joint formatter
   * against the first defined stave and returns the slur start the next
   * measure carries forward, read from the first defined stave. Undefined
   * slots stay undefined; a measure without staves fails.
   */
  method Format(m: Measure, x: real, labels: seq<Option<string>>, slurStartX: Option<real>,
                tieStartX: Stave -> real) returns (r: Result<Formatted, LayoutError>)
    requires m.w.Some?
    ensures r.Failure? <==> forall j :: 0 <= j < |m.staves| ==> m.staves[j].None?
    ensures r.Success? ==>
      var m' := r.value.measure;
      && |m'.staves| == |m.staves|
      && m' == m.(staves := m'.staves)
      && (forall i :: 0 <= i < |m.staves| && m.staves[i].None? ==> m'.staves[i].None?)
      && (forall i :: Defined(m.staves, i) ==>
            m'.staves[i] == Some(Position(m.staves[i].value, LabelAt(labels, i), x, m, m.w.value,
                                          slurStartX, tieStartX)))
    ensures r.Success? ==>
      exists i :: FirstDefinedAt(r.value.measure.staves, i) &&
        r.value.carriedSlurX == CarrySlur(slurStartX, tieStartX(r.value.measure.staves[i].value)) &&
        r.value.voiceFormat == StaveVoices.Format(m.voices, r.value.measure.staves[i].value)
  {
    var staves := m.staves;
    var i := |staves|;
    while i > 0
      invariant 0 <= i <= |m.staves| && |staves| == |m.staves|
      invariant forall j :: 0 <= j < i ==> staves[j] == m.staves[j]
      invariant forall j :: i <= j < |staves| && m.staves[j].None? ==> staves[j].None?
      invariant forall j :: i <= j < |staves| && m.staves[j].Some? ==>
        staves[j] == Some(Position(m.staves[j].value, LabelAt(labels, j), x, m, m.w.value, slurStartX, tieStartX))
    {
      i := i - 1;
      if staves[i].Some? {
        staves := staves[i := Some(Position(staves[i].value, LabelAt(labels, i), x, m, m.w.value,
                                            slurStartX, tieStartX))];
      }
    }
    var m' := m.(staves := staves);
    match FirstDefinedStaff(staves)
    case Failure(e) =>
      r := Failure(e);
    case Success(first) =>
      r := Success(Formatted(m', CarrySlur(slurStartX, tieStartX(first)), StaveVoices.Format(m.voices, first)));
  }
}
