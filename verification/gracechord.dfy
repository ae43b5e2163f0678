/**
 * GraceChord (src/event/GraceChord.js): the options a grace chord is built
 * from — one key per child note, a duration string, a dot count and the
 * slash flag — derived from the chord's attributes and its children.
 */
module GraceChord {
  import opened Wrappers
  import Mei
  import JsNumber

  /** A child `<note>` of the chord: its attributes (read with `getAttribute`). */
  datatype Child = Child(atts: map<string, string>)

  /** The clef in force: its type and its octave shift. */
  datatype ClefInfo = ClefInfo(clefType: string, shift: int)

  /** The constructor's options: the chord's attributes, its children and the clef. */
  datatype Options = Options(atts: map<string, string>, children: seq<Child>, clef: ClefInfo)

  /**
   * What the constructor hands to the drawing library: the keys, the duration
   * string, the clef and octave shift, the number of `addDotToAll` calls and
   * the slash flag.
   */
  datatype GraceNote = GraceNote(keys: seq<string>, duration: string, clefType: string, octaveShift: int,
                                 dotCalls: nat, slash: bool)

  /** The result of `Math.max` over numbers: `-Infinity` for no argument, NaN when any argument is NaN. */
  datatype MathMax = MinusInfinity | MaxNaN | MaxValue(value: real)

  /** `Math.max.apply(Math, values)`. */
  function MaxOf(values: seq<JsNumber.Num>): (r: MathMax)
    ensures |values| == 0 <==> r.MinusInfinity?
    ensures r.MaxNaN? <==> exists i :: 0 <= i < |values| && values[i].NaN?
    ensures r.MaxValue? ==> forall i :: 0 <= i < |values| ==> values[i].Num? && values[i].value <= r.value
    ensures r.MaxValue? ==> exists i :: 0 <= i < |values| && values[i] == JsNumber.Num(r.value)
  {
    if |values| == 0 then MinusInfinity
    else
      var rest := MaxOf(values[..|values| - 1]);
      var last := values[|values| - 1];
      assert forall i :: 0 <= i < |values| - 1 ==> values[..|values| - 1][i] == values[i];
      match (rest, last)
      case (MaxNaN, _) => MaxNaN
      case (_, NaN) => MaxNaN
      case (MinusInfinity, Num(v)) => MaxValue(v)
      case (MaxValue(m), Num(v)) => MaxValue(if v > m then v else m)
  }

  /** `+x || 0`: the number, or 0 when it is 0 or NaN. */
  function NumberOrZero(n: JsNumber.Num): (r: real)
    ensures JsNumber.Truthy(n) ==> r == n.value
    ensures !JsNumber.Truthy(n) ==> r == 0.0
  {
    if JsNumber.Truthy(n) then n.value else 0.0
  }

  /**
   * How often `for (i = 0; i < dots; i += 1)` runs: the number of naturals
   * below `dots` — zero for a non-positive count, the ceiling otherwise.
   */
  function LoopCount(dots: real): (r: nat)
  {
    if dots <= 0.0 then 0
    else if dots == dots.Floor as real then dots.Floor
    else dots.Floor + 1
  }

  /** The loop runs once for each natural `i` with `i < dots`, and for no other. */
  lemma LoopCountExact(dots: real, i: nat)
    ensures i < LoopCount(dots) <==> (i as real) < dots
  {
    if dots > 0.0 && dots != dots.Floor as real {
      assert (dots.Floor as real) < dots < (dots.Floor as real) + 1.0;
    }
  }

  /** `n` copies of the dot suffix `d`. */
  function DotSuffix(n: nat): (r: string)
    ensures |r| == n
    ensures forall i :: 0 <= i < n ==> r[i] == 'd'
  {
    seq(n, i => 'd')
  }

  /** The loop appending one `d` to the duration for every dot. */
  method AppendDots(duration: string, dots: real) returns (r: string)
    ensures r == duration + DotSuffix(LoopCount(dots))
  {
    r := duration;
    var i: nat := 0;
    while (i as real) < dots
      invariant i <= LoopCount(dots)
      invariant r == duration + DotSuffix(i)
      decreases LoopCount(dots) - i
    {
      LoopCountExact(dots, i);
      r := r + "d";
      i := i + 1;
    }
    LoopCountExact(dots, i);
  }

  /** `+child.getAttribute(name)`. */
  function ChildNumber(c: Child, name: string): JsNumber.Num
  {
    JsNumber.FromAttr(Mei.Attr(c.atts, name))
  }

  /** The `@dur` of every child, in child order. */
  function ChildDurations(children: seq<Child>): (r: seq<JsNumber.Num>)
    ensures |r| == |children|
    ensures forall i :: 0 <= i < |children| ==> r[i] == ChildNumber(children[i], "dur")
  {
    if |children| == 0 then []
    else [ChildNumber(children[0], "dur")] + ChildDurations(children[1..])
  }

  /** The dot count left by the loop over the children: the last child's, or none when there is no child. */
  function LastChildDots(children: seq<Child>): (r: real)
    ensures |children| == 0 ==> r == 0.0
    ensures |children| > 0 ==> r == NumberOrZero(ChildNumber(children[|children| - 1], "dots"))
  {
    if |children| == 0 then 0.0 else NumberOrZero(ChildNumber(children[|children| - 1], "dots"))
  }

  /** The dot count the constructor ends up with. */
  function DotCount(o: Options): real
  {
    if Mei.Truthy(Mei.Attr(o.atts, "dur")) then NumberOrZero(JsNumber.FromAttr(Mei.Attr(o.atts, "dots")))
    else LastChildDots(o.children)
  }

  /**
   * The constructor. `processAttsDuration`, `getVexPitch` and
   * `translateDuration` are the event utilities it calls.
   */
  method Build(o: Options, processAttsDuration: map<string, string> -> string, getVexPitch: Child -> string,
               translateDuration: MathMax -> string) returns (r: GraceNote)
    ensures |r.keys| == |o.children|
    ensures forall i :: 0 <= i < |o.children| ==> r.keys[i] == getVexPitch(o.children[i])
    ensures Mei.Truthy(Mei.Attr(o.atts, "dur")) ==> r.duration == processAttsDuration(o.atts)
    ensures !Mei.Truthy(Mei.Attr(o.atts, "dur")) ==>
      r.duration == translateDuration(MaxOf(ChildDurations(o.children))) + DotSuffix(LoopCount(LastChildDots(o.children)))
    ensures r.dotCalls == LoopCount(DotCount(o))
    ensures r.slash <==> ("stem.mod" in o.atts && o.atts["stem.mod"] == "1slash")
    ensures r.clefType == o.clef.clefType && r.octaveShift == o.clef.shift
  {
    var keys: seq<string>;
    var duration: string;
    var dots: real;
    if Mei.Truthy(Mei.Attr(o.atts, "dur")) {
      duration := processAttsDuration(o.atts);
      dots := NumberOrZero(JsNumber.FromAttr(Mei.Attr(o.atts, "dots")));
      keys := ReadKeys(o.children, getVexPitch);
    } else {
      var durations;
      keys, durations, dots := ReadChildren(o.children, getVexPitch, ChildNumber);
      DurationsOfChildren(o.children, durations);
      duration := AppendDots(translateDuration(MaxOf(durations)), dots);
    }
    var dotCalls := LoopCount(dots);
    r := GraceNote(keys, duration, o.clef.clefType, o.clef.shift, dotCalls,
                   Mei.Attr(o.atts, "stem.mod") == Some("1slash"));
  }

  /** The loop over the children when `@dur` is given: one key per child. */
  method ReadKeys(children: seq<Child>, getVexPitch: Child -> string) returns (keys: seq<string>)
    ensures |keys| == |children|
    ensures forall i :: 0 <= i < |children| ==> keys[i] == getVexPitch(children[i])
  {
    keys := [];
    var i := 0;
    while i < |children|
      invariant 0 <= i <= |children|
      invariant |keys| == i
      invariant forall m :: 0 <= m < i ==> keys[m] == getVexPitch(children[m])
    {
      keys := keys + [getVexPitch(children[i])];
      i := i + 1;
    }
  }

  /**
   * The loop over the children without `@dur`: one key and one duration per
   * child, and the dots of the child read last. `number` reads a numeric
   * attribute of a child.
   */
  method ReadChildren(children: seq<Child>, getVexPitch: Child -> string, number: (Child, string) -> JsNumber.Num)
    returns (keys: seq<string>, durations: seq<JsNumber.Num>, dots: real)
    ensures |keys| == |children| && |durations| == |children|
    ensures forall i :: 0 <= i < |children| ==> keys[i] == getVexPitch(children[i])
    ensures forall i :: 0 <= i < |children| ==> durations[i] == number(children[i], "dur")
    ensures |children| == 0 ==> dots == 0.0
    ensures |children| > 0 ==> dots == NumberOrZero(number(children[|children| - 1], "dots"))
  {
    keys, durations, dots := [], [], 0.0;
    var i := 0;
    while i < |children|
      invariant 0 <= i <= |children|
      invariant |keys| == i && |durations| == i
      invariant forall m :: 0 <= m < i ==> keys[m] == getVexPitch(children[m])
      invariant forall m :: 0 <= m < i ==> durations[m] == number(children[m], "dur")
      invariant i == 0 ==> dots == 0.0
      invariant i > 0 ==> dots == NumberOrZero(number(children[i - 1], "dots"))
    {
      durations := durations + [number(children[i], "dur")];
      dots := NumberOrZero(number(children[i], "dots"));
      keys := keys + [getVexPitch(children[i])];
      i := i + 1;
    }
  }

  lemma DurationsOfChildren(children: seq<Child>, durations: seq<JsNumber.Num>)
    requires |durations| == |children|
    requires forall i :: 0 <= i < |children| ==> durations[i] == ChildNumber(children[i], "dur")
    ensures durations == ChildDurations(children)
  {
  }

  /** Without `@dur` only the last child's dots count: an earlier child's `@dots` is overwritten. */
  lemma LastChildDotsWin(o: Options, c: Child)
    requires !Mei.Truthy(Mei.Attr(o.atts, "dur"))
    ensures DotCount(o.(children := o.children + [c])) == NumberOrZero(ChildNumber(c, "dots"))
  {
  }
}
