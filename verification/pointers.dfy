/**
 * Building pointer models from annotation elements: `createInfos` of
 * src/PointerCollections.js and of src/eventpointer/EventPointerCollection.js.
 *
 * Each element points at one event, either directly (`@startid`, a `#`
 * reference) or by a timestamp (`@tstamp`) inside a staff and layer of the
 * current measure. The two source files differ only in what happens to an
 * element carrying neither attribute: the first skips it and goes on, the
 * second stops processing the remaining elements.
 */
module Pointers {
  import opened Wrappers
  import JsNumber
  import Mei

  /** A staff's time signature as `getTimeSpec()` reports it. */
  datatype Meter = Meter(count: JsNumber.Num, unit: JsNumber.Num)

  /** The typed failures of timestamp resolution. */
  datatype ResolveError =
    | StaffElementMissing     // no `<staff>` with the requested `@n`: the DOM query returns null
    | MissingLayer            // no matching layer and no unnumbered first layer
    | MissingStaffDefinition  // no staff info registered for the staff number
    | InvalidMeter            // meter count or unit missing or zero

  /**
   * What timestamp resolution depends on: the current measure element, the
   * registered staff infos reduced to their time specs, and the library
   * routine `MeiLib.tstamp2id`, which is not modelled.
   */
  datatype Context = Context(
    measure: Mei.MeasureElement,
    meters: map<string, Meter>,
    tstamp2id: (string, Mei.LayerElement, Meter) -> string)

  /** A pointer model `{element, atts, startid}`. */
  datatype PointerModel = PointerModel(element: Mei.Element, atts: map<string, string>, startid: string)

  /** How an element refers to its event. */
  datatype StartRef = DirectId(id: string) | Timestamp(tstamp: string) | NoRef

  /**
   * The reference an element carries: a truthy `@startid` wins and loses its
   * first character (the `#`); otherwise a truthy `@tstamp`; otherwise none.
   */
  function StartRefOf(atts: map<string, string>): (r: StartRef)
    ensures Mei.Truthy(Mei.Attr(atts, "startid")) ==> r == DirectId(atts["startid"][1..])
    ensures !Mei.Truthy(Mei.Attr(atts, "startid")) && Mei.Truthy(Mei.Attr(atts, "tstamp")) ==>
      r == Timestamp(atts["tstamp"])
    ensures r == NoRef <==> !Mei.Truthy(Mei.Attr(atts, "startid")) && !Mei.Truthy(Mei.Attr(atts, "tstamp"))
  {
    var startid := Mei.Attr(atts, "startid");
    if Mei.Truthy(startid) then DirectId(startid.value[1..])
    else
      var tstamp := Mei.Attr(atts, "tstamp");
      if Mei.Truthy(tstamp) then Timestamp(tstamp.value) else NoRef
  }

  /** `"#" + id` as `@startid` resolves to `id`, whatever else the element carries. */
  lemma DirectIdRoundTrip(atts: map<string, string>, id: string)
    ensures StartRefOf(atts["startid" := "#" + id]) == DirectId(id)
  {
    var a := atts["startid" := "#" + id];
    assert a["startid"][1..] == id;
  }

  /** `link_staffInfo`: the element's staff and layer numbers, both defaulting to "1". */
  function StaffNumber(e: Mei.Element): string
  {
    Mei.AttrOr(e.atts, "staff", "1")
  }

  function LayerNumber(e: Mei.Element): string
  {
    Mei.AttrOr(e.atts, "layer", "1")
  }

  /**
   * `querySelector('staff[n="…"]')` and `querySelector('layer[n="…"]')`:
   * the first element whose `@n` (read by `num`) is `n`.
   */
  function FindNumbered<T>(xs: seq<T>, num: T -> Option<string>, n: string): (r: Option<T>)
    ensures r.None? <==> forall i :: 0 <= i < |xs| ==> num(xs[i]) != Some(n)
    ensures r.Some? ==> exists i :: (0 <= i < |xs| && xs[i] == r.value && num(r.value) == Some(n) &&
      forall j :: 0 <= j < i ==> num(xs[j]) != Some(n))
  {
    if |xs| == 0 then None
    else if num(xs[0]) == Some(n) then Some(xs[0])
    else
      var r := FindNumbered(xs[1..], num, n);
      assert forall i :: 1 <= i < |xs| ==> xs[i] == xs[1..][i - 1];
      r
  }

  function StaffN(s: Mei.StaffElement): Option<string> { s.n }

  function LayerN(l: Mei.LayerElement): Option<string> { l.n }

  /** The first staff of the measure whose `@n` is `n`. */
  function FindStaff(staves: seq<Mei.StaffElement>, n: string): Option<Mei.StaffElement>
  {
    FindNumbered(staves, StaffN, n)
  }

  /** The first layer of the staff whose `@n` is `n`. */
  function FindLayer(layers: seq<Mei.LayerElement>, n: string): Option<Mei.LayerElement>
  {
    FindNumbered(layers, LayerN, n)
  }

  /**
   * The layer a timestamp is resolved in: the first layer numbered `n`;
   * failing that, the staff's first layer provided it exists and has no
   * `@n`; failing that, none.
   */
  function SelectLayer(layers: seq<Mei.LayerElement>, n: string): (r: Option<Mei.LayerElement>)
    ensures FindLayer(layers, n).Some? ==> r == FindLayer(layers, n)
    ensures FindLayer(layers, n).None? ==>
      r == (if |layers| > 0 && layers[0].n.None? then Some(layers[0]) else None)
    ensures r.None? <==>
      (forall i :: 0 <= i < |layers| ==> layers[i].n != Some(n)) && (|layers| == 0 || layers[0].n.Some?)
  {
    match FindLayer(layers, n)
    case Some(l) => Some(l)
    case None => if |layers| > 0 && layers[0].n.None? then Some(layers[0]) else None
  }

  /**
   * `local_tstamp2id`: resolves a timestamp in the element's staff and layer
   * of the current measure, against the staff's meter. Each missing piece
   * is its own failure, checked in this order: staff element, layer, staff
   * definition, meter.
   */
  function LocalTstamp2Id(ctx: Context, tstamp: string, e: Mei.Element): (r: Result<string, ResolveError>)
    ensures r == Failure(StaffElementMissing) <==> FindStaff(ctx.measure.staves, StaffNumber(e)).None?
    ensures r == Failure(MissingLayer) <==>
      && FindStaff(ctx.measure.staves, StaffNumber(e)).Some?
      && SelectLayer(FindStaff(ctx.measure.staves, StaffNumber(e)).value.layers, LayerNumber(e)).None?
    ensures r == Failure(MissingStaffDefinition) ==> StaffNumber(e) !in ctx.meters
    ensures r == Failure(InvalidMeter) ==>
      StaffNumber(e) in ctx.meters &&
      !(JsNumber.Truthy(ctx.meters[StaffNumber(e)].count) && JsNumber.Truthy(ctx.meters[StaffNumber(e)].unit))
    ensures r.Success? <==>
      && FindStaff(ctx.measure.staves, StaffNumber(e)).Some?
      && SelectLayer(FindStaff(ctx.measure.staves, StaffNumber(e)).value.layers, LayerNumber(e)).Some?
      && StaffNumber(e) in ctx.meters
      && JsNumber.Truthy(ctx.meters[StaffNumber(e)].count) && JsNumber.Truthy(ctx.meters[StaffNumber(e)].unit)
    ensures r.Success? ==>
      r.value == ctx.tstamp2id(tstamp,
                               SelectLayer(FindStaff(ctx.measure.staves, StaffNumber(e)).value.layers, LayerNumber(e)).value,
                               ctx.meters[StaffNumber(e)])
  {
    var staffN := StaffNumber(e);
    match FindStaff(ctx.measure.staves, staffN)
    case None => Failure(StaffElementMissing)
    case Some(staff) =>
      match SelectLayer(staff.layers, LayerNumber(e))
      case None => Failure(MissingLayer)
      case Some(layer) =>
        if staffN !in ctx.meters then Failure(MissingStaffDefinition)
        else
          var meter := ctx.meters[staffN];
          if !JsNumber.Truthy(meter.count) || !JsNumber.Truthy(meter.unit) then Failure(InvalidMeter)
          else Success(ctx.tstamp2id(tstamp, layer, meter))
  }

  /**
   * An element without `@staff` and `@layer` is resolved in staff "1", layer
   * "1"; if that staff has only an unnumbered layer, that layer is used.
   */
  lemma TimestampDefaults(ctx: Context, tstamp: string, text: string, layer: Mei.LayerElement, meter: Meter)
    requires ctx.measure == Mei.MeasureElement([Mei.StaffElement(Some("1"), [layer])])
    requires layer.n.None? || layer.n == Some("1")
    requires ctx.meters == map["1" := meter]
    requires JsNumber.Truthy(meter.count) && JsNumber.Truthy(meter.unit)
    ensures LocalTstamp2Id(ctx, tstamp, Mei.Element(map["tstamp" := tstamp], text)) ==
            Success(ctx.tstamp2id(tstamp, layer, meter))
  {
    var e := Mei.Element(map["tstamp" := tstamp], text);
    assert StaffNumber(e) == "1" && LayerNumber(e) == "1";
    assert FindStaff(ctx.measure.staves, "1") == Some(ctx.measure.staves[0]);
  }

  /** A layer numbered differently from the request is never used as the fallback. */
  lemma NumberedLayerIsNoFallback(layers: seq<Mei.LayerElement>, n: string)
    requires |layers| > 0 && layers[0].n.Some? && layers[0].n != Some(n)
    requires forall i :: 0 <= i < |layers| ==> layers[i].n != Some(n)
    ensures SelectLayer(layers, n).None?
  {
  }

  /** The result of reading one element. */
  datatype Step = Accept(model: PointerModel) | Skip | Reject(error: ResolveError)

  /** One iteration of `createInfos`: a model, a skip with a warning, or a resolution failure. */
  function ReadModel(ctx: Context, e: Mei.Element): (r: Step)
    ensures r == Skip <==> StartRefOf(e.atts) == NoRef
    ensures r.Accept? ==> r.model.element == e && r.model.atts == e.atts
    ensures StartRefOf(e.atts).DirectId? ==> r == Accept(PointerModel(e, e.atts, StartRefOf(e.atts).id))
    ensures StartRefOf(e.atts).Timestamp? ==>
      match LocalTstamp2Id(ctx, StartRefOf(e.atts).tstamp, e)
      case Success(id) => r == Accept(PointerModel(e, e.atts, id))
      case Failure(err) => r == Reject(err)
  {
    match StartRefOf(e.atts)
    case DirectId(id) => Accept(PointerModel(e, e.atts, id))
    case Timestamp(ts) =>
      (match LocalTstamp2Id(ctx, ts, e)
       case Success(id) => Accept(PointerModel(e, e.atts, id))
       case Failure(err) => Reject(err))
    case NoRef => Skip
  }

  /**
   * What one `createInfos` call produces: the models it pushed (in element
   * order), the elements it warned about, and the failure that ended it, if
   * any. Models pushed before a failure stay pushed.
   */
  datatype Scan = Scan(models: seq<PointerModel>, warnings: seq<Mei.Element>, error: Option<ResolveError>)

  /** The elements that carry a reference, in order. */
  function WithRef(elements: seq<Mei.Element>): seq<Mei.Element>
  {
    if |elements| == 0 then []
    else if StartRefOf(elements[0].atts) == NoRef then WithRef(elements[1..])
    else [elements[0]] + WithRef(elements[1..])
  }

  /** The elements that carry no reference, in order. */
  function WithoutRef(elements: seq<Mei.Element>): seq<Mei.Element>
  {
    if |elements| == 0 then []
    else if StartRefOf(elements[0].atts) == NoRef then [elements[0]] + WithoutRef(elements[1..])
    else WithoutRef(elements[1..])
  }

  function ElementsOf(models: seq<PointerModel>): (es: seq<Mei.Element>)
    ensures |es| == |models|
    ensures forall i :: 0 <= i < |models| ==> es[i] == models[i].element
  {
    if |models| == 0 then [] else [models[0].element] + ElementsOf(models[1..])
  }

  /** The position of the first element whose resolution fails, or `|elements|` when none fails. */
  function FirstReject(ctx: Context, elements: seq<Mei.Element>): (k: nat)
    ensures k <= |elements|
    ensures forall j :: 0 <= j < k ==> !ReadModel(ctx, elements[j]).Reject?
    ensures k < |elements| ==> ReadModel(ctx, elements[k]).Reject?
  {
    if |elements| == 0 || ReadModel(ctx, elements[0]).Reject? then 0
    else
      var k := FirstReject(ctx, elements[1..]);
      assert forall j :: 1 <= j < 1 + k ==> elements[j] == elements[1..][j - 1];
      1 + k
  }

  /**
   * What the skipping `createInfos` promises: every element before the
   * first failing one has either pushed its model or been warned about, in
   * order; the failure, if any, is that element's; nothing after it counts.
   */
  predicate ContinuedUpTo(ctx: Context, elements: seq<Mei.Element>, r: Scan)
  {
    var k := FirstReject(ctx, elements);
    && (forall i :: 0 <= i < |r.models| ==> ReadModel(ctx, r.models[i].element) == Accept(r.models[i]))
    && ElementsOf(r.models) == WithRef(elements[..k])
    && r.warnings == WithoutRef(elements[..k])
    && |r.models| + |r.warnings| == k
    && (r.error.Some? <==> k < |elements|)
    && (r.error.Some? ==> ReadModel(ctx, elements[k]) == Reject(r.error.value))
  }

  /** One element in front of what the rest of the elements produced. */
  function ContinueStep(ctx: Context, e: Mei.Element, rest: Scan): Scan
  {
    match ReadModel(ctx, e)
    case Reject(err) => Scan([], [], Some(err))
    case Skip => Scan(rest.models, [e] + rest.warnings, rest.error)
    case Accept(m) => Scan([m] + rest.models, rest.warnings, rest.error)
  }

  lemma ContinueStepKeeps(ctx: Context, elements: seq<Mei.Element>, rest: Scan)
    requires |elements| > 0
    requires ContinuedUpTo(ctx, elements[1..], rest)
    ensures ContinuedUpTo(ctx, elements, ContinueStep(ctx, elements[0], rest))
  {
    match ReadModel(ctx, elements[0])
    case Reject(err) =>
      assert elements[..FirstReject(ctx, elements)] == [];
    case Skip =>
      SkipStepKeeps(ctx, elements, rest);
    case Accept(m) =>
      AcceptStepKeeps(ctx, elements, rest, m);
  }

  /** Splits the prefix before the first failure into the head and the tail's prefix. */
  lemma PrefixBeforeReject(ctx: Context, elements: seq<Mei.Element>)
    requires |elements| > 0 && !ReadModel(ctx, elements[0]).Reject?
    ensures FirstReject(ctx, elements) == 1 + FirstReject(ctx, elements[1..])
    ensures elements[..FirstReject(ctx, elements)] == [elements[0]] + elements[1..][..FirstReject(ctx, elements[1..])]
  {
  }

  lemma SkipStepKeeps(ctx: Context, elements: seq<Mei.Element>, rest: Scan)
    requires |elements| > 0 && ReadModel(ctx, elements[0]) == Skip
    requires ContinuedUpTo(ctx, elements[1..], rest)
    ensures ContinuedUpTo(ctx, elements, ContinueStep(ctx, elements[0], rest))
  {
    var pre := elements[1..][..FirstReject(ctx, elements[1..])];
    PrefixBeforeReject(ctx, elements);
    assert ([elements[0]] + pre)[1..] == pre;
  }

  lemma AcceptStepKeeps(ctx: Context, elements: seq<Mei.Element>, rest: Scan, m: PointerModel)
    requires |elements| > 0 && ReadModel(ctx, elements[0]) == Accept(m)
    requires ContinuedUpTo(ctx, elements[1..], rest)
    ensures ContinuedUpTo(ctx, elements, ContinueStep(ctx, elements[0], rest))
  {
    var pre := elements[1..][..FirstReject(ctx, elements[1..])];
    PrefixBeforeReject(ctx, elements);
    assert ([elements[0]] + pre)[1..] == pre;
    assert ElementsOf([m] + rest.models) == [m.element] + ElementsOf(rest.models);
  }

  /**
   * `createInfos` of src/PointerCollections.js: an element without a
   * reference is warned about and skipped (the `$.each` callback returns),
   * and the following elements are still processed; the first element
   * whose timestamp cannot be resolved ends the call with that failure,
   * keeping what the elements before it produced.
   */
  function ScanContinue(ctx: Context, elements: seq<Mei.Element>): (r: Scan)
    ensures ContinuedUpTo(ctx, elements, r)
    ensures r.error.None? ==> ElementsOf(r.models) == WithRef(elements)
    ensures r.error.None? ==> r.warnings == WithoutRef(elements)
    ensures r.error.None? ==> |r.models| + |r.warnings| == |elements|
  {
    if |elements| == 0 then Scan([], [], None)
    else
      var rest := ScanContinue(ctx, elements[1..]);
      ContinueStepKeeps(ctx, elements, rest);
      var r := ContinueStep(ctx, elements[0], rest);
      assert r.error.None? ==> elements[..FirstReject(ctx, elements)] == elements;
      r
  }

  /**
   * A failing skipping scan carries the error of the first element that
   * fails; what it pushed and warned about comes from the elements before
   * that one.
   */
  lemma ContinueErrorIsFirst(ctx: Context, elements: seq<Mei.Element>)
    ensures var r := ScanContinue(ctx, elements);
      r.error.Some? ==>
        exists k :: (0 <= k < |elements| && ReadModel(ctx, elements[k]) == Reject(r.error.value)
                     && (forall j :: 0 <= j < k ==> !ReadModel(ctx, elements[j]).Reject?)
                     && ElementsOf(r.models) == WithRef(elements[..k])
                     && r.warnings == WithoutRef(elements[..k]))
  {
    var k := FirstReject(ctx, elements);
    assert ScanContinue(ctx, elements).error.Some? ==> k < |elements|;
  }

  /**
   * `createInfos` of src/eventpointer/EventPointerCollection.js: an element
   * without a reference is warned about and ends the whole call (`return`
   * inside the `for` loop), so it and every later element produce nothing.
   */
  function ScanAbort(ctx: Context, elements: seq<Mei.Element>): (r: Scan)
    ensures |r.models| <= |elements|
    ensures forall j :: 0 <= j < |r.models| ==> ReadModel(ctx, elements[j]) == Accept(r.models[j])
    ensures |r.warnings| <= 1
    ensures !(r.warnings != [] && r.error.Some?)
    ensures r.warnings == [] && r.error.None? ==> |r.models| == |elements|
    ensures r.warnings != [] ==>
      |r.models| < |elements| && r.warnings[0] == elements[|r.models|] && ReadModel(ctx, elements[|r.models|]) == Skip
    ensures r.error.Some? ==>
      |r.models| < |elements| && ReadModel(ctx, elements[|r.models|]) == Reject(r.error.value)
  {
    if |elements| == 0 then Scan([], [], None)
    else
      match ReadModel(ctx, elements[0])
      case Reject(err) => Scan([], [], Some(err))
      case Skip => Scan([], [elements[0]], None)
      case Accept(m) =>
        var rest := ScanAbort(ctx, elements[1..]);
        assert forall k :: 1 <= k < |elements| ==> elements[k] == elements[1..][k - 1];
        Scan([m] + rest.models, rest.warnings, rest.error)
  }

  /**
   * The two skip policies agree until the first element without a
   * reference: when the skipping variant succeeds, the aborting one does
   * too and its models are a prefix of the other's; when every element
   * carries a reference, both produce the same models.
   */
  lemma {:induction false} AbortIsPrefixOfContinue(ctx: Context, elements: seq<Mei.Element>)
    requires ScanContinue(ctx, elements).error.None?
    ensures ScanAbort(ctx, elements).error.None?
    ensures ScanAbort(ctx, elements).models <= ScanContinue(ctx, elements).models
    ensures ScanContinue(ctx, elements).warnings == [] ==>
      ScanAbort(ctx, elements).models == ScanContinue(ctx, elements).models
  {
    if |elements| > 0 {
      var tail := elements[1..];
      match ReadModel(ctx, elements[0])
      case Reject(err) =>
      case Skip =>
      case Accept(m) =>
        AbortIsPrefixOfContinue(ctx, tail);
    }
  }

  /** An element without a reference followed by a direct one: skipping keeps the second, aborting loses it. */
  lemma SkipPoliciesDiffer(ctx: Context, bad: Mei.Element, id: string, text: string)
    requires StartRefOf(bad.atts) == NoRef
    ensures ScanContinue(ctx, [bad, Mei.Element(map["startid" := "#" + id], text)]).models ==
            [PointerModel(Mei.Element(map["startid" := "#" + id], text), map["startid" := "#" + id], id)]
    ensures ScanAbort(ctx, [bad, Mei.Element(map["startid" := "#" + id], text)]).models == []
    ensures ScanAbort(ctx, [bad, Mei.Element(map["startid" := "#" + id], text)]).warnings == [bad]
  {
    var good := Mei.Element(map["startid" := "#" + id], text);
    DirectIdRoundTrip(map[], id);
    assert map[]["startid" := "#" + id] == map["startid" := "#" + id];
    assert [bad, good][1..] == [good];
    assert [good][1..] == [];
  }

  /** A pointer collection: `allModels`. */
  datatype Collection = Collection(models: seq<PointerModel>)

  /** The collection after `createInfos`, with what the call reported. */
  datatype Created = Created(collection: Collection, warnings: seq<Mei.Element>, error: Option<ResolveError>)

  /** Skip policy of a collection family. */
  datatype Policy = SkipAndContinue | WarnAndStop

  /**
   * `createInfos(elements, measureElement)`: the models read from the
   * elements are appended to the models already collected.
   */
  function CreateInfos(c: Collection, policy: Policy, ctx: Context, elements: seq<Mei.Element>): (r: Created)
    ensures |c.models| <= |r.collection.models| && r.collection.models[..|c.models|] == c.models
    ensures policy == SkipAndContinue ==>
      var s := ScanContinue(ctx, elements);
      r.collection.models[|c.models|..] == s.models && r.warnings == s.warnings && r.error == s.error
    ensures policy == WarnAndStop ==>
      var s := ScanAbort(ctx, elements);
      r.collection.models[|c.models|..] == s.models && r.warnings == s.warnings && r.error == s.error
  {
    var s := if policy == SkipAndContinue then ScanContinue(ctx, elements) else ScanAbort(ctx, elements);
    var models := c.models + s.models;
    assert models[..|c.models|] == c.models && models[|c.models|..] == s.models;
    Created(Collection(models), s.warnings, s.error)
  }

  /** `addModel`: exactly one model is appended and nothing else changes. */
  function AddModel(c: Collection, m: PointerModel): (r: Collection)
    ensures |r.models| == |c.models| + 1
    ensures forall i :: 0 <= i < |c.models| ==> r.models[i] == c.models[i]
    ensures r.models[|c.models|] == m
  {
    Collection(c.models + [m])
  }

  /** `getModels`: the models accumulated so far. */
  function GetModels(c: Collection): seq<PointerModel>
  {
    c.models
  }

  /** Models added one by one come back in the order they were added. */
  lemma GetModelsAfterAdds(c: Collection, m1: PointerModel, m2: PointerModel)
    ensures GetModels(AddModel(AddModel(c, m1), m2)) == GetModels(c) + [m1, m2]
  {
  }
}
