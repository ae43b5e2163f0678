/**
 * Hairpins (src/mei2vf/eventlink/Hairpins.js): link models between two
 * events turned into drawing-library hairpins. A hairpin whose ends lie in
 * different systems is drawn as two halves, each with one real end.
 */
module Hairpins {
  import opened Wrappers
  import Mei
  import Notes

  /** The fixed hairpin height (the stave spacing the source hard-codes). */
  const STAVE_SPACING: real := 10.0

  /** A link model: its element, its parameters (`@form`, `@place`, …) and the ids of its two ends. */
  datatype LinkModel = LinkModel(element: Mei.Element, params: map<string, string>, firstId: string, lastId: string)

  /**
   * One hairpin handed to the drawing library. An end is `None` when the
   * corresponding endpoint object has no note. `form` and `place` are the
   * keys into the hairpin-type and position tables.
   */
  datatype Hairpin = Hairpin(
    firstNote: Option<Notes.VexNote>,
    lastNote: Option<Notes.VexNote>,
    form: Option<string>,
    place: Option<string>,
    height: real,
    yShift: real,
    leftShiftPx: real,
    rightShiftPx: real,
    element: Mei.Element)

  /** The collection: its models, the hairpins emitted so far (`allVexObjects`) and the number of warnings logged. */
  datatype Collection = Collection(models: seq<LinkModel>, objects: seq<Hairpin>, warnings: nat)

  datatype HairpinError = MissingForm

  /** `validateAtts`: fails iff `@form` is absent or empty. */
  function ValidateAtts(atts: map<string, string>): (r: Outcome<HairpinError>)
    ensures r.Fail? <==> "form" !in atts || atts["form"] == ""
  {
    if Mei.Truthy(Mei.Attr(atts, "form")) then Pass else Fail(MissingForm)
  }

  /** `notes_by_id[id] || {}`: a missing id gives the empty endpoint `None`, not an error. */
  function Endpoint(notes: Notes.NotesById, id: string): (r: Option<Notes.NoteEntry>)
    ensures r.None? <==> id !in notes
    ensures r.Some? ==> r.value == notes[id]
  {
    Notes.Lookup(notes, id)
  }

  /** `endpoint.system`, undefined for the empty endpoint. */
  function SystemOf(p: Option<Notes.NoteEntry>): Option<int>
  {
    if p.Some? then p.value.system else None
  }

  function NoteOf(p: Option<Notes.NoteEntry>): Option<Notes.VexNote>
  {
    if p.Some? then Some(p.value.vexNote) else None
  }

  /** Both ends are in known systems and the systems differ. */
  predicate CrossesSystems(f: Option<Notes.NoteEntry>, l: Option<Notes.NoteEntry>)
  {
    SystemOf(f).Some? && SystemOf(l).Some? && SystemOf(f) != SystemOf(l)
  }

  /**
   * The `createSingleHairpin` calls one model makes: `(first, {})` and
   * `({}, last)` when the ends lie in different systems, else the one call
   * `(first, last)`.
   */
  function SplitCalls(notes: Notes.NotesById, m: LinkModel): (r: seq<(Option<Notes.NoteEntry>, Option<Notes.NoteEntry>)>)
    ensures 1 <= |r| <= 2
    ensures CrossesSystems(Endpoint(notes, m.firstId), Endpoint(notes, m.lastId)) ==>
      r == [(Endpoint(notes, m.firstId), None), (None, Endpoint(notes, m.lastId))]
    ensures !CrossesSystems(Endpoint(notes, m.firstId), Endpoint(notes, m.lastId)) ==>
      r == [(Endpoint(notes, m.firstId), Endpoint(notes, m.lastId))]
  {
    var f := Endpoint(notes, m.firstId);
    var l := Endpoint(notes, m.lastId);
    if CrossesSystems(f, l) then [(f, None), (None, l)] else [(f, l)]
  }

  /**
   * `createSingleHairpin`: nothing, with a warning, when neither end has a
   * note; otherwise one hairpin between the two ends with the fixed
   * rendering options.
   */
  function CreateSingleHairpin(f: Option<Notes.NoteEntry>, l: Option<Notes.NoteEntry>, params: map<string, string>,
                               element: Mei.Element): (r: Option<Hairpin>)
    ensures r.None? <==> f.None? && l.None?
    ensures r.Some? ==> r.value.firstNote == NoteOf(f) && r.value.lastNote == NoteOf(l)
    ensures r.Some? ==> (r.value.height == STAVE_SPACING && r.value.yShift == 0.0
                         && r.value.leftShiftPx == 0.0 && r.value.rightShiftPx == 0.0)
    ensures r.Some? ==> r.value.form == Mei.Attr(params, "form") && r.value.place == Mei.Attr(params, "place")
  {
    if f.None? && l.None? then None
    else Some(Hairpin(NoteOf(f), NoteOf(l), Mei.Attr(params, "form"), Mei.Attr(params, "place"),
                      STAVE_SPACING, 0.0, 0.0, 0.0, element))
  }

  /** The hairpins and the warning count of a list of calls, in call order. */
  function RunCalls(calls: seq<(Option<Notes.NoteEntry>, Option<Notes.NoteEntry>)>, params: map<string, string>,
                    element: Mei.Element): (r: (seq<Hairpin>, nat))
    ensures |r.0| + r.1 == |calls|
    ensures FixedGeometry(r.0)
  {
    if |calls| == 0 then ([], 0)
    else
      var rest := RunCalls(calls[1..], params, element);
      match CreateSingleHairpin(calls[0].0, calls[0].1, params, element)
      case Some(h) => ([h] + rest.0, rest.1)
      case None => (rest.0, rest.1 + 1)
  }

  /** The hairpins one model emits and the warnings it logs. */
  function ModelHairpins(notes: Notes.NotesById, m: LinkModel): (r: (seq<Hairpin>, nat))
  {
    RunCalls(SplitCalls(notes, m), m.params, m.element)
  }

  /** Every emitted hairpin has the fixed geometry. */
  predicate FixedGeometry(hs: seq<Hairpin>)
  {
    forall i :: 0 <= i < |hs| ==> (hs[i].height == STAVE_SPACING && hs[i].yShift == 0.0
                                   && hs[i].leftShiftPx == 0.0 && hs[i].rightShiftPx == 0.0)
  }

  /**
   * One model's output: a model whose ends lie in different systems gives
   * exactly the two halves `(first, —)` and `(—, last)`; any other model
   * gives one hairpin, or nothing and a warning when neither id resolves.
   */
  lemma ModelOutput(notes: Notes.NotesById, m: LinkModel)
    ensures |ModelHairpins(notes, m).0| <= 2
    ensures FixedGeometry(ModelHairpins(notes, m).0)
    ensures CrossesSystems(Endpoint(notes, m.firstId), Endpoint(notes, m.lastId)) ==>
      var hs := ModelHairpins(notes, m).0;
      |hs| == 2 && ModelHairpins(notes, m).1 == 0 &&
      hs[0].firstNote == Some(notes[m.firstId].vexNote) && hs[0].lastNote.None? &&
      hs[1].firstNote.None? && hs[1].lastNote == Some(notes[m.lastId].vexNote)
    ensures !CrossesSystems(Endpoint(notes, m.firstId), Endpoint(notes, m.lastId)) ==>
      var hs := ModelHairpins(notes, m).0;
      && (|hs| == 0 <==> m.firstId !in notes && m.lastId !in notes)
      && (|hs| == 0 ==> ModelHairpins(notes, m).1 == 1)
      && (|hs| == 1 ==> hs[0].firstNote == NoteOf(Endpoint(notes, m.firstId))
                        && hs[0].lastNote == NoteOf(Endpoint(notes, m.lastId)))
  {
    var calls := SplitCalls(notes, m);
    var f := Endpoint(notes, m.firstId);
    var l := Endpoint(notes, m.lastId);
    if CrossesSystems(f, l) {
      assert calls[1..] == [(None, l)];
      assert calls[1..][1..] == [];
      var h0 := CreateSingleHairpin(f, None, m.params, m.element);
      var h1 := CreateSingleHairpin(None, l, m.params, m.element);
      assert h0.Some? && h1.Some?;
      assert calls[0] == (f, None) && calls[1..][0] == (None, l);
      assert RunCalls(calls[1..][1..], m.params, m.element) == ([], 0);
      var r1 := RunCalls(calls[1..], m.params, m.element);
      assert r1.0 == [h1.value] + [] && r1.1 == 0;
      var r0 := RunCalls(calls, m.params, m.element);
      assert r0.0 == [h0.value] + r1.0 && r0.1 == 0;
    } else {
      assert calls[1..] == [];
    }
  }

  /** The outputs of `each` over a list, concatenated and summed in list order. */
  function Collect<T>(each: T -> (seq<Hairpin>, nat), xs: seq<T>): (r: (seq<Hairpin>, nat))
  {
    if |xs| == 0 then ([], 0)
    else
      var first := each(xs[0]);
      var rest := Collect(each, xs[1..]);
      (first.0 + rest.0, first.1 + rest.1)
  }

  /** Collecting over `a + b` is collecting over `a`, then over `b`. */
  lemma {:induction false} CollectAppend<T>(each: T -> (seq<Hairpin>, nat), a: seq<T>, b: seq<T>)
    ensures Collect(each, a + b).0 == Collect(each, a).0 + Collect(each, b).0
    ensures Collect(each, a + b).1 == Collect(each, a).1 + Collect(each, b).1
  {
    if |a| == 0 {
      assert a + b == b;
    } else {
      assert (a + b)[0] == a[0] && (a + b)[1..] == a[1..] + b;
      CollectAppend(each, a[1..], b);
      assert each(a[0]).0 + (Collect(each, a[1..]).0 + Collect(each, b).0)
          == (each(a[0]).0 + Collect(each, a[1..]).0) + Collect(each, b).0;
    }
  }

  /** The hairpins of a list of models, processed in forward order. */
  function AllHairpins(notes: Notes.NotesById, models: seq<LinkModel>): (r: (seq<Hairpin>, nat))
  {
    Collect(m => ModelHairpins(notes, m), models)
  }

  /** Each model adds at most two hairpins, and all of them have the fixed geometry. */
  lemma {:induction false} AllHairpinsShape(notes: Notes.NotesById, models: seq<LinkModel>)
    ensures |AllHairpins(notes, models).0| <= 2 * |models|
    ensures FixedGeometry(AllHairpins(notes, models).0)
  {
    if |models| > 0 {
      AllHairpinsShape(notes, models[1..]);
      ModelOutput(notes, models[0]);
    }
  }

  /** Models are processed in order: the output of `a + b` is the output of `a` followed by that of `b`. */
  lemma AllHairpinsAppend(notes: Notes.NotesById, a: seq<LinkModel>, b: seq<LinkModel>)
    ensures AllHairpins(notes, a + b).0 == AllHairpins(notes, a).0 + AllHairpins(notes, b).0
    ensures AllHairpins(notes, a + b).1 == AllHairpins(notes, a).1 + AllHairpins(notes, b).1
  {
    CollectAppend(m => ModelHairpins(notes, m), a, b);
  }

  /**
   * `createVexFromInfos(notes_by_id)`: every model's hairpins are appended
   * to the objects already emitted, in model order; between 0 and 2 per
   * model, all with the fixed geometry.
   */
  function CreateVexFromInfos(c: Collection, notes: Notes.NotesById): (r: Collection)
    ensures r.models == c.models
    ensures |c.objects| <= |r.objects| <= |c.objects| + 2 * |c.models|
    ensures r.objects[..|c.objects|] == c.objects
    ensures r.objects[|c.objects|..] == AllHairpins(notes, c.models).0
    ensures FixedGeometry(r.objects[|c.objects|..])
    ensures r.warnings == c.warnings + AllHairpins(notes, c.models).1
  {
    var out := AllHairpins(notes, c.models);
    AllHairpinsShape(notes, c.models);
    var objects := c.objects + out.0;
    assert objects[..|c.objects|] == c.objects && objects[|c.objects|..] == out.0;
    Collection(c.models, objects, c.warnings + out.1)
  }
}
