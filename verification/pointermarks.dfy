/**
 * Turning pointer models into marks on notes: the `createVexFromInfos`
 * methods of the directive, dynamics, fermata and ornament collections in
 * src/PointerCollections.js, as one dispatch over the collection kind.
 *
 * Models are visited from the last to the first. A model whose `startid`
 * is not in the id table attaches nothing and is reported; it never stops
 * the others.
 */
module PointerMarks {
  import opened Wrappers
  import Text
  import Mei
  import Notes
  import Pointers

  /** The collection kinds; `BaseCollection` is the abstract base, which provides no realisation. */
  datatype Kind = BaseCollection | Directives | Dynamics | Fermatas | Ornaments

  /** Vertical justification of a text annotation: left at the library default, or forced to the bottom. */
  datatype VJustify = DefaultJustify | Bottom

  datatype ModifierPosition = Above

  /**
   * The mark attached to a note. A fermata is described by its `place` key,
   * which selects both its glyph and its position from the fermata and
   * position tables; an ornament's accidentals are the keys into the
   * accidental table.
   */
  datatype Mark =
    | TextAnnotation(text: string, justify: VJustify, zeroWidth: bool)
    | FermataMark(place: Option<string>)
    | OrnamentMark(glyph: string, upper: Option<string>, lower: Option<string>, position: ModifierPosition)

  datatype Attachment = Attachment(note: Notes.VexNote, mark: Mark)

  /** What realising a collection did: the attachments in the order they were made, and the unresolved references in the order reported. */
  datatype Realized = Realized(attached: seq<Attachment>, unresolved: seq<string>)

  datatype RealizeError = NoRealisation   // the base collection's createVexFromInfos always throws

  /**
   * A directive's text: whitespace runs collapsed to one space, then
   * trimmed, which leaves the words of `s` joined by single spaces.
   */
  function DirectiveText(s: string): (r: string)
    ensures r == Text.JoinWords(Text.Words(s))
    ensures Text.Visible(r) == Text.Visible(s)
    ensures Text.NoDoubleSpace(r) && Text.OnlyPlainSpaces(r)
    ensures |r| > 0 ==> !Text.IsSpace(r[0]) && !Text.IsSpace(r[|r| - 1])
  {
    Text.TrimOfCollapsed(s);
    Text.Trim(Text.CollapseSpaces(s))
  }

  /** `addOrnamentToNote`: a trill, always above, with an accidental above or below iff the matching attribute is truthy. */
  function AddOrnamentToNote(atts: map<string, string>): (r: Mark)
    ensures r.OrnamentMark? && r.glyph == "tr" && r.position == Above
    ensures r.upper.Some? <==> Mei.Truthy(Mei.Attr(atts, "accidupper"))
    ensures r.lower.Some? <==> Mei.Truthy(Mei.Attr(atts, "accidlower"))
    ensures r.upper.Some? ==> r.upper.value == atts["accidupper"]
    ensures r.lower.Some? ==> r.lower.value == atts["accidlower"]
  {
    var upper := Mei.Attr(atts, "accidupper");
    var lower := Mei.Attr(atts, "accidlower");
    OrnamentMark("tr", if Mei.Truthy(upper) then upper else None, if Mei.Truthy(lower) then lower else None, Above)
  }

  /** The mark a collection of the given kind attaches for one model. */
  function MarkFor(kind: Kind, m: Pointers.PointerModel): Mark
    requires kind != BaseCollection
  {
    match kind
    case Directives =>
      TextAnnotation(DirectiveText(m.element.text),
                     if Mei.Attr(m.atts, "place") == Some("below") then Bottom else DefaultJustify, true)
    case Dynamics =>
      TextAnnotation(Text.Trim(m.element.text),
                     if Mei.Attr(m.atts, "place") == Some("above") then DefaultJustify else Bottom, false)
    case Fermatas => FermataMark(Mei.Attr(m.atts, "place"))
    case Ornaments => AddOrnamentToNote(m.atts)
  }

  /**
   * A directive goes to the bottom iff `@place` is "below"; it always gets
   * a zero width and a whitespace-collapsed text.
   */
  lemma DirectivePlacement(m: Pointers.PointerModel)
    ensures MarkFor(Directives, m).justify == Bottom <==> Mei.Attr(m.atts, "place") == Some("below")
    ensures MarkFor(Directives, m).zeroWidth
    ensures MarkFor(Directives, m).text == Text.JoinWords(Text.Words(m.element.text))
  {
  }

  /** A dynamic goes to the bottom unless `@place` is "above"; its text is only trimmed and its width kept. */
  lemma DynamicsPlacement(m: Pointers.PointerModel)
    ensures MarkFor(Dynamics, m).justify == Bottom <==> Mei.Attr(m.atts, "place") != Some("above")
    ensures !MarkFor(Dynamics, m).zeroWidth
    ensures Text.Visible(MarkFor(Dynamics, m).text) == Text.Visible(m.element.text)
  {
  }

  /** A fermata's glyph and position are both keyed by its `@place`; an ornament is always above. */
  lemma FermataAndOrnamentPlacement(m: Pointers.PointerModel)
    ensures MarkFor(Fermatas, m) == FermataMark(Mei.Attr(m.atts, "place"))
    ensures MarkFor(Ornaments, m).position == Above
  {
  }

  /** The attachment for one model, if its reference resolves. */
  function AttachmentFor(kind: Kind, m: Pointers.PointerModel, notes: Notes.NotesById): (r: Option<Attachment>)
    requires kind != BaseCollection
    ensures r.Some? <==> m.startid in notes
    ensures r.Some? ==> r.value == Attachment(notes[m.startid].vexNote, MarkFor(kind, m))
  {
    match Notes.Lookup(notes, m.startid)
    case None => None
    case Some(entry) => Some(Attachment(entry.vexNote, MarkFor(kind, m)))
  }

  /** The attachment for one model as a sequence of length 0 or 1. */
  function AttachmentOf(kind: Kind, m: Pointers.PointerModel, notes: Notes.NotesById): seq<Attachment>
    requires kind != BaseCollection
  {
    match AttachmentFor(kind, m, notes)
    case Some(a) => [a]
    case None => []
  }

  /** The unresolved reference of one model as a sequence of length 0 or 1. */
  function UnresolvedOf(m: Pointers.PointerModel, notes: Notes.NotesById): seq<string>
  {
    if m.startid in notes then [] else [m.startid]
  }

  /** The outputs of `each` over a list, concatenated in list order. */
  function FlatMap<T, U>(each: T -> seq<U>, xs: seq<T>): seq<U>
  {
    if |xs| == 0 then [] else each(xs[0]) + FlatMap(each, xs[1..])
  }

  lemma {:induction false} FlatMapAppend<T, U>(each: T -> seq<U>, a: seq<T>, b: seq<T>)
    ensures FlatMap(each, a + b) == FlatMap(each, a) + FlatMap(each, b)
  {
    if |a| == 0 {
      assert a + b == b;
    } else {
      assert (a + b)[0] == a[0] && (a + b)[1..] == a[1..] + b;
      FlatMapAppend(each, a[1..], b);
    }
  }

  /** The last element's output comes after all the others'. */
  lemma FlatMapLast<T, U>(each: T -> seq<U>, xs: seq<T>)
    requires |xs| > 0
    ensures FlatMap(each, xs) == FlatMap(each, xs[..|xs| - 1]) + each(xs[|xs| - 1])
  {
    assert xs == xs[..|xs| - 1] + [xs[|xs| - 1]];
    FlatMapAppend(each, xs[..|xs| - 1], [xs[|xs| - 1]]);
    assert [xs[|xs| - 1]][1..] == [];
  }

  /** The attachment of one model for a collection that realises its models (none for the base collection). */
  function Attach(kind: Kind, notes: Notes.NotesById): Pointers.PointerModel -> seq<Attachment>
  {
    m => if kind == BaseCollection then [] else AttachmentOf(kind, m, notes)
  }

  /** The unresolved reference of one model, as a function over models. */
  function Unresolved(notes: Notes.NotesById): Pointers.PointerModel -> seq<string>
  {
    m => UnresolvedOf(m, notes)
  }

  /** Reference definition: the attachments of the resolvable models, in model order. */
  function AttachmentsInOrder(kind: Kind, models: seq<Pointers.PointerModel>, notes: Notes.NotesById): seq<Attachment>
  {
    FlatMap(Attach(kind, notes), models)
  }

  /** Reference definition: the references that do not resolve, in model order. */
  function UnresolvedInOrder(models: seq<Pointers.PointerModel>, notes: Notes.NotesById): seq<string>
  {
    FlatMap(Unresolved(notes), models)
  }

  function Reverse<T>(s: seq<T>): (r: seq<T>)
    ensures |r| == |s|
    ensures forall i :: 0 <= i < |s| ==> r[i] == s[|s| - 1 - i]
  {
    if |s| == 0 then [] else [s[|s| - 1]] + Reverse(s[..|s| - 1])
  }

  lemma ReverseAppendOne<T>(s: seq<T>, x: T)
    ensures Reverse(s + [x]) == [x] + Reverse(s)
  {
  }

  /** The last model contributes its attachment, or its unresolved reference, after all the others. */
  lemma LastModelStep(kind: Kind, models: seq<Pointers.PointerModel>, notes: Notes.NotesById)
    requires kind != BaseCollection
    requires |models| > 0
    ensures var init, last := models[..|models| - 1], models[|models| - 1];
      && AttachmentsInOrder(kind, models, notes) == AttachmentsInOrder(kind, init, notes) + AttachmentOf(kind, last, notes)
      && UnresolvedInOrder(models, notes) == UnresolvedInOrder(init, notes) + UnresolvedOf(last, notes)
  {
    FlatMapLast(Attach(kind, notes), models);
    FlatMapLast(Unresolved(notes), models);
  }

  /**
   * The `while (i--)` walk over the models: the last model is handled
   * first. Its attachments are the resolvable models' attachments in
   * reverse model order, its reports the unresolved references in reverse
   * model order; every model yields exactly one of the two.
   */
  function RealizeModels(kind: Kind, models: seq<Pointers.PointerModel>, notes: Notes.NotesById): (r: Realized)
    requires kind != BaseCollection
    ensures r.attached == Reverse(AttachmentsInOrder(kind, models, notes))
    ensures r.unresolved == Reverse(UnresolvedInOrder(models, notes))
    ensures |r.attached| + |r.unresolved| == |models|
    ensures forall u :: u in r.unresolved ==> u !in notes
    decreases |models|
  {
    if |models| == 0 then Realized([], [])
    else
      var init := models[..|models| - 1];
      var last := models[|models| - 1];
      var rest := RealizeModels(kind, init, notes);
      LastModelStep(kind, models, notes);
      match AttachmentFor(kind, last, notes)
      case Some(a) =>
        ReverseAppendOne(AttachmentsInOrder(kind, init, notes), a);
        Realized([a] + rest.attached, rest.unresolved)
      case None =>
        ReverseAppendOne(UnresolvedInOrder(init, notes), last.startid);
        Realized(rest.attached, [last.startid] + rest.unresolved)
  }

  /** `createVexFromInfos(notes_by_id)` of a collection of the given kind; the base collection always fails. */
  function CreateVexFromInfos(kind: Kind, c: Pointers.Collection, notes: Notes.NotesById): (r: Result<Realized, RealizeError>)
    ensures r.Failure? <==> kind == BaseCollection
    ensures r.Success? ==> |r.value.attached| + |r.value.unresolved| == |c.models|
    ensures r.Success? ==> r.value.attached == Reverse(AttachmentsInOrder(kind, c.models, notes))
    ensures r.Success? ==> r.value.unresolved == Reverse(UnresolvedInOrder(c.models, notes))
  {
    if kind == BaseCollection then Failure(NoRealisation) else Success(RealizeModels(kind, c.models, notes))
  }

  /**
   * Graceful degradation: a model whose reference is not in the table adds
   * one report and no attachment, and the other models attach exactly as
   * they would without it.
   */
  lemma DanglingModelIsDropped(kind: Kind, a: seq<Pointers.PointerModel>, m: Pointers.PointerModel,
                               b: seq<Pointers.PointerModel>, notes: Notes.NotesById)
    requires kind != BaseCollection
    requires m.startid !in notes
    ensures RealizeModels(kind, a + [m] + b, notes).attached == RealizeModels(kind, a + b, notes).attached
    ensures |RealizeModels(kind, a + [m] + b, notes).unresolved| == |RealizeModels(kind, a + b, notes).unresolved| + 1
  {
    var each, unres := Attach(kind, notes), Unresolved(notes);
    assert each(m) == [] && unres(m) == [m.startid];
    FlatMapAppend(each, a + [m], b);
    FlatMapAppend(each, a, [m]);
    FlatMapAppend(each, a, b);
    FlatMapAppend(unres, a + [m], b);
    FlatMapAppend(unres, a, [m]);
    FlatMapAppend(unres, a, b);
    assert [m][1..] == [];
    assert FlatMap(each, [m]) == [];
    assert FlatMap(unres, [m]) == [m.startid];
    assert AttachmentsInOrder(kind, a + [m] + b, notes) == AttachmentsInOrder(kind, a + b, notes);
    assert |UnresolvedInOrder(a + [m] + b, notes)| == |UnresolvedInOrder(a + b, notes)| + 1;
  }
}
