/**
 * The parts of an MEI document the model reads: annotation elements as
 * attribute maps with their text content, and the staff/layer skeleton of
 * a measure that timestamps are resolved against.
 */
module Mei {
  import opened Wrappers

  /** An element: its attributes (`Util.attsToObj`) and its normalised text content. */
  datatype Element = Element(atts: map<string, string>, text: string)

  /** A `<layer>`: its `@n` and the ids of its events, in document order. */
  datatype LayerElement = LayerElement(n: Option<string>, events: seq<string>)

  /** A `<staff>`: its `@n` and its layers, in document order. */
  datatype StaffElement = StaffElement(n: Option<string>, layers: seq<LayerElement>)

  /** A `<measure>`: its staves, in document order. */
  datatype MeasureElement = MeasureElement(staves: seq<StaffElement>)

  /** `atts[name]`: undefined when the attribute is absent. */
  function Attr(atts: map<string, string>, name: string): Option<string>
  {
    if name in atts then Some(atts[name]) else None
  }

  /** A string attribute is truthy when present and non-empty. */
  predicate Truthy(a: Option<string>)
  {
    a.Some? && a.value != ""
  }

  /** `atts[name] || default`. */
  function AttrOr(atts: map<string, string>, name: string, default: string): (r: string)
    ensures Truthy(Attr(atts, name)) ==> r == atts[name]
    ensures !Truthy(Attr(atts, name)) ==> r == default
  {
    if Truthy(Attr(atts, name)) then atts[name] else default
  }
}
