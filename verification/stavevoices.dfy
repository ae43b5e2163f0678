/**
 * The voice stack of one measure (src/StaveVoices.js): the voices of all
 * staves, each tagged with its staff number, kept in insertion order.
 */
module StaveVoices {
  import opened Wrappers

  /** A handle on a drawing-library voice; its content is not modelled. */
  datatype Voice = Voice(id: nat)

  /** One voice together with the number of the staff it belongs to. */
  datatype StaffVoice = StaffVoice(voice: Voice, staffN: nat)

  /** The stack: `all_voices` of the source. */
  datatype Stack = Stack(all: seq<StaffVoice>)

  /** The call `new Formatter().joinVoices(vs).format(vs, width)`: the voices handed over and the width argument. */
  datatype JoinFormat<W> = JoinFormat(voices: seq<Voice>, width: W)

  /** One `voice.draw(context, staves[staff_n])` call; `None` when no stave has that number. */
  datatype DrawCall<S> = DrawCall(voice: Voice, stave: Option<S>)

  function Empty(): (s: Stack)
    ensures |s.all| == 0
  {
    Stack([])
  }

  /** `addStaffVoice`: the entry goes to the end; the entries already there are untouched. */
  function AddStaffVoice(s: Stack, sv: StaffVoice): (r: Stack)
    ensures |r.all| == |s.all| + 1
    ensures r.all[..|s.all|] == s.all
    ensures r.all[|s.all|] == sv
  {
    Stack(s.all + [sv])
  }

  /** `addVoice(voice, staff_n)`: appends exactly the pair `(voice, staff_n)`. */
  function AddVoice(s: Stack, v: Voice, staffN: nat): (r: Stack)
    ensures |r.all| == |s.all| + 1
    ensures forall i :: 0 <= i < |s.all| ==> r.all[i] == s.all[i]
    ensures r.all[|s.all|].voice == v && r.all[|s.all|].staffN == staffN
  {
    AddStaffVoice(s, StaffVoice(v, staffN))
  }

  /** `reset`: the stack is emptied. */
  function Reset(s: Stack): (r: Stack)
    ensures r.all == []
  {
    Empty()
  }

  /** The voices of the entries, in entry order (the `$.map` of `format`). */
  function VoicesOf(all: seq<StaffVoice>): (vs: seq<Voice>)
    ensures |vs| == |all|
    ensures forall i :: 0 <= i < |all| ==> vs[i] == all[i].voice
  {
    if |all| == 0 then [] else VoicesOf(all[..|all| - 1]) + [all[|all| - 1].voice]
  }

  /**
   * `format(width)`: one joint formatter call over every voice of the stack,
   * in insertion order, with the caller's width argument passed through.
   */
  function Format<W>(s: Stack, width: W): (r: JoinFormat<W>)
    ensures |r.voices| == |s.all|
    ensures forall i :: 0 <= i < |s.all| ==> r.voices[i] == s.all[i].voice
    ensures r.width == width
  {
    JoinFormat(VoicesOf(s.all), width)
  }

  /** The stave a voice tagged `n` is drawn against: `staves[n]`, undefined past the end. */
  function StaveAt<S>(staves: seq<Option<S>>, n: nat): Option<S>
  {
    if n < |staves| then staves[n] else None
  }

  /** `draw(context, staves)`: visits the entries in insertion order, drawing each voice against its own staff. */
  method Draw<S>(s: Stack, staves: seq<Option<S>>) returns (calls: seq<DrawCall<S>>)
    ensures |calls| == |s.all|
    ensures forall i :: 0 <= i < |s.all| ==>
      calls[i] == DrawCall(s.all[i].voice, StaveAt(staves, s.all[i].staffN))
  {
    calls := [];
    var i := 0;
    while i < |s.all|
      invariant 0 <= i <= |s.all|
      invariant |calls| == i
      invariant forall k :: 0 <= k < i ==>
        calls[k] == DrawCall(s.all[k].voice, StaveAt(staves, s.all[k].staffN))
    {
      var sv := s.all[i];
      calls := calls + [DrawCall(sv.voice, StaveAt(staves, sv.staffN))];
      i := i + 1;
    }
  }

  /** After `addVoice(v, n)`, the joint format call sees the earlier voices followed by `v`. */
  lemma FormatAfterAdd<W>(s: Stack, v: Voice, n: nat, width: W)
    ensures Format(AddVoice(s, v, n), width).voices == Format(s, width).voices + [v]
  {
    var r := Format(AddVoice(s, v, n), width).voices;
    var e := Format(s, width).voices + [v];
    assert |r| == |e|;
    forall i | 0 <= i < |r| ensures r[i] == e[i] {
    }
  }

  /** After `reset`, the joint format call sees no voice at all. */
  lemma FormatAfterReset<W>(s: Stack, width: W)
    ensures Format(Reset(s), width).voices == []
  {
  }
}
