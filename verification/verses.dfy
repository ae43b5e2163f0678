/**
 * Verses (src/mei2vf/lyrics/Verses.js): lyric syllables grouped by staff
 * and verse, then stacked so that each verse of a staff sits on one common
 * baseline below the previous verse's.
 */
module Verses {
  import opened Wrappers
  import Mei
  import JsObject

  /** The gap between the baselines of consecutive verses. */
  const PADDING: real := 20.0
  /** The value `lowestY` starts from on every staff. */
  const START_Y: real := -20.0

  /** A syllable annotation (the drawing-library text object). */
  datatype Syllable = Syllable(id: nat)

  /** A `<syl>` element: its `@wordpos` and the local name and `@n` of its parent. */
  datatype SylElement = SylElement(wordpos: Option<string>, parentTag: string, parentN: Option<string>)

  /** One verse of one staff: its syllables and what its hyphenation tracker received. */
  datatype Verse = Verse(syllables: seq<Syllable>, hyphenation: seq<(Syllable, string)>)

  /** The verses of one staff: verse keys in creation order and the verse of each key. */
  datatype StaffVerses = StaffVerses(keys: seq<string>, verses: map<string, Verse>)

  /** `systemVerses` and `lowestYs`, both keyed by staff number. */
  datatype Verses = Verses(staves: map<nat, StaffVerses>, lowestYs: map<nat, real>)

  /** The verse of `key`, or a fresh empty verse when it does not exist yet. */
  function VerseOf(sv: StaffVerses, key: string): Verse
  {
    if key in sv.verses then sv.verses[key] else Verse([], [])
  }

  /** The verse `key` of staff `staveN`, or a fresh empty verse. */
  function GroupOf(v: Verses, staveN: nat, key: string): Verse
  {
    if staveN in v.staves then VerseOf(v.staves[staveN], key) else Verse([], [])
  }

  /** The verse keys of staff `staveN` in creation order (none for an unknown staff). */
  function KeysOf(v: Verses, staveN: nat): seq<string>
  {
    if staveN in v.staves then v.staves[staveN].keys else []
  }

  /** The keys list of every staff lists each verse exactly once. */
  ghost predicate Wellformed(v: Verses)
  {
    forall s :: s in v.staves ==>
      (forall i, j :: 0 <= i < j < |v.staves[s].keys| ==> v.staves[s].keys[i] != v.staves[s].keys[j])
      && (forall k :: k in v.staves[s].verses <==> k in v.staves[s].keys)
  }

  /** A new `Verses` object. */
  function Empty(): (r: Verses)
    ensures Wellformed(r)
    ensures forall s, k :: GroupOf(r, s, k) == Verse([], [])
  {
    Verses(map[], map[])
  }

  /** The verse number: the parent's `@n` when the parent is a `<verse>` carrying one, else "1". */
  function VerseNumber(el: SylElement): (r: string)
    ensures el.parentTag == "verse" && el.parentN.Some? ==> r == el.parentN.value
    ensures !(el.parentTag == "verse" && el.parentN.Some?) ==> r == "1"
  {
    if el.parentTag == "verse" && el.parentN.Some? then el.parentN.value else "1"
  }

  /**
   * `addSyllable(annot, element, stave_n)`: appends the syllable to exactly
   * one `[staff][verse]` group, creating the group on first use; the
   * hyphenation tracker of that group gets it iff `@wordpos` is truthy.
   */
  function AddSyllable(v: Verses, annot: Syllable, el: SylElement, staveN: nat): (r: Verses)
    ensures r.lowestYs == v.lowestYs
    ensures r.staves.Keys == v.staves.Keys + {staveN}
    ensures forall s :: s in v.staves && s != staveN ==> r.staves[s] == v.staves[s]
    ensures GroupOf(r, staveN, VerseNumber(el)).syllables == GroupOf(v, staveN, VerseNumber(el)).syllables + [annot]
    ensures Mei.Truthy(el.wordpos) ==>
      GroupOf(r, staveN, VerseNumber(el)).hyphenation
        == GroupOf(v, staveN, VerseNumber(el)).hyphenation + [(annot, el.wordpos.value)]
    ensures !Mei.Truthy(el.wordpos) ==>
      GroupOf(r, staveN, VerseNumber(el)).hyphenation == GroupOf(v, staveN, VerseNumber(el)).hyphenation
    ensures forall k :: k != VerseNumber(el) ==> GroupOf(r, staveN, k) == GroupOf(v, staveN, k)
    ensures VerseNumber(el) in KeysOf(v, staveN) ==> KeysOf(r, staveN) == KeysOf(v, staveN)
    ensures VerseNumber(el) !in KeysOf(v, staveN) ==> KeysOf(r, staveN) == KeysOf(v, staveN) + [VerseNumber(el)]
  {
    var key := VerseNumber(el);
    var sv := if staveN in v.staves then v.staves[staveN] else StaffVerses([], map[]);
    var keys := if key in sv.keys then sv.keys else sv.keys + [key];
    var old_ := VerseOf(sv, key);
    var hyph := if Mei.Truthy(el.wordpos) then old_.hyphenation + [(annot, el.wordpos.value)] else old_.hyphenation;
    var verse := Verse(old_.syllables + [annot], hyph);
    v.(staves := v.staves[staveN := StaffVerses(keys, sv.verses[key := verse])])
  }

  /** Adding a syllable keeps every staff's key list in step with its verses, provided it already was. */
  lemma AddSyllableWellformed(v: Verses, annot: Syllable, el: SylElement, staveN: nat)
    requires Wellformed(v)
    requires staveN in v.staves ==> (VerseNumber(el) in v.staves[staveN].verses <==> VerseNumber(el) in v.staves[staveN].keys)
    ensures Wellformed(AddSyllable(v, annot, el, staveN))
  {
  }

  /** A `(syllable, element, staff)` triple as passed to `addSyllable`. */
  datatype SylCall = SylCall(annot: Syllable, el: SylElement, staveN: nat)

  /** A sequence of `addSyllable` calls. */
  function AddAll(v: Verses, calls: seq<SylCall>): (r: Verses)
    ensures r.lowestYs == v.lowestYs
  {
    if |calls| == 0 then v
    else
      var c := calls[|calls| - 1];
      AddSyllable(AddAll(v, calls[..|calls| - 1]), c.annot, c.el, c.staveN)
  }

  /** The syllables of the calls that target staff `s` and verse `k`, in call order. */
  function SyllablesFor(calls: seq<SylCall>, s: nat, k: string): seq<Syllable>
  {
    if |calls| == 0 then []
    else
      var c := calls[|calls| - 1];
      SyllablesFor(calls[..|calls| - 1], s, k) + (if c.staveN == s && VerseNumber(c.el) == k then [c.annot] else [])
  }

  /**
   * Grouping partitions the syllables: after a run of `addSyllable` calls,
   * group `[s][k]` holds what it held before followed by exactly the
   * syllables of the calls for staff `s` and verse `k`, in call order.
   */
  lemma {:induction false} GroupsPartition(v: Verses, calls: seq<SylCall>, s: nat, k: string)
    ensures GroupOf(AddAll(v, calls), s, k).syllables == GroupOf(v, s, k).syllables + SyllablesFor(calls, s, k)
  {
    if |calls| > 0 {
      var c := calls[|calls| - 1];
      var prefix := calls[..|calls| - 1];
      GroupsPartition(v, prefix, s, k);
      var before := AddAll(v, prefix);
      if c.staveN == s && VerseNumber(c.el) == k {
      } else if c.staveN == s {
        assert GroupOf(AddAll(v, calls), s, k) == GroupOf(before, s, k);
      } else {
        assert GroupOf(AddAll(v, calls), s, k) == GroupOf(before, s, k);
      }
    }
  }

  /** `Math.max` over finite numbers. */
  function Max(a: real, b: real): real
  {
    if a >= b then a else b
  }

  /**
   * The first pass over one verse: `lowestY` folded with the `preProcess()`
   * value of every syllable.
   */
  function VerseMax(init: real, syllables: seq<Syllable>, preProcess: Syllable -> real): (r: real)
    ensures r >= init
    ensures forall i :: 0 <= i < |syllables| ==> r >= preProcess(syllables[i])
    ensures r == init || exists i :: 0 <= i < |syllables| && r == preProcess(syllables[i])
  {
    if |syllables| == 0 then init
    else
      var rest := VerseMax(init, syllables[..|syllables| - 1], preProcess);
      assert forall i :: 0 <= i < |syllables| - 1 ==> syllables[..|syllables| - 1][i] == syllables[i];
      Max(rest, preProcess(syllables[|syllables| - 1]))
  }

  /** The last element of `s`, or `default` when `s` is empty. */
  function LastOr(s: seq<real>, default: real): real
  {
    if |s| == 0 then default else s[|s| - 1]
  }

  /** The baseline before verse `k`: the previous verse's, or the start value for the first verse. */
  function Prev(r: seq<real>, k: nat, start: real): real
    requires k <= |r|
  {
    if k == 0 then start else r[k - 1]
  }

  /**
   * The baselines of a staff's verses, in visiting order: verse `k` adds the
   * padding to the baseline before it and folds in its own syllables.
   */
  function Baselines(start: real, verses: seq<seq<Syllable>>, preProcess: Syllable -> real): (r: seq<real>)
    ensures |r| == |verses|
  {
    if |verses| == 0 then []
    else
      var before := Baselines(start, verses[..|verses| - 1], preProcess);
      before + [VerseMax(LastOr(before, start) + PADDING, verses[|verses| - 1], preProcess)]
  }

  /** The recurrence behind `Baselines`: verse `k` starts from the baseline before it plus the padding. */
  lemma {:induction false} BaselineAt(start: real, verses: seq<seq<Syllable>>, preProcess: Syllable -> real, k: nat)
    requires k < |verses|
    ensures var r := Baselines(start, verses, preProcess);
      r[k] == VerseMax(Prev(r, k, start) + PADDING, verses[k], preProcess)
  {
    var n := |verses| - 1;
    var before := Baselines(start, verses[..n], preProcess);
    var r := Baselines(start, verses, preProcess);
    assert r == before + [VerseMax(LastOr(before, start) + PADDING, verses[n], preProcess)];
    if k < n {
      BaselineAt(start, verses[..n], preProcess, k);
      assert verses[..n][k] == verses[k];
      assert Prev(r, k, start) == Prev(before, k, start);
    }
  }

  /**
   * What a staff's baselines mean: every baseline lies at least the padding
   * below the one before it (the start value for the first verse), at or
   * below every `preProcess()` value of its own verse, and is exactly one of
   * those two bounds.
   */
  lemma BaselineBounds(start: real, verses: seq<seq<Syllable>>, preProcess: Syllable -> real, k: nat)
    requires k < |verses|
    ensures var r := Baselines(start, verses, preProcess);
      && r[k] >= Prev(r, k, start) + PADDING
      && (forall i :: 0 <= i < |verses[k]| ==> r[k] >= preProcess(verses[k][i]))
      && (r[k] == Prev(r, k, start) + PADDING || exists i :: 0 <= i < |verses[k]| && r[k] == preProcess(verses[k][i]))
  {
    BaselineAt(start, verses, preProcess, k);
  }

  /** Later verses sit lower: a baseline is at least 20 per verse below any earlier one. */
  lemma {:induction false} BaselinesStack(start: real, verses: seq<seq<Syllable>>, preProcess: Syllable -> real, j: nat, k: nat)
    requires j <= k < |verses|
    ensures Baselines(start, verses, preProcess)[k] >= Baselines(start, verses, preProcess)[j] + PADDING * ((k - j) as real)
  {
    if j < k {
      BaselinesStack(start, verses, preProcess, j, k - 1);
      BaselineBounds(start, verses, preProcess, k);
    }
  }

  /** The verses of a staff, as syllable lists in the `for…in` visiting order of their keys. */
  function OrderedVerses(sv: StaffVerses): (r: seq<seq<Syllable>>)
    ensures |r| == |sv.keys|
  {
    var order := JsObject.ForInOrder(sv.keys);
    assert |order| == |multiset(order)| == |sv.keys|;
    seq(|order|, i requires 0 <= i < |order| => VerseOf(sv, order[i]).syllables)
  }

  /** The value `lowestYs[s]` receives for a staff: the last verse's baseline, or the start value for no verse. */
  function StaffLowestY(sv: StaffVerses, preProcess: Syllable -> real): real
  {
    LastOr(Baselines(START_Y, OrderedVerses(sv), preProcess), START_Y)
  }

  /** A staff's lowest y lies at least one padding per verse below the start value and at or below every syllable. */
  lemma LowestYBounds(sv: StaffVerses, preProcess: Syllable -> real)
    ensures StaffLowestY(sv, preProcess) >= START_Y + PADDING * (|sv.keys| as real)
    ensures forall k, i :: 0 <= k < |sv.keys| && 0 <= i < |OrderedVerses(sv)[k]| ==>
      StaffLowestY(sv, preProcess) >= preProcess(OrderedVerses(sv)[k][i])
  {
    var vs := OrderedVerses(sv);
    var bs := Baselines(START_Y, vs, preProcess);
    if |vs| > 0 {
      BaselinesStack(START_Y, vs, preProcess, 0, |vs| - 1);
      BaselineBounds(START_Y, vs, preProcess, 0);
      forall k, i | 0 <= k < |vs| && 0 <= i < |vs[k]|
        ensures bs[|vs| - 1] >= preProcess(vs[k][i])
      {
        BaselinesStack(START_Y, vs, preProcess, k, |vs| - 1);
        BaselineBounds(START_Y, vs, preProcess, k);
      }
    }
  }

  /** A `setY` call on a syllable together with the text line it was given. */
  datatype Placement = Placement(syllable: Syllable, textLine: int, y: real)

  /** One row per verse, one placement per syllable: text line 0 and the verse's baseline. */
  predicate PlacedOn(placed: seq<seq<Placement>>, verses: seq<seq<Syllable>>, baselines: seq<real>)
    requires |baselines| == |verses|
  {
    && |placed| == |verses|
    && (forall k :: 0 <= k < |verses| ==> |placed[k]| == |verses[k]|)
    && (forall k, i :: 0 <= k < |verses| && 0 <= i < |verses[k]| ==>
          placed[k][i] == Placement(verses[k][i], 0, baselines[k]))
  }

  /**
   * The body of `format` for one staff: the first pass over each verse
   * sets text line 0 and folds the syllables into `lowestY`; the second
   * pass gives every syllable of that verse the verse's baseline.
   */
  method FormatStaff(verses: seq<seq<Syllable>>, preProcess: Syllable -> real)
      returns (lowestY: real, placed: seq<seq<Placement>>)
    ensures lowestY == LastOr(Baselines(START_Y, verses, preProcess), START_Y)
    ensures PlacedOn(placed, verses, Baselines(START_Y, verses, preProcess))
  {
    ghost var bs := Baselines(START_Y, verses, preProcess);
    lowestY := START_Y;
    placed := [];
    var k := 0;
    while k < |verses|
      invariant 0 <= k <= |verses|
      invariant lowestY == Prev(bs, k, START_Y)
      invariant |placed| == k
      invariant forall m :: 0 <= m < k ==> |placed[m]| == |verses[m]|
      invariant forall m, i :: 0 <= m < k && 0 <= i < |verses[m]| ==> placed[m][i] == Placement(verses[m][i], 0, bs[m])
    {
      lowestY := FoldVerse(lowestY + PADDING, verses[k], preProcess);
      BaselineAt(START_Y, verses, preProcess, k);
      var row := PlaceVerse(verses[k], lowestY);
      placed := placed + [row];
      k := k + 1;
    }
  }

  /** The first pass over one verse: text line 0 for every syllable, and `lowestY` folded with their `preProcess()`. */
  method FoldVerse(init: real, verse: seq<Syllable>, preProcess: Syllable -> real) returns (lowestY: real)
    ensures lowestY == VerseMax(init, verse, preProcess)
  {
    lowestY := init;
    var i := 0;
    while i < |verse|
      invariant 0 <= i <= |verse|
      invariant lowestY == VerseMax(init, verse[..i], preProcess)
    {
      assert verse[..i + 1][..i] == verse[..i];
      lowestY := Max(lowestY, preProcess(verse[i]));
      i := i + 1;
    }
    assert verse[..i] == verse;
  }

  /** The second pass over one verse: every syllable gets text line 0 and the common `lowestY`. */
  method PlaceVerse(verse: seq<Syllable>, lowestY: real) returns (row: seq<Placement>)
    ensures |row| == |verse|
    ensures forall i :: 0 <= i < |verse| ==> row[i] == Placement(verse[i], 0, lowestY)
  {
    var textLine := 0;
    row := [];
    var i := 0;
    while i < |verse|
      invariant 0 <= i <= |verse|
      invariant |row| == i
      invariant forall m :: 0 <= m < i ==> row[m] == Placement(verse[m], textLine, lowestY)
    {
      row := row + [Placement(verse[i], textLine, lowestY)];
      i := i + 1;
    }
  }

  /** The placements of a staff's syllables: one row per verse in visiting order, each on its verse's baseline. */
  function StaffPlacements(sv: StaffVerses, preProcess: Syllable -> real): (r: seq<seq<Placement>>)
  {
    var vs := OrderedVerses(sv);
    var bs := Baselines(START_Y, vs, preProcess);
    seq(|vs|, k requires 0 <= k < |vs| => seq(|vs[k]|, i requires 0 <= i < |vs[k]| => Placement(vs[k][i], 0, bs[k])))
  }

  /**
   * `format`, as far as the object is concerned: every staff is stacked on
   * its own; `lowestYs[s]` becomes that staff's last baseline and the
   * entries of staves without verses are kept.
   */
  function Format(v: Verses, preProcess: Syllable -> real): (r: Verses)
    ensures r.staves == v.staves
    ensures r.lowestYs.Keys == v.lowestYs.Keys + v.staves.Keys
    ensures forall s :: s in v.staves ==> r.lowestYs[s] == StaffLowestY(v.staves[s], preProcess)
    ensures forall s :: s in v.lowestYs && s !in v.staves ==> r.lowestYs[s] == v.lowestYs[s]
  {
    var computed := map s | s in v.staves :: StaffLowestY(v.staves[s], preProcess);
    Verses(v.staves, v.lowestYs + computed)
  }

  /** `format`, as far as the syllables are concerned: the `setY` calls made on each staff. */
  function FormatPlacements(v: Verses, preProcess: Syllable -> real): (r: map<nat, seq<seq<Placement>>>)
    ensures r.Keys == v.staves.Keys
    ensures forall s :: s in v.staves ==> r[s] == StaffPlacements(v.staves[s], preProcess)
  {
    map s | s in v.staves :: StaffPlacements(v.staves[s], preProcess)
  }

  /** The two-pass loop of one staff computes exactly the staff's entry of `format`. */
  method FormatStaffVerses(sv: StaffVerses, preProcess: Syllable -> real) returns (lowestY: real, placed: seq<seq<Placement>>)
    ensures lowestY == StaffLowestY(sv, preProcess)
    ensures placed == StaffPlacements(sv, preProcess)
  {
    lowestY, placed := FormatStaff(OrderedVerses(sv), preProcess);
    ghost var expected := StaffPlacements(sv, preProcess);
    assert |placed| == |expected|;
    assert forall k :: 0 <= k < |placed| ==> placed[k] == expected[k];
  }

  /** `getLowestY(stave_n)`: undefined for a staff that has never been formatted. */
  function GetLowestY(v: Verses, staveN: nat): (r: Option<real>)
    ensures r.None? <==> staveN !in v.lowestYs
    ensures r.Some? ==> r.value == v.lowestYs[staveN]
  {
    if staveN in v.lowestYs then Some(v.lowestYs[staveN]) else None
  }
}
