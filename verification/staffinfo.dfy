/**
 * Per-staff definition tracking (src/StaffInfo.js): which of clef, key
 * signature and time signature must be drawn again when a staff's
 * definition changes from one measure to the next.
 */
module StaffInfo {
  import opened Wrappers

  /** A `<staffDef>` element, as its attribute map. */
  type StaffDef = map<string, string>

  /** The `renderWith` flags. */
  datatype RenderWith = RenderWith(clef: bool, keysig: bool, timesig: bool)

  datatype DiffError = CannotCompareUndefined

  /** The tracked state of one staff: current definition and the flags of the last change. */
  datatype Info = Info(renderWith: RenderWith, staffDef: Option<StaffDef>)

  const CLEF_ATTS: seq<string> := ["clef.shape", "clef.line"]
  const KEY_ATTS: seq<string> := ["key.pname", "key.accid", "key.mode"]
  const METER_ATTS: seq<string> := ["meter.count", "meter.unit"]

  /** `$(def).attr(name)`: the attribute's value, undefined when absent. */
  function Attr(d: StaffDef, name: string): Option<string>
  {
    if name in d then Some(d[name]) else None
  }

  /** True when the two definitions agree on every listed attribute; two absent values agree. */
  predicate SameAtts(a: StaffDef, b: StaffDef, names: seq<string>)
  {
    forall i :: 0 <= i < |names| ==> Attr(a, names[i]) == Attr(b, names[i])
  }

  /** The constructor `StaffInfo(staffdef, w_clef, w_keysig, w_timesig)`. */
  function New(staffDef: Option<StaffDef>, clef: bool, keysig: bool, timesig: bool): (r: Info)
    ensures r.staffDef == staffDef
    ensures r.renderWith.clef == clef && r.renderWith.keysig == keysig && r.renderWith.timesig == timesig
  {
    Info(RenderWith(clef, keysig, timesig), staffDef)
  }

  /** The attribute-by-attribute diff of two present definitions. */
  function DiffDefs(cur: StaffDef, next: StaffDef): (r: RenderWith)
    ensures r.clef <==> !SameAtts(cur, next, CLEF_ATTS)
    ensures r.keysig <==> !SameAtts(cur, next, KEY_ATTS)
    ensures r.timesig <==> !SameAtts(cur, next, METER_ATTS)
  {
    var clef := Attr(cur, "clef.shape") != Attr(next, "clef.shape") || Attr(cur, "clef.line") != Attr(next, "clef.line");
    var key := Attr(cur, "key.pname") != Attr(next, "key.pname") || Attr(cur, "key.accid") != Attr(next, "key.accid")
               || Attr(cur, "key.mode") != Attr(next, "key.mode");
    var meter := Attr(cur, "meter.count") != Attr(next, "meter.count") || Attr(cur, "meter.unit") != Attr(next, "meter.unit");
    assert !clef ==> SameAtts(cur, next, CLEF_ATTS) by {
      if !clef {
        forall i | 0 <= i < |CLEF_ATTS| ensures Attr(cur, CLEF_ATTS[i]) == Attr(next, CLEF_ATTS[i]) {
          assert CLEF_ATTS[i] == "clef.shape" || CLEF_ATTS[i] == "clef.line";
        }
      }
    }
    assert !key ==> SameAtts(cur, next, KEY_ATTS) by {
      if !key {
        forall i | 0 <= i < |KEY_ATTS| ensures Attr(cur, KEY_ATTS[i]) == Attr(next, KEY_ATTS[i]) {
          assert KEY_ATTS[i] == "key.pname" || KEY_ATTS[i] == "key.accid" || KEY_ATTS[i] == "key.mode";
        }
      }
    }
    assert !meter ==> SameAtts(cur, next, METER_ATTS) by {
      if !meter {
        forall i | 0 <= i < |METER_ATTS| ensures Attr(cur, METER_ATTS[i]) == Attr(next, METER_ATTS[i]) {
          assert METER_ATTS[i] == "meter.count" || METER_ATTS[i] == "meter.unit";
        }
      }
    }
    assert clef ==> !SameAtts(cur, next, CLEF_ATTS) by {
      if clef {
        assert !(Attr(cur, CLEF_ATTS[0]) == Attr(next, CLEF_ATTS[0]) && Attr(cur, CLEF_ATTS[1]) == Attr(next, CLEF_ATTS[1]));
      }
    }
    assert key ==> !SameAtts(cur, next, KEY_ATTS) by {
      if key {
        assert !(Attr(cur, KEY_ATTS[0]) == Attr(next, KEY_ATTS[0]) && Attr(cur, KEY_ATTS[1]) == Attr(next, KEY_ATTS[1])
                 && Attr(cur, KEY_ATTS[2]) == Attr(next, KEY_ATTS[2]));
      }
    }
    assert meter ==> !SameAtts(cur, next, METER_ATTS) by {
      if meter {
        assert !(Attr(cur, METER_ATTS[0]) == Attr(next, METER_ATTS[0]) && Attr(cur, METER_ATTS[1]) == Attr(next, METER_ATTS[1]));
      }
    }
    RenderWith(clef, key, meter)
  }

  /**
   * `look4changes(current, new)` as written. With no current definition the
   * source sets `keysig` twice and never sets `timesig`, so a first
   * definition asks for clef and key signature but not for the time
   * signature. With no new definition nothing changes; with neither it
   * fails.
   */
  function Look4Changes(cur: Option<StaffDef>, next: Option<StaffDef>): (r: Result<RenderWith, DiffError>)
    ensures r.Failure? <==> cur.None? && next.None?
    ensures cur.None? && next.Some? ==> r == Success(RenderWith(true, true, false))
    ensures cur.Some? && next.None? ==> r == Success(RenderWith(false, false, false))
    ensures cur.Some? && next.Some? ==> r == Success(DiffDefs(cur.value, next.value))
  {
    match (cur, next)
    case (None, Some(_)) => Success(RenderWith(true, true, false))
    case (Some(_), None) => Success(RenderWith(false, false, false))
    case (None, None) => Failure(CannotCompareUndefined)
    case (Some(c), Some(n)) => Success(DiffDefs(c, n))
  }

  /** The first appearance of a staff definition, as written, leaves the time signature undrawn. */
  lemma FirstDefinitionOmitsTimesig(d: StaffDef)
    ensures Look4Changes(None, Some(d)).value.timesig == false
  {
  }

  /**
   * `look4changes` as its branch evidently intends: a first definition asks
   * for everything to be drawn. Every other case is unchanged.
   */
  function Look4ChangesCorrected(cur: Option<StaffDef>, next: Option<StaffDef>): (r: Result<RenderWith, DiffError>)
    ensures r.Failure? <==> cur.None? && next.None?
    ensures cur.None? && next.Some? ==> r == Success(RenderWith(true, true, true))
    ensures cur.Some? ==> r == Look4Changes(cur, next)
  {
    match (cur, next)
    case (None, Some(_)) => Success(RenderWith(true, true, true))
    case _ => Look4Changes(cur, next)
  }

  /** Two definitions with the same attributes produce no change at all. */
  lemma DiffOfSameIsEmpty(a: StaffDef, b: StaffDef)
    requires SameAtts(a, b, CLEF_ATTS + KEY_ATTS + METER_ATTS)
    ensures Look4Changes(Some(a), Some(b)) == Success(RenderWith(false, false, false))
  {
    var all := CLEF_ATTS + KEY_ATTS + METER_ATTS;
    assert SameAtts(a, b, CLEF_ATTS) by {
      forall i | 0 <= i < |CLEF_ATTS| ensures Attr(a, CLEF_ATTS[i]) == Attr(b, CLEF_ATTS[i]) {
        assert all[i] == CLEF_ATTS[i];
      }
    }
    assert SameAtts(a, b, KEY_ATTS) by {
      forall i | 0 <= i < |KEY_ATTS| ensures Attr(a, KEY_ATTS[i]) == Attr(b, KEY_ATTS[i]) {
        assert all[|CLEF_ATTS| + i] == KEY_ATTS[i];
      }
    }
    assert SameAtts(a, b, METER_ATTS) by {
      forall i | 0 <= i < |METER_ATTS| ensures Attr(a, METER_ATTS[i]) == Attr(b, METER_ATTS[i]) {
        assert all[|CLEF_ATTS| + |KEY_ATTS| + i] == METER_ATTS[i];
      }
    }
  }

  /** A change of clef shape alone asks for the clef only. */
  lemma ClefShapeChangeOnly(a: StaffDef, shape: string)
    requires Attr(a, "clef.shape") != Some(shape)
    ensures Look4Changes(Some(a), Some(a["clef.shape" := shape])) == Success(RenderWith(true, false, false))
  {
    var b := a["clef.shape" := shape];
    assert !SameAtts(a, b, CLEF_ATTS) by {
      assert CLEF_ATTS[0] == "clef.shape";
    }
    assert SameAtts(a, b, KEY_ATTS) by {
      forall i | 0 <= i < |KEY_ATTS| ensures Attr(a, KEY_ATTS[i]) == Attr(b, KEY_ATTS[i]) {
        assert KEY_ATTS[i] != "clef.shape";
      }
    }
    assert SameAtts(a, b, METER_ATTS) by {
      forall i | 0 <= i < |METER_ATTS| ensures Attr(a, METER_ATTS[i]) == Attr(b, METER_ATTS[i]) {
        assert METER_ATTS[i] != "clef.shape";
      }
    }
  }

  /**
   * `updateDef(d)`: the flags become the diff of the old definition
   * against `d`, then `d` becomes the definition. It fails when both are
   * undefined.
   */
  function UpdateDef(info: Info, d: Option<StaffDef>): (r: Result<Info, DiffError>)
    ensures r.Failure? <==> info.staffDef.None? && d.None?
    ensures r.Success? ==> r.value.staffDef == d
    ensures r.Success? ==> Success(r.value.renderWith) == Look4Changes(info.staffDef, d)
  {
    match Look4Changes(info.staffDef, d)
    case Failure(e) => Failure(e)
    case Success(flags) => Success(Info(flags, d))
  }

  /** `updateDef` with the corrected first-definition diff. */
  function UpdateDefCorrected(info: Info, d: Option<StaffDef>): (r: Result<Info, DiffError>)
    ensures r.Failure? <==> info.staffDef.None? && d.None?
    ensures r.Success? ==> r.value.staffDef == d
    ensures r.Success? ==> Success(r.value.renderWith) == Look4ChangesCorrected(info.staffDef, d)
  {
    match Look4ChangesCorrected(info.staffDef, d)
    case Failure(e) => Failure(e)
    case Success(flags) => Success(Info(flags, d))
  }

  /** Repeating the same defined `updateDef(d)` asks for nothing to be drawn the second time. */
  lemma {:induction false} UpdateDefTwice(info: Info, d: StaffDef)
    ensures UpdateDef(info, Some(d)).Success?
    ensures UpdateDef(UpdateDef(info, Some(d)).value, Some(d)).value.renderWith == RenderWith(false, false, false)
    ensures UpdateDefCorrected(UpdateDefCorrected(info, Some(d)).value, Some(d)).value.renderWith == RenderWith(false, false, false)
  {
    DiffOfSameIsEmpty(d, d);
  }
}
