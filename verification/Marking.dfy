/** From the choice of CRTCs to the plan: `crtc_add_output`, `set_crtcs` and `mark_changing_crtcs`;
    and, before it, what `set_output_info` fills in from the server. */
module Marking {
  import opened RandrState
  import opened PickCrtcs
  import opened DisplayServer
  import Commit

  // ----- What the server reported -----

  function Identity(): Transform {
    Transform(Row(1.0, 0.0, 0.0), Row(0.0, 1.0, 0.0), Row(0.0, 0.0, 1.0), "", [])
  }

  /** The mode an output has when none is asked for: that of the CRTC the server has it on, or else of
      the CRTC it is to have. */
  function CurrentModeId(crtcs: seq<Crtc>, o: Output, crtc: Option<nat>): Xid
    requires crtc.Some? ==> crtc.value < |crtcs|
  {
    var used := if o.info.crtc != 0 then FindCrtc(crtcs, o.info.crtc) else None;
    if used.Some? then crtcs[used.value].info.mode
    else if crtc.Some? then crtcs[crtc.value].info.mode
    else 0
  }

  /** The rotation mask after `set_output_info`, from the mask the command line left. */
  function FilledRotation(asked: Rotation, changes: set<Change>, crtc: Option<Crtc>): Rotation {
    var turned :=
      if RotationChange in changes then asked
      else if crtc.Some? then asked.(direction := crtc.value.info.rotation.direction)
      else Rotation(ROTATE_0, false, false);
    if ReflectionChange in changes then turned
    else if crtc.Some? then
      turned.(reflectX := crtc.value.info.rotation.reflectX, reflectY := crtc.value.info.rotation.reflectY)
    else turned.(reflectX := false, reflectY := false)
  }

  /** A requested reflection survives unless the output has no CRTC and no rotation was requested:
      then the whole mask is reset. */
  lemma ReflectionSurvivesIff(asked: Rotation, changes: set<Change>, crtc: Option<Crtc>)
    requires ReflectionChange in changes
    ensures (forall x: bool, y: bool ::
               var r := FilledRotation(asked.(reflectX := x, reflectY := y), changes, crtc);
               r.reflectX == x && r.reflectY == y)
            <==> crtc.Some? || RotationChange in changes
  {
    if crtc.None? && RotationChange !in changes {
      assert !FilledRotation(asked.(reflectX := true, reflectY := true), changes, crtc).reflectX;
    }
  }

  function Pointee(crtcs: seq<Crtc>, crtc: Option<nat>): Option<Crtc>
    requires crtc.Some? ==> crtc.value < |crtcs|
  {
    if crtc.Some? then Some(crtcs[crtc.value]) else None
  }

  datatype Filled = Filled | UnknownCrtc | UnusableCrtc | UnknownMode

  /** The CRTC and the mode, as `set_output_info` leaves them. */
  ghost predicate PlacedFrom(modes: seq<Mode>, crtcs: seq<Crtc>, o: Output, asked: Option<nat>)
    reads o`changes, o`crtc, o`mode
  {
    && (o.crtc.Some? ==> o.crtc.value < |crtcs| && crtcs[o.crtc.value].xid in o.info.crtcs)
    && (if CrtcChange in o.changes then o.crtc == asked
        else if o.info.crtc == 0 then o.crtc == None
        else o.crtc == FindCrtc(crtcs, o.info.crtc) && o.crtc.Some?)
    && (ModeChange !in o.changes ==> KeepsMode(modes, crtcs, o))
  }

  /** The output has the mode of the CRTC the server has it on, wherever it is to go; if it is on none, that of the
      CRTC it is to have, if any. */
  ghost predicate KeepsMode(modes: seq<Mode>, crtcs: seq<Crtc>, o: Output)
    requires o.crtc.Some? ==> o.crtc.value < |crtcs|
    reads o`crtc, o`mode
  {
    var now := if o.info.crtc == 0 then None else FindCrtc(crtcs, o.info.crtc);
    if now.Some? then HasModeOf(modes, crtcs[now.value].info.mode, o.mode)
    else if o.crtc.Some? then HasModeOf(modes, crtcs[o.crtc.value].info.mode, o.mode)
    else o.mode == None
  }

  /** What was not asked for is as the CRTC of the output is on the server, or plain if it has none; a direction
      that was asked for stays, and a reflection with a CRTC or a direction that was. */
  ghost predicate TakesRest(crtcs: seq<Crtc>, o: Output, asked: Rotation)
    requires o.crtc.Some? ==> o.crtc.value < |crtcs|
    reads o`changes, o`crtc, o`x, o`y, o`rotation, o`transform
  {
    var on := if o.crtc.Some? then Some(crtcs[o.crtc.value]) else None;
    && (PositionChange !in o.changes ==>
          if on.None? then o.x == 0 && o.y == 0 else o.x == on.value.info.x && o.y == on.value.info.y)
    && (TransformChange !in o.changes ==>
          if on.Some? then o.transform == on.value.currentTransform
          else && o.transform.r0 == Row(1.0, 0.0, 0.0) && o.transform.r1 == Row(0.0, 1.0, 0.0)
               && o.transform.r2 == Row(0.0, 0.0, 1.0))
    && o.rotation.direction == (if RotationChange in o.changes then asked.direction
                                else if on.Some? then on.value.info.rotation.direction else 1)
    && (ReflectionChange in o.changes && (RotationChange in o.changes || on.Some?) ==>
          o.rotation.reflectX == asked.reflectX && o.rotation.reflectY == asked.reflectY)
    && (ReflectionChange !in o.changes ==>
          && o.rotation.reflectX == (on.Some? && on.value.info.rotation.reflectX)
          && o.rotation.reflectY == (on.Some? && on.value.info.rotation.reflectY))
  }

  method FillCrtcAndMode(modes: seq<Mode>, crtcs: seq<Crtc>, o: Output) returns (r: Filled)
    requires o.crtc.Some? ==> o.crtc.value < |crtcs|
    modifies o`crtc, o`mode
    ensures r.Filled? ==> PlacedFrom(modes, crtcs, o, old(o.crtc))
    ensures ModeChange in o.changes ==> o.mode == old(o.mode)
    ensures r.UnknownCrtc? <==> CrtcChange !in o.changes && o.info.crtc != 0 && FindCrtc(crtcs, o.info.crtc).None?
  {
    if CrtcChange !in o.changes {
      o.crtc := if o.info.crtc == 0 then None else FindCrtc(crtcs, o.info.crtc);
      if o.info.crtc != 0 && o.crtc.None? { return UnknownCrtc; }
    }
    if o.crtc.Some? && crtcs[o.crtc.value].xid !in o.info.crtcs { return UnusableCrtc; }
    if ModeChange !in o.changes {
      var id := CurrentModeId(crtcs, o, o.crtc);
      o.mode := if id == 0 then None else FindMode(modes, id);
      if id != 0 && o.mode.None? { return UnknownMode; }
    }
    return Filled;
  }

  /** Position, rotation and transform. */
  method FillRest(crtcs: seq<Crtc>, o: Output)
    requires o.crtc.Some? ==> o.crtc.value < |crtcs|
    modifies o`x, o`y, o`rotation, o`transform
    ensures TakesRest(crtcs, o, old(o.rotation))
    ensures PositionChange in o.changes ==> o.x == old(o.x) && o.y == old(o.y)
    ensures TransformChange in o.changes ==> o.transform == old(o.transform)
    ensures o.rotation == FilledRotation(old(o.rotation), o.changes, Pointee(crtcs, o.crtc))
  {
    if PositionChange !in o.changes {
      o.x := if o.crtc.Some? then crtcs[o.crtc.value].info.x else 0;
      o.y := if o.crtc.Some? then crtcs[o.crtc.value].info.y else 0;
    }
    o.rotation := FilledRotation(o.rotation, o.changes, Pointee(crtcs, o.crtc));
    if TransformChange !in o.changes {
      o.transform := if o.crtc.Some? then crtcs[o.crtc.value].currentTransform else Identity();
    }
  }

  /** `set_output_info` for an output whose requested values have been resolved: everything that was
      not asked for is taken from the server. */
  method SetOutputInfo(modes: seq<Mode>, crtcs: seq<Crtc>, o: Output) returns (r: Filled)
    requires o.crtc.Some? ==> o.crtc.value < |crtcs|
    modifies o
    ensures o.changes == old(o.changes)
    ensures r.Filled? ==> AsLoaded(modes, crtcs, o) && PlacedFrom(modes, crtcs, o, old(o.crtc))
    ensures ModeChange in o.changes ==> o.mode == old(o.mode)
    ensures PositionChange in o.changes ==> o.x == old(o.x) && o.y == old(o.y)
    ensures TransformChange in o.changes ==> o.transform == old(o.transform)
    ensures r.Filled? ==> o.rotation == FilledRotation(old(o.rotation), o.changes, Pointee(crtcs, o.crtc))
    ensures r.Filled? ==> TakesRest(crtcs, o, old(o.rotation))
    ensures r.UnknownCrtc? <==> CrtcChange !in o.changes && o.info.crtc != 0 && FindCrtc(crtcs, o.info.crtc).None?
  {
    r := FillCrtcAndMode(modes, crtcs, o);
    if !r.Filled? { return; }
    FillRest(crtcs, o);
  }

  /** The loop of `get_outputs` over the outputs. */
  method LoadOutputs(modes: seq<Mode>, crtcs: seq<Crtc>, outs: seq<Output>) returns (r: Filled)
    requires Distinct(outs)
    requires forall k :: 0 <= k < |outs| && outs[k].crtc.Some? ==> outs[k].crtc.value < |crtcs|
    modifies outs
    ensures r.Filled? ==> forall k :: 0 <= k < |outs| ==>
      && outs[k].changes == old(outs[k].changes)
      && AsLoaded(modes, crtcs, outs[k]) && PlacedFrom(modes, crtcs, outs[k], old(outs[k].crtc))
      && (ModeChange in outs[k].changes ==> outs[k].mode == old(outs[k].mode))
  {
    for n := 0 to |outs|
      invariant forall k :: 0 <= k < n ==>
        && outs[k].changes == old(outs[k].changes)
        && AsLoaded(modes, crtcs, outs[k]) && PlacedFrom(modes, crtcs, outs[k], old(outs[k].crtc))
        && (ModeChange in outs[k].changes ==> outs[k].mode == old(outs[k].mode))
      invariant forall k :: n <= k < |outs| ==> unchanged(outs[k])
    {
      r := SetOutputInfo(modes, crtcs, outs[n]);
      if !r.Filled? { return; }
    }
    return Filled;
  }

  // ----- Building the plan -----

  /** The outputs with a mode, among the first `n`, that are on CRTC `c`. */
  function OnCrtc(outs: seq<Output>, n: nat, c: nat): (r: seq<Output>)
    requires n <= |outs|
    reads outs`mode, outs`crtc
    ensures forall i :: 0 <= i < |r| ==> r[i] in outs
  {
    if n == 0 then []
    else if outs[n - 1].mode.Some? && outs[n - 1].crtc == Some(c) then OnCrtc(outs, n - 1, c) + [outs[n - 1]]
    else OnCrtc(outs, n - 1, c)
  }

  lemma {:induction false} OnCrtcMembers(outs: seq<Output>, n: nat, c: nat, o: Output)
    requires n <= |outs|
    ensures o in OnCrtc(outs, n, c) <==>
      exists k :: 0 <= k < n && outs[k] == o && o.mode.Some? && o.crtc == Some(c)
  {
    if n > 0 {
      OnCrtcMembers(outs, n - 1, c, o);
    }
  }

  /** The CRTC is planned for these outputs, with the state of the first. */
  ghost predicate PlannedFor(crtc: Crtc, outputs: seq<Output>)
    reads crtc`outputs, crtc`mode, crtc`x, crtc`y, crtc`rotation, crtc`pendingTransform
    reads outputs`mode, outputs`x, outputs`y, outputs`rotation, outputs`transform
  {
    && crtc.outputs == outputs
    && if outputs == [] then crtc.mode == None && crtc.pendingTransform == crtc.currentTransform
       else
         var o := outputs[0];
         && crtc.mode == o.mode && crtc.x == o.x && crtc.y == o.y
         && crtc.rotation == o.rotation && crtc.pendingTransform == o.transform
  }

  method CrtcAddOutput(crtc: Crtc, output: Output)
    modifies crtc`outputs, crtc`mode, crtc`x, crtc`y, crtc`rotation, crtc`pendingTransform
    ensures old(PlannedFor(crtc, crtc.outputs)) ==> PlannedFor(crtc, old(crtc.outputs) + [output])
  {
    if crtc.outputs == [] {
      crtc.x, crtc.y := output.x, output.y;
      crtc.rotation := output.rotation;
      crtc.mode := output.mode;
      crtc.pendingTransform := output.transform;
    }
    crtc.outputs := crtc.outputs + [output];
  }

  /** Every CRTC is planned for those of the first `n` outputs that chose it, in list order. */
  ghost predicate PlannedUpTo(outs: seq<Output>, n: nat, crtcs: seq<Crtc>)
    requires n <= |outs|
    reads outs`mode, outs`crtc, outs`x, outs`y, outs`rotation, outs`transform
    reads crtcs`mode, crtcs`outputs, crtcs`x, crtcs`y, crtcs`rotation, crtcs`pendingTransform
  {
    forall c :: 0 <= c < |crtcs| ==> PlannedFor(crtcs[c], OnCrtc(outs, n, c))
  }

  method AddToCrtc(outs: seq<Output>, k: nat, crtcs: seq<Crtc>)
    requires Distinct(crtcs) && k < |outs| && PlannedUpTo(outs, k, crtcs)
    requires outs[k].mode.Some? ==> outs[k].crtc.Some? && outs[k].crtc.value < |crtcs|
    modifies crtcs`outputs, crtcs`mode, crtcs`x, crtcs`y, crtcs`rotation, crtcs`pendingTransform
    ensures PlannedUpTo(outs, k + 1, crtcs)
  {
    if outs[k].mode.Some? {
      CrtcAddOutput(crtcs[outs[k].crtc.value], outs[k]);
    }
  }

  /** `set_crtcs`: every CRTC gets the outputs that chose it, in list order. */
  method SetCrtcs(outs: seq<Output>, crtcs: seq<Crtc>)
    requires Distinct(crtcs)
    requires forall k :: 0 <= k < |outs| && outs[k].mode.Some? ==> outs[k].crtc.Some? && outs[k].crtc.value < |crtcs|
    requires forall c :: 0 <= c < |crtcs| ==> PlannedFor(crtcs[c], [])
    modifies crtcs`outputs, crtcs`mode, crtcs`x, crtcs`y, crtcs`rotation, crtcs`pendingTransform
    ensures PlannedUpTo(outs, |outs|, crtcs)
  {
    for k := 0 to |outs|
      invariant PlannedUpTo(outs, k, crtcs)
    {
      AddToCrtc(outs, k, crtcs);
    }
  }

  ghost predicate OldTouched(outs: seq<Output>, ids: seq<Xid>)
    reads outs`changes
  {
    exists i :: 0 <= i < |ids| && var k := FindOutput(outs, ids[i]); k.Some? && outs[k.value].changes != {}
  }

  ghost predicate NewTouched(outputs: seq<Output>)
    reads outputs`changes
  {
    exists i :: 0 <= i < |outputs| && outputs[i].changes != {}
  }

  /** Some output the server has on the CRTC, or the plan puts on it, is marked. */
  ghost predicate Touched(outs: seq<Output>, crtc: Crtc)
    reads outs`changes, crtc`outputs, crtc.outputs`changes
  {
    OldTouched(outs, crtc.info.outputs) || NewTouched(crtc.outputs)
  }

  /** `mark_changing_crtcs`; false is the fatal exit on an id that is not an output. */
  method MarkChangingCrtcs(outs: seq<Output>, crtcs: seq<Crtc>) returns (ok: bool)
    requires Distinct(crtcs)
    modifies crtcs`changing
    ensures ok <==> forall c, id :: 0 <= c < |crtcs| && id in crtcs[c].info.outputs ==> FindOutput(outs, id).Some?
    ensures ok ==> forall c :: 0 <= c < |crtcs| ==>
      (crtcs[c].changing <==> old(crtcs[c].changing) || Touched(outs, crtcs[c]))
  {
    for c := 0 to |crtcs|
      invariant forall d, id :: 0 <= d < c && id in crtcs[d].info.outputs ==> FindOutput(outs, id).Some?
      invariant forall d :: 0 <= d < c ==> (crtcs[d].changing <==> old(crtcs[d].changing) || Touched(outs, crtcs[d]))
      invariant forall d :: c <= d < |crtcs| ==> crtcs[d].changing == old(crtcs[d].changing)
    {
      var crtc := crtcs[c];
      ok := MarkOne(outs, crtc);
      if !ok { return; }
    }
    return true;
  }

  method MarkOne(outs: seq<Output>, crtc: Crtc) returns (ok: bool)
    modifies crtc`changing
    ensures ok <==> forall id :: id in crtc.info.outputs ==> FindOutput(outs, id).Some?
    ensures ok ==> (crtc.changing <==> old(crtc.changing) || Touched(outs, crtc))
  {
    var ids := crtc.info.outputs;
    for i := 0 to |ids|
      invariant forall j :: 0 <= j < i ==> FindOutput(outs, ids[j]).Some?
      invariant crtc.changing <==> old(crtc.changing) || OldTouched(outs, ids[..i])
    {
      var k := FindOutput(outs, ids[i]);
      if k.None? {
        assert ids[i] in crtc.info.outputs;
        return false;
      }
      assert ids[..i + 1] == ids[..i] + [ids[i]];
      if outs[k.value].changes != {} { crtc.changing := true; }
    }
    assert ids[..|ids|] == ids;
    for i := 0 to |crtc.outputs|
      invariant crtc.changing <==> old(crtc.changing) || OldTouched(outs, ids) || NewTouched(crtc.outputs[..i])
    {
      assert crtc.outputs[..i + 1] == crtc.outputs[..i] + [crtc.outputs[i]];
      if crtc.outputs[i].changes != {} { crtc.changing := true; }
    }
    assert crtc.outputs[..|crtc.outputs|] == crtc.outputs;
    return true;
  }

  /** A CRTC that is not touched but still given a mode has on the server already the mode, position,
      rotation, transform and outputs it is planned to have. */
  lemma {:induction false} UntouchedIsAsPlanned(outs: seq<Output>, crtcs: seq<Crtc>, modes: seq<Mode>,
                                               known: map<Xid, Mode>, c: nat)
    requires ConsistentServer(outs, crtcs) && c < |crtcs|
    requires forall k :: 0 <= k < |outs| ==> AsLoaded(modes, crtcs, outs[k])
    requires forall m :: m in modes ==> m.id in known && known[m.id] == m
    requires PlannedFor(crtcs[c], OnCrtc(outs, |outs|, c))
    requires crtcs[c].mode.Some? && !Touched(outs, crtcs[c])
    ensures crtcs[c].info.mode in known && Commit.Reported(known, crtcs[c]) == Commit.Planned(crtcs[c])
  {
    var crtc := crtcs[c];
    var planned := OnCrtc(outs, |outs|, c);
    forall o | o in planned
      ensures o.changes == {} && o.xid in crtc.info.outputs && o.mode == FindMode(modes, crtc.info.mode)
      ensures o.x == crtc.info.x && o.y == crtc.info.y && o.rotation == crtc.info.rotation
      ensures o.transform == crtc.currentTransform && crtc.info.mode != 0
    {
      var i :| 0 <= i < |planned| && planned[i] == o;
      assert crtc.outputs[i].changes == {};
      OnCrtcMembers(outs, |outs|, c, o);
    }
    assert planned[0] in planned;
    forall id | id in crtc.info.outputs ensures id in Commit.IdSet(planned) {
      var k := FindOutput(outs, id).value;
      var j :| 0 <= j < |crtc.info.outputs| && crtc.info.outputs[j] == id;
      assert outs[k].changes == {};
      assert outs[k].info.crtc == crtc.xid;
      OnCrtcMembers(outs, |outs|, c, outs[k]);
      var i :| 0 <= i < |planned| && planned[i] == outs[k];
    }
  }
}
