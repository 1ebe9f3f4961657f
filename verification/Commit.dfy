/** Pushing a plan to the server: `crtc_disable`, `crtc_apply`, `crtc_revert`, `screen_apply`,
    `screen_revert`, `revert`, `panic` and `apply`. */
module Commit {
  import opened RandrState
  import opened Geometry
  import opened ScreenSize
  import opened DisplayServer

  /** The configuration the server reported for a CRTC at the start. */
  function Reported(known: map<Xid, Mode>, crtc: Crtc): Config
    requires crtc.info.mode != 0 ==> crtc.info.mode in known
  {
    var i := crtc.info;
    if i.mode == 0 then Off else On(known[i.mode], i.x, i.y, i.rotation, crtc.currentTransform, set id | id in i.outputs)
  }

  function Ids(outs: seq<Output>): (ids: seq<Xid>)
    ensures |ids| == |outs| && forall k :: 0 <= k < |ids| ==> ids[k] == outs[k].xid
  {
    if outs == [] then [] else [outs[0].xid] + Ids(outs[1..])
  }

  function IdSet(outs: seq<Output>): set<Xid> {
    set k | 0 <= k < |outs| :: outs[k].xid
  }

  /** The configuration planned for a CRTC. */
  function Planned(crtc: Crtc): Config
    reads crtc`mode, crtc`x, crtc`y, crtc`rotation, crtc`pendingTransform, crtc`outputs
  {
    match crtc.mode
    case None => Off
    case Some(m) => On(m, crtc.x, crtc.y, crtc.rotation, crtc.pendingTransform, IdSet(crtc.outputs))
  }

  /** The server knows the modes the client knows, and the ids in the client's reports. */
  ghost predicate KnownModes(server: Server, modes: seq<Mode>, crtcs: seq<Crtc>)
    reads crtcs`mode
  {
    && (forall m :: m in modes ==> m.id != 0 && m.id in server.modes && server.modes[m.id] == m)
    && (forall c :: 0 <= c < |crtcs| && crtcs[c].info.mode != 0 ==> crtcs[c].info.mode in server.modes)
    && (forall c :: 0 <= c < |crtcs| && crtcs[c].mode.Some? ==> crtcs[c].mode.value in modes)
  }

  function OriginalTransforms(crtcs: seq<Crtc>): (ts: seq<Transform>)
    ensures |ts| == |crtcs| && forall c :: 0 <= c < |ts| ==> ts[c] == crtcs[c].currentTransform
  {
    if crtcs == [] then [] else [crtcs[0].currentTransform] + OriginalTransforms(crtcs[1..])
  }

  /** The server is as the client found it. */
  ghost predicate Original(server: Server, crtcs: seq<Crtc>, screen: Size)
    reads server`size, server`configs, server`pending
  {
    && server.size == screen && server.pending == OriginalTransforms(crtcs)
    && |server.configs| == |crtcs|
    && forall c :: 0 <= c < |crtcs| ==>
         && (crtcs[c].info.mode != 0 ==> crtcs[c].info.mode in server.modes)
         && server.configs[c] == Reported(server.modes, crtcs[c])
  }

  /** Every CRTC and the screen size are as planned. */
  ghost predicate Realised(server: Server, crtcs: seq<Crtc>, fb: Size)
    reads server`size, server`configs
    reads crtcs`mode, crtcs`x, crtcs`y, crtcs`rotation, crtcs`pendingTransform, crtcs`outputs
  {
    && server.size == fb && |server.configs| == |crtcs|
    && forall c :: 0 <= c < |crtcs| ==> server.configs[c] == Planned(crtcs[c])
  }

  method CrtcDisable(server: Server, c: nat) returns (s: Status)
    requires server.Valid() && c < |server.configs|
    modifies server`configs, server`refusals, server`errors
    ensures server.Valid() && server.errors == old(server.errors) && !s.XError?
    ensures server.refusals == old(server.refusals) + (if s.Refused? then 1 else 0)
    ensures server.configs == if s.Success? then old(server.configs)[c := Off] else old(server.configs)
  {
    s := server.SetCrtcConfig(c, 0, 0, 0, Rotation(ROTATE_0, false, false), []);
  }

  /** What reverting starts from: nothing but the transform of a CRTC whose transform was to change
      has been left pending, and the configuration to go back to was a legal one. */
  ghost predicate Revertible(server: Server, crtcs: seq<Crtc>, screen: Size)
    reads server`size, server`configs, server`pending, crtcs`pendingTransform
  {
    && server.Valid() && |server.configs| == |crtcs|
    && forall c :: 0 <= c < |crtcs| ==>
         && (crtcs[c].info.mode != 0 ==> crtcs[c].info.mode in server.modes)
         && Fits(Reported(server.modes, crtcs[c]), screen)
         && (server.pending[c] == crtcs[c].currentTransform || crtcs[c].pendingTransform != crtcs[c].currentTransform)
  }

  method CrtcRevert(server: Server, crtcs: seq<Crtc>, c: nat, ghost screen: Size) returns (s: Status)
    requires Revertible(server, crtcs, screen) && c < |crtcs| && server.size == screen
    modifies server`configs, server`pending, server`refusals, server`errors
    ensures Revertible(server, crtcs, screen)
    ensures !s.XError? && server.errors == old(server.errors)
    ensures server.refusals == old(server.refusals) + (if s.Refused? then 1 else 0)
    ensures server.pending == old(server.pending)[c := crtcs[c].currentTransform]
    ensures server.configs ==
      if s.Success? then old(server.configs)[c := Reported(server.modes, crtcs[c])] else old(server.configs)
  {
    var crtc := crtcs[c];
    if crtc.currentTransform != crtc.pendingTransform {
      server.SetCrtcTransform(c, crtc.currentTransform);
    }
    assert server.pending == old(server.pending)[c := crtcs[c].currentTransform];
    s := server.SetCrtcConfig(c, crtc.info.x, crtc.info.y, crtc.info.mode, crtc.info.rotation, crtc.info.outputs);
  }

  method DisableAll(server: Server, crtcs: seq<Crtc>, ghost screen: Size) returns (accepted: bool)
    requires Revertible(server, crtcs, screen)
    modifies server`configs, server`refusals, server`errors
    ensures Revertible(server, crtcs, screen) && server.errors == old(server.errors)
    ensures server.refusals >= old(server.refusals)
    ensures accepted <==> server.refusals == old(server.refusals)
    ensures accepted ==> forall c :: 0 <= c < |crtcs| ==> server.configs[c] == Off
  {
    accepted := true;
    for c := 0 to |crtcs|
      invariant Revertible(server, crtcs, screen) && server.errors == old(server.errors)
      invariant server.refusals >= old(server.refusals)
      invariant accepted <==> server.refusals == old(server.refusals)
      invariant accepted ==> forall j :: 0 <= j < c ==> server.configs[j] == Off
    {
      var s := CrtcDisable(server, c);
      accepted := accepted && s.Success?;
    }
  }

  method RestoreAll(server: Server, crtcs: seq<Crtc>, ghost screen: Size) returns (accepted: bool)
    requires Revertible(server, crtcs, screen) && server.size == screen
    modifies server`configs, server`pending, server`refusals, server`errors
    ensures server.Valid() && server.errors == old(server.errors)
    ensures server.refusals >= old(server.refusals)
    ensures accepted <==> server.refusals == old(server.refusals)
    ensures accepted ==> Original(server, crtcs, screen)
  {
    accepted := true;
    for c := 0 to |crtcs|
      invariant Revertible(server, crtcs, screen) && server.errors == old(server.errors)
      invariant server.refusals >= old(server.refusals)
      invariant accepted <==> server.refusals == old(server.refusals)
      invariant forall j :: 0 <= j < c ==> server.pending[j] == crtcs[j].currentTransform
      invariant accepted ==> forall j :: 0 <= j < c ==> server.configs[j] == Reported(server.modes, crtcs[j])
    {
      var s := CrtcRevert(server, crtcs, c, screen);
      accepted := accepted && s.Success?;
    }
  }

  /** `revert`. It reads no reply; `accepted` says whether the server did everything it was asked.
      When it did, the original state is back; and an X error needs a refused disable first. */
  method Revert(server: Server, crtcs: seq<Crtc>, screen: Size) returns (accepted: bool)
    requires Revertible(server, crtcs, screen)
    modifies server`size, server`configs, server`pending, server`refusals, server`errors
    ensures server.Valid()
    ensures accepted ==> Original(server, crtcs, screen)
    ensures accepted ==> server.errors == old(server.errors) && server.refusals == old(server.refusals)
    ensures !accepted ==> server.refusals > old(server.refusals)
  {
    accepted := DisableAll(server, crtcs, screen);
    var s := server.SetScreenSize(screen);
    if s.XError? { return false; }
    var restored := RestoreAll(server, crtcs, screen);
    accepted := accepted && restored;
  }

  /** Whether the CRTC can stay on, as it is, in a screen of the new size. */
  predicate Stays(known: map<Xid, Mode>, crtc: Crtc, fb: Size)
    requires crtc.info.mode != 0 ==> crtc.info.mode in known
    reads crtc`mode
  {
    crtc.info.mode == 0 || (crtc.mode.Some? && Fits(Reported(known, crtc), fb))
  }

  /** The plan fits the new screen. */
  ghost predicate PlanFits(server: Server, modes: seq<Mode>, crtcs: seq<Crtc>, fb: Size)
    reads crtcs`mode, crtcs`x, crtcs`y, crtcs`rotation, crtcs`pendingTransform, crtcs`outputs
  {
    KnownModes(server, modes, crtcs) && forall c :: 0 <= c < |crtcs| ==> Fits(Planned(crtcs[c]), fb)
  }

  /** A CRTC that is not marked as changing is planned as it already is. */
  ghost predicate UnmarkedSame(server: Server, crtcs: seq<Crtc>)
    reads crtcs
  {
    forall c :: 0 <= c < |crtcs| && crtcs[c].mode.Some? && !crtcs[c].changing ==>
      && (crtcs[c].info.mode != 0 ==> crtcs[c].info.mode in server.modes)
      && Reported(server.modes, crtcs[c]) == Planned(crtcs[c])
  }

  datatype Outcome = Applied | Reverted | RevertFailed

  /** The state after the first loop of `apply`: exactly the CRTCs that can stay are on. */
  ghost predicate Halfway(server: Server, crtcs: seq<Crtc>, fb: Size)
    reads server`size, server`configs, server`pending, crtcs
  {
    && server.Valid() && |server.configs| == |crtcs|
    && (forall j :: 0 <= j < |crtcs| && crtcs[j].info.mode != 0 ==> crtcs[j].info.mode in server.modes)
    && (forall j :: 0 <= j < |crtcs| ==>
          && server.pending[j] == crtcs[j].currentTransform
          && Sifted(server.modes, crtcs[j], fb, server.configs[j]))
  }

  /** The state in the last loop of `apply`, which started from the configurations `from`: the CRTCs
      before `c` that are planned for are as planned. */
  ghost predicate Midway(server: Server, crtcs: seq<Crtc>, from: seq<Config>, c: nat)
    requires c <= |crtcs|
    reads server`size, server`configs, server`pending, crtcs
  {
    && server.Valid() && |server.configs| == |from| == |crtcs|
    && (forall j :: 0 <= j < c ==> server.configs[j] == if crtcs[j].mode.Some? then Planned(crtcs[j]) else from[j])
    && (forall j :: c <= j < |crtcs| ==>
          server.pending[j] == crtcs[j].currentTransform && server.configs[j] == from[j])
    && (forall j :: 0 <= j < |crtcs| && crtcs[j].mode.Some? && !crtcs[j].changing ==> from[j] == Planned(crtcs[j]))
  }

  datatype Verdict = Keep | TurnOff | ModeUnknown

  /** The test in the first loop of `apply`: what to do with a CRTC that is on. */
  method Inspect(known: map<Xid, Mode>, modes: seq<Mode>, crtc: Crtc, fb: Size) returns (v: Verdict)
    requires crtc.info.mode != 0 && crtc.info.mode in known
    requires forall m :: m in modes ==> m.id in known && known[m.id] == m
    ensures v.ModeUnknown? <==> crtc.mode.Some? && FindMode(modes, crtc.info.mode).None?
    ensures !v.ModeUnknown? ==> (v.Keep? <==> Stays(known, crtc, fb))
  {
    if crtc.mode.None? { return TurnOff; }
    var oldMode := FindMode(modes, crtc.info.mode);
    if oldMode.None? { return ModeUnknown; }
    var bounds := ModeGeometry(oldMode.value, crtc.info.rotation, crtc.currentTransform);
    var x, y := crtc.info.x + bounds.x1, crtc.info.y + bounds.y1;
    var w, h := bounds.x2 - bounds.x1, bounds.y2 - bounds.y1;
    return if x + w <= fb.w && y + h <= fb.h then Keep else TurnOff;
  }

  /** Where the first loop of `apply` leaves a CRTC. */
  ghost predicate Sifted(known: map<Xid, Mode>, crtc: Crtc, fb: Size, now: Config)
    requires crtc.info.mode != 0 ==> crtc.info.mode in known
    reads crtc`mode, crtc`changing
  {
    if Stays(known, crtc, fb) then now == Reported(known, crtc)
    else now == Off && (crtc.mode.Some? ==> crtc.changing)
  }

  /** The CRTCs marked in `kept` are as reported, the others off. */
  ghost predicate Left(server: Server, crtcs: seq<Crtc>, kept: seq<bool>)
    reads server`configs
  {
    && |kept| == |crtcs| == |server.configs|
    && forall c :: 0 <= c < |crtcs| ==>
         && (crtcs[c].info.mode != 0 ==> crtcs[c].info.mode in server.modes)
         && server.configs[c] == if kept[c] then Reported(server.modes, crtcs[c]) else Off
  }

  /** One turn of the first loop of `apply`. */
  method SiftOne(server: Server, modes: seq<Mode>, crtcs: seq<Crtc>, c: nat, fb: Size) returns (ok: bool)
    requires server.Valid() && c < |crtcs| == |server.configs| && KnownModes(server, modes, crtcs)
    requires server.configs[c] == Reported(server.modes, crtcs[c])
    modifies server`configs, server`refusals, server`errors, {crtcs[c]}`changing
    ensures server.Valid() && server.errors == old(server.errors)
    ensures crtcs[c].mode == old(crtcs[c].mode) && (old(crtcs[c].changing) ==> crtcs[c].changing)
    ensures ok ==> server.refusals == old(server.refusals)
    ensures !ok ==> server.refusals > old(server.refusals) ||
                    (server.refusals == old(server.refusals) && !OldModesKnown(modes, crtcs))
    ensures |server.configs| == |crtcs| && server.configs == old(server.configs)[c := server.configs[c]]
    ensures ok ==> Sifted(server.modes, crtcs[c], fb, server.configs[c])
  {
    var crtc := crtcs[c];
    if crtc.info.mode == 0 { return true; }
    var v := Inspect(server.modes, modes, crtc, fb);
    if v.ModeUnknown? { return false; }
    if v.Keep? { return true; }
    if crtc.mode.Some? { crtc.changing := true; }
    var s := CrtcDisable(server, c);
    return s.Success?;
  }

  /** The first loop of `apply`: turn off the CRTCs that are to go off or do not fit the new screen.
      It fails when a request is refused or the client does not know a mode. */
  method SiftAll(server: Server, modes: seq<Mode>, crtcs: seq<Crtc>, screen: Size, fb: Size) returns (ok: bool)
    requires Distinct(crtcs) && server.Valid() && Original(server, crtcs, screen) && KnownModes(server, modes, crtcs)
    modifies server`configs, server`refusals, server`errors, crtcs`changing
    ensures server.Valid() && |server.configs| == |crtcs| && server.errors == old(server.errors)
    ensures forall j :: 0 <= j < |crtcs| && old(crtcs[j].changing) ==> crtcs[j].changing
    ensures ok ==> server.refusals == old(server.refusals)
    ensures ok ==> forall j :: 0 <= j < |crtcs| ==> Sifted(server.modes, crtcs[j], fb, server.configs[j])
    ensures !ok ==> server.refusals > old(server.refusals) ||
                    (server.refusals == old(server.refusals) && !OldModesKnown(modes, crtcs))
  {
    for c := 0 to |crtcs|
      invariant server.Valid() && |server.configs| == |crtcs| && server.errors == old(server.errors)
      invariant server.refusals == old(server.refusals)
      invariant forall j :: 0 <= j < |crtcs| && old(crtcs[j].changing) ==> crtcs[j].changing
      invariant forall j :: c <= j < |crtcs| ==> server.configs[j] == Reported(server.modes, crtcs[j])
      invariant forall j :: 0 <= j < c ==> Sifted(server.modes, crtcs[j], fb, server.configs[j])
    {
      ok := SiftOne(server, modes, crtcs, c, fb);
      if !ok { return; }
    }
    ok := true;
  }

  /** After that loop nothing is on that does not fit the new screen, and what was true of the marks
      still is. */
  method DisableStale(server: Server, modes: seq<Mode>, crtcs: seq<Crtc>, screen: Size, fb: Size) returns (ok: bool)
    requires Distinct(crtcs) && server.Valid() && Original(server, crtcs, screen) && KnownModes(server, modes, crtcs)
    requires UnmarkedSame(server, crtcs)
    modifies server`configs, server`refusals, server`errors, crtcs`changing
    ensures server.Valid() && server.errors == old(server.errors)
    ensures UnmarkedSame(server, crtcs)
    ensures old(Revertible(server, crtcs, screen)) ==> Revertible(server, crtcs, screen)
    ensures ok ==> server.refusals == old(server.refusals) && Halfway(server, crtcs, fb)
    ensures !ok ==> server.refusals > old(server.refusals) ||
                    (server.refusals == old(server.refusals) && !OldModesKnown(modes, crtcs))
  {
    ok := SiftAll(server, modes, crtcs, screen, fb);
  }

  /** The client was told about the mode of every CRTC that is on and is to stay on. */
  ghost predicate OldModesKnown(modes: seq<Mode>, crtcs: seq<Crtc>)
    reads crtcs`mode
  {
    forall c :: 0 <= c < |crtcs| && crtcs[c].info.mode != 0 && crtcs[c].mode.Some? ==>
      FindMode(modes, crtcs[c].info.mode).Some?
  }

  method CrtcApply(server: Server, modes: seq<Mode>, crtcs: seq<Crtc>, c: nat, fb: Size, ghost from: seq<Config>)
    returns (s: Status)
    requires c < |crtcs| && Midway(server, crtcs, from, c) && server.size == fb
    requires PlanFits(server, modes, crtcs, fb)
    modifies server`configs, server`pending, server`refusals, server`errors
    ensures !s.XError? && server.errors == old(server.errors)
    ensures server.refusals == old(server.refusals) + (if s.Refused? then 1 else 0)
    ensures s.Success? ==> Midway(server, crtcs, from, c + 1)
    ensures server.Valid() && |server.configs| == |crtcs|
    ensures forall j :: 0 <= j < |crtcs| && j != c ==> server.pending[j] == old(server.pending)[j]
    ensures server.pending[c] == crtcs[c].currentTransform || crtcs[c].pendingTransform != crtcs[c].currentTransform
  {
    var crtc := crtcs[c];
    if !crtc.changing || crtc.mode.None? { return Success; }
    var outputs := Ids(crtc.outputs);
    assert (set id | id in outputs) == IdSet(crtc.outputs);
    if crtc.currentTransform != crtc.pendingTransform {
      server.SetCrtcTransform(c, crtc.pendingTransform);
    }
    s := server.SetCrtcConfig(c, crtc.x, crtc.y, crtc.mode.value.id, crtc.rotation, outputs);
  }

  /** `screen_apply`: nothing to ask for when the size is the one in force. */
  method ScreenApply(server: Server, screen: Size, fb: Size) returns (s: Status)
    requires server.Valid() && server.size == screen && AllFit(server.configs, fb)
    modifies server`size, server`errors
    ensures server.Valid() && s.Success? && server.size == fb && server.errors == old(server.errors)
  {
    if fb == screen { return Success; }
    s := server.SetScreenSize(fb);
  }

  /** The last loop of `apply`. */
  method ApplyAll(server: Server, modes: seq<Mode>, crtcs: seq<Crtc>, screen: Size, fb: Size, ghost from: seq<Config>)
    returns (ok: bool)
    requires Midway(server, crtcs, from, 0) && server.size == fb && PlanFits(server, modes, crtcs, fb)
    requires forall c :: 0 <= c < |crtcs| && crtcs[c].info.mode != 0 ==>
      crtcs[c].info.mode in server.modes && Fits(Reported(server.modes, crtcs[c]), screen)
    modifies server`configs, server`pending, server`refusals, server`errors
    ensures server.Valid() && server.errors == old(server.errors)
    ensures ok ==> server.refusals == old(server.refusals) && Midway(server, crtcs, from, |crtcs|)
    ensures !ok ==> server.refusals > old(server.refusals) && Revertible(server, crtcs, screen)
  {
    for c := 0 to |crtcs|
      invariant Midway(server, crtcs, from, c)
      invariant forall j :: 0 <= j < c ==>
        server.pending[j] == crtcs[j].currentTransform || crtcs[j].pendingTransform != crtcs[j].currentTransform
      invariant server.errors == old(server.errors) && server.refusals == old(server.refusals)
    {
      var s := CrtcApply(server, modes, crtcs, c, fb, from);
      if !s.Success? { return false; }
    }
    return true;
  }

  /** The steps of `apply` up to the first failure. They never raise an X error: every request they
      make fits the screen in force. */
  method Forward(server: Server, modes: seq<Mode>, crtcs: seq<Crtc>, screen: Size, fb: Size) returns (ok: bool)
    requires Distinct(crtcs) && server.Valid() && Original(server, crtcs, screen)
    requires PlanFits(server, modes, crtcs, fb) && UnmarkedSame(server, crtcs)
    modifies server`size, server`configs, server`pending, server`refusals, server`errors
    modifies crtcs`changing
    ensures server.Valid() && server.errors == old(server.errors)
    ensures ok ==> Realised(server, crtcs, fb) && server.refusals == old(server.refusals)
    ensures !ok ==> Revertible(server, crtcs, screen)
    ensures !ok ==> server.refusals > old(server.refusals) ||
                    (server.refusals == old(server.refusals) && !OldModesKnown(modes, crtcs))
  {
    assert Revertible(server, crtcs, screen);
    ok := DisableStale(server, modes, crtcs, screen, fb);
    if !ok { return; }
    ok := Enable(server, modes, crtcs, screen, fb);
  }

  /** Resize the screen, which now holds every CRTC that is still on, and set the CRTCs. */
  method Enable(server: Server, modes: seq<Mode>, crtcs: seq<Crtc>, screen: Size, fb: Size) returns (ok: bool)
    requires Halfway(server, crtcs, fb) && server.size == screen
    requires PlanFits(server, modes, crtcs, fb) && UnmarkedSame(server, crtcs)
    requires forall c :: 0 <= c < |crtcs| && crtcs[c].info.mode != 0 ==> Fits(Reported(server.modes, crtcs[c]), screen)
    modifies server`size, server`configs, server`pending, server`refusals, server`errors
    ensures server.Valid() && server.errors == old(server.errors)
    ensures ok ==> server.refusals == old(server.refusals) && Realised(server, crtcs, fb)
    ensures !ok ==> server.refusals > old(server.refusals) && Revertible(server, crtcs, screen)
  {
    ghost var from := server.configs;
    var _ := ScreenApply(server, screen, fb);
    ok := ApplyAll(server, modes, crtcs, screen, fb, from);
  }

  /** What the server has, as values. */
  datatype Known = Known(configs: seq<Config>, pending: seq<Transform>, size: Size)

  ghost predicate IsOriginal(modes: map<Xid, Mode>, crtcs: seq<Crtc>, screen: Size, k: Known) {
    && k.size == screen && k.pending == OriginalTransforms(crtcs) && |k.configs| == |crtcs|
    && forall c :: 0 <= c < |crtcs| ==>
         (crtcs[c].info.mode != 0 ==> crtcs[c].info.mode in modes) && k.configs[c] == Reported(modes, crtcs[c])
  }

  /** There is one original state. */
  lemma OneOriginal(modes: map<Xid, Mode>, crtcs: seq<Crtc>, screen: Size, k: Known, l: Known)
    requires IsOriginal(modes, crtcs, screen, k) && IsOriginal(modes, crtcs, screen, l)
    ensures k.configs == l.configs && k.pending == l.pending && k.size == l.size
  {
  }

  /** `apply`, with `panic` where a step fails. Applied means that the server now has the plan, and
      that nothing was refused; Reverted that it has what it had before. The steps forward never
      raise an X error: every request they make fits the screen in force. */
  method Apply(server: Server, modes: seq<Mode>, crtcs: seq<Crtc>, screen: Size, fb: Size) returns (r: Outcome)
    requires Distinct(crtcs) && server.Valid() && Original(server, crtcs, screen)
    requires PlanFits(server, modes, crtcs, fb) && UnmarkedSame(server, crtcs)
    modifies server`size, server`configs, server`pending, server`refusals, server`errors
    modifies crtcs`changing
    ensures server.Valid()
    ensures r.Applied? ==> Realised(server, crtcs, fb) && server.refusals == old(server.refusals)
    ensures r.Reverted? ==> Original(server, crtcs, screen)
    ensures r.Reverted? ==>
      server.configs == old(server.configs) && server.pending == old(server.pending) && server.size == old(server.size)
    ensures r.Applied? || server.refusals > old(server.refusals) || !OldModesKnown(modes, crtcs)
    ensures !r.RevertFailed? ==> server.errors == old(server.errors)
    ensures r.RevertFailed? ==> server.refusals > old(server.refusals)
  {
    ghost var known := Known(server.configs, server.pending, server.size);
    assert IsOriginal(server.modes, crtcs, screen, known);
    var ok := Forward(server, modes, crtcs, screen, fb);
    if ok { return Applied; }
    var accepted := Revert(server, crtcs, screen);
    if accepted { OneOriginal(server.modes, crtcs, screen, known, Known(server.configs, server.pending, server.size)); }
    return if accepted then Reverted else RevertFailed;
  }

  // ----- What the first loop turns off is exactly enough -----

  /** All that are kept can stay. */
  ghost predicate AllStay(server: Server, crtcs: seq<Crtc>, fb: Size, kept: seq<bool>)
    requires |kept| == |crtcs|
    requires forall c :: 0 <= c < |crtcs| && crtcs[c].info.mode != 0 ==> crtcs[c].info.mode in server.modes
    reads crtcs`mode
  {
    forall c :: 0 <= c < |crtcs| && kept[c] ==> Stays(server.modes, crtcs[c], fb)
  }

  lemma {:induction false} DisablesAreExact(server: Server, crtcs: seq<Crtc>, fb: Size, kept: seq<bool>)
    requires Left(server, crtcs, kept)
    ensures AllFit(server.configs, fb) && (forall c :: 0 <= c < |crtcs| && crtcs[c].mode.None? ==> server.configs[c] == Off)
      <==> AllStay(server, crtcs, fb, kept)
  {
  }

  /** The later steps, with the CRTCs in `kept` left on: unless a request is refused, they end without an
      error in the plan if and only if all that were kept can stay. */
  method EnableKeeping(server: Server, modes: seq<Mode>, crtcs: seq<Crtc>, screen: Size, fb: Size, ghost kept: seq<bool>)
    returns (ok: bool)
    requires server.Valid() && Left(server, crtcs, kept) && server.size == screen
    requires forall c :: 0 <= c < |crtcs| ==> server.pending[c] == crtcs[c].currentTransform
    requires forall c :: 0 <= c < |crtcs| && crtcs[c].info.mode != 0 ==> Fits(Reported(server.modes, crtcs[c]), screen)
    requires forall c :: 0 <= c < |crtcs| && crtcs[c].mode.Some? && !crtcs[c].changing ==>
      server.configs[c] == Planned(crtcs[c])
    requires PlanFits(server, modes, crtcs, fb)
    modifies server`size, server`configs, server`pending, server`refusals, server`errors
    ensures ok ==> server.errors == old(server.errors) && server.refusals == old(server.refusals)
    ensures ok ==> (Realised(server, crtcs, fb) <==> AllStay(server, crtcs, fb, kept))
    ensures !ok ==> server.refusals > old(server.refusals) || server.errors > old(server.errors)
    ensures server.errors > old(server.errors) ==> !AllStay(server, crtcs, fb, kept)
  {
    ghost var from := server.configs;
    DisablesAreExact(server, crtcs, fb, kept);
    if fb != screen {
      var s := server.SetScreenSize(fb);
      if s.XError? { return false; }
    }
    ok := ApplyAll(server, modes, crtcs, screen, fb, from);
  }
}
