/** The whole of a configuration run, from the outputs as loaded to the server: what `main` does
    once the command line and the server's state have been read. */
module Configure {
  import opened RandrState
  import opened Geometry
  import opened ScreenSize
  import opened DisplayServer
  import opened Commit
  import opened Marking
  import Placement
  import Positions
  import Settling
  import PickCrtcs

  ghost function NodesOf(outs: seq<Output>): (ns: seq<Placement.Node>)
    reads outs
    ensures Positions.Nodes(outs, ns)
  {
    seq(|outs|, k requires 0 <= k < |outs| reads outs => Positions.NodeOf(outs, outs[k]))
  }

  ghost function SpotsOf(outs: seq<Output>): (s: seq<Placement.Spot>)
    reads outs
    ensures Positions.At(outs, s)
  {
    seq(|outs|, k requires 0 <= k < |outs| reads outs => Positions.SpotOf(outs[k]))
  }

  /** The outputs and CRTCs as loaded from a server whose lists agree. */
  ghost predicate Loaded(modes: seq<Mode>, outs: seq<Output>, crtcs: seq<Crtc>)
    reads outs, crtcs
  {
    WellLoaded(modes, outs, crtcs) && forall k :: 0 <= k < |outs| ==> AsLoaded(modes, crtcs, outs[k])
  }

  /** CRTCs and modes are the server's, and nothing is planned. */
  ghost predicate WellLoaded(modes: seq<Mode>, outs: seq<Output>, crtcs: seq<Crtc>)
    reads outs`crtc, outs`mode, crtcs
  {
    && ConsistentServer(outs, crtcs)
    && (forall k :: 0 <= k < |outs| && outs[k].crtc.Some? ==> outs[k].crtc.value < |crtcs|)
    && (forall k :: 0 <= k < |outs| && outs[k].mode.Some? ==> outs[k].mode.value in modes)
    && (forall c :: 0 <= c < |crtcs| ==> PlannedFor(crtcs[c], []) && !crtcs[c].changing)
  }

  /** Loading the outputs of a server whose lists agree: what was asked for is of the kinds the server
      has, and the CRTCs are as they were built. */
  method Load(modes: seq<Mode>, outs: seq<Output>, crtcs: seq<Crtc>) returns (r: Filled)
    requires ConsistentServer(outs, crtcs)
    requires forall k :: 0 <= k < |outs| && outs[k].crtc.Some? ==> outs[k].crtc.value < |crtcs|
    requires forall k :: 0 <= k < |outs| && ModeChange in outs[k].changes && outs[k].mode.Some? ==> outs[k].mode.value in modes
    requires forall c :: 0 <= c < |crtcs| ==> PlannedFor(crtcs[c], []) && !crtcs[c].changing
    modifies outs
    ensures r.Filled? ==> Loaded(modes, outs, crtcs)
    ensures r.Filled? ==> forall k :: 0 <= k < |outs| ==> outs[k].changes == old(outs[k].changes)
  {
    r := LoadOutputs(modes, crtcs, outs);
    if r.Filled? {
      forall k | 0 <= k < |outs| && outs[k].mode.Some? ensures outs[k].mode.value in modes {
        assert PlacedFrom(modes, crtcs, outs[k], old(outs[k].crtc));
      }
    }
  }

  /** Endless is that placement goes on for ever. */
  datatype Layout = LaidOut(fb: Size, warned: bool) | BadRelation | RelationLoop | Endless | BadSize

  /** The rectangle of an output shown without a transform lies between 0,0 and `size`. */
  ghost predicate RectInside(o: Output, size: Size)
    reads o`mode, o`rotation, o`x, o`y
  {
    o.mode.Some? ==>
      && 0 <= o.x && 0 <= o.y
      && o.x + ModeWidth(o.mode.value, o.rotation) <= size.w
      && o.y + ModeHeight(o.mode.value, o.rotation) <= size.h
  }

  /** All outputs lie in the screen, and no smaller screen of the allowed sizes would do. */
  ghost predicate TightLayout(outs: seq<Output>, fb: Size, request: Size, min: Size)
    reads outs`mode, outs`rotation, outs`x, outs`y
  {
    forall other :: Inside(fb, other) <==>
      Inside(request, other) && Inside(min, other) && forall k :: 0 <= k < |outs| ==> RectInside(outs[k], other)
  }

  lemma TightWithoutTransforms(outs: seq<Output>, fb: Size, request: Size, min: Size)
    requires forall k :: 0 <= k < |outs| && outs[k].mode.Some? ==>
      IsIdentity(outs[k].transform) && outs[k].x >= 0 && outs[k].y >= 0
    requires forall other :: Inside(fb, other) <==>
      Inside(request, other) && Inside(min, other) && AllInside(outs, other)
    ensures TightLayout(outs, fb, request, min)
  {
    forall other: Size
      ensures AllInside(outs, other) <==> forall k :: 0 <= k < |outs| ==> RectInside(outs[k], other)
    {
      forall k | 0 <= k < |outs| && outs[k].mode.Some?
        ensures RectInside(outs[k], other) <==> Inside(OutputEdge(outs[k]), other)
      {
        IdentityBox(outs[k].mode.value, outs[k].rotation, outs[k].transform);
      }
    }
  }

  /** The outputs with a mode are where `placed` says, moved alike to coordinates that are not negative;
      one is at the left edge exactly when one was placed at 32768 or less, and so for the top. */
  ghost predicate Touching(outs: seq<Output>, placed: seq<Placement.Spot>)
    requires |placed| == |outs|
    reads outs`mode, outs`x, outs`y
  {
    && (forall k :: 0 <= k < |outs| && outs[k].mode.Some? ==> outs[k].x >= 0 && outs[k].y >= 0)
    && (forall j, k :: 0 <= j < |outs| && 0 <= k < |outs| && outs[j].mode.Some? && outs[k].mode.Some? ==>
          outs[j].x - outs[k].x == placed[j].x - placed[k].x && outs[j].y - outs[k].y == placed[j].y - placed[k].y)
    && ((exists k :: 0 <= k < |outs| && outs[k].mode.Some? && outs[k].x == 0) <==>
        (exists k :: 0 <= k < |outs| && outs[k].mode.Some? && placed[k].x <= 32768))
    && ((exists k :: 0 <= k < |outs| && outs[k].mode.Some? && outs[k].y == 0) <==>
        (exists k :: 0 <= k < |outs| && outs[k].mode.Some? && placed[k].y <= 32768))
  }

  lemma {:induction false} NormalisedTouch(outs: seq<Output>, ns: seq<Placement.Node>, s: seq<Placement.Spot>)
    requires Positions.Nodes(outs, ns) && |s| == |ns| && Positions.At(outs, Placement.Normalised(ns, s))
    ensures Touching(outs, s)
  {
    var r := Placement.Normalised(ns, s);
    Placement.NormalisedIsAShift(ns, s);
    assert forall k :: 0 <= k < |outs| ==>
      ns[k].lit == outs[k].mode.Some? && r[k].x == outs[k].x && r[k].y == outs[k].y;
  }

  /** Positions; `placed` are those before normalisation. */
  method PlaceOutputs(outs: seq<Output>, ghost ns: seq<Placement.Node>, ghost s: seq<Placement.Spot>)
    returns (r: Settling.Placing, ghost placed: seq<Placement.Spot>)
    requires Distinct(outs) && Positions.Nodes(outs, ns) && Positions.At(outs, s)
    modifies outs`x, outs`y, outs`changes
    ensures Positions.OnlyPositionMarks(outs) && Positions.Nodes(outs, ns)
    ensures r == Settling.LoopSays(ns, s)
    ensures r.Placed? ==>
      && Placement.OnlyActive(ns, s, placed)
      && (Placement.Fresh(ns, s) ==> Settling.RelationsKept(ns, Placement.Normalised(ns, placed)))
      && Positions.At(outs, Placement.Normalised(ns, placed))
      && Placement.Grows(s, Placement.Normalised(ns, placed))
  {
    ghost var passes;
    r, passes := Positions.SetPositions(outs, ns, s);
    placed := [];
    if r.Placed? {
      placed := Placement.After(ns, s, passes);
      Placement.AfterGrows(ns, s, passes);
    }
  }

  lemma {:induction false} NormalisedInside(outs: seq<Output>, ns: seq<Placement.Node>, s: seq<Placement.Spot>)
    requires Positions.Nodes(outs, ns) && |s| == |ns| && Positions.At(outs, Placement.Normalised(ns, s))
    ensures forall k :: 0 <= k < |outs| && outs[k].mode.Some? ==> outs[k].x >= 0 && outs[k].y >= 0
  {
    Placement.NormalisedIsAShift(ns, s);
    forall k | 0 <= k < |outs| && outs[k].mode.Some? ensures outs[k].x >= 0 && outs[k].y >= 0 {
      assert ns[k].lit && Placement.Normalised(ns, s)[k] == Positions.SpotOf(outs[k]);
    }
  }

  /** The screen is within the limits and holds all outputs, unless a requested size led to the warning. */
  ghost predicate WellSized(outs: seq<Output>, fb: Size, warned: bool, request: Size, min: Size, max: Size)
    reads outs`mode, outs`rotation, outs`transform, outs`x, outs`y
  {
    && Inside(min, fb) && Inside(fb, max) && (!warned ==> AllInside(outs, fb))
    && (warned ==> request.w != 0 && request.h != 0)
  }

  /** Positions and screen size. The outputs without a relation are placed where they were. */
  method LayOut(outs: seq<Output>, request: Size, min: Size, max: Size,
                ghost ns: seq<Placement.Node>, ghost s: seq<Placement.Spot>)
    returns (r: Layout, ghost placed: seq<Placement.Spot>)
    requires Distinct(outs) && Positions.Nodes(outs, ns) && Positions.At(outs, s)
    requires Inside(min, max)
    modifies outs`x, outs`y, outs`changes
    ensures Positions.OnlyPositionMarks(outs) && Positions.Nodes(outs, ns)
    ensures r.BadRelation? <==> Settling.LoopSays(ns, s).NoSuchOutput?
    ensures r.RelationLoop? <==> Settling.LoopSays(ns, s).Loop?
    ensures r.Endless? <==> Settling.LoopSays(ns, s).StillGoing?
    ensures r.LaidOut? ==>
      && Placement.OnlyActive(ns, s, placed)
      && (Placement.Fresh(ns, s) ==> Settling.RelationsKept(ns, Placement.Normalised(ns, placed)))
      && Positions.At(outs, Placement.Normalised(ns, placed))
      && Placement.Grows(s, Placement.Normalised(ns, placed))
    ensures r.LaidOut? ==> WellSized(outs, r.fb, r.warned, request, min, max)
    ensures r.LaidOut? && (request.w == 0 || request.h == 0) && (forall k :: 0 <= k < |outs| ==> IsIdentity(outs[k].transform))
            ==> TightLayout(outs, r.fb, request, min)
  {
    var placing;
    placing, placed := PlaceOutputs(outs, ns, s);
    if placing.NoSuchOutput? { return BadRelation, placed; }
    if placing.Loop? { return RelationLoop, placed; }
    if placing.StillGoing? { return Endless, placed; }
    var sized := SetScreenSize(outs, request, min, max);
    if !sized.Sized? { return BadSize, placed; }
    if (request.w == 0 || request.h == 0) && forall k :: 0 <= k < |outs| ==> IsIdentity(outs[k].transform) {
      NormalisedInside(outs, ns, placed);
      TightWithoutTransforms(outs, sized.fb, request, min);
    }
    return LaidOut(sized.fb, sized.warned), placed;
  }

  /** Without transforms and without a requested size: the least screen around the outputs, which touch
      its left and top edge exactly when one of them was placed at 32768 or less. */
  method LayOutTight(outs: seq<Output>, min: Size, max: Size, ghost ns: seq<Placement.Node>, ghost s: seq<Placement.Spot>)
    returns (r: Layout, ghost placed: seq<Placement.Spot>)
    requires Distinct(outs) && Positions.Nodes(outs, ns) && Positions.At(outs, s)
    requires Inside(min, max) && forall k :: 0 <= k < |outs| ==> IsIdentity(outs[k].transform)
    modifies outs`x, outs`y, outs`changes
    ensures r.LaidOut? ==> Placement.OnlyActive(ns, s, placed) && |placed| == |outs|
    ensures r.LaidOut? ==> Touching(outs, placed) && TightLayout(outs, r.fb, Size(0, 0), min)
  {
    r, placed := LayOut(outs, Size(0, 0), min, max, ns, s);
    if r.LaidOut? { NormalisedTouch(outs, ns, placed); }
  }

  /** Two outputs ask to be at one place: neither is related and they are there, or one is to be where the
      other is and no output has both a position and a relation. */
  ghost predicate AskOnePlace(ns: seq<Placement.Node>, s: seq<Placement.Spot>, j: nat, k: nat)
    requires j < |ns| == |s| && k < |ns|
  {
    if !Placement.Active(ns[j]) && !Placement.Active(ns[k]) then
      s[j].x == s[k].x && s[j].y == s[k].y
    else
      Placement.Fresh(ns, s) && (SameAsOf(ns, j, k) || SameAsOf(ns, k, j))
  }

  predicate SameAsOf(ns: seq<Placement.Node>, j: nat, k: nat)
    requires j < |ns|
  {
    Placement.Active(ns[j]) && ns[j].rel == SameAs && ns[j].target == Some(k)
  }

  /** Then they are at one place after placing. */
  lemma {:induction false} OnePlace(outs: seq<Output>, ns: seq<Placement.Node>, s: seq<Placement.Spot>,
                                    placed: seq<Placement.Spot>, j: nat, k: nat)
    requires Positions.Nodes(outs, ns) && |s| == |ns| && j < |ns| && k < |ns| && ns[j].lit && ns[k].lit
    requires Placement.Resolved(ns) && Placement.OnlyActive(ns, s, placed)
    requires Positions.At(outs, Placement.Normalised(ns, placed))
    requires Placement.Fresh(ns, s) ==> Settling.RelationsKept(ns, Placement.Normalised(ns, placed))
    requires AskOnePlace(ns, s, j, k)
    ensures outs[j].x == outs[k].x && outs[j].y == outs[k].y
  {
    var r := Placement.Normalised(ns, placed);
    Placement.NormalisedIsAShift(ns, placed);
    assert r[j] == Positions.SpotOf(outs[j]) && r[k] == Positions.SpotOf(outs[k]);
    if SameAsOf(ns, j, k) { assert Placement.Satisfied(ns, r, j); }
    if SameAsOf(ns, k, j) { assert Placement.Satisfied(ns, r, k); }
  }

  /** What the outputs are before a run, as far as placing and choosing CRTCs go. `alike` is that those
      that may come onto one CRTC ask for the same. `related` are the outputs with a relation, if none of
      them has a mode and a position as well. */
  datatype Before = Before(nodes: seq<Placement.Node>, spots: seq<Placement.Spot>, crtcs: seq<Option<nat>>, alike: bool,
                           related: set<nat>)

  ghost predicate Have(outs: seq<Output>, was: seq<Option<nat>>)
    reads outs`crtc
  {
    |was| == |outs| && forall k :: 0 <= k < |outs| ==> was[k] == outs[k].crtc
  }

  ghost predicate IsBefore(outs: seq<Output>, crtcs: seq<Crtc>, was: Before)
    reads outs
  {
    && Positions.Nodes(outs, was.nodes) && Positions.At(outs, was.spots) && Have(outs, was.crtcs)
    && (was.alike ==> AllAskAlike(outs, crtcs, was))
    && was.related == (if Placement.Fresh(was.nodes, was.spots) then Positions.Related(was.nodes) else {})
  }

  /** Outputs with a mode that may come onto one CRTC ask for the same: mode, rotation, transform and
      place. */
  ghost predicate AllAskAlike(outs: seq<Output>, crtcs: seq<Crtc>, was: Before)
    requires |was.crtcs| == |was.nodes| == |was.spots| == |outs|
    reads outs`mode, outs`rotation, outs`transform
  {
    forall j, k :: 0 <= j < k < |outs| && PickCrtcs.MayShare(outs, crtcs, was.crtcs, j, k) ==>
      outs[j].mode.Some? && outs[k].mode.Some? ==>
        && outs[j].mode == outs[k].mode && outs[j].rotation == outs[k].rotation && outs[j].transform == outs[k].transform
        && AskOnePlace(was.nodes, was.spots, j, k)
  }

  /** Outputs with a mode that may come onto one CRTC, when they had the CRTCs `was`, are to show the same. */
  ghost predicate MeetersAgree(outs: seq<Output>, crtcs: seq<Crtc>, was: seq<Option<nat>>)
    requires |was| == |outs|
    reads outs`mode, outs`x, outs`y, outs`rotation, outs`transform
  {
    forall j, k :: 0 <= j < k < |outs| && PickCrtcs.MayShare(outs, crtcs, was, j, k) ==>
      outs[j].mode.Some? && outs[k].mode.Some? ==> SameState(outs[j], outs[k])
  }

  /** The outputs are where `placed` says, normalised; those without a relation are placed where they were. */
  ghost predicate IsPlaced(outs: seq<Output>, ns: seq<Placement.Node>, s: seq<Placement.Spot>, placed: seq<Placement.Spot>)
    reads outs`x, outs`y, outs`changes
  {
    && |s| == |ns| && Placement.Resolved(ns) && Placement.OnlyActive(ns, s, placed)
    && (Placement.Fresh(ns, s) ==> Settling.RelationsKept(ns, Placement.Normalised(ns, placed)))
    && Positions.At(outs, Placement.Normalised(ns, placed))
  }

  /** At the places `s` the outputs that are clean are as on the server. */
  ghost predicate CleanAt(modes: seq<Mode>, outs: seq<Output>, crtcs: seq<Crtc>, s: seq<Placement.Spot>, clean: seq<bool>)
    reads outs`crtc, outs`mode, outs`rotation, outs`transform
  {
    && |s| == |clean| == |outs|
    && forall k :: 0 <= k < |outs| && clean[k] ==>
         ServerValues(modes, crtcs, outs[k].info.crtc, outs[k].crtc, outs[k].mode, s[k].x, s[k].y,
                      outs[k].rotation, outs[k].transform)
  }

  /** The unmarked outputs were clean and have not moved. */
  ghost predicate CleanStay(outs: seq<Output>, s: seq<Placement.Spot>, clean: seq<bool>)
    requires |s| == |clean| == |outs|
    reads outs`changes, outs`x, outs`y
  {
    forall k :: 0 <= k < |outs| && outs[k].changes == {} ==> clean[k] && outs[k].x == s[k].x && outs[k].y == s[k].y
  }

  lemma StillLoaded(modes: seq<Mode>, outs: seq<Output>, crtcs: seq<Crtc>, s: seq<Placement.Spot>, clean: seq<bool>)
    requires WellLoaded(modes, outs, crtcs) && CleanAt(modes, outs, crtcs, s, clean) && CleanStay(outs, s, clean)
    ensures Loaded(modes, outs, crtcs)
  {
  }

  ghost function CleanOf(outs: seq<Output>): (clean: seq<bool>)
    reads outs
    ensures |clean| == |outs| && forall k :: 0 <= k < |outs| ==> clean[k] == (outs[k].changes == {})
  {
    seq(|outs|, k requires 0 <= k < |outs| reads outs => outs[k].changes == {})
  }

  /** An output that is still unmarked has not moved. */
  method LayOutUnmarked(outs: seq<Output>, request: Size, min: Size, max: Size,
                        ghost ns: seq<Placement.Node>, ghost s: seq<Placement.Spot>)
    returns (r: Layout, ghost placed: seq<Placement.Spot>)
    requires Distinct(outs) && Positions.Nodes(outs, ns) && Positions.At(outs, s) && Inside(min, max)
    modifies outs`x, outs`y, outs`changes
    ensures r.Endless? <==> Settling.LoopSays(ns, s).StillGoing?
    ensures r.LaidOut? ==> Positions.Nodes(outs, ns) && IsPlaced(outs, ns, s, placed)
    ensures r.LaidOut? ==> CleanStay(outs, s, old(CleanOf(outs)))
    ensures r.LaidOut? ==> WellSized(outs, r.fb, r.warned, request, min, max)
  {
    r, placed := LayOut(outs, request, min, max, ns, s);
    if r.LaidOut? {
      forall k | 0 <= k < |outs| && outs[k].changes == {}
        ensures old(outs[k].changes) == {} && outs[k].x == s[k].x && outs[k].y == s[k].y
      {
        assert s[k] == old(Positions.SpotOf(outs[k]));
        assert Positions.SpotOf(outs[k]) == Placement.Normalised(ns, placed)[k];
      }
    }
  }

  /** Laying out keeps what is known of the loaded outputs. */
  method LayOutKeeping(modes: seq<Mode>, outs: seq<Output>, crtcs: seq<Crtc>, request: Size, min: Size, max: Size,
                       ghost ns: seq<Placement.Node>, ghost s: seq<Placement.Spot>)
    returns (r: Layout, ghost placed: seq<Placement.Spot>)
    requires Loaded(modes, outs, crtcs) && Inside(min, max) && Positions.Nodes(outs, ns) && Positions.At(outs, s)
    modifies outs`x, outs`y, outs`changes
    ensures r.Endless? <==> Settling.LoopSays(ns, s).StillGoing?
    ensures r.LaidOut? ==> Positions.Nodes(outs, ns) && IsPlaced(outs, ns, s, placed)
    ensures r.LaidOut? ==> Loaded(modes, outs, crtcs)
    ensures r.LaidOut? ==> WellSized(outs, r.fb, r.warned, request, min, max)
  {
    ghost var clean := CleanOf(outs);
    ghost var well, at := WellLoaded(modes, outs, crtcs), CleanAt(modes, outs, crtcs, s, clean);
    assert at;
    r, placed := LayOutUnmarked(outs, request, min, max, ns, s);
    assert WellLoaded(modes, outs, crtcs) == well && CleanAt(modes, outs, crtcs, s, clean) == at;
    if r.LaidOut? { StillLoaded(modes, outs, crtcs, s, clean); }
  }

  lemma {:induction false} StandIfFresh(outs: seq<Output>, was: Before, placed: seq<Placement.Spot>)
    requires Positions.Nodes(outs, was.nodes) && IsPlaced(outs, was.nodes, was.spots, placed)
    requires was.related == if Placement.Fresh(was.nodes, was.spots) then Positions.Related(was.nodes) else {}
    ensures Positions.AllStand(outs, was.related)
  {
    if Placement.Fresh(was.nodes, was.spots) {
      Positions.KeptStand(outs, was.nodes, Placement.Normalised(was.nodes, placed));
    }
  }

  lemma {:induction false} AlikeMeet(outs: seq<Output>, crtcs: seq<Crtc>, was: Before, placed: seq<Placement.Spot>)
    requires |was.crtcs| == |was.nodes| == |was.spots| == |outs| && AllAskAlike(outs, crtcs, was)
    requires Positions.Nodes(outs, was.nodes) && IsPlaced(outs, was.nodes, was.spots, placed)
    ensures MeetersAgree(outs, crtcs, was.crtcs)
  {
    forall j, k | 0 <= j < k < |outs| && PickCrtcs.MayShare(outs, crtcs, was.crtcs, j, k)
      && outs[j].mode.Some? && outs[k].mode.Some?
      ensures SameState(outs[j], outs[k])
    {
      OnePlace(outs, was.nodes, was.spots, placed, j, k);
    }
  }

  /** Where outputs that may meet ask for the same, they are to show the same. */
  method LayOutLoaded(modes: seq<Mode>, outs: seq<Output>, crtcs: seq<Crtc>, request: Size, min: Size, max: Size,
                      ghost was: Before) returns (r: Layout)
    requires Loaded(modes, outs, crtcs) && Inside(min, max) && IsBefore(outs, crtcs, was)
    modifies outs`x, outs`y, outs`changes
    ensures r.Endless? <==> Settling.LoopSays(was.nodes, was.spots).StillGoing?
    ensures r.LaidOut? ==> Positions.AllStand(outs, was.related)
    ensures r.LaidOut? && was.alike ==> MeetersAgree(outs, crtcs, was.crtcs)
    ensures r.LaidOut? ==> Loaded(modes, outs, crtcs)
    ensures r.LaidOut? ==> WellSized(outs, r.fb, r.warned, request, min, max)
  {
    ghost var ns, s, placed := was.nodes, was.spots, [];
    r, placed := LayOutKeeping(modes, outs, crtcs, request, min, max, ns, s);
    if r.LaidOut? {
      StandIfFresh(outs, was, placed);
      if was.alike { AlikeMeet(outs, crtcs, was, placed); }
    }
  }

  datatype Planning = Ok | NoCrtc | BadId

  /** Every CRTC is planned for the outputs that chose it, and marked if one of them, or one it has
      on the server, is marked. */
  method BuildPlan(outs: seq<Output>, crtcs: seq<Crtc>) returns (r: Planning)
    requires Distinct(crtcs)
    requires forall k :: 0 <= k < |outs| && outs[k].mode.Some? ==> outs[k].crtc.Some? && outs[k].crtc.value < |crtcs|
    requires forall c :: 0 <= c < |crtcs| ==> PlannedFor(crtcs[c], []) && !crtcs[c].changing
    modifies crtcs`outputs, crtcs`mode, crtcs`x, crtcs`y, crtcs`rotation, crtcs`pendingTransform, crtcs`changing
    ensures r.Ok? ==> PlannedUpTo(outs, |outs|, crtcs)
    ensures r.Ok? ==> forall c :: 0 <= c < |crtcs| ==> (crtcs[c].changing <==> Touched(outs, crtcs[c]))
  {
    SetCrtcs(outs, crtcs);
    var ok := MarkChangingCrtcs(outs, crtcs);
    return if ok then Ok else BadId;
  }

  /** On the CRTCs `was` the outputs that are clean are as on the server, and so are their modes. */
  ghost predicate CleanOn(modes: seq<Mode>, outs: seq<Output>, crtcs: seq<Crtc>, was: seq<Option<nat>>, clean: seq<bool>)
    reads outs`mode, outs`x, outs`y, outs`rotation, outs`transform
  {
    && |was| == |clean| == |outs|
    && (forall k :: 0 <= k < |outs| && outs[k].mode.Some? && clean[k] ==> was[k].Some?)
    && forall k :: 0 <= k < |outs| && clean[k] ==>
         ServerValues(modes, crtcs, outs[k].info.crtc, was[k], outs[k].mode, outs[k].x, outs[k].y,
                      outs[k].rotation, outs[k].transform)
  }

  lemma StillOn(modes: seq<Mode>, outs: seq<Output>, crtcs: seq<Crtc>, was: seq<Option<nat>>, clean: seq<bool>)
    requires CleanOn(modes, outs, crtcs, was, clean)
    requires forall k :: 0 <= k < |outs| && outs[k].changes == {} ==> clean[k] && outs[k].crtc == was[k]
    ensures forall k :: 0 <= k < |outs| ==> AsLoaded(modes, crtcs, outs[k])
  {
  }

  lemma SharersMeet(outs: seq<Output>, crtcs: seq<Crtc>, was: seq<Option<nat>>)
    requires |was| == |outs| && MeetersAgree(outs, crtcs, was)
    requires forall k :: 0 <= k < |outs| && outs[k].mode.Some? ==> outs[k].crtc.Some?
    requires forall j, k :: 0 <= j < k < |outs| ==>
      outs[j].mode.Some? && outs[k].mode.Some? && outs[j].crtc == outs[k].crtc && outs[k].crtc.Some? ==>
        PickCrtcs.MayShare(outs, crtcs, was, j, k)
    ensures SharersAgree(outs)
  {
    forall j, k | 0 <= j < k < |outs| && outs[j].mode.Some? && outs[k].mode.Some? && outs[j].crtc == outs[k].crtc
      ensures SameState(outs[j], outs[k])
    {
      assert PickCrtcs.MayShare(outs, crtcs, was, j, k);
    }
  }

  method ChooseCrtcs(modes: seq<Mode>, outs: seq<Output>, crtcs: seq<Crtc>, ghost was: seq<Option<nat>>, ghost alike: bool)
    returns (r: Planning)
    requires Loaded(modes, outs, crtcs) && Have(outs, was) && (alike ==> MeetersAgree(outs, crtcs, was))
    modifies outs`crtc, outs`currentCrtc, outs`changes
    ensures r.Ok? ==> Loaded(modes, outs, crtcs)
    ensures r.Ok? ==> forall k :: 0 <= k < |outs| && outs[k].mode.Some? ==> outs[k].crtc.Some?
    ensures r.Ok? && alike ==> SharersAgree(outs)
  {
    ghost var clean := CleanOf(outs);
    assert CleanOn(modes, outs, crtcs, was, clean);
    var picked := PickCrtcs.PickSharing(modes, outs, crtcs, was);
    if picked.NoCrtcFor? { return NoCrtc; }
    if picked.UnknownCrtcId? { return BadId; }
    StillOn(modes, outs, crtcs, was, clean);
    if alike { SharersMeet(outs, crtcs, was); }
    return Ok;
  }

  /** What a planned CRTC shows is one of the outputs, so it fits where all of them do. */
  lemma PlannedCrtcFits(modes: seq<Mode>, outs: seq<Output>, crtcs: seq<Crtc>, fb: Size, c: nat)
    requires AllInside(outs, fb) && c < |crtcs|
    requires forall k :: 0 <= k < |outs| && outs[k].mode.Some? ==> outs[k].mode.value in modes
    requires PlannedFor(crtcs[c], OnCrtc(outs, |outs|, c))
    ensures Fits(Planned(crtcs[c]), fb) && (crtcs[c].mode.Some? ==> crtcs[c].mode.value in modes)
  {
    if crtcs[c].mode.None? { return; }
    var o := OnCrtc(outs, |outs|, c)[0];
    OnCrtcMembers(outs, |outs|, c, o);
    var k :| 0 <= k < |outs| && outs[k] == o;
    assert Inside(OutputEdge(outs[k]), fb);
  }

  ghost predicate ModesKnown(server: Server, modes: seq<Mode>, crtcs: seq<Crtc>) {
    && (forall m :: m in modes ==> m.id != 0 && m.id in server.modes && server.modes[m.id] == m)
    && (forall c :: 0 <= c < |crtcs| && crtcs[c].info.mode != 0 ==> crtcs[c].info.mode in server.modes)
  }

  lemma PlannedCrtcsFit(server: Server, modes: seq<Mode>, outs: seq<Output>, crtcs: seq<Crtc>, fb: Size)
    requires AllInside(outs, fb) && ModesKnown(server, modes, crtcs)
    requires forall k :: 0 <= k < |outs| && outs[k].mode.Some? ==> outs[k].mode.value in modes
    requires PlannedUpTo(outs, |outs|, crtcs)
    ensures PlanFits(server, modes, crtcs, fb)
  {
    forall c | 0 <= c < |crtcs|
      ensures Fits(Planned(crtcs[c]), fb) && (crtcs[c].mode.Some? ==> crtcs[c].mode.value in modes)
    {
      PlannedCrtcFits(modes, outs, crtcs, fb, c);
    }
  }

  lemma UnmarkedAreSame(server: Server, modes: seq<Mode>, outs: seq<Output>, crtcs: seq<Crtc>)
    requires ConsistentServer(outs, crtcs) && ModesKnown(server, modes, crtcs)
    requires forall k :: 0 <= k < |outs| ==> AsLoaded(modes, crtcs, outs[k])
    requires PlannedUpTo(outs, |outs|, crtcs)
    requires forall c :: 0 <= c < |crtcs| ==> (crtcs[c].changing <==> Touched(outs, crtcs[c]))
    ensures UnmarkedSame(server, crtcs)
  {
    forall c | 0 <= c < |crtcs| && crtcs[c].mode.Some? && !crtcs[c].changing
      ensures crtcs[c].info.mode in server.modes && Reported(server.modes, crtcs[c]) == Planned(crtcs[c])
    {
      UntouchedIsAsPlanned(outs, crtcs, modes, server.modes, c);
    }
  }

  /** Every CRTC is planned for the outputs that chose it, and every output with a mode chose one. */
  ghost predicate AllPlanned(outs: seq<Output>, crtcs: seq<Crtc>)
    reads outs`mode, outs`crtc, outs`x, outs`y, outs`rotation, outs`transform
    reads crtcs`mode, crtcs`outputs, crtcs`x, crtcs`y, crtcs`rotation, crtcs`pendingTransform
  {
    && (forall k :: 0 <= k < |outs| && outs[k].mode.Some? ==> outs[k].crtc.Some? && outs[k].crtc.value < |crtcs|)
    && PlannedUpTo(outs, |outs|, crtcs)
  }

  /** The plan for chosen CRTCs. */
  method MakePlan(server: Server, modes: seq<Mode>, outs: seq<Output>, crtcs: seq<Crtc>, ghost fb: Size, ghost inside: bool)
    returns (r: Planning)
    requires Loaded(modes, outs, crtcs) && ModesKnown(server, modes, crtcs) && (inside ==> AllInside(outs, fb))
    requires forall k :: 0 <= k < |outs| && outs[k].mode.Some? ==> outs[k].crtc.Some?
    modifies crtcs`outputs, crtcs`mode, crtcs`x, crtcs`y, crtcs`rotation, crtcs`pendingTransform, crtcs`changing
    ensures r.Ok? ==> UnmarkedSame(server, crtcs) && AllPlanned(outs, crtcs)
    ensures r.Ok? && inside ==> PlanFits(server, modes, crtcs, fb)
  {
    r := BuildPlan(outs, crtcs);
    if r.Ok? {
      UnmarkedAreSame(server, modes, outs, crtcs);
      if inside { PlannedCrtcsFit(server, modes, outs, crtcs, fb); }
    }
  }

  /** CRTCs, plan and marks. */
  method PlanCrtcs(server: Server, modes: seq<Mode>, outs: seq<Output>, crtcs: seq<Crtc>, ghost fb: Size,
                   ghost was: seq<Option<nat>>, ghost alike: bool, ghost inside: bool)
    returns (r: Planning)
    requires Loaded(modes, outs, crtcs) && ModesKnown(server, modes, crtcs) && (inside ==> AllInside(outs, fb))
    requires Have(outs, was) && (alike ==> MeetersAgree(outs, crtcs, was))
    modifies outs`crtc, outs`currentCrtc, outs`changes
    modifies crtcs`outputs, crtcs`mode, crtcs`x, crtcs`y, crtcs`rotation, crtcs`pendingTransform, crtcs`changing
    ensures r.Ok? ==> UnmarkedSame(server, crtcs) && AllPlanned(outs, crtcs)
    ensures r.Ok? && inside ==> PlanFits(server, modes, crtcs, fb)
    ensures r.Ok? && alike ==> SharersAgree(outs)
  {
    r := ChooseCrtcs(modes, outs, crtcs, was, alike);
    if r.Ok? {
      r := MakePlan(server, modes, outs, crtcs, fb, inside);
    }
  }

  /** The CRTC shows output `o`, in the state that was asked for `first`. */
  predicate Shows(now: Config, o: Output, first: Output)
    reads first`mode, first`x, first`y, first`rotation, first`transform
  {
    && now.On? && first.mode == Some(now.mode) && first.x == now.x && first.y == now.y
    && first.rotation == now.rotation && first.transform == now.transform && o.xid in now.outputs
  }

  /** The server shows every output with a mode on the CRTC chosen for it, in the state of the first
      output there. */
  ghost predicate AllShown(server: Server, outs: seq<Output>)
    reads server`configs, outs
  {
    forall k :: 0 <= k < |outs| && outs[k].mode.Some? ==>
      && outs[k].crtc.Some? && outs[k].crtc.value < |server.configs|
      && OnCrtc(outs, |outs|, outs[k].crtc.value) != []
      && Shows(server.configs[outs[k].crtc.value], outs[k], OnCrtc(outs, |outs|, outs[k].crtc.value)[0])
  }

  lemma RealisedShowsAll(server: Server, outs: seq<Output>, crtcs: seq<Crtc>, fb: Size)
    requires Realised(server, crtcs, fb) && AllPlanned(outs, crtcs)
    ensures AllShown(server, outs)
  {
    forall k | 0 <= k < |outs| && outs[k].mode.Some?
      ensures var c := outs[k].crtc.value;
        OnCrtc(outs, |outs|, c) != [] && Shows(server.configs[c], outs[k], OnCrtc(outs, |outs|, c)[0])
    {
      var c := outs[k].crtc.value;
      var on := OnCrtc(outs, |outs|, c);
      OnCrtcMembers(outs, |outs|, c, outs[k]);
      OnCrtcMembers(outs, |outs|, c, on[0]);
      var i :| 0 <= i < |on| && on[i] == outs[k];
      assert on[i].xid in IdSet(on) && server.configs[c] == Planned(crtcs[c]);
    }
  }

  /** Two outputs ask for the same picture at the same place. */
  predicate SameState(a: Output, b: Output)
    reads a`mode, a`x, a`y, a`rotation, a`transform
    reads b`mode, b`x, b`y, b`rotation, b`transform
  {
    a.mode == b.mode && a.x == b.x && a.y == b.y && a.rotation == b.rotation && a.transform == b.transform
  }

  /** Every output with a mode is shown in its own state. */
  ghost predicate AllOwn(server: Server, outs: seq<Output>)
    reads server`configs, outs
  {
    forall k :: 0 <= k < |outs| && outs[k].mode.Some? ==>
      && outs[k].crtc.Some? && outs[k].crtc.value < |server.configs|
      && Shows(server.configs[outs[k].crtc.value], outs[k], outs[k])
  }

  /** Outputs with a mode on one CRTC ask for the same. */
  ghost predicate SharersAgree(outs: seq<Output>)
    reads outs
  {
    forall j, k :: 0 <= j < |outs| && 0 <= k < |outs| ==>
      outs[j].mode.Some? && outs[k].mode.Some? && outs[j].crtc == outs[k].crtc ==> SameState(outs[j], outs[k])
  }

  /** What was shown is what was asked for, on every output, if and only if outputs that share a CRTC
      ask for the same. */
  lemma {:induction false} OwnStateIff(server: Server, outs: seq<Output>)
    requires AllShown(server, outs)
    ensures AllOwn(server, outs) <==> SharersAgree(outs)
  {
    if SharersAgree(outs) {
      forall k | 0 <= k < |outs| && outs[k].mode.Some?
        ensures Shows(server.configs[outs[k].crtc.value], outs[k], outs[k])
      {
        var c := outs[k].crtc.value;
        var first := OnCrtc(outs, |outs|, c)[0];
        OnCrtcMembers(outs, |outs|, c, first);
        var j :| 0 <= j < |outs| && outs[j] == first && first.mode.Some? && first.crtc == Some(c);
        assert SameState(outs[j], outs[k]);
      }
    }
  }

  datatype Prepared = Unplanned | NeverEnds | Ready(fb: Size, warned: bool)

  /** All planning steps, in the order `main` takes them. */
  method Prepare(server: Server, modes: seq<Mode>, outs: seq<Output>, crtcs: seq<Crtc>,
                 request: Size, min: Size, max: Size, ghost was: Before)
    returns (r: Prepared)
    requires Loaded(modes, outs, crtcs) && Inside(min, max) && IsBefore(outs, crtcs, was)
    requires ModesKnown(server, modes, crtcs)
    modifies outs`x, outs`y, outs`crtc, outs`currentCrtc, outs`changes
    modifies crtcs`outputs, crtcs`mode, crtcs`x, crtcs`y, crtcs`rotation, crtcs`pendingTransform, crtcs`changing
    ensures r.NeverEnds? <==> Settling.LoopSays(was.nodes, was.spots).StillGoing?
    ensures r.Ready? ==>
      && Inside(min, r.fb) && Inside(r.fb, max) && (r.warned ==> request.w != 0 && request.h != 0)
    ensures r.Ready? ==> AllPlanned(outs, crtcs) && UnmarkedSame(server, crtcs)
    ensures r.Ready? && !r.warned ==> PlanFits(server, modes, crtcs, r.fb)
    ensures r.Ready? && was.alike ==> SharersAgree(outs)
    ensures r.Ready? ==> Positions.AllStand(outs, was.related)
  {
    var layout := LayOutLoaded(modes, outs, crtcs, request, min, max, was);
    if layout.Endless? { return NeverEnds; }
    if !layout.LaidOut? { return Unplanned; }
    var planned := PlanCrtcs(server, modes, outs, crtcs, layout.fb, was.crtcs, was.alike, !layout.warned);
    return if planned.Ok? then Ready(layout.fb, layout.warned) else Unplanned;
  }

  lemma OwnAfter(server: Server, outs: seq<Output>, crtcs: seq<Crtc>, fb: Size)
    requires AllPlanned(outs, crtcs) && Realised(server, crtcs, fb)
    ensures AllShown(server, outs) && (AllOwn(server, outs) <==> SharersAgree(outs))
  {
    RealisedShowsAll(server, outs, crtcs, fb);
    OwnStateIff(server, outs);
  }

  /** The commit, which leaves alone what is planned for the outputs and asked of them. */
  method ApplyPlan(server: Server, modes: seq<Mode>, outs: seq<Output>, crtcs: seq<Crtc>, screen: Size, fb: Size,
                   ghost related: set<nat>)
    returns (outcome: Outcome)
    requires Distinct(crtcs) && server.Valid() && Original(server, crtcs, screen) && PlanFits(server, modes, crtcs, fb)
    requires UnmarkedSame(server, crtcs) && AllPlanned(outs, crtcs) && Positions.AllStand(outs, related)
    modifies server`size, server`configs, server`pending, server`refusals, server`errors, crtcs`changing
    ensures server.Valid() && AllPlanned(outs, crtcs) && Positions.AllStand(outs, related)
    ensures SharersAgree(outs) == old(SharersAgree(outs))
    ensures outcome.Applied? ==> Realised(server, crtcs, fb)
    ensures outcome.Reverted? ==> Original(server, crtcs, screen)
    ensures outcome.Reverted? ==>
      server.configs == old(server.configs) && server.pending == old(server.pending) && server.size == old(server.size)
    ensures outcome.Applied? || server.refusals > old(server.refusals) || !OldModesKnown(modes, crtcs)
    ensures !outcome.RevertFailed? ==> server.errors == old(server.errors)
    ensures outcome.RevertFailed? ==> server.refusals > old(server.refusals)
  {
    outcome := Apply(server, modes, crtcs, screen, fb);
  }

  /** The commit, and what the outputs show after it. */
  method Perform(server: Server, modes: seq<Mode>, outs: seq<Output>, crtcs: seq<Crtc>, screen: Size, fb: Size,
                 ghost alike: bool, ghost related: set<nat>)
    returns (outcome: Outcome)
    requires Distinct(crtcs) && server.Valid() && Original(server, crtcs, screen) && PlanFits(server, modes, crtcs, fb)
    requires UnmarkedSame(server, crtcs) && AllPlanned(outs, crtcs) && (alike ==> SharersAgree(outs))
    requires Positions.AllStand(outs, related)
    modifies server`size, server`configs, server`pending, server`refusals, server`errors, crtcs`changing
    ensures server.Valid() && Positions.AllStand(outs, related)
    ensures outcome.Applied? ==> Realised(server, crtcs, fb) && AllShown(server, outs)
    ensures outcome.Applied? ==> (AllOwn(server, outs) <==> SharersAgree(outs)) && (alike ==> AllOwn(server, outs))
    ensures outcome.Reverted? ==> Original(server, crtcs, screen)
    ensures outcome.Reverted? ==>
      server.configs == old(server.configs) && server.pending == old(server.pending) && server.size == old(server.size)
    ensures outcome.Applied? || server.refusals > old(server.refusals) || !OldModesKnown(modes, crtcs)
    ensures !outcome.RevertFailed? ==> server.errors == old(server.errors)
    ensures outcome.RevertFailed? ==> server.refusals > old(server.refusals)
  {
    outcome := ApplyPlan(server, modes, outs, crtcs, screen, fb, related);
    if outcome.Applied? { OwnAfter(server, outs, crtcs, fb); }
  }

  datatype Result = NotPlanned | NeverDone | Warned(fb: Size) | Run(outcome: Outcome, fb: Size)

  /** A run from the loaded outputs on. Up to the commit nothing is asked of the server; a run whose outputs do not all fit
      the requested screen (the warning of `set_screen_size`) is not followed further. */
  method Configure(server: Server, modes: seq<Mode>, outs: seq<Output>, crtcs: seq<Crtc>, screen: Size,
                   request: Size, min: Size, max: Size, ghost was: Before)
    returns (r: Result)
    requires Loaded(modes, outs, crtcs) && Inside(min, max) && IsBefore(outs, crtcs, was)
    requires server.Valid() && Original(server, crtcs, screen) && ModesKnown(server, modes, crtcs)
    modifies outs`x, outs`y, outs`crtc, outs`currentCrtc, outs`changes
    modifies crtcs`outputs, crtcs`mode, crtcs`x, crtcs`y, crtcs`rotation, crtcs`pendingTransform, crtcs`changing
    modifies server`size, server`configs, server`pending, server`refusals, server`errors
    ensures server.Valid()
    ensures r.NeverDone? <==> Settling.LoopSays(was.nodes, was.spots).StillGoing?
    ensures r.NotPlanned? || r.NeverDone? || r.Warned? ==> Original(server, crtcs, screen)
    ensures r.Warned? ==> request.w != 0 && request.h != 0
    ensures r.Run? && r.outcome.Applied? ==>
      Realised(server, crtcs, r.fb) && AllShown(server, outs) && Inside(min, r.fb) && Inside(r.fb, max)
    ensures r.Run? && r.outcome.Applied? ==> (AllOwn(server, outs) <==> SharersAgree(outs))
    ensures r.Run? && r.outcome.Applied? && was.alike ==> AllOwn(server, outs)
    ensures r.Run? ==> Positions.AllStand(outs, was.related)
    ensures r.Run? && r.outcome.Reverted? ==> Original(server, crtcs, screen)
    ensures r.Run? && r.outcome.Reverted? ==>
      server.configs == old(server.configs) && server.pending == old(server.pending) && server.size == old(server.size)
    ensures r.Run? && !r.outcome.Applied? ==> server.refusals > old(server.refusals) || !OldModesKnown(modes, crtcs)
    ensures r.Run? && !r.outcome.RevertFailed? ==> server.errors == old(server.errors)
    ensures r.Run? && r.outcome.RevertFailed? ==> server.refusals > old(server.refusals)
  {
    var ready := Prepare(server, modes, outs, crtcs, request, min, max, was);
    if ready.Unplanned? { return NotPlanned; }
    if ready.NeverEnds? { return NeverDone; }
    if ready.warned { return Warned(ready.fb); }
    var outcome := Perform(server, modes, outs, crtcs, screen, ready.fb, was.alike, was.related);
    return Run(outcome, ready.fb);
  }

  ghost function AskedRelated(outs: seq<Output>): set<nat>
    reads outs`changes
  {
    set k | 0 <= k < |outs| && RelationChange in outs[k].changes
  }

  /** Some output was given both a relation and a position. */
  ghost predicate AskedBoth(outs: seq<Output>)
    reads outs`changes
  {
    exists k :: 0 <= k < |outs| && RelationChange in outs[k].changes && PositionChange in outs[k].changes
  }

  ghost function BeforeOf(outs: seq<Output>, crtcs: seq<Crtc>): (was: Before)
    reads outs
    ensures IsBefore(outs, crtcs, was)
    ensures !AskedBoth(outs) ==> was.related == AskedRelated(outs)
  {
    var ns, s := NodesOf(outs), SpotsOf(outs);
    var related := if Placement.Fresh(ns, s) then Positions.Related(ns) else {};
    Before(ns, s, seq(|outs|, k requires 0 <= k < |outs| reads outs => outs[k].crtc), false, related)
  }

  /** A whole run, loading included. */
  method LoadAndConfigure(server: Server, modes: seq<Mode>, outs: seq<Output>, crtcs: seq<Crtc>, screen: Size,
                          request: Size, min: Size, max: Size) returns (r: Result)
    requires ConsistentServer(outs, crtcs) && Inside(min, max)
    requires forall k :: 0 <= k < |outs| && outs[k].crtc.Some? ==> outs[k].crtc.value < |crtcs|
    requires forall k :: 0 <= k < |outs| && ModeChange in outs[k].changes && outs[k].mode.Some? ==> outs[k].mode.value in modes
    requires forall c :: 0 <= c < |crtcs| ==> PlannedFor(crtcs[c], []) && !crtcs[c].changing
    requires server.Valid() && Original(server, crtcs, screen) && ModesKnown(server, modes, crtcs)
    modifies outs
    modifies crtcs`outputs, crtcs`mode, crtcs`x, crtcs`y, crtcs`rotation, crtcs`pendingTransform, crtcs`changing
    modifies server`size, server`configs, server`pending, server`refusals, server`errors
    ensures server.Valid()
    ensures r.NotPlanned? || r.NeverDone? || r.Warned? ==> Original(server, crtcs, screen)
    ensures r.Warned? ==> request.w != 0 && request.h != 0
    ensures r.Run? && r.outcome.Applied? ==>
      Realised(server, crtcs, r.fb) && AllShown(server, outs) && Inside(min, r.fb) && Inside(r.fb, max)
    ensures r.Run? && r.outcome.Applied? ==> (AllOwn(server, outs) <==> SharersAgree(outs))
    ensures r.Run? && !old(AskedBoth(outs)) ==> Positions.AllStand(outs, old(AskedRelated(outs)))
    ensures r.Run? && r.outcome.Reverted? ==> Original(server, crtcs, screen)
    ensures r.Run? && r.outcome.Reverted? ==>
      server.configs == old(server.configs) && server.pending == old(server.pending) && server.size == old(server.size)
    ensures r.Run? && !r.outcome.Applied? ==> server.refusals > old(server.refusals) || !OldModesKnown(modes, crtcs)
    ensures r.Run? && !r.outcome.RevertFailed? ==> server.errors == old(server.errors)
    ensures r.Run? && r.outcome.RevertFailed? ==> server.refusals > old(server.refusals)
  {
    var loaded := Load(modes, outs, crtcs);
    if !loaded.Filled? { return NotPlanned; }
    ghost var was := BeforeOf(outs, crtcs);
    assert !old(AskedBoth(outs)) ==> was.related == old(AskedRelated(outs));
    r := Configure(server, modes, outs, crtcs, screen, request, min, max, was);
  }
}
