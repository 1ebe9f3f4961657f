/** `set_positions` on the outputs themselves. */
module Positions {
  import opened RandrState
  import opened Geometry
  import opened Placement
  import opened Settling

  /** The first output with the given name (`find_output_by_name`). */
  function FindByName(outs: seq<Output>, name: string): (r: Option<nat>)
    ensures r.Some? ==> r.value < |outs| && outs[r.value].name == name
    ensures r.Some? ==> forall k :: 0 <= k < r.value ==> outs[k].name != name
    ensures r.None? ==> forall k :: 0 <= k < |outs| ==> outs[k].name != name
  {
    if outs == [] then None
    else if outs[0].name == name then Some(0)
    else
      match FindByName(outs[1..], name)
      case None => None
      case Some(k) => Some(k + 1)
  }

  function SizeW(o: Output): int
    reads o`mode, o`rotation
  {
    if o.mode.Some? then ModeWidth(o.mode.value, o.rotation) else 0
  }

  function SizeH(o: Output): int
    reads o`mode, o`rotation
  {
    if o.mode.Some? then ModeHeight(o.mode.value, o.rotation) else 0
  }

  function NodeOf(outs: seq<Output>, o: Output): Node
    reads o`mode, o`rotation, o`changes
  {
    Node(o.mode.Some?, RelationChange in o.changes, FindByName(outs, o.relativeTo), o.relation, SizeW(o), SizeH(o))
  }

  function SpotOf(o: Output): Spot
    reads o`x, o`y, o`changes
  {
    Spot(o.x, o.y, PositionChange in o.changes)
  }

  /** `ns` is what placement reads of the outputs. */
  ghost predicate Nodes(outs: seq<Output>, ns: seq<Node>)
    reads outs`mode, outs`rotation, outs`changes
  {
    |ns| == |outs| && forall k :: 0 <= k < |ns| ==> ns[k] == NodeOf(outs, outs[k])
  }

  /** The outputs are at the positions `s`. */
  ghost predicate At(outs: seq<Output>, s: seq<Spot>)
    reads outs`x, outs`y, outs`changes
  {
    |s| == |outs| && forall k :: 0 <= k < |s| ==> s[k] == SpotOf(outs[k])
  }

  /** The marks have only gained position bits. */
  twostate predicate OnlyPositionMarks(outs: seq<Output>)
    reads outs`changes
  {
    forall k :: 0 <= k < |outs| ==> old(outs[k].changes) <= outs[k].changes <= old(outs[k].changes) + {PositionChange}
  }

  // ----- The relations, on the outputs -----

  /** The picture of the output is turned on its side. */
  predicate Sideways(o: Output)
    reads o`rotation
  {
    o.rotation.direction == ROTATE_90 || o.rotation.direction == ROTATE_270
  }

  /** The output's rectangle in the screen, without a transform: its mode's, turned if it is. */
  predicate Covers(o: Output, w: int, h: int)
    reads o`mode, o`rotation
  {
    && o.mode.Some? && o.rotation.direction in {ROTATE_0, ROTATE_90, ROTATE_180, ROTATE_270}
    && w == (if Sideways(o) then o.mode.value.height else o.mode.value.width)
    && h == (if Sideways(o) then o.mode.value.width else o.mode.value.height)
  }

  /** Output `k` stands to the one it is relative to, when both have a mode, as its relation says. */
  ghost predicate StandsTo(outs: seq<Output>, k: nat)
    requires k < |outs|
    reads outs`mode, outs`rotation, outs`x, outs`y
  {
    forall t, w, h, tw, th :: FindByName(outs, outs[k].relativeTo) == Some(t) && Covers(outs[k], w, h) && Covers(outs[t], tw, th) ==>
      Stands(outs[k].relation, outs[k].x, outs[k].y, w, h, outs[t].x, outs[t].y, tw, th)
  }

  ghost predicate AllStand(outs: seq<Output>, related: set<nat>)
    reads outs`mode, outs`rotation, outs`x, outs`y
  {
    forall k :: k in related ==> k < |outs| && StandsTo(outs, k)
  }

  ghost function Related(ns: seq<Node>): set<nat> {
    set k | 0 <= k < |ns| && ns[k].related
  }

  lemma SizeCovers(o: Output, w: int, h: int)
    requires Covers(o, w, h)
    ensures SizeW(o) == w && SizeH(o) == h
  {
  }

  lemma KeptStand(outs: seq<Output>, ns: seq<Node>, s: seq<Spot>)
    requires Nodes(outs, ns) && At(outs, s) && Resolved(ns) && RelationsKept(ns, s)
    ensures AllStand(outs, Related(ns))
  {
    forall k | k in Related(ns) ensures StandsTo(outs, k) {
      forall t, w, h, tw, th | FindByName(outs, outs[k].relativeTo) == Some(t) && Covers(outs[k], w, h) && Covers(outs[t], tw, th)
        ensures Stands(outs[k].relation, outs[k].x, outs[k].y, w, h, outs[t].x, outs[t].y, tw, th)
      {
        SizeCovers(outs[k], w, h);
        SizeCovers(outs[t], tw, th);
        assert Satisfied(ns, s, k);
      }
    }
  }

  /** The place beside another output, which has a mode. */
  method PlaceBeside(output: Output, relation: Output, ghost n: Node) returns (x: int, y: int)
    requires relation.mode.Some? && n.rel == output.relation && n.w == SizeW(output) && n.h == SizeH(output)
    ensures Spot(x, y, true) == Beside(n, SpotOf(relation), SizeW(relation), SizeH(relation))
  {
    match output.relation {
      case LeftOf => x, y := relation.x - SizeW(output), relation.y;
      case RightOf => x, y := relation.x + SizeW(relation), relation.y;
      case Above => x, y := relation.x, relation.y - SizeH(output);
      case Below => x, y := relation.x, relation.y + SizeH(relation);
      case SameAs => x, y := relation.x, relation.y;
    }
  }

  /** Put output `k` at a place and mark it. */
  method PutAt(outs: seq<Output>, k: nat, x: int, y: int, ghost ns: seq<Node>, ghost s: seq<Spot>)
    requires Distinct(outs) && k < |outs| && Nodes(outs, ns) && (Resolved(ns) ==> At(outs, s))
    modifies {outs[k]}`x, {outs[k]}`y, {outs[k]}`changes
    ensures Nodes(outs, ns) && OnlyPositionMarks(outs)
    ensures Resolved(ns) ==> At(outs, s[k := Spot(x, y, true)])
  {
    outs[k].x, outs[k].y := x, y;
    outs[k].changes := outs[k].changes + {PositionChange};
  }

  /** Give output `k` its turn in a pass. */
  method PlaceOne(outs: seq<Output>, k: nat, ghost ns: seq<Node>, ghost s: seq<Spot>)
    returns (found: bool, waits: bool, placed: bool)
    requires Distinct(outs) && k < |outs| && Nodes(outs, ns) && (Resolved(ns) ==> At(outs, s))
    modifies outs`x, outs`y, outs`changes
    ensures Nodes(outs, ns) && OnlyPositionMarks(outs)
    ensures found <==> (Active(ns[k]) ==> ns[k].target.Some?)
    ensures Resolved(ns) ==>
      && waits == Waits(ns, s, k) && placed == (Active(ns[k]) && !waits)
      && At(outs, Step(ns, s, k))
  {
    var output := outs[k];
    found, waits, placed := true, false, false;
    if RelationChange !in output.changes || output.mode.None? { return; }
    var target := FindByName(outs, output.relativeTo);
    if target.None? { return false, false, false; }
    var relation := outs[target.value];
    if relation.mode.Some? && RelationChange in relation.changes && PositionChange !in relation.changes {
      return true, true, false;
    }
    Place(outs, k, target.value, ns, s);
    placed := true;
    if Resolved(ns) { StepIs(ns, s, k); }
  }

  lemma StepIs(ns: seq<Node>, s: seq<Spot>, k: nat)
    requires Resolved(ns) && |s| == |ns| && k < |ns| && Active(ns[k]) && !Waits(ns, s, k)
    ensures Step(ns, s, k) == s[k := TurnSpot(ns, s, k, ns[k].target.value)]
  {
  }

  /** Where output `k` goes when it need not wait for its target `t`. */
  ghost function TurnSpot(ns: seq<Node>, s: seq<Spot>, k: nat, t: nat): Spot
    requires |s| == |ns| && k < |ns| && t < |ns|
  {
    if ns[t].lit then Beside(ns[k], s[t], ns[t].w, ns[t].h) else Spot(0, 0, true)
  }

  method Place(outs: seq<Output>, k: nat, t: nat, ghost ns: seq<Node>, ghost s: seq<Spot>)
    requires Distinct(outs) && k < |outs| && t < |outs| && Nodes(outs, ns) && (Resolved(ns) ==> At(outs, s))
    modifies {outs[k]}`x, {outs[k]}`y, {outs[k]}`changes
    ensures Nodes(outs, ns) && OnlyPositionMarks(outs)
    ensures Resolved(ns) ==> At(outs, s[k := TurnSpot(ns, s, k, t)])
  {
    var x, y := 0, 0;
    if outs[t].mode.Some? {
      x, y := PlaceBeside(outs[k], outs[t], ns[k]);
    }
    PutAt(outs, k, x, y, ns, s);
  }

  /** One pass over the outputs. */
  method PlaceAll(outs: seq<Output>, ghost ns: seq<Node>, ghost s: seq<Spot>)
    returns (found: bool, keepGoing: bool, anySet: bool)
    requires Distinct(outs) && Nodes(outs, ns) && (Resolved(ns) ==> At(outs, s))
    modifies outs`x, outs`y, outs`changes
    ensures Nodes(outs, ns) && OnlyPositionMarks(outs)
    ensures found <==> Resolved(ns)
    ensures found ==>
      keepGoing == SomeWait(ns, s, 0) && anySet == SomeSet(ns, s, 0) && At(outs, Pass(ns, s, 0))
  {
    keepGoing, anySet := false, false;
    ghost var cur := s;
    for k := 0 to |outs|
      invariant Nodes(outs, ns) && OnlyPositionMarks(outs)
      invariant forall j :: 0 <= j < k && Active(ns[j]) ==> ns[j].target.Some?
      invariant Resolved(ns) ==>
        && At(outs, cur) && Pass(ns, cur, k) == Pass(ns, s, 0)
        && (keepGoing || SomeWait(ns, cur, k) <==> SomeWait(ns, s, 0))
        && (anySet || SomeSet(ns, cur, k) <==> SomeSet(ns, s, 0))
    {
      var waits, placed;
      found, waits, placed := PlaceOne(outs, k, ns, cur);
      if !found { return false, keepGoing, anySet; }
      keepGoing := keepGoing || waits;
      anySet := anySet || placed;
      if Resolved(ns) { cur := Step(ns, cur, k); }
    }
    found := true;
  }

  method LeastPosition(outs: seq<Output>, ghost ns: seq<Node>, ghost s: seq<Spot>) returns (minX: int, minY: int)
    requires Nodes(outs, ns) && At(outs, s)
    ensures minX == LeastX(ns, s, |ns|) && minY == LeastY(ns, s, |ns|)
  {
    minX, minY := 32768, 32768;
    for k := 0 to |outs|
      invariant minX == LeastX(ns, s, k) && minY == LeastY(ns, s, k)
    {
      assert ns[k].lit == outs[k].mode.Some? && s[k] == SpotOf(outs[k]);
      if outs[k].mode.Some? {
        if outs[k].x < minX { minX := outs[k].x; }
        if outs[k].y < minY { minY := outs[k].y; }
      }
    }
  }

  /** Move all outputs so that the upper left corner is at 0,0. */
  method Normalise(outs: seq<Output>, ghost ns: seq<Node>, ghost s: seq<Spot>)
    requires Distinct(outs) && Nodes(outs, ns) && At(outs, s)
    modifies outs`x, outs`y, outs`changes
    ensures Nodes(outs, ns) && OnlyPositionMarks(outs)
    ensures At(outs, Normalised(ns, s))
  {
    var minX, minY := LeastPosition(outs, ns, s);
    if minX != 0 || minY != 0 {
      MoveAll(outs, minX, minY, ns, s);
    }
  }

  method MoveAll(outs: seq<Output>, dx: int, dy: int, ghost ns: seq<Node>, ghost s: seq<Spot>)
    requires Distinct(outs) && Nodes(outs, ns) && At(outs, s)
    modifies outs`x, outs`y, outs`changes
    ensures Nodes(outs, ns) && At(outs, Moved(ns, s, dx, dy)) && OnlyPositionMarks(outs)
  {
    ghost var to, cur := Moved(ns, s, dx, dy), s;
    for k := 0 to |outs|
      invariant Nodes(outs, ns) && At(outs, cur) && OnlyPositionMarks(outs)
      invariant |cur| == |s| && forall m :: 0 <= m < |s| ==> cur[m] == if m < k then to[m] else s[m]
    {
      MoveOne(outs, k, dx, dy, ns, cur, to[k]);
      cur := cur[k := to[k]];
    }
    assert cur == to;
  }

  method MoveOne(outs: seq<Output>, k: nat, dx: int, dy: int, ghost ns: seq<Node>, ghost s: seq<Spot>, ghost to: Spot)
    requires Distinct(outs) && k < |outs| && Nodes(outs, ns) && At(outs, s)
    requires to == if ns[k].lit then Spot(s[k].x - dx, s[k].y - dy, true) else s[k]
    modifies {outs[k]}`x, {outs[k]}`y, {outs[k]}`changes
    ensures Nodes(outs, ns) && At(outs, s[k := to]) && OnlyPositionMarks(outs)
  {
    if outs[k].mode.Some? {
      outs[k].x, outs[k].y := outs[k].x - dx, outs[k].y - dy;
      outs[k].changes := outs[k].changes + {PositionChange};
    }
  }

  /** One turn of the outer loop of `set_positions`, for every specification. */
  method PlacePass(outs: seq<Output>, ghost n: nat, ghost ns: seq<Node>, ghost s: seq<Spot>) returns (r: Placing)
    requires Distinct(outs) && Nodes(outs, ns) && |s| == |ns| && (Resolved(ns) ==> At(outs, After(ns, s, n)))
    modifies outs`x, outs`y, outs`changes
    ensures OnlyPositionMarks(outs) && Nodes(outs, ns) && r == PassSays(ns, s, n)
    ensures Resolved(ns) ==> At(outs, After(ns, s, n + 1))
  {
    ghost var before := if Resolved(ns) then After(ns, s, n) else s;
    var found, keepGoing, anySet := PlaceAll(outs, ns, before);
    if !found { return NoSuchOutput; }
    FlagsSay(ns, s, n);
    if !keepGoing { return Placed; }
    return if anySet then StillGoing else Loop;
  }

  /** The loop of `set_positions`, followed until it ends or has made one pass more than there are outputs.
      `n` is the number of the last pass, counted from 0. */
  method PlaceLoop(outs: seq<Output>, ghost ns: seq<Node>, ghost s: seq<Spot>)
    returns (r: Placing, n: nat, ghost passes: nat)
    requires Distinct(outs) && Nodes(outs, ns) && At(outs, s)
    modifies outs`x, outs`y, outs`changes
    ensures OnlyPositionMarks(outs) && Nodes(outs, ns) && passes == n + 1
    ensures r.Placed? ==> Resolved(ns) && At(outs, After(ns, s, passes))
    ensures r == PassSays(ns, s, n) && (n > 0 ==> PassSays(ns, s, n - 1).StillGoing?)
    ensures r.StillGoing? ==> n == |outs|
  {
    n := 0;
    while true
      invariant n <= |outs| && Nodes(outs, ns) && OnlyPositionMarks(outs)
      invariant Resolved(ns) ==> At(outs, After(ns, s, n))
      invariant n > 0 ==> PassSays(ns, s, n - 1).StillGoing?
      decreases |outs| - n
    {
      r := PlacePass(outs, n, ns, s);
      passes := n + 1;
      if !r.StillGoing? || n == |outs| { return; }
      n := n + 1;
    }
  }

  /** What it comes to. After one pass more than there are outputs it would never end: StillGoing stands
      for that. `passes` is the number of passes made. */
  method PlaceUntilDone(outs: seq<Output>, ghost ns: seq<Node>, ghost s: seq<Spot>)
    returns (r: Placing, ghost passes: nat)
    requires Distinct(outs) && Nodes(outs, ns) && At(outs, s)
    modifies outs`x, outs`y, outs`changes
    ensures OnlyPositionMarks(outs) && Nodes(outs, ns) && r == LoopSays(ns, s)
    ensures r.Placed? ==> passes == PassesNeeded(ns, s) && At(outs, After(ns, s, passes))
  {
    var n;
    r, n, passes := PlaceLoop(outs, ns, s);
    PassDecides(ns, s, n);
  }

  /** `set_positions`. */
  method SetPositions(outs: seq<Output>, ghost ns: seq<Node>, ghost s: seq<Spot>)
    returns (r: Placing, ghost passes: nat)
    requires Distinct(outs) && Nodes(outs, ns) && At(outs, s)
    modifies outs`x, outs`y, outs`changes
    ensures OnlyPositionMarks(outs) && Nodes(outs, ns) && r == LoopSays(ns, s)
    ensures r.Placed? ==> passes == PassesNeeded(ns, s) && At(outs, Normalised(ns, After(ns, s, passes)))
    ensures r.Placed? ==>
      && (AllSettled(ns, passes) ==> RelationsKept(ns, Normalised(ns, After(ns, s, passes))) && AllStand(outs, Related(ns)))
      && (NoCycle(ns) ==> (AlwaysKept(ns, s, passes) <==> AllSettled(ns, passes)))
      && (Fresh(ns, s) ==> AllSettled(ns, passes))
      && Grows(s, Normalised(ns, After(ns, s, passes)))
  {
    r, passes := PlaceUntilDone(outs, ns, s);
    if r.Placed? {
      FinalPositions(ns, s, passes);
      FinalGrows(ns, s, passes);
      Normalise(outs, ns, After(ns, s, passes));
      if AllSettled(ns, passes) { KeptStand(outs, ns, Normalised(ns, After(ns, s, passes))); }
    }
  }
}
