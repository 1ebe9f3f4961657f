/** Relative placement (`set_positions`), as a function of the outputs: what one pass does, which
    specifications it places, which it reports as a loop, and on which it never ends. */
module Placement {
  import opened RandrState

  /** What placement reads of an output and never changes. `target` is the output named by
      `relative_to`, None when there is none; `w` and `h` are its mode's size as rotated. */
  datatype Node = Node(lit: bool, related: bool, target: Option<nat>, rel: Relation, w: int, h: int)

  /** What it changes: the position, and whether the position bit is set. */
  datatype Spot = Spot(x: int, y: int, fixed: bool)

  predicate Active(n: Node) {
    n.lit && n.related
  }

  /** Every relation that is looked at names an existing output. */
  predicate Resolved(ns: seq<Node>) {
    forall k :: 0 <= k < |ns| && Active(ns[k]) ==> ns[k].target.Some? && ns[k].target.value < |ns|
  }

  /** `n` beside its target, which is at `at` and has size `w` by `h`. */
  function Beside(n: Node, at: Spot, w: int, h: int): Spot {
    match n.rel
    case LeftOf => Spot(at.x - n.w, at.y, true)
    case RightOf => Spot(at.x + w, at.y, true)
    case Above => Spot(at.x, at.y - n.h, true)
    case Below => Spot(at.x, at.y + h, true)
    case SameAs => Spot(at.x, at.y, true)
  }

  // ----- One pass -----

  /** Output `k` has to wait: its target is itself relative and not placed yet. */
  predicate Waits(ns: seq<Node>, s: seq<Spot>, k: nat)
    requires Resolved(ns) && |s| == |ns| && k < |ns|
  {
    Active(ns[k]) && var t := ns[k].target.value; Active(ns[t]) && !s[t].fixed
  }

  function Step(ns: seq<Node>, s: seq<Spot>, k: nat): (r: seq<Spot>)
    requires Resolved(ns) && |s| == |ns| && k < |ns|
    ensures |r| == |ns|
  {
    if !Active(ns[k]) || Waits(ns, s, k) then s
    else
      var t := ns[k].target.value;
      s[k := if ns[t].lit then Beside(ns[k], s[t], ns[t].w, ns[t].h) else Spot(0, 0, true)]
  }

  /** The positions after the outputs from `k` on have had their turn. */
  function Pass(ns: seq<Node>, s: seq<Spot>, k: nat): (r: seq<Spot>)
    requires Resolved(ns) && |s| == |ns| && k <= |ns|
    ensures |r| == |ns|
    decreases |ns| - k
  {
    if k == |ns| then s else Pass(ns, Step(ns, s, k), k + 1)
  }

  /** Whether some output from `k` on has to wait in this pass (`keep_going`). */
  predicate SomeWait(ns: seq<Node>, s: seq<Spot>, k: nat)
    requires Resolved(ns) && |s| == |ns| && k <= |ns|
    decreases |ns| - k
  {
    k < |ns| && (Waits(ns, s, k) || SomeWait(ns, Step(ns, s, k), k + 1))
  }

  /** Whether some output from `k` on is given a position in this pass (`any_set`). */
  predicate SomeSet(ns: seq<Node>, s: seq<Spot>, k: nat)
    requires Resolved(ns) && |s| == |ns| && k <= |ns|
    decreases |ns| - k
  {
    k < |ns| && ((Active(ns[k]) && !Waits(ns, s, k)) || SomeSet(ns, Step(ns, s, k), k + 1))
  }

  /** The positions after `m` passes. */
  function After(ns: seq<Node>, s: seq<Spot>, m: nat): (r: seq<Spot>)
    requires Resolved(ns) && |s| == |ns|
    ensures |r| == |ns|
  {
    if m == 0 then s else Pass(ns, After(ns, s, m - 1), 0)
  }

  // ----- The relation graph -----

  /** The output `k` has to wait for, when `s` are the positions before the first pass: its target, if
      that is itself relative and has no position yet. */
  function Next(ns: seq<Node>, s: seq<Spot>, k: nat): (r: Option<nat>)
    requires Resolved(ns) && |s| == |ns| && k < |ns|
    ensures r.Some? ==> r.value < |ns| && Active(ns[r.value]) && !s[r.value].fixed
  {
    if Active(ns[k]) && Active(ns[ns[k].target.value]) && !s[ns[k].target.value].fixed then ns[k].target else None
  }

  function Follow(ns: seq<Node>, s: seq<Spot>, k: nat, m: nat): (r: Option<nat>)
    requires Resolved(ns) && |s| == |ns| && k < |ns|
    ensures r.Some? ==> r.value < |ns|
    decreases m
  {
    if m == 0 then Some(k)
    else
      match Next(ns, s, k)
      case None => None
      case Some(t) => Follow(ns, s, t, m - 1)
  }

  /** Following the relations from `k` leads back to `k`. */
  ghost predicate OnCycle(ns: seq<Node>, s: seq<Spot>, k: nat)
    requires Resolved(ns) && |s| == |ns| && k < |ns|
  {
    exists m: nat :: m > 0 && Follow(ns, s, k, m) == Some(k)
  }

  ghost predicate Acyclic(ns: seq<Node>, s: seq<Spot>)
    requires Resolved(ns) && |s| == |ns|
  {
    forall k :: 0 <= k < |ns| ==> !OnCycle(ns, s, k)
  }

  function Actives(ns: seq<Node>): set<nat> {
    set k | 0 <= k < |ns| && Active(ns[k])
  }

  lemma {:induction false} FollowAdds(ns: seq<Node>, s: seq<Spot>, k: nat, i: nat, j: nat)
    requires Resolved(ns) && |s| == |ns| && k < |ns| && Follow(ns, s, k, i).Some?
    ensures Follow(ns, s, k, i + j) == Follow(ns, s, Follow(ns, s, k, i).value, j)
    decreases i
  {
    if i > 0 {
      FollowAdds(ns, s, Next(ns, s, k).value, i - 1, j);
    }
  }

  lemma {:induction false} FollowShorter(ns: seq<Node>, s: seq<Spot>, k: nat, i: nat, j: nat)
    requires Resolved(ns) && |s| == |ns| && k < |ns| && i <= j && Follow(ns, s, k, j).Some?
    ensures Follow(ns, s, k, i).Some?
    decreases i
  {
    if i > 0 {
      FollowShorter(ns, s, Next(ns, s, k).value, i - 1, j - 1);
    }
  }

  lemma {:induction false} SmallSet(a: set<nat>, b: set<nat>)
    requires a <= b
    ensures |a| <= |b|
    decreases a
  {
    if a != {} {
      var x :| x in a;
      SmallSet(a - {x}, b - {x});
    }
  }

  /** The outputs met in the first `m` steps from `k`. */
  function Met(ns: seq<Node>, s: seq<Spot>, k: nat, m: nat): set<nat>
    requires Resolved(ns) && |s| == |ns| && k < |ns| && Active(ns[k]) && Follow(ns, s, k, m).Some?
    decreases m
  {
    if m == 0 then {k}
    else
      FollowShorter(ns, s, k, m - 1, m);
      Met(ns, s, k, m - 1) + {Follow(ns, s, k, m).value}
  }

  lemma {:induction false} MetWhen(ns: seq<Node>, s: seq<Spot>, k: nat, m: nat, v: nat) returns (i: nat)
    requires Resolved(ns) && |s| == |ns| && k < |ns| && Active(ns[k]) && Follow(ns, s, k, m).Some?
    requires v in Met(ns, s, k, m)
    ensures i <= m && Follow(ns, s, k, i) == Some(v)
    decreases m
  {
    i := m;
    if Follow(ns, s, k, m) != Some(v) {
      FollowShorter(ns, s, k, m - 1, m);
      i := MetWhen(ns, s, k, m - 1, v);
    }
  }

  lemma {:induction false} FollowStaysActive(ns: seq<Node>, s: seq<Spot>, k: nat, m: nat)
    requires Resolved(ns) && |s| == |ns| && k < |ns| && Active(ns[k]) && Follow(ns, s, k, m).Some?
    ensures Active(ns[Follow(ns, s, k, m).value])
    decreases m
  {
    if m > 0 {
      FollowStaysActive(ns, s, Next(ns, s, k).value, m - 1);
    }
  }

  lemma RepeatMeansCycle(ns: seq<Node>, s: seq<Spot>, k: nat, i: nat, m: nat)
    requires Resolved(ns) && |s| == |ns| && k < |ns| && i < m && Follow(ns, s, k, m).Some?
    requires Follow(ns, s, k, i) == Follow(ns, s, k, m)
    ensures !Acyclic(ns, s)
  {
    var v := Follow(ns, s, k, i).value;
    FollowAdds(ns, s, k, i, m - i);
    assert Follow(ns, s, v, m - i) == Some(v);
    assert OnCycle(ns, s, v);
  }

  /** Without a cycle all outputs met are different, and all of them are active. */
  lemma {:induction false} MetAreDistinct(ns: seq<Node>, s: seq<Spot>, k: nat, m: nat)
    requires Resolved(ns) && |s| == |ns| && k < |ns| && Active(ns[k]) && Follow(ns, s, k, m).Some?
    requires Acyclic(ns, s)
    ensures |Met(ns, s, k, m)| == m + 1 && Met(ns, s, k, m) <= Actives(ns)
    decreases m
  {
    FollowStaysActive(ns, s, k, m);
    if m > 0 {
      FollowShorter(ns, s, k, m - 1, m);
      MetAreDistinct(ns, s, k, m - 1);
      var v := Follow(ns, s, k, m).value;
      if v in Met(ns, s, k, m - 1) {
        var i := MetWhen(ns, s, k, m - 1, v);
        RepeatMeansCycle(ns, s, k, i, m);
      }
    }
  }

  /** Without a cycle no chain of relations is longer than the number of relative outputs. */
  lemma ChainsAreShort(ns: seq<Node>, s: seq<Spot>, k: nat)
    requires Resolved(ns) && |s| == |ns| && Acyclic(ns, s) && k < |ns| && Active(ns[k])
    ensures Follow(ns, s, k, |Actives(ns)|).None?
  {
    if Follow(ns, s, k, |Actives(ns)|).Some? {
      MetAreDistinct(ns, s, k, |Actives(ns)|);
      SmallSet(Met(ns, s, k, |Actives(ns)|), Actives(ns));
    }
  }

  // ----- What a pass keeps -----

  /** Once placed, always placed; and an output without the position bit has not moved. */
  ghost predicate Grows(s: seq<Spot>, r: seq<Spot>) {
    |s| == |r| && forall k :: 0 <= k < |s| ==> (s[k].fixed ==> r[k].fixed) && (!r[k].fixed ==> r[k] == s[k])
  }

  /** Only active outputs are touched. */
  ghost predicate OnlyActive(ns: seq<Node>, s: seq<Spot>, r: seq<Spot>) {
    |s| == |r| == |ns| && forall k :: 0 <= k < |s| && !Active(ns[k]) ==> r[k] == s[k]
  }

  lemma {:induction false} PassGrows(ns: seq<Node>, s: seq<Spot>, k: nat)
    requires Resolved(ns) && |s| == |ns| && k <= |ns|
    ensures Grows(s, Pass(ns, s, k)) && OnlyActive(ns, s, Pass(ns, s, k))
    decreases |ns| - k
  {
    if k < |ns| {
      PassGrows(ns, Step(ns, s, k), k + 1);
    }
  }

  lemma {:induction false} AfterGrows(ns: seq<Node>, s: seq<Spot>, m: nat)
    requires Resolved(ns) && |s| == |ns|
    ensures Grows(s, After(ns, s, m)) && OnlyActive(ns, s, After(ns, s, m))
  {
    if m > 0 {
      AfterGrows(ns, s, m - 1);
      PassGrows(ns, After(ns, s, m - 1), 0);
    }
  }

  /** An output that need not wait at the start of a pass is placed in it. */
  lemma {:induction false} PassPlaces(ns: seq<Node>, s: seq<Spot>, k: nat, j: nat)
    requires Resolved(ns) && |s| == |ns| && k <= j < |ns| && Active(ns[j]) && !Waits(ns, s, j)
    ensures Pass(ns, s, k)[j].fixed && SomeSet(ns, s, k)
    decreases |ns| - k
  {
    if k < j {
      PassPlaces(ns, Step(ns, s, k), k + 1, j);
    } else {
      PassGrows(ns, Step(ns, s, k), k + 1);
    }
  }

  /** If nobody waits at the start of a pass, nobody waits in it. */
  lemma {:induction false} NobodyWaits(ns: seq<Node>, s: seq<Spot>, k: nat)
    requires Resolved(ns) && |s| == |ns| && k <= |ns|
    requires forall j :: k <= j < |ns| ==> !Waits(ns, s, j)
    ensures !SomeWait(ns, s, k)
    decreases |ns| - k
  {
    if k < |ns| {
      NobodyWaits(ns, Step(ns, s, k), k + 1);
    }
  }

  /** If everybody waits, a pass changes nothing, and conversely. */
  lemma {:induction false} NothingSet(ns: seq<Node>, s: seq<Spot>, k: nat)
    requires Resolved(ns) && |s| == |ns| && k <= |ns|
    ensures SomeSet(ns, s, k) <==> exists j :: k <= j < |ns| && Active(ns[j]) && !Waits(ns, s, j)
    ensures !SomeSet(ns, s, k) ==> Pass(ns, s, k) == s
    ensures !SomeSet(ns, s, k) ==>
      (SomeWait(ns, s, k) <==> exists j :: k <= j < |ns| && Active(ns[j]))
    decreases |ns| - k
  {
    if k < |ns| {
      NothingSet(ns, Step(ns, s, k), k + 1);
      if j :| k <= j < |ns| && Active(ns[j]) && !Waits(ns, s, j) {
        PassPlaces(ns, s, k, j);
      }
    }
  }

  // ----- Acyclic relations are placed in few passes -----

  /** The starting point of placement: no relative output has a position of its own. */
  predicate Fresh(ns: seq<Node>, s: seq<Spot>) {
    |s| == |ns| && forall k :: 0 <= k < |ns| && Active(ns[k]) ==> !s[k].fixed
  }

  lemma {:induction false} ShortChainsArePlaced(ns: seq<Node>, s: seq<Spot>, m: nat, k: nat)
    requires Resolved(ns) && |s| == |ns| && k < |ns| && Active(ns[k]) && Follow(ns, s, k, m).None?
    ensures After(ns, s, m)[k].fixed
    ensures m > 0 && !Waits(ns, After(ns, s, m - 1), k)
    decreases m
  {
    var before := After(ns, s, m - 1);
    var t := ns[k].target.value;
    if Active(ns[t]) {
      if s[t].fixed { AfterGrows(ns, s, m - 1); } else { ShortChainsArePlaced(ns, s, m - 1, t); }
    }
    PassPlaces(ns, before, 0, k);
  }

  /** Acyclic relations: after as many passes as there are relative outputs (or one) nobody
      waits, so the loop has ended, and every relative output has a position. */
  lemma AcyclicEnds(ns: seq<Node>, s: seq<Spot>, m: nat)
    requires Resolved(ns) && |s| == |ns| && Acyclic(ns, s)
    requires m >= 1 && m >= |Actives(ns)|
    ensures !SomeWait(ns, After(ns, s, m - 1), 0)
    ensures forall k :: 0 <= k < |ns| && Active(ns[k]) ==> After(ns, s, m)[k].fixed
  {
    forall k | 0 <= k < |ns| && Active(ns[k])
      ensures After(ns, s, m)[k].fixed && !Waits(ns, After(ns, s, m - 1), k)
    {
      ChainsAreShort(ns, s, k);
      if Follow(ns, s, k, m).Some? {
        FollowShorter(ns, s, k, |Actives(ns)|, m);
      }
      ShortChainsArePlaced(ns, s, m, k);
    }
    NobodyWaits(ns, After(ns, s, m - 1), 0);
  }

  // ----- Loops -----

  /** A pass in which somebody waits and nothing is set: every relative output waits for another
      one, so there is a cycle. */
  lemma StuckMeansCycle(ns: seq<Node>, s: seq<Spot>)
    requires Resolved(ns) && |s| == |ns|
    requires SomeWait(ns, s, 0) && !SomeSet(ns, s, 0)
    ensures !Acyclic(ns, s)
  {
    NothingSet(ns, s, 0);
    var k :| 0 <= k < |ns| && Active(ns[k]);
    if Acyclic(ns, s) {
      ChainsAreShort(ns, s, k);
      AllWaitMeansEndless(ns, s, k, |Actives(ns)|);
    }
  }

  lemma {:induction false} AllWaitMeansEndless(ns: seq<Node>, s: seq<Spot>, k: nat, m: nat)
    requires Resolved(ns) && |s| == |ns| && k < |ns| && Active(ns[k])
    requires forall j :: 0 <= j < |ns| && Active(ns[j]) ==> Waits(ns, s, j)
    ensures Follow(ns, s, k, m).Some?
    decreases m
  {
    if m > 0 {
      AllWaitMeansEndless(ns, s, ns[k].target.value, m - 1);
    }
  }

  /** `s0` are the positions before the first pass. */
  ghost predicate CyclesUnplaced(ns: seq<Node>, s0: seq<Spot>, s: seq<Spot>)
    requires Resolved(ns) && |s0| == |s| == |ns|
  {
    forall k :: 0 <= k < |ns| && OnCycle(ns, s0, k) ==> !s[k].fixed
  }

  lemma CycleStep(ns: seq<Node>, s0: seq<Spot>, s: seq<Spot>, k: nat)
    requires Resolved(ns) && |s0| == |s| == |ns| && CyclesUnplaced(ns, s0, s) && k < |ns| && OnCycle(ns, s0, k)
    ensures Waits(ns, s, k)
  {
    var m: nat :| m > 0 && Follow(ns, s0, k, m) == Some(k);
    var t := Next(ns, s0, k).value;
    FollowAdds(ns, s0, t, m - 1, 1);
    assert Follow(ns, s0, k, 1) == Some(t) by { assert Follow(ns, s0, t, 0) == Some(t); }
    assert Follow(ns, s0, t, m) == Some(t);
  }

  lemma {:induction false} PassKeepsCycles(ns: seq<Node>, s0: seq<Spot>, s: seq<Spot>, k: nat)
    requires Resolved(ns) && |s0| == |s| == |ns| && k <= |ns| && CyclesUnplaced(ns, s0, s)
    ensures CyclesUnplaced(ns, s0, Pass(ns, s, k))
    ensures forall j :: k <= j < |ns| && OnCycle(ns, s0, j) ==> SomeWait(ns, s, k)
    decreases |ns| - k
  {
    if k < |ns| {
      if OnCycle(ns, s0, k) { CycleStep(ns, s0, s, k); }
      PassKeepsCycles(ns, s0, Step(ns, s, k), k + 1);
    }
  }

  /** Whatever is reached along the relations had no position before the first pass. */
  lemma {:induction false} ReachedUnplaced(ns: seq<Node>, s: seq<Spot>, k: nat, m: nat)
    requires Resolved(ns) && |s| == |ns| && k < |ns| && m > 0 && Follow(ns, s, k, m).Some?
    ensures !s[Follow(ns, s, k, m).value].fixed
    decreases m
  {
    if m > 1 {
      ReachedUnplaced(ns, s, Next(ns, s, k).value, m - 1);
    }
  }

  /** An output on a cycle is never placed, and keeps every pass waiting. */
  lemma {:induction false} CyclesNeverPlaced(ns: seq<Node>, s: seq<Spot>, m: nat)
    requires Resolved(ns) && |s| == |ns| && !Acyclic(ns, s)
    ensures CyclesUnplaced(ns, s, After(ns, s, m)) && SomeWait(ns, After(ns, s, m), 0)
  {
    if m == 0 {
      forall k | 0 <= k < |ns| && OnCycle(ns, s, k) ensures !s[k].fixed {
        var i: nat :| i > 0 && Follow(ns, s, k, i) == Some(k);
        ReachedUnplaced(ns, s, k, i);
      }
    } else {
      CyclesNeverPlaced(ns, s, m - 1);
      PassKeepsCycles(ns, s, After(ns, s, m - 1), 0);
    }
    var k :| 0 <= k < |ns| && OnCycle(ns, s, k);
    PassKeepsCycles(ns, s, After(ns, s, m), 0);
  }

  /** If the first pass places something, every later pass "sets" it again. */
  lemma SetsForever(ns: seq<Node>, s: seq<Spot>, m: nat)
    requires Resolved(ns) && |s| == |ns| && SomeSet(ns, s, 0)
    ensures SomeSet(ns, After(ns, s, m), 0)
  {
    NothingSet(ns, s, 0);
    var j :| 0 <= j < |ns| && Active(ns[j]) && !Waits(ns, s, j);
    AfterGrows(ns, s, m);
    PassPlaces(ns, After(ns, s, m), 0, j);
  }

  /** The loop goes on after pass `m` (counting from 0). */
  predicate GoesOn(ns: seq<Node>, s: seq<Spot>, m: nat)
    requires Resolved(ns) && |s| == |ns|
  {
    SomeWait(ns, After(ns, s, m), 0) && SomeSet(ns, After(ns, s, m), 0)
  }

  /** The loop is reported at pass `m`. */
  predicate LoopReported(ns: seq<Node>, s: seq<Spot>, m: nat)
    requires Resolved(ns) && |s| == |ns|
  {
    SomeWait(ns, After(ns, s, m), 0) && !SomeSet(ns, After(ns, s, m), 0)
  }

  /** A loop is only ever reported by the first pass, and exactly when there are relative outputs
      and all of them wait for each other. */
  lemma LoopReportedIff(ns: seq<Node>, s: seq<Spot>)
    requires Resolved(ns) && |s| == |ns|
    ensures LoopReported(ns, s, 0) <==> AllWaitForEachOther(ns, s)
    ensures LoopReported(ns, s, 0) ==> !Acyclic(ns, s)
    ensures !LoopReported(ns, s, 0) ==> forall m: nat :: !LoopReported(ns, s, m)
  {
    NothingSet(ns, s, 0);
    assert forall j :: 0 <= j < |ns| && Active(ns[j]) ==> (Waits(ns, s, j) <==> Next(ns, s, j).Some?);
    if LoopReported(ns, s, 0) {
      StuckMeansCycle(ns, s);
    } else if SomeSet(ns, s, 0) {
      forall m: nat ensures !LoopReported(ns, s, m) { SetsForever(ns, s, m); }
    } else {
      forall m: nat ensures !LoopReported(ns, s, m) { NothingMoves(ns, s, m); }
    }
  }

  /** There are relative outputs, and each of them is relative to another one without a position. */
  ghost predicate AllWaitForEachOther(ns: seq<Node>, s: seq<Spot>)
    requires Resolved(ns) && |s| == |ns|
  {
    && (exists k :: 0 <= k < |ns| && Active(ns[k]))
    && (forall k :: 0 <= k < |ns| && Active(ns[k]) ==> Next(ns, s, k).Some?)
  }

  lemma {:induction false} NothingMoves(ns: seq<Node>, s: seq<Spot>, m: nat)
    requires Resolved(ns) && |s| == |ns| && !SomeSet(ns, s, 0)
    ensures After(ns, s, m) == s
  {
    if m > 0 {
      NothingMoves(ns, s, m - 1);
      NothingSet(ns, s, 0);
    }
  }

  /** What becomes of a specification: acyclic ones end without a loop report; cyclic ones are
      reported at once when no output can be placed, and otherwise never end. */
  lemma Verdict(ns: seq<Node>, s: seq<Spot>)
    requires Resolved(ns) && |s| == |ns|
    ensures Acyclic(ns, s) ==>
      && (forall m: nat :: !LoopReported(ns, s, m))
      && (forall m: nat :: GoesOn(ns, s, m) ==> m + 1 < |Actives(ns)|)
    ensures !Acyclic(ns, s) && !SomeSet(ns, s, 0) ==> LoopReported(ns, s, 0)
    ensures !Acyclic(ns, s) && SomeSet(ns, s, 0) ==> forall m: nat :: GoesOn(ns, s, m)
  {
    if Acyclic(ns, s) {
      LoopReportedIff(ns, s);
      forall m: nat | GoesOn(ns, s, m) ensures m + 1 < |Actives(ns)| {
        if m + 1 >= |Actives(ns)| { AcyclicEnds(ns, s, m + 1); }
      }
    } else {
      CyclesNeverPlaced(ns, s, 0);
      if SomeSet(ns, s, 0) {
        forall m: nat ensures GoesOn(ns, s, m) {
          CyclesNeverPlaced(ns, s, m);
          SetsForever(ns, s, m);
        }
      }
    }
  }

  // ----- When a relation holds -----

  /** One rectangle, `w` by `h` at `x`,`y`, stands to another as the relation says: they share the edge between
      them and start at the same height or from the same side, or they start at one point. */
  predicate Stands(rel: Relation, x: int, y: int, w: int, h: int, tx: int, ty: int, tw: int, th: int) {
    match rel
    case LeftOf => x + w == tx && y == ty
    case RightOf => x == tx + tw && y == ty
    case Above => x == tx && y + h == ty
    case Below => x == tx && y == ty + th
    case SameAs => x == tx && y == ty
  }

  /** Output `k` is where its relation says, seen from where its target is now; or at 0,0 if that has no mode. */
  predicate Satisfied(ns: seq<Node>, s: seq<Spot>, k: nat)
    requires Resolved(ns) && |s| == |ns| && k < |ns| && Active(ns[k])
  {
    var t := ns[k].target.value;
    if ns[t].lit then Stands(ns[k].rel, s[k].x, s[k].y, ns[k].w, ns[k].h, s[t].x, s[t].y, ns[t].w, ns[t].h)
    else s[k].x == 0 && s[k].y == 0
  }

  /** That is where it is put. */
  lemma BesideStands(n: Node, at: Spot, w: int, h: int, x: int, y: int)
    ensures Stands(n.rel, x, y, n.w, n.h, at.x, at.y, w, h) <==> x == Beside(n, at, w, h).x && y == Beside(n, at, w, h).y
    ensures Beside(n, at, w, h).fixed
  {
  }

  /** The positions at the turn of output `k` in a pass. */
  function AtTurn(ns: seq<Node>, s: seq<Spot>, k: nat): (r: seq<Spot>)
    requires Resolved(ns) && |s| == |ns| && k <= |ns|
    ensures |r| == |ns|
  {
    if k == 0 then s else Step(ns, AtTurn(ns, s, k - 1), k - 1)
  }

  lemma {:induction false} PassFromTurn(ns: seq<Node>, s: seq<Spot>, k: nat)
    requires Resolved(ns) && |s| == |ns| && k <= |ns|
    ensures Pass(ns, AtTurn(ns, s, k), k) == Pass(ns, s, 0)
    ensures SomeWait(ns, AtTurn(ns, s, k), k) ==> SomeWait(ns, s, 0)
  {
    if k > 0 {
      PassFromTurn(ns, s, k - 1);
    }
  }

  /** Between two turns only the outputs whose turn it was may have moved. */
  lemma {:induction false} TurnsBetween(ns: seq<Node>, s: seq<Spot>, i: nat, j: nat)
    requires Resolved(ns) && |s| == |ns| && i <= j <= |ns|
    ensures forall k :: 0 <= k < |ns| && !(i <= k < j) ==> AtTurn(ns, s, j)[k] == AtTurn(ns, s, i)[k]
  {
    if i < j {
      TurnsBetween(ns, s, i, j - 1);
    }
  }

  /** With an output that has both a position and a relation one can be broken at the end: `a` is put
      right of `b` where `b` was, and then `b` moves. */
  lemma PositionAndRelationDisagree()
    ensures var ns := [Node(true, true, Some(1), RightOf, 10, 10), Node(true, true, Some(2), RightOf, 10, 10),
                       Node(true, false, None, SameAs, 10, 10)];
      var s := [Spot(0, 0, false), Spot(100, 0, true), Spot(0, 0, false)];
      Resolved(ns) && !SomeWait(ns, s, 0) && !Satisfied(ns, After(ns, s, 1), 0)
  {
    var ns := [Node(true, true, Some(1), RightOf, 10, 10), Node(true, true, Some(2), RightOf, 10, 10),
               Node(true, false, None, SameAs, 10, 10)];
    var s := [Spot(0, 0, false), Spot(100, 0, true), Spot(0, 0, false)];
    var s1 := Step(ns, s, 0);
    var s2 := Step(ns, s1, 1);
    assert s1 == [Spot(110, 0, true), Spot(100, 0, true), Spot(0, 0, false)];
    assert s2 == [Spot(110, 0, true), Spot(10, 0, true), Spot(0, 0, false)];
    assert Step(ns, s2, 2) == s2;
    assert Pass(ns, s, 0) == Pass(ns, s1, 1) == Pass(ns, s2, 2) == Pass(ns, s2, 3) == s2;
    assert !SomeWait(ns, s2, 3) && !SomeWait(ns, s2, 2) && !SomeWait(ns, s1, 1);
  }

  // ----- Normalisation -----

  function Least(a: int, b: int): int { if a < b then a else b }

  /** The least x among the first `k` outputs with a mode, 32768 at most. */
  function LeastX(ns: seq<Node>, s: seq<Spot>, k: nat): int
    requires |s| == |ns| && k <= |ns|
  {
    if k == 0 then 32768
    else if ns[k - 1].lit then Least(s[k - 1].x, LeastX(ns, s, k - 1))
    else LeastX(ns, s, k - 1)
  }

  function LeastY(ns: seq<Node>, s: seq<Spot>, k: nat): int
    requires |s| == |ns| && k <= |ns|
  {
    if k == 0 then 32768
    else if ns[k - 1].lit then Least(s[k - 1].y, LeastY(ns, s, k - 1))
    else LeastY(ns, s, k - 1)
  }

  lemma {:induction false} LeastIsLeast(ns: seq<Node>, s: seq<Spot>, k: nat)
    requires |s| == |ns| && k <= |ns|
    ensures var x := LeastX(ns, s, k);
      && (forall j :: 0 <= j < k && ns[j].lit ==> x <= s[j].x)
      && (x == 32768 || (x < 32768 && exists j :: 0 <= j < k && ns[j].lit && s[j].x == x))
    ensures var y := LeastY(ns, s, k);
      && (forall j :: 0 <= j < k && ns[j].lit ==> y <= s[j].y)
      && (y == 32768 || (y < 32768 && exists j :: 0 <= j < k && ns[j].lit && s[j].y == y))
  {
    if k > 0 {
      LeastIsLeast(ns, s, k - 1);
    }
  }

  /** The outputs with a mode moved left and up. */
  function Moved(ns: seq<Node>, s: seq<Spot>, dx: int, dy: int): (r: seq<Spot>)
    requires |s| == |ns|
    ensures |r| == |ns|
    ensures forall k :: 0 <= k < |ns| ==>
      r[k] == if ns[k].lit then Spot(s[k].x - dx, s[k].y - dy, true) else s[k]
  {
    seq(|ns|, k requires 0 <= k < |ns| => if ns[k].lit then Spot(s[k].x - dx, s[k].y - dy, true) else s[k])
  }

  /** The positions once the upper left corner has been moved to 0,0. */
  function Normalised(ns: seq<Node>, s: seq<Spot>): (r: seq<Spot>)
    requires |s| == |ns|
    ensures |r| == |ns|
  {
    var mx, my := LeastX(ns, s, |ns|), LeastY(ns, s, |ns|);
    if mx == 0 && my == 0 then s
    else Moved(ns, s, mx, my)
  }

  /** Normalising moves all outputs with a mode by the same amount, to coordinates that are not
      negative; an edge is reached exactly when some output started at 32768 or less. */
  lemma NormalisedIsAShift(ns: seq<Node>, s: seq<Spot>)
    requires |s| == |ns|
    ensures var r := Normalised(ns, s);
      && (forall k :: 0 <= k < |ns| && ns[k].lit ==> r[k].x >= 0 && r[k].y >= 0)
      && (forall j, k :: 0 <= j < |ns| && 0 <= k < |ns| && ns[j].lit && ns[k].lit ==>
            r[j].x - r[k].x == s[j].x - s[k].x && r[j].y - r[k].y == s[j].y - s[k].y)
      && (forall k :: 0 <= k < |ns| && !ns[k].lit ==> r[k] == s[k])
      && ((exists k :: 0 <= k < |ns| && ns[k].lit && r[k].x == 0) <==>
          (exists k :: 0 <= k < |ns| && ns[k].lit && s[k].x <= 32768))
      && ((exists k :: 0 <= k < |ns| && ns[k].lit && r[k].y == 0) <==>
          (exists k :: 0 <= k < |ns| && ns[k].lit && s[k].y <= 32768))
  {
    var mx, my := LeastX(ns, s, |ns|), LeastY(ns, s, |ns|);
    var r := Normalised(ns, s);
    LeastIsLeast(ns, s, |ns|);
    forall k | 0 <= k < |ns| && ns[k].lit ensures r[k].x == s[k].x - mx && r[k].y == s[k].y - my {}
  }

  /** Relations between outputs with modes survive normalisation. */
  lemma NormalisedKeepsRelations(ns: seq<Node>, s: seq<Spot>, k: nat)
    requires Resolved(ns) && |s| == |ns| && k < |ns| && Active(ns[k]) && ns[ns[k].target.value].lit
    ensures Satisfied(ns, Normalised(ns, s), k) <==> Satisfied(ns, s, k)
  {
    NormalisedIsAShift(ns, s);
  }
}
