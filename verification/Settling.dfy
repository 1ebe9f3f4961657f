/** When the relations hold where placement ends, as conditions on the specification: the relations, the
    order of the outputs and which of them have a position of their own. */
module Settling {
  import opened RandrState
  import opened Placement

  // ----- One pass, seen from one output -----

  /** Where the target of output `k` is at its turn in the pass from `s`. */
  function TargetAt(ns: seq<Node>, s: seq<Spot>, k: nat): Spot
    requires Resolved(ns) && |s| == |ns| && k < |ns| && Active(ns[k])
  {
    var t := ns[k].target.value;
    if t < k then Pass(ns, s, 0)[t] else s[t]
  }

  predicate WaitsInPass(ns: seq<Node>, s: seq<Spot>, k: nat)
    requires Resolved(ns) && |s| == |ns| && k < |ns| && Active(ns[k])
  {
    Active(ns[ns[k].target.value]) && !TargetAt(ns, s, k).fixed
  }

  /** What a pass makes of an output. */
  lemma {:induction false} PassAt(ns: seq<Node>, s: seq<Spot>, k: nat)
    requires Resolved(ns) && |s| == |ns| && k < |ns| && Active(ns[k])
    ensures Waits(ns, AtTurn(ns, s, k), k) <==> WaitsInPass(ns, s, k)
    ensures var t := ns[k].target.value;
      Pass(ns, s, 0)[k] ==
        if WaitsInPass(ns, s, k) then s[k]
        else if ns[t].lit then Beside(ns[k], TargetAt(ns, s, k), ns[t].w, ns[t].h)
        else Spot(0, 0, true)
  {
    var t := ns[k].target.value;
    PassFromTurn(ns, s, |ns|);
    TurnsBetween(ns, s, 0, k);
    TurnsBetween(ns, s, k + 1, |ns|);
    TurnsBetween(ns, s, k, |ns|);
    assert AtTurn(ns, s, k + 1) == Step(ns, AtTurn(ns, s, k), k);
  }

  lemma {:induction false} SomeWaitFrom(ns: seq<Node>, s: seq<Spot>, k: nat)
    requires Resolved(ns) && |s| == |ns| && k <= |ns|
    ensures SomeWait(ns, AtTurn(ns, s, k), k) <==> exists j :: k <= j < |ns| && Waits(ns, AtTurn(ns, s, j), j)
    decreases |ns| - k
  {
    if k < |ns| {
      assert AtTurn(ns, s, k + 1) == Step(ns, AtTurn(ns, s, k), k);
      SomeWaitFrom(ns, s, k + 1);
    }
  }

  lemma {:induction false} SomeWaitIff(ns: seq<Node>, s: seq<Spot>)
    requires Resolved(ns) && |s| == |ns|
    ensures SomeWait(ns, s, 0) <==> exists k :: 0 <= k < |ns| && Active(ns[k]) && WaitsInPass(ns, s, k)
  {
    SomeWaitFrom(ns, s, 0);
    assert AtTurn(ns, s, 0) == s;
    if j :| 0 <= j < |ns| && Waits(ns, AtTurn(ns, s, j), j) { PassAt(ns, s, j); }
    if k :| 0 <= k < |ns| && Active(ns[k]) && WaitsInPass(ns, s, k) { PassAt(ns, s, k); }
  }

  // ----- When an output is placed -----

  /** Pass `p` places the related output `k`: its target is not related, has a position of its own, or is
      placed before, in this pass if it comes first in the list. */
  predicate PlacedBy(ns: seq<Node>, s: seq<Spot>, k: nat, p: nat)
    requires Resolved(ns) && |s| == |ns| && k < |ns| && Active(ns[k])
    decreases p, k
  {
    && p > 0
    && var t := ns[k].target.value;
       !Active(ns[t]) || s[t].fixed || if t < k then PlacedBy(ns, s, t, p) else PlacedBy(ns, s, t, p - 1)
  }

  predicate AllPlaced(ns: seq<Node>, s: seq<Spot>, p: nat)
    requires Resolved(ns) && |s| == |ns|
  {
    forall k {:trigger PlacedBy(ns, s, k, p)} :: 0 <= k < |ns| && Active(ns[k]) ==> PlacedBy(ns, s, k, p)
  }

  lemma {:induction false} PlacedStays(ns: seq<Node>, s: seq<Spot>, k: nat, p: nat)
    requires Resolved(ns) && |s| == |ns| && k < |ns| && Active(ns[k]) && PlacedBy(ns, s, k, p)
    ensures PlacedBy(ns, s, k, p + 1)
    decreases p, k
  {
    var t := ns[k].target.value;
    if Active(ns[t]) && !s[t].fixed {
      PlacedStays(ns, s, t, if t < k then p else p - 1);
    }
  }

  /** The marks after `p` passes. */
  lemma {:induction false} PlacedIff(ns: seq<Node>, s: seq<Spot>, k: nat, p: nat)
    requires Resolved(ns) && |s| == |ns| && k < |ns| && Active(ns[k])
    ensures After(ns, s, p)[k].fixed <==> s[k].fixed || PlacedBy(ns, s, k, p)
    ensures p > 0 ==> (WaitsInPass(ns, After(ns, s, p - 1), k) <==> !PlacedBy(ns, s, k, p))
    decreases p, k
  {
    if p > 0 {
      var t := ns[k].target.value;
      PassAt(ns, After(ns, s, p - 1), k);
      PlacedIff(ns, s, k, p - 1);
      if PlacedBy(ns, s, k, p - 1) { PlacedStays(ns, s, k, p - 1); }
      if Active(ns[t]) { PlacedIff(ns, s, t, if t < k then p else p - 1); }
    }
  }

  /** Nobody waits in a pass, the `n`th counted from 0, exactly when it places every related output. */
  lemma {:induction false} EndsIff(ns: seq<Node>, s: seq<Spot>, n: nat)
    requires Resolved(ns) && |s| == |ns|
    ensures !SomeWait(ns, After(ns, s, n), 0) <==> AllPlaced(ns, s, n + 1)
  {
    var w := After(ns, s, n);
    SomeWaitIff(ns, w);
    forall k | 0 <= k < |ns| && Active(ns[k]) ensures WaitsInPass(ns, w, k) <==> !PlacedBy(ns, s, k, n + 1) {
      PlacedIff(ns, s, k, n + 1);
    }
  }

  // ----- When it is settled -----

  /** By pass `p` the place of the related output `k` comes, from target to target, from an output that is
      not related. */
  predicate SettledBy(ns: seq<Node>, k: nat, p: nat)
    requires Resolved(ns) && k < |ns| && Active(ns[k])
    decreases p, k
  {
    && p > 0
    && var t := ns[k].target.value;
       !Active(ns[t]) || if t < k then SettledBy(ns, t, p) else SettledBy(ns, t, p - 1)
  }

  predicate AllSettled(ns: seq<Node>, p: nat)
    requires Resolved(ns)
  {
    forall k {:trigger SettledBy(ns, k, p)} :: 0 <= k < |ns| && Active(ns[k]) ==> SettledBy(ns, k, p)
  }

  lemma {:induction false} SettledStays(ns: seq<Node>, k: nat, p: nat)
    requires Resolved(ns) && k < |ns| && Active(ns[k]) && SettledBy(ns, k, p)
    ensures SettledBy(ns, k, p + 1)
    decreases p, k
  {
    var t := ns[k].target.value;
    if Active(ns[t]) {
      SettledStays(ns, t, if t < k then p else p - 1);
    }
  }

  lemma {:induction false} SettledIsPlaced(ns: seq<Node>, s: seq<Spot>, k: nat, p: nat)
    requires Resolved(ns) && |s| == |ns| && k < |ns| && Active(ns[k]) && SettledBy(ns, k, p)
    ensures PlacedBy(ns, s, k, p)
    decreases p, k
  {
    var t := ns[k].target.value;
    if Active(ns[t]) {
      SettledIsPlaced(ns, s, t, if t < k then p else p - 1);
    }
  }

  /** Without positions of their own, outputs that are placed are settled. */
  lemma {:induction false} FreshIsSettled(ns: seq<Node>, s: seq<Spot>, k: nat, p: nat)
    requires Resolved(ns) && Fresh(ns, s) && k < |ns| && Active(ns[k]) && PlacedBy(ns, s, k, p)
    ensures SettledBy(ns, k, p)
    decreases p, k
  {
    var t := ns[k].target.value;
    if Active(ns[t]) {
      FreshIsSettled(ns, s, t, if t < k then p else p - 1);
    }
  }

  /** A settled output stays where it is. */
  lemma {:induction false} SettledMovesNoMore(ns: seq<Node>, s: seq<Spot>, k: nat, p: nat)
    requires Resolved(ns) && |s| == |ns| && k < |ns| && Active(ns[k]) && SettledBy(ns, k, p)
    ensures After(ns, s, p)[k].fixed && After(ns, s, p + 1)[k] == After(ns, s, p)[k]
    decreases p, k
  {
    var t := ns[k].target.value;
    PassAt(ns, After(ns, s, p - 1), k);
    PassAt(ns, After(ns, s, p), k);
    if Active(ns[t]) {
      SettledMovesNoMore(ns, s, t, if t < k then p else p - 1);
    } else {
      AfterGrows(ns, s, p - 1);
      AfterGrows(ns, s, p);
      AfterGrows(ns, s, p + 1);
    }
  }

  /** Its relation holds. */
  lemma {:induction false} SettledHolds(ns: seq<Node>, s: seq<Spot>, k: nat, m: nat)
    requires Resolved(ns) && |s| == |ns| && k < |ns| && Active(ns[k]) && SettledBy(ns, k, m)
    ensures After(ns, s, m)[k].fixed && Satisfied(ns, After(ns, s, m), k)
  {
    var t := ns[k].target.value;
    PassAt(ns, After(ns, s, m - 1), k);
    if !Active(ns[t]) {
      AfterGrows(ns, s, m - 1);
      AfterGrows(ns, s, m);
    } else {
      SettledMovesNoMore(ns, s, t, if t < k then m else m - 1);
    }
  }

  /** If pass `n`, counted from 0, settles every related output, placement ends with it, and all relations
      hold. */
  lemma {:induction false} SettledEnds(ns: seq<Node>, s: seq<Spot>, n: nat)
    requires Resolved(ns) && |s| == |ns| && AllSettled(ns, n + 1)
    ensures !SomeWait(ns, After(ns, s, n), 0)
    ensures AllHold(ns, After(ns, s, n + 1))
  {
    EndsIff(ns, s, n);
    forall k | 0 <= k < |ns| && Active(ns[k])
      ensures PlacedBy(ns, s, k, n + 1)
      ensures After(ns, s, n + 1)[k].fixed && Satisfied(ns, After(ns, s, n + 1), k)
    {
      SettledIsPlaced(ns, s, k, n + 1);
      SettledHolds(ns, s, k, n + 1);
    }
  }

  /** Every related output is placed and its relation holds. */
  ghost predicate AllHold(ns: seq<Node>, s: seq<Spot>)
    requires Resolved(ns) && |s| == |ns|
  {
    forall k :: 0 <= k < |ns| && Active(ns[k]) ==> s[k].fixed && Satisfied(ns, s, k)
  }

  lemma {:induction false} FreshSettles(ns: seq<Node>, s: seq<Spot>, m: nat)
    requires Resolved(ns) && Fresh(ns, s) && AllPlaced(ns, s, m)
    ensures AllSettled(ns, m)
  {
    forall k | 0 <= k < |ns| && Active(ns[k]) ensures SettledBy(ns, k, m) {
      FreshIsSettled(ns, s, k, m);
    }
  }

  /** So they do where placement ends and no output came with both a position and a relation. */
  lemma {:induction false} RelationsHold(ns: seq<Node>, s: seq<Spot>, n: nat)
    requires Resolved(ns) && Fresh(ns, s) && !SomeWait(ns, After(ns, s, n), 0)
    ensures AllHold(ns, After(ns, s, n + 1))
  {
    EndsIff(ns, s, n);
    FreshSettles(ns, s, n + 1);
    SettledEnds(ns, s, n);
  }

  // ----- What is not settled depends on where related outputs were -----

  predicate SameMarks(s: seq<Spot>, q: seq<Spot>) {
    |s| == |q| && forall k :: 0 <= k < |s| ==> s[k].fixed == q[k].fixed
  }

  function Right(p: Spot): Spot {
    p.(x := p.x + 1)
  }

  /** The related outputs one further right. */
  function Nudged(ns: seq<Node>, s: seq<Spot>): (q: seq<Spot>)
    requires |s| == |ns|
    ensures SameMarks(s, q) && forall k :: 0 <= k < |s| ==> q[k] == if Active(ns[k]) then Right(s[k]) else s[k]
  {
    seq(|s|, k requires 0 <= k < |s| => if Active(ns[k]) then Right(s[k]) else s[k])
  }

  /** A pass moves an output with its target. */
  lemma PassMoves(ns: seq<Node>, a: seq<Spot>, b: seq<Spot>, k: nat, moved: bool)
    requires Resolved(ns) && |a| == |b| == |ns| && k < |ns| && Active(ns[k])
    requires moved ==> Active(ns[ns[k].target.value])
    requires TargetAt(ns, b, k) == if moved then Right(TargetAt(ns, a, k)) else TargetAt(ns, a, k)
    ensures WaitsInPass(ns, a, k) ==> Pass(ns, a, 0)[k] == a[k] && Pass(ns, b, 0)[k] == b[k]
    ensures !WaitsInPass(ns, a, k) ==>
      Pass(ns, b, 0)[k] == if moved then Right(Pass(ns, a, 0)[k]) else Pass(ns, a, 0)[k]
  {
    var t := ns[k].target.value;
    assert WaitsInPass(ns, b, k) == WaitsInPass(ns, a, k);
    PassAt(ns, a, k);
    PassAt(ns, b, k);
    if !WaitsInPass(ns, a, k) && moved {
      BesideMoves(ns[k], TargetAt(ns, a, k), ns[t].w, ns[t].h);
    }
  }

  lemma BesideMoves(n: Node, at: Spot, w: int, h: int)
    ensures Beside(n, Right(at), w, h) == Right(Beside(n, at, w, h))
  {
  }

  lemma WaitingIsUnsettled(ns: seq<Node>, s: seq<Spot>, k: nat, p: nat)
    requires Resolved(ns) && |s| == |ns| && k < |ns| && Active(ns[k]) && p > 0
    requires WaitsInPass(ns, After(ns, s, p - 1), k)
    ensures !SettledBy(ns, k, p) && !SettledBy(ns, k, p - 1)
  {
    if SettledBy(ns, k, p - 1) { SettledStays(ns, k, p - 1); }
    if SettledBy(ns, k, p) {
      SettledIsPlaced(ns, s, k, p);
      PlacedIff(ns, s, k, p);
      assert false;
    }
  }

  /** That moves exactly the outputs that are not settled. */
  lemma {:induction false} NudgeMoves(ns: seq<Node>, s: seq<Spot>, k: nat, p: nat)
    requires Resolved(ns) && |s| == |ns| && k < |ns|
    ensures After(ns, Nudged(ns, s), p)[k] ==
      if Active(ns[k]) && !SettledBy(ns, k, p) then Right(After(ns, s, p)[k]) else After(ns, s, p)[k]
    decreases p, k
  {
    var q := Nudged(ns, s);
    if !Active(ns[k]) {
      AfterGrows(ns, s, p);
      AfterGrows(ns, q, p);
    } else if p > 0 {
      var t := ns[k].target.value;
      var turn := if t < k then p else p - 1;
      var a, b := After(ns, s, p - 1), After(ns, q, p - 1);
      NudgeMoves(ns, s, t, turn);
      PassMoves(ns, a, b, k, Active(ns[t]) && !SettledBy(ns, t, turn));
      if WaitsInPass(ns, a, k) {
        NudgeMoves(ns, s, k, p - 1);
        WaitingIsUnsettled(ns, s, k, p);
      }
    }
  }

  /** Every left-of, right-of, above, below and same-as between outputs with modes holds. */
  ghost predicate RelationsKept(ns: seq<Node>, s: seq<Spot>)
    requires Resolved(ns) && |s| == |ns|
  {
    forall k :: 0 <= k < |ns| && Active(ns[k]) && ns[ns[k].target.value].lit ==> Satisfied(ns, s, k)
  }

  lemma {:induction false} NormalisedKept(ns: seq<Node>, s: seq<Spot>)
    requires Resolved(ns) && |s| == |ns|
    ensures RelationsKept(ns, Normalised(ns, s)) <==> RelationsKept(ns, s)
  {
    forall k | 0 <= k < |ns| && Active(ns[k]) && ns[ns[k].target.value].lit
      ensures Satisfied(ns, Normalised(ns, s), k) <==> Satisfied(ns, s, k)
    {
      NormalisedKeepsRelations(ns, s, k);
    }
  }

  lemma {:induction false} SettledKept(ns: seq<Node>, s: seq<Spot>, n: nat)
    requires Resolved(ns) && |s| == |ns|
    ensures AllSettled(ns, n + 1) ==> RelationsKept(ns, Normalised(ns, After(ns, s, n + 1)))
  {
    if AllSettled(ns, n + 1) {
      SettledEnds(ns, s, n);
      NormalisedKept(ns, After(ns, s, n + 1));
    }
  }

  /** Nobody has a position. */
  function Loose(ns: seq<Node>): (s: seq<Spot>)
    ensures |s| == |ns|
  {
    seq(|ns|, _ => Spot(0, 0, false))
  }

  /** The relations have no cycle, not even one through an output that has a position. */
  ghost predicate NoCycle(ns: seq<Node>)
    requires Resolved(ns)
  {
    Acyclic(ns, Loose(ns))
  }

  /** If the relations hold before and after nudging, what they lead to is settled. */
  lemma {:induction false} ChainIsSettled(ns: seq<Node>, s: seq<Spot>, m: nat, k: nat, n: nat)
    requires Resolved(ns) && |s| == |ns| && m > 0 && k < |ns| && Active(ns[k])
    requires RelationsKept(ns, After(ns, s, m)) && RelationsKept(ns, After(ns, Nudged(ns, s), m))
    requires Follow(ns, Loose(ns), k, n).None?
    ensures SettledBy(ns, k, m)
    decreases n
  {
    var t := ns[k].target.value;
    if Active(ns[t]) {
      ChainIsSettled(ns, s, m, t, n - 1);
      NudgeMoves(ns, s, t, m);
      NudgeMoves(ns, s, k, m);
    }
  }

  /** Wherever the outputs are, the final positions after `m` passes keep all relations. */
  ghost predicate AlwaysKept(ns: seq<Node>, s: seq<Spot>, m: nat)
    requires Resolved(ns) && |s| == |ns|
  {
    forall q :: SameMarks(s, q) ==> RelationsKept(ns, Normalised(ns, After(ns, q, m)))
  }

  /** For relations without a cycle: with these sizes, relations and marks they hold after `m` passes from
      all positions if and only if every related output is settled by then. */
  lemma {:induction false} KeptIff(ns: seq<Node>, s: seq<Spot>, m: nat)
    requires Resolved(ns) && |s| == |ns| && m > 0 && NoCycle(ns)
    ensures AlwaysKept(ns, s, m) <==> AllSettled(ns, m)
  {
    if AllSettled(ns, m) {
      forall q | SameMarks(s, q) ensures RelationsKept(ns, Normalised(ns, After(ns, q, m))) {
        SettledKept(ns, q, m - 1);
      }
    }
    if AlwaysKept(ns, s, m) {
      assert SameMarks(s, s) && SameMarks(s, Nudged(ns, s));
      NormalisedKept(ns, After(ns, s, m));
      NormalisedKept(ns, After(ns, Nudged(ns, s), m));
      forall k | 0 <= k < |ns| && Active(ns[k]) ensures SettledBy(ns, k, m) {
        ChainsAreShort(ns, Loose(ns), k);
        ChainIsSettled(ns, s, m, k, |Actives(ns)|);
      }
    }
  }

  /** With a cycle relations can hold unsettled: two outputs that have positions, each the same as the
      other. */
  lemma CycleCanHold(a: Spot, b: Spot)
    requires a.fixed && b.fixed
    ensures var ns := [Node(true, true, Some(1), SameAs, 0, 0), Node(true, true, Some(0), SameAs, 0, 0)];
      Resolved(ns) && RelationsKept(ns, After(ns, [a, b], 1)) && !AllSettled(ns, 1)
  {
    var ns := [Node(true, true, Some(1), SameAs, 0, 0), Node(true, true, Some(0), SameAs, 0, 0)];
    var s := [a, b];
    var s1 := Step(ns, s, 0);
    var s2 := Step(ns, s1, 1);
    assert s1 == [Spot(b.x, b.y, true), b] && s2 == [Spot(b.x, b.y, true), Spot(b.x, b.y, true)];
    assert Pass(ns, s, 0) == Pass(ns, s1, 1) == Pass(ns, s2, 2) == s2;
    assert After(ns, s, 0) == s && After(ns, s, 1) == s2;
    assert !SettledBy(ns, 1, 0);
    assert !SettledBy(ns, 0, 1);
  }

  // ----- How the loop stops -----

  datatype Placing = Placed | NoSuchOutput | Loop | StillGoing

  /** What pass `n`, counted from 0, says: that all are placed, that a target does not exist, that there is
      a loop, or that another pass is needed. */
  ghost function PassSays(ns: seq<Node>, s: seq<Spot>, n: nat): Placing
    requires |s| == |ns|
  {
    if !Resolved(ns) then NoSuchOutput
    else if AllPlaced(ns, s, n + 1) then Placed
    else if SomeSet(ns, s, 0) then StillGoing
    else Loop
  }

  /** That is what the two flags of the pass say. */
  lemma {:induction false} FlagsSay(ns: seq<Node>, s: seq<Spot>, n: nat)
    requires Resolved(ns) && |s| == |ns|
    ensures PassSays(ns, s, n) ==
      if !SomeWait(ns, After(ns, s, n), 0) then Placed
      else if SomeSet(ns, After(ns, s, n), 0) then StillGoing
      else Loop
  {
    EndsIff(ns, s, n);
    if SomeSet(ns, s, 0) { SetsForever(ns, s, n); } else { NothingMoves(ns, s, n); }
  }

  /** What the loop comes to: with a cycle and an output that can be placed it goes on for ever. */
  ghost function LoopSays(ns: seq<Node>, s: seq<Spot>): Placing
    requires |s| == |ns|
  {
    if !Resolved(ns) then NoSuchOutput
    else if Acyclic(ns, s) then Placed
    else if SomeSet(ns, s, 0) then StillGoing
    else Loop
  }

  /** The first pass from `p` on, counted from 1, that places all related outputs. */
  ghost function FirstPlacing(ns: seq<Node>, s: seq<Spot>, p: nat): (m: nat)
    requires Resolved(ns) && |s| == |ns|
    ensures p <= m
    decreases |Actives(ns)| + 1 - p
  {
    if AllPlaced(ns, s, p) || p > |Actives(ns)| then p else FirstPlacing(ns, s, p + 1)
  }

  /** How many passes the loop makes where it ends. */
  ghost function PassesNeeded(ns: seq<Node>, s: seq<Spot>): (m: nat)
    requires |s| == |ns|
    ensures m > 0
  {
    if Resolved(ns) then FirstPlacing(ns, s, 1) else 1
  }

  lemma {:induction false} FewActives(ns: seq<Node>, n: nat)
    requires n <= |ns|
    ensures |Actives(ns[..n])| <= n
  {
    if n > 0 {
      FewActives(ns, n - 1);
      SmallSet(Actives(ns[..n]), Actives(ns[..n - 1]) + {n - 1});
    }
  }

  /** Without a cycle as many passes as there are related outputs place all of them; with one none does. */
  lemma {:induction false} PlacedMeansAcyclic(ns: seq<Node>, s: seq<Spot>, n: nat)
    requires Resolved(ns) && |s| == |ns|
    ensures AllPlaced(ns, s, n + 1) ==> Acyclic(ns, s)
    ensures Acyclic(ns, s) && n + 1 >= |Actives(ns)| ==> AllPlaced(ns, s, n + 1)
  {
    EndsIff(ns, s, n);
    if Acyclic(ns, s) {
      if n + 1 >= |Actives(ns)| { AcyclicEnds(ns, s, n + 1); }
    } else {
      CyclesNeverPlaced(ns, s, n);
    }
  }

  lemma {:induction false} FirstPlacingIs(ns: seq<Node>, s: seq<Spot>, p: nat, m: nat)
    requires Resolved(ns) && |s| == |ns| && Acyclic(ns, s) && 0 < p <= m && AllPlaced(ns, s, m)
    requires forall i :: p <= i < m ==> !AllPlaced(ns, s, i)
    ensures FirstPlacing(ns, s, p) == m
    decreases m - p
  {
    if p < m {
      if p > |Actives(ns)| { PlacedMeansAcyclic(ns, s, p - 1); }
      FirstPlacingIs(ns, s, p + 1, m);
    }
  }

  lemma {:induction false} AllPlacedStays(ns: seq<Node>, s: seq<Spot>, i: nat, p: nat)
    requires Resolved(ns) && |s| == |ns| && i <= p && AllPlaced(ns, s, i)
    ensures AllPlaced(ns, s, p)
    decreases p
  {
    if i < p {
      AllPlacedStays(ns, s, i, p - 1);
      forall k | 0 <= k < |ns| && Active(ns[k]) ensures PlacedBy(ns, s, k, p) { PlacedStays(ns, s, k, p - 1); }
    }
  }

  /** When the pass before pass `n`, counted from 0, went on, and this one ends the loop or is one more than
      there are outputs, the loop comes to what it says. */
  lemma {:induction false} PassDecides(ns: seq<Node>, s: seq<Spot>, n: nat)
    requires |s| == |ns| && (n > 0 ==> PassSays(ns, s, n - 1).StillGoing?)
    requires PassSays(ns, s, n).StillGoing? ==> n >= |ns|
    ensures LoopSays(ns, s) == PassSays(ns, s, n)
    ensures LoopSays(ns, s).Placed? ==> PassesNeeded(ns, s) == n + 1
  {
    if Resolved(ns) {
      PlacedMeansAcyclic(ns, s, n);
      FewActives(ns, |ns|);
      assert ns[..|ns|] == ns;
      if AllPlaced(ns, s, n + 1) {
        forall i | 1 <= i < n + 1 ensures !AllPlaced(ns, s, i) {
          if AllPlaced(ns, s, i) { AllPlacedStays(ns, s, i, n); }
        }
        FirstPlacingIs(ns, s, 1, n + 1);
      } else if Acyclic(ns, s) {
        NotStuck(ns, s);
      }
    }
  }

  /** Without a cycle some output can be placed, if one is not. */
  lemma {:induction false} NotStuck(ns: seq<Node>, s: seq<Spot>)
    requires Resolved(ns) && |s| == |ns| && Acyclic(ns, s)
    ensures SomeSet(ns, s, 0) || forall m: nat :: m > 0 ==> AllPlaced(ns, s, m)
  {
    if !SomeSet(ns, s, 0) {
      if SomeWait(ns, s, 0) { StuckMeansCycle(ns, s); }
      forall m: nat | m > 0 ensures AllPlaced(ns, s, m) {
        NothingMoves(ns, s, m - 1);
        EndsIff(ns, s, m - 1);
      }
    }
  }

  /** The four ways, for every specification: a loop is reported exactly when all related outputs wait for
      each other; placement takes as many passes as there are related outputs, or one; otherwise every pass
      goes on. */
  lemma {:induction false} LoopMeans(ns: seq<Node>, s: seq<Spot>)
    requires |s| == |ns|
    ensures LoopSays(ns, s).Loop? <==> Resolved(ns) && AllWaitForEachOther(ns, s)
    ensures LoopSays(ns, s).Placed? ==> LastPass(ns, s, PassesNeeded(ns, s))
    ensures LoopSays(ns, s).StillGoing? <==> forall n: nat :: PassSays(ns, s, n).StillGoing?
  {
    if Resolved(ns) {
      LoopReportedIff(ns, s);
      assert After(ns, s, 0) == s;
      CyclesWait(ns, s);
      if Acyclic(ns, s) {
        LastPassFrom(ns, s, 1);
        if |Actives(ns)| > 0 { PlacedMeansAcyclic(ns, s, |Actives(ns)| - 1); } else { PlacedMeansAcyclic(ns, s, 0); }
        var n := if |Actives(ns)| > 0 then |Actives(ns)| - 1 else 0;
        assert !PassSays(ns, s, n).StillGoing?;
      } else {
        forall m: nat | m > 0 ensures !AllPlaced(ns, s, m) { PlacedMeansAcyclic(ns, s, m - 1); }
        if !SomeSet(ns, s, 0) { assert !PassSays(ns, s, 0).StillGoing?; }
      }
    } else {
      assert !PassSays(ns, s, 0).StillGoing?;
    }
  }

  lemma {:induction false} CyclesWait(ns: seq<Node>, s: seq<Spot>)
    requires Resolved(ns) && |s| == |ns|
    ensures !Acyclic(ns, s) ==> SomeWait(ns, s, 0)
  {
    if !Acyclic(ns, s) { CyclesNeverPlaced(ns, s, 0); }
  }

  lemma {:induction false} LastPassFrom(ns: seq<Node>, s: seq<Spot>, p: nat)
    requires Resolved(ns) && |s| == |ns| && Acyclic(ns, s) && 0 < p && (p == 1 || (p <= |Actives(ns)| && !AllPlaced(ns, s, p - 1)))
    ensures LastPass(ns, s, FirstPlacing(ns, s, p))
    decreases |Actives(ns)| + 1 - p
  {
    PlacedMeansAcyclic(ns, s, p - 1);
    if !AllPlaced(ns, s, p) { LastPassFrom(ns, s, p + 1); }
  }

  /** The `p`th pass is the first that places all related outputs; it is one of as many as there are, or the
      first at all. */
  ghost predicate LastPass(ns: seq<Node>, s: seq<Spot>, p: nat)
    requires Resolved(ns) && |s| == |ns|
  {
    && 0 < p && (p == 1 || p <= |Actives(ns)|)
    && AllPlaced(ns, s, p) && (p > 1 ==> !AllPlaced(ns, s, p - 1))
  }

  /** What is known of the final positions. For relations without a cycle they hold from all positions
      exactly if the last pass settles every related output; so they do when no output came with both a
      position and a relation. */
  lemma {:induction false} FinalPositions(ns: seq<Node>, s: seq<Spot>, p: nat)
    requires Resolved(ns) && |s| == |ns| && LoopSays(ns, s).Placed? && p == PassesNeeded(ns, s)
    ensures AllSettled(ns, p) ==> RelationsKept(ns, Normalised(ns, After(ns, s, p)))
    ensures NoCycle(ns) ==> (AlwaysKept(ns, s, p) <==> AllSettled(ns, p))
    ensures Fresh(ns, s) ==> AllSettled(ns, p)
  {
    SettledKept(ns, s, p - 1);
    if NoCycle(ns) { KeptIff(ns, s, p); }
    LoopMeans(ns, s);
    if Fresh(ns, s) { FreshSettles(ns, s, p); }
  }

  lemma {:induction false} FinalGrows(ns: seq<Node>, s: seq<Spot>, p: nat)
    requires Resolved(ns) && |s| == |ns|
    ensures Grows(s, Normalised(ns, After(ns, s, p)))
  {
    AfterGrows(ns, s, p);
  }
}
