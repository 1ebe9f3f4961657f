/** Where the choice of CRTCs falls short: how far the weight of 1000 for a lit output carries, and when
    outputs that share a CRTC agree on what it shows. */
module CrtcLimits {
  import opened RandrState
  import opened CrtcSearch
  import opened PickCrtcs

  // ----- More than 1000 outputs -----

  /** Outputs 1 to `n` each have the CRTC of their number and could move to the next; output 0 is new
      and could only have CRTC 1. All CRTCs are idle. */
  function Chain(n: nat): (p: seq<Demand>)
    ensures |p| == n + 1 && forall k :: 0 <= k <= n ==> p[k] == Link(n, k)
  {
    seq(n + 1, k requires 0 <= k <= n => Link(n, k))
  }

  function Below(n: nat): (s: set<nat>)
    ensures forall c: nat :: c in s <==> c < n
  {
    if n == 0 then {} else Below(n - 1) + {n - 1}
  }

  function Link(n: nat, k: nat): Demand {
    Demand(k, true, if k == 0 then [Some(1)] else [Some(k), Some(k + 1)], Below(n + 2), [],
           if k == 0 then None else Some(k))
  }

  /** Everybody moves up. */
  function AllMoved(n: nat): (b: Assignment)
    ensures |b| == n + 1 && forall k :: 0 <= k <= n ==> b[k] == Some(k + 1)
  {
    seq(n + 1, k => Some(k + 1))
  }

  /** Outputs 1 to `n` stay. */
  function AllStay(n: nat): (b: Assignment)
    ensures |b| == n && forall k :: 0 <= k < n ==> b[k] == Some(k + 1)
  {
    seq(n, k => Some(k + 1))
  }

  lemma {:induction false} UniformScore(p: seq<Demand>, b: Assignment, g: nat)
    requires |p| == |b| && forall k :: 0 <= k < |p| ==> Gain(p[k], b[k]) == g
    ensures Score(p, b) == g * |p|
  {
    if b != [] {
      assert forall k :: 0 <= k < |p| - 1 ==> p[1..][k] == p[k + 1] && b[1..][k] == b[k + 1];
      UniformScore(p[1..], b[1..], g);
    }
  }

  lemma {:induction false} AllLit(p: seq<Demand>)
    requires forall k :: 0 <= k < |p| ==> p[k].lit
    ensures Modes(p) == |p|
  {
    if p != [] {
      AllLit(p[1..]);
    }
  }

  /** An output whose CRTC is taken by the one before it has to move as well. */
  lemma PushedOn(p: seq<Demand>, b: Assignment, k: nat, c: nat)
    requires 0 < k < |p| && k <= |b| && Usable(p, b, k, c)
    requires p[k - 1].lit && b[k - 1] == Some(k) && p[k].clones == [] && p[k].options == [Some(k), Some(k + 1)]
    ensures c == k + 1
  {
    assert p[k - 1].xid !in p[k].clones;
  }

  /** To light everything, everybody has to move. */
  lemma {:induction false} LightingAllMoves(n: nat, p: seq<Demand>, b: Assignment, k: nat)
    requires |p| == |b| && k < |p|
    requires forall i :: 0 <= i <= k ==> p[i] == Link(n, i) && b[i].Some? && Usable(p, b, i, b[i].value)
    ensures b[k] == Some(k + 1)
  {
    if k > 0 {
      LightingAllMoves(n, p, b, k - 1);
      PushedOn(p, b, k, b[k].value);
    } else {
      assert Some(b[0].value) in Link(n, 0).options;
    }
  }

  lemma StayingCompletes(n: nat)
    ensures Completes(Chain(n), [None], AllStay(n))
  {
    var p, a := Chain(n), [None] + AllStay(n);
    forall k | 1 <= k < |p| && a[k].Some? ensures p[k].lit && Usable(p, a, k, a[k].value) {
      assert p[k].options[0] == Some(k);
    }
  }

  lemma MovingCompletes(n: nat)
    ensures Completes(Chain(n), [], AllMoved(n)) && LightsAll(Chain(n), AllMoved(n))
  {
    var p, a := Chain(n), [] + AllMoved(n);
    forall k | 0 <= k < |p| && a[k].Some? ensures p[k].lit && Usable(p, a, k, a[k].value) {
      assert p[k].options[if k == 0 then 0 else 1] == Some(k + 1);
    }
  }

  /** Lighting all of a chain scores 1000 each. */
  lemma {:induction false} MovedScore(p: seq<Demand>, n: nat, best: Assignment)
    requires p == Chain(n) && Completes(p, [], best) && LightsAll(p, best)
    ensures best[0] == Some(1) && Score(p, best) == 1000 * (n + 1)
  {
    assert [] + best == best;
    forall k | 0 <= k <= n ensures best[k].Some? && Usable(p, best, k, best[k].value) {
      assert p[k].lit;
    }
    forall k | 0 <= k <= n ensures best[k] == Some(k + 1) { LightingAllMoves(n, p, best, k); }
    UniformScore(p, best, 1000);
  }

  /** Leaving output 0 dark scores 1001 for each of the others. */
  lemma {:induction false} StayScore(p: seq<Demand>, n: nat)
    requires p == Chain(n)
    ensures AllKnown(p, 1) && Search(p, [None]).0 >= 1001 * n
  {
    StayingCompletes(n);
    SearchIsBest(p, [None], AllStay(n));
    UniformScore(p[1..], AllStay(n), 1001);
  }

  lemma {:induction false} LitChainIsShort(p: seq<Demand>, n: nat)
    requires p == Chain(n) && AllKnown(p, 0) && LightsAll(p, Search(p, []).1)
    ensures n < 1000
  {
    SearchIsFeasible(p, []);
    assert p[0..] == p;
    MovedScore(p, n, Search(p, []).1);
    StayScore(p, n);
    FirstChoice(p);
  }

  /** 1000 outputs with a mode is the most for which the search is sure to light every output it can:
      for each larger number there are outputs that could all be lit, of which it leaves one dark. */
  lemma BoundIsExact(n: nat)
    requires n >= 1000
    ensures var p := Chain(n);
      && Modes(p) == n + 1 && AllKnown(p, 0)
      && (exists b :: Completes(p, [], b) && LightsAll(p, b))
      && !LightsAll(p, Search(p, []).1)
  {
    AllLit(Chain(n));
    MovingCompletes(n);
    if LightsAll(Chain(n), Search(Chain(n), []).1) {
      LitChainIsShort(Chain(n), n);
    }
  }

  /** The search gives the first output a CRTC only if that beats leaving it dark. */
  lemma FirstChoice(p: seq<Demand>)
    requires p != [] && AllKnown(p, 0) && p[0].lit && |p[0].options| == 1
    ensures Search(p, []).1[0].Some? ==> Search(p, []).0 > Search(p, [None]).0
  {
    var none: Assignment := [];
    assert none + [None] == [None];
    var off := Search(p, [None]).0;
    var better := Better(p, [], p[0].options[0].value, off, None);
    assert Choose(p, [], 1, better.0, better.1) == better;
  }

  /** Output `k` of the chain. Ids of CRTCs are one more than their indices. */
  method ChainOutput(k: nat) returns (o: Output)
    ensures fresh(o) && IsChainOutput(o, k)
    ensures o.crtc == if k == 0 then None else Some(k)
  {
    var info := OutputInfo(if k == 0 then 0 else k + 1, if k == 0 then [2] else [k + 1, k + 2], []);
    var zero := Row(0.0, 0.0, 0.0);
    o := new Output("", k, info, SameAs, "", {ModeChange}, if k == 0 then None else Some(k), Some(Mode(1, 1, 1)),
                    0, 0, Rotation(ROTATE_0, false, false), Transform(zero, zero, zero, "", []));
  }

  ghost predicate IsChainOutput(o: Output, k: nat)
    reads o`mode
  {
    o.xid == k && o.mode.Some? && o.info.clones == [] && o.info.crtcs == if k == 0 then [2] else [k + 1, k + 2]
  }

  ghost predicate IsIdle(crtc: Crtc, c: nat)
    reads crtc`outputs
  {
    crtc.xid == c + 1 && crtc.outputs == [] && crtc.info.outputs == []
  }

  method ChainOutputs(n: nat) returns (outs: seq<Output>)
    ensures |outs| == n + 1 && Distinct(outs)
    ensures forall k :: 0 <= k <= n ==> fresh(outs[k]) && IsChainOutput(outs[k], k)
    ensures forall k :: 0 <= k <= n ==> outs[k].crtc == if k == 0 then None else Some(k)
  {
    outs := [];
    for i := 0 to n + 1
      invariant |outs| == i
      invariant forall k :: 0 <= k < i ==> fresh(outs[k]) && IsChainOutput(outs[k], k)
      invariant forall k :: 0 <= k < i ==> outs[k].crtc == if k == 0 then None else Some(k)
    {
      var o := ChainOutput(i);
      outs := outs + [o];
    }
  }

  method IdleCrtcs(n: nat) returns (crtcs: seq<Crtc>)
    ensures |crtcs| == n && forall c :: 0 <= c < n ==> fresh(crtcs[c]) && IsIdle(crtcs[c], c)
  {
    crtcs := [];
    var zero := Row(0.0, 0.0, 0.0);
    for i := 0 to n
      invariant |crtcs| == i && forall c :: 0 <= c < i ==> fresh(crtcs[c]) && IsIdle(crtcs[c], c)
    {
      var crtc := new Crtc(i + 1, CrtcInfo(0, 0, 0, Rotation(ROTATE_0, false, false), []),
                           Transform(zero, zero, zero, "", []));
      crtcs := crtcs + [crtc];
    }
  }

  lemma {:induction false} IdleFound(crtcs: seq<Crtc>, c: nat)
    requires c < |crtcs| && forall j :: 0 <= j < |crtcs| ==> IsIdle(crtcs[j], j)
    ensures FindCrtc(crtcs, c + 1) == Some(c)
  {
    assert IsIdle(crtcs[c], c);
    assert forall j :: 0 <= j < |crtcs| && crtcs[j].xid == c + 1 ==> IsIdle(crtcs[j], j);
  }

  lemma {:induction false} ChainLink(n: nat, k: nat, d: Demand, o: Output, crtcs: seq<Crtc>)
    requires k <= n && IsChainOutput(o, k) && d == Demanded([], crtcs, o)
    requires |crtcs| == n + 2 && forall c :: 0 <= c < n + 2 ==> IsIdle(crtcs[c], c)
    requires d.current == if k == 0 then None else Some(k)
    ensures d == Link(n, k)
  {
    forall c | 0 <= c < n + 2 ensures FindCrtc(crtcs, c + 1) == Some(c) {
      IdleFound(crtcs, c);
    }
    assert d.options == Link(n, k).options;
    assert d.fits == Below(n + 2) by {
      assert forall c :: 0 <= c < n + 2 ==> IsIdle(crtcs[c], c);
    }
  }

  lemma {:induction false} ChainDescribed(n: nat, p: seq<Demand>, outs: seq<Output>, crtcs: seq<Crtc>)
    requires Describes(p, [], outs, crtcs) && |outs| == n + 1 && |crtcs| == n + 2
    requires forall k :: 0 <= k <= n ==> IsChainOutput(outs[k], k) && p[k].current == if k == 0 then None else Some(k)
    requires forall c :: 0 <= c < n + 2 ==> IsIdle(crtcs[c], c)
    ensures p == Chain(n)
  {
    forall k | 0 <= k <= n ensures p[k] == Chain(n)[k] {
      ChainLink(n, k, p[k], outs[k], crtcs);
    }
  }

  /** There are such outputs and CRTCs: for every number over 1000 the slow path refuses them, although
      they could all be lit. */
  method ChainIsRefused(n: nat) returns (r: Picked, ghost p: seq<Demand>)
    requires n >= 1000
    ensures r.NoCrtcFor? && |p| == n + 1
    ensures exists b :: Completes(p, [], b) && LightsAll(p, b)
  {
    var outs := ChainOutputs(n);
    var crtcs := IdleCrtcs(n + 2);
    r, p := PickForChain(n, outs, crtcs);
    BoundIsExact(n);
  }

  method PickForChain(n: nat, outs: seq<Output>, crtcs: seq<Crtc>) returns (r: Picked, ghost p: seq<Demand>)
    requires |outs| == n + 1 && |crtcs| == n + 2 && Distinct(outs)
    requires forall k :: 0 <= k <= n ==> IsChainOutput(outs[k], k) && outs[k].crtc == if k == 0 then None else Some(k)
    requires forall c :: 0 <= c < n + 2 ==> IsIdle(crtcs[c], c)
    modifies outs`crtc, outs`currentCrtc, outs`changes
    ensures p == Chain(n)
    ensures r.UnknownCrtcId? <==> !AllKnown(p, 0)
    ensures r.Done? <==> AllKnown(p, 0) && LightsAll(p, Search(p, []).1)
  {
    r, p := SearchPick([], outs, crtcs);
    ChainDescribed(n, p, outs, crtcs);
  }

  // ----- Outputs that share a CRTC -----

  /** Outputs `j` and `k` may both be put on CRTC `c`. */
  predicate CouldShare(p: seq<Demand>, j: nat, k: nat, c: nat)
    requires j < |p| && k < |p|
  {
    && p[j].lit && Some(c) in p[j].options && c in p[j].fits
    && p[k].lit && Some(c) in p[k].options && c in p[k].fits
    && p[j].xid in p[k].clones
  }

  /** The feasible assignment that lights `j` and `k` on `c`, and nothing else. */
  function OnlyTwo(n: nat, j: nat, k: nat, c: nat): (b: Assignment)
    ensures |b| == n && forall i :: 0 <= i < n ==> b[i] == if i == j || i == k then Some(c) else None
  {
    seq(n, i => if i == j || i == k then Some(c) else None)
  }

  lemma {:induction false} OnlyTwoCompletes(p: seq<Demand>, j: nat, k: nat, c: nat)
    requires j < k < |p| && CouldShare(p, j, k, c)
    ensures Completes(p, [], OnlyTwo(|p|, j, k, c))
  {
    var b := OnlyTwo(|p|, j, k, c);
    assert [] + b == b;
    forall i | 0 <= i < |p| && b[i].Some? ensures p[i].lit && Usable(p, b, i, b[i].value) {
      forall h | 0 <= h < i && p[h].lit && b[h] == Some(c) ensures p[h].xid in p[i].clones {
        assert h == j && i == k;
      }
    }
  }

  /** Whatever two outputs are to agree on: all outputs that a feasible assignment puts together on `c`
      agree if and only if all that may share it do. */
  lemma {:induction false} SharersAgreeIff(p: seq<Demand>, c: nat, agree: (nat, nat) -> bool)
    ensures (forall b, j, k :: Completes(p, [], b) && 0 <= j < k < |p| && b[j] == b[k] == Some(c) ==> agree(j, k)) <==>
            (forall j, k :: 0 <= j < k < |p| && CouldShare(p, j, k, c) ==> agree(j, k))
  {
    forall b, j, k | Completes(p, [], b) && 0 <= j < k < |p| && b[j] == b[k] == Some(c)
      ensures CouldShare(p, j, k, c)
    {
      assert [] + b == b;
      assert Usable(p, b, j, c) && Usable(p, b, k, c) && b[j] == Some(c);
    }
    forall j, k | 0 <= j < k < |p| && CouldShare(p, j, k, c)
      ensures exists b :: Completes(p, [], b) && b[j] == b[k] == Some(c)
    {
      OnlyTwoCompletes(p, j, k, c);
      assert OnlyTwo(|p|, j, k, c)[j] == Some(c);
    }
  }

  /** The same for something that outputs have: what those that share a CRTC have in common. */
  lemma {:induction false} SharersEqualIff<T>(p: seq<Demand>, c: nat, what: seq<T>)
    requires |what| == |p|
    ensures (forall b, j, k :: Completes(p, [], b) && 0 <= j < k < |p| && b[j] == b[k] == Some(c) ==> what[j] == what[k]) <==>
            (forall j, k :: 0 <= j < k < |p| && CouldShare(p, j, k, c) ==> what[j] == what[k])
  {
    SharersAgreeIff(p, c, (j: nat, k: nat) => j < |what| && k < |what| && what[j] == what[k]);
  }

  datatype Look = Look(mode: Option<Mode>, x: int, y: int, rotation: Rotation)

  function Looks(outs: seq<Output>): (ls: seq<Look>)
    reads outs
    ensures |ls| == |outs|
    ensures forall k :: 0 <= k < |ls| ==> ls[k] == Look(outs[k].mode, outs[k].x, outs[k].y, outs[k].rotation)
  {
    seq(|outs|, k requires 0 <= k < |outs| reads outs => Look(outs[k].mode, outs[k].x, outs[k].y, outs[k].rotation))
  }

  /** Outputs `j` and `k` both have CRTC `c` listed, and the later one can clone the earlier one. */
  predicate ListedTogether(p: seq<Demand>, j: nat, k: nat, c: nat)
    requires j < |p| && k < |p|
  {
    p[j].lit && Some(c) in p[j].options && p[k].lit && Some(c) in p[k].options && p[j].xid in p[k].clones
  }

  /** Who could share a CRTC for which nothing is planned. */
  lemma CouldShareIff(p: seq<Demand>, modes: seq<Mode>, outs: seq<Output>, crtcs: seq<Crtc>, c: nat, j: nat, k: nat)
    requires Describes(p, modes, outs, crtcs) && c < |crtcs| && crtcs[c].outputs == [] && j < k < |outs|
    ensures CouldShare(p, j, k, c) <==>
      ListedTogether(p, j, k, c) && StateMatches(modes, crtcs[c], outs[j]) && StateMatches(modes, crtcs[c], outs[k])
  {
    assert p[j] == Demanded(modes, crtcs, outs[j]) && p[k] == Demanded(modes, crtcs, outs[k]);
  }

  /** The same, and whether they agree. */
  lemma {:induction false} SharersCouldAgree(p: seq<Demand>, modes: seq<Mode>, outs: seq<Output>, crtcs: seq<Crtc>, c: nat)
    requires Describes(p, modes, outs, crtcs) && c < |crtcs| && crtcs[c].outputs == []
    ensures (forall j, k :: 0 <= j < k < |outs| && CouldShare(p, j, k, c) ==> ShowAlike(outs[j], outs[k])) <==>
            (crtcs[c].info.outputs != [] ||
             forall j, k :: 0 <= j < k < |outs| && ListedTogether(p, j, k, c) ==> ShowAlike(outs[j], outs[k]))
  {
    forall j, k | 0 <= j < k < |outs|
      ensures CouldShare(p, j, k, c) ==> ListedTogether(p, j, k, c)
      ensures CouldShare(p, j, k, c) && crtcs[c].info.outputs != [] ==> ShowAlike(outs[j], outs[k])
      ensures ListedTogether(p, j, k, c) && crtcs[c].info.outputs == [] ==> CouldShare(p, j, k, c)
    {
      CouldShareIff(p, modes, outs, crtcs, c, j, k);
    }
  }

  /** Before anything is planned, every feasible assignment puts only outputs on CRTC `c` that agree on
      mode, position and rotation if and only if the CRTC is in use, or all outputs agree that list it
      and can be cloned: on an idle CRTC nothing is compared. */
  lemma {:induction false} SharersShowAlikeIff(p: seq<Demand>, modes: seq<Mode>, outs: seq<Output>, crtcs: seq<Crtc>, c: nat)
    requires Describes(p, modes, outs, crtcs) && c < |crtcs| && crtcs[c].outputs == []
    ensures (forall b, j, k :: Completes(p, [], b) && 0 <= j < k < |outs| && b[j] == b[k] == Some(c) ==>
               ShowAlike(outs[j], outs[k])) <==>
            (crtcs[c].info.outputs != [] ||
             forall j, k :: 0 <= j < k < |outs| && ListedTogether(p, j, k, c) ==> ShowAlike(outs[j], outs[k]))
  {
    SharersEqualIff(p, c, Looks(outs));
    SharersCouldAgree(p, modes, outs, crtcs, c);
  }

  /** A CRTC in use is not compared for its transform either: outputs on a CRTC agree on the transform if
      and only if all that may share it do. */
  lemma {:induction false} SharersTransformIff(p: seq<Demand>, modes: seq<Mode>, outs: seq<Output>, crtcs: seq<Crtc>, c: nat)
    requires Describes(p, modes, outs, crtcs)
    ensures (forall b, j, k :: Completes(p, [], b) && 0 <= j < k < |outs| && b[j] == b[k] == Some(c) ==>
               outs[j].transform == outs[k].transform) <==>
            (forall j, k :: 0 <= j < k < |outs| && CouldShare(p, j, k, c) ==> outs[j].transform == outs[k].transform)
  {
    SharersEqualIff(p, c, seq(|outs|, j requires 0 <= j < |outs| reads outs => outs[j].transform));
  }

  lemma {:induction false} OnlyOption(p: seq<Demand>, b: Assignment, k: nat)
    requires Completes(p, [], b) && LightsAll(p, b) && k < |p| && p[k].lit && p[k].options == [Some(0)]
    ensures b[k] == Some(0)
  {
    assert [] + b == b;
    assert Usable(p, b, k, b[k].value);
  }

  /** Two outputs that can only have CRTC 0, and can share it, both get it. */
  lemma {:induction false} BothOnTheOne(p: seq<Demand>)
    requires |p| == 2 && p[0].xid in p[1].clones
    requires forall k :: 0 <= k < 2 ==> p[k].lit && p[k].options == [Some(0)] && 0 in p[k].fits
    ensures Search(p, []).1 == [Some(0), Some(0)]
  {
    assert p[0].options[0] == Some(0) && p[1].options[0] == Some(0);
    OnlyTwoCompletes(p, 0, 1, 0);
    assert LightsAll(p, OnlyTwo(2, 0, 1, 0));
    AllLit(p);
    SearchLightsAllIfPossible(p);
    SearchIsFeasible(p, []);
    OnlyOption(p, Search(p, []).1, 0);
    OnlyOption(p, Search(p, []).1, 1);
  }

  /** So two outputs that can clone each other and have only one idle CRTC
      are both put on it, whatever their modes, positions and rotations. */
  lemma {:induction false} IdleCrtcSharedRegardless(p: seq<Demand>, modes: seq<Mode>, outs: seq<Output>, crtcs: seq<Crtc>)
    requires |outs| == 2 && |crtcs| == 1 && Describes(p, modes, outs, crtcs)
    requires crtcs[0].outputs == [] && crtcs[0].info.outputs == []
    requires forall k :: 0 <= k < 2 ==> outs[k].mode.Some? && outs[k].info.crtcs == [crtcs[0].xid]
    requires outs[0].xid in outs[1].info.clones
    ensures Search(p, []).1 == [Some(0), Some(0)]
  {
    forall k | 0 <= k < 2 ensures p[k].lit && p[k].options == [Some(0)] && 0 in p[k].fits {
      assert p[k] == Demanded(modes, crtcs, outs[k]);
      assert FindCrtc(crtcs, crtcs[0].xid) == Some(0);
      assert p[k].options[0] == Some(0);
    }
    BothOnTheOne(p);
  }

  /** Both could be lit. */
  lemma {:induction false} BothLit(p: seq<Demand>, modes: seq<Mode>, outs: seq<Output>, crtcs: seq<Crtc>)
    requires |outs| == 2 && |crtcs| == 1 && Describes(p, modes, outs, crtcs)
    requires crtcs[0].outputs == [] && crtcs[0].info.outputs == []
    requires forall k :: 0 <= k < 2 ==> outs[k].mode.Some? && outs[k].info.crtcs == [crtcs[0].xid]
    requires outs[0].xid in outs[1].info.clones
    ensures AllKnown(p, 0) && Modes(p) <= 1000 && exists b :: Completes(p, [], b) && LightsAll(p, b)
  {
    forall k | 0 <= k < 2
      ensures p[k].lit && p[k].options == [Some(0)] && 0 in p[k].fits && p[k].options[0] == Some(0)
      ensures p[0].xid in p[1].clones
    {
      assert p[0] == Demanded(modes, crtcs, outs[0]) && p[1] == Demanded(modes, crtcs, outs[1]);
      assert FindCrtc(crtcs, crtcs[0].xid) == Some(0);
    }
    OnlyTwoCompletes(p, 0, 1, 0);
    assert LightsAll(p, OnlyTwo(2, 0, 1, 0));
    assert p[1..][1..] == [] && Modes(p[1..]) == 1;
  }

  lemma {:induction false} NoneUnknown(outs: seq<Output>, crtcs: seq<Crtc>)
    requires |crtcs| == 1 && forall k :: 0 <= k < |outs| ==> outs[k].info.crtcs == [crtcs[0].xid]
    ensures !ListsUnknown(outs, crtcs)
  {
    assert FindCrtc(crtcs, crtcs[0].xid) == Some(0);
  }

  /** What `pick_crtcs` promises where the outputs with a mode are to have a CRTC and list known ones. */
  method PickKnown(modes: seq<Mode>, outs: seq<Output>, crtcs: seq<Crtc>) returns (r: Picked, ghost p: Option<seq<Demand>>)
    requires Distinct(outs) && !ListsUnknown(outs, crtcs)
    requires forall k :: 0 <= k < |outs| && outs[k].crtc.Some? ==> outs[k].crtc.value < |crtcs|
    requires forall k :: 0 <= k < |outs| ==> outs[k].mode.Some? && (outs[k].changes != {} || outs[k].crtc.Some?)
    modifies outs`crtc, outs`currentCrtc, outs`changes
    ensures r.Done? ==> forall k :: 0 <= k < |outs| ==> outs[k].crtc.Some? && outs[k].crtc.value < |crtcs|
    ensures p.None? ==> r.Done?
    ensures p.Some? ==> Describes(p.value, modes, outs, crtcs)
    ensures p.Some? && AllKnown(p.value, 0) && Modes(p.value) <= 1000 ==>
      (r.Done? <==> exists b :: Completes(p.value, [], b) && LightsAll(p.value, b))
  {
    r, p := PickCrtcs.PickCrtcs(modes, outs, crtcs);
  }

  /** `pick_crtcs` puts them there, whichever way it takes. */
  method IdleCrtcIsShared(modes: seq<Mode>, outs: seq<Output>, crtcs: seq<Crtc>) returns (r: Picked)
    requires |outs| == 2 && |crtcs| == 1 && Distinct(outs)
    requires crtcs[0].outputs == [] && crtcs[0].info.outputs == []
    requires forall k :: 0 <= k < 2 ==> outs[k].mode.Some? && outs[k].info.crtcs == [crtcs[0].xid]
    requires forall k :: 0 <= k < 2 ==> (outs[k].changes != {} || outs[k].crtc.Some?) && (outs[k].crtc.Some? ==> outs[k].crtc.value == 0)
    requires outs[0].xid in outs[1].info.clones
    modifies outs`crtc, outs`currentCrtc, outs`changes
    ensures r.Done? && forall k :: 0 <= k < 2 ==> outs[k].crtc == Some(0)
  {
    ghost var p;
    NoneUnknown(outs, crtcs);
    r, p := PickKnown(modes, outs, crtcs);
    if p.Some? { BothLit(p.value, modes, outs, crtcs); }
  }
}
