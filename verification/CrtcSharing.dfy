/** Who may join a CRTC in use: the choice of CRTCs accepts what the server already shows, and outputs that
    ask for the same as one it shows. */
module CrtcSharing {
  import opened RandrState
  import opened CrtcSearch
  import opened PickCrtcs

  /** The output lists CRTC `c`, which is idle, or shows what the output asks for. */
  ghost predicate Admits(modes: seq<Mode>, outs: seq<Output>, crtcs: seq<Crtc>, c: nat, k: nat)
    requires k < |outs|
    reads outs
  {
    && outs[k].mode.Some? && c < |crtcs| && crtcs[c].xid in outs[k].info.crtcs
    && (crtcs[c].info.outputs == [] ||
        exists u :: 0 <= u < |outs| && LoadedFrom(modes, crtcs, outs[u], c) && ShowAlike(outs[k], outs[u]))
  }

  /** Every output that `b` lights is admitted, and can clone the earlier ones on its CRTC. */
  ghost predicate AllAdmitted(modes: seq<Mode>, outs: seq<Output>, crtcs: seq<Crtc>, b: Assignment)
    requires |b| == |outs|
    reads outs
  {
    && (forall k :: 0 <= k < |outs| && b[k].Some? ==> Admits(modes, outs, crtcs, b[k].value, k))
    && forall j, k :: 0 <= j < k < |outs| && outs[j].mode.Some? && b[k].Some? && b[j] == b[k] ==>
         outs[j].xid in outs[k].info.clones
  }

  /** Nothing is planned yet, ids are unique, and every CRTC in use shows an output without marks. */
  ghost predicate UsersLoaded(modes: seq<Mode>, outs: seq<Output>, crtcs: seq<Crtc>)
    reads outs, crtcs`outputs
  {
    && (forall c, d :: 0 <= c < d < |crtcs| ==> crtcs[c].xid != crtcs[d].xid)
    && (forall c :: 0 <= c < |crtcs| ==> crtcs[c].outputs == [])
    && forall c :: 0 <= c < |crtcs| && crtcs[c].info.outputs != [] ==>
         exists u :: 0 <= u < |outs| && LoadedFrom(modes, crtcs, outs[u], c)
  }

  /** `p` is what the search reads of the outputs, but for the CRTCs to be kept. */
  ghost predicate Reads(p: seq<Demand>, modes: seq<Mode>, outs: seq<Output>, crtcs: seq<Crtc>)
    reads outs`mode, outs`x, outs`y, outs`rotation, outs`transform
    reads crtcs`outputs, crtcs`mode, crtcs`x, crtcs`y, crtcs`rotation
  {
    |p| == |outs| && forall k :: 0 <= k < |p| ==> p[k] == DemandedKeeping(modes, crtcs, outs[k], p[k].current)
  }

  lemma {:induction false} OptionIfListed(p: seq<Demand>, modes: seq<Mode>, outs: seq<Output>, crtcs: seq<Crtc>, k: nat, c: nat)
    requires Reads(p, modes, outs, crtcs) && k < |outs| && c < |crtcs|
    requires forall c, d :: 0 <= c < d < |crtcs| ==> crtcs[c].xid != crtcs[d].xid
    ensures Some(c) in p[k].options <==> crtcs[c].xid in outs[k].info.crtcs
  {
    assert p[k] == DemandedKeeping(modes, crtcs, outs[k], p[k].current);
    if i :| 0 <= i < |p[k].options| && p[k].options[i] == Some(c) {
      assert FindCrtc(crtcs, outs[k].info.crtcs[i]) == Some(c);
    }
    if i :| 0 <= i < |outs[k].info.crtcs| && outs[k].info.crtcs[i] == crtcs[c].xid {
      assert FindCrtc(crtcs, outs[k].info.crtcs[i]) == Some(c);
      assert p[k].options[i] == Some(c);
    }
  }

  lemma {:induction false} FitsIfAlike(p: seq<Demand>, modes: seq<Mode>, outs: seq<Output>, crtcs: seq<Crtc>, k: nat, c: nat)
    requires Reads(p, modes, outs, crtcs) && k < |outs| && UsersLoaded(modes, outs, crtcs) && outs[k].mode.Some?
    ensures c in p[k].fits && Some(c) in p[k].options <==> Admits(modes, outs, crtcs, c, k)
  {
    assert p[k] == DemandedKeeping(modes, crtcs, outs[k], p[k].current);
    if c < |crtcs| {
      OptionIfListed(p, modes, outs, crtcs, k, c);
      forall u | 0 <= u < |outs| && LoadedFrom(modes, crtcs, outs[u], c) && crtcs[c].info.outputs != []
        ensures StateMatches(modes, crtcs[c], outs[k]) <==> ShowAlike(outs[k], outs[u])
      {
        InUseMatches(modes, crtcs, c, outs[k], outs[u]);
      }
    }
  }

  lemma {:induction false} UsableIffAdmitted(p: seq<Demand>, b: Assignment, modes: seq<Mode>, outs: seq<Output>, crtcs: seq<Crtc>, k: nat)
    requires Reads(p, modes, outs, crtcs) && UsersLoaded(modes, outs, crtcs) && |b| == |outs| && k < |outs| && b[k].Some?
    ensures p[k].lit && Usable(p, b, k, b[k].value) <==>
      Admits(modes, outs, crtcs, b[k].value, k) &&
      forall j :: 0 <= j < k && outs[j].mode.Some? && b[j] == b[k] ==> outs[j].xid in outs[k].info.clones
  {
    assert forall j :: 0 <= j <= k ==> p[j] == DemandedKeeping(modes, crtcs, outs[j], p[j].current);
    if outs[k].mode.Some? { FitsIfAlike(p, modes, outs, crtcs, k, b[k].value); }
  }

  /** The assignments that the search chooses among, where every CRTC in use shows an output without
      marks: exactly those that admit every output they light. */
  lemma {:induction false} FeasibleIffAdmitted(p: seq<Demand>, b: Assignment, modes: seq<Mode>, outs: seq<Output>, crtcs: seq<Crtc>)
    requires Reads(p, modes, outs, crtcs) && UsersLoaded(modes, outs, crtcs) && |b| == |outs|
    ensures Completes(p, [], b) <==> AllAdmitted(modes, outs, crtcs, b)
  {
    assert [] + b == b;
    forall k | 0 <= k < |outs| && b[k].Some?
      ensures p[k].lit && Usable(p, b, k, b[k].value) <==>
        Admits(modes, outs, crtcs, b[k].value, k) &&
        forall j :: 0 <= j < k && outs[j].mode.Some? && b[j] == b[k] ==> outs[j].xid in outs[k].info.clones
    {
      UsableIffAdmitted(p, b, modes, outs, crtcs, k);
    }
  }

  // ----- What the server shows -----

  /** Nothing was asked for: no output has a mark, and all are as the server reported. */
  ghost predicate NothingAsked(modes: seq<Mode>, outs: seq<Output>, crtcs: seq<Crtc>)
    reads outs, crtcs`outputs
  {
    && ConsistentServer(outs, crtcs)
    && (forall c :: 0 <= c < |crtcs| ==> crtcs[c].outputs == [])
    && (forall k :: 0 <= k < |outs| ==> outs[k].changes == {} && AsLoaded(modes, crtcs, outs[k]))
    && (forall k :: 0 <= k < |outs| && outs[k].info.crtc != 0 ==> outs[k].info.crtc in outs[k].info.crtcs)
    && (forall j, k :: 0 <= j < k < |outs| && outs[j].info.crtc == outs[k].info.crtc != 0 ==>
          outs[j].xid in outs[k].info.clones)
  }

  lemma {:induction false} ShownFrom(modes: seq<Mode>, outs: seq<Output>, crtcs: seq<Crtc>, k: nat)
    requires NothingAsked(modes, outs, crtcs) && k < |outs|
    ensures outs[k].mode.Some? <==> outs[k].info.crtc != 0
    ensures outs[k].mode.Some? ==>
      && outs[k].crtc.Some? && outs[k].crtc.value < |crtcs| && crtcs[outs[k].crtc.value].xid == outs[k].info.crtc
      && LoadedFrom(modes, crtcs, outs[k], outs[k].crtc.value)
  {
    assert AsLoaded(modes, crtcs, outs[k]);
    if outs[k].info.crtc != 0 {
      var c := outs[k].crtc.value;
      assert outs[k].xid in crtcs[c].info.outputs;
    }
  }

  lemma {:induction false} ShownAreLoaded(modes: seq<Mode>, outs: seq<Output>, crtcs: seq<Crtc>)
    requires NothingAsked(modes, outs, crtcs)
    ensures UsersLoaded(modes, outs, crtcs)
  {
    forall c | 0 <= c < |crtcs| && crtcs[c].info.outputs != []
      ensures exists u :: 0 <= u < |outs| && LoadedFrom(modes, crtcs, outs[u], c)
    {
      var id := crtcs[c].info.outputs[0];
      assert id in crtcs[c].info.outputs;
      var u :| 0 <= u < |outs| && outs[u].xid == id;
      assert outs[u].info.crtc == crtcs[c].xid;
      ShownFrom(modes, outs, crtcs, u);
    }
  }

  /** What the server shows is feasible. */
  lemma {:induction false} PresentIsFeasible(p: seq<Demand>, modes: seq<Mode>, outs: seq<Output>, crtcs: seq<Crtc>)
    requires Reads(p, modes, outs, crtcs) && NothingAsked(modes, outs, crtcs)
    ensures Completes(p, [], Shown(outs))
  {
    ShownAreLoaded(modes, outs, crtcs);
    ShownAreAdmitted(modes, outs, crtcs);
    FeasibleIffAdmitted(p, Shown(outs), modes, outs, crtcs);
  }

  lemma {:induction false} ShownAreAdmitted(modes: seq<Mode>, outs: seq<Output>, crtcs: seq<Crtc>)
    requires NothingAsked(modes, outs, crtcs)
    ensures AllAdmitted(modes, outs, crtcs, Shown(outs))
  {
    var b := Shown(outs);
    forall k | 0 <= k < |outs| && b[k].Some?
      ensures Admits(modes, outs, crtcs, b[k].value, k) && crtcs[b[k].value].xid == outs[k].info.crtc != 0
    {
      AdmittedWhereItIs(modes, outs, crtcs, k);
    }
  }

  lemma {:induction false} AdmittedWhereItIs(modes: seq<Mode>, outs: seq<Output>, crtcs: seq<Crtc>, k: nat)
    requires NothingAsked(modes, outs, crtcs) && k < |outs| && outs[k].mode.Some?
    ensures outs[k].crtc.Some? && Admits(modes, outs, crtcs, outs[k].crtc.value, k)
    ensures crtcs[outs[k].crtc.value].xid == outs[k].info.crtc != 0
  {
    ShownFrom(modes, outs, crtcs, k);
    assert ShowAlike(outs[k], outs[k]);
  }

  /** `a` lights all outputs with a mode where they are now. */
  ghost predicate LightsCurrent(p: seq<Demand>, a: Assignment) {
    |p| == |a| && forall k :: 0 <= k < |p| ==> if p[k].lit then a[k] == p[k].current && a[k].Some? else a[k] == None
  }

  lemma GainOfCurrent(d: Demand, kept: Option<nat>, other: Option<nat>)
    requires if d.lit then kept == d.current && kept.Some? else kept == None
    requires other.Some? ==> d.lit
    ensures Gain(d, other) <= Gain(d, kept) && (Gain(d, other) == Gain(d, kept) ==> other == kept)
  {
  }

  /** Such an assignment is the only one with its score. */
  lemma {:induction false} KeepingIsBest(p: seq<Demand>, a: Assignment, b: Assignment)
    requires LightsCurrent(p, a) && |b| == |p| && forall k :: 0 <= k < |p| && b[k].Some? ==> p[k].lit
    ensures Score(p, b) <= Score(p, a)
    ensures Score(p, b) == Score(p, a) ==> b == a
  {
    if p != [] {
      GainOfCurrent(p[0], a[0], b[0]);
      KeepingIsBest(p[1..], a[1..], b[1..]);
      if Score(p, b) == Score(p, a) { assert a == [a[0]] + a[1..] && b == [b[0]] + b[1..]; }
    }
  }

  /** The search leaves every output where the server shows it, however many there are. */
  lemma {:induction false} SearchKeepsPresent(p: seq<Demand>, modes: seq<Mode>, outs: seq<Output>, crtcs: seq<Crtc>)
    requires Reads(p, modes, outs, crtcs) && NothingAsked(modes, outs, crtcs) && AllKnown(p, 0)
    requires forall k :: 0 <= k < |outs| ==> p[k].current == outs[k].crtc
    ensures Search(p, []).1 == Shown(outs) && LightsAll(p, Search(p, []).1)
  {
    var a, b := Shown(outs), Search(p, []).1;
    PresentIsFeasible(p, modes, outs, crtcs);
    SearchIsFeasible(p, []);
    SearchIsBest(p, [], a);
    assert [] + b == b && p[0..] == p;
    forall k | 0 <= k < |p|
      ensures if p[k].lit then a[k] == p[k].current && a[k].Some? else a[k] == None
      ensures b[k].Some? ==> p[k].lit
    {
      assert p[k] == DemandedKeeping(modes, crtcs, outs[k], p[k].current);
      ShownFrom(modes, outs, crtcs, k);
    }
    KeepingIsBest(p, a, b);
  }

  lemma {:induction false} KnownIfListed(p: seq<Demand>, modes: seq<Mode>, outs: seq<Output>, crtcs: seq<Crtc>)
    requires Reads(p, modes, outs, crtcs) && !ListsUnknown(outs, crtcs)
    ensures AllKnown(p, 0)
  {
    forall k | 0 <= k < |p| ensures Known(p[k]) {
      assert p[k] == DemandedKeeping(modes, crtcs, outs[k], p[k].current);
      forall i | 0 <= i < |p[k].options| ensures p[k].options[i].Some? {
        assert outs[k].info.crtcs[i] in outs[k].info.crtcs;
      }
    }
  }

  /** What the search is given once the CRTCs of now are those to be kept. */
  ghost function Keeping(modes: seq<Mode>, outs: seq<Output>, crtcs: seq<Crtc>): (p: seq<Demand>)
    reads outs, crtcs
    ensures Reads(p, modes, outs, crtcs) && forall k :: 0 <= k < |outs| ==> p[k].current == outs[k].crtc
  {
    seq(|outs|, k requires 0 <= k < |outs| reads outs, crtcs =>
          DemandedKeeping(modes, crtcs, outs[k], outs[k].crtc))
  }

  /** The CRTCs to be kept do not decide what is feasible. */
  lemma {:induction false} SameFeasible(p: seq<Demand>, q: seq<Demand>, b: Assignment)
    requires |p| == |q| && forall k :: 0 <= k < |p| ==> p[k] == q[k].(current := p[k].current)
    ensures AllKnown(p, 0) <==> AllKnown(q, 0)
    ensures Completes(q, [], b) ==> Completes(p, [], b)
    ensures Modes(p) <= |p|
  {
    if Completes(q, [], b) {
      forall k | 0 <= k < |p| && ([] + b)[k].Some? ensures p[k].lit && Usable(p, [] + b, k, ([] + b)[k].value) {
        assert Usable(q, [] + b, k, ([] + b)[k].value);
      }
    }
    assert AllKnown(p, 0) ==> forall k :: 0 <= k < |q| ==> Known(p[k]) && Known(q[k]);
    assert AllKnown(q, 0) ==> forall k :: 0 <= k < |q| ==> Known(p[k]) && Known(q[k]);
    FewModes(p);
  }

  lemma {:induction false} FewModes(p: seq<Demand>)
    ensures Modes(p) <= |p|
  {
    if p != [] { FewModes(p[1..]); }
  }

  lemma DescribedAgain(p: seq<Demand>, q: seq<Demand>, modes: seq<Mode>, outs: seq<Output>, crtcs: seq<Crtc>)
    requires Describes(p, modes, outs, crtcs) && Reads(q, modes, outs, crtcs)
    ensures |p| == |q| && forall k :: 0 <= k < |p| ==> p[k] == q[k].(current := p[k].current)
  {
    forall k | 0 <= k < |p| ensures p[k] == q[k].(current := p[k].current) {
      assert p[k] == Demanded(modes, crtcs, outs[k]);
    }
  }

  /** So the slow way of choosing CRTCs changes nothing where nothing was asked for. */
  method SearchChangesNothing(modes: seq<Mode>, outs: seq<Output>, crtcs: seq<Crtc>) returns (r: Picked)
    requires NothingAsked(modes, outs, crtcs) && !ListsUnknown(outs, crtcs)
    modifies outs`crtc, outs`currentCrtc, outs`changes
    ensures r.Done? && forall k :: 0 <= k < |outs| ==> outs[k].crtc == old(outs[k].crtc) && outs[k].changes == {}
  {
    ghost var q, a, was := Keeping(modes, outs, crtcs), Shown(outs), outs;
    KnownIfListed(q, modes, outs, crtcs);
    SearchKeepsPresent(q, modes, outs, crtcs);
    forall k | 0 <= k < |outs| ensures a[k] == outs[k].crtc { ShownFrom(modes, outs, crtcs, k); }
    ghost var p;
    r, p := SearchPick(modes, outs, crtcs);
    DescribedAgain(p, q, modes, outs, crtcs);
    assert p == q;
  }

  /** Every output with a mode is lit by `b`, and admitted where it comes. */
  ghost predicate AdmitsAll(modes: seq<Mode>, outs: seq<Output>, crtcs: seq<Crtc>, b: Assignment)
    reads outs, crtcs`outputs
  {
    && UsersLoaded(modes, outs, crtcs) && |b| == |outs| && AllAdmitted(modes, outs, crtcs, b)
    && forall k :: 0 <= k < |outs| && outs[k].mode.Some? ==> b[k].Some?
  }

  /** There is a way to light all that is to be lit. */
  ghost predicate HasWay(q: seq<Demand>, b: Assignment) {
    |q| == |b| && AllKnown(q, 0) && Completes(q, [], b) && LightsAll(q, b)
  }

  lemma {:induction false} WayIsKnown(q: seq<Demand>, b: Assignment, modes: seq<Mode>, outs: seq<Output>, crtcs: seq<Crtc>)
    requires Reads(q, modes, outs, crtcs) && !ListsUnknown(outs, crtcs)
    requires AdmitsAll(modes, outs, crtcs, b)
    ensures HasWay(q, b)
  {
    KnownIfListed(q, modes, outs, crtcs);
    FeasibleIffAdmitted(q, b, modes, outs, crtcs);
  }

  lemma {:induction false} WayIsThere(p: seq<Demand>, q: seq<Demand>, b: Assignment, modes: seq<Mode>, outs: seq<Output>, crtcs: seq<Crtc>)
    requires Describes(p, modes, outs, crtcs) && Reads(q, modes, outs, crtcs) && HasWay(q, b)
    ensures HasWay(p, b) && Modes(p) <= |p|
  {
    DescribedAgain(p, q, modes, outs, crtcs);
    SameFeasible(p, q, b);
  }

  method PickOrSearch(modes: seq<Mode>, outs: seq<Output>, crtcs: seq<Crtc>) returns (r: Picked, ghost p: Option<seq<Demand>>)
    requires Distinct(outs) && !ListsUnknown(outs, crtcs)
    requires forall k :: 0 <= k < |outs| && outs[k].crtc.Some? ==> outs[k].crtc.value < |crtcs|
    modifies outs`crtc, outs`currentCrtc, outs`changes
    ensures p.None? ==> r.Done?
    ensures p.Some? ==> Describes(p.value, modes, outs, crtcs)
    ensures p.Some? && AllKnown(p.value, 0) && Modes(p.value) <= 1000 ==> (r.Done? <==> exists b :: HasWay(p.value, b))
  {
    r, p := PickCrtcs.PickCrtcs(modes, outs, crtcs);
    if p.Some? {
      assert forall b :: HasWay(p.value, b) <==> AllKnown(p.value, 0) && Completes(p.value, [], b) && LightsAll(p.value, b);
    }
  }

  method PickWithWay(modes: seq<Mode>, outs: seq<Output>, crtcs: seq<Crtc>, ghost q: seq<Demand>, ghost b: Assignment)
    returns (r: Picked)
    requires Distinct(outs) && !ListsUnknown(outs, crtcs) && |outs| <= 1000
    requires forall k :: 0 <= k < |outs| && outs[k].crtc.Some? ==> outs[k].crtc.value < |crtcs|
    requires Reads(q, modes, outs, crtcs) && HasWay(q, b)
    modifies outs`crtc, outs`currentCrtc, outs`changes
    ensures r.Done?
  {
    ghost var p;
    r, p := PickOrSearch(modes, outs, crtcs);
    if p.Some? { WayIsThere(p.value, q, b, modes, outs, crtcs); }
  }

  /** `pick_crtcs` accepts whatever can be admitted: if there is a way to light every output with a mode so that
      each is admitted where it comes, it succeeds. */
  method PickAdmitted(modes: seq<Mode>, outs: seq<Output>, crtcs: seq<Crtc>, ghost b: Assignment) returns (r: Picked)
    requires Distinct(outs) && !ListsUnknown(outs, crtcs)
    requires forall k :: 0 <= k < |outs| && outs[k].crtc.Some? ==> outs[k].crtc.value < |crtcs|
    requires |outs| <= 1000 && AdmitsAll(modes, outs, crtcs, b)
    modifies outs`crtc, outs`currentCrtc, outs`changes
    ensures r.Done?
  {
    ghost var q := Keeping(modes, outs, crtcs);
    WayIsKnown(q, b, modes, outs, crtcs);
    r := PickWithWay(modes, outs, crtcs, q, b);
  }
}
