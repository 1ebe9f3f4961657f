/** `check_crtc_for_output`, `disable_outputs`, `pick_crtcs_score` and `pick_crtcs` on the
    outputs and CRTCs themselves. */
module PickCrtcs {
  import opened RandrState
  import opened CrtcSearch

  /** What the CRTC choice may rely on: the outputs are different objects, as nodes of one list. */
  ghost predicate Ready(outs: seq<Output>) {
    Distinct(outs)
  }

  /** The state test of `check_crtc_for_output`: a CRTC already planned must agree with the output
      on mode, position, rotation and transform; one in use on the server on the first three. */
  predicate StateMatches(modes: seq<Mode>, crtc: Crtc, output: Output)
    reads crtc`outputs, crtc`mode, crtc`x, crtc`y, crtc`rotation
    reads output`mode, output`x, output`y, output`rotation, output`transform
  {
    if |crtc.outputs| > 0 then
      && crtc.mode == output.mode
      && crtc.x == output.x
      && crtc.y == output.y
      && crtc.rotation == output.rotation
      && crtc.currentTransform == output.transform
    else if |crtc.info.outputs| > 0 then
      && FindMode(modes, crtc.info.mode) == output.mode
      && crtc.info.x == output.x
      && crtc.info.y == output.y
      && crtc.info.rotation == output.rotation
    else
      true
  }

  /** What the search reads of an output, with its CRTC ids looked up. */
  function Demanded(modes: seq<Mode>, crtcs: seq<Crtc>, o: Output): Demand
    reads o`mode, o`x, o`y, o`rotation, o`transform, o`currentCrtc
    reads crtcs`outputs, crtcs`mode, crtcs`x, crtcs`y, crtcs`rotation
  {
    DemandedKeeping(modes, crtcs, o, o.currentCrtc)
  }

  /** The same, when `current` is the CRTC to be kept. */
  function DemandedKeeping(modes: seq<Mode>, crtcs: seq<Crtc>, o: Output, current: Option<nat>): Demand
    reads o`mode, o`x, o`y, o`rotation, o`transform
    reads crtcs`outputs, crtcs`mode, crtcs`x, crtcs`y, crtcs`rotation
  {
    Demand(o.xid, o.mode.Some?,
           seq(|o.info.crtcs|, i requires 0 <= i < |o.info.crtcs| => FindCrtc(crtcs, o.info.crtcs[i])),
           (set c | 0 <= c < |crtcs| && StateMatches(modes, crtcs[c], o)),
           o.info.clones, current)
  }

  /** `p` is what the search reads of the outputs. */
  ghost predicate Describes(p: seq<Demand>, modes: seq<Mode>, outs: seq<Output>, crtcs: seq<Crtc>)
    reads outs`mode, outs`x, outs`y, outs`rotation, outs`transform, outs`currentCrtc
    reads crtcs`outputs, crtcs`mode, crtcs`x, crtcs`y, crtcs`rotation
  {
    |p| == |outs| && forall k :: 0 <= k < |p| ==> p[k] == Demanded(modes, crtcs, outs[k])
  }

  /** The first outputs are where `a` says. */
  ghost predicate At(outs: seq<Output>, a: Assignment)
    reads outs`crtc
  {
    |a| <= |outs| && forall k :: 0 <= k < |a| ==> outs[k].crtc == a[k]
  }

  /** Whether output `k` could be put on CRTC `c` with every other output left where it is. */
  predicate CanUse(modes: seq<Mode>, outs: seq<Output>, crtcs: seq<Crtc>, c: nat, k: nat)
    requires c < |crtcs| && k < |outs|
    reads outs`mode, outs`crtc, outs`x, outs`y, outs`rotation, outs`transform
    reads crtcs`outputs, crtcs`mode, crtcs`x, crtcs`y, crtcs`rotation
  {
    && crtcs[c].xid in outs[k].info.crtcs
    && (forall j :: 0 <= j < |outs| && j != k && outs[j].mode.Some? && outs[j].crtc == Some(c)
          ==> outs[j].xid in outs[k].info.clones)
    && StateMatches(modes, crtcs[c], outs[k])
  }

  /** The mode, position and rotation asked for are the same. */
  ghost predicate ShowAlike(a: Output, b: Output)
    reads a`mode, a`x, a`y, a`rotation
    reads b`mode, b`x, b`y, b`rotation
  {
    a.mode == b.mode && a.x == b.x && a.y == b.y && a.rotation == b.rotation
  }

  /** The output has no marks and was loaded from CRTC `c`, which is on. */
  ghost predicate LoadedFrom(modes: seq<Mode>, crtcs: seq<Crtc>, o: Output, c: nat)
    requires c < |crtcs|
    reads o`changes, o`crtc, o`mode, o`x, o`y, o`rotation, o`transform
  {
    && o.changes == {} && AsLoaded(modes, crtcs, o)
    && o.info.crtc != 0 && FindCrtc(crtcs, o.info.crtc) == Some(c) && crtcs[c].info.mode != 0
  }

  /** The state of a CRTC in use on the server is that of an output loaded from it. */
  lemma InUseMatches(modes: seq<Mode>, crtcs: seq<Crtc>, c: nat, o: Output, u: Output)
    requires c < |crtcs| && crtcs[c].outputs == [] && crtcs[c].info.outputs != [] && LoadedFrom(modes, crtcs, u, c)
    ensures StateMatches(modes, crtcs[c], o) <==> ShowAlike(o, u)
  {
  }

  /** What the test means: a CRTC for which nothing is planned is compared only if it is in use, and then as it shows
      what is loaded from it; one that is planned is compared with the plan and its transform. */
  lemma {:induction false} CanUseIff(modes: seq<Mode>, outs: seq<Output>, crtcs: seq<Crtc>, c: nat, k: nat)
    requires c < |crtcs| && k < |outs|
    ensures crtcs[c].outputs == [] && crtcs[c].info.outputs == [] ==>
      (CanUse(modes, outs, crtcs, c, k) <==>
        && crtcs[c].xid in outs[k].info.crtcs
        && forall j :: 0 <= j < |outs| && j != k && outs[j].mode.Some? && outs[j].crtc == Some(c) ==>
             outs[j].xid in outs[k].info.clones)
    ensures crtcs[c].outputs == [] && crtcs[c].info.outputs != [] ==>
      forall u :: 0 <= u < |outs| && LoadedFrom(modes, crtcs, outs[u], c) ==>
        (CanUse(modes, outs, crtcs, c, k) <==>
          && crtcs[c].xid in outs[k].info.crtcs && ShowAlike(outs[k], outs[u])
          && forall j :: 0 <= j < |outs| && j != k && outs[j].mode.Some? && outs[j].crtc == Some(c) ==>
               outs[j].xid in outs[k].info.clones)
    ensures crtcs[c].outputs != [] ==>
      (CanUse(modes, outs, crtcs, c, k) <==>
        && crtcs[c].xid in outs[k].info.crtcs
        && crtcs[c].mode == outs[k].mode && crtcs[c].x == outs[k].x && crtcs[c].y == outs[k].y
        && crtcs[c].rotation == outs[k].rotation && crtcs[c].currentTransform == outs[k].transform
        && forall j :: 0 <= j < |outs| && j != k && outs[j].mode.Some? && outs[j].crtc == Some(c) ==>
             outs[j].xid in outs[k].info.clones)
  {
    if crtcs[c].outputs == [] && crtcs[c].info.outputs != [] {
      forall u | 0 <= u < |outs| && LoadedFrom(modes, crtcs, outs[u], c)
        ensures StateMatches(modes, crtcs[c], outs[k]) <==> ShowAlike(outs[k], outs[u])
      {
        InUseMatches(modes, crtcs, c, outs[k], outs[u]);
      }
    }
  }

  method CheckCrtcForOutput(modes: seq<Mode>, outs: seq<Output>, crtcs: seq<Crtc>, c: nat, k: nat)
    returns (ok: bool)
    requires Ready(outs) && c < |crtcs| && k < |outs|
    ensures ok == CanUse(modes, outs, crtcs, c, k)
  {
    var output := outs[k];
    if crtcs[c].xid !in output.info.crtcs { return false; }
    for j := 0 to |outs|
      invariant forall i :: 0 <= i < j && i != k && outs[i].mode.Some? && outs[i].crtc == Some(c)
                  ==> outs[i].xid in output.info.clones
    {
      var other := outs[j];
      if other != output && other.mode.Some? && other.crtc == Some(c) {
        if other.xid !in output.info.clones { return false; }
      }
    }
    return StateMatches(modes, crtcs[c], output);
  }

  method DisableOutputs(outs: seq<Output>, from: nat, ghost pre: Assignment)
    requires Ready(outs) && |pre| <= from <= |outs| && At(outs, pre)
    modifies outs[from..]`crtc
    ensures At(outs, pre)
    ensures forall k :: from <= k < |outs| ==> outs[k].crtc == None
  {
    for k := from to |outs|
      invariant At(outs, pre)
      invariant forall j :: from <= j < k ==> outs[j].crtc == None
    {
      outs[k].crtc := None;
    }
  }

  /** With the outputs after `k` off, the test on the outputs themselves is the one the search is
      specified by. */
  lemma CheckIsUsable(p: seq<Demand>, pre: Assignment, modes: seq<Mode>, outs: seq<Output>,
                      crtcs: seq<Crtc>, c: nat)
    requires Describes(p, modes, outs, crtcs) && At(outs, pre)
    requires |pre| < |outs| && c < |crtcs| && Some(c) in p[|pre|].options
    requires forall j :: |pre| < j < |outs| ==> outs[j].crtc == None
    ensures CanUse(modes, outs, crtcs, c, |pre|) <==> Usable(p, pre, |pre|, c)
  {
    var k := |pre|;
    var i :| 0 <= i < |p[k].options| && p[k].options[i] == Some(c);
    assert p[k].options[i] == FindCrtc(crtcs, outs[k].info.crtcs[i]);
    assert forall j :: 0 <= j < k ==> p[j].lit == outs[j].mode.Some? && p[j].xid == outs[j].xid;
  }

  /** The search over the outputs after the fixed ones `pre`. None is the fatal exit on a CRTC id
      the server does not have; otherwise the result and the outputs after `pre` are what
      `Search` says, whatever CRTCs those outputs had before. */
  method PickCrtcsScore(modes: seq<Mode>, outs: seq<Output>, crtcs: seq<Crtc>, i: nat,
                        ghost p: seq<Demand>, ghost pre: Assignment)
    returns (score: Option<nat>)
    requires Ready(outs) && Describes(p, modes, outs, crtcs)
    requires i == |pre| && At(outs, pre)
    modifies outs[i..]`crtc
    ensures Describes(p, modes, outs, crtcs)
    ensures score.Some? <==> AllKnown(p, i)
    ensures score.Some? ==> score.value == Search(p, pre).0 && At(outs, pre + Search(p, pre).1)
    decreases |outs| - i, 2, 0
  {
    if i == |outs| {
      assert pre + [] == pre;
      return Some(0);
    }
    score := TryWith(modes, outs, crtcs, i, None, p, pre);
    if score.None? { return; }
    assert forall k :: i < k < |p| ==> Known(p[k]);
    if outs[i].mode.None? { return; }
    var best: Option<nat>;
    score, best := TryCrtcs(modes, outs, crtcs, i, score.value, p, pre);
    if score.Some? {
      var _ := TryWith(modes, outs, crtcs, i, best, p, pre);
    }
  }

  /** Put output `i` on a CRTC and search on from the next output. */
  method TryWith(modes: seq<Mode>, outs: seq<Output>, crtcs: seq<Crtc>, i: nat, choice: Option<nat>,
                 ghost p: seq<Demand>, ghost pre: Assignment)
    returns (score: Option<nat>)
    requires Ready(outs) && Describes(p, modes, outs, crtcs)
    requires i == |pre| < |outs| && At(outs, pre)
    modifies outs[i..]`crtc
    ensures Describes(p, modes, outs, crtcs)
    ensures score.Some? <==> AllKnown(p, i + 1)
    ensures score.Some? ==>
      var found := Search(p, pre + [choice]);
      score.value == found.0 && At(outs, pre + ([choice] + found.1))
    decreases |outs| - i, 0, 0
  {
    outs[i].crtc := choice;
    score := PickCrtcsScore(modes, outs, crtcs, i + 1, p, pre + [choice]);
    if score.Some? {
      assert pre + ([choice] + Search(p, pre + [choice]).1) == (pre + [choice]) + Search(p, pre + [choice]).1;
    }
  }

  /** The loop of the search over the CRTCs listed for output `i`. */
  method TryCrtcs(modes: seq<Mode>, outs: seq<Output>, crtcs: seq<Crtc>, i: nat, off: nat,
                  ghost p: seq<Demand>, ghost pre: Assignment)
    returns (score: Option<nat>, choice: Option<nat>)
    requires Ready(outs) && Describes(p, modes, outs, crtcs)
    requires i == |pre| < |outs| && At(outs, pre)
    requires p[i].lit && AllKnown(p, i + 1)
    modifies outs[i..]`crtc
    ensures Describes(p, modes, outs, crtcs) && At(outs, pre)
    ensures score.Some? <==> Known(p[i])
    ensures score.Some? ==> (score.value, choice) == Choose(p, pre, 0, off, None)
    decreases |outs| - i, 1, 0
  {
    var best := off;
    choice := None;
    for c := 0 to |outs[i].info.crtcs|
      invariant Describes(p, modes, outs, crtcs) && At(outs, pre)
      invariant forall j :: 0 <= j < c ==> p[i].options[j].Some?
      invariant Known(p[i]) ==> Choose(p, pre, c, best, choice) == Choose(p, pre, 0, off, None)
    {
      var crtc := FindCrtc(crtcs, outs[i].info.crtcs[c]);
      assert p[i].options[c] == crtc;
      if crtc.None? { return None, None; }
      best, choice := TryCrtc(modes, outs, crtcs, i, crtc.value, best, choice, p, pre);
    }
    score := Some(best);
  }

  /** One turn of that loop: keep the better of the choice so far and CRTC `crtc`. */
  method TryCrtc(modes: seq<Mode>, outs: seq<Output>, crtcs: seq<Crtc>, i: nat, crtc: nat,
                 score: nat, choice: Option<nat>, ghost p: seq<Demand>, ghost pre: Assignment)
    returns (score': nat, choice': Option<nat>)
    requires Ready(outs) && Describes(p, modes, outs, crtcs)
    requires i == |pre| < |outs| && At(outs, pre) && crtc < |crtcs|
    requires AllKnown(p, i + 1) && Some(crtc) in p[i].options
    modifies outs[i..]`crtc
    ensures Describes(p, modes, outs, crtcs) && At(outs, pre)
    ensures Known(p[i]) ==> (score', choice') == Better(p, pre, crtc, score, choice)
    decreases |outs| - i, 0, 1
  {
    DisableOutputs(outs, i + 1, pre);
    CheckIsUsable(p, pre, modes, outs, crtcs, crtc);
    var ok := CheckCrtcForOutput(modes, outs, crtcs, crtc, i);
    score', choice' := score, choice;
    assert Known(p[i]) ==> AllKnown(p, i);
    if ok {
      var myScore := if outs[i].currentCrtc == Some(crtc) then 1001 else 1000;
      assert myScore == Gain(p[i], Some(crtc));
      var rest := TryWith(modes, outs, crtcs, i, Some(crtc), p, pre);
      if myScore + rest.value > score {
        score', choice' := myScore + rest.value, Some(crtc);
      }
    }
  }

  // ----- The whole choice -----

  /** The first output with the given id (`find_output_by_xid`). */
  function FindOutput(outs: seq<Output>, xid: Xid): (r: Option<nat>)
    ensures r.Some? ==> r.value < |outs| && outs[r.value].xid == xid
    ensures r.None? ==> forall k :: 0 <= k < |outs| ==> outs[k].xid != xid
  {
    if outs == [] then None
    else if outs[0].xid == xid then Some(0)
    else
      match FindOutput(outs[1..], xid)
      case None => None
      case Some(k) => Some(k + 1)
  }

  datatype Found = UnknownId | NoneUsable | First(crtc: nat)

  /** None of the first `i` CRTCs listed for output `k` can be used for it as things stand. */
  ghost predicate NoneUsableBefore(modes: seq<Mode>, outs: seq<Output>, crtcs: seq<Crtc>, k: nat, i: nat)
    requires k < |outs| && i <= |outs[k].info.crtcs|
    reads outs`mode, outs`crtc, outs`x, outs`y, outs`rotation, outs`transform, outs`currentCrtc
    reads crtcs`outputs, crtcs`mode, crtcs`x, crtcs`y, crtcs`rotation
  {
    forall j :: 0 <= j < i ==>
      var c := FindCrtc(crtcs, outs[k].info.crtcs[j]);
      c.Some? && !CanUse(modes, outs, crtcs, c.value, k)
  }

  ghost predicate IsFirstUsable(modes: seq<Mode>, outs: seq<Output>, crtcs: seq<Crtc>, k: nat, c: nat)
    requires k < |outs|
    reads outs`mode, outs`crtc, outs`x, outs`y, outs`rotation, outs`transform, outs`currentCrtc
    reads crtcs`outputs, crtcs`mode, crtcs`x, crtcs`y, crtcs`rotation
  {
    exists i :: 0 <= i < |outs[k].info.crtcs| && NoneUsableBefore(modes, outs, crtcs, k, i)
      && FindCrtc(crtcs, outs[k].info.crtcs[i]) == Some(c)
  }

  /** The first CRTC in the output's own list that it can use as things stand. */
  method FindCrtcForOutput(modes: seq<Mode>, outs: seq<Output>, crtcs: seq<Crtc>, k: nat)
    returns (r: Found)
    requires Ready(outs) && k < |outs|
    ensures r.First? ==>
      && r.crtc < |crtcs| && CanUse(modes, outs, crtcs, r.crtc, k)
      && IsFirstUsable(modes, outs, crtcs, k, r.crtc)
    ensures r.NoneUsable? ==> NoneUsableBefore(modes, outs, crtcs, k, |outs[k].info.crtcs|)
    ensures r.UnknownId? ==> exists id :: id in outs[k].info.crtcs && FindCrtc(crtcs, id).None?
  {
    for i := 0 to |outs[k].info.crtcs|
      invariant NoneUsableBefore(modes, outs, crtcs, k, i)
    {
      var c := FindCrtc(crtcs, outs[k].info.crtcs[i]);
      if c.None? { return UnknownId; }
      var ok := CheckCrtcForOutput(modes, outs, crtcs, c.value, k);
      if ok { return First(c.value); }
    }
    return NoneUsable;
  }

  predicate Changing(o: Output)
    reads o`changes, o`mode
  {
    o.changes != {} && o.mode.Some?
  }

  /** Somebody else is using, on the server, the CRTC this output is to have. */
  predicate TakenByOther(outs: seq<Output>, crtcs: seq<Crtc>, k: nat, c: nat)
    requires c < |crtcs|
  {
    var users := crtcs[c].info.outputs;
    |users| > 0 && (|users| > 1 || FindOutput(outs, users[0]) != Some(k))
  }

  /** No two outputs have one id, and no CRTC lists an output twice. */
  ghost predicate UniqueIds(outs: seq<Output>, crtcs: seq<Crtc>) {
    && (forall i, j :: 0 <= i < j < |outs| ==> outs[i].xid != outs[j].xid)
    && forall c, i, j :: 0 <= c < |crtcs| && 0 <= i < j < |crtcs[c].info.outputs| ==>
         crtcs[c].info.outputs[i] != crtcs[c].info.outputs[j]
  }

  /** Where ids are unique: the server lists another output on it. */
  lemma TakenIff(outs: seq<Output>, crtcs: seq<Crtc>, k: nat, c: nat)
    requires c < |crtcs| && k < |outs| && UniqueIds(outs, crtcs)
    ensures TakenByOther(outs, crtcs, k, c) <==> exists id :: id in crtcs[c].info.outputs && id != outs[k].xid
  {
    var users := crtcs[c].info.outputs;
    if |users| > 1 {
      assert users[0] in users && users[1] in users && users[0] != users[1];
    } else if |users| == 1 {
      assert users[0] in users;
      assert FindOutput(outs, users[0]) == Some(k) <==> users[0] == outs[k].xid;
    }
  }

  predicate CanShare(a: Output, b: Output) {
    a.xid in b.info.clones || b.xid in a.info.clones
  }

  /** Output `k` has a CRTC that is listed for it and whose state it matches. */
  predicate OwnMatch(modes: seq<Mode>, outs: seq<Output>, crtcs: seq<Crtc>, k: nat)
    requires k < |outs|
    reads outs`mode, outs`crtc, outs`x, outs`y, outs`rotation, outs`transform
    reads crtcs`outputs, crtcs`mode, crtcs`x, crtcs`y, crtcs`rotation
  {
    && outs[k].crtc.Some? && outs[k].crtc.value < |crtcs|
    && crtcs[outs[k].crtc.value].xid in outs[k].info.crtcs
    && StateMatches(modes, crtcs[outs[k].crtc.value], outs[k])
  }

  /** Output `k` can clone output `j`, if that one is earlier and on the same CRTC; a later one and it
      can clone one another one way or the other. */
  predicate PairMatch(outs: seq<Output>, k: nat, j: nat)
    requires k < |outs| && j < |outs|
    reads outs`mode, outs`crtc
  {
    j != k && outs[j].mode.Some? && outs[j].crtc == outs[k].crtc ==>
      if j < k then outs[j].xid in outs[k].info.clones else CanShare(outs[j], outs[k])
  }

  /** What the fast path promises of an output it gave a CRTC. */
  ghost predicate WellChosen(modes: seq<Mode>, outs: seq<Output>, crtcs: seq<Crtc>, k: nat)
    requires k < |outs|
    reads outs`mode, outs`crtc, outs`x, outs`y, outs`rotation, outs`transform
    reads crtcs`outputs, crtcs`mode, crtcs`x, crtcs`y, crtcs`rotation
  {
    OwnMatch(modes, outs, crtcs, k) && forall j :: 0 <= j < |outs| ==> PairMatch(outs, k, j)
  }

  datatype Fast = Happy | GiveUp | Unknown

  /** Some output lists a CRTC that the server does not have. */
  ghost predicate ListsUnknown(outs: seq<Output>, crtcs: seq<Crtc>) {
    exists k, id :: 0 <= k < |outs| && id in outs[k].info.crtcs && FindCrtc(crtcs, id).None?
  }

  /** An output that need not be placed: if it changes, it has a CRTC that nobody else uses. */
  ghost predicate KeepsOwn(outs: seq<Output>, crtcs: seq<Crtc>, k: nat, was: Option<nat>)
    requires k < |outs|
    reads outs`changes, outs`mode
  {
    Changing(outs[k]) ==> was.Some? && was.value < |crtcs| && !TakenByOther(outs, crtcs, k, was.value)
  }

  /** One turn of the first loop of `pick_crtcs`. */
  method FastTurn(modes: seq<Mode>, outs: seq<Output>, crtcs: seq<Crtc>, i: nat) returns (r: Fast)
    requires Ready(outs) && i < |outs| && (outs[i].crtc.Some? ==> outs[i].crtc.value < |crtcs|)
    modifies {outs[i]}`crtc
    ensures old(outs[i].crtc).Some? || !Changing(outs[i]) || !r.Happy? ==> outs[i].crtc == old(outs[i].crtc)
    ensures Changing(outs[i]) && old(outs[i].crtc).Some? ==>
      r == if TakenByOther(outs, crtcs, i, outs[i].crtc.value) then GiveUp else Happy
    // with unique ids it gives up exactly when the server lists another output on the CRTC
    ensures outs[i].changes != {} && outs[i].mode.Some? && old(outs[i].crtc).Some? && UniqueIds(outs, crtcs) ==>
      (r.GiveUp? <==> exists id :: id in crtcs[old(outs[i].crtc).value].info.outputs && id != outs[i].xid)
    ensures Changing(outs[i]) && old(outs[i].crtc).None? && r.Happy? ==>
      outs[i].crtc.Some? && outs[i].crtc.value < |crtcs| && CanUse(modes, outs, crtcs, outs[i].crtc.value, i)
    ensures Changing(outs[i]) && old(outs[i].crtc).None? && r.Happy? ==>
      var c := outs[i].crtc.value; old(IsFirstUsable(modes, outs, crtcs, i, c))
    ensures Changing(outs[i]) && old(outs[i].crtc).None? && r.GiveUp? ==>
      NoneUsableBefore(modes, outs, crtcs, i, |outs[i].info.crtcs|)
    ensures r.Unknown? ==> exists id :: id in outs[i].info.crtcs && FindCrtc(crtcs, id).None?
    ensures !Changing(outs[i]) ==> r.Happy?
  {
    if !Changing(outs[i]) { return Happy; }
    if outs[i].crtc.Some? {
      if UniqueIds(outs, crtcs) { TakenIff(outs, crtcs, i, outs[i].crtc.value); }
      return if TakenByOther(outs, crtcs, i, outs[i].crtc.value) then GiveUp else Happy;
    }
    var found := FindCrtcForOutput(modes, outs, crtcs, i);
    if found.UnknownId? { return Unknown; }
    if found.NoneUsable? { return GiveUp; }
    outs[i].crtc := Some(found.crtc);
    return Happy;
  }

  /** What is known of output `k` once it has had its turn. */
  ghost predicate HadTurn(modes: seq<Mode>, outs: seq<Output>, crtcs: seq<Crtc>, k: nat, was: Option<nat>)
    requires k < |outs|
    reads outs`mode, outs`crtc, outs`x, outs`y, outs`rotation, outs`transform, outs`changes
    reads crtcs`outputs, crtcs`mode, crtcs`x, crtcs`y, crtcs`rotation
  {
    if !Changing(outs[k]) then outs[k].crtc == was
    else if was.Some? then
      outs[k].crtc == was && was.value < |crtcs| && !TakenByOther(outs, crtcs, k, was.value)
    else WellChosen(modes, outs, crtcs, k)
  }

  /** The same turn: what is known of the outputs before stays known. */
  method FastNext(modes: seq<Mode>, outs: seq<Output>, crtcs: seq<Crtc>, i: nat, ghost was: seq<Option<nat>>) returns (r: Fast)
    requires Ready(outs) && i < |outs| == |was| && outs[i].crtc == was[i] && (was[i].Some? ==> was[i].value < |crtcs|)
    requires forall k :: 0 <= k < i ==> HadTurn(modes, outs, crtcs, k, was[k])
    modifies {outs[i]}`crtc
    ensures !r.Happy? ==> outs[i].crtc == was[i]
    ensures KeepsOwn(outs, crtcs, i, was[i]) ==> r.Happy?
    ensures r.Unknown? ==> ListsUnknown(outs, crtcs)
    ensures forall k :: 0 <= k < |outs| && (k < i || (k == i && r.Happy?)) ==> HadTurn(modes, outs, crtcs, k, was[k])
  {
    r := FastTurn(modes, outs, crtcs, i);
    if !r.Happy? { return; }
    forall k | 0 <= k < i ensures HadTurn(modes, outs, crtcs, k, was[k]) {
      assert old(HadTurn(modes, outs, crtcs, k, was[k]));
      if Changing(outs[k]) && was[k].None? {
        forall j | 0 <= j < |outs| ensures PairMatch(outs, k, j) {
          assert old(PairMatch(outs, k, j));
        }
      }
    }
  }

  /** The first loop of `pick_crtcs`: give each changing output without a CRTC the first one it
      can use, and give up at the first output for which that does not work. */
  method FastPick(modes: seq<Mode>, outs: seq<Output>, crtcs: seq<Crtc>) returns (r: Fast)
    requires Ready(outs)
    requires forall k :: 0 <= k < |outs| && outs[k].crtc.Some? ==> outs[k].crtc.value < |crtcs|
    modifies outs`crtc
    ensures forall k :: 0 <= k < |outs| ==>
      HadTurn(modes, outs, crtcs, k, old(outs[k].crtc)) || outs[k].crtc == old(outs[k].crtc)
    ensures r.Happy? ==> forall k :: 0 <= k < |outs| ==> HadTurn(modes, outs, crtcs, k, old(outs[k].crtc))
    ensures (forall k :: 0 <= k < |outs| ==> KeepsOwn(outs, crtcs, k, old(outs[k].crtc))) ==> r.Happy?
    ensures r.Unknown? ==> ListsUnknown(outs, crtcs)
  {
    ghost var was := seq(|outs|, k requires 0 <= k < |outs| reads outs => outs[k].crtc);
    for i := 0 to |outs|
      invariant forall k :: i <= k < |outs| ==> outs[k].crtc == was[k]
      invariant forall k :: 0 <= k < i ==> HadTurn(modes, outs, crtcs, k, was[k])
    {
      r := FastNext(modes, outs, crtcs, i, was);
      if !r.Happy? { return; }
    }
    return Happy;
  }

  datatype Picked = Done | NoCrtcFor(output: nat) | UnknownCrtcId

  ghost function Demands(modes: seq<Mode>, outs: seq<Output>, crtcs: seq<Crtc>): (p: seq<Demand>)
    reads outs, crtcs
    ensures Describes(p, modes, outs, crtcs)
  {
    seq(|outs|, k requires 0 <= k < |outs| reads outs, crtcs => Demanded(modes, crtcs, outs[k]))
  }

  /** The change bits of an output once the search has moved it or left it alone. */
  predicate Marked(before: set<Change>, moved: bool, after: set<Change>) {
    after == if before == {} && moved then {CrtcChange} else before
  }

  /** The last loop of `pick_crtcs`: refuse an output left without a CRTC, and mark the
      unmarked outputs that the search has moved. */
  method MarkMoved(modes: seq<Mode>, outs: seq<Output>, crtcs: seq<Crtc>,
                   ghost p: seq<Demand>, ghost at: Assignment)
    returns (dark: Option<nat>)
    requires Ready(outs) && Describes(p, modes, outs, crtcs) && |at| == |outs| && At(outs, at)
    modifies outs`changes
    ensures Describes(p, modes, outs, crtcs) && At(outs, at)
    ensures dark.None? <==> LightsAll(p, at)
    ensures dark.None? ==> forall k :: 0 <= k < |outs| ==>
      Marked(old(outs[k].changes), outs[k].crtc != outs[k].currentCrtc, outs[k].changes)
  {
    for i := 0 to |outs|
      invariant forall k :: 0 <= k < i && outs[k].mode.Some? ==> outs[k].crtc.Some?
      invariant forall k :: 0 <= k < i ==>
                  Marked(old(outs[k].changes), outs[k].crtc != outs[k].currentCrtc, outs[k].changes)
      invariant forall k :: i <= k < |outs| ==> outs[k].changes == old(outs[k].changes)
    {
      if outs[i].mode.Some? && outs[i].crtc.None? {
        assert p[i].lit && at[i].None?;
        return Some(i);
      }
      if outs[i].changes == {} && outs[i].crtc != outs[i].currentCrtc {
        outs[i].changes := outs[i].changes + {CrtcChange};
      }
    }
    return None;
  }

  /** The slow path of `pick_crtcs`. `p` is what the search was given. */
  method SearchPick(modes: seq<Mode>, outs: seq<Output>, crtcs: seq<Crtc>)
    returns (r: Picked, ghost p: seq<Demand>)
    requires Ready(outs)
    modifies outs`crtc, outs`currentCrtc, outs`changes
    ensures Describes(p, modes, outs, crtcs) && forall k :: 0 <= k < |outs| ==> p[k].current == old(outs[k].crtc)
    ensures r.UnknownCrtcId? <==> !AllKnown(p, 0)
    ensures r.Done? <==> AllKnown(p, 0) && LightsAll(p, Search(p, []).1)
    ensures r.Done? ==> At(outs, Search(p, []).1)
    ensures r.Done? ==> forall k :: 0 <= k < |outs| ==>
      Marked(old(outs[k].changes), outs[k].crtc != old(outs[k].crtc), outs[k].changes)
  {
    for i := 0 to |outs|
      modifies outs`currentCrtc
      invariant forall k :: 0 <= k < i ==> outs[k].currentCrtc == outs[k].crtc
    {
      outs[i].currentCrtc := outs[i].crtc;
    }
    p := Demands(modes, outs, crtcs);
    r := SearchAndMark(modes, outs, crtcs, p);
  }

  method SearchAndMark(modes: seq<Mode>, outs: seq<Output>, crtcs: seq<Crtc>, ghost p: seq<Demand>)
    returns (r: Picked)
    requires Ready(outs) && Describes(p, modes, outs, crtcs)
    modifies outs`crtc, outs`changes
    ensures Describes(p, modes, outs, crtcs)
    ensures r.UnknownCrtcId? <==> !AllKnown(p, 0)
    ensures r.Done? <==> AllKnown(p, 0) && LightsAll(p, Search(p, []).1)
    ensures r.Done? ==> At(outs, Search(p, []).1)
    ensures r.Done? ==> forall k :: 0 <= k < |outs| ==>
      Marked(old(outs[k].changes), outs[k].crtc != outs[k].currentCrtc, outs[k].changes)
  {
    var score := PickCrtcsScore(modes, outs, crtcs, 0, p, []);
    if score.None? { return UnknownCrtcId; }
    assert [] + Search(p, []).1 == Search(p, []).1;
    var dark := MarkMoved(modes, outs, crtcs, p, Search(p, []).1);
    return if dark.Some? then NoCrtcFor(dark.value) else Done;
  }

  /** `pick_crtcs`. `p` is None when the fast path worked, and otherwise what the search was
      given. */
  method PickCrtcs(modes: seq<Mode>, outs: seq<Output>, crtcs: seq<Crtc>)
    returns (r: Picked, ghost p: Option<seq<Demand>>)
    requires Ready(outs)
    requires forall k :: 0 <= k < |outs| && outs[k].crtc.Some? ==> outs[k].crtc.value < |crtcs|
    modifies outs`crtc, outs`currentCrtc, outs`changes
    // exactly the outputs that were unmarked and have moved are marked, as having changed their CRTC
    ensures r.Done? ==> forall k :: 0 <= k < |outs| ==>
      outs[k].changes == if old(outs[k].changes) == {} && outs[k].crtc != old(outs[k].crtc) then {CrtcChange} else old(outs[k].changes)
    ensures r.Done? ==> forall k :: 0 <= k < |outs| && outs[k].crtc.Some? ==> outs[k].crtc.value < |crtcs|
    ensures r.Done? ==> forall k :: 0 <= k < |outs| ==>
      outs[k].mode.Some? && (old(outs[k].changes) != {} || old(outs[k].crtc).Some?) ==> outs[k].crtc.Some?
    ensures p.None? ==> r.Done? || (r.UnknownCrtcId? && ListsUnknown(outs, crtcs))
    // the fast path
    ensures old(forall k :: 0 <= k < |outs| ==> KeepsOwn(outs, crtcs, k, outs[k].crtc)) ==> r.Done? && p.None?
    ensures r.Done? && p.None? ==> forall k :: 0 <= k < |outs| ==> HadTurn(modes, outs, crtcs, k, old(outs[k].crtc))
    // the search
    ensures p.Some? ==> Describes(p.value, modes, outs, crtcs)
    ensures p.Some? ==> (r.UnknownCrtcId? <==> !AllKnown(p.value, 0))
    ensures p.Some? && r.Done? ==>
      At(outs, Search(p.value, []).1) && LightsAll(p.value, Search(p.value, []).1)
    ensures p.Some? && AllKnown(p.value, 0) && Modes(p.value) <= 1000 ==>
      (r.Done? <==> exists b :: Completes(p.value, [], b) && LightsAll(p.value, b))
  {
    var fast := FastPick(modes, outs, crtcs);
    p := None;
    if fast.Unknown? { return UnknownCrtcId, p; }
    if fast.Happy? { return Done, p; }
    ghost var q: seq<Demand>;
    r, q := SearchPick(modes, outs, crtcs);
    p := Some(q);
    if r.Done? { SearchStaysInRange(q, modes, outs, crtcs); }
    if AllKnown(q, 0) && Modes(q) <= 1000 { SearchLightsAllIfPossible(q); }
  }

  lemma SearchStaysInRange(p: seq<Demand>, modes: seq<Mode>, outs: seq<Output>, crtcs: seq<Crtc>)
    requires Describes(p, modes, outs, crtcs) && AllKnown(p, 0) && At(outs, Search(p, []).1)
    ensures forall k :: 0 <= k < |outs| && outs[k].crtc.Some? ==> outs[k].crtc.value < |crtcs|
  {
    var best := Search(p, []).1;
    SearchIsFeasible(p, []);
    forall k | 0 <= k < |outs| && outs[k].crtc.Some? ensures outs[k].crtc.value < |crtcs| {
      assert ([] + best)[k] == outs[k].crtc;
      assert outs[k].crtc.value in p[k].fits;
    }
  }

  /** The CRTCs of the outputs with a mode. */
  ghost function Shown(outs: seq<Output>): (a: Assignment)
    reads outs
    ensures |a| == |outs|
    ensures forall k :: 0 <= k < |outs| ==> a[k] == if outs[k].mode.Some? then outs[k].crtc else None
  {
    seq(|outs|, k requires 0 <= k < |outs| reads outs => if outs[k].mode.Some? then outs[k].crtc else None)
  }

  /** An output that kept its CRTC could have been put there beside the earlier outputs. */
  ghost predicate KeptMatches(modes: seq<Mode>, outs: seq<Output>, crtcs: seq<Crtc>, k: nat)
    requires k < |outs|
    reads outs`mode, outs`crtc, outs`x, outs`y, outs`rotation, outs`transform
    reads crtcs`outputs, crtcs`mode, crtcs`x, crtcs`y, crtcs`rotation
  {
    OwnMatch(modes, outs, crtcs, k) && forall j :: 0 <= j < k ==> PairMatch(outs, k, j)
  }

  lemma {:induction false} MatchIsUsable(p: seq<Demand>, modes: seq<Mode>, outs: seq<Output>, crtcs: seq<Crtc>, k: nat)
    requires Describes(p, modes, outs, crtcs) && k < |outs| && outs[k].mode.Some? && outs[k].crtc.Some?
    requires forall c, d :: 0 <= c < d < |crtcs| ==> crtcs[c].xid != crtcs[d].xid
    ensures Usable(p, Shown(outs), k, outs[k].crtc.value) <==> KeptMatches(modes, outs, crtcs, k)
  {
    var a, c, ids := Shown(outs), outs[k].crtc.value, outs[k].info.crtcs;
    assert p[k] == Demanded(modes, crtcs, outs[k]);
    if Some(c) in p[k].options {
      var i :| 0 <= i < |ids| && p[k].options[i] == Some(c);
      assert FindCrtc(crtcs, ids[i]) == Some(c);
    }
    if c < |crtcs| && crtcs[c].xid in ids {
      var i :| 0 <= i < |ids| && ids[i] == crtcs[c].xid;
      assert p[k].options[i] == FindCrtc(crtcs, ids[i]) == Some(c);
    }
    forall j | 0 <= j < k
      ensures (p[j].lit && a[j] == Some(c) ==> p[j].xid in p[k].clones) <==> PairMatch(outs, k, j)
    {
      assert p[j] == Demanded(modes, crtcs, outs[j]);
    }
  }

  lemma TurnMatches(modes: seq<Mode>, outs: seq<Output>, crtcs: seq<Crtc>, k: nat, was: Option<nat>)
    requires k < |outs| && outs[k].crtc.Some? && outs[k].crtc != was && HadTurn(modes, outs, crtcs, k, was)
    ensures KeptMatches(modes, outs, crtcs, k)
  {
  }

  /** The CRTC output `k` has, if it has a mode, matches. */
  ghost predicate ShownMatches(modes: seq<Mode>, outs: seq<Output>, crtcs: seq<Crtc>, k: nat)
    requires k < |outs|
    reads outs`mode, outs`crtc, outs`x, outs`y, outs`rotation, outs`transform
    reads crtcs`outputs, crtcs`mode, crtcs`x, crtcs`y, crtcs`rotation
  {
    outs[k].mode.Some? && outs[k].crtc.Some? ==> KeptMatches(modes, outs, crtcs, k)
  }

  lemma {:induction false} FeasibleIfMatching(p: seq<Demand>, modes: seq<Mode>, outs: seq<Output>, crtcs: seq<Crtc>)
    requires Describes(p, modes, outs, crtcs)
    requires forall c, d :: 0 <= c < d < |crtcs| ==> crtcs[c].xid != crtcs[d].xid
    ensures Completes(p, [], Shown(outs)) <==> forall k :: 0 <= k < |outs| ==> ShownMatches(modes, outs, crtcs, k)
  {
    var a := Shown(outs);
    assert [] + a == a;
    forall k | 0 <= k < |outs|
      ensures (a[k].Some? ==> p[k].lit && Usable(p, a, k, a[k].value)) <==> ShownMatches(modes, outs, crtcs, k)
    {
      assert p[k] == Demanded(modes, crtcs, outs[k]);
      if a[k].Some? { MatchIsUsable(p, modes, outs, crtcs, k); }
    }
  }

  /** The CRTC `was` that output `k` had before can show it, and every earlier output with a mode that had
      the same one can be cloned by it. */
  ghost predicate AskedMatches(modes: seq<Mode>, outs: seq<Output>, crtcs: seq<Crtc>, was: seq<Option<nat>>, k: nat)
    requires |was| == |outs| && k < |outs| && was[k].Some?
    reads outs`mode, outs`x, outs`y, outs`rotation, outs`transform
    reads crtcs`outputs, crtcs`mode, crtcs`x, crtcs`y, crtcs`rotation
  {
    var c := was[k].value;
    && c < |crtcs| && crtcs[c].xid in outs[k].info.crtcs && StateMatches(modes, crtcs[c], outs[k])
    && forall j :: 0 <= j < k && outs[j].mode.Some? && was[j] == was[k] ==> outs[j].xid in outs[k].info.clones
  }

  ghost predicate SymmetricClones(outs: seq<Output>) {
    forall j, k :: 0 <= j < |outs| && 0 <= k < |outs| ==>
      (outs[j].xid in outs[k].info.clones <==> outs[k].xid in outs[j].info.clones)
  }

  /** Who was put on the CRTC of an output that kept its own was tested against it. */
  lemma {:induction false} KeptIsAsked(modes: seq<Mode>, outs: seq<Output>, crtcs: seq<Crtc>, was: seq<Option<nat>>, k: nat)
    requires |was| == |outs| && k < |outs| && outs[k].mode.Some? && was[k].Some? && SymmetricClones(outs)
    requires forall j :: 0 <= j < |outs| ==> HadTurn(modes, outs, crtcs, j, was[j])
    ensures outs[k].crtc == was[k] && (KeptMatches(modes, outs, crtcs, k) <==> AskedMatches(modes, outs, crtcs, was, k))
  {
    forall j | 0 <= j < k
      ensures PairMatch(outs, k, j) <==> (outs[j].mode.Some? && was[j] == was[k] ==> outs[j].xid in outs[k].info.clones)
    {
      assert HadTurn(modes, outs, crtcs, j, was[j]);
      if was[j] == None && outs[j].crtc == was[k] { assert PairMatch(outs, j, k); }
    }
  }

  /** The simple way leaves a feasible assignment if and only if the CRTCs that outputs had before match
      them and each other: these are never tested. */
  lemma {:induction false} FastFeasibleIff(p: seq<Demand>, modes: seq<Mode>, outs: seq<Output>, crtcs: seq<Crtc>,
                                          was: seq<Option<nat>>)
    requires Describes(p, modes, outs, crtcs) && |was| == |outs| && SymmetricClones(outs)
    requires forall k :: 0 <= k < |outs| ==> HadTurn(modes, outs, crtcs, k, was[k])
    requires forall c, d :: 0 <= c < d < |crtcs| ==> crtcs[c].xid != crtcs[d].xid
    ensures Completes(p, [], Shown(outs)) <==>
      forall k :: 0 <= k < |outs| && outs[k].mode.Some? && was[k].Some? ==> AskedMatches(modes, outs, crtcs, was, k)
  {
    FeasibleIfMatching(p, modes, outs, crtcs);
    forall k | 0 <= k < |outs|
      ensures ShownMatches(modes, outs, crtcs, k) <==>
        (outs[k].mode.Some? && was[k].Some? ==> AskedMatches(modes, outs, crtcs, was, k))
    {
      if outs[k].mode.Some? {
        if was[k].Some? {
          KeptIsAsked(modes, outs, crtcs, was, k);
        } else if outs[k].crtc.Some? {
          TurnMatches(modes, outs, crtcs, k, was[k]);
        }
      }
    }
  }

  /** Two outputs that cannot clone each other, asked onto one CRTC that nobody uses, both stay there,
      which is not feasible. */
  method UnclonableStay(modes: seq<Mode>, outs: seq<Output>, crtcs: seq<Crtc>) returns (r: Picked)
    requires |outs| == 2 && |crtcs| == 1 && Distinct(outs) && SymmetricClones(outs)
    requires outs[0].mode.Some? && outs[1].mode.Some? && outs[0].crtc == outs[1].crtc == Some(0)
    requires outs[0].xid !in outs[1].info.clones && crtcs[0].info.outputs == []
    modifies outs`crtc, outs`currentCrtc, outs`changes
    ensures r.Done? && outs[0].crtc == outs[1].crtc == Some(0)
    ensures forall p :: Describes(p, modes, outs, crtcs) ==> !Completes(p, [], Shown(outs))
  {
    ghost var q;
    r, q := PickCrtcs(modes, outs, crtcs);
    forall p | Describes(p, modes, outs, crtcs) ensures !Completes(p, [], Shown(outs)) {
      FeasibleIfMatching(p, modes, outs, crtcs);
      assert !PairMatch(outs, 1, 0) && !ShownMatches(modes, outs, crtcs, 1);
    }
  }

  // ----- Who can come onto one CRTC -----

  /** The CRTC is listed for the output, or the output was asked onto it. */
  predicate Reaches(o: Output, crtcs: seq<Crtc>, was: Option<nat>, c: nat)
    requires c < |crtcs|
  {
    crtcs[c].xid in o.info.crtcs || was == Some(c)
  }

  /** Two outputs, which had the CRTCs `was`, may come onto one CRTC: both reach it, and can clone one
      another or were both asked onto it. */
  ghost predicate MayShare(outs: seq<Output>, crtcs: seq<Crtc>, was: seq<Option<nat>>, j: nat, k: nat)
    requires |was| == |outs| && j < |outs| && k < |outs|
  {
    exists c :: 0 <= c < |crtcs| && Reaches(outs[j], crtcs, was[j], c) && Reaches(outs[k], crtcs, was[k], c)
      && (CanShare(outs[j], outs[k]) || was[j] == was[k] == Some(c))
  }

  lemma {:induction false} FastSharers(modes: seq<Mode>, outs: seq<Output>, crtcs: seq<Crtc>, was: seq<Option<nat>>, j: nat, k: nat)
    requires |was| == |outs| && j < k < |outs| && outs[j].mode.Some? && outs[k].mode.Some?
    requires HadTurn(modes, outs, crtcs, j, was[j]) && HadTurn(modes, outs, crtcs, k, was[k])
    requires outs[j].crtc == outs[k].crtc && outs[k].crtc.Some? && outs[k].crtc.value < |crtcs|
    ensures MayShare(outs, crtcs, was, j, k)
  {
    var c := outs[k].crtc.value;
    assert Reaches(outs[j], crtcs, was[j], c) && Reaches(outs[k], crtcs, was[k], c);
    if was[k] != Some(c) {
      assert PairMatch(outs, k, j);
    } else if was[j] != Some(c) {
      assert PairMatch(outs, j, k);
    }
  }

  lemma {:induction false} FeasibleSharers(p: seq<Demand>, b: Assignment, modes: seq<Mode>, outs: seq<Output>, crtcs: seq<Crtc>,
                                           was: seq<Option<nat>>, j: nat, k: nat)
    requires |was| == |outs| && j < k < |outs| && outs[j].mode.Some? && outs[k].mode.Some?
    requires Describes(p, modes, outs, crtcs) && Completes(p, [], b) && b[j] == b[k] && b[k].Some?
    ensures MayShare(outs, crtcs, was, j, k)
  {
    var c := b[k].value;
    ChosenIsUsable(p, b, j);
    ChosenIsUsable(p, b, k);
    ListedIfOption(p, modes, outs, crtcs, j, c);
    ListedIfOption(p, modes, outs, crtcs, k, c);
    assert Reaches(outs[j], crtcs, was[j], c) && Reaches(outs[k], crtcs, was[k], c);
  }

  lemma {:induction false} ChosenIsUsable(p: seq<Demand>, b: Assignment, k: nat)
    requires Completes(p, [], b) && k < |b| && b[k].Some?
    ensures Some(b[k].value) in p[k].options
    ensures forall j :: 0 <= j < k && p[j].lit && b[j] == b[k] ==> p[j].xid in p[k].clones
  {
    assert [] + b == b;
    assert Usable(p, b, k, b[k].value);
  }

  lemma {:induction false} ListedIfOption(p: seq<Demand>, modes: seq<Mode>, outs: seq<Output>, crtcs: seq<Crtc>, k: nat, c: nat)
    requires Describes(p, modes, outs, crtcs) && k < |outs| && Some(c) in p[k].options
    ensures c < |crtcs| && crtcs[c].xid in outs[k].info.crtcs
    ensures p[k].xid == outs[k].xid && p[k].clones == outs[k].info.clones && p[k].lit == outs[k].mode.Some?
  {
    assert p[k] == Demanded(modes, crtcs, outs[k]);
    var i :| 0 <= i < |p[k].options| && p[k].options[i] == Some(c);
    assert FindCrtc(crtcs, outs[k].info.crtcs[i]) == Some(c);
  }

  /** `pick_crtcs` puts only outputs on one CRTC that may share one. */
  method PickSharing(modes: seq<Mode>, outs: seq<Output>, crtcs: seq<Crtc>, ghost was: seq<Option<nat>>) returns (r: Picked)
    requires Ready(outs) && |was| == |outs| && forall k :: 0 <= k < |outs| ==> outs[k].crtc == was[k]
    requires forall k :: 0 <= k < |outs| && outs[k].crtc.Some? ==> outs[k].crtc.value < |crtcs|
    modifies outs`crtc, outs`currentCrtc, outs`changes
    ensures r.Done? ==> forall k :: 0 <= k < |outs| ==>
      && old(outs[k].changes) <= outs[k].changes && (outs[k].changes == {} ==> outs[k].crtc == was[k])
      && (outs[k].crtc.Some? ==> outs[k].crtc.value < |crtcs|)
      && (outs[k].mode.Some? && (old(outs[k].changes) != {} || was[k].Some?) ==> outs[k].crtc.Some?)
    ensures r.Done? ==> forall j, k :: 0 <= j < k < |outs| ==>
      outs[j].mode.Some? && outs[k].mode.Some? && outs[j].crtc == outs[k].crtc && outs[k].crtc.Some? ==>
        MayShare(outs, crtcs, was, j, k)
  {
    ghost var p;
    r, p := PickCrtcs(modes, outs, crtcs);
    if r.Done? {
      if p.Some? { SearchIsFeasible(p.value, []); }
      forall j, k | 0 <= j < k < |outs| && outs[j].mode.Some? && outs[k].mode.Some?
        && outs[j].crtc == outs[k].crtc && outs[k].crtc.Some?
        ensures MayShare(outs, crtcs, was, j, k)
      {
        if p.Some? {
          FeasibleSharers(p.value, Search(p.value, []).1, modes, outs, crtcs, was, j, k);
        } else {
          FastSharers(modes, outs, crtcs, was, j, k);
        }
      }
    }
  }
}
