/** The search for the best mapping from outputs to CRTCs (`pick_crtcs_score`).

    The search works in place on the `crtc` field of the outputs. `Search` is what it computes,
    as a function of the outputs before the suffix it works on; the lemmas prove that this is the
    best feasible completion. */
module CrtcSearch {
  import opened RandrState

  /** What the search reads of one output and never changes: whether it has a mode, the CRTCs
      the server lists for it (None where the id is unknown), those of them whose state it can
      share, the outputs it can clone, and the CRTC it has now. */
  datatype Demand = Demand(xid: Xid, lit: bool, options: seq<Option<nat>>, fits: set<nat>,
                           clones: seq<Xid>, current: Option<nat>)

  type Assignment = seq<Option<nat>>

  predicate Known(d: Demand) {
    d.lit ==> forall c :: 0 <= c < |d.options| ==> d.options[c].Some?
  }

  predicate AllKnown(p: seq<Demand>, from: nat) {
    forall k :: from <= k < |p| ==> Known(p[k])
  }

  // ----- What is being optimised -----

  /** Output `k` may sit on CRTC `c` when the outputs before it sit where `a` says: the clone
      test looks from the later output at the earlier ones only. */
  predicate Usable(p: seq<Demand>, a: Assignment, k: nat, c: nat)
    requires k < |p| && k <= |a|
  {
    && Some(c) in p[k].options
    && c in p[k].fits
    && forall j :: 0 <= j < k && p[j].lit && a[j] == Some(c) ==> p[j].xid in p[k].clones
  }

  /** `b` is a feasible way to go on after the fixed outputs `pre`. */
  predicate Completes(p: seq<Demand>, pre: Assignment, b: Assignment) {
    && |pre| + |b| == |p|
    && forall k :: |pre| <= k < |p| && (pre + b)[k].Some? ==>
         p[k].lit && Usable(p, pre + b, k, (pre + b)[k].value)
  }

  function Gain(d: Demand, choice: Option<nat>): nat {
    match choice
    case None => 0
    case Some(c) => if d.current == Some(c) then 1001 else 1000
  }

  /** The score of `b` for the outputs `p`, which it covers one for one. */
  function Score(p: seq<Demand>, b: Assignment): nat
    requires |p| == |b|
  {
    if b == [] then 0 else Gain(p[0], b[0]) + Score(p[1..], b[1..])
  }

  function Lit(b: Assignment): nat {
    if b == [] then 0 else (if b[0].Some? then 1 else 0) + Lit(b[1..])
  }

  function Kept(p: seq<Demand>, b: Assignment): nat
    requires |p| == |b|
  {
    if b == [] then 0
    else (if b[0].Some? && p[0].current == b[0] then 1 else 0) + Kept(p[1..], b[1..])
  }

  // ----- What the program computes -----

  /** The score the search returns and the assignment it leaves on the outputs after `pre`. */
  function Search(p: seq<Demand>, pre: Assignment): (r: (nat, Assignment))
    requires |pre| <= |p| && AllKnown(p, |pre|)
    ensures |pre| + |r.1| == |p|
    decreases |p| - |pre|, 2, 0
  {
    if |pre| == |p| then (0, [])
    else
      var off := Search(p, pre + [None]);
      if !p[|pre|].lit then (off.0, [None] + off.1)
      else
        var best := Choose(p, pre, 0, off.0, None);
        (best.0, [best.1] + Search(p, pre + [best.1]).1)
  }

  /** The loop over the CRTCs of the first output after `pre`, from the `c`th on, with the best
      score and choice so far. */
  function Choose(p: seq<Demand>, pre: Assignment, c: nat, score: nat, choice: Option<nat>): (nat, Option<nat>)
    requires |pre| < |p| && AllKnown(p, |pre|) && p[|pre|].lit && c <= |p[|pre|].options|
    decreases |p| - |pre|, 1, |p[|pre|].options| - c
  {
    var d := p[|pre|];
    if c == |d.options| then (score, choice)
    else
      var next := Better(p, pre, d.options[c].value, score, choice);
      Choose(p, pre, c + 1, next.0, next.1)
  }

  /** The better of the choice so far and CRTC `crtc`; a tie keeps the earlier choice. */
  function Better(p: seq<Demand>, pre: Assignment, crtc: nat, score: nat, choice: Option<nat>): (nat, Option<nat>)
    requires |pre| < |p| && AllKnown(p, |pre|)
    decreases |p| - |pre|, 0, 0
  {
    if !Usable(p, pre, |pre|, crtc) then (score, choice)
    else
      var s := Gain(p[|pre|], Some(crtc)) + Search(p, pre + [Some(crtc)]).0;
      if s > score then (s, Some(crtc)) else (score, choice)
  }

  /** The worth of choosing `choice` for the first output after `pre` and the best after that. */
  function Worth(p: seq<Demand>, pre: Assignment, choice: Option<nat>): nat
    requires |pre| < |p| && AllKnown(p, |pre|)
  {
    Gain(p[|pre|], choice) + Search(p, pre + [choice]).0
  }

  // ----- The search is optimal -----

  lemma {:induction false} ChooseIsBest(p: seq<Demand>, pre: Assignment, c: nat, score: nat, choice: Option<nat>)
    requires |pre| < |p| && AllKnown(p, |pre|) && p[|pre|].lit && c <= |p[|pre|].options|
    requires score == Worth(p, pre, choice)
    requires choice.Some? ==> Usable(p, pre, |pre|, choice.value)
    ensures var r := Choose(p, pre, c, score, choice);
      && r.0 == Worth(p, pre, r.1)
      && r.0 >= score
      && (r.1.Some? ==> Usable(p, pre, |pre|, r.1.value))
      && forall i :: c <= i < |p[|pre|].options| && Usable(p, pre, |pre|, p[|pre|].options[i].value)
            ==> r.0 >= Worth(p, pre, p[|pre|].options[i])
    decreases |p[|pre|].options| - c
  {
    var d := p[|pre|];
    if c < |d.options| {
      var crtc := d.options[c].value;
      assert d.options[c] == Some(crtc);
      if !Usable(p, pre, |pre|, crtc) {
        ChooseIsBest(p, pre, c + 1, score, choice);
      } else {
        var s := Worth(p, pre, Some(crtc));
        if s > score {
          ChooseIsBest(p, pre, c + 1, s, Some(crtc));
        } else {
          ChooseIsBest(p, pre, c + 1, score, choice);
        }
      }
    }
  }

  /** The `i`th CRTC listed for the first output after `pre` is usable and worth `score`, and none of those from `c`
      on before it is usable and worth as much. */
  predicate FirstWorth(p: seq<Demand>, pre: Assignment, c: nat, i: nat, score: nat)
    requires |pre| < |p| && AllKnown(p, |pre|) && p[|pre|].lit && c <= i < |p[|pre|].options|
  {
    var d := p[|pre|];
    && Usable(p, pre, |pre|, d.options[i].value) && Worth(p, pre, d.options[i]) == score
    && forall j :: c <= j < i && Usable(p, pre, |pre|, d.options[j].value) ==> Worth(p, pre, d.options[j]) < score
  }

  /** Among choices worth the same the earlier one is kept: the choice so far if none is worth more, and else the
      first listed of those worth the most. */
  lemma {:induction false} ChooseIsFirst(p: seq<Demand>, pre: Assignment, c: nat, score: nat, choice: Option<nat>)
    requires |pre| < |p| && AllKnown(p, |pre|) && p[|pre|].lit && c <= |p[|pre|].options|
    requires score == Worth(p, pre, choice) && (choice.Some? ==> Usable(p, pre, |pre|, choice.value))
    ensures var r := Choose(p, pre, c, score, choice); var d := p[|pre|];
      && (r.0 == score ==> r.1 == choice)
      && (r.0 > score ==> exists i :: c <= i < |d.options| && d.options[i] == r.1 && FirstWorth(p, pre, c, i, r.0))
    decreases |p[|pre|].options| - c
  {
    var d := p[|pre|];
    ChooseIsBest(p, pre, c, score, choice);
    if c < |d.options| {
      var next := Better(p, pre, d.options[c].value, score, choice);
      assert d.options[c] == Some(d.options[c].value);
      ChooseIsBest(p, pre, c + 1, next.0, next.1);
      ChooseIsFirst(p, pre, c + 1, next.0, next.1);
      var r := Choose(p, pre, c, score, choice);
      if r.0 > next.0 {
        var i :| c + 1 <= i < |d.options| && d.options[i] == r.1 && FirstWorth(p, pre, c + 1, i, r.0);
        assert FirstWorth(p, pre, c, i, r.0);
      } else if next.0 > score {
        assert FirstWorth(p, pre, c, c, r.0);
      }
    }
  }

  lemma CompletesCons(p: seq<Demand>, pre: Assignment, choice: Option<nat>, b: Assignment)
    requires |pre| < |p|
    ensures Completes(p, pre, [choice] + b) <==>
      && Completes(p, pre + [choice], b)
      && (choice.Some? ==> p[|pre|].lit && Usable(p, pre, |pre|, choice.value))
  {
    assert pre + ([choice] + b) == (pre + [choice]) + b;
    if |pre| + 1 + |b| == |p| {
      var a := pre + ([choice] + b);
      assert a[|pre|] == choice;
      assert choice.Some? ==> (Usable(p, a, |pre|, choice.value) <==> Usable(p, pre, |pre|, choice.value));
    }
  }

  /** What the search leaves behind is feasible and has the score it returns. */
  lemma {:induction false} SearchIsFeasible(p: seq<Demand>, pre: Assignment)
    requires |pre| <= |p| && AllKnown(p, |pre|)
    ensures Completes(p, pre, Search(p, pre).1)
    ensures Score(p[|pre|..], Search(p, pre).1) == Search(p, pre).0
    decreases |p| - |pre|
  {
    if |pre| < |p| {
      var choice := Search(p, pre).1[0];
      if p[|pre|].lit {
        ChooseIsBest(p, pre, 0, Search(p, pre + [None]).0, None);
      }
      SearchIsFeasible(p, pre + [choice]);
      CompletesCons(p, pre, choice, Search(p, pre + [choice]).1);
      assert p[|pre|..][1..] == p[|pre + [choice]|..];
      assert Search(p, pre).1[1..] == Search(p, pre + [choice]).1;
    }
  }

  /** No feasible completion scores more. */
  lemma {:induction false} SearchIsBest(p: seq<Demand>, pre: Assignment, b: Assignment)
    requires |pre| <= |p| && AllKnown(p, |pre|)
    requires Completes(p, pre, b)
    ensures Score(p[|pre|..], b) <= Search(p, pre).0
    decreases |p| - |pre|
  {
    if |pre| < |p| {
      var choice := b[0];
      assert b == [choice] + b[1..];
      CompletesCons(p, pre, choice, b[1..]);
      SearchIsBest(p, pre + [choice], b[1..]);
      assert p[|pre|..][1..] == p[|pre + [choice]|..];
      assert Score(p[|pre|..], b) <= Worth(p, pre, choice);
      if p[|pre|].lit {
        ChooseIsBest(p, pre, 0, Search(p, pre + [None]).0, None);
      }
    }
  }

  // ----- What the best score means -----

  lemma {:induction false} ScoreIsLitThenKept(p: seq<Demand>, b: Assignment)
    requires |p| == |b|
    ensures Score(p, b) == 1000 * Lit(b) + Kept(p, b)
    ensures Kept(p, b) <= Lit(b)
  {
    if b != [] {
      ScoreIsLitThenKept(p[1..], b[1..]);
    }
  }

  function Modes(p: seq<Demand>): nat {
    if p == [] then 0 else (if p[0].lit then 1 else 0) + Modes(p[1..])
  }

  lemma {:induction false} LitAtMostModes(p: seq<Demand>, b: Assignment)
    requires |p| == |b| && forall k :: 0 <= k < |p| && b[k].Some? ==> p[k].lit
    ensures Lit(b) <= Modes(p)
    ensures Lit(b) == Modes(p) <==> forall k :: 0 <= k < |p| && p[k].lit ==> b[k].Some?
  {
    if b != [] {
      LitAtMostModes(p[1..], b[1..]);
      assert forall k :: 0 <= k < |p| - 1 ==> p[k + 1] == p[1..][k] && b[k + 1] == b[1..][k];
      if Lit(b) == Modes(p) {
        forall k | 0 <= k < |p| && p[k].lit ensures b[k].Some? {
          if k > 0 { assert p[1..][k - 1].lit; }
        }
      }
      if forall k :: 0 <= k < |p| && p[k].lit ==> b[k].Some? {
        assert forall k :: 0 <= k < |p| - 1 && p[1..][k].lit ==> p[k + 1].lit;
      }
    }
  }

  /** Up to 1000 outputs with a mode, the best score lights as many outputs as any feasible
      assignment can, and among those that light as many it keeps the most connections. */
  lemma SearchLightsMost(p: seq<Demand>, b: Assignment)
    requires AllKnown(p, 0) && Modes(p) <= 1000
    requires Completes(p, [], b)
    ensures var best := Search(p, []).1;
      Lit(b) < Lit(best) || (Lit(b) == Lit(best) && Kept(p, b) <= Kept(p, best))
  {
    var best := Search(p, []).1;
    assert [] + b == b && [] + best == best && p[0..] == p;
    SearchIsFeasible(p, []);
    SearchIsBest(p, [], b);
    ScoreIsLitThenKept(p, b);
    ScoreIsLitThenKept(p, best);
    LitAtMostModes(p, b);
    LitAtMostModes(p, best);
  }

  /** Every output with a mode has a CRTC in `b`. */
  predicate LightsAll(p: seq<Demand>, b: Assignment)
    requires |p| == |b|
  {
    forall k :: 0 <= k < |p| && p[k].lit ==> b[k].Some?
  }

  /** The search leaves an output with a mode dark exactly when every feasible assignment does. */
  lemma SearchLightsAllIfPossible(p: seq<Demand>)
    requires AllKnown(p, 0) && Modes(p) <= 1000
    ensures LightsAll(p, Search(p, []).1) <==> exists b :: Completes(p, [], b) && LightsAll(p, b)
  {
    var best := Search(p, []).1;
    SearchIsFeasible(p, []);
    assert [] + best == best;
    LitAtMostModes(p, best);
    forall b | Completes(p, [], b) && LightsAll(p, b)
      ensures LightsAll(p, best)
    {
      assert [] + b == b;
      LitAtMostModes(p, b);
      SearchLightsMost(p, b);
    }
  }
}
