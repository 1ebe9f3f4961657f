/** Lists with a skipped entry between two files: what stacking loses, and that only such lists lose. */
module StackingLoss {
  import opened Stacking

  /** Rules under which just two paths are parts of one title. */
  function PairRules(skip: string -> bool, a: string, b: string): (r: Rules)
    ensures Advancing(r) && r.count == 1 && r.isSkippedPath == skip
  {
    Rules(1,
          (e: nat, s: string, from: nat) =>
            if from == 0 && (s == "f" + a || s == "f" + b) then Some(Match("", s, "", "", 0, |s|)) else None,
          (s: string) => s, (s: string) => "f" + s, skip, (s: string) => false, (ps: seq<string>) => "", (s: string) => s)
  }

  /** A file whose path is neither `a` nor `b`, or an entry that is skipped. */
  predicate Other(skip: string -> bool, a: string, b: string, x: Item) {
    SkippedBy(skip, x) || (x.path != a && x.path != b)
  }

  lemma {:induction false} ScanPasses(skip: string -> bool, a: string, b: string, t: seq<Item>, j: nat, stack: seq<nat>)
    requires 1 <= j <= |t| && forall k :: j <= k < |t| ==> Other(skip, a, b, t[k])
    ensures Scan(PairRules(skip, a, b), t, 0, 0, j, stack).stack == stack
    ensures !Scan(PairRules(skip, a, b), t, 0, 0, j, stack).stop.Again?
    decreases |t| - j
  {
    var r := PairRules(skip, a, b);
    if j < |t| && Skipped(r, t[j]) {
      ScanPasses(skip, a, b, t, j + 1, stack);
    } else if j < |t| {
      assert "f" + t[j].path != "f" + a && "f" + t[j].path != "f" + b by { Prefixed(t[j].path, a); Prefixed(t[j].path, b); }
      assert r.find(0, Name(r, t[j]), 0).None?;
    }
  }

  lemma Prefixed(x: string, y: string)
    ensures "f" + x == "f" + y <==> x == y
  {
    assert ("f" + x)[1..] == x && ("f" + y)[1..] == y;
  }

  /** An entry that is not one of the two, or after which neither comes, is left alone. */
  lemma {:induction false} LeftAlone(skip: string -> bool, a: string, b: string, t: seq<Item>)
    requires t != [] && (Other(skip, a, b, t[0]) || forall k :: 1 <= k < |t| ==> Other(skip, a, b, t[k]))
    ensures var r := PairRules(skip, a, b); StackList(r, t) == [t[0]] + StackList(r, t[1..])
  {
    var r := PairRules(skip, a, b);
    if !Skipped(r, t[0]) {
      Prefixed(t[0].path, a);
      Prefixed(t[0].path, b);
      if t[0].path == a || t[0].path == b {
        ScanPasses(skip, a, b, t, 1, []);
      } else {
        assert r.find(0, Name(r, t[0]), 0).None?;
      }
      assert FindStack(r, t, 1, 0) == NoStack;
      assert FindStack(r, t, 0, 0) == NoStack;
    }
  }

  /** File `i` is followed by skipped entries, at least one, and then by file `k`; no other file has the
      path of one of them. */
  ghost predicate Gap(skip: string -> bool, t: seq<Item>, i: nat, k: nat) {
    && i + 1 < k < |t| && !SkippedBy(skip, t[i]) && !SkippedBy(skip, t[k]) && t[i].path != t[k].path
    && (forall j :: i < j < k ==> SkippedBy(skip, t[j]))
    && (forall j :: 0 <= j < |t| && j != i && j != k ==> Other(skip, t[i].path, t[k].path, t[j]))
  }

  lemma {:induction false} ScanFinds(skip: string -> bool, t: seq<Item>, k: nat, j: nat)
    requires Gap(skip, t, 0, k) && 1 <= j <= k
    ensures Scan(PairRules(skip, t[0].path, t[k].path), t, 0, 0, j, []).stack == [0, k]
    decreases k - j
  {
    var r := PairRules(skip, t[0].path, t[k].path);
    if j < k {
      ScanFinds(skip, t, k, j + 1);
    } else {
      Prefixed(t[0].path, t[k].path);
      assert Compare(r, 0, 0, Name(r, t[0]), Name(r, t[k])).Joins?;
      assert Pushed([], k) == [0, k];
      ScanPasses(skip, t[0].path, t[k].path, t, k + 1, [0, k]);
    }
  }

  /** The file before the gap takes the one behind it along, and the entry after it off the list. */
  lemma {:induction false} GapInFront(skip: string -> bool, t: seq<Item>, k: nat)
    requires Gap(skip, t, 0, k)
    ensures var r := PairRules(skip, t[0].path, t[k].path);
      StackList(r, t) == [Merged(r, [t[0], t[k]], t[0].path[..0])] + StackList(r, t[2..])
  {
    var r := PairRules(skip, t[0].path, t[k].path);
    ScanFinds(skip, t, k, 1);
    var s := FindStack(r, t, 0, 0);
    assert s.Stack? && s.at == [0, k] && s.name == "";
    assert Members(t, s.at) == [t[0], t[k]];
  }

  lemma HeadAlone(skip: string -> bool, t: seq<Item>, i: nat, k: nat, m: nat)
    requires Gap(skip, t, i, k) && i < m < |t|
    requires StackList(PairRules(skip, t[i].path, t[k].path), t[m + 1..]) == t[m + 1..]
    ensures StackList(PairRules(skip, t[i].path, t[k].path), t[m..]) == t[m..]
  {
    LeftAlone(skip, t[i].path, t[k].path, t[m..]);
    assert t[m..] == [t[m]] + t[m + 1..] && t[m..][1..] == t[m + 1..];
  }

  lemma {:induction false} RestAlone(skip: string -> bool, t: seq<Item>, i: nat, k: nat, m: nat)
    requires Gap(skip, t, i, k) && i < m <= |t|
    ensures StackList(PairRules(skip, t[i].path, t[k].path), t[m..]) == t[m..]
    decreases |t| - m
  {
    if m < |t| {
      RestAlone(skip, t, i, k, m + 1);
      HeadAlone(skip, t, i, k, m);
    }
  }

  lemma Grouped(t: seq<Item>, m: nat, i: nat, rest: seq<Item>)
    requires m < i <= |t|
    ensures t[m..][1..] == t[m + 1..] && t[m..][0] == t[m]
    ensures [t[m]] + (t[m + 1..i] + rest) == t[m..i] + rest
  {
    assert t[m..i] == [t[m]] + t[m + 1..i];
  }

  lemma {:induction false} FrontAlone(skip: string -> bool, t: seq<Item>, i: nat, k: nat, m: nat)
    requires Gap(skip, t, i, k) && m <= i
    ensures var r := PairRules(skip, t[i].path, t[k].path); StackList(r, t[m..]) == t[m..i] + StackList(r, t[i..])
    decreases i - m
  {
    if m < i {
      LeftAlone(skip, t[i].path, t[k].path, t[m..]);
      FrontAlone(skip, t, i, k, m + 1);
      Grouped(t, m, i, StackList(PairRules(skip, t[i].path, t[k].path), t[i..]));
    } else {
      assert t[m..i] == [];
    }
  }

  lemma {:induction false} GapFrom(skip: string -> bool, t: seq<Item>, i: nat, k: nat)
    requires Gap(skip, t, i, k)
    ensures Gap(skip, t[i..], 0, k - i)
  {
    var u := t[i..];
    assert u[0] == t[i] && u[k - i] == t[k];
    forall j | 0 <= j < |u| ensures u[j] == t[i + j] {}
  }

  /** With skipped entries between two files of one title, the first of them is dropped, and the second
      file is both merged and left in the list. */
  lemma {:induction false} BetweenIsLost(skip: string -> bool, t: seq<Item>, i: nat, k: nat)
    requires Gap(skip, t, i, k)
    ensures var r := PairRules(skip, t[i].path, t[k].path);
      StackList(r, t) == t[..i] + ([Merged(r, [t[i], t[k]], "")] + t[i + 2..])
  {
    FrontAlone(skip, t, i, k, 0);
    assert t[0..] == t && t[0..i] == t[..i];
    GapFrom(skip, t, i, k);
    GapInFront(skip, t[i..], k - i);
    assert t[i..][2..] == t[i + 2..] && t[i..][0] == t[i] && t[i..][k - i] == t[k];
    RestAlone(skip, t, i, k, i + 2);
  }

  // ----- It is no partition -----

  lemma {:induction false} SingleRuns(rs: seq<seq<Item>>)
    requires forall m :: 0 <= m < |rs| ==> |rs[m]| == 1
    ensures |Flatten(rs)| == |rs|
  {
    if rs != [] {
      SingleRuns(rs[1..]);
    }
  }

  lemma {:induction false} RunIsSlice(rs: seq<seq<Item>>, m: nat) returns (from: nat)
    requires m < |rs|
    ensures from + |rs[m]| <= |Flatten(rs)| && Flatten(rs)[from..from + |rs[m]|] == rs[m]
  {
    if m == 0 {
      from := 0;
    } else {
      var before := RunIsSlice(rs[1..], m - 1);
      from := |rs[0]| + before;
    }
  }

  lemma {:induction false} PartsArePair(skip: string -> bool, a: string, b: string, run: seq<Item>, e: nat, offset: nat)
    requires |run| > 1 && !SkippedBy(skip, run[0]) && PartOf(PairRules(skip, a, b), run, e, offset, 1)
    ensures !Other(skip, a, b, run[0]) && !Other(skip, a, b, run[1])
  {
    Prefixed(run[0].path, a);
    Prefixed(run[0].path, b);
    Prefixed(run[1].path, a);
    Prefixed(run[1].path, b);
  }

  /** Under these rules no run of neighbouring entries is of one title. */
  lemma {:induction false} NoLongRun(skip: string -> bool, t: seq<Item>, i: nat, k: nat, from: nat, run: seq<Item>)
    requires Gap(skip, t, i, k) && from + |run| <= |t| && t[from..from + |run|] == run && |run| > 1
    ensures var r := PairRules(skip, t[i].path, t[k].path); forall caption :: !(AllFiles(r, run) && OneTitle(r, run, caption))
  {
    var r := PairRules(skip, t[i].path, t[k].path);
    assert run[0] == t[from] && run[1] == t[from + 1];
    forall e: nat, offset: nat ensures !PartOf(r, run, e, offset, 1) || Skipped(r, run[0]) {
      if PartOf(r, run, e, offset, 1) && !Skipped(r, run[0]) {
        PartsArePair(skip, t[i].path, t[k].path, run, e, offset);
      }
    }
    forall caption ensures !(AllFiles(r, run) && OneTitle(r, run, caption)) {
      if e: nat, offset: nat :| e < r.count && OneTitleUnder(r, run, e, offset) {
        assert PartOf(r, run, e, offset, 1);
      }
    }
  }

  lemma {:induction false} GapIsNoPartition(skip: string -> bool, t: seq<Item>, i: nat, k: nat)
    requires Gap(skip, t, i, k)
    ensures !Partitions(PairRules(skip, t[i].path, t[k].path), t)
  {
    var r := PairRules(skip, t[i].path, t[k].path);
    BetweenIsLost(skip, t, i, k);
    var out := StackList(r, t);
    assert |out| == |t| - 1;
    forall runs ensures !PartitionedBy(r, t, out, runs) { RunsAreSingle(skip, t, i, k, out, runs); }
  }

  lemma {:induction false} RunsAreSingle(skip: string -> bool, t: seq<Item>, i: nat, k: nat, out: seq<Item>, runs: seq<seq<Item>>)
    requires Gap(skip, t, i, k) && |out| < |t|
    ensures !PartitionedBy(PairRules(skip, t[i].path, t[k].path), t, out, runs)
  {
    var r := PairRules(skip, t[i].path, t[k].path);
    if PartitionedBy(r, t, out, runs) {
      forall m | 0 <= m < |runs| ensures |runs[m]| == 1 {
        assert StandsFor(r, out[m], runs[m]);
        if |runs[m]| > 1 {
          var from := RunIsSlice(runs, m);
          NoLongRun(skip, t, i, k, from, runs[m]);
        }
      }
      SingleRuns(runs);
    }
  }

  predicate DistinctFiles(skip: string -> bool, t: seq<Item>) {
    forall i, j :: 0 <= i < j < |t| && !SkippedBy(skip, t[i]) && !SkippedBy(skip, t[j]) ==> t[i].path != t[j].path
  }

  /** Between two files with a skipped entry between them there are two next to the gap. */
  lemma {:induction false} FindGap(skip: string -> bool, t: seq<Item>, i0: nat, j: nat, k0: nat) returns (i: nat, k: nat)
    requires i0 < j < k0 < |t| && DistinctFiles(skip, t)
    requires !SkippedBy(skip, t[i0]) && SkippedBy(skip, t[j]) && !SkippedBy(skip, t[k0])
    ensures Gap(skip, t, i, k)
  {
    i := j - 1;
    while SkippedBy(skip, t[i])
      invariant i0 <= i < j && forall m :: i < m < j ==> SkippedBy(skip, t[m])
      decreases i
    {
      i := i - 1;
    }
    k := j + 1;
    while SkippedBy(skip, t[k])
      invariant j < k <= k0 && forall m :: j < m < k ==> SkippedBy(skip, t[m])
      decreases k0 - k
    {
      k := k + 1;
    }
  }

  /** Stacking partitions a list of files with different paths, in order, under every set of rules, if
      and only if no skipped entry lies between two files. */
  lemma {:induction false} PartitionsIff(skip: string -> bool, t: seq<Item>)
    requires DistinctFiles(skip, t)
    ensures (forall r: Rules :: Advancing(r) && r.isSkippedPath == skip ==> Partitions(r, t)) <==> NoneBetween(skip, t)
  {
    if NoneBetween(skip, t) {
      forall r: Rules | Advancing(r) && r.isSkippedPath == skip ensures Partitions(r, t) {
        StackingPartitions(r, t);
      }
    } else {
      var i0, j, k0 :| 0 <= i0 < j < k0 < |t| && !SkippedBy(skip, t[i0]) && !SkippedBy(skip, t[k0]) && SkippedBy(skip, t[j]);
      var i, k := FindGap(skip, t, i0, j, k0);
      GapIsNoPartition(skip, t, i, k);
    }
  }
}
