/** What `CFileItemList::StackFiles` computes: which neighbouring files of a list are parts of one
    title, as the stacking expressions of the settings say, and the list with those parts merged. */
module Stacking {

  datatype Option<+T> = None | Some(value: T)

  /** A match of a stacking expression: its four captures, and where the second and third start. */
  datatype Match = Match(title: string, volume: string, ignore: string, extension: string,
                         volumeStart: nat, ignoreStart: nat)

  /** What the code takes from elsewhere: the compiled expressions (`find(e, s, from)` searches the
      `e`th from an offset), the comparison that ignores case, and how paths are taken apart. */
  datatype Rules = Rules(
    count: nat,
    find: (nat, string, nat) -> Option<Match>,
    fold: string -> string,
    fileName: string -> string,
    isSkippedPath: string -> bool,
    isRar: string -> bool,
    stackPath: seq<string> -> string,
    caption: string -> string)

  datatype Item = Item(path: string, size: int, caption: string, isFolder: bool)

  predicate Skipped(r: Rules, x: Item) {
    x.isFolder || r.isSkippedPath(x.path)
  }

  function Name(r: Rules, x: Item): string {
    r.fileName(x.path)
  }

  /** A search that matches does so beyond its offset: the third capture starts later, and inside. */
  ghost predicate Advancing(r: Rules) {
    forall e: nat, s: string, from: nat :: r.find(e, s, from).Some? ==>
      from < r.find(e, s, from).value.ignoreStart <= |s|
  }

  // ----- Comparing two files under one expression -----

  function Prefix(s: string, n: nat): string {
    if n <= |s| then s[..n] else s
  }

  /** The title of a match: with an offset, everything before the volume. */
  function Title(m: Match, name: string, offset: nat): string {
    if offset != 0 then Prefix(name, m.volumeStart) else m.title
  }

  predicate Same(r: Rules, a: string, b: string) {
    r.fold(a) == r.fold(b)
  }

  /** What the next file means for the stack being collected: it joins; the expression is given up;
      or the match was a false positive, to be tried again from an offset. */
  datatype Verdict = Joins | GiveUp | Again(offset: nat)

  function Compare(r: Rules, e: nat, offset: nat, first: string, next: string): Verdict {
    match (r.find(e, first, offset), r.find(e, next, offset))
    case (Some(m1), Some(m2)) =>
      if !Same(r, Title(m1, first, offset), Title(m2, next, offset)) then GiveUp
      else if !Same(r, m1.volume, m2.volume) then
        if Same(r, m1.ignore, m2.ignore) && Same(r, m1.extension, m2.extension) then Joins else GiveUp
      else if !Same(r, m1.ignore, m2.ignore) then Again(m2.ignoreStart)
      else GiveUp
    case _ => GiveUp
  }

  // ----- Collecting a stack -----

  /** How collecting ended: at the end of the list, or at a file that does not join. */
  datatype Scanned = Scanned(stack: seq<nat>, atEnd: bool, stop: Verdict)

  /** The files of `t` from `j` on that join `t[0]`, up to the first that does not. `stack` holds the
      positions found so far: none, or 0 and those that joined. */
  function Scan(r: Rules, t: seq<Item>, e: nat, offset: nat, j: nat, stack: seq<nat>): Scanned
    requires 1 <= j <= |t|
    decreases |t| - j
  {
    if j == |t| then Scanned(stack, true, GiveUp)
    else if Skipped(r, t[j]) then Scan(r, t, e, offset, j + 1, stack)
    else
      var v := Compare(r, e, offset, Name(r, t[0]), Name(r, t[j]));
      if v.Joins? then Scan(r, t, e, offset, j + 1, Pushed(stack, j))
      else Scanned(stack, false, v)
  }

  function Pushed(stack: seq<nat>, j: nat): seq<nat> {
    (if stack == [] then [0] else stack) + [j]
  }

  /** The longest file name in the list. */
  function Longest(r: Rules, t: seq<Item>): (n: nat)
    ensures forall k :: 0 <= k < |t| ==> |Name(r, t[k])| <= n
  {
    if t == [] then 0
    else
      var rest := Longest(r, t[1..]);
      if |Name(r, t[0])| > rest then |Name(r, t[0])| else rest
  }

  lemma {:induction false} ScanStops(r: Rules, t: seq<Item>, e: nat, offset: nat, j: nat, stack: seq<nat>)
    requires 1 <= j <= |t| && Advancing(r)
    ensures var s := Scan(r, t, e, offset, j, stack);
      s.stop.Again? ==> offset < s.stop.offset <= Longest(r, t)
    decreases |t| - j
  {
    if j < |t| {
      if Skipped(r, t[j]) {
        ScanStops(r, t, e, offset, j + 1, stack);
      } else if Compare(r, e, offset, Name(r, t[0]), Name(r, t[j])).Joins? {
        ScanStops(r, t, e, offset, j + 1, Pushed(stack, j));
      }
    }
  }

  /** The stack that starts at `t[0]`: the positions of its files, the expression and offset that made
      it, and the name it gets. */
  datatype Found = NoStack | Stack(at: seq<nat>, e: nat, offset: nat, name: string)

  /** The first stack found, trying the expressions from `e` on, the first of them from an offset. */
  function FindStack(r: Rules, t: seq<Item>, e: nat, offset: nat): (found: Found)
    requires t != [] && Advancing(r) && e <= r.count && offset <= Longest(r, t)
    ensures found.Stack? ==> |found.at| > 1
    decreases r.count - e, Longest(r, t) - offset
  {
    if e == r.count then NoStack
    else
      match r.find(e, Name(r, t[0]), offset)
      case None => FindStack(r, t, e + 1, 0)
      case Some(m) =>
        ScanStops(r, t, e, offset, 1, []);
        var s := Scan(r, t, e, offset, 1, []);
        if |s.stack| > 1 then
          Stack(s.stack, e, offset, Title(m, Name(r, t[0]), offset) + m.ignore + m.extension)
        else if s.atEnd then NoStack
        else if s.stop.Again? then FindStack(r, t, e, s.stop.offset)
        else FindStack(r, t, e + 1, 0)
  }

  // ----- Merging -----

  predicate Within(at: seq<nat>, n: nat) {
    forall k :: 0 <= k < |at| ==> at[k] < n
  }

  function Members(t: seq<Item>, at: seq<nat>): (ms: seq<Item>)
    requires Within(at, |t|)
    ensures |ms| == |at| && forall k :: 0 <= k < |at| ==> ms[k] == t[at[k]]
  {
    seq(|at|, k requires 0 <= k < |at| => t[at[k]])
  }

  function Size(xs: seq<Item>): int {
    if xs == [] then 0 else Size(xs[..|xs| - 1]) + xs[|xs| - 1].size
  }

  function Paths(xs: seq<Item>): (ps: seq<string>)
    ensures |ps| == |xs| && forall k :: 0 <= k < |ps| ==> ps[k] == xs[k].path
  {
    seq(|xs|, k requires 0 <= k < |xs| => xs[k].path)
  }

  /** The item that stands for a stack. */
  function Merged(r: Rules, members: seq<Item>, name: string): Item
    requires members != []
  {
    Item(MergedPath(r, members), Size(members), r.caption(name), members[0].isFolder)
  }

  function MergedPath(r: Rules, members: seq<Item>): string
    requires members != []
  {
    if r.isRar(members[0].path) then members[0].path else r.stackPath(Paths(members))
  }

  // ----- The shape of a stack -----

  /** Two names have one title, as their matches say: the first captures agree, or, when the search started at
      an offset, what comes before the second captures. */
  predicate SameTitle(r: Rules, offset: nat, a: string, m1: Match, b: string, m2: Match) {
    if offset == 0 then r.fold(m1.title) == r.fold(m2.title)
    else r.fold(a[..Least(m1.volumeStart, |a|)]) == r.fold(b[..Least(m2.volumeStart, |b|)])
  }

  function Least(a: nat, b: nat): nat { if a < b then a else b }

  /** `t[k]` is a part of the same title as `t[0]`: both match the expression, with the same title,
      ignored part and extension but different volumes. */
  predicate PartOf(r: Rules, t: seq<Item>, e: nat, offset: nat, k: nat)
    requires k < |t|
  {
    var a, b := r.find(e, Name(r, t[0]), offset), r.find(e, Name(r, t[k]), offset);
    && !Skipped(r, t[k]) && a.Some? && b.Some?
    && SameTitle(r, offset, Name(r, t[0]), a.value, Name(r, t[k]), b.value)
    && r.fold(a.value.ignore) == r.fold(b.value.ignore) && r.fold(a.value.extension) == r.fold(b.value.extension)
    && r.fold(a.value.volume) != r.fold(b.value.volume)
  }

  /** `at` is 0 and all positions below `n` that are not skipped, in order, and they are parts of the
      same title as `t[0]`; or it is empty and there are no such positions. */
  ghost predicate Collected(r: Rules, t: seq<Item>, e: nat, offset: nat, n: nat, at: seq<nat>)
    requires 1 <= n <= |t|
  {
    && (at != [] ==> |at| > 1 && at[0] == 0)
    && (forall k :: 1 <= k < |at| ==> 1 <= at[k] < n && PartOf(r, t, e, offset, at[k]))
    && (forall k :: 0 <= k < |at| - 1 ==> at[k] < at[k + 1])
    && (forall k :: 1 <= k < n && !Skipped(r, t[k]) ==> k in at)
  }

  /** Where the scan stopped: at the end, or before a file that is not a part of the title. */
  function ScanEnd(r: Rules, t: seq<Item>, e: nat, offset: nat, j: nat): (n: nat)
    requires 1 <= j <= |t|
    ensures j <= n <= |t|
    decreases |t| - j
  {
    if j < |t| && (Skipped(r, t[j]) || PartOf(r, t, e, offset, j)) then ScanEnd(r, t, e, offset, j + 1) else j
  }

  lemma CollectedSkips(r: Rules, t: seq<Item>, e: nat, offset: nat, j: nat, at: seq<nat>)
    requires 1 <= j < |t| && Collected(r, t, e, offset, j, at) && Skipped(r, t[j])
    ensures Collected(r, t, e, offset, j + 1, at)
  {
  }

  lemma CollectedJoins(r: Rules, t: seq<Item>, e: nat, offset: nat, j: nat, at: seq<nat>)
    requires 1 <= j < |t| && Collected(r, t, e, offset, j, at) && PartOf(r, t, e, offset, j)
    ensures Collected(r, t, e, offset, j + 1, Pushed(at, j))
  {
    var to := Pushed(at, j);
    forall k | 1 <= k < |to| ensures 1 <= to[k] < j + 1 && PartOf(r, t, e, offset, to[k]) {
      if k < |to| - 1 { assert to[k] == at[k]; }
    }
    forall k | 1 <= k < j + 1 && !Skipped(r, t[k]) ensures k in to {
      if k == j { assert to[|to| - 1] == j; }
    }
  }

  /** The scan took all there is before `n`, where it stopped. */
  ghost predicate CollectedTo(r: Rules, t: seq<Item>, e: nat, offset: nat, n: nat, s: Scanned)
    requires 1 <= n <= |t|
  {
    && Collected(r, t, e, offset, n, s.stack) && (s.atEnd <==> n == |t|)
    && (n < |t| ==> !Skipped(r, t[n]) && !PartOf(r, t, e, offset, n))
  }

  /** One turn of the scan: a skipped entry is passed over, a part of the title joins, any other file
      ends the scan. */
  lemma {:induction false} ScanTurn(r: Rules, t: seq<Item>, e: nat, offset: nat, j: nat, at: seq<nat>)
    requires 1 <= j < |t|
    ensures Skipped(r, t[j]) || PartOf(r, t, e, offset, j) ==>
      && ScanEnd(r, t, e, offset, j) == ScanEnd(r, t, e, offset, j + 1)
      && Scan(r, t, e, offset, j, at) ==
           Scan(r, t, e, offset, j + 1, if Skipped(r, t[j]) then at else Pushed(at, j))
    ensures !Skipped(r, t[j]) && !PartOf(r, t, e, offset, j) ==>
      && ScanEnd(r, t, e, offset, j) == j
      && Scan(r, t, e, offset, j, at).stack == at && !Scan(r, t, e, offset, j, at).atEnd
  {
    if !Skipped(r, t[j]) { CompareIsPartOf(r, t, e, offset, j); }
  }

  lemma {:induction false} ScanCollects(r: Rules, t: seq<Item>, e: nat, offset: nat, j: nat, at: seq<nat>, n: nat, s: Scanned)
    requires 1 <= j <= |t| && Collected(r, t, e, offset, j, at)
    requires n == ScanEnd(r, t, e, offset, j) && s == Scan(r, t, e, offset, j, at)
    ensures CollectedTo(r, t, e, offset, n, s)
    decreases |t| - j
  {
    if j < |t| { ScanTurn(r, t, e, offset, j, at); }
    if j == |t| || (!Skipped(r, t[j]) && !PartOf(r, t, e, offset, j)) {
      CollectedHere(r, t, e, offset, j, s);
    } else {
      CollectedTurn(r, t, e, offset, j, at);
      ScanCollects(r, t, e, offset, j + 1, if Skipped(r, t[j]) then at else Pushed(at, j), n, s);
    }
  }

  lemma CollectedTurn(r: Rules, t: seq<Item>, e: nat, offset: nat, j: nat, at: seq<nat>)
    requires 1 <= j < |t| && Collected(r, t, e, offset, j, at) && (Skipped(r, t[j]) || PartOf(r, t, e, offset, j))
    ensures Collected(r, t, e, offset, j + 1, if Skipped(r, t[j]) then at else Pushed(at, j))
  {
    if Skipped(r, t[j]) {
      CollectedSkips(r, t, e, offset, j, at);
    } else {
      CollectedJoins(r, t, e, offset, j, at);
    }
  }

  lemma CollectedHere(r: Rules, t: seq<Item>, e: nat, offset: nat, j: nat, s: Scanned)
    requires 1 <= j <= |t| && Collected(r, t, e, offset, j, s.stack) && (s.atEnd <==> j == |t|)
    requires j < |t| ==> !Skipped(r, t[j]) && !PartOf(r, t, e, offset, j)
    ensures CollectedTo(r, t, e, offset, j, s)
  {
  }

  lemma CompareIsPartOf(r: Rules, t: seq<Item>, e: nat, offset: nat, k: nat)
    requires k < |t| && !Skipped(r, t[k])
    ensures Compare(r, e, offset, Name(r, t[0]), Name(r, t[k])).Joins? <==> PartOf(r, t, e, offset, k)
  {
    var a, b := Name(r, t[0]), Name(r, t[k]);
    var m1, m2 := r.find(e, a, offset), r.find(e, b, offset);
    if m1.Some? && m2.Some? { TitlesAgree(r, offset, a, m1.value, b, m2.value); }
  }

  lemma TitlesAgree(r: Rules, offset: nat, a: string, m1: Match, b: string, m2: Match)
    ensures SameTitle(r, offset, a, m1, b, m2) <==> Same(r, Title(m1, a, offset), Title(m2, b, offset))
  {
    PrefixIs(a, m1.volumeStart);
    PrefixIs(b, m2.volumeStart);
  }

  lemma PrefixIs(s: string, n: nat)
    ensures Prefix(s, n) == s[..Least(n, |s|)]
  {
  }

  /** A stack has at least two files, the first being `t[0]`; the others are the longest run of files
      after it (skipped entries aside) that are parts of the same title. */
  lemma {:induction false} StackIsLongestRun(r: Rules, t: seq<Item>, e: nat, offset: nat) returns (n: nat)
    requires t != [] && Advancing(r) && e <= r.count && offset <= Longest(r, t)
    requires FindStack(r, t, e, offset).Stack?
    ensures var s := FindStack(r, t, e, offset);
      && 1 < n <= |t| && |s.at| > 1 && s.e < r.count && Collected(r, t, s.e, s.offset, n, s.at)
      && (n < |t| ==> !Skipped(r, t[n]) && !PartOf(r, t, s.e, s.offset, n))
    decreases r.count - e, Longest(r, t) - offset
  {
    if r.find(e, Name(r, t[0]), offset).None? {
      n := StackIsLongestRun(r, t, e + 1, 0);
    } else {
      ScanStops(r, t, e, offset, 1, []);
      var s := Scan(r, t, e, offset, 1, []);
      ScanCollects(r, t, e, offset, 1, [], ScanEnd(r, t, e, offset, 1), s);
      if |s.stack| > 1 {
        n := ScanEnd(r, t, e, offset, 1);
        assert 1 <= s.stack[1] < n;
      } else if s.stop.Again? {
        n := StackIsLongestRun(r, t, e, s.stop.offset);
      } else {
        n := StackIsLongestRun(r, t, e + 1, 0);
      }
    }
  }

  /** The name it gets. */
  lemma {:induction false} StackIsNamed(r: Rules, t: seq<Item>, e: nat, offset: nat)
    requires t != [] && Advancing(r) && e <= r.count && offset <= Longest(r, t)
    requires FindStack(r, t, e, offset).Stack?
    ensures var s := FindStack(r, t, e, offset); IsStackName(r, Name(r, t[0]), s.e, s.offset, s.name)
    decreases r.count - e, Longest(r, t) - offset
  {
    var m := r.find(e, Name(r, t[0]), offset);
    if m.None? {
      StackIsNamed(r, t, e + 1, 0);
    } else {
      PrefixIs(Name(r, t[0]), m.value.volumeStart);
      ScanStops(r, t, e, offset, 1, []);
      var s := Scan(r, t, e, offset, 1, []);
      if |s.stack| <= 1 {
        if s.stop.Again? { StackIsNamed(r, t, e, s.stop.offset); } else { StackIsNamed(r, t, e + 1, 0); }
      }
    }
  }

  // ----- The whole list -----

  lemma {:induction false} IncreasingReach(at: seq<nat>, k: nat)
    requires k < |at| && forall i :: 0 <= i < |at| - 1 ==> at[i] < at[i + 1]
    ensures k <= at[k] && forall i :: 0 <= i < k ==> at[i] < at[k]
  {
    if k > 0 {
      IncreasingReach(at, k - 1);
    }
  }

  lemma StackFits(r: Rules, t: seq<Item>)
    requires t != [] && Advancing(r)
    ensures var s := FindStack(r, t, 0, 0);
      s.Stack? ==> 1 < |s.at| <= |t| && Within(s.at, |t|) && s.at[0] == 0
  {
    if FindStack(r, t, 0, 0).Stack? {
      var n := StackIsLongestRun(r, t, 0, 0);
      IncreasingReach(FindStack(r, t, 0, 0).at, |FindStack(r, t, 0, 0).at| - 1);
    }
  }

  /** The list after stacking. A stack replaces as many entries as it has files, starting with its
      first. */
  function StackList(r: Rules, t: seq<Item>): seq<Item>
    requires Advancing(r)
    decreases |t|
  {
    if t == [] then []
    else if Skipped(r, t[0]) then [t[0]] + StackList(r, t[1..])
    else
      match FindStack(r, t, 0, 0)
      case NoStack => [t[0]] + StackList(r, t[1..])
      case Stack(at, e, offset, name) =>
        StackFits(r, t);
        [Merged(r, Members(t, at), name)] + StackList(r, t[|at|..])
  }

  /** How many entries the turn of the first one takes: those of its stack, or itself. */
  function TurnLength(r: Rules, t: seq<Item>): (n: nat)
    requires t != [] && Advancing(r)
    ensures 1 <= n <= |t|
  {
    if Skipped(r, t[0]) then 1
    else
      match FindStack(r, t, 0, 0)
      case NoStack => 1
      case Stack(at, _, _, _) => StackFits(r, t); |at|
  }

  /** Of things that go with the entries, those that go with the entries that are left. */
  function HeadsOf<T>(r: Rules, t: seq<Item>, xs: seq<T>): (hs: seq<T>)
    requires Advancing(r) && |xs| == |t|
    decreases |t|
  {
    if t == [] then []
    else
      var n := TurnLength(r, t);
      [xs[0]] + HeadsOf(r, t[n..], xs[n..])
  }

  lemma {:induction false} StackListTurn(r: Rules, t: seq<Item>)
    requires t != [] && Advancing(r)
    ensures var n := TurnLength(r, t);
      StackList(r, t) != [] && StackList(r, t)[1..] == StackList(r, t[n..])
    ensures var x, h := StackList(r, t)[0], t[0];
      x == h || exists members, name :: |members| > 1 && members[0] == h && x == Merged(r, members, name)
  {
    if !Skipped(r, t[0]) && FindStack(r, t, 0, 0).Stack? {
      var s := FindStack(r, t, 0, 0);
      StackFits(r, t);
      assert Members(t, s.at)[0] == t[0];
    }
  }

  /** What is left is as it was, or stands for a stack that it heads. */
  lemma {:induction false} StackedOrKept(r: Rules, t: seq<Item>, k: nat)
    requires Advancing(r) && k < |StackList(r, t)|
    ensures k < |HeadsOf(r, t, t)|
    ensures var x, h := StackList(r, t)[k], HeadsOf(r, t, t)[k];
      x == h || exists members, name :: |members| > 1 && members[0] == h && x == Merged(r, members, name)
    decreases |t|
  {
    StackListTurn(r, t);
    if k > 0 {
      var n := TurnLength(r, t);
      assert StackList(r, t)[k] == StackList(r, t[n..])[k - 1];
      StackedOrKept(r, t[n..], k - 1);
    }
  }

  /** Where the `k`th entry that is left was. */
  function HeadAt(r: Rules, t: seq<Item>, k: nat): (i: nat)
    requires Advancing(r)
    decreases |t|
  {
    if k == 0 || t == [] then 0
    else
      var n := TurnLength(r, t);
      n + HeadAt(r, t[n..], k - 1)
  }

  lemma {:induction false} HeadIs<T>(r: Rules, t: seq<Item>, xs: seq<T>, k: nat)
    requires Advancing(r) && |xs| == |t| && k < |HeadsOf(r, t, xs)|
    ensures HeadAt(r, t, k) < |t| && HeadsOf(r, t, xs)[k] == xs[HeadAt(r, t, k)]
    decreases |t|
  {
    if k > 0 {
      var n := TurnLength(r, t);
      HeadIs(r, t[n..], xs[n..], k - 1);
    }
  }

  lemma {:induction false} HeadsCount<T>(r: Rules, t: seq<Item>, xs: seq<T>)
    requires Advancing(r) && |xs| == |t|
    ensures |HeadsOf(r, t, xs)| == |StackList(r, t)|
    decreases |t|
  {
    if t != [] {
      StackListTurn(r, t);
      HeadsCount(r, t[TurnLength(r, t)..], xs[TurnLength(r, t)..]);
    }
  }

  /** The files of a stack stand next to each other exactly when no skipped entry lies between the
      first and the last; only then are the entries it replaces the files it merges. */
  lemma {:induction false} AdjacentIff(r: Rules, t: seq<Item>)
    requires t != [] && Advancing(r) && FindStack(r, t, 0, 0).Stack?
    ensures var at := FindStack(r, t, 0, 0).at;
      (forall k :: 0 <= k < |at| ==> at[k] == k) <==>
      (forall k :: 1 <= k < |t| && k <= at[|at| - 1] ==> !Skipped(r, t[k]))
  {
    var s := FindStack(r, t, 0, 0);
    var n := StackIsLongestRun(r, t, 0, 0);
    DenseIff(r, t, s.e, s.offset, n, s.at);
  }

  lemma {:induction false} DenseIff(r: Rules, t: seq<Item>, e: nat, offset: nat, n: nat, at: seq<nat>)
    requires 1 <= n <= |t| && at != [] && Collected(r, t, e, offset, n, at)
    ensures (forall k :: 0 <= k < |at| ==> at[k] == k) <==>
            (forall k :: 1 <= k < |t| && k <= at[|at| - 1] ==> !Skipped(r, t[k]))
  {
    forall k | 0 <= k < |at| ensures forall i :: 0 <= i < k ==> at[i] < at[k] { IncreasingReach(at, k); }
    if forall k :: 1 <= k < |t| && k <= at[|at| - 1] ==> !Skipped(r, t[k]) {
      Dense(at, |at|);
    }
    if forall k :: 0 <= k < |at| ==> at[k] == k {
      forall k | 1 <= k < |t| && k <= at[|at| - 1] ensures !Skipped(r, t[k]) {
        assert PartOf(r, t, e, offset, at[k]);
      }
    }
  }

  /** An increasing sequence from 0 that misses nothing up to its last element. */
  lemma {:induction false} Dense(at: seq<nat>, n: nat)
    requires n <= |at| && at != [] && at[0] == 0
    requires forall i, j :: 0 <= i < j < |at| ==> at[i] < at[j]
    requires forall k :: 1 <= k <= at[|at| - 1] ==> k in at
    ensures forall k :: 0 <= k < n ==> at[k] == k
  {
    if n > 1 {
      Dense(at, n - 1);
      assert at[n - 2] == n - 2 && at[n - 2] < at[n - 1];
      if at[n - 1] > n - 1 {
        assert n - 1 in at;
        var i :| 0 <= i < |at| && at[i] == n - 1;
      }
    }
  }

  // ----- Lists without skipped entries between files -----

  predicate SkippedBy(skip: string -> bool, x: Item) {
    x.isFolder || skip(x.path)
  }

  /** No skipped entry lies between two files. */
  predicate NoneBetween(skip: string -> bool, t: seq<Item>) {
    forall i, j, k :: 0 <= i < j < k < |t| && !SkippedBy(skip, t[i]) && !SkippedBy(skip, t[k]) ==> !SkippedBy(skip, t[j])
  }

  /** The runs of neighbouring entries that make up the entries of the stacked list. */
  function Runs(r: Rules, t: seq<Item>): seq<seq<Item>>
    requires Advancing(r)
    decreases |t|
  {
    if t == [] then []
    else if Skipped(r, t[0]) then [[t[0]]] + Runs(r, t[1..])
    else
      match FindStack(r, t, 0, 0)
      case NoStack => [[t[0]]] + Runs(r, t[1..])
      case Stack(at, _, _, _) =>
        StackFits(r, t);
        [t[..|at|]] + Runs(r, t[|at|..])
  }

  function Flatten(rs: seq<seq<Item>>): seq<Item> {
    if rs == [] then [] else rs[0] + Flatten(rs[1..])
  }

  predicate AllFiles(r: Rules, run: seq<Item>) {
    forall k :: 0 <= k < |run| ==> !Skipped(r, run[k])
  }

  /** All entries of the run are parts of the first one's title under one of the expressions, and the name that
      makes the caption is that title with what the expression ignores and the extension, without the volume. */
  ghost predicate OneTitle(r: Rules, run: seq<Item>, caption: string)
    requires run != []
  {
    exists e: nat, offset: nat, name ::
      e < r.count && OneTitleUnder(r, run, e, offset) && IsStackName(r, Name(r, run[0]), e, offset, name) && caption == r.caption(name)
  }

  /** The first file's name without its volume. */
  predicate IsStackName(r: Rules, file: string, e: nat, offset: nat, name: string) {
    var m := r.find(e, file, offset);
    && m.Some?
    && name == (if offset == 0 then m.value.title else file[..Least(m.value.volumeStart, |file|)])
               + m.value.ignore + m.value.extension
  }

  ghost predicate OneTitleUnder(r: Rules, run: seq<Item>, e: nat, offset: nat) {
    forall k :: 1 <= k < |run| ==> PartOf(r, run, e, offset, k)
  }

  /** An entry of the stacked list is an entry left alone, or stands for a run of one title: it has the
      run's total size and its stack path (the first path for a RAR set). */
  ghost predicate StandsFor(r: Rules, x: Item, run: seq<Item>) {
    && run != []
    && (|run| == 1 ==> x == run[0])
    && (|run| > 1 ==>
          && AllFiles(r, run) && OneTitle(r, run, x.caption) && x.size == Size(run) && !x.isFolder
          && x.path == if r.isRar(run[0].path) then run[0].path else r.stackPath(Paths(run)))
  }

  /** The runs put together are the list, in order, and each entry of `out` stands for one of them. */
  ghost predicate PartitionedBy(r: Rules, t: seq<Item>, out: seq<Item>, runs: seq<seq<Item>>) {
    && Flatten(runs) == t && |out| == |runs|
    && forall k :: 0 <= k < |runs| ==> StandsFor(r, out[k], runs[k])
  }

  /** Stacking partitions the list. */
  ghost predicate Partitions(r: Rules, t: seq<Item>)
    requires Advancing(r)
  {
    exists runs :: PartitionedBy(r, t, StackList(r, t), runs)
  }

  lemma {:induction false} FirstRun(r: Rules, t: seq<Item>)
    requires t != [] && Advancing(r) && NoneBetween(r.isSkippedPath, t) && !Skipped(r, t[0]) && FindStack(r, t, 0, 0).Stack?
    ensures var s := FindStack(r, t, 0, 0);
      && 1 < |s.at| <= |t| && Within(s.at, |t|) && Members(t, s.at) == t[..|s.at|]
      && StandsFor(r, Merged(r, Members(t, s.at), s.name), t[..|s.at|])
      && (|s.at| < |t| ==> !PartOf(r, t, s.e, s.offset, |s.at|))
  {
    var s := FindStack(r, t, 0, 0);
    var n := StackIsLongestRun(r, t, 0, 0);
    StackIsNamed(r, t, 0, 0);
    StackFits(r, t);
    FilesInFront(r, t, s.e, s.offset, n, s.at);
    DenseIff(r, t, s.e, s.offset, n, s.at);
    RunOf(r, t, s.e, s.offset, n, s.at, s.name);
  }

  /** Files that stand next to each other from the front on are a run of one title, and the longest. */
  lemma {:induction false} RunOf(r: Rules, t: seq<Item>, e: nat, offset: nat, n: nat, at: seq<nat>,
                                name: string)
    requires 1 <= n <= |t| && Collected(r, t, e, offset, n, at) && 1 < |at| <= |t| && !Skipped(r, t[0])
    requires IsStackName(r, Name(r, t[0]), e, offset, name)
    requires forall k :: 0 <= k < |at| ==> at[k] == k
    requires e < r.count && (n < |t| ==> !PartOf(r, t, e, offset, n))
    ensures Members(t, at) == t[..|at|] && AllFiles(r, t[..|at|]) && OneTitle(r, t[..|at|], r.caption(name))
    ensures |at| < |t| ==> !PartOf(r, t, e, offset, |at|)
  {
    assert Members(t, at) == t[..|at|];
    RunIsOneTitle(r, t, at, e, offset, name);
    assert |at| !in at;
    assert at[|at| - 1] < n;
  }

  /** Up to the last file of a stack there are only files. */
  lemma {:induction false} FilesInFront(r: Rules, t: seq<Item>, e: nat, offset: nat, n: nat, at: seq<nat>)
    requires 1 <= n <= |t| && Collected(r, t, e, offset, n, at) && at != []
    requires NoneBetween(r.isSkippedPath, t) && !Skipped(r, t[0])
    ensures forall k :: 1 <= k < |t| && k <= at[|at| - 1] ==> !Skipped(r, t[k])
  {
    var last := at[|at| - 1];
    assert PartOf(r, t, e, offset, last);
    forall k | 1 <= k < |t| && k <= last ensures !Skipped(r, t[k]) {
      assert !SkippedBy(r.isSkippedPath, t[0]) && !SkippedBy(r.isSkippedPath, t[last]);
    }
  }

  lemma RunIsOneTitle(r: Rules, t: seq<Item>, at: seq<nat>, e: nat, offset: nat, name: string)
    requires |t| > 0 && IsStackName(r, Name(r, t[0]), e, offset, name)
    requires 1 < |at| <= |t| && forall k :: 0 <= k < |at| ==> at[k] == k
    requires e < r.count && !Skipped(r, t[0]) && forall k :: 1 <= k < |at| ==> PartOf(r, t, e, offset, at[k])
    ensures AllFiles(r, t[..|at|]) && OneTitle(r, t[..|at|], r.caption(name))
  {
    var run := t[..|at|];
    forall k | 1 <= k < |run| ensures PartOf(r, run, e, offset, k) {
      assert PartOf(r, t, e, offset, at[k]);
    }
    assert OneTitleUnder(r, run, e, offset);
    forall k | 0 <= k < |run| ensures !Skipped(r, run[k]) {
      if k > 0 { assert PartOf(r, run, e, offset, k); }
    }
  }

  /** The first entry of the stacked list, its run, and the rest. */
  lemma {:induction false} FirstEntry(r: Rules, t: seq<Item>) returns (n: nat, x: Item)
    requires t != [] && Advancing(r) && NoneBetween(r.isSkippedPath, t)
    ensures 1 <= n <= |t| && StandsFor(r, x, t[..n]) && x.size == Size(t[..n])
    ensures StackList(r, t) == [x] + StackList(r, t[n..])
    ensures Runs(r, t) == [t[..n]] + Runs(r, t[n..])
  {
    if !Skipped(r, t[0]) && FindStack(r, t, 0, 0).Stack? {
      var s := FindStack(r, t, 0, 0);
      FirstRun(r, t);
      n, x := |s.at|, Merged(r, Members(t, s.at), s.name);
    } else {
      n, x := 1, t[0];
      assert t[..1] == [t[0]] && t[..1][..0] == [];
    }
  }

  lemma CutAt(t: seq<Item>, n: nat)
    requires n <= |t|
    ensures t == t[..n] + t[n..]
  {
  }

  lemma {:induction false} NoneBetweenRest(skip: string -> bool, t: seq<Item>, n: nat)
    requires NoneBetween(skip, t) && n <= |t|
    ensures NoneBetween(skip, t[n..])
  {
    var u := t[n..];
    forall i, j, k | 0 <= i < j < k < |u| && !SkippedBy(skip, u[i]) && !SkippedBy(skip, u[k]) ensures !SkippedBy(skip, u[j]) {
      assert u[i] == t[n + i] && u[j] == t[n + j] && u[k] == t[n + k];
    }
  }

  /** Stacking a list without skipped entries between files partitions it, in order. */
  lemma {:induction false} StackingPartitions(r: Rules, t: seq<Item>)
    requires Advancing(r) && NoneBetween(r.isSkippedPath, t)
    ensures PartitionedBy(r, t, StackList(r, t), Runs(r, t))
    decreases |t|
  {
    if t != [] {
      var n, x := FirstEntry(r, t);
      NoneBetweenRest(r.isSkippedPath, t, n);
      StackingPartitions(r, t[n..]);
      PartitionedFront(r, t, n, x, StackList(r, t[n..]), Runs(r, t[n..]));
    }
  }

  lemma {:induction false} PartitionedFront(r: Rules, t: seq<Item>, n: nat, x: Item, rest: seq<Item>, runs: seq<seq<Item>>)
    requires n <= |t| && StandsFor(r, x, t[..n]) && PartitionedBy(r, t[n..], rest, runs)
    ensures PartitionedBy(r, t, [x] + rest, [t[..n]] + runs)
  {
    CutAt(t, n);
    assert ([t[..n]] + runs)[1..] == runs;
    forall k | 0 <= k < |runs| + 1 ensures StandsFor(r, ([x] + rest)[k], ([t[..n]] + runs)[k]) {
      if k > 0 { assert StandsFor(r, rest[k - 1], runs[k - 1]); }
    }
  }

  lemma {:induction false} SizeAdds(a: seq<Item>, b: seq<Item>)
    ensures Size(a + b) == Size(a) + Size(b)
  {
    if b == [] {
      assert a + b == a;
    } else {
      SizeAdds(a, b[..|b| - 1]);
      assert (a + b)[..|a + b| - 1] == a + b[..|b| - 1];
    }
  }

  lemma SizeSplits(t: seq<Item>, n: nat)
    requires n <= |t|
    ensures Size(t) == Size(t[..n]) + Size(t[n..])
    ensures n == 1 ==> Size(t[..1]) == t[0].size
  {
    SizeAdds(t[..n], t[n..]);
    assert t[..n] + t[n..] == t;
    if n == 1 { assert t[..1][..0] == []; }
  }

  /** Stacking such a list conserves the total size. */
  lemma {:induction false} StackingKeepsSize(r: Rules, t: seq<Item>)
    requires Advancing(r) && NoneBetween(r.isSkippedPath, t)
    ensures Size(StackList(r, t)) == Size(t)
    decreases |t|
  {
    if t != [] {
      var n, x := FirstEntry(r, t);
      NoneBetweenRest(r.isSkippedPath, t, n);
      StackingKeepsSize(r, t[n..]);
      assert ([x] + StackList(r, t[n..]))[1..] == StackList(r, t[n..]);
      SizeSplits([x] + StackList(r, t[n..]), 1);
      SizeSplits(t, n);
    }
  }
}
