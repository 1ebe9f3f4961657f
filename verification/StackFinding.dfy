/** When stacking finds a stack for a file, and under which expression and offset: the exact condition on the
    matches of its name and of the next file's. */
module StackFinding {
  import opened Stacking

  // ----- The offsets that are tried -----

  /** Both names match from `offset` with one title and volume but different ignored parts: the search is
      repeated from where the ignored part of the second name starts. */
  predicate Repeats(r: Rules, e: nat, a: string, b: string, offset: nat) {
    var m1, m2 := r.find(e, a, offset), r.find(e, b, offset);
    && m1.Some? && m2.Some? && SameTitle(r, offset, a, m1.value, b, m2.value)
    && r.fold(m1.value.volume) == r.fold(m2.value.volume) && r.fold(m1.value.ignore) != r.fold(m2.value.ignore)
  }

  function Repeated(r: Rules, e: nat, a: string, b: string, offset: nat): nat
    requires Repeats(r, e, a, b, offset)
  {
    r.find(e, b, offset).value.ignoreStart
  }

  /** Where the search goes from an offset, if it is repeated. */
  function Steps(r: Rules, e: nat, a: string, b: string): nat -> Option<nat> {
    (o: nat) => if Repeats(r, e, a, b, o) then Some(Repeated(r, e, a, b, o)) else None
  }

  /** The `n`th offset: first 0, then where each repetition goes. */
  function Iterate(step: nat -> Option<nat>, n: nat): Option<nat> {
    if n == 0 then Some(0)
    else
      match Iterate(step, n - 1)
      case None => None
      case Some(o) => step(o)
  }

  ghost predicate Climbs(step: nat -> Option<nat>) {
    forall o: nat :: step(o).Some? ==> o < step(o).value
  }

  lemma {:induction false} IterateGrows(step: nat -> Option<nat>, n: nat, m: nat)
    requires Climbs(step) && n <= m && Iterate(step, m).Some?
    ensures Iterate(step, n).Some? && (n < m ==> Iterate(step, n).value < Iterate(step, m).value)
  {
    if n < m { IterateGrows(step, n, m - 1); }
  }

  lemma {:induction false} IterateInOrder(step: nat -> Option<nat>, n: nat, m: nat)
    requires Climbs(step) && Iterate(step, n).Some? && Iterate(step, m).Some? && Iterate(step, n).value < Iterate(step, m).value
    ensures var o := Iterate(step, n).value; step(o).Some? && step(o).value <= Iterate(step, m).value
  {
    if m <= n { IterateGrows(step, m, n); }
    IterateGrows(step, n + 1, m);
  }

  /** The offsets that an expression is searched from. */
  ghost predicate Tried(r: Rules, e: nat, a: string, b: string, offset: nat) {
    exists n :: Iterate(Steps(r, e, a, b), n) == Some(offset)
  }

  lemma StepsClimb(r: Rules, e: nat, a: string, b: string)
    requires Advancing(r)
    ensures Climbs(Steps(r, e, a, b))
  {
  }

  /** From an offset that is tried the search goes on to the next one that is, or no further. */
  lemma {:induction false} TriedInOrder(r: Rules, e: nat, a: string, b: string, o: nat, q: nat)
    requires Advancing(r) && Tried(r, e, a, b, o) && Tried(r, e, a, b, q) && o < q
    ensures Repeats(r, e, a, b, o) && Repeated(r, e, a, b, o) <= q
  {
    var step := Steps(r, e, a, b);
    var n: nat :| Iterate(step, n) == Some(o);
    var m: nat :| Iterate(step, m) == Some(q);
    StepsClimb(r, e, a, b);
    IterateInOrder(step, n, m);
  }

  lemma {:induction false} TriedNext(r: Rules, e: nat, a: string, b: string, o: nat)
    requires Advancing(r) && Tried(r, e, a, b, o) && Repeats(r, e, a, b, o)
    ensures o < Repeated(r, e, a, b, o) && Tried(r, e, a, b, Repeated(r, e, a, b, o))
  {
    var step := Steps(r, e, a, b);
    var n: nat :| Iterate(step, n) == Some(o);
    assert Iterate(step, n + 1) == step(o) == Some(Repeated(r, e, a, b, o));
  }

  lemma TriedFirst(r: Rules, e: nat, a: string, b: string)
    ensures Tried(r, e, a, b, 0)
  {
    assert Iterate(Steps(r, e, a, b), 0) == Some(0);
  }

  // ----- The condition -----

  /** `t[k]` is the first entry after `t[0]` that is not skipped. */
  predicate NextFile(r: Rules, t: seq<Item>, k: nat) {
    0 < k < |t| && !Skipped(r, t[k]) && forall j :: 0 < j < k ==> Skipped(r, t[j])
  }

  /** From an offset that is tried, `t[k]` is a part of the title of `t[0]`. */
  ghost predicate Pairs(r: Rules, t: seq<Item>, k: nat, e: nat, offset: nat)
    requires k < |t|
  {
    Tried(r, e, Name(r, t[0]), Name(r, t[k]), offset) && PartOf(r, t, e, offset, k)
  }

  /** Expression `e` from `offset` on comes in turn from (`e0`, `offset0`) on. */
  predicate NotBefore(e0: nat, offset0: nat, e: nat, offset: nat) {
    e0 < e || (e0 == e && offset0 <= offset)
  }

  /** The expression and offset of the first pair, from the given ones on. */
  ghost predicate FirstPair(r: Rules, t: seq<Item>, k: nat, e0: nat, offset0: nat, e: nat, offset: nat)
    requires k < |t|
  {
    && NotBefore(e0, offset0, e, offset) && e < r.count && Pairs(r, t, k, e, offset)
    && forall f: nat, o: nat :: NotBefore(e0, offset0, f, o) && f < r.count && Pairs(r, t, k, f, o) ==> NotBefore(e, offset, f, o)
  }

  ghost predicate NoPair(r: Rules, t: seq<Item>, k: nat, e0: nat, offset0: nat)
    requires k < |t|
  {
    forall f: nat, o: nat :: NotBefore(e0, offset0, f, o) && f < r.count ==> !Pairs(r, t, k, f, o)
  }

  // ----- What the scan does up to the next file -----

  lemma {:induction false} ScanGrows(r: Rules, t: seq<Item>, e: nat, offset: nat, j: nat, stack: seq<nat>)
    requires 1 <= j <= |t| && |stack| > 1
    ensures |Scan(r, t, e, offset, j, stack).stack| > 1
    decreases |t| - j
  {
    if j < |t| {
      if Skipped(r, t[j]) {
        ScanGrows(r, t, e, offset, j + 1, stack);
      } else if Compare(r, e, offset, Name(r, t[0]), Name(r, t[j])).Joins? {
        ScanGrows(r, t, e, offset, j + 1, Pushed(stack, j));
      }
    }
  }

  lemma {:induction false} ScanToNext(r: Rules, t: seq<Item>, e: nat, offset: nat, k: nat, j: nat)
    requires NextFile(r, t, k) && 1 <= j <= k
    ensures var s := Scan(r, t, e, offset, j, []); var v := Compare(r, e, offset, Name(r, t[0]), Name(r, t[k]));
      if v.Joins? then |s.stack| > 1 else s == Scanned([], false, v)
    decreases k - j
  {
    if j < k {
      ScanToNext(r, t, e, offset, k, j + 1);
    } else if Compare(r, e, offset, Name(r, t[0]), Name(r, t[k])).Joins? {
      ScanGrows(r, t, e, offset, k + 1, Pushed([], k));
    }
  }

  /** The verdict on the next file, in terms of the matches. */
  lemma CompareMeans(r: Rules, t: seq<Item>, e: nat, offset: nat, k: nat)
    requires k < |t| && !Skipped(r, t[k])
    ensures var a, b := Name(r, t[0]), Name(r, t[k]); var v := Compare(r, e, offset, a, b);
      && (v.Joins? <==> PartOf(r, t, e, offset, k))
      && (v.Again? <==> Repeats(r, e, a, b, offset))
      && (v.Again? ==> v.offset == Repeated(r, e, a, b, offset))
  {
    var a, b := Name(r, t[0]), Name(r, t[k]);
    var m1, m2 := r.find(e, a, offset), r.find(e, b, offset);
    CompareIsPartOf(r, t, e, offset, k);
    if m1.Some? && m2.Some? { TitlesAgree(r, offset, a, m1.value, b, m2.value); }
  }

  // ----- The search -----

  /** Nothing pairs between an offset and the next one that is tried. */
  lemma {:induction false} SkipsTo(r: Rules, t: seq<Item>, k: nat, e: nat, offset: nat, f: nat, o: nat)
    requires Advancing(r) && k < |t| && Tried(r, e, Name(r, t[0]), Name(r, t[k]), offset) && !PartOf(r, t, e, offset, k)
    requires NotBefore(e, offset, f, o) && Pairs(r, t, k, f, o)
    ensures var a, b := Name(r, t[0]), Name(r, t[k]);
      if Repeats(r, e, a, b, offset) then NotBefore(e, Repeated(r, e, a, b, offset), f, o) else NotBefore(e + 1, 0, f, o)
  {
    if e == f { TriedInOrder(r, e, Name(r, t[0]), Name(r, t[k]), offset, o); }
  }

  /** Where the search goes on from an offset without a pair. */
  function GoesOnAt(r: Rules, t: seq<Item>, k: nat, e: nat, offset: nat): (nat, nat)
    requires k < |t|
  {
    var a, b := Name(r, t[0]), Name(r, t[k]);
    if Repeats(r, e, a, b, offset) then (e, Repeated(r, e, a, b, offset)) else (e + 1, 0)
  }

  /** The first pair from there on is the first from here on. */
  lemma {:induction false} NoneSkipped(r: Rules, t: seq<Item>, k: nat, e: nat, offset: nat)
    requires Advancing(r) && k < |t| && Tried(r, e, Name(r, t[0]), Name(r, t[k]), offset) && !PartOf(r, t, e, offset, k)
    ensures var (f, o) := GoesOnAt(r, t, k, e, offset);
      && (NoPair(r, t, k, f, o) ==> NoPair(r, t, k, e, offset))
      && forall g: nat, p: nat :: FirstPair(r, t, k, f, o, g, p) ==> FirstPair(r, t, k, e, offset, g, p)
  {
    var (f, o) := GoesOnAt(r, t, k, e, offset);
    forall g: nat, p: nat | NotBefore(e, offset, g, p) && Pairs(r, t, k, g, p) ensures NotBefore(f, o, g, p) {
      SkipsTo(r, t, k, e, offset, g, p);
    }
    if Repeats(r, e, Name(r, t[0]), Name(r, t[k]), offset) { TriedNext(r, e, Name(r, t[0]), Name(r, t[k]), offset); }
    assert forall g: nat, p: nat :: NotBefore(f, o, g, p) ==> NotBefore(e, offset, g, p);
  }

  /** The search over expressions and offsets finds the first pair, if there is one. */
  lemma {:induction false} FindsFirst(r: Rules, t: seq<Item>, k: nat, e: nat, offset: nat)
    requires Advancing(r) && NextFile(r, t, k) && e <= r.count && offset <= Longest(r, t)
    requires Tried(r, e, Name(r, t[0]), Name(r, t[k]), offset)
    ensures var found := FindStack(r, t, e, offset);
      if found.Stack? then FirstPair(r, t, k, e, offset, found.e, found.offset) else NoPair(r, t, k, e, offset)
    decreases r.count - e, Longest(r, t) - offset
  {
    if e < r.count {
      if PartOf(r, t, e, offset, k) {
        FoundHere(r, t, k, e, offset);
      } else {
        var (f, o) := GoesOnAt(r, t, k, e, offset);
        FoundLater(r, t, k, e, offset);
        NoneSkipped(r, t, k, e, offset);
        FindsFirst(r, t, k, f, o);
      }
    }
  }

  /** Otherwise it goes on. */
  lemma FoundLater(r: Rules, t: seq<Item>, k: nat, e: nat, offset: nat)
    requires Advancing(r) && NextFile(r, t, k) && e < r.count && offset <= Longest(r, t)
    requires Tried(r, e, Name(r, t[0]), Name(r, t[k]), offset) && !PartOf(r, t, e, offset, k)
    ensures var (f, o) := GoesOnAt(r, t, k, e, offset);
      && (f == e ==> offset < o) && e <= f <= r.count && o <= Longest(r, t)
      && Tried(r, f, Name(r, t[0]), Name(r, t[k]), o)
      && FindStack(r, t, e, offset) == FindStack(r, t, f, o)
  {
    var a, b := Name(r, t[0]), Name(r, t[k]);
    ScanToNext(r, t, e, offset, k, 1);
    CompareMeans(r, t, e, offset, k);
    ScanStops(r, t, e, offset, 1, []);
    if Repeats(r, e, a, b, offset) { TriedNext(r, e, a, b, offset); } else { TriedFirst(r, e + 1, a, b); }
  }

  lemma FoundHere(r: Rules, t: seq<Item>, k: nat, e: nat, offset: nat)
    requires Advancing(r) && NextFile(r, t, k) && e < r.count && offset <= Longest(r, t)
    requires Tried(r, e, Name(r, t[0]), Name(r, t[k]), offset) && PartOf(r, t, e, offset, k)
    ensures var found := FindStack(r, t, e, offset);
      found.Stack? && found.e == e && found.offset == offset && FirstPair(r, t, k, e, offset, e, offset)
  {
    ScanToNext(r, t, e, offset, k, 1);
    CompareMeans(r, t, e, offset, k);
  }

  lemma {:induction false} ScanAlone(r: Rules, t: seq<Item>, e: nat, offset: nat, j: nat)
    requires 1 <= j <= |t| && forall i :: j <= i < |t| ==> Skipped(r, t[i])
    ensures Scan(r, t, e, offset, j, []) == Scanned([], true, GiveUp)
    decreases |t| - j
  {
    if j < |t| { ScanAlone(r, t, e, offset, j + 1); }
  }

  /** A file with no other one behind it has no stack. */
  lemma {:induction false} NoneAlone(r: Rules, t: seq<Item>, e: nat)
    requires Advancing(r) && t != [] && e <= r.count && forall i :: 1 <= i < |t| ==> Skipped(r, t[i])
    ensures FindStack(r, t, e, 0) == NoStack
    decreases r.count - e
  {
    if e < r.count {
      ScanAlone(r, t, e, 0, 1);
      NoneAlone(r, t, e + 1);
    }
  }

  /** The next file after `t[0]` is a part of its title under one of the expressions, from an offset that is
      tried. */
  ghost predicate HasPartner(r: Rules, t: seq<Item>) {
    exists k, e: nat, offset: nat :: NextFile(r, t, k) && e < r.count && Pairs(r, t, k, e, offset)
  }

  lemma {:induction false} NextFileOf(r: Rules, t: seq<Item>, j: nat) returns (k: nat)
    requires 1 <= j <= |t| && forall i :: 1 <= i < j ==> Skipped(r, t[i])
    ensures k == |t| || NextFile(r, t, k)
    ensures k == |t| ==> forall i :: 1 <= i < |t| ==> Skipped(r, t[i])
    decreases |t| - j
  {
    if j < |t| && Skipped(r, t[j]) { k := NextFileOf(r, t, j + 1); } else { k := j; }
  }

  /** A stack is found if and only if the next file is a part of the title, under the first expression and
      offset for which it is. */
  lemma {:induction false} FoundIff(r: Rules, t: seq<Item>)
    requires Advancing(r) && t != []
    ensures FindStack(r, t, 0, 0).Stack? <==> HasPartner(r, t)
    ensures var found := FindStack(r, t, 0, 0); forall k :: found.Stack? && NextFile(r, t, k) ==>
      FirstPair(r, t, k, 0, 0, found.e, found.offset)
  {
    var k := NextFileOf(r, t, 1);
    assert forall i :: NextFile(r, t, i) ==> i == k;
    if k == |t| {
      NoneAlone(r, t, 0);
    } else {
      TriedFirst(r, 0, Name(r, t[0]), Name(r, t[k]));
      FindsFirst(r, t, k, 0, 0);
    }
  }

  /** The entry stands for a stack of `n` files that `head` heads. */
  ghost predicate StackOf(r: Rules, x: Item, head: Item, n: nat) {
    exists members, name :: |members| == n && n > 1 && members[0] == head && x == Merged(r, members, name)
  }

  lemma FirstTurn(r: Rules, t: seq<Item>)
    requires Advancing(r) && t != []
    ensures var n := TurnLength(r, t);
      && StackList(r, t) != []
      && if !Skipped(r, t[0]) && FindStack(r, t, 0, 0).Stack? then StackOf(r, StackList(r, t)[0], t[0], n)
         else n == 1 && StackList(r, t)[0] == t[0]
  {
    if !Skipped(r, t[0]) && FindStack(r, t, 0, 0).Stack? {
      var s := FindStack(r, t, 0, 0);
      StackFits(r, t);
      var members := Members(t, s.at);
      assert members[0] == t[0] && |members| == |s.at| && StackList(r, t)[0] == Merged(r, members, s.name);
    }
  }

  /** The entry that is left of `t[0]`, and `n`, how many entries its turn takes. */
  ghost predicate TurnOf(r: Rules, t: seq<Item>, x: Item, n: int)
    requires Advancing(r) && t != []
  {
    if !Skipped(r, t[0]) && HasPartner(r, t) then n > 1 && StackOf(r, x, t[0], n) else n == 1 && x == t[0]
  }

  lemma TurnIs(r: Rules, t: seq<Item>)
    requires Advancing(r) && t != []
    ensures StackList(r, t) != [] && TurnOf(r, t, StackList(r, t)[0], TurnLength(r, t))
  {
    FoundIff(r, t);
    FirstTurn(r, t);
  }

  lemma HeadAtNext(r: Rules, t: seq<Item>, k: nat)
    requires Advancing(r) && t != []
    ensures HeadAt(r, t, 0) == 0 && HeadAt(r, t, k + 1) == TurnLength(r, t) + HeadAt(r, t[TurnLength(r, t)..], k)
  {
  }

  lemma ListTail(r: Rules, t: seq<Item>, k: nat)
    requires Advancing(r) && t != [] && 0 < k < |StackList(r, t)|
    ensures k - 1 < |StackList(r, t[TurnLength(r, t)..])|
    ensures StackList(r, t)[k] == StackList(r, t[TurnLength(r, t)..])[k - 1]
  {
    StackListTurn(r, t);
  }

  /** The list from the entry on whose turn leaves the `k`th entry. */
  function TurnTail(r: Rules, t: seq<Item>, k: nat): seq<Item>
    requires Advancing(r)
    decreases k
  {
    if k == 0 || t == [] then t else TurnTail(r, t[TurnLength(r, t)..], k - 1)
  }

  /** The entries left are what is left of each turn. */
  ghost predicate FirstIs(r: Rules, t: seq<Item>, x: Item)
    requires Advancing(r)
  {
    t != [] && StackList(r, t) != [] && StackList(r, t)[0] == x
  }

  lemma {:induction false} EntryOfTurn(r: Rules, t: seq<Item>, k: nat, x: Item)
    requires Advancing(r) && t != [] && k < |StackList(r, t)| && x == StackList(r, t)[k]
    ensures FirstIs(r, TurnTail(r, t, k), x)
    decreases k
  {
    if k > 0 {
      ListTail(r, t, k);
      EntryOfTurn(r, t[TurnLength(r, t)..], k - 1, x);
      TailStep(r, t, k);
    }
  }

  lemma TailStep(r: Rules, t: seq<Item>, k: nat)
    requires Advancing(r) && t != [] && k > 0
    ensures TurnTail(r, t, k) == TurnTail(r, t[TurnLength(r, t)..], k - 1)
  {
  }

  lemma {:induction false} TailAt(r: Rules, t: seq<Item>, k: nat)
    requires Advancing(r) && t != [] && TurnTail(r, t, k) != []
    ensures var i := HeadAt(r, t, k);
      i < |t| && TurnTail(r, t, k) == t[i..] && HeadAt(r, t, k + 1) == i + TurnLength(r, TurnTail(r, t, k))
    decreases k
  {
    var n := TurnLength(r, t);
    HeadAtNext(r, t, k);
    if k == 0 {
      assert t[0..] == t;
    } else {
      HeadAtNext(r, t, k - 1);
      TailAt(r, t[n..], k - 1);
      var m := HeadAt(r, t[n..], k - 1);
      assert t[n..][m..] == t[n + m..];
    }
  }

  /** What is left of each entry whose turn comes: it stands for a stack exactly when it is a file and the next
      file is a part of its title, and else it stays as it was. */
  lemma {:induction false} EntryStacks(r: Rules, t: seq<Item>, k: nat)
    requires Advancing(r) && t != [] && k < |StackList(r, t)|
    ensures var i := HeadAt(r, t, k); i < |t| && TurnOf(r, t[i..], StackList(r, t)[k], HeadAt(r, t, k + 1) - i)
  {
    EntryOfTurn(r, t, k, StackList(r, t)[k]);
    TailAt(r, t, k);
    TurnIs(r, TurnTail(r, t, k));
  }
}
