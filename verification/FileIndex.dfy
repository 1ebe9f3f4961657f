/** The path index of `CFileItemList`, beside the list it must agree with. `T` stands for the shared
    pointers to the items; `strip` removes the options from a URL. */
module FileIndex {

  datatype Option<+T> = None | Some(value: T)

  datatype Entry<T> = Entry(path: string, item: T)

  /** The list, the map (empty unless fast lookup is on), and the two switches. */
  datatype Listing<T> = Listing(entries: seq<Entry<T>>, index: map<string, T>, fast: bool, ignoring: bool)

  type Strip = string -> string

  /** The key under which a path is looked up. */
  function Key(strip: Strip, ignoring: bool, path: string): string {
    if ignoring then strip(path) else path
  }

  /** The first entry whose path is `p`. */
  function FirstPath<T>(es: seq<Entry<T>>, p: string): Option<T> {
    if es == [] then None else if es[0].path == p then Some(es[0].item) else FirstPath(es[1..], p)
  }

  /** The first entry whose key is `k`. */
  function FirstKey<T>(strip: Strip, ignoring: bool, es: seq<Entry<T>>, k: string): Option<T> {
    if es == [] then None
    else if Key(strip, ignoring, es[0].path) == k then Some(es[0].item)
    else FirstKey(strip, ignoring, es[1..], k)
  }

  function ThroughMap<T>(strip: Strip, l: Listing<T>, name: string): Option<T> {
    var k := Key(strip, l.ignoring, name);
    if k in l.index then Some(l.index[k]) else None
  }

  function ThroughList<T>(strip: Strip, l: Listing<T>, name: string): Option<T> {
    FirstPath(l.entries, Key(strip, l.ignoring, name))
  }

  /** `Get` by path; `Contains` is whether this is Some. */
  function Get<T>(strip: Strip, l: Listing<T>, name: string): Option<T> {
    if l.fast then ThroughMap(strip, l, name) else ThroughList(strip, l, name)
  }

  // ----- Operations -----

  /** `std::map::insert`: an existing key keeps its value. */
  function Insert<T>(m: map<string, T>, k: string, v: T): map<string, T> {
    if k in m then m else m[k := v]
  }

  function Built<T>(strip: Strip, ignoring: bool, es: seq<Entry<T>>): map<string, T> {
    if es == [] then map[]
    else
      var last := es[|es| - 1];
      Insert(Built(strip, ignoring, es[..|es| - 1]), Key(strip, ignoring, last.path), last.item)
  }

  function SetFast<T>(strip: Strip, l: Listing<T>, fast: bool): Listing<T> {
    if fast && !l.fast then l.(index := Built(strip, l.ignoring, l.entries), fast := true)
    else if !fast && l.fast then l.(index := map[], fast := false)
    else l
  }

  function SetIgnoring<T>(strip: Strip, l: Listing<T>, ignoring: bool): Listing<T> {
    var n := l.(ignoring := ignoring);
    if l.fast then SetFast(strip, n.(fast := false), true) else n
  }

  function InsertIfFast<T>(strip: Strip, l: Listing<T>, e: Entry<T>): map<string, T> {
    if l.fast then Insert(l.index, Key(strip, l.ignoring, e.path), e.item) else l.index
  }

  function Add<T>(strip: Strip, l: Listing<T>, e: Entry<T>): Listing<T> {
    l.(entries := l.entries + [e], index := InsertIfFast(strip, l, e))
  }

  /** `AddFront`: a negative position counts from the end. */
  function FrontPosition(size: nat, position: int): int {
    if position >= 0 then position else size + position
  }

  function AddFront<T>(strip: Strip, l: Listing<T>, e: Entry<T>, position: int): Listing<T>
    requires 0 <= FrontPosition(|l.entries|, position) <= |l.entries|
  {
    var at := FrontPosition(|l.entries|, position);
    l.(entries := l.entries[..at] + [e] + l.entries[at..], index := InsertIfFast(strip, l, e))
  }

  function RemoveAt<T>(strip: Strip, l: Listing<T>, i: int): Listing<T> {
    if 0 <= i < |l.entries| then
      l.(entries := l.entries[..i] + l.entries[i + 1..],
         index := if l.fast then l.index - {Key(strip, l.ignoring, l.entries[i].path)} else l.index)
    else l
  }

  function Position<T(==)>(es: seq<Entry<T>>, item: T): (i: int)
    ensures -1 <= i < |es| && (i >= 0 ==> es[i].item == item)
    ensures forall j :: 0 <= j < |es| && (i < 0 || j < i) ==> es[j].item != item
  {
    if es == [] then -1
    else if es[0].item == item then 0
    else var i := Position(es[1..], item); if i < 0 then -1 else i + 1
  }

  function RemoveItem<T(==)>(strip: Strip, l: Listing<T>, item: T): Listing<T> {
    RemoveAt(strip, l, Position(l.entries, item))
  }

  function ClearItems<T>(l: Listing<T>): Listing<T> {
    l.(entries := [], index := map[])
  }

  function Append<T>(strip: Strip, l: Listing<T>, es: seq<Entry<T>>): Listing<T>
    decreases |es|
  {
    if es == [] then l else Append(strip, Add(strip, l, es[0]), es[1..])
  }

  function Swap<T>(l: Listing<T>, i: nat, j: nat): Listing<T> {
    if i != j && i < |l.entries| && j < |l.entries|
    then l.(entries := l.entries[i := l.entries[j]][j := l.entries[i]])
    else l
  }

  // ----- Agreement -----

  /** The map holds, for every key, the first entry with that key; without fast lookup it is empty. */
  ghost predicate IndexOk<T>(strip: Strip, l: Listing<T>) {
    if l.fast then
      forall k :: FirstKey(strip, l.ignoring, l.entries, k) == if k in l.index then Some(l.index[k]) else None
    else l.index == map[]
  }

  ghost predicate DistinctKeys<T>(strip: Strip, l: Listing<T>) {
    forall i, j :: 0 <= i < j < |l.entries| ==>
      Key(strip, l.ignoring, l.entries[i].path) != Key(strip, l.ignoring, l.entries[j].path)
  }

  lemma {:induction false} FirstKeyOfConcat<T>(strip: Strip, ig: bool, a: seq<Entry<T>>, b: seq<Entry<T>>, k: string)
    ensures FirstKey(strip, ig, a + b, k) ==
      if FirstKey(strip, ig, a, k).Some? then FirstKey(strip, ig, a, k) else FirstKey(strip, ig, b, k)
  {
    if a == [] {
      assert a + b == b;
    } else {
      assert (a + b)[1..] == a[1..] + b;
      FirstKeyOfConcat(strip, ig, a[1..], b, k);
    }
  }

  lemma FirstKeyOne<T>(strip: Strip, ig: bool, e: Entry<T>, k: string)
    ensures FirstKey(strip, ig, [e], k) == if Key(strip, ig, e.path) == k then Some(e.item) else None
  {
    assert [e][1..] == [];
  }

  lemma {:induction false} FirstKeySome<T>(strip: Strip, ig: bool, es: seq<Entry<T>>, k: string)
    ensures FirstKey(strip, ig, es, k).Some? <==> exists i :: 0 <= i < |es| && Key(strip, ig, es[i].path) == k
    ensures FirstKey(strip, ig, es, k).Some? ==>
      exists i :: 0 <= i < |es| && Key(strip, ig, es[i].path) == k && es[i].item == FirstKey(strip, ig, es, k).value
  {
    if es != [] {
      FirstKeySome(strip, ig, es[1..], k);
      if FirstKey(strip, ig, es[1..], k).Some? {
        var i :| 0 <= i < |es[1..]| && Key(strip, ig, es[1..][i].path) == k
                 && es[1..][i].item == FirstKey(strip, ig, es[1..], k).value;
        assert es[i + 1] == es[1..][i];
      }
      if i :| 0 <= i < |es| && Key(strip, ig, es[i].path) == k {
        if i > 0 { assert es[1..][i - 1] == es[i]; }
      }
    }
  }

  /** A rebuilt index is right, whatever the list. */
  lemma {:induction false} BuiltIsRight<T>(strip: Strip, ig: bool, es: seq<Entry<T>>, k: string)
    ensures var m := Built(strip, ig, es);
      FirstKey(strip, ig, es, k) == if k in m then Some(m[k]) else None
  {
    if es != [] {
      var init, last := es[..|es| - 1], es[|es| - 1];
      BuiltIsRight(strip, ig, init, k);
      FirstKeyOfConcat(strip, ig, init, [last], k);
      FirstKeyOne(strip, ig, last, k);
      assert es == init + [last];
    }
  }

  lemma SetFastKeeps<T>(strip: Strip, l: Listing<T>, fast: bool)
    requires IndexOk(strip, l)
    ensures IndexOk(strip, SetFast(strip, l, fast))
  {
    forall k ensures var m := Built(strip, l.ignoring, l.entries);
      FirstKey(strip, l.ignoring, l.entries, k) == if k in m then Some(m[k]) else None
    {
      BuiltIsRight(strip, l.ignoring, l.entries, k);
    }
  }

  lemma SetIgnoringKeeps<T>(strip: Strip, l: Listing<T>, ignoring: bool)
    requires IndexOk(strip, l)
    ensures IndexOk(strip, SetIgnoring(strip, l, ignoring))
  {
    forall k ensures var m := Built(strip, ignoring, l.entries);
      FirstKey(strip, ignoring, l.entries, k) == if k in m then Some(m[k]) else None
    {
      BuiltIsRight(strip, ignoring, l.entries, k);
    }
  }

  /** Adding at the end keeps the index right even when the path is there already. */
  lemma AddKeeps<T>(strip: Strip, l: Listing<T>, e: Entry<T>)
    requires IndexOk(strip, l)
    ensures IndexOk(strip, Add(strip, l, e))
  {
    if l.fast {
      forall k ensures var m := Add(strip, l, e).index;
        FirstKey(strip, l.ignoring, l.entries + [e], k) == if k in m then Some(m[k]) else None
      {
        FirstKeyOfConcat(strip, l.ignoring, l.entries, [e], k);
        FirstKeyOne(strip, l.ignoring, e, k);
      }
    }
  }

  lemma {:induction false} AppendKeeps<T>(strip: Strip, l: Listing<T>, es: seq<Entry<T>>)
    requires IndexOk(strip, l)
    ensures IndexOk(strip, Append(strip, l, es))
    decreases |es|
  {
    if es != [] {
      AddKeeps(strip, l, es[0]);
      AppendKeeps(strip, Add(strip, l, es[0]), es[1..]);
    }
  }

  /** Adding elsewhere keeps the index right exactly when no other item with that path comes to stand
      behind the new one. */
  lemma AddFrontKeepsIff<T>(strip: Strip, l: Listing<T>, e: Entry<T>, position: int)
    requires l.fast && IndexOk(strip, l) && 0 <= FrontPosition(|l.entries|, position) <= |l.entries|
    ensures var at := FrontPosition(|l.entries|, position);
      var k := Key(strip, l.ignoring, e.path);
      IndexOk(strip, AddFront(strip, l, e, position)) <==>
      (FirstKey(strip, l.ignoring, l.entries, k).None? || FirstKey(strip, l.ignoring, l.entries[..at], k).Some?
       || FirstKey(strip, l.ignoring, l.entries, k) == Some(e.item))
  {
    var at := FrontPosition(|l.entries|, position);
    var a, b := l.entries[..at], l.entries[at..];
    var n := AddFront(strip, l, e, position);
    forall k ensures FirstKey(strip, l.ignoring, n.entries, k) ==
      if FirstKey(strip, l.ignoring, a, k).Some? then FirstKey(strip, l.ignoring, a, k)
      else if Key(strip, l.ignoring, e.path) == k then Some(e.item) else FirstKey(strip, l.ignoring, b, k)
    {
      FirstKeyOfConcat(strip, l.ignoring, a + [e], b, k);
      FirstKeyOfConcat(strip, l.ignoring, a, [e], k);
      FirstKeyOne(strip, l.ignoring, e, k);
    }
    forall k ensures FirstKey(strip, l.ignoring, l.entries, k) ==
      if FirstKey(strip, l.ignoring, a, k).Some? then FirstKey(strip, l.ignoring, a, k)
      else FirstKey(strip, l.ignoring, b, k)
    {
      assert l.entries == a + b;
      FirstKeyOfConcat(strip, l.ignoring, a, b, k);
    }
  }

  /** Removing an item keeps the index right exactly when no other item has its path. */
  lemma RemoveKeepsIff<T>(strip: Strip, l: Listing<T>, i: nat)
    requires l.fast && IndexOk(strip, l) && i < |l.entries|
    ensures var k := Key(strip, l.ignoring, l.entries[i].path);
      IndexOk(strip, RemoveAt(strip, l, i)) <==>
      forall j :: 0 <= j < |l.entries| && j != i ==> Key(strip, l.ignoring, l.entries[j].path) != k
  {
    var gone := Key(strip, l.ignoring, l.entries[i].path);
    var a, b := l.entries[..i], l.entries[i + 1..];
    var n := RemoveAt(strip, l, i);
    FirstKeySome(strip, l.ignoring, n.entries, gone);
    forall k ensures k != gone ==>
      FirstKey(strip, l.ignoring, n.entries, k) == FirstKey(strip, l.ignoring, l.entries, k)
    {
      assert l.entries == (a + [l.entries[i]]) + b;
      FirstKeyOfConcat(strip, l.ignoring, a + [l.entries[i]], b, k);
      FirstKeyOfConcat(strip, l.ignoring, a, [l.entries[i]], k);
      FirstKeyOne(strip, l.ignoring, l.entries[i], k);
      FirstKeyOfConcat(strip, l.ignoring, a, b, k);
    }
    if j :| 0 <= j < |l.entries| && j != i && Key(strip, l.ignoring, l.entries[j].path) == gone {
      assert n.entries[if j < i then j else j - 1] == l.entries[j];
    }
    if j :| 0 <= j < |n.entries| && Key(strip, l.ignoring, n.entries[j].path) == gone {
      assert n.entries[j] == l.entries[if j < i then j else j + 1];
    }
  }

  lemma {:induction false} FirstKeyUnique<T>(strip: Strip, ig: bool, es: seq<Entry<T>>, i: nat)
    requires i < |es|
    requires forall j :: 0 <= j < i ==> Key(strip, ig, es[j].path) != Key(strip, ig, es[i].path)
    ensures FirstKey(strip, ig, es, Key(strip, ig, es[i].path)) == Some(es[i].item)
  {
    if i > 0 {
      FirstKeyUnique(strip, ig, es[1..], i - 1);
    }
  }

  lemma SwapStaysDistinct<T>(strip: Strip, l: Listing<T>, i: nat, j: nat)
    requires DistinctKeys(strip, l)
    ensures DistinctKeys(strip, Swap(l, i, j))
  {
  }

  /** The first entry with a key is the same before and after a swap, when keys are distinct. */
  lemma SwapKeepsFirst<T>(strip: Strip, l: Listing<T>, i: nat, j: nat, k: string)
    requires DistinctKeys(strip, l) && i < |l.entries| && j < |l.entries| && i != j
    requires FirstKey(strip, l.ignoring, l.entries, k).Some?
    ensures FirstKey(strip, l.ignoring, Swap(l, i, j).entries, k) == FirstKey(strip, l.ignoring, l.entries, k)
  {
    var n := Swap(l, i, j);
    SwapStaysDistinct(strip, l, i, j);
    FirstKeySome(strip, l.ignoring, l.entries, k);
    var a :| 0 <= a < |l.entries| && Key(strip, l.ignoring, l.entries[a].path) == k;
    var b := if a == i then j else if a == j then i else a;
    assert n.entries[b] == l.entries[a];
    FirstKeyUnique(strip, l.ignoring, l.entries, a);
    FirstKeyUnique(strip, l.ignoring, n.entries, b);
  }

  /** With distinct keys the order of the list does not matter to the index. */
  lemma SwapKeeps<T>(strip: Strip, l: Listing<T>, i: nat, j: nat)
    requires IndexOk(strip, l) && DistinctKeys(strip, l)
    ensures IndexOk(strip, Swap(l, i, j))
  {
    var n := Swap(l, i, j);
    if i < |l.entries| && j < |l.entries| && i != j && l.fast {
      SwapStaysDistinct(strip, l, i, j);
      assert Swap(n, i, j).entries == l.entries;
      forall k ensures FirstKey(strip, l.ignoring, n.entries, k) == FirstKey(strip, l.ignoring, l.entries, k) {
        if FirstKey(strip, l.ignoring, l.entries, k).Some? {
          SwapKeepsFirst(strip, l, i, j, k);
        } else if FirstKey(strip, l.ignoring, n.entries, k).Some? {
          SwapKeepsFirst(strip, n, i, j, k);
        }
      }
    }
  }

  // ----- Any sequence of operations -----

  datatype Op<T> =
    | OpAdd(e: Entry<T>) | OpAddFront(e: Entry<T>, position: int)
    | OpRemoveAt(i: int) | OpRemoveItem(item: T)
    | OpClear | OpAppend(es: seq<Entry<T>>) | OpSwap(a: nat, b: nat)
    | OpSetFast(on: bool) | OpSetIgnoring(on: bool)

  predicate Legal<T>(l: Listing<T>, op: Op<T>) {
    op.OpAddFront? ==> 0 <= FrontPosition(|l.entries|, op.position) <= |l.entries|
  }

  function Apply<T(==)>(strip: Strip, l: Listing<T>, op: Op<T>): Listing<T>
    requires Legal(l, op)
  {
    match op
    case OpAdd(e) => Add(strip, l, e)
    case OpAddFront(e, position) => AddFront(strip, l, e, position)
    case OpRemoveAt(i) => RemoveAt(strip, l, i)
    case OpRemoveItem(item) => RemoveItem(strip, l, item)
    case OpClear => ClearItems(l)
    case OpAppend(es) => Append(strip, l, es)
    case OpSwap(a, b) => Swap(l, a, b)
    case OpSetFast(on) => SetFast(strip, l, on)
    case OpSetIgnoring(on) => SetIgnoring(strip, l, on)
  }

  lemma RemoveAtKeeps<T>(strip: Strip, l: Listing<T>, i: int)
    requires IndexOk(strip, l) && DistinctKeys(strip, l)
    ensures IndexOk(strip, RemoveAt(strip, l, i))
  {
    if l.fast && 0 <= i < |l.entries| {
      RemoveKeepsIff(strip, l, i);
    }
  }

  /** With distinct keys before and after, every operation keeps the index right. */
  lemma ApplyKeeps<T>(strip: Strip, l: Listing<T>, op: Op<T>)
    requires IndexOk(strip, l) && Legal(l, op) && DistinctKeys(strip, l) && DistinctKeys(strip, Apply(strip, l, op))
    ensures IndexOk(strip, Apply(strip, l, op))
  {
    match op
    case OpAdd(e) => AddKeeps(strip, l, e);
    case OpAddFront(e, position) =>
      if l.fast {
        AddFrontKeepsIff(strip, l, e, position);
        var at := FrontPosition(|l.entries|, position);
        var n := AddFront(strip, l, e, position);
        FirstKeySome(strip, l.ignoring, l.entries, Key(strip, l.ignoring, e.path));
        forall j | 0 <= j < |l.entries| ensures Key(strip, l.ignoring, l.entries[j].path) != Key(strip, l.ignoring, e.path) {
          assert n.entries[at] == e && n.entries[if j < at then j else j + 1] == l.entries[j];
        }
      }
    case OpRemoveAt(i) => RemoveAtKeeps(strip, l, i);
    case OpRemoveItem(item) => RemoveAtKeeps(strip, l, Position(l.entries, item));
    case OpClear =>
    case OpAppend(es) => AppendKeeps(strip, l, es);
    case OpSwap(a, b) => SwapKeeps(strip, l, a, b);
    case OpSetFast(on) => SetFastKeeps(strip, l, on);
    case OpSetIgnoring(on) => SetIgnoringKeeps(strip, l, on);
  }

  // ----- Where the entries stand -----

  /** Position `at` has been opened for `e`; what was there and behind is one further. */
  ghost predicate Opened<T>(was: seq<Entry<T>>, now: seq<Entry<T>>, at: int, e: Entry<T>) {
    && 0 <= at <= |was| && |now| == |was| + 1 && now[at] == e
    && forall i :: 0 <= i < |was| ==> now[if i < at then i else i + 1] == was[i]
  }

  /** Position `at` has been closed; what was behind is one less far. */
  ghost predicate ClosedUp<T>(was: seq<Entry<T>>, now: seq<Entry<T>>, at: int) {
    && 0 <= at < |was| && |now| == |was| - 1
    && forall i :: 0 <= i < |was| && i != at ==> now[if i < at then i else i - 1] == was[i]
  }

  /** Where each entry stands after an operation. */
  ghost predicate StandAfter<T>(was: seq<Entry<T>>, op: Op<T>, now: seq<Entry<T>>) {
    match op
    case OpAdd(e) => Opened(was, now, |was|, e)
    case OpAddFront(e, position) => Opened(was, now, if position >= 0 then position else |was| + position, e)
    case OpRemoveAt(i) => if 0 <= i < |was| then ClosedUp(was, now, i) else now == was
    case OpRemoveItem(item) =>
      if exists i :: 0 <= i < |was| && was[i].item == item then
        exists i :: 0 <= i < |was| && was[i].item == item && (forall j :: 0 <= j < i ==> was[j].item != item) && ClosedUp(was, now, i)
      else now == was
    case OpClear => now == []
    case OpAppend(es) => now == was + es
    case OpSwap(a, b) =>
      && |now| == |was|
      && forall i :: 0 <= i < |was| ==>
           now[i] == was[if a < |was| && b < |was| && i == a then b else if a < |was| && b < |was| && i == b then a else i]
    case _ => now == was
  }

  lemma {:induction false} AppendedAfter<T>(strip: Strip, l: Listing<T>, es: seq<Entry<T>>)
    ensures var n := Append(strip, l, es);
      n.entries == l.entries + es && n.fast == l.fast && n.ignoring == l.ignoring
    decreases |es|
  {
    if es != [] {
      AppendedAfter(strip, Add(strip, l, es[0]), es[1..]);
      assert l.entries + [es[0]] + es[1..] == l.entries + es;
    }
  }

  lemma ClosedByRemoving<T>(strip: Strip, l: Listing<T>, i: int)
    requires 0 <= i < |l.entries|
    ensures ClosedUp(l.entries, RemoveAt(strip, l, i).entries, i)
  {
  }

  lemma {:induction false} ItemGone<T>(strip: Strip, l: Listing<T>, item: T)
    ensures StandAfter(l.entries, OpRemoveItem(item), RemoveItem(strip, l, item).entries)
  {
    var i := Position(l.entries, item);
    if i >= 0 {
      assert l.entries[i].item == item;
      ClosedByRemoving(strip, l, i);
    }
  }

  lemma OpenedByAdding<T>(strip: Strip, l: Listing<T>, e: Entry<T>, position: int)
    requires 0 <= FrontPosition(|l.entries|, position) <= |l.entries|
    ensures StandAfter(l.entries, OpAddFront(e, position), AddFront(strip, l, e, position).entries)
  {
  }

  lemma Swapped<T>(l: Listing<T>, a: nat, b: nat)
    ensures StandAfter(l.entries, OpSwap(a, b), Swap(l, a, b).entries)
  {
  }

  /** Only the operations that set a switch do. */
  lemma SwitchesAfter<T>(strip: Strip, l: Listing<T>, op: Op<T>)
    requires Legal(l, op)
    ensures var n := Apply(strip, l, op);
      && n.fast == (if op.OpSetFast? then op.on else l.fast)
      && n.ignoring == (if op.OpSetIgnoring? then op.on else l.ignoring)
  {
    if op.OpAppend? { AppendedAfter(strip, l, op.es); }
  }

  /** Every operation moves the entries so. */
  lemma {:induction false} WhereEntriesStand<T>(strip: Strip, l: Listing<T>, op: Op<T>)
    requires Legal(l, op)
    ensures StandAfter(l.entries, op, Apply(strip, l, op).entries)
  {
    match op
    case OpAddFront(e, position) => OpenedByAdding(strip, l, e, position);
    case OpRemoveAt(i) => if 0 <= i < |l.entries| { ClosedByRemoving(strip, l, i); }
    case OpRemoveItem(item) => ItemGone(strip, l, item);
    case OpAppend(es) => AppendedAfter(strip, l, es);
    case OpSwap(a, b) => Swapped(l, a, b);
    case _ =>
  }

  /** A search of the list gives the first entry with the path. */
  lemma {:induction false} FirstPathIsFirst<T>(es: seq<Entry<T>>, p: string, i: nat)
    requires i < |es| && es[i].path == p && forall j :: 0 <= j < i ==> es[j].path != p
    ensures FirstPath(es, p) == Some(es[i].item)
  {
    if i > 0 {
      FirstPathIsFirst(es[1..], p, i - 1);
    }
  }

  /** Every operation of the run is legal and leaves the keys distinct. */
  ghost predicate CleanRun<T>(strip: Strip, l: Listing<T>, ops: seq<Op<T>>)
    decreases |ops|
  {
    && DistinctKeys(strip, l)
    && (ops != [] ==> Legal(l, ops[0]) && CleanRun(strip, Apply(strip, l, ops[0]), ops[1..]))
  }

  function Run<T(==)>(strip: Strip, l: Listing<T>, ops: seq<Op<T>>): Listing<T>
    requires CleanRun(strip, l, ops)
    decreases |ops|
  {
    if ops == [] then l else Run(strip, Apply(strip, l, ops[0]), ops[1..])
  }

  lemma {:induction false} RunKeeps<T>(strip: Strip, l: Listing<T>, ops: seq<Op<T>>)
    requires IndexOk(strip, l) && CleanRun(strip, l, ops)
    ensures IndexOk(strip, Run(strip, l, ops)) && DistinctKeys(strip, Run(strip, l, ops))
    decreases |ops|
  {
    if ops != [] {
      ApplyKeeps(strip, l, ops[0]);
      RunKeeps(strip, Apply(strip, l, ops[0]), ops[1..]);
    }
  }

  lemma {:induction false} PathsAreKeys<T>(strip: Strip, es: seq<Entry<T>>, p: string)
    ensures FirstKey(strip, false, es, p) == FirstPath(es, p)
  {
    if es != [] {
      PathsAreKeys(strip, es[1..], p);
    }
  }

  /** After any operations that keep the paths distinct, a lookup by path gives the same answer as a
      search of the list, whether fast lookup is on or not. */
  lemma LookupsAgree<T>(strip: Strip, ops: seq<Op<T>>, name: string)
    requires CleanRun(strip, Listing([], map[], false, false), ops)
    requires !Run(strip, Listing([], map[], false, false), ops).ignoring
    ensures var l := Run(strip, Listing([], map[], false, false), ops);
      Get(strip, l, name) == FirstPath(l.entries, name)
  {
    var start: Listing<T> := Listing([], map[], false, false);
    RunKeeps(strip, start, ops);
    PathsAreKeys(strip, Run(strip, start, ops).entries, name);
  }

  lemma {:induction false} FirstPathOfPlain<T>(strip: Strip, es: seq<Entry<T>>, p: string)
    requires forall i :: 0 <= i < |es| ==> strip(es[i].path) == es[i].path
    ensures FirstKey(strip, true, es, p) == FirstPath(es, p)
  {
    if es != [] {
      FirstPathOfPlain(strip, es[1..], p);
    }
  }

  lemma {:induction false} FirstPathNone<T>(es: seq<Entry<T>>, p: string)
    requires forall i :: 0 <= i < |es| ==> es[i].path != p
    ensures FirstPath(es, p).None?
  {
    if es != [] {
      FirstPathNone(es[1..], p);
    }
  }

  /** With options ignored, fast and slow lookup agree on every name exactly when no item's path has
      options: the map strips the items' paths, the search of the list does not. */
  lemma IgnoringAgreesIff<T>(strip: Strip, l: Listing<T>)
    requires l.fast && l.ignoring && IndexOk(strip, l) && DistinctKeys(strip, l)
    requires forall p: string :: strip(strip(p)) == strip(p)
    ensures (forall name :: ThroughMap(strip, l, name) == ThroughList(strip, l, name)) <==>
            (forall i :: 0 <= i < |l.entries| ==> strip(l.entries[i].path) == l.entries[i].path)
  {
    if forall i :: 0 <= i < |l.entries| ==> strip(l.entries[i].path) == l.entries[i].path {
      forall name ensures ThroughMap(strip, l, name) == ThroughList(strip, l, name) {
        FirstPathOfPlain(strip, l.entries, strip(name));
      }
    } else {
      var i :| 0 <= i < |l.entries| && strip(l.entries[i].path) != l.entries[i].path;
      var name := l.entries[i].path;
      FirstKeySome(strip, true, l.entries, strip(name));
      forall j | 0 <= j < |l.entries| ensures l.entries[j].path != strip(name) {
        assert l.entries[j].path == strip(name) ==> Key(strip, true, l.entries[j].path) == strip(name);
      }
      FirstPathNone(l.entries, strip(name));
      assert ThroughMap(strip, l, name).Some? && ThroughList(strip, l, name).None?;
    }
  }

  // ----- Entries taken off the list one by one, whose items change their paths -----

  ghost predicate DistinctItems<T>(es: seq<Entry<T>>) {
    forall i, j :: 0 <= i < j < |es| ==> es[i].item != es[j].item
  }

  /** The keys that the entries whose items are not in the list had. */
  ghost function Gone<T>(strip: Strip, ig: bool, was: seq<Entry<T>>, items: seq<T>): set<string> {
    set m | 0 <= m < |was| && was[m].item !in items :: Key(strip, ig, was[m].path)
  }

  /** The keys of the paths between positions `i` and `j`. */
  ghost function KeysBetween(strip: Strip, ig: bool, paths: seq<string>, i: nat, j: nat): set<string>
    requires j <= |paths|
  {
    set k | i < k < j :: Key(strip, ig, paths[k])
  }

  /** The map without these keys, as removing the entries one by one leaves it. */
  ghost function Without<T>(strip: Strip, l: Listing<T>, paths: seq<string>, i: nat, j: nat): Listing<T>
    requires j <= |paths|
  {
    if l.fast then l.(index := l.index - KeysBetween(strip, l.ignoring, paths, i, j)) else l
  }

  lemma WithoutNone<T>(strip: Strip, l: Listing<T>, paths: seq<string>, i: nat)
    requires i < |paths|
    ensures Without(strip, l, paths, i, i + 1) == l
  {
    assert KeysBetween(strip, l.ignoring, paths, i, i + 1) == {};
  }

  lemma WithoutOneMore<T>(strip: Strip, l: Listing<T>, paths: seq<string>, i: nat, j: nat)
    requires i < j < |paths|
    ensures Without(strip, l, paths, i, j + 1) == WithoutKey(strip, Without(strip, l, paths, i, j), paths[j])
  {
    assert KeysBetween(strip, l.ignoring, paths, i, j + 1) ==
      KeysBetween(strip, l.ignoring, paths, i, j) + {Key(strip, l.ignoring, paths[j])};
  }

  function WithoutKey<T>(strip: Strip, l: Listing<T>, path: string): Listing<T> {
    if l.fast then l.(index := l.index - {Key(strip, l.ignoring, path)}) else l
  }

  lemma {:induction false} RestHolds<T>(items: seq<T>, i: nat, j: nat, x: T)
    requires i < j <= |items| && forall a, b :: 0 <= a < b < |items| ==> items[a] != items[b]
    ensures x in items[..i + 1] + items[j..] <==> x in items && x !in items[i + 1..j]
  {
    assert items == items[..i + 1] + items[i + 1..j] + items[j..];
  }

  /** Between `i` and `j` are the items with these keys. */
  lemma {:induction false} KeyBetween<T>(was: seq<Entry<T>>, items: seq<T>, paths: seq<string>, i: nat, j: nat, m: nat)
    requires DistinctItems(was) && |paths| == |items| && i < j <= |items| && m < |was|
    requires forall k :: i < k < |items| ==> Entry(paths[k], items[k]) in was
    requires was[m].item in items[i + 1..j]
    ensures exists k :: i < k < j && paths[k] == was[m].path
  {
    var k :| 0 <= k < j - i - 1 && items[i + 1..j][k] == was[m].item;
    var w :| 0 <= w < |was| && was[w] == Entry(paths[i + 1 + k], items[i + 1 + k]);
    assert w == m;
  }

  lemma {:induction false} EntryBetween<T>(was: seq<Entry<T>>, items: seq<T>, paths: seq<string>, i: nat, j: nat, k: nat)
    requires |paths| == |items| && i < k < j <= |items| && Entry(paths[k], items[k]) in was
    ensures exists m :: 0 <= m < |was| && was[m].path == paths[k] && was[m].item in items[i + 1..j]
  {
    var w :| 0 <= w < |was| && was[w] == Entry(paths[k], items[k]);
    assert items[i + 1..j][k - i - 1] == items[k];
  }

  lemma {:induction false} GoneAfter<T>(strip: Strip, ig: bool, was: seq<Entry<T>>, items: seq<T>, paths: seq<string>, i: nat, j: nat)
    requires DistinctItems(was) && |paths| == |items| && i < j <= |items|
    requires forall a, b :: 0 <= a < b < |items| ==> items[a] != items[b]
    requires forall k :: i < k < |items| ==> Entry(paths[k], items[k]) in was
    ensures Gone(strip, ig, was, items[..i + 1] + items[j..]) == Gone(strip, ig, was, items) + KeysBetween(strip, ig, paths, i, j)
  {
    forall m | 0 <= m < |was| && was[m].item in items[i + 1..j]
      ensures exists k :: i < k < j && paths[k] == was[m].path
    {
      KeyBetween(was, items, paths, i, j, m);
    }
    forall k | i < k < j
      ensures exists m :: 0 <= m < |was| && was[m].path == paths[k] && was[m].item in items[i + 1..j]
    {
      EntryBetween(was, items, paths, i, j, k);
    }
    forall m | 0 <= m < |was|
      ensures was[m].item in items[..i + 1] + items[j..] <==> was[m].item in items && was[m].item !in items[i + 1..j]
    {
      RestHolds(items, i, j, was[m].item);
    }
  }

  /** What the map of `was` becomes when entries are taken off until `items` are left. */
  ghost function Trimmed<T>(strip: Strip, was: Listing<T>, items: seq<T>): Listing<T> {
    var m := if was.fast then was.index - Gone(strip, was.ignoring, was.entries, items) else was.index;
    Listing([], m, was.fast, was.ignoring)
  }

  lemma {:induction false} TrimmedAfter<T>(strip: Strip, was: Listing<T>, items: seq<T>, paths: seq<string>, i: nat, j: nat)
    requires DistinctItems(was.entries) && |paths| == |items| && i < j <= |items|
    requires forall a, b :: 0 <= a < b < |items| ==> items[a] != items[b]
    requires forall k :: i < k < |items| ==> Entry(paths[k], items[k]) in was.entries
    ensures Without(strip, Trimmed(strip, was, items), paths, i, j) == Trimmed(strip, was, items[..i + 1] + items[j..])
  {
    GoneAfter(strip, was.ignoring, was.entries, items, paths, i, j);
  }

  /** Then, if the map was right and keys and items were distinct, it still finds an item that is left
      under its present path exactly when the path has the key it had. */
  lemma {:induction false} FoundIff<T>(strip: Strip, was: Listing<T>, items: seq<T>, m: nat, path: string)
    requires was.fast && IndexOk(strip, was) && DistinctKeys(strip, was) && DistinctItems(was.entries)
    requires m < |was.entries| && was.entries[m].item in items
    ensures Get(strip, Trimmed(strip, was, items), path) == Some(was.entries[m].item) <==>
      Key(strip, was.ignoring, path) == Key(strip, was.ignoring, was.entries[m].path)
  {
    var k := Key(strip, was.ignoring, path);
    var e := was.entries[m];
    FirstKeyUnique(strip, was.ignoring, was.entries, m);
    if k in was.index && was.index[k] == e.item {
      FirstKeySome(strip, was.ignoring, was.entries, k);
    }
  }
}
