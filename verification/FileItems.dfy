/** `CFileItemList` as an object: the list of items, the map beside it, and stacking in place. */
module FileItems {
  import FileIndex
  import opened Stacking

  class FileItem {
    const isFolder: bool
    var path: string
    var size: int
    var caption: string

    constructor (path: string, size: int, caption: string, isFolder: bool)
      ensures Value() == Item(path, size, caption, isFolder)
    {
      this.path, this.size, this.caption, this.isFolder := path, size, caption, isFolder;
    }

    function Value(): Item
      reads this
    {
      Item(path, size, caption, isFolder)
    }
  }

  type Listing = FileIndex.Listing<FileItem>

  class FileItemList {
    const strip: FileIndex.Strip
    var items: seq<FileItem>
    var index: map<string, FileItem>
    var fastLookup: bool
    var ignoreUrlOptions: bool

    constructor (strip: FileIndex.Strip)
      ensures this.strip == strip && Shows(FileIndex.Listing([], map[], false, false))
    {
      this.strip, items, index, fastLookup, ignoreUrlOptions := strip, [], map[], false, false;
    }

    /** The list and the map are as in `l`, each item under its present path. */
    ghost predicate Shows(l: Listing)
      reads this, items`path
    {
      && |l.entries| == |items|
      && (forall i :: 0 <= i < |items| ==> l.entries[i] == FileIndex.Entry(items[i].path, items[i]))
      && l.index == index && l.fast == fastLookup && l.ignoring == ignoreUrlOptions
    }

    function KeyOf(path: string): string
      reads this`ignoreUrlOptions
    {
      FileIndex.Key(strip, ignoreUrlOptions, path)
    }

    /** The loop of `SetFastLookup`: put every item into an empty map. */
    method BuildIndex(ghost l: Listing)
      requires Shows(l)
      modifies this`index
      ensures index == FileIndex.Built(strip, ignoreUrlOptions, l.entries)
    {
      index := map[];
      for i := 0 to |items|
        invariant index == FileIndex.Built(strip, ignoreUrlOptions, l.entries[..i])
      {
        assert l.entries[..i + 1][..i] == l.entries[..i];
        index := FileIndex.Insert(index, KeyOf(items[i].path), items[i]);
      }
      assert l.entries[..|items|] == l.entries;
    }

    method SetFastLookup(fast: bool, ghost l: Listing)
      requires Shows(l)
      modifies this`index, this`fastLookup
      ensures Shows(FileIndex.SetFast(strip, l, fast))
    {
      if fast && !fastLookup {
        BuildIndex(l);
      }
      if !fast && fastLookup {
        index := map[];
      }
      fastLookup := fast;
    }

    method SetIgnoreURLOptions(ignoring: bool, ghost l: Listing)
      requires Shows(l)
      modifies this`index, this`fastLookup, this`ignoreUrlOptions
      ensures Shows(FileIndex.SetIgnoring(strip, l, ignoring))
    {
      ignoreUrlOptions := ignoring;
      if fastLookup {
        fastLookup := false;
        SetFastLookup(true, l.(ignoring := ignoring, fast := false));
      }
    }

    method Get(name: string, ghost l: Listing) returns (r: FileIndex.Option<FileItem>)
      requires Shows(l)
      ensures r == FileIndex.Get(strip, l, name)
    {
      if fastLookup {
        var k := KeyOf(name);
        return if k in index then FileIndex.Some(index[k]) else FileIndex.None;
      }
      for i := 0 to |items|
        invariant FileIndex.FirstPath(l.entries[i..], KeyOf(name)) == FileIndex.FirstPath(l.entries, KeyOf(name))
      {
        assert l.entries[i..][1..] == l.entries[i + 1..];
        if items[i].path == KeyOf(name) { return FileIndex.Some(items[i]); }
      }
      return FileIndex.None;
    }

    method Contains(name: string, ghost l: Listing) returns (yes: bool)
      requires Shows(l)
      ensures yes <==> FileIndex.Get(strip, l, name).Some?
    {
      var r := Get(name, l);
      return r.Some?;
    }

    method Add(item: FileItem, ghost l: Listing)
      requires Shows(l)
      modifies this`items, this`index
      ensures Shows(FileIndex.Add(strip, l, FileIndex.Entry(item.path, item)))
    {
      if fastLookup {
        index := FileIndex.Insert(index, KeyOf(item.path), item);
      }
      items := items + [item];
    }

    method AddFront(item: FileItem, position: int, ghost l: Listing)
      requires Shows(l) && 0 <= FileIndex.FrontPosition(|items|, position) <= |items|
      modifies this`items, this`index
      ensures Shows(FileIndex.AddFront(strip, l, FileIndex.Entry(item.path, item), position))
    {
      var at := if position >= 0 then position else |items| + position;
      items := items[..at] + [item] + items[at..];
      if fastLookup {
        index := FileIndex.Insert(index, KeyOf(item.path), item);
      }
    }

    /** `Remove` by position; a position outside the list is ignored. */
    method Remove(i: int)
      modifies this`items, this`index
      ensures items == if 0 <= i < |old(items)| then old(items)[..i] + old(items)[i + 1..] else old(items)
      ensures 0 <= i < |old(items)| && fastLookup ==> index == old(index) - {KeyOf(old(items)[i].path)}
      ensures !(0 <= i < |old(items)| && fastLookup) ==> index == old(index)
    {
      if 0 <= i < |items| {
        if fastLookup {
          index := index - {KeyOf(items[i].path)};
        }
        items := items[..i] + items[i + 1..];
      }
    }

    method RemoveAt(i: int, ghost l: Listing)
      requires Shows(l)
      modifies this`items, this`index
      ensures Shows(FileIndex.RemoveAt(strip, l, i))
    {
      Remove(i);
    }

    /** `Remove` of an item: only its first occurrence. */
    method RemoveItem(item: FileItem, ghost l: Listing)
      requires Shows(l)
      modifies this`items, this`index
      ensures Shows(FileIndex.RemoveItem(strip, l, item))
    {
      var i := 0;
      while i < |items| && items[i] != item
        invariant i <= |items|
        invariant var p := FileIndex.Position(l.entries[i..], item);
          FileIndex.Position(l.entries, item) == if p < 0 then -1 else i + p
      {
        assert l.entries[i..][1..] == l.entries[i + 1..];
        i := i + 1;
      }
      if i < |items| {
        assert l.entries[i..][0].item == item;
        RemoveAt(i, l);
      }
    }

    method ClearItems(ghost l: Listing)
      requires Shows(l)
      modifies this`items, this`index
      ensures Shows(FileIndex.ClearItems(l))
    {
      items := [];
      index := map[];
    }

    method Append(list: FileItemList, ghost l: Listing, ghost other: Listing)
      requires list != this && Shows(l) && list.Shows(other)
      modifies this`items, this`index
      ensures Shows(FileIndex.Append(strip, l, other.entries))
    {
      ghost var cur := l;
      for i := 0 to |list.items|
        invariant Shows(cur) && list.Shows(other)
        invariant FileIndex.Append(strip, cur, other.entries[i..]) == FileIndex.Append(strip, l, other.entries)
      {
        assert other.entries[i..][1..] == other.entries[i + 1..];
        Add(list.items[i], cur);
        cur := FileIndex.Add(strip, cur, other.entries[i]);
      }
    }

    method Swap(a: nat, b: nat, ghost l: Listing)
      requires Shows(l)
      modifies this`items
      ensures Shows(FileIndex.Swap(l, a, b))
    {
      if a != b && a < |items| && b < |items| {
        items := items[a := items[b]][b := items[a]];
      }
    }

    // ----- Stacking -----

    /** The items have the values `v`. */
    ghost predicate Holds(v: seq<Item>)
      reads this`items, items
    {
      |v| == |items| && forall i :: 0 <= i < |items| ==> items[i].Value() == v[i]
    }

    /** Compares the next file with the first of the stack, whose match and title are given. */
    method CompareNext(r: Rules, e: nat, offset: nat, m1: Match, title1: string, ghost file1: string, file2: string)
      returns (v: Verdict)
      requires r.find(e, file1, offset) == Some(m1) && title1 == Title(m1, file1, offset)
      ensures v == Compare(r, e, offset, file1, file2)
    {
      var m2 := r.find(e, file2, offset);
      if m2.None? { return GiveUp; }
      var title2 := if offset != 0 then Prefix(file2, m2.value.volumeStart) else m2.value.title;
      if !Same(r, title1, title2) { return GiveUp; }
      if !Same(r, m1.volume, m2.value.volume) {
        if Same(r, m1.ignore, m2.value.ignore) && Same(r, m1.extension, m2.value.extension) {
          return Joins;
        }
        return GiveUp;
      }
      if !Same(r, m1.ignore, m2.value.ignore) { return Again(m2.value.ignoreStart); }
      return GiveUp;
    }

    /** File `j` joins the stack of the file at `i`. */
    method Join(i: nat, j: nat, stack: seq<nat>, size: int, ghost at: seq<nat>, ghost n: nat, ghost t: seq<Item>)
      returns (stack': seq<nat>, size': int)
      requires i < j < |items| && j == i + n && n < |t| && CollectedAt(stack, size, at, i, t)
      requires items[i].Value() == t[0] && items[j].Value() == t[n]
      ensures CollectedAt(stack', size', Pushed(at, n), i, t)
    {
      PushedCollects(stack, size, at, i, t, n);
      stack', size' := stack, size;
      if stack' == [] {
        stack' := [i];
        size' := size' + items[i].size;
      }
      stack' := stack' + [j];
      size' := size' + items[j].size;
    }

    /** The innermost loop of `StackFiles`: collect the files after `i` that belong to its stack under
        one expression. `stack` holds list positions, `size` their total size. */
    method CollectStack(r: Rules, i: nat, e: nat, offset: nat, m1: Match, ghost v: seq<Item>)
      returns (stack: seq<nat>, size: int, atEnd: bool, stop: Verdict)
      requires Holds(v) && i < |items| && r.find(e, Name(r, v[i]), offset) == Some(m1)
      ensures var s := Scan(r, v[i..], e, offset, 1, []);
        CollectedAt(stack, size, s.stack, i, v[i..]) && atEnd == s.atEnd && stop == s.stop
    {
      ghost var t := v[i..];
      ghost var at: seq<nat>, n, all := [], 1, Scan(r, v[i..], e, offset, 1, []);
      var file1 := r.fileName(items[i].path);
      var title1 := if offset != 0 then Prefix(file1, m1.volumeStart) else m1.title;
      stack, size := [], 0;
      var j := i + 1;
      assert t[0] == v[i] && file1 == Name(r, t[0]) && title1 == Title(m1, file1, offset);
      assert CollectedAt(stack, size, at, i, t);
      while j < |items|
        invariant i < j <= |items| && j == i + n && CollectedAt(stack, size, at, i, t)
        invariant Scan(r, t, e, offset, n, at) == all
      {
        assert items[j].Value() == v[j] == t[n] && items[i].Value() == t[0];
        var stopped;
        stopped, stack, size, at := CollectNext(r, i, j, e, offset, m1, title1, file1, stack, size, at, n, t);
        if stopped.Some? {
          return stack, size, false, stopped.value;
        }
        j, n := j + 1, n + 1;
      }
      return stack, size, true, GiveUp;
    }

    /** One turn of that loop: pass over a skipped entry, collect one that joins, or stop with a verdict. */
    method CollectNext(r: Rules, i: nat, j: nat, e: nat, offset: nat, m1: Match, title1: string, ghost file1: string,
                       stack: seq<nat>, size: int, ghost at: seq<nat>, ghost n: nat, ghost t: seq<Item>)
      returns (stopped: Option<Verdict>, stack': seq<nat>, size': int, ghost at': seq<nat>)
      requires i < j < |items| && j == i + n && n < |t| && CollectedAt(stack, size, at, i, t)
      requires items[j].Value() == t[n] && items[i].Value() == t[0] && file1 == Name(r, t[0])
      requires r.find(e, file1, offset) == Some(m1) && title1 == Title(m1, file1, offset)
      ensures CollectedAt(stack', size', at', i, t)
      ensures stopped.None? ==> Scan(r, t, e, offset, n, at) == Scan(r, t, e, offset, n + 1, at')
      ensures stopped.Some? ==> at' == at && Scan(r, t, e, offset, n, at) == Scanned(at, false, stopped.value)
    {
      stopped, stack', size', at' := None, stack, size, at;
      if items[j].isFolder || r.isSkippedPath(items[j].path) {
        ScanSkips(r, t, e, offset, n, at);
        return;
      }
      var verdict := CompareNext(r, e, offset, m1, title1, file1, r.fileName(items[j].path));
      if !verdict.Joins? {
        return Some(verdict), stack, size, at;
      }
      stack', size' := Join(i, j, stack, size, at, n, t);
      ScanJoins(r, t, e, offset, n, at);
      at' := Pushed(at, n);
    }

    /** The loop of `StackFiles` over the expressions, for the file at `i`. */
    method FindStackAt(r: Rules, i: nat, ghost v: seq<Item>)
      returns (stack: seq<nat>, size: int, name: string)
      requires Advancing(r) && Holds(v) && i < |items|
      ensures match FindStack(r, v[i..], 0, 0)
        case NoStack => stack == []
        case Stack(at, _, _, title) => CollectedAt(stack, size, at, i, v[i..]) && name == title
    {
      ghost var t := v[i..];
      var file1 := r.fileName(items[i].path);
      var e: nat, offset: nat := 0, 0;
      ghost var found := FindStack(r, t, 0, 0);
      while e < r.count
        invariant e <= r.count && offset <= Longest(r, t)
        invariant found == FindStack(r, t, e, offset)
        decreases r.count - e, Longest(r, t) - offset
      {
        var m1 := r.find(e, file1, offset);
        if m1.None? {
          e, offset := e + 1, 0;
          continue;
        }
        ScanStops(r, t, e, offset, 1, []);
        var atEnd, stop;
        stack, size, atEnd, stop := CollectStack(r, i, e, offset, m1.value, v);
        if |stack| > 1 {
          name := (if offset != 0 then Prefix(file1, m1.value.volumeStart) else m1.value.title)
            + m1.value.ignore + m1.value.extension;
          return;
        }
        if atEnd { break; }
        if stop.Again? {
          offset := stop.offset;
        } else {
          e, offset := e + 1, 0;
        }
      }
      stack, size, name := [], 0, "";
    }

    /** The paths of the items at the given positions, in order. */
    method PathsAt(stack: seq<nat>) returns (paths: seq<string>)
      requires Within(stack, |items|)
      ensures |paths| == |stack| && forall k :: 0 <= k < |stack| ==> paths[k] == items[stack[k]].path
    {
      paths := [];
      for k := 0 to |stack|
        invariant |paths| == k && forall i :: 0 <= i < k ==> paths[i] == items[stack[i]].path
      {
        paths := paths + [items[stack[k]].path];
      }
    }

    /** The map and the switches. */
    ghost function Lookup(): Listing
      reads this`index, this`fastLookup, this`ignoreUrlOptions
    {
      FileIndex.Listing([], index, fastLookup, ignoreUrlOptions)
    }

    /** Take the next entry after position `i`, the one that was at `j` in `all`, off the list. */
    method RemoveNext(i: nat, ghost all: seq<FileItem>, ghost j: nat)
      requires i < j < |all| && items == all[..i + 1] + all[j..]
      modifies this`items, this`index
      ensures items == all[..i + 1] + all[j + 1..]
      ensures Lookup() == FileIndex.WithoutKey(strip, old(Lookup()), all[j].path)
    {
      assert items[i + 1] == all[j];
      Remove(i + 1);
    }

    /** Take the entries from position `i` to `i + n` off the list, but for the first. */
    method RemoveAfter(i: nat, n: nat, ghost paths: seq<string>)
      requires 0 < n && i + n <= |items| == |paths|
      requires forall k :: i < k < |items| ==> items[k].path == paths[k]
      modifies this`items, this`index
      ensures items == old(items)[..i + 1] + old(items)[i + n..]
      ensures Lookup() == FileIndex.Without(strip, old(Lookup()), paths, i, i + n)
    {
      ghost var all := items;
      FileIndex.WithoutNone(strip, Lookup(), paths, i);
      assert items == all[..i + 1] + all[i + 1..];
      for k := 1 to n
        invariant items == all[..i + 1] + all[i + k..]
        invariant Lookup() == FileIndex.Without(strip, old(Lookup()), paths, i, i + k)
      {
        RemoveNext(i, all, i + k);
        FileIndex.WithoutOneMore(strip, old(Lookup()), paths, i, i + k);
      }
    }

    ghost predicate NoDuplicates()
      reads this`items
    {
      forall i, j :: 0 <= i < j < |items| ==> items[i] != items[j]
    }

    /** The path of a stack: that of its first item if it is a RAR set. */
    method PathOf(r: Rules, stack: seq<nat>, ghost members: seq<Item>) returns (path: string)
      requires stack != [] && |members| == |stack| && Within(stack, |items|)
      requires forall k :: 0 <= k < |stack| ==> items[stack[k]].path == members[k].path
      ensures path == MergedPath(r, members)
    {
      if r.isRar(items[stack[0]].path) { return items[stack[0]].path; }
      var paths := PathsAt(stack);
      assert paths == Paths(members);
      return r.stackPath(paths);
    }

    /** Let the item at `i` stand for its stack, and take as many entries after it off the list as the
        stack has further files. `paths` are those of the items. */
    method Replace(r: Rules, i: nat, stack: seq<nat>, size: int, name: string, ghost members: seq<Item>,
                   ghost paths: seq<string>)
      requires |paths| == |items| && (forall k :: 0 <= k < |items| ==> items[k].path == paths[k])
      requires 0 < |stack| == |members| && i + |stack| <= |items| && NoDuplicates()
      requires Within(stack, |items|) && (forall k :: 0 <= k < |stack| ==> items[stack[k]].path == members[k].path)
      requires size == Size(members) && items[i].isFolder == members[0].isFolder
      modifies this`items, this`index, {items[i]}
      ensures items == old(items)[..i + 1] + old(items)[i + |stack|..]
      ensures items[i].Value() == Merged(r, members, name)
      ensures Lookup() == FileIndex.Without(strip, old(Lookup()), paths, i, i + |stack|)
    {
      var item := items[i];
      item.path := PathOf(r, stack, members);
      RemoveAfter(i, |stack|, paths);
      item.caption := r.caption(name);
      item.size := size;
    }

    /** `members` are the files at the list positions `stack`, more than one. */
    ghost predicate Collected(stack: seq<nat>, size: int, members: seq<Item>, i: nat, v: seq<Item>) {
      && 1 < |stack| == |members| && i + |stack| <= |v| && Within(stack, |v|)
      && (forall k :: 0 <= k < |stack| ==> v[stack[k]].path == members[k].path)
      && size == Size(members) && v[i].isFolder == members[0].isFolder
    }

    /** What replacing does to the values of the list; the entries between `i` and `j` go. */
    method Merge(r: Rules, i: nat, stack: seq<nat>, size: int, name: string, ghost v: seq<Item>, ghost members: seq<Item>)
      returns (ghost next: seq<Item>, ghost j: nat)
      requires Holds(v) && i < |items| && NoDuplicates() && Collected(stack, size, members, i, v)
      modifies this`items, this`index, {items[i]}
      ensures j == i + |members| && Holds(next) && NoDuplicates() && i < |items|
      ensures next == v[..i] + [Merged(r, members, name)] + v[j..]
      ensures items == old(items)[..i + 1] + old(items)[j..]
      ensures Lookup() == FileIndex.Without(strip, old(Lookup()), Paths(v), i, j)
    {
      ghost var before := items;
      j := i + |members|;
      next := v[..i] + [Merged(r, members, name)] + v[j..];
      Replace(r, i, stack, size, name, members, Paths(v));
      CutBoth(before, items, v, next, i, j);
    }

    /** The stack that begins with the item at `i`, if it is a file that has one. */
    method StackOf(r: Rules, i: nat, ghost v: seq<Item>)
      returns (stack: seq<nat>, size: int, name: string, ghost members: seq<Item>)
      requires Advancing(r) && Holds(v) && i < |items|
      ensures |stack| > 1 <==> HasStack(r, v, i)
      ensures |stack| > 1 ==> Collected(stack, size, members, i, v) && StackIs(r, v, i, members, name)
    {
      assert v[i] == items[i].Value();
      members := [];
      if items[i].isFolder || r.isSkippedPath(items[i].path) { return [], 0, "", members; }
      stack, size, name := FindStackAt(r, i, v);
      StackFits(r, v[i..]);
      if |stack| > 1 { members := Members(v[i..], FindStack(r, v[i..], 0, 0).at); }
    }

    /** One turn of `StackFiles`: the entries between `i` and `j` go. `next` are the values afterwards. */
    method StackOne(r: Rules, i: nat, ghost v: seq<Item>) returns (ghost next: seq<Item>, ghost j: nat)
      requires Advancing(r) && Holds(v) && NoDuplicates() && i < |items|
      modifies this`items, this`index, {items[i]}
      ensures Holds(next) && NoDuplicates() && i < j <= |v| && i < |items|
      ensures Turned(r, v, next, i) && TurnEnds(r, v, i, j)
      ensures items == old(items)[..i + 1] + old(items)[j..] && next[i + 1..] == v[j..]
      ensures Lookup() == FileIndex.Without(strip, old(Lookup()), Paths(v), i, j)
    {
      ghost var members;
      var stack, size, name;
      stack, size, name, members := StackOf(r, i, v);
      if |stack| > 1 {
        next, j := Merge(r, i, stack, size, name, v, members);
        StackedTurn(r, v, next, i, j, members, name);
      } else {
        next, j := v, i + 1;
        PlainTurn(r, v, i);
        NothingGone(strip, Lookup(), items, Paths(v), i);
      }
    }

    /** The list before stacking, as far as it matters for the map. */
    ghost function WasListed(v: seq<Item>): (l: Listing)
      requires |v| == |items|
      reads this
      ensures l.index == index && l.fast == fastLookup && l.ignoring == ignoreUrlOptions
      ensures |l.entries| == |items| && forall k :: 0 <= k < |items| ==> l.entries[k] == FileIndex.Entry(v[k].path, items[k])
    {
      FileIndex.Listing(seq(|items|, k requires 0 <= k < |v| && |v| == |items| reads this => FileIndex.Entry(v[k].path, items[k])),
                        index, fastLookup, ignoreUrlOptions)
    }

    /** The map is the one of `was` without the keys of what was taken off the list, and the entries from
        `i` on have the paths they had. */
    ghost predicate StillIndexed(was: Listing, v: seq<Item>, i: nat)
      requires |v| == |items|
      reads this
    {
      && Lookup() == FileIndex.Trimmed(strip, was, items)
      && TailIn(was, v, items, i)
    }

    /** What the loop keeps: the values, what is left to do, the map, and that no item is new. */
    ghost predicate StackedTo(r: Rules, v: seq<Item>, i: nat, goal: seq<Item>, was: Listing, all: seq<FileItem>,
                              heads: seq<FileItem>)
      reads this, items
    {
      && i <= |items| && Holds(v) && NoDuplicates() && StackedUpTo(r, v, i, goal) && StillIndexed(was, v, i)
      && HeadsUpTo(r, v, items, i, heads)
      && forall k :: 0 <= k < |items| ==> items[k] in all
    }

    /** The same turn, with all of this. */
    method StackNext(r: Rules, i: nat, ghost v: seq<Item>, ghost goal: seq<Item>, ghost was: Listing,
                     ghost all: seq<FileItem>, ghost heads: seq<FileItem>) returns (ghost next: seq<Item>)
      requires FileIndex.DistinctItems(was.entries) && StackedTo(r, v, i, goal, was, all, heads) && i < |items|
      modifies this`items, this`index, {items[i]}
      ensures StackedTo(r, next, i + 1, goal, was, all, heads) && |items| <= |old(items)|
    {
      ghost var list, j := items, 0;
      next, j := StackOne(r, i, v);
      IndexStays(strip, was, v, list, next, items, i, j);
      OneMore(r, v, next, i, goal);
      OneMoreHead(r, v, list, next, items, i, j, heads);
    }

    /** `StackFiles`: the list becomes what `StackList` says; the map only loses the keys of the entries
        taken off the list. */
    method StackFiles(r: Rules, ghost v: seq<Item>)
      requires Advancing(r) && Holds(v) && NoDuplicates()
      modifies this`items, this`index, items
      ensures Holds(StackList(r, v)) && NoDuplicates()
      ensures items == HeadsOf(r, v, old(items))
      ensures Lookup() == FileIndex.Trimmed(strip, old(WasListed(v)), items)
    {
      var i := 0;
      ghost var cur, was, goal, all, heads := v, WasListed(v), StackList(r, v), items, HeadsOf(r, v, items);
      NoneStacked(r, v);
      NoHeads(r, v, items);
      while i < |items|
        invariant StackedTo(r, cur, i, goal, was, all, heads)
        decreases |items| - i
      {
        cur := StackNext(r, i, cur, goal, was, all, heads);
        i := i + 1;
      }
      AllStacked(r, cur, goal);
      AllHeads(r, cur, items, heads);
    }
  }

  /** Stacking the rest from position `i` on gives `goal`. */
  ghost predicate StackedUpTo(r: Rules, v: seq<Item>, i: nat, goal: seq<Item>)
    requires i <= |v|
  {
    Advancing(r) && v[..i] + StackList(r, v[i..]) == goal
  }

  /** With the items from `i` on that will be left the items are `heads`. */
  ghost predicate HeadsUpTo(r: Rules, v: seq<Item>, items: seq<FileItem>, i: nat, heads: seq<FileItem>)
    requires i <= |v| == |items|
  {
    Advancing(r) && items[..i] + HeadsOf(r, v[i..], items[i..]) == heads
  }

  lemma NoHeads(r: Rules, v: seq<Item>, items: seq<FileItem>)
    requires Advancing(r) && |v| == |items|
    ensures HeadsUpTo(r, v, items, 0, HeadsOf(r, v, items))
  {
    assert v[0..] == v && items[0..] == items;
  }

  lemma AllHeads(r: Rules, v: seq<Item>, items: seq<FileItem>, heads: seq<FileItem>)
    requires |v| == |items| && HeadsUpTo(r, v, items, |v|, heads)
    ensures items == heads
  {
    assert items[..|v|] == items;
  }

  lemma {:induction false} OneMoreHead(r: Rules, v: seq<Item>, items: seq<FileItem>, next: seq<Item>, rest: seq<FileItem>,
                                       i: nat, j: nat, heads: seq<FileItem>)
    requires |v| == |items| && |next| == |rest| && i < j <= |v| && i < |next| && HeadsUpTo(r, v, items, i, heads)
    requires rest == items[..i + 1] + items[j..] && next[i + 1..] == v[j..] && TurnEnds(r, v, i, j)
    ensures HeadsUpTo(r, next, rest, i + 1, heads)
  {
    var a, x, hs := items[..i], [items[i]], HeadsOf(r, v[j..], items[j..]);
    assert v[i..][0] == v[i] && v[i..][j - i..] == v[j..] && items[i..][j - i..] == items[j..];
    assert HeadsOf(r, v[i..], items[i..]) == x + hs;
    assert rest[..i + 1] == a + x && rest[i + 1..] == items[j..];
    Regrouped(a, x, hs);
  }

  /** After stacking, an item that is left is found through the map under its present path if and only if
      that has the key of the path it had, which it does unless it stands for a stack with another path. */
  lemma {:induction false} FoundAfterStacking(strip: FileIndex.Strip, r: Rules, v: seq<Item>, was: Listing, all: seq<FileItem>, k: nat)
    requires Advancing(r) && |v| == |all| == |was.entries| && k < |StackList(r, v)|
    requires forall i :: 0 <= i < |v| ==> was.entries[i] == FileIndex.Entry(v[i].path, all[i])
    requires was.fast && FileIndex.IndexOk(strip, was) && FileIndex.DistinctKeys(strip, was)
    requires FileIndex.DistinctItems(was.entries)
    ensures k < |HeadsOf(r, v, all)| == |HeadsOf(r, v, v)|
    ensures var path, item, before := StackList(r, v)[k].path, HeadsOf(r, v, all)[k], HeadsOf(r, v, v)[k];
      FileIndex.Get(strip, FileIndex.Trimmed(strip, was, HeadsOf(r, v, all)), path) == FileIndex.Some(item) <==>
        FileIndex.Key(strip, was.ignoring, path) == FileIndex.Key(strip, was.ignoring, before.path)
  {
    HeadsCount(r, v, all);
    HeadsCount(r, v, v);
    HeadIs(r, v, all, k);
    HeadIs(r, v, v, k);
    var m := HeadAt(r, v, k);
    assert was.entries[m].item in HeadsOf(r, v, all);
    FileIndex.FoundIff(strip, was, HeadsOf(r, v, all), m, StackList(r, v)[k].path);
  }

  lemma NoneStacked(r: Rules, v: seq<Item>)
    requires Advancing(r)
    ensures StackedUpTo(r, v, 0, StackList(r, v))
  {
    assert v[0..] == v;
  }

  lemma AllStacked(r: Rules, v: seq<Item>, goal: seq<Item>)
    requires StackedUpTo(r, v, |v|, goal)
    ensures v == goal
  {
    assert v[..|v|] == v;
  }

  /** From `i` on the items have the paths they had in `was`. */
  ghost predicate TailIn(was: Listing, v: seq<Item>, items: seq<FileItem>, i: nat)
    requires |v| == |items|
  {
    forall k :: i <= k < |items| ==> FileIndex.Entry(v[k].path, items[k]) in was.entries
  }

  lemma {:induction false} TailStays(was: Listing, v: seq<Item>, items: seq<FileItem>, next: seq<Item>, rest: seq<FileItem>,
                                     i: nat, j: nat)
    requires |v| == |items| && |next| == |rest| && TailIn(was, v, items, i)
    requires i < j <= |v| && rest == items[..i + 1] + items[j..] && i < |next| && next[i + 1..] == v[j..]
    ensures TailIn(was, next, rest, i + 1)
  {
    forall k | i + 1 <= k < |rest| ensures FileIndex.Entry(next[k].path, rest[k]) in was.entries {
      assert next[k] == next[i + 1..][k - i - 1] && rest[k] == items[k + j - i - 1];
    }
  }

  /** Taking the entries between `i` and `j` off list and map keeps the map as said. */
  lemma {:induction false} IndexStays(strip: FileIndex.Strip, was: Listing, v: seq<Item>, items: seq<FileItem>,
                                      next: seq<Item>, rest: seq<FileItem>, i: nat, j: nat)
    requires |v| == |items| && |next| == |rest| && i < j <= |v| && i < |next|
    requires FileIndex.DistinctItems(was.entries) && TailIn(was, v, items, i)
    requires forall a, b :: 0 <= a < b < |items| ==> items[a] != items[b]
    requires rest == items[..i + 1] + items[j..] && next[i + 1..] == v[j..]
    ensures FileIndex.Without(strip, FileIndex.Trimmed(strip, was, items), Paths(v), i, j) == FileIndex.Trimmed(strip, was, rest)
    ensures TailIn(was, next, rest, i + 1)
    ensures |rest| <= |items| && forall k :: 0 <= k < |rest| ==> rest[k] in items
  {
    CutEntries(items, i, j);
    FileIndex.TrimmedAfter(strip, was, items, Paths(v), i, j);
    TailStays(was, v, items, next, rest, i, j);
  }

  lemma NothingGone(strip: FileIndex.Strip, l: Listing, items: seq<FileItem>, paths: seq<string>, i: nat)
    requires i < |items| == |paths|
    ensures items == items[..i + 1] + items[i + 1..] && l == FileIndex.Without(strip, l, paths, i, i + 1)
  {
    FileIndex.WithoutNone(strip, l, paths, i);
  }

  /** From `v` to `next` stacking has come from position `i` to the next. */
  ghost predicate Turned(r: Rules, v: seq<Item>, next: seq<Item>, i: nat) {
    && Advancing(r) && i < |v| && i < |next|
    && next[..i] == v[..i] && [next[i]] + StackList(r, next[i + 1..]) == StackList(r, v[i..])
  }

  ghost predicate HasStack(r: Rules, v: seq<Item>, i: nat)
    requires Advancing(r) && i < |v|
  {
    !Skipped(r, v[i]) && FindStack(r, v[i..], 0, 0).Stack?
  }

  /** The stack that begins at `i` is of these files. */
  ghost predicate StackIs(r: Rules, v: seq<Item>, i: nat, members: seq<Item>, name: string)
    requires Advancing(r) && i < |v|
  {
    && HasStack(r, v, i)
    && var s := FindStack(r, v[i..], 0, 0); Within(s.at, |v[i..]|) && members == Members(v[i..], s.at) && name == s.name
  }

  /** The turn at `i` takes the entries up to `j`. */
  ghost predicate TurnEnds(r: Rules, v: seq<Item>, i: nat, j: nat) {
    && Advancing(r) && i < |v|
    && j == i + TurnLength(r, v[i..])
  }

  lemma {:induction false} PlainTurn(r: Rules, v: seq<Item>, i: nat)
    requires Advancing(r) && i < |v| && !HasStack(r, v, i)
    ensures Turned(r, v, v, i) && TurnEnds(r, v, i, i + 1)
  {
    assert v[i..][1..] == v[i + 1..];
  }

  lemma {:induction false} StackedTurn(r: Rules, v: seq<Item>, next: seq<Item>, i: nat, j: nat, members: seq<Item>, name: string)
    requires Advancing(r) && i < |v| && StackIs(r, v, i, members, name) && 0 < |members| && j == i + |members| <= |v|
    requires next == v[..i] + [Merged(r, members, name)] + v[j..]
    ensures Turned(r, v, next, i) && next[i + 1..] == v[j..] && TurnEnds(r, v, i, j)
  {
    assert v[i..][0] == v[i] && v[i..][|members|..] == v[j..];
  }

  /** Where the entries of a list come from when those between positions `i` and `j` are taken off. */
  lemma CutEntries<T>(s: seq<T>, i: nat, j: nat)
    requires i < j <= |s|
    ensures var t := s[..i + 1] + s[j..];
      forall k :: 0 <= k < |t| ==> t[k] == s[if k <= i then k else k + j - i - 1]
  {
  }

  /** The same for the items and, but for position `i`, their values. */
  lemma {:induction false} CutBoth(items: seq<FileItem>, rest: seq<FileItem>, v: seq<Item>, next: seq<Item>, i: nat, j: nat)
    requires |v| == |items| && i < j <= |v| && rest == items[..i + 1] + items[j..]
    requires i < |next| && next == v[..i] + [next[i]] + v[j..]
    requires forall a, b :: 0 <= a < b < |items| ==> items[a] != items[b]
    ensures |next| == |rest| && rest[i] == items[i]
    ensures forall k :: 0 <= k < |rest| && k != i ==>
      var from := if k < i then k else k + j - i - 1; rest[k] == items[from] && next[k] == v[from] && rest[k] != items[i]
    ensures forall a, b :: 0 <= a < b < |rest| ==> rest[a] != rest[b]
  {
    CutEntries(items, i, j);
  }

  lemma Regrouped<T>(a: seq<T>, b: seq<T>, c: seq<T>)
    ensures (a + b) + c == a + (b + c)
  {
  }

  lemma {:induction false} OneMore(r: Rules, before: seq<Item>, after: seq<Item>, i: nat, goal: seq<Item>)
    requires Turned(r, before, after, i) && StackedUpTo(r, before, i, goal)
    ensures StackedUpTo(r, after, i + 1, goal)
  {
    var a, x, rest := before[..i], [after[i]], StackList(r, after[i + 1..]);
    assert after[..i + 1] == a + x;
    Regrouped(a, x, rest);
  }

  /** The positions of `at` counted from `i`. */
  ghost predicate Shifted(stack: seq<nat>, at: seq<nat>, i: nat) {
    |stack| == |at| && forall k :: 0 <= k < |at| ==> stack[k] == i + at[k]
  }

  /** The list positions `stack` and the total size of the files at `at` in `t`, the list from `i` on. */
  ghost predicate CollectedAt(stack: seq<nat>, size: int, at: seq<nat>, i: nat, t: seq<Item>) {
    Within(at, |t|) && Shifted(stack, at, i) && size == Size(Members(t, at))
  }

  lemma {:induction false} ScanSkips(r: Rules, t: seq<Item>, e: nat, offset: nat, n: nat, at: seq<nat>)
    requires 1 <= n < |t| && Skipped(r, t[n])
    ensures Scan(r, t, e, offset, n, at) == Scan(r, t, e, offset, n + 1, at)
  {
  }

  lemma {:induction false} ScanJoins(r: Rules, t: seq<Item>, e: nat, offset: nat, n: nat, at: seq<nat>)
    requires 1 <= n < |t| && !Skipped(r, t[n]) && Compare(r, e, offset, Name(r, t[0]), Name(r, t[n])).Joins?
    ensures Scan(r, t, e, offset, n, at) == Scan(r, t, e, offset, n + 1, Pushed(at, n))
  {
  }

  lemma PushedCollects(stack: seq<nat>, size: int, at: seq<nat>, i: nat, t: seq<Item>, n: nat)
    requires CollectedAt(stack, size, at, i, t) && n < |t|
    ensures CollectedAt((if stack == [] then [i] else stack) + [i + n],
                        size + (if stack == [] then t[0].size else 0) + t[n].size, Pushed(at, n), i, t)
  {
    PushedSize(t, at, n);
  }

  lemma PushedSize(t: seq<Item>, at: seq<nat>, j: nat)
    requires t != [] && Within(at, |t|) && j < |t|
    ensures Within(Pushed(at, j), |t|)
    ensures Size(Members(t, Pushed(at, j))) ==
      Size(Members(t, at)) + (if at == [] then t[0].size else 0) + t[j].size
  {
    var from := if at == [] then [0] else at;
    assert Members(t, Pushed(at, j))[..|from|] == Members(t, from);
    if at == [] {
      assert Members(t, from)[..0] == [];
    }
  }
}
