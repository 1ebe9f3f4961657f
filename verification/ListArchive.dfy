/** `CFileItemList::Archive`: a list of item objects that is stored, or loaded in place. */
module ListArchive {
  import opened ArchiveBytes
  import opened ItemArchive
  import opened FileArchive
  import FileIndex

  /** The formats of items and of settings, as names for what they are: `Stand` is unfolded only where a
      format is itself at work. */
  datatype Formats = Formats(putItem: Item -> seq<Byte>, putSettings: Settings -> seq<Byte>,
                             getItem: seq<Byte> -> Parsed<Item>, getSettings: seq<Byte> -> Parsed<Settings>)

  ghost predicate Stand(cs: Codecs, f: Formats) {
    && (forall it {:trigger PutItem(cs, it)} :: f.putItem(it) == PutItem(cs, it))
    && (forall t {:trigger PutSettings(t)} :: f.putSettings(t) == PutSettings(t))
    && (forall s {:trigger GetFreshItem(cs, s)} :: f.getItem(s) == GetFreshItem(cs, s))
    && (forall s {:trigger GetSettings(s)} :: f.getSettings(s) == GetSettings(s))
  }

  ghost predicate StandsForOwn(cs: Codecs, own: Item, get: seq<Byte> -> Parsed<Item>) {
    forall s {:trigger GetItem(cs, own.base, own.tags, s)} :: get(s) == GetItem(cs, own.base, own.tags, s)
  }

  ghost predicate StandForDetails(put: Details -> seq<Byte>, get: seq<Byte> -> Parsed<Details>) {
    && (forall d {:trigger PutDetails(d)} :: put(d) == PutDetails(d))
    && (forall s {:trigger GetDetails(s)} :: get(s) == GetDetails(s))
  }

  class FileItemList {
    const strip: FileIndex.Strip
    const own: FileItem
    var items: seq<FileItem>
    var index: map<string, FileItem>
    var fastLookup: bool
    var ignoreUrlOptions: bool
    var sort: Sort
    var sortIgnoreFolders: bool
    var cacheToDisc: Int
    var sortDetails: seq<Details>
    var content: Text

    constructor (cs: Codecs, strip: FileIndex.Strip)
      ensures this.strip == strip && fresh(own) && own.base == cs.base.blank && own.tags == NO_TAGS && Indexed()
      ensures items == [] && HeaderNow() == CLEARED && sortDetails == [] && content == ""
    {
      this.strip := strip;
      own := new FileItem(cs);
      items, index, fastLookup, ignoreUrlOptions := [], map[], false, false;
      sort, sortIgnoreFolders, cacheToDisc, sortDetails, content := Sort(0, 0, 0), false, 1, [], "";
    }

    function HeaderNow(): Header
      reads this
    {
      Header(ignoreUrlOptions, fastLookup, sort, sortIgnoreFolders, cacheToDisc)
    }

    ghost predicate HoldsItems(xs: seq<Item>)
      reads this, items
    {
      |items| == |xs| && forall i :: 0 <= i < |items| ==> items[i].Value() == xs[i]
    }

    /** The objects hold the list `l`. */
    ghost predicate Holds(l: List)
      reads this, own, items
    {
      && own.Value() == l.self && HoldsItems(l.items)
      && HeaderNow() == l.header && sortDetails == l.details && content == l.content
    }

    ghost function Entries(): (es: seq<FileIndex.Entry<FileItem>>)
      reads this, items
      ensures |es| == |items| && forall i :: 0 <= i < |es| ==> es[i] == FileIndex.Entry(items[i].path, items[i])
    {
      seq(|items|, i requires 0 <= i < |items| reads this, items => FileIndex.Entry(items[i].path, items[i]))
    }

    /** The path index is that of the items, or empty without fast lookup. */
    ghost predicate Indexed()
      reads this, items
    {
      index == if fastLookup then FileIndex.Built(strip, ignoreUrlOptions, Entries()) else map[]
    }

    // ----- Storing -----

    method StoreSort(s: Sort, ar: Archive)
      modifies ar
      ensures ar.bytes == old(ar.bytes) + PutSort(s)
    {
      ghost var was := ar.bytes;
      ar.Write(PutInt(s.sortBy)); ar.Write(PutInt(s.order)); ar.Write(PutInt(s.attributes));
      Appended3(was, PutInt(s.sortBy), PutInt(s.order), PutInt(s.attributes));
    }

    method StoreDetails(d: Details, ar: Archive)
      modifies ar
      ensures ar.bytes == old(ar.bytes) + PutDetails(d)
    {
      ghost var was := ar.bytes;
      StoreSort(d.sort, ar);
      ar.Write(PutInt(d.button));
      ar.Write(PutText(d.masks.file)); ar.Write(PutText(d.masks.folder));
      ar.Write(PutText(d.masks.file2)); ar.Write(PutText(d.masks.folder2));
      Appended4(was + PutSort(d.sort) + PutInt(d.button),
                PutText(d.masks.file), PutText(d.masks.folder), PutText(d.masks.file2), PutText(d.masks.folder2));
      Appended3(was, PutSort(d.sort), PutInt(d.button), PutMasks(d.masks));
    }

    method StoreHeader(ar: Archive)
      modifies ar
      ensures ar.bytes == old(ar.bytes) + PutHeader(HeaderNow())
    {
      ghost var was := ar.bytes;
      ar.Write(PutFlag(ignoreUrlOptions)); ar.Write(PutFlag(fastLookup));
      StoreSort(sort, ar);
      ar.Write(PutFlag(sortIgnoreFolders)); ar.Write(PutInt(cacheToDisc));
      Appended5(was, PutFlag(ignoreUrlOptions), PutFlag(fastLookup), PutSort(sort), PutFlag(sortIgnoreFolders),
                PutInt(cacheToDisc));
    }

    method StoreNextDetails(ds: seq<Details>, j: nat, ar: Archive, ghost put: Details -> seq<Byte>)
      requires j < |ds| && StandForDetails(put, GetDetails)
      modifies ar
      ensures ar.bytes + PutAll(put, ds[j + 1..]) == old(ar.bytes) + PutAll(put, ds[j..])
    {
      PutAllStep(put, ds, j, ar.bytes);
      StoreDetails(ds[j], ar);
    }

    method StoreAllDetails(ds: seq<Details>, ar: Archive, ghost put: Details -> seq<Byte>)
      requires StandForDetails(put, GetDetails)
      modifies ar
      ensures ar.bytes == old(ar.bytes) + PutAll(put, ds)
    {
      for j := 0 to |ds|
        invariant ar.bytes + PutAll(put, ds[j..]) == old(ar.bytes) + PutAll(put, ds)
      {
        StoreNextDetails(ds, j, ar, put);
      }
      assert ar.bytes + PutAll(put, ds[|ds|..]) == ar.bytes;
    }

    method StoreSettings(ar: Archive)
      modifies ar
      ensures ar.bytes == old(ar.bytes) + PutSettings(Settings(HeaderNow(), sortDetails, content))
    {
      ghost var was, h := ar.bytes, PutHeader(HeaderNow());
      ghost var n, all := PutInt(ToInt(|sortDetails|)), PutAll(PutDetails, sortDetails);
      StoreHeader(ar);
      ar.Write(PutInt(ToInt(|sortDetails|)));
      StoreAllDetails(sortDetails, ar, PutDetails);
      ar.Write(PutText(content));
      Appended4(was, h, n, all, PutText(content));
    }

    method StoreNext(cs: Codecs, i: nat, ar: Archive, ghost xs: seq<Item>, ghost f: Formats)
      requires HoldsItems(xs) && i < |items| && Stand(cs, f)
      modifies ar
      ensures ar.bytes + PutAll(f.putItem, xs[i + 1..]) == old(ar.bytes) + PutAll(f.putItem, xs[i..])
    {
      PutAllStep(f.putItem, xs, i, ar.bytes);
      items[i].Store(cs, ar);
    }

    method StoreItems(cs: Codecs, first: nat, ar: Archive, ghost xs: seq<Item>, ghost f: Formats)
      requires HoldsItems(xs) && first <= |items| && Stand(cs, f)
      modifies ar
      ensures ar.bytes == old(ar.bytes) + PutAll(f.putItem, xs[first..])
    {
      for i := first to |items|
        invariant ar.bytes + PutAll(f.putItem, xs[i..]) == old(ar.bytes) + PutAll(f.putItem, xs[first..])
      {
        StoreNext(cs, i, ar, xs, f);
      }
      assert ar.bytes + PutAll(f.putItem, xs[|items|..]) == ar.bytes;
    }

    method StoreFront(cs: Codecs, ar: Archive, size: nat, ghost l: List, ghost f: Formats)
      requires Holds(l) && Stand(cs, f)
      modifies ar
      ensures ar.bytes == old(ar.bytes) + f.putItem(l.self) + PutInt(ToInt(size)) + f.putSettings(SettingsOf(l))
    {
      own.Store(cs, ar);
      ar.Write(PutInt(ToInt(size)));
      StoreSettings(ar);
    }

    method StoreBy(cs: Codecs, ar: Archive, ghost l: List, ghost f: Formats)
      requires Holds(l) && Stand(cs, f)
      modifies ar
      ensures ar.bytes == old(ar.bytes) + PutListBy(f.putItem, f.putSettings, l)
    {
      var first := if items != [] && items[0].parent then 1 else 0;
      assert l.items[first..] == Body(l.items);
      ghost var was, own, n, t, all := ar.bytes, f.putItem(l.self), PutInt(ToInt(|items| - first)),
        f.putSettings(SettingsOf(l)), PutAll(f.putItem, Body(l.items));
      StoreFront(cs, ar, |items| - first, l, f);
      StoreItems(cs, first, ar, l.items, f);
      Nest4(was, own, n, t, all);
      Nest2(own, n, t + all);
    }

    /** `Archive`, storing: all but a leading parent entry. */
    method Store(cs: Codecs, ar: Archive, ghost l: List)
      requires Holds(l)
      modifies ar
      ensures ar.bytes == old(ar.bytes) + PutList(cs, l)
    {
      StoreBy(cs, ar, l, Formats(ItemPut(cs), PutSettings, ItemGet(cs), GetSettings));
    }

    // ----- Loading -----

    method LoadSort(ar: Archive) returns (r: Outcome<Sort>)
      modifies ar
      ensures match GetSort(old(ar.bytes)) case Got(s, rest) => r == Done(s) && ar.bytes == rest case Failed => r.Thrown?
    {
      var sortBy :- ar.ReadInt();
      var order :- ar.ReadInt();
      var attributes :- ar.ReadInt();
      return Done(Sort(sortBy, order, attributes));
    }

    method LoadMasks(ar: Archive) returns (r: Outcome<Masks>)
      modifies ar
      ensures match GetMasks(old(ar.bytes)) case Got(m, rest) => r == Done(m) && ar.bytes == rest case Failed => r.Thrown?
    {
      var file :- ar.ReadText();
      var folder :- ar.ReadText();
      var file2 :- ar.ReadText();
      var folder2 :- ar.ReadText();
      return Done(Masks(file, folder, file2, folder2));
    }

    method LoadDetails(ar: Archive) returns (r: Outcome<Details>)
      modifies ar
      ensures match GetDetails(old(ar.bytes)) case Got(d, rest) => r == Done(d) && ar.bytes == rest case Failed => r.Thrown?
    {
      var s :- LoadSort(ar);
      var button :- ar.ReadInt();
      var masks :- LoadMasks(ar);
      return Done(Details(s, button, masks));
    }

    method LoadNextDetails(ar: Archive, n: nat, ghost whole: Parsed<seq<Details>>, ghost get: seq<Byte> -> Parsed<Details>)
      returns (r: Outcome<()>)
      requires StandForDetails(PutDetails, get)
      requires n > 0 && whole == Following(sortDetails, GetAll(get, n, ar.bytes))
      modifies ar, this`sortDetails
      ensures r.Done? ==> whole == Following(sortDetails, GetAll(get, n - 1, ar.bytes))
      ensures r.Thrown? ==> whole.Failed?
    {
      GetAllStep(get, sortDetails, n, ar.bytes);
      var d :- LoadDetails(ar);
      sortDetails := sortDetails + [d];
      return Done(());
    }

    method LoadAllDetails(ar: Archive, count: nat, ghost get: seq<Byte> -> Parsed<Details>) returns (r: Outcome<()>)
      requires StandForDetails(PutDetails, get)
      modifies ar, this`sortDetails
      ensures match GetAll(get, count, old(ar.bytes))
        case Got(ds, rest) => r.Done? && sortDetails == old(sortDetails) + ds && ar.bytes == rest
        case Failed => r.Thrown?
    {
      ghost var whole := Following(sortDetails, GetAll(get, count, ar.bytes));
      for j := 0 to count
        invariant whole == Following(sortDetails, GetAll(get, count - j, ar.bytes))
      {
        var _ :- LoadNextDetails(ar, count - j, whole, get);
      }
      assert sortDetails + [] == sortDetails;
      return Done(());
    }

    /** The two switches are read first, but take effect last. */
    method LoadSettings(ar: Archive) returns (r: Outcome<(bool, bool)>)
      requires sortDetails == []
      modifies ar, this`sort, this`sortIgnoreFolders, this`cacheToDisc, this`sortDetails, this`content
      ensures match GetSettings(old(ar.bytes))
        case Got(t, rest) => r.Done? && LoadedAs(t, r.value) && ar.bytes == rest
        case Failed => r.Thrown?
    {
      var h :- LoadHeader(ar);
      var count :- ar.Take(GetWord(4, ar.bytes));
      var _ :- LoadAllDetails(ar, count, GetDetails);
      content :- ar.ReadText();
      return Done(h);
    }

    ghost predicate LoadedAs(t: Settings, switches: (bool, bool))
      reads this
    {
      && switches == (t.header.ignoring, t.header.fast)
      && sort == t.header.sort && sortIgnoreFolders == t.header.ignoreFolders && cacheToDisc == t.header.cacheToDisc
      && sortDetails == t.details && content == t.content
    }

    method LoadSettingsBy(cs: Codecs, ar: Archive, ghost f: Formats) returns (r: Outcome<(bool, bool)>)
      requires sortDetails == [] && Stand(cs, f)
      modifies ar, this`sort, this`sortIgnoreFolders, this`cacheToDisc, this`sortDetails, this`content
      ensures match f.getSettings(old(ar.bytes))
        case Got(t, rest) => r.Done? && LoadedAs(t, r.value) && ar.bytes == rest
        case Failed => r.Thrown?
    {
      r := LoadSettings(ar);
    }

    method LoadHeader(ar: Archive) returns (r: Outcome<(bool, bool)>)
      modifies ar, this`sort, this`sortIgnoreFolders, this`cacheToDisc
      ensures match GetHeader(old(ar.bytes))
        case Got(h, rest) =>
          && r == Done((h.ignoring, h.fast)) && ar.bytes == rest
          && sort == h.sort && sortIgnoreFolders == h.ignoreFolders && cacheToDisc == h.cacheToDisc
        case Failed => r.Thrown?
    {
      var ignoring :- ar.ReadFlag();
      var fast :- ar.ReadFlag();
      sort :- LoadSort(ar);
      sortIgnoreFolders :- ar.ReadFlag();
      cacheToDisc :- ar.ReadInt();
      return Done((ignoring, fast));
    }

    /** `SetFastLookup`, on a list without an index. */
    method SetFastLookup(fast: bool, ghost es: seq<FileIndex.Entry<FileItem>>)
      requires !fastLookup && index == map[] && es == Entries()
      modifies this`index, this`fastLookup
      ensures fastLookup == fast && index == if fast then FileIndex.Built(strip, ignoreUrlOptions, es) else map[]
    {
      if fast {
        for i := 0 to |items|
          modifies this`index
          invariant index == FileIndex.Built(strip, ignoreUrlOptions, es[..i])
        {
          assert es[..i + 1][..i] == es[..i] && es[i] == FileIndex.Entry(items[i].path, items[i]);
          index := FileIndex.Insert(index, FileIndex.Key(strip, ignoreUrlOptions, items[i].path), items[i]);
        }
        assert es[..|items|] == es;
      }
      fastLookup := fast;
    }

    /** The two switches take effect, and the index is built if there is to be one. */
    method SetSwitches(ignoring: bool, fast: bool)
      requires !fastLookup && index == map[]
      modifies this`index, this`fastLookup, this`ignoreUrlOptions
      ensures ignoreUrlOptions == ignoring && fastLookup == fast && Indexed()
    {
      ignoreUrlOptions := ignoring;
      ghost var es := Entries();
      SetFastLookup(fast, es);
      assert Entries() == es;
    }

    method Clear()
      modifies this
      ensures items == [] && HeaderNow() == CLEARED && sortDetails == [] && content == "" && index == map[]
    {
      ignoreUrlOptions, fastLookup, items, index := false, false, [], map[];
      sort, sortIgnoreFolders, cacheToDisc, sortDetails, content := Sort(0, 0, 0), false, 1, [], "";
    }

    method LoadItem(cs: Codecs, ar: Archive, ghost f: Formats) returns (r: Outcome<FileItem>)
      requires Stand(cs, f)
      modifies ar
      ensures match f.getItem(old(ar.bytes))
        case Got(it, rest) => r.Done? && fresh(r.value) && r.value.Value() == it && ar.bytes == rest
        case Failed => r.Thrown?
    {
      var item := new FileItem(cs);
      assert f.getItem(ar.bytes) == GetFreshItem(cs, ar.bytes);
      var _ :- item.Load(cs, ar);
      return Done(item);
    }

    method LoadNext(cs: Codecs, ar: Archive, n: nat, ghost got: seq<Item>, ghost whole: Parsed<seq<Item>>, ghost f: Formats)
      returns (r: Outcome<()>, ghost more: seq<Item>)
      requires n > 0 && HoldsItems(got) && whole == Following(got, GetAll(f.getItem, n, ar.bytes)) && Stand(cs, f)
      modifies ar, this`items
      ensures r.Done? ==> HoldsItems(more) && whole == Following(more, GetAll(f.getItem, n - 1, ar.bytes))
      ensures r.Thrown? ==> whole.Failed?
    {
      more := got;
      GetAllStep(f.getItem, got, n, ar.bytes);
      var item :- LoadItem(cs, ar, f);
      more := got + [item.Value()];
      items := items + [item];
      return Done(()), more;
    }

    method LoadItems(cs: Codecs, ar: Archive, size: nat, ghost front: seq<Item>, ghost f: Formats) returns (r: Outcome<()>)
      requires HoldsItems(front) && Stand(cs, f)
      modifies ar, this`items
      ensures match GetAll(f.getItem, size, old(ar.bytes))
        case Got(xs, rest) => r.Done? && HoldsItems(front + xs) && ar.bytes == rest
        case Failed => r.Thrown?
    {
      ghost var whole := Following(front, GetAll(f.getItem, size, ar.bytes));
      ghost var got := front;
      for i := 0 to size
        invariant HoldsItems(got)
        invariant whole == Following(got, GetAll(f.getItem, size - i, ar.bytes))
      {
        r, got := LoadNext(cs, ar, size - i, got, whole, f);
        if r.Thrown? {
          return;
        }
      }
      assert got + [] == got;
      return Done(());
    }

    /** Everything after the size of a list that is not empty. */
    method LoadRest(cs: Codecs, ar: Archive, size: nat, ghost self: Item, ghost front: seq<Item>, ghost f: Formats)
      returns (r: Outcome<()>)
      requires HoldsItems(front) && own.Value() == self && Stand(cs, f)
      requires !fastLookup && index == map[] && sortDetails == []
      modifies ar, this
      ensures match GetRestBy(f.getSettings, f.getItem, self, front, size, old(ar.bytes))
        case Got(l, rest) => r.Done? && Holds(l) && Indexed() && ar.bytes == rest
        case Failed => r.Thrown?
    {
      var switches :- LoadSettingsBy(cs, ar, f);
      var _ :- LoadItems(cs, ar, size, front, f);
      SetSwitches(switches.0, switches.1);
      return Done(());
    }

    /** A copy of the parent entry, if the list begins with one. */
    method CopyFront(ghost xs: seq<Item>) returns (front: seq<FileItem>)
      requires HoldsItems(xs)
      ensures |front| == |Front(xs)| && forall i :: 0 <= i < |front| ==> fresh(front[i]) && front[i].Value() == Front(xs)[i]
    {
      front := [];
      if items != [] && items[0].parent {
        var copy := new FileItem.Copy(items[0].Value());
        front := [copy];
      }
    }

    method LoadOwn(cs: Codecs, ar: Archive, ghost l0: List, ghost get: seq<Byte> -> Parsed<Item>) returns (r: Outcome<()>)
      requires own.Value() == l0.self && StandsForOwn(cs, l0.self, get)
      modifies own, ar
      ensures match get(old(ar.bytes))
        case Got(self, rest) => r.Done? && own.Value() == self && ar.bytes == rest
        case Failed => r.Thrown?
    {
      assert get(ar.bytes) == GetItem(cs, l0.self.base, l0.self.tags, ar.bytes);
      r := own.Load(cs, ar);
    }

    method LoadBy(cs: Codecs, ar: Archive, ghost l0: List, ghost get: seq<Byte> -> Parsed<Item>, ghost f: Formats)
      returns (r: Outcome<()>)
      requires Holds(l0) && StandsForOwn(cs, l0.self, get) && Stand(cs, f)
      modifies this, own, ar
      ensures match GetListBy(get, f.getSettings, f.getItem, Front(l0.items), old(ar.bytes))
        case Got(l, rest) => r.Done? && Holds(l) && Indexed() && ar.bytes == rest
        case Failed => r.Thrown?
    {
      var front := CopyFront(l0.items);
      Clear();
      var _ :- LoadOwn(cs, ar, l0, get);
      var size :- ar.ReadInt();
      if size <= 0 {
        return Done(());
      }
      items := front;
      r := LoadRest(cs, ar, size, own.Value(), Front(l0.items), f);
    }

    /** `Archive`, loading. */
    method Load(cs: Codecs, ar: Archive, ghost l0: List) returns (r: Outcome<()>)
      requires Holds(l0)
      modifies this, own, ar
      ensures match GetList(cs, l0, old(ar.bytes))
        case Got(l, rest) => r.Done? && Holds(l) && Indexed() && ar.bytes == rest
        case Failed => r.Thrown?
    {
      r := LoadBy(cs, ar, l0, OwnGet(cs, l0), Formats(ItemPut(cs), PutSettings, ItemGet(cs), GetSettings));
    }
  }

  /** A list that is saved with an item besides the parent entry, and loaded into a new list, is there
      again without the parent entry, indexed as its switches say; and nothing is left unread. */
  method SaveAndLoad(cs: Codecs, from: FileItemList, strip: FileIndex.Strip, ghost l: List)
    returns (r: Outcome<()>, into: FileItemList, ar: Archive)
    requires AllReadBack(cs) && from.Holds(l)
    requires 0 < |Body(l.items)| < TWO_TO_THE_31 && |l.details| < TWO_TO_THE_32
    ensures r.Done? && into.Holds(l.(items := Body(l.items))) && into.Indexed() && ar.bytes == []
  {
    ghost var f, get := Formats(ItemPut(cs), PutSettings, ItemGet(cs), GetSettings), ItemGet(cs);
    SavedComesBack(cs, l, f, get);
    r, into, ar := SaveAndLoadBy(cs, from, strip, l, f, get);
  }

  ghost predicate ComesBack(l: List, f: Formats, get: seq<Byte> -> Parsed<Item>) {
    GetListBy(get, f.getSettings, f.getItem, [], PutListBy(f.putItem, f.putSettings, l)) ==
      Got(l.(items := Body(l.items)), [])
  }

  lemma {:induction false} SavedComesBack(cs: Codecs, l: List, f: Formats, get: seq<Byte> -> Parsed<Item>)
    requires AllReadBack(cs) && 0 < |Body(l.items)| < TWO_TO_THE_31 && |l.details| < TWO_TO_THE_32
    requires f == Formats(ItemPut(cs), PutSettings, ItemGet(cs), GetSettings) && get == ItemGet(cs)
    ensures ComesBack(l, f, get)
  {
    ItemsReadBack(cs);
    forall s ensures f.getSettings(f.putSettings(SettingsOf(l)) + s) == Got(SettingsOf(l), s) {
      SettingsRoundTrip(SettingsOf(l), s);
    }
    StoredComesBack(l, f, get);
  }

  lemma {:induction false} StoredComesBack(l: List, f: Formats, get: seq<Byte> -> Parsed<Item>)
    requires ReadsBack(f.putItem, get) && ReadsBack(f.putItem, f.getItem)
    requires forall s :: f.getSettings(f.putSettings(SettingsOf(l)) + s) == Got(SettingsOf(l), s)
    requires 0 < |Body(l.items)| < TWO_TO_THE_31
    ensures ComesBack(l, f, get)
  {
    var stored := PutListBy(f.putItem, f.putSettings, l);
    ListByRoundTrip(get, f.putSettings, f.getSettings, f.putItem, f.getItem, l, [], []);
    assert stored + [] == stored && [] + Body(l.items) == Body(l.items);
  }

  method SaveAndLoadBy(cs: Codecs, from: FileItemList, strip: FileIndex.Strip, ghost l: List, ghost f: Formats,
                       ghost get: seq<Byte> -> Parsed<Item>)
    returns (r: Outcome<()>, into: FileItemList, ar: Archive)
    requires from.Holds(l) && Stand(cs, f) && ComesBack(l, f, get) && ReadsFresh(cs, get)
    ensures r.Done? && into.Holds(l.(items := Body(l.items))) && into.Indexed() && ar.bytes == []
  {
    ar := new Archive([]);
    from.StoreBy(cs, ar, l, f);
    assert ar.bytes == PutListBy(f.putItem, f.putSettings, l);
    r, into := LoadNew(cs, ar, strip, f, get);
  }

  ghost predicate ReadsFresh(cs: Codecs, get: seq<Byte> -> Parsed<Item>) {
    forall s {:trigger GetItem(cs, cs.base.blank, NO_TAGS, s)} :: get(s) == GetItem(cs, cs.base.blank, NO_TAGS, s)
  }

  method LoadNew(cs: Codecs, ar: Archive, strip: FileIndex.Strip, ghost f: Formats, ghost get: seq<Byte> -> Parsed<Item>)
    returns (r: Outcome<()>, into: FileItemList)
    requires Stand(cs, f) && ReadsFresh(cs, get)
    modifies ar
    ensures match GetListBy(get, f.getSettings, f.getItem, [], old(ar.bytes))
      case Got(l, rest) => r.Done? && into.Holds(l) && into.Indexed() && ar.bytes == rest
      case Failed => r.Thrown?
  {
    into := new FileItemList(cs, strip);
    ghost var l0 := List(into.own.Value(), [], CLEARED, [], []);
    assert StandsForOwn(cs, l0.self, get);
    r := into.LoadBy(cs, ar, l0, get, f);
  }
}
