/** What `CFileItem::Archive` and `CFileItemList::Archive` write, and what they make of it again. */
module ItemArchive {
  import opened ArchiveBytes

  /** What a base class or tag, archived elsewhere, holds. */
  type Content = map<string, string>

  /** How that is archived: it is read into what is already there. */
  datatype Codec = Codec(put: Content -> seq<Byte>, blank: Content, read: (Content, seq<Byte>) -> Parsed<Content>)

  ghost predicate RoundTrips(c: Codec) {
    forall x, rest :: c.read(c.blank, c.put(x) + rest) == Got(x, rest)
  }

  datatype Codecs = Codecs(base: Codec, date: Codec, music: Codec, video: Codec, picture: Codec, game: Codec)

  ghost predicate AllReadBack(cs: Codecs) {
    && RoundTrips(cs.base) && RoundTrips(cs.date)
    && RoundTrips(cs.music) && RoundTrips(cs.video) && RoundTrips(cs.picture) && RoundTrips(cs.game)
  }

  // ----- Items -----

  datatype Option<+T> = None | Some(value: T)

  type Tag = Option<Content>

  datatype Place = Place(parent: bool, preformatted: bool, path: Text, shareOrDrive: bool, driveType: Int)
  datatype About = About(date: Content, size: Long, dvdLabel: Text, title: Text)
  datatype Span = Span(programCount: Int, depth: Int, start: Long, partNumber: Int, end: Long)
  datatype Lock = Lock(mode: Int, code: Text, badPasswords: Int)
  datatype Options = Options(canQueue: bool, mimeType: Text, extraInfo: Text, specialSort: Int, contentLookup: bool)
  datatype Tags = Tags(music: Tag, video: Tag, picture: Tag, game: Tag)

  const NO_TAGS := Tags(None, None, None, None)

  datatype Fields = Fields(place: Place, about: About, span: Span, lock: Lock, options: Options)

  datatype Item = Item(base: Content, fields: Fields, tags: Tags)

  function PutPlace(p: Place): seq<Byte> {
    PutFlag(p.parent) + PutFlag(p.preformatted) + PutText(p.path) + PutFlag(p.shareOrDrive) + PutInt(p.driveType)
  }

  function PutAbout(cs: Codecs, a: About): seq<Byte> {
    cs.date.put(a.date) + PutLong(a.size) + PutText(a.dvdLabel) + PutText(a.title)
  }

  function PutSpan(s: Span): seq<Byte> {
    PutInt(s.programCount) + PutInt(s.depth) + PutLong(s.start) + PutInt(s.partNumber) + PutLong(s.end)
  }

  function PutLock(l: Lock): seq<Byte> {
    PutInt(l.mode) + PutText(l.code) + PutInt(l.badPasswords)
  }

  function PutOptions(o: Options): seq<Byte> {
    PutFlag(o.canQueue) + PutText(o.mimeType) + PutText(o.extraInfo) + PutInt(o.specialSort) + PutFlag(o.contentLookup)
  }

  function PutTag(c: Codec, t: Tag): seq<Byte> {
    if t.Some? then PutInt(1) + c.put(t.value) else PutInt(0)
  }

  function PutTags(cs: Codecs, t: Tags): seq<Byte> {
    PutTag(cs.music, t.music) + PutTag(cs.video, t.video) + PutTag(cs.picture, t.picture) + PutTag(cs.game, t.game)
  }

  function PutFields(cs: Codecs, f: Fields): seq<Byte> {
    PutPlace(f.place) + PutAbout(cs, f.about) + PutSpan(f.span) + PutLock(f.lock) + PutOptions(f.options)
  }

  function PutItem(cs: Codecs, it: Item): seq<Byte> {
    cs.base.put(it.base) + PutFields(cs, it.fields) + PutTags(cs, it.tags)
  }

  function GetPlace(s0: seq<Byte>): Parsed<Place> {
    match GetFlag(s0) case Failed => Failed case Got(parent, s1) =>
    match GetFlag(s1) case Failed => Failed case Got(preformatted, s2) =>
    match GetText(s2) case Failed => Failed case Got(path, s3) =>
    match GetFlag(s3) case Failed => Failed case Got(shareOrDrive, s4) =>
    match GetInt(s4) case Failed => Failed case Got(driveType, s5) =>
    Got(Place(parent, preformatted, path, shareOrDrive, driveType), s5)
  }

  function GetAbout(cs: Codecs, s0: seq<Byte>): Parsed<About> {
    match cs.date.read(cs.date.blank, s0) case Failed => Failed case Got(date, s1) =>
    match GetLong(s1) case Failed => Failed case Got(size, s2) =>
    match GetText(s2) case Failed => Failed case Got(dvdLabel, s3) =>
    match GetText(s3) case Failed => Failed case Got(title, s4) =>
    Got(About(date, size, dvdLabel, title), s4)
  }

  function GetSpan(s0: seq<Byte>): Parsed<Span> {
    match GetInt(s0) case Failed => Failed case Got(programCount, s1) =>
    match GetInt(s1) case Failed => Failed case Got(depth, s2) =>
    match GetLong(s2) case Failed => Failed case Got(start, s3) =>
    match GetInt(s3) case Failed => Failed case Got(partNumber, s4) =>
    match GetLong(s4) case Failed => Failed case Got(end, s5) =>
    Got(Span(programCount, depth, start, partNumber, end), s5)
  }

  function GetLock(s0: seq<Byte>): Parsed<Lock> {
    match GetInt(s0) case Failed => Failed case Got(mode, s1) =>
    match GetText(s1) case Failed => Failed case Got(code, s2) =>
    match GetInt(s2) case Failed => Failed case Got(badPasswords, s3) =>
    Got(Lock(mode, code, badPasswords), s3)
  }

  function GetOptions(s0: seq<Byte>): Parsed<Options> {
    match GetFlag(s0) case Failed => Failed case Got(canQueue, s1) =>
    match GetText(s1) case Failed => Failed case Got(mimeType, s2) =>
    match GetText(s2) case Failed => Failed case Got(extraInfo, s3) =>
    match GetInt(s3) case Failed => Failed case Got(specialSort, s4) =>
    match GetFlag(s4) case Failed => Failed case Got(contentLookup, s5) =>
    Got(Options(canQueue, mimeType, extraInfo, specialSort, contentLookup), s5)
  }

  /** Without a stored tag, one that is already there stays. */
  function GetTag(c: Codec, old0: Tag, s: seq<Byte>): Parsed<Tag> {
    match GetInt(s)
    case Failed => Failed
    case Got(marker, rest) =>
      if marker != 1 then Got(old0, rest)
      else
        match c.read(if old0.Some? then old0.value else c.blank, rest)
        case Failed => Failed
        case Got(t, after) => Got(Some(t), after)
  }

  function GetTags(cs: Codecs, old0: Tags, s0: seq<Byte>): Parsed<Tags> {
    match GetTag(cs.music, old0.music, s0) case Failed => Failed case Got(music, s1) =>
    match GetTag(cs.video, old0.video, s1) case Failed => Failed case Got(video, s2) =>
    match GetTag(cs.picture, old0.picture, s2) case Failed => Failed case Got(picture, s3) =>
    match GetTag(cs.game, old0.game, s3) case Failed => Failed case Got(game, s4) =>
    Got(Tags(music, video, picture, game), s4)
  }

  function GetEarlier(cs: Codecs, s0: seq<Byte>): Parsed<(Place, About)> {
    match GetPlace(s0) case Failed => Failed case Got(place, s1) =>
    match GetAbout(cs, s1) case Failed => Failed case Got(about, s2) =>
    Got((place, about), s2)
  }

  function GetLater(s2: seq<Byte>): Parsed<(Span, Lock, Options)> {
    match GetSpan(s2) case Failed => Failed case Got(span, s3) =>
    match GetLock(s3) case Failed => Failed case Got(lock, s4) =>
    match GetOptions(s4) case Failed => Failed case Got(options, s5) =>
    Got((span, lock, options), s5)
  }

  function GetFields(cs: Codecs, s0: seq<Byte>): Parsed<Fields> {
    match GetEarlier(cs, s0) case Failed => Failed case Got(earlier, s2) =>
    match GetLater(s2) case Failed => Failed case Got(later, s5) =>
    Got(Fields(earlier.0, earlier.1, later.0, later.1, later.2), s5)
  }

  /** Reads an item into one with the given base and tags; all else is replaced. */
  function GetItem(cs: Codecs, base0: Content, tags0: Tags, s0: seq<Byte>): Parsed<Item> {
    match cs.base.read(base0, s0) case Failed => Failed case Got(base, s1) =>
    match GetFields(cs, s1) case Failed => Failed case Got(fields, s2) =>
    match GetTags(cs, tags0, s2) case Failed => Failed case Got(tags, s3) =>
    Got(Item(base, fields, tags), s3)
  }

  function GetFreshItem(cs: Codecs, s: seq<Byte>): Parsed<Item> {
    GetItem(cs, cs.base.blank, NO_TAGS, s)
  }

  function ItemPut(cs: Codecs): Item -> seq<Byte> { it => PutItem(cs, it) }

  function ItemGet(cs: Codecs): seq<Byte> -> Parsed<Item> { s => GetFreshItem(cs, s) }

  lemma PlaceRoundTrip(p: Place, rest: seq<Byte>)
    ensures GetPlace(PutPlace(p) + rest) == Got(p, rest)
  {
    var e := PutInt(p.driveType) + rest;
    var d := PutFlag(p.shareOrDrive) + e;
    var c := PutText(p.path) + d;
    var b := PutFlag(p.preformatted) + c;
    Nest5(PutFlag(p.parent), PutFlag(p.preformatted), PutText(p.path), PutFlag(p.shareOrDrive), PutInt(p.driveType), rest);
    FlagRoundTrip(p.parent, b);
    FlagRoundTrip(p.preformatted, c);
    TextRoundTrip(p.path, d);
    FlagRoundTrip(p.shareOrDrive, e);
    IntRoundTrip(p.driveType, rest);
  }

  lemma AboutRoundTrip(cs: Codecs, a: About, rest: seq<Byte>)
    requires AllReadBack(cs)
    ensures GetAbout(cs, PutAbout(cs, a) + rest) == Got(a, rest)
  {
    var d := PutText(a.title) + rest;
    var c := PutText(a.dvdLabel) + d;
    var b := PutLong(a.size) + c;
    Nest4(cs.date.put(a.date), PutLong(a.size), PutText(a.dvdLabel), PutText(a.title), rest);
    assert cs.date.read(cs.date.blank, cs.date.put(a.date) + b) == Got(a.date, b);
    LongRoundTrip(a.size, c);
    TextRoundTrip(a.dvdLabel, d);
    TextRoundTrip(a.title, rest);
  }

  lemma SpanRoundTrip(s: Span, rest: seq<Byte>)
    ensures GetSpan(PutSpan(s) + rest) == Got(s, rest)
  {
    var e := PutLong(s.end) + rest;
    var d := PutInt(s.partNumber) + e;
    var c := PutLong(s.start) + d;
    var b := PutInt(s.depth) + c;
    Nest5(PutInt(s.programCount), PutInt(s.depth), PutLong(s.start), PutInt(s.partNumber), PutLong(s.end), rest);
    IntRoundTrip(s.programCount, b);
    IntRoundTrip(s.depth, c);
    LongRoundTrip(s.start, d);
    IntRoundTrip(s.partNumber, e);
    LongRoundTrip(s.end, rest);
  }

  lemma LockRoundTrip(l: Lock, rest: seq<Byte>)
    ensures GetLock(PutLock(l) + rest) == Got(l, rest)
  {
    var c := PutInt(l.badPasswords) + rest;
    var b := PutText(l.code) + c;
    Nest3(PutInt(l.mode), PutText(l.code), PutInt(l.badPasswords), rest);
    IntRoundTrip(l.mode, b);
    TextRoundTrip(l.code, c);
    IntRoundTrip(l.badPasswords, rest);
  }

  lemma OptionsRoundTrip(o: Options, rest: seq<Byte>)
    ensures GetOptions(PutOptions(o) + rest) == Got(o, rest)
  {
    var e := PutFlag(o.contentLookup) + rest;
    var d := PutInt(o.specialSort) + e;
    var c := PutText(o.extraInfo) + d;
    var b := PutText(o.mimeType) + c;
    Nest5(PutFlag(o.canQueue), PutText(o.mimeType), PutText(o.extraInfo), PutInt(o.specialSort),
          PutFlag(o.contentLookup), rest);
    FlagRoundTrip(o.canQueue, b);
    TextRoundTrip(o.mimeType, c);
    TextRoundTrip(o.extraInfo, d);
    IntRoundTrip(o.specialSort, e);
    FlagRoundTrip(o.contentLookup, rest);
  }

  /** A tag that is read into a fresh item comes back. One that is read where a tag was before comes
      back too, if it was stored; if none was stored, the old one is still there. */
  lemma TagRoundTrip(c: Codec, old0: Tag, t: Tag, rest: seq<Byte>)
    requires RoundTrips(c) && (old0.Some? ==> old0.value == c.blank || t.None?)
    ensures GetTag(c, old0, PutTag(c, t) + rest) == Got(if t.Some? then t else old0, rest)
  {
    if t.Some? {
      assert PutTag(c, t) + rest == PutInt(1) + (c.put(t.value) + rest);
      IntRoundTrip(1, c.put(t.value) + rest);
      assert c.read(c.blank, c.put(t.value) + rest) == Got(t.value, rest);
    } else {
      IntRoundTrip(0, rest);
    }
  }

  lemma TagsRoundTrip(cs: Codecs, t: Tags, rest: seq<Byte>)
    requires AllReadBack(cs)
    ensures GetTags(cs, NO_TAGS, PutTags(cs, t) + rest) == Got(t, rest)
  {
    var a, b := PutTag(cs.music, t.music), PutTag(cs.video, t.video);
    var c, d := PutTag(cs.picture, t.picture), PutTag(cs.game, t.game);
    Nest4(a, b, c, d, rest);
    TagRoundTrip(cs.music, None, t.music, b + (c + (d + rest)));
    TagRoundTrip(cs.video, None, t.video, c + (d + rest));
    TagRoundTrip(cs.picture, None, t.picture, d + rest);
    TagRoundTrip(cs.game, None, t.game, rest);
  }

  lemma FieldsRoundTrip(cs: Codecs, f: Fields, rest: seq<Byte>)
    requires AllReadBack(cs)
    ensures GetFields(cs, PutFields(cs, f) + rest) == Got(f, rest)
  {
    var a, b, c, d, e := PutPlace(f.place), PutAbout(cs, f.about), PutSpan(f.span), PutLock(f.lock), PutOptions(f.options);
    var s4 := e + rest;
    var s3 := d + s4;
    var s2 := c + s3;
    Nest5(a, b, c, d, e, rest);
    PlaceRoundTrip(f.place, b + s2);
    AboutRoundTrip(cs, f.about, s2);
    SpanRoundTrip(f.span, s3);
    LockRoundTrip(f.lock, s4);
    OptionsRoundTrip(f.options, rest);
  }

  /** An item read into a fresh one comes back whole, and nothing more is read. */
  lemma ItemRoundTrip(cs: Codecs, it: Item, rest: seq<Byte>)
    requires AllReadBack(cs)
    ensures GetItem(cs, cs.base.blank, NO_TAGS, PutItem(cs, it) + rest) == Got(it, rest)
  {
    var z, f, g := cs.base.put(it.base), PutFields(cs, it.fields), PutTags(cs, it.tags);
    Nest3(z, f, g, rest);
    assert cs.base.read(cs.base.blank, z + (f + (g + rest))) == Got(it.base, f + (g + rest));
    FieldsRoundTrip(cs, it.fields, g + rest);
    TagsRoundTrip(cs, it.tags, rest);
  }

  // ----- Lists -----

  datatype Sort = Sort(sortBy: Int, order: Int, attributes: Int)

  datatype Header = Header(ignoring: bool, fast: bool, sort: Sort, ignoreFolders: bool, cacheToDisc: Int)

  datatype Masks = Masks(file: Text, folder: Text, file2: Text, folder2: Text)

  datatype Details = Details(sort: Sort, button: Int, masks: Masks)

  /** A list, which is an item itself. */
  datatype List = List(self: Item, items: seq<Item>, header: Header, details: seq<Details>, content: Text)

  /** As `Clear` leaves it: no sorting, caching if slow. */
  const CLEARED := Header(false, false, Sort(0, 0, 0), false, 1)

  function Body(items: seq<Item>): (r: seq<Item>)
    ensures |items| - 1 <= |r| <= |items|
  {
    if items != [] && items[0].fields.place.parent then items[1..] else items
  }

  function PutSort(s: Sort): seq<Byte> {
    PutInt(s.sortBy) + PutInt(s.order) + PutInt(s.attributes)
  }

  function PutHeader(h: Header): seq<Byte> {
    PutFlag(h.ignoring) + PutFlag(h.fast) + PutSort(h.sort) + PutFlag(h.ignoreFolders) + PutInt(h.cacheToDisc)
  }

  function PutMasks(m: Masks): seq<Byte> {
    PutText(m.file) + PutText(m.folder) + PutText(m.file2) + PutText(m.folder2)
  }

  function PutDetails(d: Details): seq<Byte> {
    PutSort(d.sort) + PutInt(d.button) + PutMasks(d.masks)
  }

  /** The list's own settings besides its size: switches, sorting, sort details and content. */
  datatype Settings = Settings(header: Header, details: seq<Details>, content: Text)

  function SettingsOf(l: List): Settings { Settings(l.header, l.details, l.content) }

  function PutSettings(t: Settings): seq<Byte> {
    PutHeader(t.header) + PutInt(ToInt(|t.details|)) + PutAll(PutDetails, t.details) + PutText(t.content)
  }

  /** How a list is written, given how its items and its settings are. */
  function PutListBy(item: Item -> seq<Byte>, settings: Settings -> seq<Byte>, l: List): seq<Byte> {
    item(l.self) + PutInt(ToInt(|Body(l.items)|)) + (settings(SettingsOf(l)) + PutAll(item, Body(l.items)))
  }

  function PutList(cs: Codecs, l: List): seq<Byte> {
    PutListBy(ItemPut(cs), PutSettings, l)
  }

  /** What is written after the number of items. */
  function PutRest(cs: Codecs, l: List): seq<Byte> {
    PutSettings(SettingsOf(l)) + PutAll(ItemPut(cs), Body(l.items))
  }

  function GetSort(s0: seq<Byte>): Parsed<Sort> {
    match GetInt(s0) case Failed => Failed case Got(sortBy, s1) =>
    match GetInt(s1) case Failed => Failed case Got(order, s2) =>
    match GetInt(s2) case Failed => Failed case Got(attributes, s3) =>
    Got(Sort(sortBy, order, attributes), s3)
  }

  function GetHeader(s0: seq<Byte>): Parsed<Header> {
    match GetFlag(s0) case Failed => Failed case Got(ignoring, s1) =>
    match GetFlag(s1) case Failed => Failed case Got(fast, s2) =>
    match GetSort(s2) case Failed => Failed case Got(sort, s3) =>
    match GetFlag(s3) case Failed => Failed case Got(ignoreFolders, s4) =>
    match GetInt(s4) case Failed => Failed case Got(cacheToDisc, s5) =>
    Got(Header(ignoring, fast, sort, ignoreFolders, cacheToDisc), s5)
  }

  function GetMasks(s0: seq<Byte>): Parsed<Masks> {
    match GetText(s0) case Failed => Failed case Got(file, s1) =>
    match GetText(s1) case Failed => Failed case Got(folder, s2) =>
    match GetText(s2) case Failed => Failed case Got(file2, s3) =>
    match GetText(s3) case Failed => Failed case Got(folder2, s4) =>
    Got(Masks(file, folder, file2, folder2), s4)
  }

  function GetDetails(s0: seq<Byte>): Parsed<Details> {
    match GetSort(s0) case Failed => Failed case Got(sort, s1) =>
    match GetInt(s1) case Failed => Failed case Got(button, s2) =>
    match GetMasks(s2) case Failed => Failed case Got(masks, s3) =>
    Got(Details(sort, button, masks), s3)
  }

  /** How a list is read, given how its own fields, its settings and its items are. */
  function GetListBy(own: seq<Byte> -> Parsed<Item>, settings: seq<Byte> -> Parsed<Settings>,
                     item: seq<Byte> -> Parsed<Item>, front: seq<Item>, s0: seq<Byte>): Parsed<List> {
    match own(s0) case Failed => Failed case Got(self, s1) =>
    match GetInt(s1) case Failed => Failed case Got(size, s2) =>
    if size <= 0 then Got(List(self, [], CLEARED, [], []), s2)
    else GetRestBy(settings, item, self, front, size, s2)
  }

  function GetRestBy(settings: seq<Byte> -> Parsed<Settings>, item: seq<Byte> -> Parsed<Item>,
                     self: Item, front: seq<Item>, size: nat, s2: seq<Byte>): (r: Parsed<List>)
    ensures r.Got? ==> |r.value.items| == |front| + size
  {
    match settings(s2) case Failed => Failed case Got(t, s3) =>
    match GetAll(item, size, s3) case Failed => Failed case Got(items, s4) =>
    Got(List(self, front + items, t.header, t.details, t.content), s4)
  }

  /** Reads a list into `l0`: a leading parent entry of `l0` stays in front, unless the stored list has
      no items, in which case nothing but the list's own fields is read. */
  function GetList(cs: Codecs, l0: List, s0: seq<Byte>): Parsed<List> {
    GetListBy(OwnGet(cs, l0), GetSettings, ItemGet(cs), Front(l0.items), s0)
  }

  function OwnGet(cs: Codecs, l0: List): seq<Byte> -> Parsed<Item> {
    s => GetItem(cs, l0.self.base, l0.self.tags, s)
  }

  /** The parent entry, if the list begins with one. */
  function Front(items: seq<Item>): seq<Item> {
    if items != [] && items[0].fields.place.parent then items[..1] else []
  }

  function GetSettings(s2: seq<Byte>): Parsed<Settings> {
    match GetHeader(s2) case Failed => Failed case Got(header, s3) =>
    match GetWord(4, s3) case Failed => Failed case Got(count, s4) =>
    match GetAll(GetDetails, count, s4) case Failed => Failed case Got(details, s5) =>
    match GetText(s5) case Failed => Failed case Got(content, s6) =>
    Got(Settings(header, details, content), s6)
  }

  function GetRest(cs: Codecs, self: Item, front: seq<Item>, size: nat, s2: seq<Byte>): Parsed<List> {
    GetRestBy(GetSettings, ItemGet(cs), self, front, size, s2)
  }

  lemma SortRoundTrip(s: Sort, rest: seq<Byte>)
    ensures GetSort(PutSort(s) + rest) == Got(s, rest)
  {
    Nest3(PutInt(s.sortBy), PutInt(s.order), PutInt(s.attributes), rest);
    IntRoundTrip(s.sortBy, PutInt(s.order) + (PutInt(s.attributes) + rest));
    IntRoundTrip(s.order, PutInt(s.attributes) + rest);
    IntRoundTrip(s.attributes, rest);
  }

  lemma HeaderRoundTrip(h: Header, rest: seq<Byte>)
    ensures GetHeader(PutHeader(h) + rest) == Got(h, rest)
  {
    var e := PutInt(h.cacheToDisc) + rest;
    var d := PutFlag(h.ignoreFolders) + e;
    var c := PutSort(h.sort) + d;
    var b := PutFlag(h.fast) + c;
    Nest5(PutFlag(h.ignoring), PutFlag(h.fast), PutSort(h.sort), PutFlag(h.ignoreFolders), PutInt(h.cacheToDisc), rest);
    FlagRoundTrip(h.ignoring, b);
    FlagRoundTrip(h.fast, c);
    SortRoundTrip(h.sort, d);
    FlagRoundTrip(h.ignoreFolders, e);
    IntRoundTrip(h.cacheToDisc, rest);
  }

  lemma MasksRoundTrip(m: Masks, rest: seq<Byte>)
    ensures GetMasks(PutMasks(m) + rest) == Got(m, rest)
  {
    var d := PutText(m.folder2) + rest;
    var c := PutText(m.file2) + d;
    var b := PutText(m.folder) + c;
    Nest4(PutText(m.file), PutText(m.folder), PutText(m.file2), PutText(m.folder2), rest);
    TextRoundTrip(m.file, b);
    TextRoundTrip(m.folder, c);
    TextRoundTrip(m.file2, d);
    TextRoundTrip(m.folder2, rest);
  }

  lemma DetailsRoundTrip(d: Details, rest: seq<Byte>)
    ensures GetDetails(PutDetails(d) + rest) == Got(d, rest)
  {
    Nest3(PutSort(d.sort), PutInt(d.button), PutMasks(d.masks), rest);
    SortRoundTrip(d.sort, PutInt(d.button) + (PutMasks(d.masks) + rest));
    IntRoundTrip(d.button, PutMasks(d.masks) + rest);
    MasksRoundTrip(d.masks, rest);
  }

  lemma DetailsReadBack()
    ensures ReadsBack(PutDetails, GetDetails)
  {
    forall d, rest ensures GetDetails(PutDetails(d) + rest) == Got(d, rest) { DetailsRoundTrip(d, rest); }
  }

  lemma ItemsReadBack(cs: Codecs)
    requires AllReadBack(cs)
    ensures ReadsBack(ItemPut(cs), ItemGet(cs))
  {
    forall it, rest ensures GetFreshItem(cs, PutItem(cs, it) + rest) == Got(it, rest) { ItemRoundTrip(cs, it, rest); }
  }

  lemma SettingsInTurn(s2: seq<Byte>, h: Header, s3: seq<Byte>, n: nat, s4: seq<Byte>, ds: seq<Details>, s5: seq<Byte>,
                       c: Text, s6: seq<Byte>)
    requires GetHeader(s2) == Got(h, s3) && GetWord(4, s3) == Got(n, s4)
    requires GetAll(GetDetails, n, s4) == Got(ds, s5) && GetText(s5) == Got(c, s6)
    ensures GetSettings(s2) == Got(Settings(h, ds, c), s6)
  {
  }

  lemma SettingsRoundTrip(t: Settings, rest: seq<Byte>)
    requires |t.details| < TWO_TO_THE_32
    ensures GetSettings(PutSettings(t) + rest) == Got(t, rest)
  {
    var n := |t.details|;
    var h, i, j, k := PutHeader(t.header), PutInt(ToInt(n)), PutAll(PutDetails, t.details), PutText(t.content);
    var s5 := k + rest;
    var s4 := j + s5;
    var s3 := i + s4;
    Nest4(h, i, j, k, rest);
    assert GetHeader(h + s3) == Got(t.header, s3) by { HeaderRoundTrip(t.header, s3); }
    assert GetWord(4, s3) == Got(n, s4) by { SmallCountRoundTrip(n, s4); }
    assert GetAll(GetDetails, n, s4) == Got(t.details, s5) by {
      DetailsReadBack();
      AllRoundTrip(PutDetails, GetDetails, t.details, s5);
    }
    assert GetText(s5) == Got(t.content, rest) by { TextRoundTrip(t.content, rest); }
    SettingsInTurn(h + s3, t.header, s3, n, s4, t.details, s5, t.content, rest);
  }

  lemma RestByRoundTrip(putT: Settings -> seq<Byte>, getT: seq<Byte> -> Parsed<Settings>,
                        put: Item -> seq<Byte>, get: seq<Byte> -> Parsed<Item>,
                        t: Settings, items: seq<Item>, self: Item, front: seq<Item>, rest: seq<Byte>)
    requires getT(putT(t) + (PutAll(put, items) + rest)) == Got(t, PutAll(put, items) + rest) && ReadsBack(put, get)
    ensures GetRestBy(getT, get, self, front, |items|, putT(t) + PutAll(put, items) + rest) ==
      Got(List(self, front + items, t.header, t.details, t.content), rest)
  {
    Nest2(putT(t), PutAll(put, items), rest);
    AllRoundTrip(put, get, items, rest);
  }

  lemma RestRoundTrip(cs: Codecs, l: List, self: Item, front: seq<Item>, rest: seq<Byte>)
    requires AllReadBack(cs) && |l.details| < TWO_TO_THE_32
    ensures GetRest(cs, self, front, |Body(l.items)|, PutRest(cs, l) + rest) ==
      Got(List(self, front + Body(l.items), l.header, l.details, l.content), rest)
  {
    SettingsRoundTrip(SettingsOf(l), PutAll(ItemPut(cs), Body(l.items)) + rest);
    ItemsReadBack(cs);
    RestByRoundTrip(PutSettings, GetSettings, ItemPut(cs), ItemGet(cs), SettingsOf(l), Body(l.items), self, front, rest);
  }

  /** A list without items or tags of its own, as its constructor leaves it. */
  ghost predicate Blank(cs: Codecs, l0: List) {
    l0.self.base == cs.base.blank && l0.self.tags == NO_TAGS && Front(l0.items) == []
  }

  /** Reading back a list: its own fields come first. */
  lemma {:induction false} ListByBegins(own: seq<Byte> -> Parsed<Item>,
                                       putT: Settings -> seq<Byte>, getT: seq<Byte> -> Parsed<Settings>,
                                       put: Item -> seq<Byte>, get: seq<Byte> -> Parsed<Item>,
                                       l: List, front: seq<Item>, rest: seq<Byte>)
    requires ReadsBack(put, own)
    ensures var size := ToInt(|Body(l.items)|);
      var more := putT(SettingsOf(l)) + PutAll(put, Body(l.items)) + rest;
      GetListBy(own, getT, get, front, PutListBy(put, putT, l) + rest) ==
        if size <= 0 then Got(List(l.self, [], CLEARED, [], []), more)
        else GetRestBy(getT, get, l.self, front, size, more)
  {
    var size := ToInt(|Body(l.items)|);
    var later := putT(SettingsOf(l)) + PutAll(put, Body(l.items));
    Nest3(put(l.self), PutInt(size), later, rest);
    assert own(put(l.self) + (PutInt(size) + (later + rest))) == Got(l.self, PutInt(size) + (later + rest));
    IntRoundTrip(size, later + rest);
  }

  /** A list that is stored comes back, whatever the formats of items and settings are that do. */
  lemma {:induction false} ListByRoundTrip(own: seq<Byte> -> Parsed<Item>,
                                          putT: Settings -> seq<Byte>, getT: seq<Byte> -> Parsed<Settings>,
                                          put: Item -> seq<Byte>, get: seq<Byte> -> Parsed<Item>,
                                          l: List, front: seq<Item>, rest: seq<Byte>)
    requires ReadsBack(put, own) && ReadsBack(put, get)
    requires forall s :: getT(putT(SettingsOf(l)) + s) == Got(SettingsOf(l), s)
    requires 0 < |Body(l.items)| < TWO_TO_THE_31
    ensures GetListBy(own, getT, get, front, PutListBy(put, putT, l) + rest) ==
      Got(l.(items := front + Body(l.items)), rest)
  {
    ListByBegins(own, putT, getT, put, get, l, front, rest);
    var items := Body(l.items);
    assert getT(putT(SettingsOf(l)) + (PutAll(put, items) + rest)) == Got(SettingsOf(l), PutAll(put, items) + rest);
    RestByRoundTrip(putT, getT, put, get, SettingsOf(l), items, l.self, front, rest);
  }

  lemma {:induction false} OwnReadsBack(cs: Codecs, l0: List)
    requires AllReadBack(cs) && l0.self.base == cs.base.blank && l0.self.tags == NO_TAGS
    ensures ReadsBack(ItemPut(cs), OwnGet(cs, l0))
  {
    forall it, rest ensures OwnGet(cs, l0)(ItemPut(cs)(it) + rest) == Got(it, rest) { ItemRoundTrip(cs, it, rest); }
  }

  lemma {:induction false} ListBegins(cs: Codecs, l: List, l0: List, rest: seq<Byte>)
    requires AllReadBack(cs) && l0.self.base == cs.base.blank && l0.self.tags == NO_TAGS
    ensures var size := ToInt(|Body(l.items)|);
      GetList(cs, l0, PutList(cs, l) + rest) ==
        if size <= 0 then Got(List(l.self, [], CLEARED, [], []), PutRest(cs, l) + rest)
        else GetRest(cs, l.self, Front(l0.items), size, PutRest(cs, l) + rest)
  {
    OwnReadsBack(cs, l0);
    ListByBegins(OwnGet(cs, l0), PutSettings, GetSettings, ItemPut(cs), ItemGet(cs), l, Front(l0.items), rest);
  }

  /** Loading a stored list into a fresh one gives the list, without a leading parent entry, and reads
      exactly the bytes written, if and only if there is an item besides the parent entry (and no
      count wraps around). */
  lemma ListRoundTripIff(cs: Codecs, l: List, l0: List, rest: seq<Byte>)
    requires AllReadBack(cs) && Blank(cs, l0)
    ensures GetList(cs, l0, PutList(cs, l) + rest) == Got(l.(items := Body(l.items)), rest)
      <==> 0 < |Body(l.items)| < TWO_TO_THE_31 && |l.details| < TWO_TO_THE_32
  {
    ListBegins(cs, l, l0, rest);
    var n := |Body(l.items)|;
    if 0 < n < TWO_TO_THE_31 {
      if |l.details| < TWO_TO_THE_32 {
        RestRoundTrip(cs, l, l.self, [], rest);
        assert [] + Body(l.items) == Body(l.items);
      } else {
        Nest2(PutSettings(SettingsOf(l)), PutAll(ItemPut(cs), Body(l.items)), rest);
        DetailsWrap(SettingsOf(l), PutAll(ItemPut(cs), Body(l.items)) + rest);
      }
    } else if n == 0 {
      assert |PutRest(cs, l) + rest| > |rest|;
    }
  }

  /** More sort details than a 32-bit count holds do not come back. */
  lemma DetailsWrap(t: Settings, rest: seq<Byte>)
    requires |t.details| >= TWO_TO_THE_32
    ensures var r := GetSettings(PutSettings(t) + rest); r.Got? ==> r.value.details != t.details
  {
    var h, i, j, k := PutHeader(t.header), PutInt(ToInt(|t.details|)), PutAll(PutDetails, t.details), PutText(t.content);
    Nest4(h, i, j, k, rest);
    HeaderRoundTrip(t.header, i + (j + (k + rest)));
    CountRoundTrip(|t.details|, j + (k + rest));
  }

  /** A list of nothing but a parent entry comes back without its sorting, details and content, and
      leaves what was written of them unread. */
  lemma EmptyListLosesState(cs: Codecs, l: List, l0: List, rest: seq<Byte>)
    requires AllReadBack(cs) && Blank(cs, l0) && Body(l.items) == []
    ensures GetList(cs, l0, PutList(cs, l) + rest) == Got(List(l.self, [], CLEARED, [], []), PutRest(cs, l) + rest)
  {
    ListBegins(cs, l, l0, rest);
  }

  /** Loading into a list that begins with a parent entry keeps that entry in front. */
  lemma ParentStays(cs: Codecs, l: List, l0: List, rest: seq<Byte>)
    requires AllReadBack(cs) && l0.self.base == cs.base.blank && l0.self.tags == NO_TAGS
    requires 0 < |Body(l.items)| < TWO_TO_THE_31 && |l.details| < TWO_TO_THE_32
    ensures GetList(cs, l0, PutList(cs, l) + rest) == Got(l.(items := Front(l0.items) + Body(l.items)), rest)
  {
    ListBegins(cs, l, l0, rest);
    RestRoundTrip(cs, l, l.self, Front(l0.items), rest);
  }
}
