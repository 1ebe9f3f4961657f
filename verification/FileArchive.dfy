/** Storing items and lists in an archive, and loading them into objects in place. */
module FileArchive {
  import opened ArchiveBytes
  import opened ItemArchive

  /** What reading gives: the archive may end early, or refuse a text as too long. */
  datatype Outcome<+T> = Done(value: T) | Thrown {
    predicate IsFailure() { Thrown? }
    function PropagateFailure<U>(): Outcome<U> requires Thrown? { Thrown }
    function Extract(): T requires Done? { value }
  }

  /** Stored bytes are appended; loaded ones are taken from the front. */
  class Archive {
    var bytes: seq<Byte>

    constructor (bytes: seq<Byte>)
      ensures this.bytes == bytes
    {
      this.bytes := bytes;
    }

    method Write(more: seq<Byte>)
      modifies this
      ensures bytes == old(bytes) + more
    {
      bytes := bytes + more;
    }

    /** Takes from the front what one of the readers below makes of the bytes. */
    method Take<T>(p: Parsed<T>) returns (r: Outcome<T>)
      modifies this
      ensures p.Got? ==> r == Done(p.value) && bytes == p.rest
      ensures p.Failed? ==> r.Thrown?
    {
      if p.Failed? {
        return Thrown;
      }
      bytes := p.rest;
      return Done(p.value);
    }

    method ReadInt() returns (r: Outcome<Int>)
      modifies this
      ensures match GetInt(old(bytes)) case Got(x, rest) => r == Done(x) && bytes == rest case Failed => r.Thrown?
    {
      r := Take(GetInt(bytes));
    }

    method ReadLong() returns (r: Outcome<Long>)
      modifies this
      ensures match GetLong(old(bytes)) case Got(x, rest) => r == Done(x) && bytes == rest case Failed => r.Thrown?
    {
      r := Take(GetLong(bytes));
    }

    method ReadFlag() returns (r: Outcome<bool>)
      modifies this
      ensures match GetFlag(old(bytes)) case Got(x, rest) => r == Done(x) && bytes == rest case Failed => r.Thrown?
    {
      r := Take(GetFlag(bytes));
    }

    method ReadText() returns (r: Outcome<Text>)
      modifies this
      ensures match GetText(old(bytes)) case Got(x, rest) => r == Done(x) && bytes == rest case Failed => r.Thrown?
    {
      r := Take(GetText(bytes));
    }
  }

  class FileItem {
    var base: Content
    var parent: bool
    var preformatted: bool
    var path: Text
    var shareOrDrive: bool
    var driveType: Int
    var date: Content
    var size: Long
    var dvdLabel: Text
    var title: Text
    var programCount: Int
    var depth: Int
    var start: Long
    var partNumber: Int
    var end: Long
    var lockMode: Int
    var lockCode: Text
    var badPasswords: Int
    var canQueue: bool
    var mimeType: Text
    var extraInfo: Text
    var specialSort: Int
    var contentLookup: bool
    var tags: Tags

    constructor (cs: Codecs)
      ensures base == cs.base.blank && tags == NO_TAGS
    {
      base, parent, preformatted, path, shareOrDrive, driveType := cs.base.blank, false, false, "", false, 0;
      date, size, dvdLabel, title := cs.date.blank, 0, "", "";
      programCount, depth, start, partNumber, end := 0, 1, 0, 1, 0;
      lockMode, lockCode, badPasswords := 0, "", 0;
      canQueue, mimeType, extraInfo, specialSort, contentLookup := true, "", "", 0, true;
      tags := NO_TAGS;
    }

    constructor Copy(it: Item)
      ensures Value() == it
    {
      base, tags := it.base, it.tags;
      parent, preformatted, path := it.fields.place.parent, it.fields.place.preformatted, it.fields.place.path;
      shareOrDrive, driveType := it.fields.place.shareOrDrive, it.fields.place.driveType;
      date, size := it.fields.about.date, it.fields.about.size;
      dvdLabel, title := it.fields.about.dvdLabel, it.fields.about.title;
      programCount, depth, start := it.fields.span.programCount, it.fields.span.depth, it.fields.span.start;
      partNumber, end := it.fields.span.partNumber, it.fields.span.end;
      lockMode, lockCode, badPasswords := it.fields.lock.mode, it.fields.lock.code, it.fields.lock.badPasswords;
      canQueue, mimeType, extraInfo := it.fields.options.canQueue, it.fields.options.mimeType, it.fields.options.extraInfo;
      specialSort, contentLookup := it.fields.options.specialSort, it.fields.options.contentLookup;
    }

    function PlaceNow(): Place
      reads this
    {
      Place(parent, preformatted, path, shareOrDrive, driveType)
    }

    function AboutNow(): About
      reads this
    {
      About(date, size, dvdLabel, title)
    }

    function SpanNow(): Span
      reads this
    {
      Span(programCount, depth, start, partNumber, end)
    }

    function LockNow(): Lock
      reads this
    {
      Lock(lockMode, lockCode, badPasswords)
    }

    function OptionsNow(): Options
      reads this
    {
      Options(canQueue, mimeType, extraInfo, specialSort, contentLookup)
    }

    function FieldsNow(): Fields
      reads this
    {
      Fields(PlaceNow(), AboutNow(), SpanNow(), LockNow(), OptionsNow())
    }

    function Value(): Item
      reads this
    {
      Item(base, FieldsNow(), tags)
    }

    // ----- Storing -----

    method StoreFields(cs: Codecs, ar: Archive)
      modifies ar
      ensures ar.bytes == old(ar.bytes) + PutFields(cs, FieldsNow())
    {
      ghost var was := ar.bytes;
      ar.Write(PutFlag(parent)); ar.Write(PutFlag(preformatted)); ar.Write(PutText(path));
      ar.Write(PutFlag(shareOrDrive)); ar.Write(PutInt(driveType));
      Appended5(was, PutFlag(parent), PutFlag(preformatted), PutText(path), PutFlag(shareOrDrive), PutInt(driveType));
      assert ar.bytes == was + PutPlace(PlaceNow());
      ar.Write(cs.date.put(date)); ar.Write(PutLong(size)); ar.Write(PutText(dvdLabel)); ar.Write(PutText(title));
      Appended4(was + PutPlace(PlaceNow()), cs.date.put(date), PutLong(size), PutText(dvdLabel), PutText(title));
      assert ar.bytes == was + PutPlace(PlaceNow()) + PutAbout(cs, AboutNow());
      StoreSpanLockOptions(ar);
      Appended5(was, PutPlace(PlaceNow()), PutAbout(cs, AboutNow()), PutSpan(SpanNow()), PutLock(LockNow()),
                PutOptions(OptionsNow()));
    }

    method StoreSpanLockOptions(ar: Archive)
      modifies ar
      ensures ar.bytes == old(ar.bytes) + PutSpan(SpanNow()) + PutLock(LockNow()) + PutOptions(OptionsNow())
    {
      ghost var was := ar.bytes;
      ar.Write(PutInt(programCount)); ar.Write(PutInt(depth)); ar.Write(PutLong(start));
      ar.Write(PutInt(partNumber)); ar.Write(PutLong(end));
      Appended5(was, PutInt(programCount), PutInt(depth), PutLong(start), PutInt(partNumber), PutLong(end));
      was := ar.bytes;
      ar.Write(PutInt(lockMode)); ar.Write(PutText(lockCode)); ar.Write(PutInt(badPasswords));
      Appended3(was, PutInt(lockMode), PutText(lockCode), PutInt(badPasswords));
      was := ar.bytes;
      ar.Write(PutFlag(canQueue)); ar.Write(PutText(mimeType)); ar.Write(PutText(extraInfo));
      ar.Write(PutInt(specialSort)); ar.Write(PutFlag(contentLookup));
      Appended5(was, PutFlag(canQueue), PutText(mimeType), PutText(extraInfo), PutInt(specialSort), PutFlag(contentLookup));
    }

    method StoreTag(c: Codec, t: Tag, ar: Archive)
      modifies ar
      ensures ar.bytes == old(ar.bytes) + PutTag(c, t)
    {
      if t.Some? {
        ghost var was := ar.bytes;
        ar.Write(PutInt(1));
        ar.Write(c.put(t.value));
        assert was + PutInt(1) + c.put(t.value) == was + (PutInt(1) + c.put(t.value));
      } else {
        ar.Write(PutInt(0));
      }
    }

    /** `CFileItem::Archive`, storing. */
    method Store(cs: Codecs, ar: Archive)
      modifies ar
      ensures ar.bytes == old(ar.bytes) + PutItem(cs, Value())
    {
      ghost var was := ar.bytes;
      ar.Write(cs.base.put(base));
      StoreFields(cs, ar);
      StoreTag(cs.music, tags.music, ar);
      StoreTag(cs.video, tags.video, ar);
      StoreTag(cs.picture, tags.picture, ar);
      StoreTag(cs.game, tags.game, ar);
      ghost var z, f := cs.base.put(base), PutFields(cs, FieldsNow());
      Appended4(was + z + f, PutTag(cs.music, tags.music), PutTag(cs.video, tags.video),
                PutTag(cs.picture, tags.picture), PutTag(cs.game, tags.game));
      Appended3(was, z, f, PutTags(cs, tags));
    }

    // ----- Loading -----

    method LoadPlace(ar: Archive) returns (r: Outcome<()>)
      modifies ar, this`parent, this`preformatted, this`path, this`shareOrDrive, this`driveType
      ensures match GetPlace(old(ar.bytes))
        case Got(p, rest) => r.Done? && PlaceNow() == p && ar.bytes == rest
        case Failed => r.Thrown?
    {
      parent :- ar.ReadFlag();
      preformatted :- ar.ReadFlag();
      path :- ar.ReadText();
      shareOrDrive :- ar.ReadFlag();
      driveType :- ar.ReadInt();
      return Done(());
    }

    method LoadAbout(cs: Codecs, ar: Archive) returns (r: Outcome<()>)
      modifies ar, this`date, this`size, this`dvdLabel, this`title
      ensures match GetAbout(cs, old(ar.bytes))
        case Got(a, rest) => r.Done? && AboutNow() == a && ar.bytes == rest
        case Failed => r.Thrown?
    {
      date :- ar.Take(cs.date.read(cs.date.blank, ar.bytes));
      size :- ar.ReadLong();
      dvdLabel :- ar.ReadText();
      title :- ar.ReadText();
      return Done(());
    }

    method LoadSpan(ar: Archive) returns (r: Outcome<()>)
      modifies ar, this`programCount, this`depth, this`start, this`partNumber, this`end
      ensures match GetSpan(old(ar.bytes))
        case Got(s, rest) => r.Done? && SpanNow() == s && ar.bytes == rest
        case Failed => r.Thrown?
    {
      programCount :- ar.ReadInt();
      depth :- ar.ReadInt();
      start :- ar.ReadLong();
      partNumber :- ar.ReadInt();
      end :- ar.ReadLong();
      return Done(());
    }

    method LoadLock(ar: Archive) returns (r: Outcome<()>)
      modifies ar, this`lockMode, this`lockCode, this`badPasswords
      ensures match GetLock(old(ar.bytes))
        case Got(l, rest) => r.Done? && LockNow() == l && ar.bytes == rest
        case Failed => r.Thrown?
    {
      lockMode :- ar.ReadInt();
      lockCode :- ar.ReadText();
      badPasswords :- ar.ReadInt();
      return Done(());
    }

    method LoadOptions(ar: Archive) returns (r: Outcome<()>)
      modifies ar, this`canQueue, this`mimeType, this`extraInfo, this`specialSort, this`contentLookup
      ensures match GetOptions(old(ar.bytes))
        case Got(o, rest) => r.Done? && OptionsNow() == o && ar.bytes == rest
        case Failed => r.Thrown?
    {
      canQueue :- ar.ReadFlag();
      mimeType :- ar.ReadText();
      extraInfo :- ar.ReadText();
      specialSort :- ar.ReadInt();
      contentLookup :- ar.ReadFlag();
      return Done(());
    }

    /** A tag is read into the one that is there, or into a new one. */
    method LoadTag(c: Codec, old0: Tag, ar: Archive) returns (r: Outcome<Tag>)
      modifies ar
      ensures match GetTag(c, old0, old(ar.bytes))
        case Got(t, rest) => r == Done(t) && ar.bytes == rest
        case Failed => r.Thrown?
    {
      var marker :- ar.ReadInt();
      if marker != 1 {
        return Done(old0);
      }
      var t :- ar.Take(c.read(if old0.Some? then old0.value else c.blank, ar.bytes));
      return Done(Some(t));
    }

    method LoadTags(cs: Codecs, ar: Archive) returns (r: Outcome<()>)
      modifies ar, this`tags
      ensures match GetTags(cs, old(tags), old(ar.bytes))
        case Got(t, rest) => r.Done? && tags == t && ar.bytes == rest
        case Failed => r.Thrown?
    {
      var music :- LoadTag(cs.music, tags.music, ar);
      var video :- LoadTag(cs.video, tags.video, ar);
      var picture :- LoadTag(cs.picture, tags.picture, ar);
      var game :- LoadTag(cs.game, tags.game, ar);
      tags := Tags(music, video, picture, game);
      return Done(());
    }

    method LoadLater(ar: Archive) returns (r: Outcome<()>)
      modifies ar, this`programCount, this`depth, this`start, this`partNumber, this`end
      modifies this`lockMode, this`lockCode, this`badPasswords
      modifies this`canQueue, this`mimeType, this`extraInfo, this`specialSort, this`contentLookup
      ensures match GetLater(old(ar.bytes))
        case Got(t, rest) => r.Done? && SpanNow() == t.0 && LockNow() == t.1 && OptionsNow() == t.2 && ar.bytes == rest
        case Failed => r.Thrown?
    {
      var _ :- LoadSpan(ar);
      var _ :- LoadLock(ar);
      var _ :- LoadOptions(ar);
      return Done(());
    }

    method LoadEarlier(cs: Codecs, ar: Archive) returns (r: Outcome<()>)
      modifies ar, this
      ensures base == old(base) && tags == old(tags)
      ensures match GetEarlier(cs, old(ar.bytes))
        case Got(t, rest) => r.Done? && PlaceNow() == t.0 && AboutNow() == t.1 && ar.bytes == rest
        case Failed => r.Thrown?
    {
      var _ :- LoadPlace(ar);
      var _ :- LoadAbout(cs, ar);
      return Done(());
    }

    method LoadFields(cs: Codecs, ar: Archive) returns (r: Outcome<()>)
      modifies ar, this
      ensures base == old(base) && tags == old(tags)
      ensures match GetFields(cs, old(ar.bytes))
        case Got(f, rest) => r.Done? && FieldsNow() == f && ar.bytes == rest
        case Failed => r.Thrown?
    {
      var _ :- LoadEarlier(cs, ar);
      var _ :- LoadLater(ar);
      return Done(());
    }

    /** `CFileItem::Archive`, loading. */
    method Load(cs: Codecs, ar: Archive) returns (r: Outcome<()>)
      modifies ar, this
      ensures match GetItem(cs, old(base), old(tags), old(ar.bytes))
        case Got(it, rest) => r.Done? && Value() == it && ar.bytes == rest
        case Failed => r.Thrown?
    {
      base :- ar.Take(cs.base.read(base, ar.bytes));
      var _ :- LoadFields(cs, ar);
      var _ :- LoadTags(cs, ar);
      return Done(());
    }
  }

  lemma Appended3(was: seq<Byte>, a: seq<Byte>, b: seq<Byte>, c: seq<Byte>)
    ensures was + a + b + c == was + (a + b + c)
  {
  }

  lemma Appended4(was: seq<Byte>, a: seq<Byte>, b: seq<Byte>, c: seq<Byte>, d: seq<Byte>)
    ensures was + a + b + c + d == was + (a + b + c + d)
  {
    Appended3(was, a, b, c);
  }

  lemma Appended5(was: seq<Byte>, a: seq<Byte>, b: seq<Byte>, c: seq<Byte>, d: seq<Byte>, e: seq<Byte>)
    ensures was + a + b + c + d + e == was + (a + b + c + d + e)
  {
    Appended4(was, a, b, c, d);
  }
}
