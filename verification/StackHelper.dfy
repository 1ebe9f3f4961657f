/** `CApplicationStackHelper` for regular (non disc image) stacks, and the stack branches of
    `SeekTime`, `GetTime` and `OnPlayerCloseFile` in the application. */
module StackHelper {
  import opened StackTimes

  datatype Option<+T> = None | Some(value: T)

  /** The shared pointer to a stack item. */
  type StackItem = nat

  const STARTOFFSET_RESUME := -1
  const UINT64 := 0x1_0000_0000_0000_0000
  const INT32 := 0x1_0000_0000

  /** A 64-bit value returned as an `int`. */
  function AsInt(n: nat): int {
    var low := n % INT32;
    if low < INT32 / 2 then low else low - INT32
  }

  class StackPart {
    const path: string
    var endOffset: nat

    constructor (path: string)
      ensures this.path == path && endOffset == 0
    {
      this.path, endOffset := path, 0;
    }
  }

  datatype PartInfo = PartInfo(startMs: nat, totalMs: nat, number: int, stack: Option<StackItem>)

  const NO_INFO := PartInfo(0, 0, 0, None)

  type StackMap = map<string, PartInfo>

  /** `GetStackPartInformation`: a missing entry is created. */
  function Info(m: StackMap, path: string): PartInfo {
    if path in m then m[path] else NO_INFO
  }

  /** What the video database says about the stack: the stored end of each part, and the bookmark. */
  datatype Database = Database(times: Option<seq<nat>>, bookmark: Option<real>)

  /** The start time asked for, in milliseconds as a 64-bit unsigned value. */
  function AskedMs(db: Option<Database>, startOffset: int): nat
    requires db.Some? && db.value.bookmark.Some? ==> db.value.bookmark.value >= 0.0
  {
    if startOffset == STARTOFFSET_RESUME && db.Some? then
      match db.value.bookmark case Some(seconds) => ResumeMs(seconds) % UINT64 case None => 0
    else startOffset % UINT64
  }

  /** Part and offset are those of the time `t`: it falls into the part, that long after its start; from the end of
      the stack on it counts from the start of the first part. An offset of 2^31 ms or more wraps around. */
  ghost predicate StartsAt(ends: seq<nat>, t: int, part: nat, offset: int)
    requires ends != []
  {
    && part < |ends|
    && (0 <= t < ends[|ends| - 1] ==> (if part == 0 then 0 else ends[part - 1]) <= t < ends[part])
    && (t >= ends[|ends| - 1] ==> part == 0)
    && var inPart := t - (if part == 0 then 0 else ends[part - 1]);
       if 0 <= inPart < 0x8000_0000 then offset == inPart else (offset - inPart) % 0x1_0000_0000 == 0
  }

  /** Playing starts at the start time, if one is given, and at that of the bookmark when it is to be resumed; at
      the beginning when there is none. */
  ghost predicate StartsAsAsked(db: Option<Database>, startOffset: int, ends: seq<nat>, part: nat, offset: int)
    requires ends != []
  {
    && (0 <= startOffset < UINT64 ==> StartsAt(ends, startOffset, part, offset))
    && (startOffset == -1 && db.Some? ==>
          match db.value.bookmark
          case None => part == 0 && offset == 0
          case Some(seconds) =>
            0 <= (seconds * 1000.0).Floor < UINT64 ==> StartsAt(ends, (seconds * 1000.0).Floor, part, offset))
  }

  /** So it does when the ends increase. */
  ghost predicate AskedIfIncreasing(db: Option<Database>, startOffset: int, ends: seq<nat>, part: nat, offset: int)
    requires ends != []
  {
    Increasing(ends) ==> StartsAsAsked(db, startOffset, ends, part, offset)
  }

  lemma AskedStart(db: Option<Database>, startOffset: int, ends: seq<nat>)
    requires db.Some? && db.value.bookmark.Some? ==> db.value.bookmark.value >= 0.0
    requires ends != [] && Increasing(ends)
    ensures var p := SeekPlace(ends, AskedMs(db, startOffset));
      StartsAsAsked(db, startOffset, ends, p.part, AsInt(p.offset))
  {
    AskedIs(db, startOffset);
    StartOfPlace(ends, AskedMs(db, startOffset));
  }

  lemma AskedIs(db: Option<Database>, startOffset: int)
    requires db.Some? && db.value.bookmark.Some? ==> db.value.bookmark.value >= 0.0
    ensures 0 <= startOffset < UINT64 ==> AskedMs(db, startOffset) == startOffset
    ensures startOffset == -1 && db.Some? && db.value.bookmark.None? ==> AskedMs(db, startOffset) == 0
    ensures startOffset == -1 && db.Some? && db.value.bookmark.Some? ==>
      var ms := (db.value.bookmark.value * 1000.0).Floor; ms < UINT64 ==> AskedMs(db, startOffset) == ms
  {
    if 0 <= startOffset < UINT64 { Small(startOffset, UINT64); }
    if db.Some? && db.value.bookmark.Some? && ResumeMs(db.value.bookmark.value) < UINT64 {
      Small(ResumeMs(db.value.bookmark.value), UINT64);
    }
  }

  lemma Small(n: nat, m: nat)
    requires n < m
    ensures n % m == n
  {
  }

  lemma StartOfPlace(ends: seq<nat>, t: nat)
    requires ends != [] && Increasing(ends)
    ensures StartsAt(ends, t, SeekPlace(ends, t).part, AsInt(SeekPlace(ends, t).offset))
  {
    PartAtIsUnique(ends, t);
    var p := SeekPlace(ends, t);
    if t < Total(ends) { assert Falls(ends, t, p.part); }
    Wraps(p.offset);
  }

  lemma Wraps(n: nat)
    ensures (AsInt(n) - n) % 0x1_0000_0000 == 0
  {
    assert n == n / INT32 * INT32 + n % INT32;
    assert (AsInt(n) - n) % INT32 == (if n % INT32 < INT32 / 2 then -(n / INT32) else -(n / INT32) - 1) * INT32 % INT32;
  }

  class ApplicationStackHelper {
    var parts: seq<StackPart>
    var position: nat
    var stackMap: StackMap

    constructor ()
      ensures parts == [] && position == 0 && stackMap == map[]
    {
      parts, position, stackMap := [], 0, map[];
    }

    /** The parts end at `ends`. */
    ghost predicate EndAt(ends: seq<nat>)
      reads this`parts, parts
    {
      |parts| == |ends| && forall i :: 0 <= i < |parts| ==> parts[i].endOffset == ends[i]
    }

    ghost predicate DistinctPaths()
      reads this`parts
    {
      forall i, j :: 0 <= i < j < |parts| ==> parts[i].path != parts[j].path
    }

    /** Part `i` is registered with its stack and number. */
    predicate RegisteredAs(i: nat, stack: StackItem)
      requires i < |parts|
      reads this`parts, this`stackMap
    {
      var p := parts[i].path;
      p in stackMap && stackMap[p].stack == Some(stack) && stackMap[p].number == i
    }

    method Clear()
      modifies this`position, this`parts
      ensures position == 0 && parts == []
    {
      position := 0;
      parts := [];
    }

    /** Entries of paths that are not in the stack are as in `m`. */
    ghost predicate OthersAs(m: StackMap, files: seq<string>)
      reads this`stackMap
    {
      forall p :: p !in files ==> Info(stackMap, p) == Info(m, p) && (p in stackMap <==> p in m)
    }

    /** `InitializeStack`, given the files of the stack. */
    method InitializeStack(stack: StackItem, files: seq<string>) returns (ok: bool)
      modifies this`position, this`parts, this`stackMap
      ensures ok <==> files != []
      ensures position == 0 && |parts| == |files| && forall i :: 0 <= i < |files| ==> parts[i].path == files[i]
      ensures fresh(parts) && forall i, j :: 0 <= i < j < |parts| ==> parts[i] != parts[j]
      ensures DistinctPaths() ==> forall i :: 0 <= i < |parts| ==> RegisteredAs(i, stack)
      ensures OthersAs(old(stackMap), files)
    {
      Clear();
      for i := 0 to |files|
        invariant |parts| == i && fresh(parts) && position == 0 && stackMap == old(stackMap)
        invariant forall j :: 0 <= j < i ==> parts[j].path == files[j]
        invariant forall j, k :: 0 <= j < k < i ==> parts[j] != parts[k]
      {
        var part := new StackPart(files[i]);
        parts := parts + [part];
      }
      RegisterParts(stack, files);
      return files != [];
    }

    /** Register every part with its stack and its number. */
    method RegisterParts(stack: StackItem, ghost files: seq<string>)
      requires |parts| == |files| && forall i :: 0 <= i < |files| ==> parts[i].path == files[i]
      modifies this`stackMap
      ensures DistinctPaths() ==> forall i :: 0 <= i < |parts| ==> RegisteredAs(i, stack)
      ensures OthersAs(old(stackMap), files)
    {
      for i := 0 to |parts|
        invariant OthersAs(old(stackMap), files)
        invariant DistinctPaths() ==> forall j :: 0 <= j < i ==> RegisteredAs(j, stack)
      {
        var path := parts[i].path;
        assert path == files[i] && path in files;
        assert DistinctPaths() ==> forall j :: 0 <= j < i ==> parts[j].path != path && RegisteredAs(j, stack);
        stackMap := stackMap[path := Info(stackMap, path).(stack := Some(stack))];
        stackMap := stackMap[path := Info(stackMap, path).(number := i)];
        assert RegisteredAs(i, stack);
      }
    }

    /** Stack and number of every entry are as in `m`. */
    ghost predicate IdentityAs(m: StackMap)
      reads this`stackMap
    {
      forall p :: Info(stackMap, p).stack == Info(m, p).stack && Info(stackMap, p).number == Info(m, p).number
    }

    /** The starts of the first `n` parts are registered. */
    ghost predicate StartsKnown(n: nat, ends: seq<nat>)
      requires n <= |parts| && n <= |ends|
      reads this`parts, this`stackMap
    {
      forall j :: 0 <= j < n ==> parts[j].path in stackMap && stackMap[parts[j].path].startMs == Start(ends, j)
    }

    /** The ends that the times stored, or the durations probed, give to the first `n` parts. */
    ghost predicate EndsFrom(times: Option<seq<nat>>, probe: string -> Option<nat>, n: nat, ends: seq<nat>)
      requires n <= |parts| && (times.Some? ==> |times.value| >= |parts|)
      reads this`parts
    {
      match times
      case Some(ts) => ends == ts[..n]
      case None => exists ds: seq<nat> :: ProbedAs(probe, n, ds) && ends == Ends(ds)
    }

    ghost predicate ProbedAs(probe: string -> Option<nat>, n: nat, durations: seq<nat>)
      requires n <= |parts|
      reads this`parts
    {
      |durations| == n && forall j :: 0 <= j < n ==> probe(parts[j].path) == Some(durations[j])
    }

    /** The ends of the first parts are set. */
    ghost predicate EndsKnown(ends: seq<nat>)
      reads this`parts, parts`endOffset
    {
      |ends| <= |parts| && forall j :: 0 <= j < |ends| ==> parts[j].endOffset == ends[j]
    }

    /** The first loop over the parts: set the end of each, from the stored times or by probing its file,
        and register its start; false when a file cannot be probed. */
    method SetEnds(times: Option<seq<nat>>, probe: string -> Option<nat>) returns (ok: bool, ghost ends: seq<nat>)
      requires times.Some? ==> |times.value| >= |parts|
      requires forall i, j :: 0 <= i < j < |parts| ==> parts[i] != parts[j]
      modifies this`stackMap, parts`endOffset
      ensures ok <==> times.Some? || forall i :: 0 <= i < |parts| ==> probe(parts[i].path).Some?
      ensures ok ==> EndAt(ends) && EndsFrom(times, probe, |parts|, ends)
      ensures ok && DistinctPaths() ==> StartsKnown(|parts|, ends)
      ensures IdentityAs(old(stackMap))
    {
      var total: nat := 0;
      ghost var durations: seq<nat> := [];
      ends := [];
      for i := 0 to |parts|
        invariant |ends| == i && EndsKnown(ends)
        invariant times.Some? ==> ends == times.value[..i]
        invariant times.None? ==> ProbedAs(probe, i, durations) && ends == Ends(durations) && total == Sum(durations)
        invariant DistinctPaths() ==> StartsKnown(i, ends)
        invariant IdentityAs(old(stackMap))
      {
        ghost var end;
        ok, total, durations, end := SetPart(times, probe, i, total, durations, ends);
        if !ok { return; }
        ends := ends + [end];
      }
      ok := true;
    }

    /** One turn of that loop. */
    method SetPart(times: Option<seq<nat>>, probe: string -> Option<nat>, i: nat, total: nat,
                   ghost durations: seq<nat>, ghost ends: seq<nat>)
      returns (ok: bool, total': nat, ghost durations': seq<nat>, ghost end: nat)
      requires i < |parts| && |ends| == i && EndsKnown(ends)
      requires forall j :: 0 <= j < i ==> parts[j] != parts[i]
      requires times.Some? ==> |times.value| >= |parts|
      requires times.None? ==> ProbedAs(probe, i, durations) && total == Sum(durations)
      requires DistinctPaths() ==> StartsKnown(i, ends)
      modifies this`stackMap, {parts[i]}`endOffset
      ensures ok <==> times.Some? || probe(parts[i].path).Some?
      ensures ok ==> EndsKnown(ends + [end])
      ensures ok && times.Some? ==> end == times.value[i]
      ensures ok && times.None? ==> ProbedAs(probe, i + 1, durations') && total' == end == Sum(durations')
      ensures ok && times.None? ==> Ends(durations') == Ends(durations) + [end]
      ensures ok && DistinctPaths() ==> StartsKnown(i + 1, ends + [end])
      ensures IdentityAs(old(stackMap))
    {
      total', durations', end := total, durations, 0;
      var now: nat;
      if times.Some? {
        now := times.value[i];
      } else {
        var duration := probe(parts[i].path);
        if duration.None? { return false, total, durations, 0; }
        total' := total + duration.value;
        now := total';
        OneMoreProbed(probe, i, durations, duration.value);
        durations' := durations + [duration.value];
      }
      SetEnd(i, now, ends);
      return true, total', durations', now;
    }

    lemma OneMoreProbed(probe: string -> Option<nat>, i: nat, durations: seq<nat>, duration: nat)
      requires i < |parts| && ProbedAs(probe, i, durations) && probe(parts[i].path) == Some(duration)
      ensures ProbedAs(probe, i + 1, durations + [duration])
      ensures Sum(durations + [duration]) == Sum(durations) + duration
      ensures Ends(durations + [duration]) == Ends(durations) + [Sum(durations) + duration]
    {
      EndsSnoc(durations, duration);
    }

    /** Set the end of one part and register its start. */
    method SetEnd(i: nat, end: nat, ghost ends: seq<nat>)
      requires i < |parts| && |ends| == i && EndsKnown(ends)
      requires forall j :: 0 <= j < i ==> parts[j] != parts[i]
      requires DistinctPaths() ==> StartsKnown(i, ends)
      modifies this`stackMap, {parts[i]}`endOffset
      ensures EndsKnown(ends + [end])
      ensures DistinctPaths() ==> StartsKnown(i + 1, ends + [end])
      ensures IdentityAs(old(stackMap))
    {
      parts[i].endOffset := end;
      assert forall j :: 0 <= j < i ==> Start(ends + [end], j) == Start(ends, j);
      RegisterStart(i, ends + [end]);
    }

    method RegisterStart(i: nat, ghost ends: seq<nat>)
      requires i < |parts| && |ends| == i + 1 && EndsKnown(ends)
      requires DistinctPaths() ==> StartsKnown(i, ends)
      modifies this`stackMap
      ensures DistinctPaths() ==> StartsKnown(i + 1, ends)
      ensures IdentityAs(old(stackMap))
    {
      var start := if i > 0 then parts[i - 1].endOffset else 0;
      var path := parts[i].path;
      assert DistinctPaths() ==> forall j :: 0 <= j < i ==> parts[j].path != path;
      stackMap := stackMap[path := Info(stackMap, path).(startMs := start)];
    }

    /** The second loop over the parts: register the total of the stack. */
    method SetTotals(ghost ends: seq<nat>)
      requires parts != [] && EndAt(ends)
      modifies this`stackMap
      ensures old(StartsKnown(|parts|, ends)) ==> StartsKnown(|parts|, ends)
      ensures forall i :: 0 <= i < |parts| ==>
        parts[i].path in stackMap && stackMap[parts[i].path].totalMs == Total(ends)
      ensures IdentityAs(old(stackMap))
    {
      var total := parts[|parts| - 1].endOffset;
      for i := 0 to |parts|
        invariant old(StartsKnown(|parts|, ends)) ==> StartsKnown(|parts|, ends)
        invariant forall j :: 0 <= j < i ==> parts[j].path in stackMap && stackMap[parts[j].path].totalMs == Total(ends)
        invariant IdentityAs(old(stackMap))
      {
        var path := parts[i].path;
        stackMap := stackMap[path := Info(stackMap, path).(totalMs := total)];
      }
    }

    method GetStackPartNumberAtTimeMs(ms: nat, ghost ends: seq<nat>) returns (part: nat)
      requires EndAt(ends)
      ensures part == PartAt(ends, ms)
    {
      if ms > 0 {
        for p := 0 to |parts|
          invariant PartFrom(ends, ms, p) == PartFrom(ends, ms, 0)
        {
          if ms < parts[p].endOffset { return p; }
        }
      }
      return 0;
    }

    /** `InitializeStackStartPartAndOffset` for a regular stack. None when a file could not be probed:
        the stack is given up. */
    method InitializeStackStartPartAndOffset(db: Option<Database>, probe: string -> Option<nat>, startOffset: int)
      returns (offset: Option<int>, ghost ends: seq<nat>)
      requires parts != [] && forall i, j :: 0 <= i < j < |parts| ==> parts[i] != parts[j]
      requires db.Some? && db.value.times.Some? ==> |db.value.times.value| >= |parts|
      requires db.Some? && db.value.bookmark.Some? ==> db.value.bookmark.value >= 0.0
      modifies this`stackMap, this`position, this`parts, parts`endOffset
      ensures offset.None? <==> (db.None? || db.value.times.None?) &&
                                exists i :: 0 <= i < |old(parts)| && probe(old(parts)[i].path).None?
      ensures offset.None? ==> parts == []
      ensures offset.Some? ==> parts == old(parts) && EndAt(ends)
      ensures offset.Some? ==> EndsFrom(if db.Some? then db.value.times else None, probe, |parts|, ends)
      ensures offset.Some? ==>
        var place := SeekPlace(ends, AskedMs(db, startOffset));
        position == place.part && offset.value == AsInt(place.offset)
      ensures offset.Some? ==> AskedIfIncreasing(db, startOffset, ends, position, offset.value)
      ensures offset.Some? && DistinctPaths() ==> forall i :: 0 <= i < |parts| ==> RegisteredTimes(i, ends)
      ensures IdentityAs(old(stackMap))
    {
      var times := if db.Some? then db.value.times else None;
      var ok;
      ok, ends := SetTimes(times, probe);
      if !ok {
        parts := [];
        return None, ends;
      }
      var start := Locate(db, startOffset, ends);
      return Some(start), ends;
    }

    /** Both loops over the parts. */
    method SetTimes(times: Option<seq<nat>>, probe: string -> Option<nat>) returns (ok: bool, ghost ends: seq<nat>)
      requires parts != [] && forall i, j :: 0 <= i < j < |parts| ==> parts[i] != parts[j]
      requires times.Some? ==> |times.value| >= |parts|
      modifies this`stackMap, parts`endOffset
      ensures ok <==> times.Some? || forall i :: 0 <= i < |parts| ==> probe(parts[i].path).Some?
      ensures ok ==> EndAt(ends) && EndsFrom(times, probe, |parts|, ends)
      ensures ok && DistinctPaths() ==> forall i :: 0 <= i < |parts| ==> RegisteredTimes(i, ends)
      ensures IdentityAs(old(stackMap))
    {
      ok, ends := SetEnds(times, probe);
      if ok { SetTotals(ends); }
    }

    /** Make the part at the time asked for current; the result is the offset in it. */
    method Locate(db: Option<Database>, startOffset: int, ghost ends: seq<nat>) returns (offset: int)
      requires db.Some? && db.value.bookmark.Some? ==> db.value.bookmark.value >= 0.0
      requires parts != [] && EndAt(ends)
      modifies this`position
      ensures var place := SeekPlace(ends, AskedMs(db, startOffset)); position == place.part && offset == AsInt(place.offset)
      ensures AskedIfIncreasing(db, startOffset, ends, position, offset)
    {
      var ms := AskedMs(db, startOffset);
      position := GetStackPartNumberAtTimeMs(ms, ends);
      NoUnderflow(ends, ms);
      var start := if position > 0 then parts[position - 1].endOffset else 0;
      offset := AsInt(ms - start);
      if Increasing(ends) { AskedStart(db, startOffset, ends); }
    }

    ghost predicate RegisteredTimes(i: nat, ends: seq<nat>)
      requires i < |parts| == |ends|
      reads this`parts, this`stackMap
    {
      var p := parts[i].path;
      p in stackMap && stackMap[p].startMs == Start(ends, i) && stackMap[p].totalMs == Total(ends)
    }

    /** The item is a part of a stack that is registered. */
    predicate HasRegisteredStack(path: string)
      reads this`stackMap
    {
      path in stackMap && stackMap[path].stack.Some?
    }

    /** `OnPlayBackStarted`: forget every part that belongs to another stack, and all of them when the
        item is not part of a registered stack. The parts of the item's own stack keep all that is
        registered for them. */
    method OnPlayBackStarted(path: string)
      modifies this`stackMap
      ensures forall p :: p in stackMap <==>
        p in old(stackMap) && old(HasRegisteredStack(path)) && old(stackMap)[p].stack == old(stackMap)[path].stack
      ensures forall p :: p in stackMap ==> stackMap[p] == old(stackMap)[p]
      ensures forall i, k, stack :: 0 <= i < |parts| && 0 <= k < |parts| && parts[k].path == path ==>
        (old(RegisteredAs(i, stack) && RegisteredAs(k, stack)) ==> RegisteredAs(i, stack))
    {
      if !HasRegisteredStack(path) {
        stackMap := map[];
        return;
      }
      var stack := stackMap[path].stack;
      var todo := stackMap.Keys;
      while todo != {}
        invariant todo <= stackMap.Keys <= old(stackMap).Keys
        invariant forall p :: p in stackMap ==> stackMap[p] == old(stackMap)[p]
        invariant forall p :: p in old(stackMap) ==>
          (p in stackMap <==> p in todo || old(stackMap)[p].stack == stack)
      {
        var p :| p in todo;
        todo := todo - {p};
        if stackMap[p].stack != stack {
          stackMap := stackMap - {p};
        }
      }
    }
  }

  /** The player: where it is in the file it plays. */
  class Player {
    var timeMs: nat

    constructor ()
    {
      timeMs := 0;
    }
  }

  datatype Bookmark = Bookmark(seconds: real, totalSeconds: real, part: int)

  /** The stack branches of the application. */
  class Application {
    const helper: ApplicationStackHelper
    const player: Player

    constructor (helper: ApplicationStackHelper, player: Player)
      ensures this.helper == helper && this.player == player
    {
      this.helper, this.player := helper, player;
    }

    /** `GetTime`, in milliseconds. */
    method GetTime(ghost ends: seq<nat>) returns (ms: nat)
      requires helper.EndAt(ends) && helper.position < |helper.parts|
      ensures ms == TimeAt(ends, Place(helper.position, player.timeMs))
    {
      var start := if helper.position > 0 then helper.parts[helper.position - 1].endOffset else 0;
      ms := start + player.timeMs;
    }

    /** `SeekTime`, with the player following: in the same part it seeks, otherwise the new part is
        played from the offset. */
    method SeekTime(seconds: real, ghost ends: seq<nat>)
      requires helper.EndAt(ends) && helper.parts != [] && 0.0 <= seconds && (seconds * 1000.0).Floor < UINT64
      modifies helper`position, player`timeMs
      ensures Place(helper.position, player.timeMs) == SeekPlace(ends, ResumeMs(seconds))
      ensures TimeAt(ends, Place(helper.position, player.timeMs)) == ResumeMs(seconds)
    {
      var ms: nat := (seconds * 1000.0).Floor;
      var part := helper.GetStackPartNumberAtTimeMs(ms, ends);
      NoUnderflow(ends, ms);
      var start := if part > 0 then helper.parts[part - 1].endOffset else 0;
      if part == helper.position {
        player.timeMs := ms - start;
      } else {
        helper.position := part;
        player.timeMs := ms - start;
      }
    }

    /** The stack branch of `OnPlayerCloseFile`: the bookmark of a part becomes one of its stack. Resuming
        at its time goes to the offset in the part, as far as that is inside the part. */
    method StackBookmark(path: string, bookmark: Bookmark, ghost ends: seq<nat>) returns (r: Option<Bookmark>)
      ensures r.None? <==> bookmark.seconds == 0.0
      ensures var info := Info(helper.stackMap, path);
        r.Some? && (info.stack.None? || info.totalMs == 0) ==> r.value == bookmark
      ensures forall part ::
        IsPart(path, part, ends) && r.Some? ==> IsBookmarkOf(r.value, ends, part, bookmark.seconds)
      ensures forall part, stack ::
        IsPart(path, part, ends) && helper.RegisteredAs(part, stack) && r.Some? ==> r.value.part == part
    {
      if bookmark.seconds == 0.0 { return None; }
      var info := Info(helper.stackMap, path);
      r := Some(bookmark);
      if info.stack.Some? && info.totalMs > 0 {
        r := Some(Bookmark(bookmark.seconds + info.startMs as real / 1000.0, info.totalMs as real / 1000.0, info.number));
      }
      forall part | IsPart(path, part, ends) ensures Total(ends) > 0 && IsBookmarkOf(r.value, ends, part, bookmark.seconds) {
        BookmarkOf(ends, part, bookmark.seconds);
        assert info.totalMs == Total(ends) && info.startMs == Start(ends, part);
      }
    }

    /** The bookmark is for the whole stack, and its time is `seconds` after the start of the part; resuming
        goes to that place, in whole milliseconds, when it is inside the part. */
    ghost predicate IsBookmarkOf(b: Bookmark, ends: seq<nat>, part: nat, seconds: real)
      requires part < |ends|
    {
      && b.seconds == seconds + Start(ends, part) as real / 1000.0 && b.totalSeconds == Total(ends) as real / 1000.0
      && (seconds >= 0.0 ==>
            && ResumeMs(b.seconds) == TimeAt(ends, Place(part, ResumeMs(seconds)))
            && (ResumeMs(seconds) < ends[part] - Start(ends, part) ==>
                  SeekPlace(ends, ResumeMs(b.seconds)) == Place(part, ResumeMs(seconds))))
    }

    /** `path` is that of a part that is registered with its stack and the times `ends`. */
    ghost predicate IsPart(path: string, part: nat, ends: seq<nat>)
      reads helper`parts, helper`stackMap
    {
      && part < |helper.parts| == |ends| && path == helper.parts[part].path && Increasing(ends)
      && helper.RegisteredTimes(part, ends) && helper.HasRegisteredStack(path)
    }

    lemma BookmarkOf(ends: seq<nat>, part: nat, seconds: real)
      requires part < |ends| && Increasing(ends)
      ensures Total(ends) > 0
      ensures IsBookmarkOf(Bookmark(seconds + Start(ends, part) as real / 1000.0, Total(ends) as real / 1000.0, part),
                           ends, part, seconds)
    {
      assert ends[0] <= Total(ends);
      if seconds >= 0.0 {
        ResumeInPart(ends, part, seconds);
        var p := Place(part, ResumeMs(seconds));
        ResumeIff(ends, p);
      }
    }

    /** Closing a part at an offset inside it, and resuming the stack from the bookmark and the stored
        ends, gives the part back, and the offset exactly when that is less than 2^31 milliseconds: it
        is returned as an `int`. */
    method CloseAndResume(part: nat, offsetMs: nat, ends: seq<nat>, probe: string -> Option<nat>)
      returns (resumed: Option<int>)
      requires helper.EndAt(ends) && part < |helper.parts| && Increasing(ends)
      requires forall i, j :: 0 <= i < j < |helper.parts| ==> helper.parts[i] != helper.parts[j]
      requires helper.RegisteredTimes(part, ends) && helper.stackMap[helper.parts[part].path].stack.Some?
      requires 0 < offsetMs < ends[part] - Start(ends, part) && Total(ends) < UINT64
      modifies helper`stackMap, helper`position, helper`parts, helper.parts`endOffset
      ensures helper.position == part && resumed == Some(AsInt(offsetMs))
      ensures resumed == Some(offsetMs as int) <==> offsetMs < INT32 / 2
    {
      var path := helper.parts[part].path;
      var saved := StackBookmark(path, Bookmark(offsetMs as real / 1000.0, 0.0, 0), ends);
      assert IsPart(path, part, ends);
      ResumeOfOffset(offsetMs);
      resumed := Resume(saved.value.seconds, Place(part, offsetMs), ends, probe);
    }

    /** Resuming from a bookmark whose time is that of a place in the stack. */
    method Resume(seconds: real, ghost place: Place, ends: seq<nat>, probe: string -> Option<nat>)
      returns (resumed: Option<int>)
      requires helper.EndAt(ends) && ends != []
      requires forall i, j :: 0 <= i < j < |helper.parts| ==> helper.parts[i] != helper.parts[j]
      requires seconds >= 0.0 && ResumeMs(seconds) < UINT64 && SeekPlace(ends, ResumeMs(seconds)) == place
      modifies helper`stackMap, helper`position, helper`parts, helper.parts`endOffset
      ensures helper.position == place.part && resumed == Some(AsInt(place.offset))
    {
      ghost var found;
      resumed, found := helper.InitializeStackStartPartAndOffset(
        Some(Database(Some(ends), Some(seconds))), probe, STARTOFFSET_RESUME);
      assert ends[..|ends|] == ends;
    }
  }
}
