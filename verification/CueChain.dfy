/** When the tracks of a cue sheet chain: the exact condition on its lines. */
module CueChain {
  import opened CueSheet

  // ----- The condition -----

  /** The lines before the next TRACK line. */
  function Segment(lines: seq<string>): (b: seq<string>)
    ensures b <= lines && Count(b, TrackLine) == 0
    ensures b == lines || KindOf(lines[|b|]) == TrackLine
  {
    if lines == [] || KindOf(lines[0]) == TrackLine then []
    else
      var rest := Segment(lines[1..]);
      var b := [lines[0]] + rest;
      assert b[1..] == rest && (b < lines ==> lines[|b|] == lines[1..][|rest|]);
      b
  }

  predicate IsNamed(tx: Text, line: string) {
    KindOf(line) == FileLine && tx.fileName(Rest(line, 4)) != ""
  }

  /** How many lines there are before the first FILE line that names a file. */
  function Unnamed(tx: Text, lines: seq<string>): (n: nat)
    ensures n <= |lines| && (n < |lines| ==> IsNamed(tx, lines[n]))
  {
    if lines == [] || IsNamed(tx, lines[0]) then 0 else 1 + Unnamed(tx, lines[1..])
  }

  /** The file the last TRACK line is in, when `file` is the current file and `track` that of the last
      track before. */
  function TrackFile(tx: Text, file: string, track: string, lines: seq<string>): string
    decreases |lines|
  {
    if lines == [] then track
    else
      TrackFile(tx, FileAt(tx, file, lines[..1]), if KindOf(lines[0]) == TrackLine then file else track, lines[1..])
  }

  /** What may follow a TRACK line without a file, when the track before is in file `prev`. If that one
      has no file either, the INDEX lines after the first FILE line with a name must not change the
      start any more; if it is in just the file named there, they must not set a time at the end. */
  predicate Harmless(tx: Text, prev: string, b: seq<string>) {
    var n := Unnamed(tx, b);
    if prev == "" then StartAt(tx, 0, b) == StartAt(tx, 0, b[..n])
    else n < |b| && prev == tx.fileName(Rest(b[n], 4)) ==> StartAt(tx, 0, b[n..]) == 0
  }

  /** Line `i` is not a TRACK line without a file, after another one, that is followed by harm. */
  predicate TrackMeets(tx: Text, lines: seq<string>, i: nat)
    requires i < |lines|
  {
    KindOf(lines[i]) == TrackLine && Count(lines[..i], TrackLine) > 0 && FileAt(tx, "", lines[..i]) == "" ==>
      Harmless(tx, TrackFile(tx, "", "", lines[..i]), Segment(lines[i + 1..]))
  }

  ghost predicate LinesMeet(tx: Text, lines: seq<string>, from: nat) {
    forall i :: from <= i < |lines| ==> TrackMeets(tx, lines, i)
  }

  // ----- What happens between two TRACK lines -----

  /** The end of the track before the last, when the current file and that end are given. */
  function EndAt(tx: Text, prev: string, file: string, end: int, lines: seq<string>): int
    decreases |lines|
  {
    if lines == [] then end
    else
      var next := if KindOf(lines[0]) == IndexLine && prev == file then tx.time(lines[0]) else end;
      EndAt(tx, prev, FileAt(tx, file, lines[..1]), next, lines[1..])
  }

  /** Between two TRACK lines only the start of the last track and the end of the one before change. */
  ghost predicate Between(s: Sheet, n: Sheet) {
    && |n.tracks| == |s.tracks|
    && (forall i :: 0 <= i < |s.tracks| ==> n.tracks[i].file == s.tracks[i].file)
    && (forall i :: 0 <= i < |s.tracks| - 1 ==> n.tracks[i].start == s.tracks[i].start)
    && (forall i :: 0 <= i < |s.tracks| && i != |s.tracks| - 2 ==> n.tracks[i].end == s.tracks[i].end)
  }

  /** The track before the last. */
  function Before(s: Sheet): Track
    requires |s.tracks| > 1
  {
    s.tracks[|s.tracks| - 2]
  }

  lemma IndexBetween(tx: Text, s: Sheet, line: string)
    requires FeedIndex(tx, s, line).Read?
    ensures var n := FeedIndex(tx, s, line).sheet;
      && Between(s, n) && !s.fileChanged && !n.fileChanged
      && (|s.tracks| > 1 ==> Before(n).end == if Before(s).file == s.file then tx.time(line) else Before(s).end)
  {
  }

  lemma FeedBetween(tx: Text, kind: Kind, s: Sheet, line: string)
    requires FeedAs(tx, kind, s, line).Read? && kind != TrackLine
    ensures var n := FeedAs(tx, kind, s, line).sheet;
      && Between(s, n)
      && (|s.tracks| > 1 ==>
            Before(n).end == if kind == IndexLine && Before(s).file == s.file then tx.time(line) else Before(s).end)
      && n.fileChanged == (s.fileChanged || (kind == FileLine && s.file != ""))
      && (kind == IndexLine ==> !s.fileChanged)
  {
    if kind == IndexLine { IndexBetween(tx, s, line); }
  }

  lemma FileAfter(tx: Text, file: string, line: string)
    ensures FileAt(tx, file, [line]) == if KindOf(line) == FileLine then tx.fileName(Rest(line, 4)) else file
  {
    assert [line][1..] == [];
  }

  lemma {:induction false} SegmentBetween(tx: Text, s: Sheet, b: seq<string>)
    requires Count(b, TrackLine) == 0 && FeedAll(tx, s, b).stopped.Read?
    ensures var n := FeedAll(tx, s, b).sheet;
      && Between(s, n)
      && (|s.tracks| > 1 ==> Before(n).end == EndAt(tx, Before(s).file, s.file, Before(s).end, b))
    decreases |b|
  {
    if b != [] {
      FeedBetween(tx, KindOf(b[0]), s, b[0]);
      FeedCounts(tx, KindOf(b[0]), s, b[0]);
      FileAfter(tx, s.file, b[0]);
      assert b[..1] == [b[0]];
      SegmentBetween(tx, Feed(tx, s, b[0]).sheet, b[1..]);
    }
  }

  /** Once the file has changed, no INDEX line is read before the next track. */
  lemma {:induction false} SilentOnceChanged(tx: Text, s: Sheet, b: seq<string>, prev: string, file: string, x: int)
    requires s.fileChanged && Count(b, TrackLine) == 0 && FeedAll(tx, s, b).stopped.Read?
    ensures StartAt(tx, x, b) == EndAt(tx, prev, file, x, b) == x
    decreases |b|
  {
    if b != [] {
      FeedBetween(tx, KindOf(b[0]), s, b[0]);
      SilentOnceChanged(tx, Feed(tx, s, b[0]).sheet, b[1..], prev, FileAt(tx, file, b[..1]), x);
    }
  }

  /** In a named file the end of the track before follows the start of the last, if it is in that file. */
  lemma {:induction false} NamedEnds(tx: Text, s: Sheet, b: seq<string>, prev: string, x: int)
    requires s.file != "" && !s.fileChanged && Count(b, TrackLine) == 0 && FeedAll(tx, s, b).stopped.Read?
    ensures EndAt(tx, prev, s.file, x, b) == if prev == s.file then StartAt(tx, x, b) else x
    decreases |b|
  {
    if b != [] {
      var n := Feed(tx, s, b[0]).sheet;
      FeedBetween(tx, KindOf(b[0]), s, b[0]);
      FeedCounts(tx, KindOf(b[0]), s, b[0]);
      FileAfter(tx, s.file, b[0]);
      assert b[..1] == [b[0]];
      if KindOf(b[0]) == FileLine {
        SilentOnceChanged(tx, n, b[1..], prev, n.file, x);
      } else {
        NamedEnds(tx, n, b[1..], prev, if KindOf(b[0]) == IndexLine && prev == s.file then tx.time(b[0]) else x);
      }
    }
  }

  /** Without a file it follows up to the first FILE line with a name if it has no file either, and from
      there on if it is in the file named there. */
  lemma {:induction false} NamelessEnds(tx: Text, s: Sheet, b: seq<string>, prev: string, x: int)
    requires s.file == "" && !s.fileChanged && Count(b, TrackLine) == 0 && FeedAll(tx, s, b).stopped.Read?
    ensures var n := Unnamed(tx, b);
      EndAt(tx, prev, "", x, b) ==
        if prev == "" then StartAt(tx, x, b[..n])
        else if n < |b| && prev == tx.fileName(Rest(b[n], 4)) then StartAt(tx, x, b[n..])
        else x
    decreases |b|
  {
    if b != [] {
      var s1 := Feed(tx, s, b[0]).sheet;
      var n := Unnamed(tx, b);
      FeedBetween(tx, KindOf(b[0]), s, b[0]);
      FeedCounts(tx, KindOf(b[0]), s, b[0]);
      FileAfter(tx, "", b[0]);
      assert b[..1] == [b[0]];
      if IsNamed(tx, b[0]) {
        NamedEnds(tx, s1, b[1..], prev, x);
        assert b[0..] == b && b[..0] == [];
      } else {
        var y := if KindOf(b[0]) == IndexLine && prev == "" then tx.time(b[0]) else x;
        NamelessEnds(tx, s1, b[1..], prev, y);
        assert b[..n][1..] == b[1..][..n - 1] && b[n..] == b[1..][n - 1..];
      }
    }
  }

  // ----- The tracks chain exactly under the condition -----

  ghost predicate PairMeets(ts: seq<Track>, i: nat)
    requires i + 1 < |ts|
  {
    ts[i].end == if ts[i].file == ts[i + 1].file then ts[i + 1].start else 0
  }

  ghost predicate PairsMeet(ts: seq<Track>, n: int) {
    forall i :: 0 <= i < n && i + 1 < |ts| ==> PairMeets(ts, i)
  }

  lemma {:induction false} LastTrackIs(tx: Text, s: Sheet, lines: seq<string>, track: string)
    requires FeedAll(tx, s, lines).stopped.Read?
    requires s.tracks != [] ==> Last(s).end == 0 && track == Last(s).file
    ensures var n := FeedAll(tx, s, lines).sheet;
      n.tracks != [] ==> Last(n).end == 0 && Last(n).file == TrackFile(tx, s.file, track, lines)
    decreases |lines|
  {
    if lines != [] {
      var n := Feed(tx, s, lines[0]).sheet;
      FeedCounts(tx, KindOf(lines[0]), s, lines[0]);
      FileAfter(tx, s.file, lines[0]);
      assert lines[..1] == [lines[0]];
      if KindOf(lines[0]) != TrackLine {
        FeedBetween(tx, KindOf(lines[0]), s, lines[0]);
      }
      LastTrackIs(tx, n, lines[1..], if KindOf(lines[0]) == TrackLine then s.file else track);
    }
  }

  /** The state right after the TRACK line at the end of `done`. */
  ghost predicate JustTracked(tx: Text, done: seq<string>, u: Sheet) {
    && done != [] && KindOf(done[|done| - 1]) == TrackLine && u.tracks != []
    && |u.tracks| == Count(done[..|done| - 1], TrackLine) + 1
    && u.file == FileAt(tx, "", done[..|done| - 1]) && !u.fileChanged
    && Last(u).file == u.file && Last(u).start == 0 && Last(u).end == 0
    && (|u.tracks| > 1 ==> Before(u).end == 0 && Before(u).file == TrackFile(tx, "", "", done[..|done| - 1]))
  }

  lemma {:induction false} AfterTrack(tx: Text, done: seq<string>)
    requires done != [] && KindOf(done[|done| - 1]) == TrackLine && FeedAll(tx, EMPTY, done).stopped.Read?
    ensures JustTracked(tx, done, FeedAll(tx, EMPTY, done).sheet)
  {
    var init, t := done[..|done| - 1], done[|done| - 1];
    assert done == init + [t];
    FeedAllAppend(tx, EMPTY, init, [t]);
    var w := FeedAll(tx, EMPTY, init).sheet;
    CountsLines(tx, EMPTY, init);
    LastTrackIs(tx, EMPTY, init, "");
    assert [t][1..] == [] && Feed(tx, w, t) == Read(FeedTrack(tx, w, t));
    assert FeedAll(tx, w, [t]) == FeedAll(tx, FeedTrack(tx, w, t), []);
  }

  /** The pair before a TRACK line meets exactly under the condition on what follows the line. */
  lemma {:induction false} LastPairMeets(tx: Text, done: seq<string>, u: Sheet, b: seq<string>)
    requires JustTracked(tx, done, u) && |u.tracks| > 1
    requires Count(b, TrackLine) == 0 && FeedAll(tx, u, b).stopped.Read?
    ensures var v := FeedAll(tx, u, b).sheet;
      && |v.tracks| == |u.tracks|
      && (PairMeets(v.tracks, |v.tracks| - 2) <==>
          (u.file == "" ==> Harmless(tx, TrackFile(tx, "", "", done[..|done| - 1]), b)))
  {
    var v := FeedAll(tx, u, b).sheet;
    var p := Before(u);
    SegmentBetween(tx, u, b);
    LastTrackStart(tx, u, b);
    if u.file == "" {
      NamelessEnds(tx, u, b, p.file, 0);
    } else {
      NamedEnds(tx, u, b, p.file, 0);
    }
  }

  lemma SettledPairs(u: Sheet, v: Sheet)
    requires Between(u, v)
    ensures PairsMeet(v.tracks, |v.tracks| - 2) <==> PairsMeet(u.tracks, |u.tracks| - 2)
  {
    assert forall i :: 0 <= i < |u.tracks| - 2 ==> (PairMeets(v.tracks, i) <==> PairMeets(u.tracks, i));
  }

  /** The lines of a segment that is not a TRACK line do not matter by themselves. */
  lemma {:induction false} NoTrackLine(b: seq<string>, i: nat)
    requires Count(b, TrackLine) == 0 && i < |b|
    ensures KindOf(b[i]) != TrackLine
  {
    if i > 0 {
      NoTrackLine(b[1..], i - 1);
    }
  }

  /** The condition on the lines from a TRACK line on: that on this line, and that from the next TRACK
      line on. */
  lemma {:induction false} LinesMeetSplit(tx: Text, done: seq<string>, b: seq<string>, c: seq<string>)
    requires done != [] && KindOf(done[|done| - 1]) == TrackLine && Count(b, TrackLine) == 0
    requires c == [] || KindOf(c[0]) == TrackLine
    ensures var all := done + (b + c);
      LinesMeet(tx, all, |done| - 1) <==>
      TrackMeets(tx, all, |done| - 1) && LinesMeet(tx, all, |done| + |b|)
  {
    var all := done + (b + c);
    forall i | |done| <= i < |done| + |b| ensures TrackMeets(tx, all, i) {
      NoTrackLine(b, i - |done|);
      assert all[i] == b[i - |done|];
    }
  }

  lemma {:induction false} TrackMeetsHere(tx: Text, done: seq<string>, b: seq<string>, c: seq<string>)
    requires done != [] && KindOf(done[|done| - 1]) == TrackLine && Count(b, TrackLine) == 0
    requires c == [] || KindOf(c[0]) == TrackLine
    ensures var init := done[..|done| - 1];
      TrackMeets(tx, done + (b + c), |done| - 1) <==>
      (Count(init, TrackLine) > 0 && FileAt(tx, "", init) == "" ==> Harmless(tx, TrackFile(tx, "", "", init), b))
  {
    var all := done + (b + c);
    assert all[..|done| - 1] == done[..|done| - 1] && all[|done|..] == b + c;
    SegmentIs(b, c);
  }

  lemma {:induction false} SegmentIs(b: seq<string>, c: seq<string>)
    requires Count(b, TrackLine) == 0 && (c == [] || KindOf(c[0]) == TrackLine)
    ensures Segment(b + c) == b
  {
    if b == [] {
      assert b + c == c;
    } else {
      assert (b + c)[0] == b[0] && (b + c)[1..] == b[1..] + c;
      SegmentIs(b[1..], c);
    }
  }

  /** Reading on up to the next TRACK line settles one more pair. */
  lemma {:induction false} SegmentMeets(tx: Text, done: seq<string>, u: Sheet, b: seq<string>, c: seq<string>)
    requires JustTracked(tx, done, u) && FeedAll(tx, u, b).stopped.Read?
    requires Count(b, TrackLine) == 0 && (c == [] || KindOf(c[0]) == TrackLine)
    ensures var v := FeedAll(tx, u, b).sheet;
      PairsMeet(v.tracks, |v.tracks| - 1) <==>
      PairsMeet(u.tracks, |u.tracks| - 2) && TrackMeets(tx, done + (b + c), |done| - 1)
  {
    var v := FeedAll(tx, u, b).sheet;
    SegmentBetween(tx, u, b);
    SettledPairs(u, v);
    TrackMeetsHere(tx, done, b, c);
    if |u.tracks| > 1 {
      LastPairMeets(tx, done, u, b);
      OneMorePair(v.tracks);
    }
  }

  lemma OneMorePair(ts: seq<Track>)
    requires |ts| > 1
    ensures PairsMeet(ts, |ts| - 1) <==> PairsMeet(ts, |ts| - 2) && PairMeets(ts, |ts| - 2)
  {
  }

  lemma Regrouped(done: seq<string>, b: seq<string>, c: seq<string>)
    requires c != []
    ensures done + (b + c) == done + b + [c[0]] + c[1..]
  {
    assert c == [c[0]] + c[1..];
  }

  lemma {:induction false} ChainsFrom(tx: Text, all: seq<string>, done: seq<string>, rest: seq<string>, u: Sheet)
    requires all == done + rest && done != [] && KindOf(done[|done| - 1]) == TrackLine
    requires FeedAll(tx, EMPTY, done) == Outcome(u, Read(u)) && FeedAll(tx, u, rest).stopped.Read?
    ensures Chained(FeedAll(tx, u, rest).sheet.tracks) <==>
      PairsMeet(u.tracks, |u.tracks| - 2) && LinesMeet(tx, all, |done| - 1)
    decreases |rest|, 1
  {
    var b := Segment(rest);
    assert rest == b + rest[|b|..];
    ChainsOver(tx, all, done, b, rest[|b|..], u);
  }

  /** The same, when `b` are the lines before the next TRACK line. */
  lemma {:induction false} ChainsOver(tx: Text, all: seq<string>, done: seq<string>, b: seq<string>, c: seq<string>, u: Sheet)
    requires all == done + (b + c) && done != [] && KindOf(done[|done| - 1]) == TrackLine
    requires Count(b, TrackLine) == 0 && (c == [] || KindOf(c[0]) == TrackLine)
    requires FeedAll(tx, EMPTY, done) == Outcome(u, Read(u)) && FeedAll(tx, u, b + c).stopped.Read?
    ensures Chained(FeedAll(tx, u, b + c).sheet.tracks) <==>
      PairsMeet(u.tracks, |u.tracks| - 2) && LinesMeet(tx, all, |done| - 1)
    decreases |b + c|, 0
  {
    AfterTrack(tx, done);
    FeedAllAppend(tx, u, b, c);
    var v := FeedAll(tx, u, b).sheet;
    SegmentMeets(tx, done, u, b, c);
    LinesMeetSplit(tx, done, b, c);
    if c == [] {
      AllPairs(v.tracks);
    } else {
      var w := NextTrack(tx, done, u, b, c);
      var next := done + b + [c[0]];
      Regrouped(done, b, c);
      assert next[|next| - 1] == c[0] && |next| - 1 == |done| + |b|;
      ChainsFrom(tx, all, next, c[1..], w);
    }
  }

  lemma AllPairs(ts: seq<Track>)
    ensures Chained(ts) <==> PairsMeet(ts, |ts| - 1)
  {
    assert forall i :: 0 <= i < |ts| - 1 ==>
      (PairMeets(ts, i) <==> ts[i].end == if ts[i].file == ts[i + 1].file then ts[i + 1].start else 0);
  }

  /** Reading on up to and with the next TRACK line. */
  lemma {:induction false} NextTrack(tx: Text, done: seq<string>, u: Sheet, b: seq<string>, c: seq<string>)
    returns (w: Sheet)
    requires FeedAll(tx, EMPTY, done) == Outcome(u, Read(u)) && c != [] && KindOf(c[0]) == TrackLine
    requires FeedAll(tx, u, b).stopped.Read?
    ensures var v := FeedAll(tx, u, b).sheet;
      && FeedAll(tx, EMPTY, done + b + [c[0]]) == Outcome(w, Read(w)) && |w.tracks| == |v.tracks| + 1
      && FeedAll(tx, v, c) == FeedAll(tx, w, c[1..])
      && (PairsMeet(w.tracks, |w.tracks| - 2) <==> PairsMeet(v.tracks, |v.tracks| - 1))
  {
    var v := FeedAll(tx, u, b).sheet;
    w := FeedTrack(tx, v, c[0]);
    ReadsOn(tx, done, u, b, c[0]);
    FirstLineRead(tx, v, c);
    TrackAdded(tx, v, c[0]);
  }

  lemma ReadsOn(tx: Text, done: seq<string>, u: Sheet, b: seq<string>, t: string)
    requires FeedAll(tx, EMPTY, done) == Outcome(u, Read(u)) && FeedAll(tx, u, b).stopped.Read?
    requires KindOf(t) == TrackLine
    ensures var w := FeedTrack(tx, FeedAll(tx, u, b).sheet, t);
      FeedAll(tx, EMPTY, done + b + [t]) == Outcome(w, Read(w))
  {
    FeedAllAppend(tx, EMPTY, done, b);
    FeedAllAppend(tx, EMPTY, done + b, [t]);
    OneTrackLine(tx, FeedAll(tx, u, b).sheet, t);
  }

  lemma FirstLineRead(tx: Text, v: Sheet, c: seq<string>)
    requires c != [] && KindOf(c[0]) == TrackLine
    ensures FeedAll(tx, v, c) == FeedAll(tx, FeedTrack(tx, v, c[0]), c[1..])
  {
    assert Feed(tx, v, c[0]) == Read(FeedTrack(tx, v, c[0]));
  }

  lemma TrackAdded(tx: Text, v: Sheet, t: string)
    ensures var w := FeedTrack(tx, v, t);
      |w.tracks| == |v.tracks| + 1 && (PairsMeet(w.tracks, |w.tracks| - 2) <==> PairsMeet(v.tracks, |v.tracks| - 1))
  {
    SamePairs(v.tracks, FeedTrack(tx, v, t).tracks);
  }

  lemma OneTrackLine(tx: Text, v: Sheet, t: string)
    requires KindOf(t) == TrackLine
    ensures FeedAll(tx, v, [t]) == Outcome(FeedTrack(tx, v, t), Read(FeedTrack(tx, v, t)))
  {
    assert [t][1..] == [] && Feed(tx, v, t) == Read(FeedTrack(tx, v, t));
    assert FeedAll(tx, v, [t]) == FeedAll(tx, FeedTrack(tx, v, t), []);
  }

  lemma SamePairs(ts: seq<Track>, us: seq<Track>)
    requires |us| == |ts| + 1 && us[..|ts|] == ts
    ensures PairsMeet(us, |us| - 2) <==> PairsMeet(ts, |ts| - 1)
  {
    assert forall i :: 0 <= i < |ts| ==> ts[i] == us[i];
    assert forall i :: 0 <= i < |ts| - 1 ==> (PairMeets(us, i) <==> PairMeets(ts, i));
  }

  /** The end of the last track is 0 before the sheet is closed. */
  lemma {:induction false} ClosedAlready(tx: Text, lines: seq<string>)
    requires FeedAll(tx, EMPTY, lines).stopped.Read?
    ensures Closed(FeedAll(tx, EMPTY, lines).sheet) == FeedAll(tx, EMPTY, lines).sheet
  {
    LastTrackIs(tx, EMPTY, lines, "");
    ClosedSame(FeedAll(tx, EMPTY, lines).sheet);
  }

  lemma ClosedSame(s: Sheet)
    requires s.tracks != [] ==> Last(s).end == 0
    ensures Closed(s) == s
  {
    assert Closed(s).tracks == s.tracks;
  }

  lemma SplitAt(lines: seq<string>, a: seq<string>)
    requires a < lines
    ensures lines == a + [lines[|a|]] + lines[|a| + 1..]
  {
  }

  lemma {:induction false} MeetBeforeFirst(tx: Text, lines: seq<string>, a: seq<string>)
    requires a <= lines && Count(a, TrackLine) == 0
    ensures LinesMeet(tx, lines, 0) <==> LinesMeet(tx, lines, |a|)
  {
    forall i | 0 <= i < |a| ensures TrackMeets(tx, lines, i) { NoTrackLine(a, i); }
  }

  /** The tracks of a sheet that is read to its end chain if and only if no TRACK line without a file,
      after another one, is followed by harm. */
  lemma {:induction false} ChainsIff(tx: Text, lines: seq<string>)
    requires FeedAll(tx, EMPTY, lines).stopped.Read?
    ensures Chained(Closed(FeedAll(tx, EMPTY, lines).sheet).tracks) <==> LinesMeet(tx, lines, 0)
  {
    var a := Segment(lines);
    ClosedAlready(tx, lines);
    MeetBeforeFirst(tx, lines, a);
    if a == lines {
      NoTracks(tx, lines);
    } else {
      var t, rest := lines[|a|], lines[|a| + 1..];
      SplitAt(lines, a);
      FirstTrack(tx, lines, a, t, rest);
    }
  }

  lemma {:induction false} NoTracks(tx: Text, lines: seq<string>)
    requires FeedAll(tx, EMPTY, lines).stopped.Read? && Count(lines, TrackLine) == 0
    ensures FeedAll(tx, EMPTY, lines).sheet.tracks == [] && LinesMeet(tx, lines, |lines|)
  {
    CountsLines(tx, EMPTY, lines);
  }

  /** The same, from the first TRACK line on. */
  lemma {:induction false} FirstTrack(tx: Text, all: seq<string>, a: seq<string>, t: string, rest: seq<string>)
    requires all == a + [t] + rest && Count(a, TrackLine) == 0 && KindOf(t) == TrackLine
    requires FeedAll(tx, EMPTY, all).stopped.Read?
    ensures Chained(FeedAll(tx, EMPTY, all).sheet.tracks) <==> LinesMeet(tx, all, |a|)
  {
    var done := a + [t];
    FeedAllAppend(tx, EMPTY, done, rest);
    var u := FeedAll(tx, EMPTY, done).sheet;
    AfterTrack(tx, done);
    assert done[..|done| - 1] == a;
    FeedAllAppend(tx, EMPTY, a, [t]);
    OneTrackLine(tx, FeedAll(tx, EMPTY, a).sheet, t);
    assert PairsMeet(u.tracks, |u.tracks| - 2);
    ChainsFrom(tx, all, done, rest, u);
  }

  // ----- Sheets that chain, and sheets that do not -----

  /** Every FILE line names a file, and there is one before the first TRACK line. */
  ghost predicate WellNamed(tx: Text, lines: seq<string>) {
    && (forall i :: 0 <= i < |lines| && KindOf(lines[i]) == FileLine ==> IsNamed(tx, lines[i]))
    && (forall i :: 0 <= i < |lines| && KindOf(lines[i]) == TrackLine ==>
          exists j :: 0 <= j < i && KindOf(lines[j]) == FileLine)
  }

  lemma {:induction false} FileAtNamed(tx: Text, file: string, lines: seq<string>)
    requires forall i :: 0 <= i < |lines| && KindOf(lines[i]) == FileLine ==> IsNamed(tx, lines[i])
    requires file != "" || exists j :: 0 <= j < |lines| && KindOf(lines[j]) == FileLine
    ensures FileAt(tx, file, lines) != ""
    decreases |lines|
  {
    if lines != [] {
      if file == "" && KindOf(lines[0]) != FileLine {
        var j :| 0 <= j < |lines| && KindOf(lines[j]) == FileLine;
        assert lines[1..][j - 1] == lines[j];
      }
      FileAtNamed(tx, if KindOf(lines[0]) == FileLine then tx.fileName(Rest(lines[0], 4)) else file, lines[1..]);
    }
  }

  /** How much of the sheet is read. */
  lemma {:induction false} ReadPart(tx: Text, s: Sheet, lines: seq<string>) returns (n: nat)
    ensures n <= |lines| && FeedAll(tx, s, lines[..n]) == Outcome(FeedAll(tx, s, lines).sheet, Read(FeedAll(tx, s, lines).sheet))
    ensures FeedAll(tx, s, lines).stopped.Read? ==> n == |lines|
    decreases |lines|
  {
    n := 0;
    if lines != [] && Feed(tx, s, lines[0]).Read? {
      var m := ReadPart(tx, Feed(tx, s, lines[0]).sheet, lines[1..]);
      n := m + 1;
      assert lines[..n][1..] == lines[1..][..m];
    }
  }

  /** The tracks of every well-named sheet, or of what was read of it before an error, chain, and the
      last one ends in 0. */
  lemma {:induction false} SheetChains(tx: Text, lines: seq<string>)
    requires WellNamed(tx, lines)
    ensures var s := Closed(FeedAll(tx, EMPTY, lines).sheet);
      Chained(s.tracks) && (s.tracks != [] ==> Last(s).end == 0)
  {
    var n := ReadPart(tx, EMPTY, lines);
    forall i | 0 <= i < n ensures TrackMeets(tx, lines[..n], i) {
      if KindOf(lines[i]) == TrackLine {
        var j :| 0 <= j < i && KindOf(lines[j]) == FileLine;
        assert lines[..n][..i] == lines[..i] && lines[..i][j] == lines[j];
        FileAtNamed(tx, "", lines[..i]);
      }
    }
    ChainsIff(tx, lines[..n]);
  }

  lemma {:induction false} AllUnnamed(tx: Text, b: seq<string>)
    requires forall i :: 0 <= i < |b| ==> !IsNamed(tx, b[i])
    ensures Unnamed(tx, b) == |b|
  {
    if b != [] {
      AllUnnamed(tx, b[1..]);
    }
  }

  /** A sheet that names no file chains as well. */
  lemma {:induction false} NamelessSheetChains(tx: Text, lines: seq<string>)
    requires forall i :: 0 <= i < |lines| ==> !IsNamed(tx, lines[i])
    requires FeedAll(tx, EMPTY, lines).stopped.Read?
    ensures Chained(Closed(FeedAll(tx, EMPTY, lines).sheet).tracks)
  {
    forall i | 0 <= i < |lines| ensures TrackMeets(tx, lines, i) {
      var b := Segment(lines[i + 1..]);
      AllUnnamed(tx, b);
      assert b[..|b|] == b;
    }
    ChainsIff(tx, lines);
  }

  lemma FeedOne(tx: Text, s: Sheet, line: string, rest: seq<string>, n: Sheet)
    requires Feed(tx, s, line) == Read(n)
    ensures FeedAll(tx, s, [line] + rest) == FeedAll(tx, n, rest)
  {
    assert ([line] + rest)[1..] == rest;
  }

  /** A TRACK line where there is no file, a FILE line with a name and an INDEX line. */
  lemma {:induction false} TrackFileIndex(tx: Text, s: Sheet, t: string, f: string, i: string)
    requires KindOf(t) == TrackLine && IsNamed(tx, f) && KindOf(i) == IndexLine && tx.time(i) != -1 && s.file == ""
    ensures var n := FeedIndex(tx, FeedFile(tx, FeedTrack(tx, s, t), f), i);
      n.Read? && FeedAll(tx, s, [t] + ([f] + ([i] + []))) == Outcome(n.sheet, n)
  {
    var s1 := FeedTrack(tx, s, t);
    var s2 := FeedFile(tx, s1, f);
    FeedOne(tx, s, t, [f] + ([i] + []), s1);
    FeedOne(tx, s1, f, [i] + [], s2);
    FeedOne(tx, s2, i, [], FeedIndex(tx, s2, i).sheet);
  }

  /** Two tracks before the first FILE line with a name, and an INDEX line after it: the second starts
      where the first does not end. */
  lemma {:induction false} LateFileBreaksChain(tx: Text, t1: string, t2: string, f: string, i: string)
    requires KindOf(t1) == KindOf(t2) == TrackLine && IsNamed(tx, f) && KindOf(i) == IndexLine
    requires tx.time(i) !in {-1, 0}
    ensures var o := FeedAll(tx, EMPTY, [t1] + ([t2] + ([f] + ([i] + []))));
      o.stopped.Read? && |o.sheet.tracks| == 2 && !Chained(Closed(o.sheet).tracks)
  {
    var s1 := FeedTrack(tx, EMPTY, t1);
    FeedOne(tx, EMPTY, t1, [t2] + ([f] + ([i] + [])), s1);
    TrackFileIndex(tx, s1, t2, f, i);
    var ts := Closed(FeedAll(tx, s1, [t2] + ([f] + ([i] + []))).sheet).tracks;
    assert ts[0].end == 0 && ts[0].file == ts[1].file && ts[1].start == tx.time(i);
  }

  lemma {:induction false} FileTrackFile(tx: Text, f: string, t: string, e: string, rest: seq<string>)
    requires KindOf(f) == KindOf(e) == FileLine && KindOf(t) == TrackLine
    ensures FeedAll(tx, EMPTY, [f] + ([t] + ([e] + rest))) ==
      FeedAll(tx, FeedFile(tx, FeedTrack(tx, FeedFile(tx, EMPTY, f), t), e), rest)
  {
    var s1 := FeedFile(tx, EMPTY, f);
    var s2 := FeedTrack(tx, s1, t);
    FeedOne(tx, EMPTY, f, [t] + ([e] + rest), s1);
    FeedOne(tx, s1, t, [e] + rest, s2);
    FeedOne(tx, s2, e, rest, FeedFile(tx, s2, e));
  }

  /** A track in a file, a FILE line without a name, another track, and an INDEX line after the file is
      named again: the first track is given an end although the second is in another file. */
  lemma {:induction false} FileAgainBreaksChain(tx: Text, f: string, t1: string, e: string, t2: string, i: string)
    requires KindOf(t1) == KindOf(t2) == TrackLine && IsNamed(tx, f) && KindOf(i) == IndexLine
    requires KindOf(e) == FileLine && !IsNamed(tx, e) && tx.time(i) !in {-1, 0}
    ensures var o := FeedAll(tx, EMPTY, [f] + ([t1] + ([e] + ([t2] + ([f] + ([i] + []))))));
      o.stopped.Read? && |o.sheet.tracks| == 2 && !Chained(Closed(o.sheet).tracks)
  {
    var s := FeedFile(tx, FeedTrack(tx, FeedFile(tx, EMPTY, f), t1), e);
    FileTrackFile(tx, f, t1, e, [t2] + ([f] + ([i] + [])));
    TrackFileIndex(tx, s, t2, f, i);
    var ts := Closed(FeedAll(tx, s, [t2] + ([f] + ([i] + []))).sheet).tracks;
    assert ts[0].end == tx.time(i) && ts[0].file != ts[1].file;
  }
}
