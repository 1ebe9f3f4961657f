/** What `CCueDocument::Parse` computes from the lines of a cue sheet, and how lines are read from a
    buffer. */
module CueSheet {

  // ----- Lines -----

  predicate IsSpace(c: char) {
    c == ' ' || c == '\t' || c == '\n' || c == '\r' || c == 11 as char || c == 12 as char
  }

  function TrimLeft(s: string): (r: string)
    ensures |r| <= |s|
  {
    if s != "" && IsSpace(s[0]) then TrimLeft(s[1..]) else s
  }

  function TrimRight(s: string): (r: string)
    ensures |r| <= |s|
  {
    if s != "" && IsSpace(s[|s| - 1]) then TrimRight(s[..|s| - 1]) else s
  }

  function Trim(s: string): string {
    TrimRight(TrimLeft(s))
  }

  predicate IsBreak(c: char) {
    c == '\r' || c == '\n'
  }

  /** A line, unless it is blank. */
  function Kept(s: string): seq<string> {
    if Trim(s) == "" then [] else [Trim(s)]
  }

  /** The trimmed lines of `data` that are not blank, when `line` has been read of the first. */
  function LinesAfter(line: string, data: string): seq<string>
    decreases |data|
  {
    if data == "" then Kept(line)
    else if IsBreak(data[0]) then Kept(line) + LinesAfter("", data[1..])
    else LinesAfter(line + [data[0]], data[1..])
  }

  function Lines(data: string): seq<string> {
    LinesAfter("", data)
  }

  /** A line break ends a line, whatever surrounds it. */
  lemma {:induction false} LinesAtBreak(line: string, a: string, c: char, b: string)
    requires IsBreak(c)
    ensures LinesAfter(line, a + [c] + b) == LinesAfter(line, a) + Lines(b)
    decreases |a|
  {
    var all := a + [c] + b;
    if a == "" {
      assert all[0] == c && all[1..] == b;
    } else {
      assert all[0] == a[0] && all[1..] == a[1..] + [c] + b;
      if IsBreak(a[0]) {
        LinesAtBreak("", a[1..], c, b);
        assert Kept(line) + (LinesAfter("", a[1..]) + Lines(b)) == Kept(line) + LinesAfter("", a[1..]) + Lines(b);
      } else {
        LinesAtBreak(line + [a[0]], a[1..], c, b);
      }
    }
  }

  /** Which line breaks are used, and how many, makes no difference. */
  lemma BreaksAreAlike(a: string, b: string)
    ensures Lines(a + "\r\n" + b) == Lines(a + "\n" + b) == Lines(a + "\n\n" + b) == Lines(a) + Lines(b)
  {
    LinesAtBreak("", a, '\n', b);
    LinesAtBreak("", a, '\n', "\n" + b);
    LinesAtBreak("", "", '\n', b);
    LinesAtBreak("", a, '\r', "\n" + b);
    assert a + "\r\n" + b == a + ['\r'] + ("\n" + b);
    assert a + "\n\n" + b == a + ['\n'] + ("\n" + b);
    assert "" + ['\n'] + b == "\n" + b;
    assert Lines("") == [];
  }

  ghost predicate AllSpace(s: string) {
    forall i :: 0 <= i < |s| ==> s[i] as int in {9, 10, 11, 12, 13, 32}
  }

  lemma {:induction false} LeftTrimmed(s: string) returns (a: string)
    ensures s == a + TrimLeft(s) && AllSpace(a)
    ensures TrimLeft(s) != "" ==> TrimLeft(s)[0] as int !in {9, 10, 11, 12, 13, 32}
  {
    a := "";
    if s != "" && IsSpace(s[0]) {
      var b := LeftTrimmed(s[1..]);
      a := [s[0]] + b;
    }
  }

  lemma {:induction false} RightTrimmed(s: string) returns (b: string)
    ensures s == TrimRight(s) + b && AllSpace(b)
    ensures TrimRight(s) != "" ==> TrimRight(s)[|TrimRight(s)| - 1] as int !in {9, 10, 11, 12, 13, 32}
  {
    b := "";
    if s != "" && IsSpace(s[|s| - 1]) {
      var a := RightTrimmed(s[..|s| - 1]);
      b := a + [s[|s| - 1]];
    }
  }

  /** A trimmed line is the line without the white space (tab, line breaks, page breaks and blanks) around it. */
  lemma {:induction false} TrimIs(s: string) returns (a: string, b: string)
    ensures s == a + Trim(s) + b && AllSpace(a) && AllSpace(b)
    ensures Trim(s) != "" ==> var c, d := Trim(s)[0], Trim(s)[|Trim(s)| - 1];
      c as int !in {9, 10, 11, 12, 13, 32} && d as int !in {9, 10, 11, 12, 13, 32}
  {
    a := LeftTrimmed(s);
    b := RightTrimmed(TrimLeft(s));
  }

  /** Without line breaks there is one line, unless it is blank. */
  lemma {:induction false} OneLine(line: string, s: string)
    requires forall i :: 0 <= i < |s| ==> s[i] as int !in {10, 13}
    ensures LinesAfter(line, s) == if Trim(line + s) == "" then [] else [Trim(line + s)]
    decreases |s|
  {
    if s == "" {
      assert line + s == line;
    } else {
      OneLine(line + [s[0]], s[1..]);
      assert line + [s[0]] + s[1..] == line + s;
    }
  }

  // ----- Sheets -----

  datatype Track = Track(artist: string, title: string, file: string, number: int,
                         start: int, end: int, gain: string, peak: string)

  /** The document while it is read: the result so far, the current file, whether it changed since the
      last track, and how many FILE lines there were. */
  datatype Sheet = Sheet(artist: string, album: string, genre: string, year: int, disc: int,
                         gain: string, peak: string, tracks: seq<Track>,
                         file: string, fileChanged: bool, files: nat)

  const EMPTY := Sheet("", "", "", 0, 0, "", "", [], "", false, 0)

  /** What the parser takes from elsewhere: the text in quotes, a FILE name resolved against the
      sheet's own path, the time of an INDEX line (-1 when it is mangled), and a number (-1 when there
      is none). */
  datatype Text = Text(info: string -> string, fileName: string -> string, time: string -> int, number: string -> int)

  function Lower(c: char): char {
    if 'A' <= c <= 'Z' then (c as int + 32) as char else c
  }

  predicate StartsWith(s: string, prefix: string)
    decreases |s|
  {
    prefix == "" || (s != "" && Lower(s[0]) == Lower(prefix[0]) && StartsWith(s[1..], prefix[1..]))
  }

  /** A line is read, refused as an error, or runs into `substr` beyond its end, which throws. */
  datatype Fed = Read(sheet: Sheet) | Refused | Thrown

  function SetLast(s: Sheet, t: Track): Sheet
    requires s.tracks != []
  {
    s.(tracks := s.tracks[|s.tracks| - 1 := t])
  }

  function Last(s: Sheet): Track
    requires s.tracks != []
  {
    s.tracks[|s.tracks| - 1]
  }

  /** An "INDEX 01" line: the start of the last track, and the end of the one before it if that is in
      the current file. */
  function FeedIndex(tx: Text, s: Sheet, line: string): Fed {
    if s.fileChanged then Refused
    else
      var time := tx.time(line);
      var n := |s.tracks|;
      if time == -1 then Refused
      else if n == 0 then Read(s)
      else
        var before :=
          if n > 1 && s.tracks[n - 2].file == s.file
          then s.(tracks := s.tracks[n - 2 := s.tracks[n - 2].(end := time)])
          else s;
        Read(SetLast(before, Last(before).(start := time)))
  }

  function FeedTrack(tx: Text, s: Sheet, line: string): Sheet {
    var n := tx.number(Rest(line, 5));
    var t := Track("", "", s.file, if n > 0 then n else |s.tracks| + 1, 0, 0, "", "");
    s.(tracks := s.tracks + [t], fileChanged := false)
  }

  function FeedFile(tx: Text, s: Sheet, line: string): Sheet {
    s.(files := s.files + 1, fileChanged := s.fileChanged || s.file != "", file := tx.fileName(Rest(line, 4)))
  }

  function Least(a: nat, b: nat): nat { if a < b then a else b }

  function Rest(line: string, n: nat): string {
    line[Least(n, |line|)..]
  }

  datatype Kind = IndexLine | TitleLine | PerformerLine | TrackLine | DiscLine | FileLine | DateLine | GenreLine
    | AlbumGain | AlbumPeak | TrackGain | TrackPeak | OtherLine

  /** What a line is about, whatever its case. */
  function KindOf(line: string): Kind {
    if StartsWith(line, "INDEX 01") then IndexLine
    else if StartsWith(line, "TITLE") then TitleLine
    else if StartsWith(line, "PERFORMER") then PerformerLine
    else if StartsWith(line, "TRACK") then TrackLine
    else if StartsWith(line, "REM DISCNUMBER") then DiscLine
    else if StartsWith(line, "FILE") then FileLine
    else if StartsWith(line, "REM DATE") then DateLine
    else if StartsWith(line, "REM GENRE") then GenreLine
    else if StartsWith(line, "REM REPLAYGAIN_ALBUM_GAIN") then AlbumGain
    else if StartsWith(line, "REM REPLAYGAIN_ALBUM_PEAK") then AlbumPeak
    else if StartsWith(line, "REM REPLAYGAIN_TRACK_GAIN") then TrackGain
    else if StartsWith(line, "REM REPLAYGAIN_TRACK_PEAK") then TrackPeak
    else OtherLine
  }

  /** One line of the sheet. */
  function Feed(tx: Text, s: Sheet, line: string): Fed {
    FeedAs(tx, KindOf(line), s, line)
  }

  function FeedAs(tx: Text, kind: Kind, s: Sheet, line: string): Fed {
    match kind
    case IndexLine => FeedIndex(tx, s, line)
    case TitleLine =>
      var text := tx.info(Rest(line, 5));
      Read(if s.tracks == [] then s.(album := text) else SetLast(s, Last(s).(title := text)))
    case PerformerLine =>
      var text := tx.info(Rest(line, 9));
      Read(if s.tracks == [] then s.(artist := text) else SetLast(s, Last(s).(artist := text)))
    case TrackLine => Read(FeedTrack(tx, s, line))
    case DiscLine =>
      var n := tx.number(Rest(line, 14));
      Read(if n > 0 then s.(disc := n) else s)
    case FileLine => Read(FeedFile(tx, s, line))
    case DateLine =>
      var n := tx.number(Rest(line, 8));
      Read(if n > 0 then s.(year := n) else s)
    case GenreLine => Read(s.(genre := tx.info(Rest(line, 9))))
    case AlbumGain => if |line| < 26 then Thrown else Read(s.(gain := Rest(line, 26)))
    case AlbumPeak => if |line| < 26 then Thrown else Read(s.(peak := Rest(line, 26)))
    case TrackGain =>
      if s.tracks == [] then Read(s)
      else if |line| < 26 then Thrown
      else Read(SetLast(s, Last(s).(gain := Rest(line, 26))))
    case TrackPeak =>
      if s.tracks == [] then Read(s)
      else if |line| < 26 then Thrown
      else Read(SetLast(s, Last(s).(peak := Rest(line, 26))))
    case OtherLine => Read(s)
  }

  /** How reading stopped, and the sheet up to there. */
  datatype Outcome = Outcome(sheet: Sheet, stopped: Fed)

  function FeedAll(tx: Text, s: Sheet, lines: seq<string>): Outcome
    decreases |lines|
  {
    if lines == [] then Outcome(s, Read(s))
    else
      match Feed(tx, s, lines[0])
      case Read(next) => FeedAll(tx, next, lines[1..])
      case stop => Outcome(s, stop)
  }

  /** The tracks once the sheet has been read: the end of the last one is 0. */
  function Closed(s: Sheet): Sheet {
    if s.tracks == [] then s else SetLast(s, Last(s).(end := 0))
  }

  // ----- Track intervals chain -----

  /** Neighbouring tracks of one file meet; a track ends in 0, that is at the end of its file, when
      the next one is in another file. */
  ghost predicate Chained(ts: seq<Track>) {
    forall i :: 0 <= i < |ts| - 1 ==> ts[i].end == if ts[i].file == ts[i + 1].file then ts[i + 1].start else 0
  }

  // ----- What the lines say about each track -----

  function Count(lines: seq<string>, kind: Kind): nat {
    if lines == [] then 0 else (if KindOf(lines[0]) == kind then 1 else 0) + Count(lines[1..], kind)
  }

  /** The current file after some lines: that of the last FILE line. */
  function FileAt(tx: Text, file: string, lines: seq<string>): string
    decreases |lines|
  {
    if lines == [] then file
    else FileAt(tx, if KindOf(lines[0]) == FileLine then tx.fileName(Rest(lines[0], 4)) else file, lines[1..])
  }

  /** The start of a track that goes on over some lines: that of the last INDEX line. */
  function StartAt(tx: Text, start: int, lines: seq<string>): int
    decreases |lines|
  {
    if lines == [] then start
    else StartAt(tx, if KindOf(lines[0]) == IndexLine then tx.time(lines[0]) else start, lines[1..])
  }

  lemma {:induction false} FeedAllAppend(tx: Text, s: Sheet, a: seq<string>, b: seq<string>)
    ensures FeedAll(tx, s, a + b) ==
      if FeedAll(tx, s, a).stopped.Read? then FeedAll(tx, FeedAll(tx, s, a).sheet, b) else FeedAll(tx, s, a)
    decreases |a|
  {
    if a == [] {
      assert a + b == b;
    } else {
      assert (a + b)[0] == a[0] && (a + b)[1..] == a[1..] + b;
      if Feed(tx, s, a[0]).Read? {
        FeedAllAppend(tx, Feed(tx, s, a[0]).sheet, a[1..], b);
      }
    }
  }

  /** There is a track for each TRACK line, and a file for each FILE line. */
  lemma {:induction false} CountsLines(tx: Text, s: Sheet, lines: seq<string>)
    requires FeedAll(tx, s, lines).stopped.Read?
    ensures var n := FeedAll(tx, s, lines).sheet;
      && |n.tracks| == |s.tracks| + Count(lines, TrackLine)
      && n.files == s.files + Count(lines, FileLine)
      && n.file == FileAt(tx, s.file, lines)
    decreases |lines|
  {
    if lines != [] {
      CountsLines(tx, Feed(tx, s, lines[0]).sheet, lines[1..]);
      FeedCounts(tx, KindOf(lines[0]), s, lines[0]);
    }
  }

  lemma FeedCounts(tx: Text, kind: Kind, s: Sheet, line: string)
    requires FeedAs(tx, kind, s, line).Read?
    ensures var n := FeedAs(tx, kind, s, line).sheet;
      && |n.tracks| == |s.tracks| + (if kind == TrackLine then 1 else 0)
      && n.files == s.files + (if kind == FileLine then 1 else 0)
      && n.file == if kind == FileLine then tx.fileName(Rest(line, 4)) else s.file
  {
  }

  /** A line leaves the file of every track, and the start of every track but the last, alone. */
  lemma FeedKeepsTrack(tx: Text, kind: Kind, s: Sheet, line: string, k: nat)
    requires FeedAs(tx, kind, s, line).Read? && k < |s.tracks|
    ensures var n := FeedAs(tx, kind, s, line).sheet;
      && k < |n.tracks|
      && n.tracks[k].file == s.tracks[k].file
      && n.tracks[k].start == if kind == IndexLine && k == |s.tracks| - 1 then tx.time(line) else s.tracks[k].start
  {
  }

  /** While no TRACK line comes, the last track's start follows the INDEX lines. */
  lemma {:induction false} LastTrackStart(tx: Text, s: Sheet, lines: seq<string>)
    requires s.tracks != [] && Count(lines, TrackLine) == 0 && FeedAll(tx, s, lines).stopped.Read?
    ensures var n := FeedAll(tx, s, lines).sheet;
      |n.tracks| == |s.tracks| && Last(n).file == Last(s).file && Last(n).start == StartAt(tx, Last(s).start, lines)
    decreases |lines|
  {
    if lines != [] {
      var n := Feed(tx, s, lines[0]).sheet;
      FeedCounts(tx, KindOf(lines[0]), s, lines[0]);
      FeedKeepsTrack(tx, KindOf(lines[0]), s, lines[0], |s.tracks| - 1);
      LastTrackStart(tx, n, lines[1..]);
    }
  }

  /** Once another track follows, a track's file and start stay. */
  lemma {:induction false} EarlierTrackStays(tx: Text, s: Sheet, lines: seq<string>, k: nat)
    requires k < |s.tracks| && FeedAll(tx, s, lines).stopped.Read?
    requires k < |s.tracks| - 1 || lines == [] || KindOf(lines[0]) == TrackLine
    ensures var n := FeedAll(tx, s, lines).sheet;
      k < |n.tracks| && n.tracks[k].file == s.tracks[k].file && n.tracks[k].start == s.tracks[k].start
    decreases |lines|
  {
    if lines != [] {
      FeedKeepsTrack(tx, KindOf(lines[0]), s, lines[0], k);
      FeedCounts(tx, KindOf(lines[0]), s, lines[0]);
      EarlierTrackStays(tx, Feed(tx, s, lines[0]).sheet, lines[1..], k);
    }
  }

  /** Lines `b` without a TRACK line, and then lines `c` that are none or begin with one. */
  lemma {:induction false} TrackAfter(tx: Text, u: Sheet, b: seq<string>, c: seq<string>)
    requires u.tracks != [] && Count(b, TrackLine) == 0 && (c == [] || KindOf(c[0]) == TrackLine)
    requires FeedAll(tx, u, b + c).stopped.Read?
    ensures var n := FeedAll(tx, u, b + c).sheet; var k := |u.tracks| - 1;
      k < |n.tracks| && n.tracks[k].file == Last(u).file && n.tracks[k].start == StartAt(tx, Last(u).start, b)
  {
    FeedAllAppend(tx, u, b, c);
    LastTrackStart(tx, u, b);
    EarlierTrackStays(tx, FeedAll(tx, u, b).sheet, c, |u.tracks| - 1);
  }

  /** In a sheet that is read to its end, each TRACK line gives the track at its place: it is in the
      file of the last FILE line before it, and starts where the last INDEX line before the next TRACK
      line says. */
  lemma {:induction false} TrackFromLines(tx: Text, a: seq<string>, t: string, b: seq<string>, c: seq<string>)
    requires KindOf(t) == TrackLine && Count(b, TrackLine) == 0 && (c == [] || KindOf(c[0]) == TrackLine)
    requires FeedAll(tx, EMPTY, a + ([t] + (b + c))).stopped.Read?
    ensures var n := FeedAll(tx, EMPTY, a + ([t] + (b + c))).sheet; var k := Count(a, TrackLine);
      && k < |n.tracks|
      && n.tracks[k].file == FileAt(tx, "", a)
      && n.tracks[k].start == StartAt(tx, 0, b)
  {
    var after := [t] + (b + c);
    FeedAllAppend(tx, EMPTY, a, after);
    CountsLines(tx, EMPTY, a);
    var s := FeedAll(tx, EMPTY, a).sheet;
    var u := FeedTrack(tx, s, t);
    assert after[0] == t && after[1..] == b + c && Feed(tx, s, t) == Read(u);
    assert FeedAll(tx, s, after) == FeedAll(tx, u, b + c);
    assert |u.tracks| == |s.tracks| + 1 && Last(u).file == s.file && Last(u).start == 0;
    TrackAfter(tx, u, b, c);
  }

  // ----- Renaming a file -----

  function Renamed(ts: seq<Track>, from: string, to: string): (r: seq<Track>)
    ensures |r| == |ts|
    ensures forall i :: 0 <= i < |ts| ==> r[i] == if ts[i].file == from then ts[i].(file := to) else ts[i]
  {
    if ts == [] then [] else [if ts[0].file == from then ts[0].(file := to) else ts[0]] + Renamed(ts[1..], from, to)
  }

  predicate Meet(t: Track, u: Track, from: string, to: string) {
    from != to && ((t.file == from && u.file == to) || (t.file == to && u.file == from))
  }

  /** Renaming a file keeps the tracks chained exactly when it does not join neighbours from different
      files of which the second starts later than 0. */
  lemma RenameKeepsChainIff(ts: seq<Track>, from: string, to: string)
    requires Chained(ts)
    ensures Chained(Renamed(ts, from, to)) <==>
      forall i :: 0 <= i < |ts| - 1 && Meet(ts[i], ts[i + 1], from, to) ==> ts[i + 1].start == 0
  {
    var r := Renamed(ts, from, to);
    if Chained(r) {
      forall i | 0 <= i < |ts| - 1 && Meet(ts[i], ts[i + 1], from, to) ensures ts[i + 1].start == 0 {
        assert r[i].file == r[i + 1].file && r[i].end == ts[i].end && r[i + 1].start == ts[i + 1].start;
      }
    }
    if forall i :: 0 <= i < |ts| - 1 && Meet(ts[i], ts[i + 1], from, to) ==> ts[i + 1].start == 0 {
      forall i | 0 <= i < |r| - 1
        ensures r[i].end == if r[i].file == r[i + 1].file then r[i + 1].start else 0
      {
        assert r[i].end == ts[i].end && r[i + 1].start == ts[i + 1].start;
      }
    }
  }
}
