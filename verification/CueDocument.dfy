/** The cue reader and document, which read a sheet line by line and update their fields. */
module CueDocument {
  import opened CueSheet
  import opened CueChain
  import CueLetters

  class BufferReader {
    const data: string
    var pos: nat

    ghost predicate Valid()
      reads this
    {
      pos <= |data|
    }

    /** The lines still to be read. */
    ghost function Ahead(): seq<string>
      reads this
      requires Valid()
    {
      Lines(data[pos..])
    }

    constructor (content: string)
      ensures Valid() && data == content && Ahead() == Lines(content)
    {
      data, pos := content, 0;
    }

    predicate Opened() {
      |data| > 0
    }

    /** Reads the next line that is not blank. */
    method ReadLine() returns (ok: bool, line: string)
      requires Valid()
      modifies this`pos
      ensures Valid()
      ensures ok <==> old(Ahead()) != []
      ensures ok ==> [line] + Ahead() == old(Ahead())
      ensures !ok ==> line == "" && pos == |data|
    {
      line := "";
      while pos < |data|
        invariant Valid()
        invariant LinesAfter(line, data[pos..]) == old(Ahead())
      {
        var ch := data[pos];
        assert data[pos..][0] == ch && data[pos..][1..] == data[pos + 1..];
        pos := pos + 1;
        if IsBreak(ch) {
          line := Trim(line);
          if line != "" {
            return true, line;
          }
        } else {
          line := line + [ch];
        }
      }
      line := Trim(line);
      ok := line != "";
      assert data[pos..] == "";
    }
  }

  class CueDocument {
    var artist: string
    var album: string
    var genre: string
    var year: int
    var disc: int
    var gain: string
    var peak: string
    var oneFilePerTrack: bool
    var tracks: seq<Track>

    /** The fields hold what has been read of `s`. */
    ghost predicate Holds(s: Sheet)
      reads this
    {
      && artist == s.artist && album == s.album && genre == s.genre && year == s.year && disc == s.disc
      && gain == s.gain && peak == s.peak && tracks == s.tracks
    }

    constructor ()
      ensures Holds(EMPTY) && !oneFilePerTrack
    {
      artist, album, genre, year, disc, gain, peak, oneFilePerTrack, tracks := "", "", "", 0, 0, "", "", false, [];
    }

    /** `oneFilePerTrack` stays as an earlier sheet left it. */
    method Clear()
      modifies this
      ensures Holds(EMPTY) && oneFilePerTrack == old(oneFilePerTrack)
    {
      artist, album, genre, year, disc, gain, peak, tracks := "", "", "", 0, 0, "", "", [];
    }

    /** Reads a sheet. It throws when a replay gain line ends right after its keyword, and otherwise
        tells whether there are tracks; a sheet with an error leaves the tracks read before it. */
    method Parse(tx: Text, reader: BufferReader) returns (ok: bool, thrown: bool)
      requires reader.Valid()
      modifies this, reader`pos
      ensures var o := FeedAll(tx, EMPTY, old(reader.Ahead()));
        if !reader.Opened() then !ok && !thrown && Holds(EMPTY) && oneFilePerTrack == old(oneFilePerTrack)
        else if o.stopped.Read? then
          && !thrown
          && Holds(Closed(o.sheet))
          && ok == (o.sheet.tracks != [])
          && oneFilePerTrack == (old(oneFilePerTrack) || |o.sheet.tracks| == o.sheet.files)
        else !ok && thrown == o.stopped.Thrown? && Holds(o.sheet) && oneFilePerTrack == old(oneFilePerTrack)
    {
      Clear();
      if !reader.Opened() {
        return false, false;
      }
      var file, fileChanged, totalTracks, numberFiles := "", false, -1, -1;
      ghost var s := EMPTY;
      ghost var o := FeedAll(tx, EMPTY, reader.Ahead());
      var more, line := reader.ReadLine();
      while more
        invariant reader.Valid() && Holds(s) && Counters(s, file, fileChanged, totalTracks, numberFiles)
        invariant oneFilePerTrack == old(oneFilePerTrack)
        invariant o == FeedAll(tx, s, if more then [line] + reader.Ahead() else [])
        decreases if more then 1 + |reader.Ahead()| else 0
      {
        assert ([line] + reader.Ahead())[1..] == reader.Ahead();
        ghost var fed := Feed(tx, s, line);
        var stop, late;
        stop, late, file, fileChanged, totalTracks, numberFiles :=
          ParseLine(tx, s, KindOf(line), line, file, fileChanged, totalTracks, numberFiles);
        if stop {
          return false, late;
        }
        s := fed.sheet;
        more, line := reader.ReadLine();
      }
      if totalTracks >= 0 {
        tracks := tracks[totalTracks := tracks[totalTracks].(end := 0)];
      }
      if totalTracks == numberFiles {
        oneFilePerTrack := true;
      }
      return totalTracks >= 0, false;
    }

    /** Reads a sheet from a tag. The tracks are as the lines say by their letters, and chain exactly under the
        condition on the lines. */
    method ParseTag(tx: Text, content: string) returns (ok: bool, thrown: bool)
      modifies this
      ensures ok <==> content != "" && FeedAll(tx, EMPTY, Lines(content)).stopped.Read? && tracks != []
      ensures ok ==> Holds(Closed(FeedAll(tx, EMPTY, Lines(content)).sheet))
      ensures ok ==> (Chained(tracks) <==> LinesMeet(tx, Lines(content), 0)) && tracks[|tracks| - 1].end == 0
      ensures ok && WellNamed(tx, Lines(content)) ==> Chained(tracks)
      ensures ok ==> CueLetters.TracksSay(tx, Lines(content), tracks)
    {
      var reader := new BufferReader(content);
      ok, thrown := Parse(tx, reader);
      if ok {
        ChainsIff(tx, Lines(content));
        CueLetters.SheetByLetters(tx, Lines(content));
        if WellNamed(tx, Lines(content)) { SheetChains(tx, Lines(content)); }
      }
    }

    ghost predicate Counters(s: Sheet, file: string, fileChanged: bool, totalTracks: int, numberFiles: int) {
      && file == s.file && fileChanged == s.fileChanged
      && totalTracks == |s.tracks| - 1 && numberFiles == s.files - 1
    }

    /** One turn of the loop: what the line does to the fields and to the loop's variables, or that it
        ends the reading. */
    method ParseLine(tx: Text, ghost s: Sheet, kind: Kind, line: string,
                     file0: string, changed0: bool, tracks0: int, files0: int)
      returns (stop: bool, thrown: bool, file: string, fileChanged: bool, totalTracks: int, numberFiles: int)
      requires Holds(s) && Counters(s, file0, changed0, tracks0, files0)
      modifies this
      ensures oneFilePerTrack == old(oneFilePerTrack)
      ensures match FeedAs(tx, kind, s, line)
        case Read(n) => !stop && Holds(n) && Counters(n, file, fileChanged, totalTracks, numberFiles)
        case Refused => stop && !thrown && Holds(s)
        case Thrown => stop && thrown && Holds(s)
    {
      stop, thrown, file, fileChanged, totalTracks, numberFiles := false, false, file0, changed0, tracks0, files0;
      match kind
      case IndexLine =>
        stop := ParseIndex(tx, s, line, file, fileChanged, totalTracks);
      case TitleLine =>
        if totalTracks == -1 {
          album := tx.info(Rest(line, 5));
        } else {
          tracks := tracks[totalTracks := tracks[totalTracks].(title := tx.info(Rest(line, 5)))];
        }
      case PerformerLine =>
        if totalTracks == -1 {
          artist := tx.info(Rest(line, 9));
        } else {
          tracks := tracks[totalTracks := tracks[totalTracks].(artist := tx.info(Rest(line, 9)))];
        }
      case TrackLine =>
        var n := tx.number(Rest(line, 5));
        totalTracks := totalTracks + 1;
        tracks := tracks + [Track("", "", file, if n > 0 then n else totalTracks + 1, 0, 0, "", "")];
        fileChanged := false;
      case DiscLine =>
        var n := tx.number(Rest(line, 14));
        if n > 0 {
          disc := n;
        }
      case FileLine =>
        numberFiles := numberFiles + 1;
        if file != "" {
          fileChanged := true;
        }
        file := tx.fileName(Rest(line, 4));
      case DateLine =>
        var n := tx.number(Rest(line, 8));
        if n > 0 {
          year := n;
        }
      case GenreLine =>
        genre := tx.info(Rest(line, 9));
      case _ =>
        stop := ParseGain(tx, s, kind, line, totalTracks);
        thrown := stop;
    }

    /** An "INDEX 01" line. */
    method ParseIndex(tx: Text, ghost s: Sheet, line: string, file: string, fileChanged: bool, totalTracks: int)
      returns (stop: bool)
      requires Holds(s) && file == s.file && fileChanged == s.fileChanged && totalTracks == |s.tracks| - 1
      modifies this`tracks
      ensures match FeedIndex(tx, s, line)
        case Read(n) => !stop && Holds(n) && Counters(n, file, fileChanged, totalTracks, s.files - 1)
        case _ => stop && Holds(s)
    {
      if fileChanged {
        return true;
      }
      var time := tx.time(line);
      if time == -1 {
        return true;
      }
      if totalTracks > 0 && tracks[totalTracks - 1].file == file {
        tracks := tracks[totalTracks - 1 := tracks[totalTracks - 1].(end := time)];
      }
      if totalTracks >= 0 {
        tracks := tracks[totalTracks := tracks[totalTracks].(start := time)];
      }
      return false;
    }

    /** A replay gain line, or one that says nothing to the parser. */
    method ParseGain(tx: Text, ghost s: Sheet, kind: Kind, line: string, totalTracks: int) returns (stop: bool)
      requires kind in {AlbumGain, AlbumPeak, TrackGain, TrackPeak, OtherLine}
      requires Holds(s) && totalTracks == |s.tracks| - 1
      modifies this`gain, this`peak, this`tracks
      ensures match FeedAs(tx, kind, s, line)
        case Read(n) =>
          !stop && Holds(n) && Counters(n, s.file, s.fileChanged, totalTracks, s.files - 1)
        case Refused => false
        case Thrown => stop && Holds(s)
    {
      if kind == OtherLine || (kind in {TrackGain, TrackPeak} && totalTracks < 0) {
        return false;
      }
      if |line| < 26 {
        return true;
      }
      stop := false;
      if kind == AlbumGain {
        gain := Rest(line, 26);
      } else if kind == AlbumPeak {
        peak := Rest(line, 26);
      } else if kind == TrackGain {
        tracks := tracks[totalTracks := tracks[totalTracks].(gain := Rest(line, 26))];
      } else {
        tracks := tracks[totalTracks := tracks[totalTracks].(peak := Rest(line, 26))];
      }
    }

    /** Renames a file in every track that is in it. */
    method UpdateMediaFile(from: string, to: string)
      modifies this`tracks
      ensures tracks == Renamed(old(tracks), from, to)
    {
      ghost var was, goal := tracks, Renamed(tracks, from, to);
      for i := 0 to |tracks|
        invariant |tracks| == |was|
        invariant forall k :: 0 <= k < |was| ==> tracks[k] == if k < i then goal[k] else was[k]
      {
        if tracks[i].file == from {
          tracks := tracks[i := tracks[i].(file := to)];
        }
      }
    }
  }
}
