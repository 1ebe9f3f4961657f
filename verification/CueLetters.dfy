/** What the lines of a cue sheet do, in terms of the letters they begin with. */
module CueLetters {
  import opened CueSheet
  import opened CueChain

  // ----- Beginnings -----

  /** The character is the letter, in upper or lower case, or any other character as it is. */
  predicate IsLetter(c: char, w: char) {
    c == w || ('A' <= w <= 'Z' && c as int == w as int + 32)
  }

  /** The line begins with the word, in any case. */
  predicate Begins(line: string, word: string) {
    |word| <= |line| && forall i :: 0 <= i < |word| ==> IsLetter(line[i], word[i])
  }

  predicate Capital(word: string) {
    forall i :: 0 <= i < |word| ==> !('a' <= word[i] <= 'z')
  }

  lemma {:induction false} StartsIffBegins(line: string, word: string)
    requires Capital(word)
    ensures StartsWith(line, word) <==> Begins(line, word)
    decreases |line|
  {
    if word != "" && line != "" {
      StartsIffBegins(line[1..], word[1..]);
      assert Begins(line, word) ==> Begins(line[1..], word[1..]) by {
        if Begins(line, word) {
          forall i | 0 <= i < |word| - 1 ensures IsLetter(line[1..][i], word[1..][i]) { assert IsLetter(line[i + 1], word[i + 1]); }
        }
      }
      assert Begins(line[1..], word[1..]) && IsLetter(line[0], word[0]) ==> Begins(line, word) by {
        if Begins(line[1..], word[1..]) && IsLetter(line[0], word[0]) {
          forall i | 0 <= i < |word| ensures IsLetter(line[i], word[i]) {
            if i > 0 { assert IsLetter(line[1..][i - 1], word[1..][i - 1]); }
          }
        }
      }
    }
  }

  lemma IndexWord(line: string)
    ensures StartsWith(line, "INDEX 01") <==> Begins(line, "INDEX 01")
    ensures Begins(line, "INDEX 01") ==> |line| >= 8 && IsLetter(line[0], 'I')
  {
    var word := "INDEX 01";
    StartsIffBegins(line, word);
  }

  lemma TitleWord(line: string)
    ensures StartsWith(line, "TITLE") <==> Begins(line, "TITLE")
    ensures Begins(line, "TITLE") ==> |line| >= 5 && IsLetter(line[0], 'T') && IsLetter(line[1], 'I')
  {
    var word := "TITLE";
    StartsIffBegins(line, word);
  }

  lemma PerformerWord(line: string)
    ensures StartsWith(line, "PERFORMER") <==> Begins(line, "PERFORMER")
    ensures Begins(line, "PERFORMER") ==> |line| >= 9 && IsLetter(line[0], 'P')
  {
    var word := "PERFORMER";
    StartsIffBegins(line, word);
  }

  lemma TrackWord(line: string)
    ensures StartsWith(line, "TRACK") <==> Begins(line, "TRACK")
    ensures Begins(line, "TRACK") ==> |line| >= 5 && IsLetter(line[0], 'T') && IsLetter(line[1], 'R')
  {
    var word := "TRACK";
    StartsIffBegins(line, word);
  }

  lemma DiscWord(line: string)
    ensures StartsWith(line, "REM DISCNUMBER") <==> Begins(line, "REM DISCNUMBER")
    ensures Begins(line, "REM DISCNUMBER") ==> |line| >= 14 && IsLetter(line[0], 'R') && IsLetter(line[4], 'D') && IsLetter(line[5], 'I')
  {
    var word := "REM DISCNUMBER";
    StartsIffBegins(line, word);
    assert word[0] == 'R' && word[4] == 'D' && word[5] == 'I';
  }

  lemma FileWord(line: string)
    ensures StartsWith(line, "FILE") <==> Begins(line, "FILE")
    ensures Begins(line, "FILE") ==> |line| >= 4 && IsLetter(line[0], 'F')
  {
    var word := "FILE";
    StartsIffBegins(line, word);
  }

  lemma DateWord(line: string)
    ensures StartsWith(line, "REM DATE") <==> Begins(line, "REM DATE")
    ensures Begins(line, "REM DATE") ==> |line| >= 8 && IsLetter(line[0], 'R') && IsLetter(line[4], 'D') && IsLetter(line[5], 'A')
  {
    var word := "REM DATE";
    StartsIffBegins(line, word);
    assert word[0] == 'R' && word[4] == 'D' && word[5] == 'A';
  }

  lemma GenreWord(line: string)
    ensures StartsWith(line, "REM GENRE") <==> Begins(line, "REM GENRE")
    ensures Begins(line, "REM GENRE") ==> |line| >= 9 && IsLetter(line[0], 'R') && IsLetter(line[4], 'G')
  {
    var word := "REM GENRE";
    StartsIffBegins(line, word);
    assert word[0] == 'R' && word[4] == 'G';
  }

  lemma AlbumGainWord(line: string)
    ensures StartsWith(line, "REM REPLAYGAIN_ALBUM_GAIN") <==> Begins(line, "REM REPLAYGAIN_ALBUM_GAIN")
    ensures Begins(line, "REM REPLAYGAIN_ALBUM_GAIN") ==> |line| >= 25 && IsLetter(line[0], 'R') && IsLetter(line[4], 'R') && IsLetter(line[15], 'A') && IsLetter(line[21], 'G')
  {
    var word := "REM REPLAYGAIN_ALBUM_GAIN";
    StartsIffBegins(line, word);
    assert word[0] == 'R' && word[4] == 'R' && word[15] == 'A' && word[21] == 'G';
  }

  lemma AlbumPeakWord(line: string)
    ensures StartsWith(line, "REM REPLAYGAIN_ALBUM_PEAK") <==> Begins(line, "REM REPLAYGAIN_ALBUM_PEAK")
    ensures Begins(line, "REM REPLAYGAIN_ALBUM_PEAK") ==> |line| >= 25 && IsLetter(line[0], 'R') && IsLetter(line[4], 'R') && IsLetter(line[15], 'A') && IsLetter(line[21], 'P')
  {
    var word := "REM REPLAYGAIN_ALBUM_PEAK";
    StartsIffBegins(line, word);
    assert word[0] == 'R' && word[4] == 'R' && word[15] == 'A' && word[21] == 'P';
  }

  lemma TrackGainWord(line: string)
    ensures StartsWith(line, "REM REPLAYGAIN_TRACK_GAIN") <==> Begins(line, "REM REPLAYGAIN_TRACK_GAIN")
    ensures Begins(line, "REM REPLAYGAIN_TRACK_GAIN") ==> |line| >= 25 && IsLetter(line[0], 'R') && IsLetter(line[4], 'R') && IsLetter(line[15], 'T') && IsLetter(line[21], 'G')
  {
    var word := "REM REPLAYGAIN_TRACK_GAIN";
    StartsIffBegins(line, word);
    assert word[0] == 'R' && word[4] == 'R' && word[15] == 'T' && word[21] == 'G';
  }

  lemma TrackPeakWord(line: string)
    ensures StartsWith(line, "REM REPLAYGAIN_TRACK_PEAK") <==> Begins(line, "REM REPLAYGAIN_TRACK_PEAK")
    ensures Begins(line, "REM REPLAYGAIN_TRACK_PEAK") ==> |line| >= 25 && IsLetter(line[0], 'R') && IsLetter(line[4], 'R') && IsLetter(line[15], 'T') && IsLetter(line[21], 'P')
  {
    var word := "REM REPLAYGAIN_TRACK_PEAK";
    StartsIffBegins(line, word);
    assert word[0] == 'R' && word[4] == 'R' && word[15] == 'T' && word[21] == 'P';
  }

  /** A line that begins with an R begins with no word that does not. */
  lemma RemLetters(line: string)
    requires line != "" && IsLetter(line[0], 'R')
    ensures KindOf(line) !in {IndexLine, TitleLine, PerformerLine, TrackLine, FileLine}
  {
  }

  lemma IndexKind(line: string)
    ensures KindOf(line) == IndexLine <==> Begins(line, "INDEX 01")
  {
    IndexWord(line);
  }

  lemma TitleKind(line: string)
    ensures KindOf(line) == TitleLine <==> Begins(line, "TITLE")
  {
    IndexWord(line);
    TitleWord(line);
  }

  lemma PerformerKind(line: string)
    ensures KindOf(line) == PerformerLine <==> Begins(line, "PERFORMER")
  {
    IndexWord(line);
    TitleWord(line);
    PerformerWord(line);
  }

  lemma TrackKind(line: string)
    ensures KindOf(line) == TrackLine <==> Begins(line, "TRACK")
  {
    IndexWord(line);
    TitleWord(line);
    PerformerWord(line);
    TrackWord(line);
  }

  lemma DiscKind(line: string)
    ensures KindOf(line) == DiscLine <==> Begins(line, "REM DISCNUMBER")
  {
    DiscWord(line);
    if Begins(line, "REM DISCNUMBER") { RemLetters(line); }
  }

  lemma FileKind(line: string)
    ensures KindOf(line) == FileLine <==> Begins(line, "FILE")
  {
    IndexWord(line);
    TitleWord(line);
    PerformerWord(line);
    TrackWord(line);
    DiscWord(line);
    FileWord(line);
  }

  lemma DateKind(line: string)
    ensures KindOf(line) == DateLine <==> Begins(line, "REM DATE")
  {
    DiscWord(line);
    DateWord(line);
    if Begins(line, "REM DATE") { RemLetters(line); }
  }

  lemma GenreKind(line: string)
    ensures KindOf(line) == GenreLine <==> Begins(line, "REM GENRE")
  {
    DiscWord(line);
    DateWord(line);
    GenreWord(line);
    if Begins(line, "REM GENRE") { RemLetters(line); }
  }

  /** A line that begins like the words for replay gain begins with none of the others. */
  lemma GainLetters(line: string)
    requires |line| > 4 && IsLetter(line[0], 'R') && IsLetter(line[4], 'R')
    ensures KindOf(line) in {AlbumGain, AlbumPeak, TrackGain, TrackPeak, OtherLine}
  {
    RemLetters(line);
    DiscWord(line);
    DateWord(line);
    GenreWord(line);
  }

  /** What the tests for replay gain say, by themselves. */
  lemma GainTests(line: string)
    ensures KindOf(line) == AlbumGain ==> StartsWith(line, "REM REPLAYGAIN_ALBUM_GAIN")
    ensures KindOf(line) in {AlbumPeak, TrackGain, TrackPeak, OtherLine} ==> !StartsWith(line, "REM REPLAYGAIN_ALBUM_GAIN")
    ensures KindOf(line) == AlbumPeak ==> StartsWith(line, "REM REPLAYGAIN_ALBUM_PEAK")
    ensures KindOf(line) in {TrackGain, TrackPeak, OtherLine} ==> !StartsWith(line, "REM REPLAYGAIN_ALBUM_PEAK")
    ensures KindOf(line) == TrackGain ==> StartsWith(line, "REM REPLAYGAIN_TRACK_GAIN")
    ensures KindOf(line) in {TrackPeak, OtherLine} ==> !StartsWith(line, "REM REPLAYGAIN_TRACK_GAIN")
    ensures KindOf(line) == TrackPeak ==> StartsWith(line, "REM REPLAYGAIN_TRACK_PEAK")
    ensures KindOf(line) == OtherLine ==> !StartsWith(line, "REM REPLAYGAIN_TRACK_PEAK")
  {
  }

  lemma GainKinds(line: string)
    ensures KindOf(line) == AlbumGain <==> Begins(line, "REM REPLAYGAIN_ALBUM_GAIN")
    ensures KindOf(line) == AlbumPeak <==> Begins(line, "REM REPLAYGAIN_ALBUM_PEAK")
    ensures KindOf(line) == TrackGain <==> Begins(line, "REM REPLAYGAIN_TRACK_GAIN")
    ensures KindOf(line) == TrackPeak <==> Begins(line, "REM REPLAYGAIN_TRACK_PEAK")
  {
    GainTests(line);
    AlbumGainWord(line);
    AlbumPeakWord(line);
    TrackGainWord(line);
    TrackPeakWord(line);
    if |line| > 4 && IsLetter(line[0], 'R') && IsLetter(line[4], 'R') { GainLetters(line); }
  }

  // ----- One line -----

  function After(line: string, n: nat): string {
    if n <= |line| then line[n..] else ""
  }

  /** What one line does to the last track; `track` is that it begins one. */
  lemma LastTrackAs(tx: Text, kind: Kind, s: Sheet, line: string)
    requires FeedAs(tx, kind, s, line).Read? && kind != TrackLine && s.tracks != []
    ensures var n := FeedAs(tx, kind, s, line).sheet; var t, u := Last(s), n.tracks[|s.tracks| - 1];
      && |n.tracks| == |s.tracks| && n.album == s.album && n.artist == s.artist && u.file == t.file && u.number == t.number
      && u.start == (if kind == IndexLine then tx.time(line) else t.start)
      && u.title == (if kind == TitleLine then tx.info(After(line, 5)) else t.title)
      && u.artist == (if kind == PerformerLine then tx.info(After(line, 9)) else t.artist)
  {
    RestIsAfter(line);
  }

  lemma RestIsAfter(line: string)
    ensures forall n: nat :: Rest(line, n) == After(line, n)
  {
  }

  lemma NewTrackAs(tx: Text, s: Sheet, line: string)
    ensures var n := FeedAs(tx, TrackLine, s, line).sheet; var number := tx.number(After(line, 5));
      && n.tracks == s.tracks + [Track("", "", s.file, if number > 0 then number else |s.tracks| + 1, 0, 0, "", "")]
      && n.album == s.album && n.artist == s.artist
  {
    RestIsAfter(line);
  }

  /** The other tracks keep all that lines tell of them. */
  lemma OtherTracksAs(tx: Text, kind: Kind, s: Sheet, line: string, k: nat)
    requires FeedAs(tx, kind, s, line).Read? && k < |s.tracks| && (kind != TrackLine ==> k < |s.tracks| - 1)
    ensures var n := FeedAs(tx, kind, s, line).sheet;
      k < |n.tracks| && n.tracks[k] == s.tracks[k].(end := n.tracks[k].end)
  {
  }

  /** What lines tell of the album, before the first track. */
  lemma AlbumAs(tx: Text, kind: Kind, s: Sheet, line: string)
    requires FeedAs(tx, kind, s, line).Read? && kind != TrackLine && s.tracks == []
    ensures var n := FeedAs(tx, kind, s, line).sheet;
      && n.tracks == []
      && n.album == (if kind == TitleLine then tx.info(After(line, 5)) else s.album)
      && n.artist == (if kind == PerformerLine then tx.info(After(line, 9)) else s.artist)
  {
    RestIsAfter(line);
  }

  lemma FileAs(tx: Text, kind: Kind, s: Sheet, line: string)
    requires FeedAs(tx, kind, s, line).Read?
    ensures FeedAs(tx, kind, s, line).sheet.file == if kind == FileLine then tx.fileName(After(line, 4)) else s.file
  {
    RestIsAfter(line);
  }

  /** What lines tell of the rest of the sheet. */
  lemma RestAs(tx: Text, kind: Kind, s: Sheet, line: string)
    requires FeedAs(tx, kind, s, line).Read?
    ensures var n := FeedAs(tx, kind, s, line).sheet;
      && n.genre == (if kind == GenreLine then tx.info(After(line, 9)) else s.genre)
      && n.disc == (if kind == DiscLine && tx.number(After(line, 14)) > 0 then tx.number(After(line, 14)) else s.disc)
      && n.year == (if kind == DateLine && tx.number(After(line, 8)) > 0 then tx.number(After(line, 8)) else s.year)
      && n.gain == (if kind == AlbumGain then line[26..] else s.gain)
      && n.peak == (if kind == AlbumPeak then line[26..] else s.peak)
      && n.files == s.files + (if kind == FileLine then 1 else 0)
      && n.fileChanged == (kind != TrackLine && (s.fileChanged || (kind == FileLine && s.file != "")))
  {
    RestIsAfter(line);
  }

  /** Genre, disc, year and replay gain come from the lines that begin with these words. */
  lemma RestByLetters(tx: Text, s: Sheet, line: string, n: Sheet)
    requires Feed(tx, s, line) == Read(n)
    ensures n.genre == if Begins(line, "REM GENRE") then tx.info(After(line, 9)) else s.genre
    ensures n.disc == if Begins(line, "REM DISCNUMBER") && tx.number(After(line, 14)) > 0 then tx.number(After(line, 14)) else s.disc
    ensures n.year == if Begins(line, "REM DATE") && tx.number(After(line, 8)) > 0 then tx.number(After(line, 8)) else s.year
    ensures n.gain == if Begins(line, "REM REPLAYGAIN_ALBUM_GAIN") then After(line, 26) else s.gain
    ensures n.peak == if Begins(line, "REM REPLAYGAIN_ALBUM_PEAK") then After(line, 26) else s.peak
  {
    RestAs(tx, KindOf(line), s, line);
    GenreKind(line);
    DiscKind(line);
    DateKind(line);
    GainKinds(line);
  }

  /** A sheet counts the FILE lines; once a file is named, another one makes it change until the next TRACK line. */
  lemma FilesByLetters(tx: Text, s: Sheet, line: string, n: Sheet)
    requires Feed(tx, s, line) == Read(n)
    ensures n.files == s.files + if Begins(line, "FILE") then 1 else 0
    ensures n.fileChanged <==> !Begins(line, "TRACK") && (s.fileChanged || (Begins(line, "FILE") && s.file != ""))
  {
    RestAs(tx, KindOf(line), s, line);
    FileKind(line);
    TrackKind(line);
  }

  lemma GainAs(tx: Text, kind: Kind, s: Sheet, line: string)
    requires FeedAs(tx, kind, s, line).Read? && kind != TrackLine && s.tracks != []
    ensures var n := FeedAs(tx, kind, s, line).sheet; var t, u := Last(s), n.tracks[|s.tracks| - 1];
      && u.gain == (if kind == TrackGain then After(line, 26) else t.gain)
      && u.peak == (if kind == TrackPeak then After(line, 26) else t.peak)
      && u.end == t.end
      && (|s.tracks| > 1 ==>
            n.tracks[|s.tracks| - 2].end ==
              if kind == IndexLine && Before(s).file == s.file then tx.time(line) else Before(s).end)
  {
  }

  /** The end of the track before the last is the time of an INDEX 01 line where that track is in the current
      file; the last track's replay gain is that of its own lines. */
  lemma EndByLetters(tx: Text, s: Sheet, line: string, n: Sheet)
    requires Feed(tx, s, line) == Read(n) && s.tracks != [] && !Begins(line, "TRACK")
    ensures |n.tracks| == |s.tracks|
    ensures |s.tracks| > 1 ==>
      Before(n).end == if Begins(line, "INDEX 01") && Before(s).file == s.file then tx.time(line) else Before(s).end
    ensures Last(n).gain == if Begins(line, "REM REPLAYGAIN_TRACK_GAIN") then After(line, 26) else Last(s).gain
    ensures Last(n).peak == if Begins(line, "REM REPLAYGAIN_TRACK_PEAK") then After(line, 26) else Last(s).peak
  {
    TrackKind(line);
    IndexKind(line);
    GainKinds(line);
    FeedCounts(tx, KindOf(line), s, line);
    GainAs(tx, KindOf(line), s, line);
  }

  lemma StopsAs(tx: Text, kind: Kind, s: Sheet, line: string)
    ensures FeedAs(tx, kind, s, line).Refused? <==> kind == IndexLine && (s.fileChanged || tx.time(line) == -1)
    ensures FeedAs(tx, kind, s, line).Thrown? <==>
      |line| < 26 && (kind == AlbumGain || kind == AlbumPeak || (s.tracks != [] && (kind == TrackGain || kind == TrackPeak)))
  {
  }

  /** Reading stops exactly at an INDEX 01 line in a track whose file has changed, or with a mangled time; and at
      a line for replay gain, of the album or of a track, that is shorter than 26 characters. */
  lemma StopsByLetters(tx: Text, s: Sheet, line: string)
    ensures Feed(tx, s, line).Refused? <==> Begins(line, "INDEX 01") && (s.fileChanged || tx.time(line) == -1)
    ensures Feed(tx, s, line).Thrown? <==>
      |line| < 26 &&
      (Begins(line, "REM REPLAYGAIN_ALBUM_GAIN") || Begins(line, "REM REPLAYGAIN_ALBUM_PEAK") ||
       (s.tracks != [] && (Begins(line, "REM REPLAYGAIN_TRACK_GAIN") || Begins(line, "REM REPLAYGAIN_TRACK_PEAK"))))
  {
    StopsAs(tx, KindOf(line), s, line);
    IndexKind(line);
    GainKinds(line);
  }

  /** Any other INDEX line leaves the sheet as it is. */
  lemma OtherIndexIgnored(tx: Text, s: Sheet, line: string)
    requires Begins(line, "INDEX") && !Begins(line, "INDEX 01")
    ensures Feed(tx, s, line) == Read(s)
  {
    IndexKind(line);
    assert IsLetter(line[0], "INDEX"[0]);
    NoOtherWord(line);
  }

  lemma NoOtherWord(line: string)
    requires line != "" && (line[0] == 'I' || line[0] == 'i')
    ensures KindOf(line) in {IndexLine, OtherLine}
  {
  }

  // ----- Sheets -----

  ghost predicate NoneIn(lines: seq<string>, word: string, from: nat, to: nat)
    requires to <= |lines|
  {
    forall i: nat :: from <= i < to ==> !Begins(lines[i], word)
  }

  /** Line `j` is the last one between `from` and `to` that begins with the word. */
  ghost predicate LastIn(lines: seq<string>, word: string, from: nat, to: nat, j: nat)
    requires to <= |lines|
  {
    from <= j < to && Begins(lines[j], word) && NoneIn(lines, word, j + 1, to)
  }

  /** The value is what the last of these lines says, or `none` if there is none. */
  ghost predicate Says<T(!new)>(lines: seq<string>, word: string, from: nat, to: nat, none: T, what: string -> T, value: T)
    requires to <= |lines|
  {
    && (NoneIn(lines, word, from, to) ==> value == none)
    && forall j: nat :: LastIn(lines, word, from, to, j) ==> value == what(lines[j])
  }

  /** With one more line. */
  lemma SaysNext<T(!new)>(lines: seq<string>, word: string, from: nat, m: nat, none: T, what: string -> T, v: T, w: T)
    requires from <= m < |lines| && Says(lines, word, from, m, none, what, v)
    requires w == if Begins(lines[m], word) then what(lines[m]) else v
    ensures Says(lines, word, from, m + 1, none, what, w)
  {
    assert NoneIn(lines, word, from, m + 1) ==> !Begins(lines[m], word) && NoneIn(lines, word, from, m);
    forall j: nat | LastIn(lines, word, from, m + 1, j) ensures w == what(lines[j]) {
      if j < m {
        assert !Begins(lines[m], word);
        assert LastIn(lines, word, from, m, j);
      }
    }
  }

  /** The text in quotes after the word, a FILE line's file, and a TRACK line's number. */
  function InfoAfter(tx: Text, n: nat): string -> string {
    (line: string) => tx.info(After(line, n))
  }

  function FileNamed(tx: Text): string -> string {
    (line: string) => tx.fileName(After(line, 4))
  }

  function CountOf(lines: seq<string>, word: string): nat {
    if lines == [] then 0 else CountOf(lines[..|lines| - 1], word) + if Begins(lines[|lines| - 1], word) then 1 else 0
  }

  /** The words that lines begin with. */
  datatype Words = Words(track: string, file: string, index: string, title: string, performer: string)

  const KEYWORDS := Words("TRACK", "FILE", "INDEX 01", "TITLE", "PERFORMER")

  predicate KindFits(ws: Words, line: string) {
    && (KindOf(line) == TrackLine <==> Begins(line, ws.track))
    && (KindOf(line) == FileLine <==> Begins(line, ws.file))
    && (KindOf(line) == IndexLine <==> Begins(line, ws.index))
    && (KindOf(line) == TitleLine <==> Begins(line, ws.title))
    && (KindOf(line) == PerformerLine <==> Begins(line, ws.performer))
  }

  ghost predicate Fits(ws: Words) {
    forall line {:trigger KindFits(ws, line)} :: KindFits(ws, line)
  }

  lemma KeywordsFit()
    ensures Fits(KEYWORDS)
  {
    forall line ensures KindFits(KEYWORDS, line) {
      TrackKind(line);
      FileKind(line);
      IndexKind(line);
      TitleKind(line);
      PerformerKind(line);
    }
  }

  /** The sheet after the first `m` lines. */
  ghost function SheetAt(tx: Text, lines: seq<string>, m: nat): Sheet
    requires m <= |lines|
  {
    FeedAll(tx, EMPTY, lines[..m]).sheet
  }

  /** Every line of a sheet that is read to its end is read. */
  lemma {:induction false} ReadUpTo(tx: Text, lines: seq<string>, m: nat)
    requires m < |lines| && FeedAll(tx, EMPTY, lines).stopped.Read?
    ensures Feed(tx, SheetAt(tx, lines, m), lines[m]) == Read(SheetAt(tx, lines, m + 1))
  {
    var a, line, b := lines[..m], lines[m], lines[m + 1..];
    assert lines == a + ([line] + b) && ([line] + b)[1..] == b && lines[..m + 1] == a + [line] && [line][1..] == [];
    FeedAllAppend(tx, EMPTY, a, [line] + b);
    FeedAllAppend(tx, EMPTY, a, [line]);
  }

  /** What is known after the first `m` lines: the file, how many tracks there are and, before the first one,
      album and artist. */
  ghost predicate HeadSays(ws: Words, tx: Text, lines: seq<string>, m: nat)
    requires m <= |lines|
  {
    HeadOf(ws, tx, lines, m, SheetAt(tx, lines, m))
  }

  ghost predicate HeadOf(ws: Words, tx: Text, lines: seq<string>, m: nat, s: Sheet)
    requires m <= |lines|
  {
    && Says(lines, ws.file, 0, m, "", FileNamed(tx), s.file)
    && |s.tracks| == CountOf(lines[..m], ws.track)
    && (s.tracks == [] ==>
          && NoneIn(lines, ws.track, 0, m)
          && Says(lines, ws.title, 0, m, "", InfoAfter(tx, 5), s.album)
          && Says(lines, ws.performer, 0, m, "", InfoAfter(tx, 9), s.artist))
  }

  lemma {:induction false} FileNext(ws: Words, tx: Text, lines: seq<string>, m: nat)
    requires Fits(ws) && m < |lines| && FeedAll(tx, EMPTY, lines).stopped.Read?
    requires Says(lines, ws.file, 0, m, "", FileNamed(tx), SheetAt(tx, lines, m).file)
    ensures Says(lines, ws.file, 0, m + 1, "", FileNamed(tx), SheetAt(tx, lines, m + 1).file)
  {
    ReadUpTo(tx, lines, m);
    assert KindFits(ws, lines[m]);
    FileAs(tx, KindOf(lines[m]), SheetAt(tx, lines, m), lines[m]);
    SaysNext(lines, ws.file, 0, m, "", FileNamed(tx), SheetAt(tx, lines, m).file, SheetAt(tx, lines, m + 1).file);
  }

  lemma {:induction false} HeadNext(ws: Words, tx: Text, lines: seq<string>, m: nat)
    requires Fits(ws) && m < |lines| && FeedAll(tx, EMPTY, lines).stopped.Read? && HeadSays(ws, tx, lines, m)
    ensures HeadSays(ws, tx, lines, m + 1)
  {
    FileNext(ws, tx, lines, m);
    LineAt(ws, tx, lines, m);
    var n := SheetAt(tx, lines, m + 1);
    if n.tracks == [] { AlbumNext(ws, tx, lines, m); }
    HeadStep(ws, tx, lines, m, SheetAt(tx, lines, m), n);
  }

  lemma {:induction false} HeadStep(ws: Words, tx: Text, lines: seq<string>, m: nat, s: Sheet, n: Sheet)
    requires m < |lines| && HeadOf(ws, tx, lines, m, s)
    requires |n.tracks| == |s.tracks| + (if Begins(lines[m], ws.track) then 1 else 0)
    requires Says(lines, ws.file, 0, m + 1, "", FileNamed(tx), n.file)
    requires n.tracks == [] ==>
      && Says(lines, ws.title, 0, m + 1, "", InfoAfter(tx, 5), n.album)
      && Says(lines, ws.performer, 0, m + 1, "", InfoAfter(tx, 9), n.artist)
    ensures HeadOf(ws, tx, lines, m + 1, n)
  {
    OneMoreCounts(lines, ws.track, m);
    if n.tracks == [] { NoneLonger(lines, ws.track, 0, m); }
  }

  lemma OneMoreCounts(lines: seq<string>, word: string, m: nat)
    requires m < |lines|
    ensures CountOf(lines[..m + 1], word) == CountOf(lines[..m], word) + if Begins(lines[m], word) then 1 else 0
  {
    assert lines[..m + 1][..m] == lines[..m];
  }

  lemma NoneLonger(lines: seq<string>, word: string, from: nat, to: nat)
    requires from <= to < |lines| && NoneIn(lines, word, from, to) && !Begins(lines[to], word)
    ensures NoneIn(lines, word, from, to + 1)
  {
  }

  lemma {:induction false} AlbumNext(ws: Words, tx: Text, lines: seq<string>, m: nat)
    requires Fits(ws) && m < |lines| && FeedAll(tx, EMPTY, lines).stopped.Read? && HeadSays(ws, tx, lines, m)
    requires SheetAt(tx, lines, m).tracks == [] && !Begins(lines[m], ws.track)
    ensures Says(lines, ws.title, 0, m + 1, "", InfoAfter(tx, 5), SheetAt(tx, lines, m + 1).album)
    ensures Says(lines, ws.performer, 0, m + 1, "", InfoAfter(tx, 9), SheetAt(tx, lines, m + 1).artist)
  {
    var s, n, line := SheetAt(tx, lines, m), SheetAt(tx, lines, m + 1), lines[m];
    ReadUpTo(tx, lines, m);
    assert KindFits(ws, line);
    AlbumAs(tx, KindOf(line), s, line);
    SaysNext(lines, ws.title, 0, m, "", InfoAfter(tx, 5), s.album, n.album);
    SaysNext(lines, ws.performer, 0, m, "", InfoAfter(tx, 9), s.artist, n.artist);
  }

  lemma {:induction false} HeadAt(ws: Words, tx: Text, lines: seq<string>, m: nat)
    requires Fits(ws) && m <= |lines| && FeedAll(tx, EMPTY, lines).stopped.Read?
    ensures HeadSays(ws, tx, lines, m)
  {
    if m > 0 {
      HeadAt(ws, tx, lines, m - 1);
      HeadNext(ws, tx, lines, m - 1);
    } else {
      assert lines[..0] == [];
    }
  }

  /** Lines `i` to `e` tell this of track `t`: line `i` begins it. */
  ghost predicate TrackSays(ws: Words, tx: Text, lines: seq<string>, i: nat, e: nat, k: nat, t: Track)
    requires i < e <= |lines|
  {
    && Says(lines, ws.file, 0, i, "", FileNamed(tx), t.file)
    && t.number == (if tx.number(After(lines[i], 5)) > 0 then tx.number(After(lines[i], 5)) else k + 1)
    && Says(lines, ws.index, i + 1, e, 0, tx.time, t.start)
    && Says(lines, ws.title, i + 1, e, "", InfoAfter(tx, 5), t.title)
    && Says(lines, ws.performer, i + 1, e, "", InfoAfter(tx, 9), t.artist)
  }

  /** What a line that is read tells of the tracks: one that begins with TRACK adds one; any other may tell of the
      start, the title and the artist of the last one. All other tracks stay, but for their ends, and
      so do album and artist once there is a track. */
  ghost predicate Told(ws: Words, tx: Text, s: Sheet, line: string, n: Sheet) {
    && |n.tracks| == |s.tracks| + (if Begins(line, ws.track) then 1 else 0)
    && (n.tracks != [] ==> n.album == s.album && n.artist == s.artist)
    && (forall k :: 0 <= k < |s.tracks| && (Begins(line, ws.track) || k < |s.tracks| - 1) ==>
          n.tracks[k] == s.tracks[k].(end := n.tracks[k].end))
    && (if Begins(line, ws.track) then
          var number := tx.number(After(line, 5));
          n.tracks[|s.tracks|] == Track("", "", s.file, if number > 0 then number else |s.tracks| + 1, 0, 0, "", "")
        else s.tracks != [] ==>
          var t, u := s.tracks[|s.tracks| - 1], n.tracks[|s.tracks| - 1];
          && u.file == t.file && u.number == t.number
          && u.start == (if Begins(line, ws.index) then tx.time(line) else t.start)
          && u.title == (if Begins(line, ws.title) then tx.info(After(line, 5)) else t.title)
          && u.artist == (if Begins(line, ws.performer) then tx.info(After(line, 9)) else t.artist))
  }

  lemma {:induction false} LineTells(ws: Words, tx: Text, s: Sheet, line: string, n: Sheet)
    requires KindFits(ws, line) && Feed(tx, s, line) == Read(n)
    ensures Told(ws, tx, s, line, n)
  {
    FeedCounts(tx, KindOf(line), s, line);
    if Begins(line, ws.track) {
      NewTrackAs(tx, s, line);
    } else {
      if s.tracks != [] { LastTrackAs(tx, KindOf(line), s, line); }
      forall k | 0 <= k < |s.tracks| - 1 ensures n.tracks[k] == s.tracks[k].(end := n.tracks[k].end) {
        OtherTracksAs(tx, KindOf(line), s, line, k);
      }
    }
  }

  lemma {:induction false} LineAt(ws: Words, tx: Text, lines: seq<string>, m: nat)
    requires Fits(ws) && m < |lines| && FeedAll(tx, EMPTY, lines).stopped.Read?
    ensures Told(ws, tx, SheetAt(tx, lines, m), lines[m], SheetAt(tx, lines, m + 1))
  {
    ReadUpTo(tx, lines, m);
    assert KindFits(ws, lines[m]);
    LineTells(ws, tx, SheetAt(tx, lines, m), lines[m], SheetAt(tx, lines, m + 1));
  }

  /** What of this concerns the last track, when no other one begins. */
  lemma {:induction false} LastAt(ws: Words, tx: Text, lines: seq<string>, m: nat, k: nat)
    requires Fits(ws) && m < |lines| && FeedAll(tx, EMPTY, lines).stopped.Read? && !Begins(lines[m], ws.track)
    requires |SheetAt(tx, lines, m).tracks| == k + 1
    ensures |SheetAt(tx, lines, m + 1).tracks| == k + 1
    ensures var t, u := SheetAt(tx, lines, m).tracks[k], SheetAt(tx, lines, m + 1).tracks[k];
      && u.file == t.file && u.number == t.number
      && u.start == (if Begins(lines[m], ws.index) then tx.time(lines[m]) else t.start)
      && u.title == (if Begins(lines[m], ws.title) then tx.info(After(lines[m], 5)) else t.title)
      && u.artist == (if Begins(lines[m], ws.performer) then tx.info(After(lines[m], 9)) else t.artist)
  {
    LineAt(ws, tx, lines, m);
  }

  /** What of this concerns an earlier one, or the last when another one begins. */
  lemma {:induction false} EarlierAt(ws: Words, tx: Text, lines: seq<string>, m: nat, k: nat)
    requires Fits(ws) && m < |lines| && FeedAll(tx, EMPTY, lines).stopped.Read?
    requires k < |SheetAt(tx, lines, m).tracks| - (if Begins(lines[m], ws.track) then 0 else 1)
    ensures var s, n := SheetAt(tx, lines, m), SheetAt(tx, lines, m + 1);
      && |n.tracks| == |s.tracks| + (if Begins(lines[m], ws.track) then 1 else 0)
      && n.tracks[k] == s.tracks[k].(end := n.tracks[k].end)
  {
    LineAt(ws, tx, lines, m);
  }

  lemma {:induction false} AlbumAt(ws: Words, tx: Text, lines: seq<string>, m: nat)
    requires Fits(ws) && m < |lines| && FeedAll(tx, EMPTY, lines).stopped.Read?
    requires SheetAt(tx, lines, m).tracks != [] || Begins(lines[m], ws.track)
    ensures var s, n := SheetAt(tx, lines, m), SheetAt(tx, lines, m + 1);
      n.tracks != [] && n.album == s.album && n.artist == s.artist
  {
    LineAt(ws, tx, lines, m);
  }

  /** After the first `m` lines that track is the last one, the `k`th. */
  ghost predicate TrackAt(ws: Words, tx: Text, lines: seq<string>, i: nat, m: nat, k: nat)
    requires i < m <= |lines|
  {
    var n := SheetAt(tx, lines, m);
    |n.tracks| == k + 1 && TrackSays(ws, tx, lines, i, m, k, n.tracks[k])
  }

  lemma NoneShorter(lines: seq<string>, word: string, from: nat, to: nat)
    requires from < to <= |lines| && NoneIn(lines, word, from, to)
    ensures NoneIn(lines, word, from, to - 1) && !Begins(lines[to - 1], word)
  {
  }

  /** The track that line `i` begins, after that line. */
  lemma {:induction false} TrackBegins(ws: Words, tx: Text, lines: seq<string>, i: nat)
    requires Fits(ws) && i < |lines| && FeedAll(tx, EMPTY, lines).stopped.Read? && Begins(lines[i], ws.track)
    ensures TrackAt(ws, tx, lines, i, i + 1, CountOf(lines[..i], ws.track))
  {
    HeadAt(ws, tx, lines, i);
    LineAt(ws, tx, lines, i);
  }

  lemma {:induction false} TrackSaysNext(ws: Words, tx: Text, lines: seq<string>, i: nat, m: nat, k: nat, t: Track, u: Track)
    requires i < m < |lines| && TrackSays(ws, tx, lines, i, m, k, t) && u.file == t.file && u.number == t.number
    requires u.start == if Begins(lines[m], ws.index) then tx.time(lines[m]) else t.start
    requires u.title == if Begins(lines[m], ws.title) then tx.info(After(lines[m], 5)) else t.title
    requires u.artist == if Begins(lines[m], ws.performer) then tx.info(After(lines[m], 9)) else t.artist
    ensures TrackSays(ws, tx, lines, i, m + 1, k, u)
  {
    SaysNext(lines, ws.index, i + 1, m, 0, tx.time, t.start, u.start);
    SaysNext(lines, ws.title, i + 1, m, "", InfoAfter(tx, 5), t.title, u.title);
    SaysNext(lines, ws.performer, i + 1, m, "", InfoAfter(tx, 9), t.artist, u.artist);
  }

  /** After one more line, which does not begin a track. */
  lemma {:induction false} TrackGoesOn(ws: Words, tx: Text, lines: seq<string>, i: nat, e: nat, k: nat)
    requires Fits(ws) && i + 1 < e <= |lines| && FeedAll(tx, EMPTY, lines).stopped.Read? && !Begins(lines[e - 1], ws.track)
    requires TrackAt(ws, tx, lines, i, e - 1, k)
    ensures TrackAt(ws, tx, lines, i, e, k)
  {
    var m := e - 1;
    LastAt(ws, tx, lines, m, k);
    TrackSaysNext(ws, tx, lines, i, m, k, SheetAt(tx, lines, m).tracks[k], SheetAt(tx, lines, e).tracks[k]);
  }

  lemma {:induction false} TrackUpTo(ws: Words, tx: Text, lines: seq<string>, i: nat, e: nat, k: nat)
    requires Fits(ws) && i < e <= |lines| && FeedAll(tx, EMPTY, lines).stopped.Read?
    requires NoneIn(lines, ws.track, i + 1, e) && TrackAt(ws, tx, lines, i, i + 1, k)
    ensures TrackAt(ws, tx, lines, i, e, k)
    decreases e
  {
    if i + 1 < e {
      NoneShorter(lines, ws.track, i + 1, e);
      TrackUpTo(ws, tx, lines, i, e - 1, k);
      TrackGoesOn(ws, tx, lines, i, e, k);
    }
  }

  /** From the next TRACK line on a track keeps all but its end. */
  lemma {:induction false} TrackStays(ws: Words, tx: Text, lines: seq<string>, e: nat, m: nat, k: nat)
    requires Fits(ws) && e <= m <= |lines| && FeedAll(tx, EMPTY, lines).stopped.Read? && |SheetAt(tx, lines, e).tracks| == k + 1
    requires e < |lines| ==> Begins(lines[e], ws.track)
    ensures var s, n := SheetAt(tx, lines, e), SheetAt(tx, lines, m);
      |n.tracks| >= k + (if e < m then 2 else 1) && n.tracks[k] == s.tracks[k].(end := n.tracks[k].end)
    decreases m
  {
    if e < m {
      TrackStays(ws, tx, lines, e, m - 1, k);
      EarlierAt(ws, tx, lines, m - 1, k);
    }
  }

  /** Nothing is said there of the end. */
  lemma EndsAside(ws: Words, tx: Text, lines: seq<string>, i: nat, e: nat, k: nat, t: Track, u: Track)
    requires i < e <= |lines| && TrackSays(ws, tx, lines, i, e, k, t) && u == t.(end := u.end)
    ensures TrackSays(ws, tx, lines, i, e, k, u)
  {
  }

  lemma ClosedTracks(s: Sheet, k: nat)
    requires k < |s.tracks|
    ensures |Closed(s).tracks| == |s.tracks| && Closed(s).tracks[k] == s.tracks[k].(end := Closed(s).tracks[k].end)
  {
  }

  lemma {:induction false} TrackBySays(ws: Words, tx: Text, lines: seq<string>, i: nat, e: nat)
    requires Fits(ws) && i < e <= |lines| && FeedAll(tx, EMPTY, lines).stopped.Read?
    requires Begins(lines[i], ws.track) && NoneIn(lines, ws.track, i + 1, e) && (e < |lines| ==> Begins(lines[e], ws.track))
    ensures var k := CountOf(lines[..i], ws.track); var ts := Closed(FeedAll(tx, EMPTY, lines).sheet).tracks;
      |ts| == CountOf(lines, ws.track) > k && TrackSays(ws, tx, lines, i, e, k, ts[k])
  {
    var k, m := CountOf(lines[..i], ws.track), |lines|;
    TrackBegins(ws, tx, lines, i);
    TrackUpTo(ws, tx, lines, i, e, k);
    TrackStays(ws, tx, lines, e, m, k);
    HeadAt(ws, tx, lines, m);
    assert lines[..m] == lines;
    var s := SheetAt(tx, lines, m);
    ClosedTracks(s, k);
    EndsAside(ws, tx, lines, i, e, k, SheetAt(tx, lines, e).tracks[k], Closed(s).tracks[k]);
  }

  lemma {:induction false} AlbumBySays(ws: Words, tx: Text, lines: seq<string>, e: nat)
    requires Fits(ws) && e <= |lines| && FeedAll(tx, EMPTY, lines).stopped.Read?
    requires NoneIn(lines, ws.track, 0, e) && (e < |lines| ==> Begins(lines[e], ws.track))
    ensures var n := Closed(FeedAll(tx, EMPTY, lines).sheet);
      && Says(lines, ws.title, 0, e, "", InfoAfter(tx, 5), n.album)
      && Says(lines, ws.performer, 0, e, "", InfoAfter(tx, 9), n.artist)
  {
    HeadAt(ws, tx, lines, e);
    NoTracksYet(ws, lines, e);
    AlbumStays(ws, tx, lines, e, |lines|);
    assert lines[..|lines|] == lines;
  }

  lemma {:induction false} NoTracksYet(ws: Words, lines: seq<string>, e: nat)
    requires e <= |lines| && NoneIn(lines, ws.track, 0, e)
    ensures CountOf(lines[..e], ws.track) == 0
  {
    if e > 0 {
      NoTracksYet(ws, lines, e - 1);
      assert lines[..e][..e - 1] == lines[..e - 1];
    }
  }

  lemma {:induction false} AlbumStays(ws: Words, tx: Text, lines: seq<string>, e: nat, m: nat)
    requires Fits(ws) && e <= m <= |lines| && FeedAll(tx, EMPTY, lines).stopped.Read? && (e < |lines| ==> Begins(lines[e], ws.track))
    ensures var s, n := SheetAt(tx, lines, e), SheetAt(tx, lines, m);
      n.album == s.album && n.artist == s.artist && (e < m ==> n.tracks != [])
    decreases m
  {
    if e < m {
      AlbumStays(ws, tx, lines, e, m - 1);
      AlbumAt(ws, tx, lines, m - 1);
    }
  }

  /** In a sheet that is read to its end, each line that begins with TRACK, in any case, gives the track of its
      number. Its file is that of the last line before that begins with FILE; its start, title and artist are
      those of the last lines up to the next TRACK line that begin with INDEX 01, TITLE and PERFORMER. */
  lemma {:induction false} TrackByLetters(tx: Text, lines: seq<string>, i: nat, e: nat)
    requires i < e <= |lines| && FeedAll(tx, EMPTY, lines).stopped.Read?
    requires Begins(lines[i], KEYWORDS.track) && NoneIn(lines, KEYWORDS.track, i + 1, e)
    requires e < |lines| ==> Begins(lines[e], KEYWORDS.track)
    ensures var k := CountOf(lines[..i], KEYWORDS.track); var ts := Closed(FeedAll(tx, EMPTY, lines).sheet).tracks;
      |ts| == CountOf(lines, KEYWORDS.track) > k && TrackSays(KEYWORDS, tx, lines, i, e, k, ts[k])
  {
    KeywordsFit();
    TrackBySays(KEYWORDS, tx, lines, i, e);
  }

  /** Album and artist are those of the lines before the first TRACK line. */
  lemma {:induction false} AlbumByLetters(tx: Text, lines: seq<string>, e: nat)
    requires e <= |lines| && FeedAll(tx, EMPTY, lines).stopped.Read?
    requires NoneIn(lines, KEYWORDS.track, 0, e) && (e < |lines| ==> Begins(lines[e], KEYWORDS.track))
    ensures var n := Closed(FeedAll(tx, EMPTY, lines).sheet);
      && Says(lines, KEYWORDS.title, 0, e, "", InfoAfter(tx, 5), n.album)
      && Says(lines, KEYWORDS.performer, 0, e, "", InfoAfter(tx, 9), n.artist)
  {
    KeywordsFit();
    AlbumBySays(KEYWORDS, tx, lines, e);
  }

  /** Line `i` begins a track whose lines go up to line `e`. */
  ghost predicate IsTrackPart(lines: seq<string>, i: nat, e: nat) {
    && i < e <= |lines| && Begins(lines[i], KEYWORDS.track) && NoneIn(lines, KEYWORDS.track, i + 1, e)
    && (e < |lines| ==> Begins(lines[e], KEYWORDS.track))
  }

  /** There is a track for each line that begins with TRACK, and it is as its lines say. */
  ghost predicate TracksSay(tx: Text, lines: seq<string>, ts: seq<Track>) {
    && |ts| == CountOf(lines, KEYWORDS.track)
    && forall i: nat, e: nat :: IsTrackPart(lines, i, e) ==>
         var k := CountOf(lines[..i], KEYWORDS.track);
         k < |ts| && TrackSays(KEYWORDS, tx, lines, i, e, k, ts[k])
  }

  lemma {:induction false} SheetByLetters(tx: Text, lines: seq<string>)
    requires FeedAll(tx, EMPTY, lines).stopped.Read?
    ensures TracksSay(tx, lines, Closed(FeedAll(tx, EMPTY, lines).sheet).tracks)
  {
    KeywordsFit();
    HeadAt(KEYWORDS, tx, lines, |lines|);
    assert lines[..|lines|] == lines;
    forall i: nat, e: nat | IsTrackPart(lines, i, e)
      ensures var k := CountOf(lines[..i], KEYWORDS.track); var ts := Closed(FeedAll(tx, EMPTY, lines).sheet).tracks;
        k < |ts| && TrackSays(KEYWORDS, tx, lines, i, e, k, ts[k])
    {
      TrackByLetters(tx, lines, i, e);
    }
  }
}
