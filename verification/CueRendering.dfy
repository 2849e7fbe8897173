/**
  Writing a cue sheet down, and that reading it brings back what was written: the tracks,
  their times in frames, and what is said about the sheet as a whole.
 */
module CueRendering {
  import opened CueText
  import opened CueDocument

  function Digit(d: nat): (c: char)
    requires d < 10
    ensures IsDigit(c) && c as int - '0' as int == d
  {
    (d + '0' as int) as char
  }

  function Digits(n: nat): (s: string)
    ensures s != [] && forall i :: 0 <= i < |s| ==> IsDigit(s[i])
  {
    if n < 10 then [Digit(n)] else Digits(n / 10) + [Digit(n % 10)]
  }

  /** At least two digits. */
  function Padded(n: nat): (s: string)
    ensures s != [] && forall i :: 0 <= i < |s| ==> IsDigit(s[i])
  {
    if n < 10 then [Digit(0), Digit(n)] else Digits(n)
  }

  function Quoted(s: string): string { "\"" + s + "\"" }

  /** Text that can stand in quotes. */
  predicate Quotable(s: string) { '"' !in s }

  function TimeText(frames: nat): string {
    Padded(frames / 75 / 60) + ":" + Padded(frames / 75 % 60) + ":" + Padded(frames % 75)
  }

  function IndexLine(frames: nat): string { "INDEX 01" + (" " + TimeText(frames)) }

  function TrackLine(number: nat): string { "TRACK" + (" " + Padded(number) + " AUDIO") }

  function TitleLine(title: string): string { "TITLE" + (" " + Quoted(title)) }

  function PerformerLine(artist: string): string { "PERFORMER" + (" " + Quoted(artist)) }

  function FileLine(file: string): string { "FILE" + (" " + Quoted(file) + " WAVE") }

  function GenreLine(genre: string): string { "REM GENRE" + (" " + Quoted(genre)) }

  function DateLine(year: nat): string { "REM DATE" + (" " + Digits(year)) }

  function DiscLine(number: nat): string { "REM DISCNUMBER" + (" " + Digits(number)) }

  lemma {:induction false} ValueOfMore(s: string, d: char, rest: string, sum: int)
    requires (forall i :: 0 <= i < |s| ==> IsDigit(s[i])) && IsDigit(d) && (rest != [] ==> !IsDigit(rest[0]))
    ensures DigitsValue(s + [d] + rest, sum) == 10 * DigitsValue(s + rest, sum) + (d as int - '0' as int)
    decreases |s|
  {
    if s == [] {
      assert (s + [d] + rest)[1..] == rest && s + rest == rest;
      assert DigitsValue(rest, 10 * sum + (d as int - '0' as int)) == 10 * sum + (d as int - '0' as int);
    } else {
      assert (s + [d] + rest)[1..] == s[1..] + [d] + rest && (s + rest)[1..] == s[1..] + rest;
      ValueOfMore(s[1..], d, rest, 10 * sum + (s[0] as int - '0' as int));
    }
  }

  lemma {:induction false} ValueOfDigits(n: nat, rest: string)
    requires rest != [] ==> !IsDigit(rest[0])
    ensures DigitsValue(Digits(n) + rest, 0) == n
    decreases n
  {
    if n < 10 {
      ValueOfMore([], Digit(n), rest, 0);
      assert [] + [Digit(n)] + rest == Digits(n) + rest && [] + rest == rest;
    } else {
      ValueOfDigits(n / 10, rest);
      ValueOfMore(Digits(n / 10), Digit(n % 10), rest, 0);
      assert Digits(n / 10) + [Digit(n % 10)] + rest == Digits(n) + rest;
    }
  }

  /** A number is read back, whatever follows that is no digit. */
  lemma {:induction false} AtoiReads(n: nat, rest: string)
    requires rest != [] ==> !IsDigit(rest[0])
    ensures Atoi(Padded(n) + rest) == n && Atoi(Digits(n) + rest) == n
  {
    ValueOfDigits(n, rest);
    var s, t := Padded(n) + rest, Digits(n) + rest;
    assert IsDigit(s[0]) && IsDigit(t[0]);
    assert TrimLeft(s) == s && TrimLeft(t) == t;
    if n < 10 {
      assert s[1..] == t;
      assert DigitsValue(s, 0) == DigitsValue(t, 0);
    }
  }

  lemma {:induction false} IndexOfFirst(s: string, c: char, rest: string, i: nat)
    requires i <= |s| && forall k :: i <= k < |s| ==> s[k] != c
    ensures IndexOf(s + [c] + rest, c, i) == |s|
    decreases |s| - i
  {
    if i < |s| {
      IndexOfFirst(s, c, rest, i + 1);
    }
  }

  lemma {:induction false} IndexOfNone(s: string, c: char, i: nat)
    requires i <= |s| && forall k :: i <= k < |s| ==> s[k] != c
    ensures IndexOf(s, c, i) == |s|
    decreases |s| - i
  {
    if i < |s| {
      IndexOfNone(s, c, i + 1);
    }
  }

  lemma {:induction false} SplitInThree(a: string, b: string, c: string)
    requires ':' !in a && ':' !in b && ':' !in c
    ensures Split(a + ":" + b + ":" + c, ':') == [a, b, c]
  {
    var s, t := a + ":" + b + ":" + c, b + ":" + c;
    assert s == a + [':'] + t && t == b + [':'] + c;
    IndexOfFirst(a, ':', t, 0);
    IndexOfFirst(b, ':', c, 0);
    IndexOfNone(c, ':', 0);
    assert s[..|a|] == a && s[|a| + 1..] == t;
    assert t[..|b|] == b && t[|b| + 1..] == c;
    assert Pieces(c, ':') == [c];
    assert Pieces(t, ':') == [b] + [c];
    assert Pieces(s, ':') == [a] + ([b] + [c]);
  }

  /** The time written with an index is read back in frames. */
  lemma {:induction false} TimeReadsBack(frames: nat)
    ensures |IndexLine(frames)| >= 5 && ExtractTimeFromIndex(IndexLine(frames)) == frames
  {
    var line, time := IndexLine(frames), TimeText(frames);
    assert line[5..] == " 01" + (" " + time) == " 01 " + time;
    assert time[0] == Padded(frames / 75 / 60)[0];
    TrimmedToNumber(time);
    PartsReadBack(frames / 75 / 60, frames / 75 % 60, frames % 75);
  }

  lemma {:induction false} PartsReadBack(m: nat, s: nat, f: nat)
    ensures var parts := Split(Padded(m) + ":" + Padded(s) + ":" + Padded(f), ':');
            |parts| == 3 && Atoi(parts[0]) == m && Atoi(parts[1]) == s && Atoi(parts[2]) == f
  {
    SplitInThree(Padded(m), Padded(s), Padded(f));
    AtoiReads(m, []);
    AtoiReads(s, []);
    AtoiReads(f, []);
    assert Padded(m) + [] == Padded(m) && Padded(s) + [] == Padded(s) && Padded(f) + [] == Padded(f);
  }

  lemma {:induction false} TrimmedToNumber(time: string)
    requires time != [] && IsDigit(time[0])
    ensures TrimLeft(DropDigits(TrimLeft(" 01 " + time))) == time
  {
    assert (" 01 " + time)[1..] == "01 " + time && ("01 " + time)[1..] == "1 " + time;
    assert ("1 " + time)[1..] == " " + time && (" " + time)[1..] == time;
    assert TrimLeft(" 01 " + time) == TrimLeft("01 " + time) == "01 " + time;
    assert DropDigits("01 " + time) == DropDigits("1 " + time) == DropDigits(" " + time) == " " + time;
    assert TrimLeft(" " + time) == TrimLeft(time) == time;
  }

  /** What stands in quotes is read back, whatever follows. */
  lemma {:induction false} QuotedReadsBack(s: string, rest: string)
    requires Quotable(s)
    ensures ExtractInfo(" " + Quoted(s) + rest) == s
  {
    var line := " " + Quoted(s) + rest;
    var after := s + "\"" + rest;
    assert line == " " + ['"'] + after;
    IndexOfFirst(" ", '"', after, 0);
    var before := " \"" + s;
    assert line == before + ['"'] + rest;
    IndexOfFirst(before, '"', rest, 2);
    assert line[2..|before|] == s;
  }

  /** Numbers are read back after one space. */
  lemma {:induction false} NumberReadsBack(n: nat, rest: string)
    requires rest != [] ==> !IsDigit(rest[0])
    ensures ExtractNumericInfo(" " + Padded(n) + rest) == n && ExtractNumericInfo(" " + Digits(n) + rest) == n
  {
    AtoiReads(n, rest);
    NumberAfterSpace(Padded(n) + rest);
    NumberAfterSpace(Digits(n) + rest);
    assert " " + Padded(n) + rest == " " + (Padded(n) + rest) && " " + Digits(n) + rest == " " + (Digits(n) + rest);
  }

  lemma {:induction false} NumberAfterSpace(s: string)
    requires s != [] && IsDigit(s[0])
    ensures ExtractNumericInfo(" " + s) == Atoi(s)
  {
    assert (" " + s)[1..] == s;
    assert TrimLeft(" " + s) == TrimLeft(s) == s;
  }

  lemma {:induction false} StartsWithItself(key: string, rest: string)
    ensures StartsWithNoCase(key + rest, key)
  {
  }

  lemma {:induction false} DiffersAt(line: string, prefix: string, i: nat)
    requires i < |line| && i < |prefix| && ToLower(line[i]) != ToLower(prefix[i])
    ensures !StartsWithNoCase(line, prefix)
  {
  }

  /** The lines about the whole sheet begin like none of the others. */
  lemma {:induction false} RemarkLine(line: string)
    requires line != [] && line[0] == 'R'
    ensures !StartsWithNoCase(line, "INDEX 01") && !StartsWithNoCase(line, "TITLE")
    ensures !StartsWithNoCase(line, "PERFORMER") && !StartsWithNoCase(line, "TRACK") && !StartsWithNoCase(line, "FILE")
  {
    DiffersAt(line, "INDEX 01", 0);
    DiffersAt(line, "TITLE", 0);
    DiffersAt(line, "PERFORMER", 0);
    DiffersAt(line, "TRACK", 0);
    DiffersAt(line, "FILE", 0);
  }

  lemma {:induction false} KindOfIndex(rest: string, tracks: bool)
    ensures KindOf("INDEX 01" + rest, tracks) == Index
  {
    StartsWithItself("INDEX 01", rest);
  }

  lemma {:induction false} KindOfTitle(rest: string, tracks: bool)
    ensures KindOf("TITLE" + rest, tracks) == Title
  {
    StartsWithItself("TITLE", rest);
    assert ("TITLE" + rest)[0] == 'T';
  }

  lemma {:induction false} KindOfPerformer(rest: string, tracks: bool)
    ensures KindOf("PERFORMER" + rest, tracks) == Performer
  {
    StartsWithItself("PERFORMER", rest);
    assert ("PERFORMER" + rest)[0] == 'P';
  }

  lemma {:induction false} KindOfTrack(rest: string, tracks: bool)
    ensures KindOf("TRACK" + rest, tracks) == NewTrack
  {
    StartsWithItself("TRACK", rest);
    assert ("TRACK" + rest)[0] == 'T' && ("TRACK" + rest)[1] == 'R';
  }

  lemma {:induction false} KindOfFile(rest: string, tracks: bool)
    ensures KindOf("FILE" + rest, tracks) == File
  {
    StartsWithItself("FILE", rest);
    assert ("FILE" + rest)[0] == 'F';
  }

  lemma {:induction false} KindOfDisc(rest: string, tracks: bool)
    ensures KindOf("REM DISCNUMBER" + rest, tracks) == DiscNumber
  {
    StartsWithItself("REM DISCNUMBER", rest);
    RemarkLine("REM DISCNUMBER" + rest);
  }

  lemma {:induction false} KindOfDate(rest: string, tracks: bool)
    ensures KindOf("REM DATE" + rest, tracks) == Date
  {
    StartsWithItself("REM DATE", rest);
    RemarkLine("REM DATE" + rest);
    DiffersAt("REM DATE" + rest, "REM DISCNUMBER", 5);
  }

  lemma {:induction false} KindOfGenre(rest: string, tracks: bool)
    ensures KindOf("REM GENRE" + rest, tracks) == Genre
  {
    StartsWithItself("REM GENRE", rest);
    RemarkLine("REM GENRE" + rest);
    DiffersAt("REM GENRE" + rest, "REM DISCNUMBER", 4);
    DiffersAt("REM GENRE" + rest, "REM DATE", 4);
  }

  lemma {:induction false} TextReadsBack(key: string, text: string)
    requires Quotable(text)
    ensures ExtractInfo((key + (" " + Quoted(text)))[|key|..]) == text
  {
    QuotedReadsBack(text, []);
    assert (key + (" " + Quoted(text)))[|key|..] == " " + Quoted(text) + [];
  }

  lemma {:induction false} DigitsReadBack(key: string, n: nat)
    ensures ExtractNumericInfo((key + (" " + Digits(n)))[|key|..]) == n
  {
    NumberReadsBack(n, []);
    assert (key + (" " + Digits(n)))[|key|..] == " " + Digits(n) + [];
  }

  lemma {:induction false} TrackNumberReadsBack(n: nat)
    ensures ExtractNumericInfo(TrackLine(n)[5..]) == n
  {
    NumberReadsBack(n, " AUDIO");
    assert TrackLine(n)[5..] == " " + Padded(n) + " AUDIO";
  }

  /** Which line it is does not depend on upper and lower case. */
  lemma {:induction false} CaseDoesNotMatter(line: string, line': string, tracks: bool)
    requires |line'| == |line| && forall i :: 0 <= i < |line| ==> ToLower(line'[i]) == ToLower(line[i])
    ensures KindOf(line', tracks) == KindOf(line, tracks)
  {
    SameStart(line, line', "INDEX 01");
    SameStart(line, line', "TITLE");
    SameStart(line, line', "PERFORMER");
    SameStart(line, line', "TRACK");
    SameStart(line, line', "REM DISCNUMBER");
    SameStart(line, line', "FILE");
    SameStart(line, line', "REM DATE");
    SameStart(line, line', "REM GENRE");
    SameStart(line, line', "REM REPLAYGAIN_ALBUM_GAIN");
    SameStart(line, line', "REM REPLAYGAIN_ALBUM_PEAK");
    SameStart(line, line', "REM REPLAYGAIN_TRACK_GAIN");
    SameStart(line, line', "REM REPLAYGAIN_TRACK_PEAK");
  }

  lemma {:induction false} SameStart(line: string, line': string, prefix: string)
    requires |line'| == |line| && forall i :: 0 <= i < |line| ==> ToLower(line'[i]) == ToLower(line[i])
    ensures StartsWithNoCase(line', prefix) == StartsWithNoCase(line, prefix)
  {
  }

  /** A track that can be written down: its end is where the next one starts, so it is not written. */
  predicate Writable(song: Track) {
    && Quotable(song.title) && Quotable(song.artist)
    && song.number > 0 && song.start >= 0 && song.end == 0
  }

  predicate WritableHeader(header: Header) {
    && Quotable(header.artist) && Quotable(header.album) && Quotable(header.genre)
    && header.year >= 0 && header.discNumber >= 0
  }

  function TrackPart(song: Track): seq<string>
    requires Writable(song)
  {
    [TrackLine(song.number), TitleLine(song.title), PerformerLine(song.artist), IndexLine(song.start)]
  }

  function HeaderPart(header: Header, file: string): seq<string>
    requires WritableHeader(header)
  {
    [PerformerLine(header.artist), TitleLine(header.album), GenreLine(header.genre), DateLine(header.year),
     DiscLine(header.discNumber), FileLine(file)]
  }

  /** The whole sheet. */
  function Sheet(header: Header, file: string, songs: seq<Track>): seq<string>
    requires WritableHeader(header) && forall k :: 0 <= k < |songs| ==> Writable(songs[k])
  {
    if songs == [] then HeaderPart(header, file)
    else Sheet(header, file, songs[..|songs| - 1]) + TrackPart(songs[|songs| - 1])
  }

  /** What has been read: tracks, header, the current file, and whether that is a second one. */
  ghost predicate Says(lines: seq<string>, resolve: string -> string, songs: seq<Track>, header: Header, file: string,
                       changed: bool)
  {
    && Songs(lines, resolve) == songs && HeaderOf(lines) == header
    && CurrentFile(lines, resolve) == file && FileChanged(lines, resolve) == changed
    && NoneBad(lines, |lines|, resolve)
  }

  /** One more line, of a kind that is never cut short. */
  lemma {:induction false} SaysMore(lines: seq<string>, line: string, resolve: string -> string, songs: seq<Track>,
                                    header: Header, file: string, changed: bool)
    requires Says(lines, resolve, songs, header, file, changed)
    requires var kind := KindOf(line, songs != []);
             && kind != AlbumGain && kind != TrackGain
             && (kind == Index ==> !changed && ExtractTimeFromIndex(line) != -1)
    ensures var kind := KindOf(line, songs != []);
            Says(lines + [line], resolve, SongsAfter(songs, kind, line, file),
                 HeaderAfter(header, kind, line, songs != []),
                 if kind == File then FileName(line, resolve) else file,
                 kind != NewTrack && (changed || (kind == File && file != "")))
  {
    var all, n := lines + [line], |lines|;
    assert all[..n] == lines && all[..n + 1] == all && all[n] == line;
    OneMoreSong(all, n, resolve);
    OneMoreLine(all, n, resolve);
    forall i | 0 <= i < n ensures !Bad(all, i, resolve) {
      assert all[..i] == lines[..i] && all[i] == lines[i] && !Bad(lines, i, resolve);
    }
  }

  /** The name the tracks get for their file. */
  function Resolved(file: string, resolve: string -> string): string {
    if file == "" then file else resolve(file)
  }

  lemma {:induction false} HeaderTextsRead(header: Header, file: string, resolve: string -> string,
                                           lines: seq<string>, before: Header)
    requires WritableHeader(header) && Says(lines, resolve, [], before, "", false)
    ensures Says(lines + [PerformerLine(header.artist)], resolve, [], before.(artist := header.artist), "", false)
    ensures Says(lines + [TitleLine(header.album)], resolve, [], before.(album := header.album), "", false)
    ensures Says(lines + [GenreLine(header.genre)], resolve, [], before.(genre := header.genre), "", false)
  {
    KindOfPerformer(" " + Quoted(header.artist), false);
    KindOfTitle(" " + Quoted(header.album), false);
    KindOfGenre(" " + Quoted(header.genre), false);
    TextReadsBack("PERFORMER", header.artist);
    TextReadsBack("TITLE", header.album);
    TextReadsBack("REM GENRE", header.genre);
    SaysMore(lines, PerformerLine(header.artist), resolve, [], before, "", false);
    SaysMore(lines, TitleLine(header.album), resolve, [], before, "", false);
    SaysMore(lines, GenreLine(header.genre), resolve, [], before, "", false);
  }

  /** A number of 0 is as good as none. */
  lemma {:induction false} HeaderNumbersRead(header: Header, resolve: string -> string, lines: seq<string>,
                                             before: Header)
    requires WritableHeader(header) && Says(lines, resolve, [], before, "", false)
    requires before.year == 0 && before.discNumber == 0
    ensures Says(lines + [DateLine(header.year)], resolve, [], before.(year := header.year), "", false)
  {
    KindOfDate(" " + Digits(header.year), false);
    DigitsReadBack("REM DATE", header.year);
    SaysMore(lines, DateLine(header.year), resolve, [], before, "", false);
  }

  lemma {:induction false} DiscRead(header: Header, resolve: string -> string, lines: seq<string>, before: Header)
    requires WritableHeader(header) && Says(lines, resolve, [], before, "", false) && before.discNumber == 0
    ensures Says(lines + [DiscLine(header.discNumber)], resolve, [], before.(discNumber := header.discNumber),
                 "", false)
  {
    KindOfDisc(" " + Digits(header.discNumber), false);
    DigitsReadBack("REM DISCNUMBER", header.discNumber);
    SaysMore(lines, DiscLine(header.discNumber), resolve, [], before, "", false);
  }

  lemma {:induction false} FileRead(file: string, resolve: string -> string, lines: seq<string>, before: Header)
    requires Quotable(file) && Says(lines, resolve, [], before, "", false)
    ensures Says(lines + [FileLine(file)], resolve, [], before, Resolved(file, resolve), false)
  {
    var line := FileLine(file);
    KindOfFile(" " + Quoted(file) + " WAVE", false);
    QuotedReadsBack(file, " WAVE");
    assert line[4..] == " " + Quoted(file) + " WAVE";
    SaysMore(lines, line, resolve, [], before, "", false);
  }

  lemma {:induction false} HeaderRead(header: Header, file: string, resolve: string -> string)
    requires WritableHeader(header) && Quotable(file)
    ensures Says(HeaderPart(header, file), resolve, [], header, Resolved(file, resolve), false)
  {
    var h := Header("", "", "", 0, 0);
    var a, b := PerformerLine(header.artist), TitleLine(header.album);
    var c, d := GenreLine(header.genre), DateLine(header.year);
    var e, f := DiscLine(header.discNumber), FileLine(file);
    assert Says([], resolve, [], h, "", false);
    HeaderTextsRead(header, file, resolve, [], h);
    assert [] + [a] == [a];
    h := h.(artist := header.artist);
    HeaderTextsRead(header, file, resolve, [a], h);
    assert [a] + [b] == [a, b];
    h := h.(album := header.album);
    HeaderTextsRead(header, file, resolve, [a, b], h);
    assert [a, b] + [c] == [a, b, c];
    h := h.(genre := header.genre);
    HeaderNumbersRead(header, resolve, [a, b, c], h);
    assert [a, b, c] + [d] == [a, b, c, d];
    h := h.(year := header.year);
    DiscRead(header, resolve, [a, b, c, d], h);
    assert [a, b, c, d] + [e] == [a, b, c, d, e];
    h := h.(discNumber := header.discNumber);
    FileRead(file, resolve, [a, b, c, d, e], h);
    assert [a, b, c, d, e] + [f] == HeaderPart(header, file);
  }

  /** The lines of a track that has begun say the rest about it. */
  lemma {:induction false} TrackBegins(lines: seq<string>, resolve: string -> string, songs: seq<Track>, header: Header,
                                       file: string, song: Track)
    requires Says(lines, resolve, songs, header, file, false) && Writable(song)
    ensures Says(lines + [TrackLine(song.number)], resolve, songs + [Track("", "", file, song.number, 0, 0)],
                 header, file, false)
  {
    KindOfTrack(" " + Padded(song.number) + " AUDIO", songs != []);
    TrackNumberReadsBack(song.number);
    SaysMore(lines, TrackLine(song.number), resolve, songs, header, file, false);
  }

  lemma {:induction false} TrackNamed(lines: seq<string>, resolve: string -> string, songs: seq<Track>, last: Track,
                                      header: Header, file: string, song: Track)
    requires Says(lines, resolve, songs + [last], header, file, false) && Writable(song)
    ensures Says(lines + [TitleLine(song.title)], resolve, songs + [last.(title := song.title)], header, file, false)
    ensures Says(lines + [PerformerLine(song.artist)], resolve, songs + [last.(artist := song.artist)],
                 header, file, false)
  {
    KindOfTitle(" " + Quoted(song.title), true);
    KindOfPerformer(" " + Quoted(song.artist), true);
    TextReadsBack("TITLE", song.title);
    TextReadsBack("PERFORMER", song.artist);
    SaysMore(lines, TitleLine(song.title), resolve, songs + [last], header, file, false);
    SaysMore(lines, PerformerLine(song.artist), resolve, songs + [last], header, file, false);
    assert (songs + [last])[|songs| := last.(title := song.title)] == songs + [last.(title := song.title)];
    assert (songs + [last])[|songs| := last.(artist := song.artist)] == songs + [last.(artist := song.artist)];
  }

  lemma {:induction false} TrackTimed(lines: seq<string>, resolve: string -> string, songs: seq<Track>, last: Track,
                                      header: Header, file: string, song: Track)
    requires Says(lines, resolve, songs + [last], header, file, false) && Writable(song)
    ensures Says(lines + [IndexLine(song.start)], resolve, songs + [last.(start := song.start)], header, file, false)
  {
    KindOfIndex(" " + TimeText(song.start), true);
    TimeReadsBack(song.start);
    SaysMore(lines, IndexLine(song.start), resolve, songs + [last], header, file, false);
    assert (songs + [last])[|songs| := last.(start := song.start)] == songs + [last.(start := song.start)];
  }

  lemma {:induction false} TrackRead(lines: seq<string>, resolve: string -> string, songs: seq<Track>, header: Header,
                                     file: string, song: Track)
    requires Says(lines, resolve, songs, header, file, false) && Writable(song) && song.file == file
    ensures Says(lines + TrackPart(song), resolve, songs + [song], header, file, false)
  {
    var a, b := TrackLine(song.number), TitleLine(song.title);
    var c, d := PerformerLine(song.artist), IndexLine(song.start);
    var last := Track("", "", file, song.number, 0, 0);
    TrackBegins(lines, resolve, songs, header, file, song);
    TrackNamed(lines + [a], resolve, songs, last, header, file, song);
    last := last.(title := song.title);
    TrackNamed(lines + [a] + [b], resolve, songs, last, header, file, song);
    last := last.(artist := song.artist);
    TrackTimed(lines + [a] + [b] + [c], resolve, songs, last, header, file, song);
    FourLines(lines, a, b, c, d);
    assert last.(start := song.start) == song;
  }

  lemma {:induction false} FourLines(lines: seq<string>, a: string, b: string, c: string, d: string)
    ensures lines + [a] + [b] + [c] + [d] == lines + [a, b, c, d]
  {
  }

  /** A sheet that was written down says what was written. */
  lemma {:induction false} SheetReadsBack(header: Header, file: string, songs: seq<Track>, resolve: string -> string)
    requires WritableHeader(header) && Quotable(file)
    requires forall k :: 0 <= k < |songs| ==> Writable(songs[k]) && songs[k].file == Resolved(file, resolve)
    ensures Says(Sheet(header, file, songs), resolve, songs, header, Resolved(file, resolve), false)
    decreases |songs|
  {
    if songs == [] {
      HeaderRead(header, file, resolve);
    } else {
      var before, song := songs[..|songs| - 1], songs[|songs| - 1];
      SheetReadsBack(header, file, before, resolve);
      TrackRead(Sheet(header, file, before), resolve, before, header, Resolved(file, resolve), song);
      assert before + [song] == songs;
    }
  }

  /** So reading it accepts it, and gives every track back, with its end where the next one starts. */
  method ReadBack(cue: Cue, header: Header, file: string, songs: seq<Track>, resolve: string -> string)
    returns (r: Outcome)
    requires WritableHeader(header) && Quotable(file) && songs != []
    requires forall k :: 0 <= k < |songs| ==> Writable(songs[k]) && songs[k].file == Resolved(file, resolve)
    modifies cue
    ensures r == Accepted && cue.Headed() == header && |cue.tracks| == |songs|
    ensures forall k :: 0 <= k < |songs| ==>
      cue.tracks[k] == songs[k].(end := if k == |songs| - 1 then 0 else songs[k + 1].start)
  {
    SheetReadsBack(header, file, songs, resolve);
    r := cue.Parse(true, Sheet(header, file, songs), resolve);
  }
}
