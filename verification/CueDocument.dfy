/** Reading a cue sheet line by line into a list of tracks that share a file. */
module CueDocument {
  import opened CueText

  datatype Track = Track(artist: string, title: string, file: string, number: int, start: int, end: int)

  datatype Outcome = Accepted | Rejected | Thrown

  /** Which branch a line takes; tracks tells whether there is a track yet. */
  datatype Kind =
    | Index | Title | Performer | NewTrack | DiscNumber | File | Date | Genre | AlbumGain | TrackGain | Other

  function KindOf(line: string, tracks: bool): Kind {
    if StartsWithNoCase(line, "INDEX 01") then Index
    else if StartsWithNoCase(line, "TITLE") then Title
    else if StartsWithNoCase(line, "PERFORMER") then Performer
    else if StartsWithNoCase(line, "TRACK") then NewTrack
    else if StartsWithNoCase(line, "REM DISCNUMBER") then DiscNumber
    else if StartsWithNoCase(line, "FILE") then File
    else if StartsWithNoCase(line, "REM DATE") then Date
    else if StartsWithNoCase(line, "REM GENRE") then Genre
    else if StartsWithNoCase(line, "REM REPLAYGAIN_ALBUM_GAIN") then AlbumGain
    else if StartsWithNoCase(line, "REM REPLAYGAIN_ALBUM_PEAK") then AlbumGain
    else if StartsWithNoCase(line, "REM REPLAYGAIN_TRACK_GAIN") && tracks then TrackGain
    else if StartsWithNoCase(line, "REM REPLAYGAIN_TRACK_PEAK") && tracks then TrackGain
    else Other
  }

  predicate IsIndex(line: string) { StartsWithNoCase(line, "INDEX 01") }

  predicate IsTrack(line: string) { KindOf(line, false) == NewTrack }

  predicate IsFile(line: string) { KindOf(line, false) == File }

  /** The number of tracks the lines begin. */
  function TrackCount(lines: seq<string>): nat {
    if lines == [] then 0
    else TrackCount(lines[..|lines| - 1]) + (if IsTrack(lines[|lines| - 1]) then 1 else 0)
  }

  /** The file a FILE line names; resolve stands for the search in the sheet's directory. */
  function FileName(line: string, resolve: string -> string): string
    requires |line| >= 4
  {
    var name := ExtractInfo(line[4..]);
    if name == "" then name else resolve(name)
  }

  /** The file the following tracks are in. */
  function CurrentFile(lines: seq<string>, resolve: string -> string): string {
    if lines == [] then ""
    else if IsFile(lines[|lines| - 1]) then FileName(lines[|lines| - 1], resolve)
    else CurrentFile(lines[..|lines| - 1], resolve)
  }

  /** A second file was named, and no track has begun since. */
  predicate FileChanged(lines: seq<string>, resolve: string -> string) {
    lines != [] &&
    (var before, line := lines[..|lines| - 1], lines[|lines| - 1];
     if IsTrack(line) then false
     else FileChanged(before, resolve) || (IsFile(line) && CurrentFile(before, resolve) != ""))
  }

  /** What the lines say about the sheet as a whole. */
  datatype Header = Header(artist: string, album: string, genre: string, year: int, discNumber: int)

  /** What a line says about the whole sheet, with or without a track before it. */
  function HeaderAfter(header: Header, kind: Kind, line: string, tracks: bool): Header
    requires kind == KindOf(line, tracks)
  {
    match kind
    case Title => if tracks then header else header.(album := ExtractInfo(line[5..]))
    case Performer => if tracks then header else header.(artist := ExtractInfo(line[9..]))
    case DiscNumber => var n := ExtractNumericInfo(line[14..]); if n > 0 then header.(discNumber := n) else header
    case Date => var n := ExtractNumericInfo(line[8..]); if n > 0 then header.(year := n) else header
    case Genre => header.(genre := ExtractInfo(line[9..]))
    case _ => header
  }

  /** What a line says about the tracks: it begins one in the current file, or describes the last one. */
  function SongsAfter(songs: seq<Track>, kind: Kind, line: string, file: string): (after: seq<Track>)
    requires kind == KindOf(line, songs != [])
    ensures |after| == |songs| + (if kind == NewTrack then 1 else 0)
  {
    var last := |songs| - 1;
    if kind == NewTrack then
      var number := ExtractNumericInfo(line[5..]);
      songs + [Track("", "", file, if number > 0 then number else |songs| + 1, 0, 0)]
    else if songs == [] then songs
    else if kind == Index then songs[last := songs[last].(start := ExtractTimeFromIndex(line))]
    else if kind == Title then songs[last := songs[last].(title := ExtractInfo(line[5..]))]
    else if kind == Performer then songs[last := songs[last].(artist := ExtractInfo(line[9..]))]
    else songs
  }

  /** The tracks the lines describe, without their ends. */
  function Songs(lines: seq<string>, resolve: string -> string): (songs: seq<Track>)
    ensures |songs| == TrackCount(lines)
  {
    if lines == [] then []
    else
      var before, line := lines[..|lines| - 1], lines[|lines| - 1];
      var songs := Songs(before, resolve);
      SongsAfter(songs, KindOf(line, songs != []), line, CurrentFile(before, resolve))
  }

  function HeaderOf(lines: seq<string>): Header {
    if lines == [] then Header("", "", "", 0, 0)
    else
      var before, line := lines[..|lines| - 1], lines[|lines| - 1];
      var tracks := TrackCount(before) > 0;
      HeaderAfter(HeaderOf(before), KindOf(line, tracks), line, tracks)
  }

  /** The line makes the sheet unusable: a track over two files, a mangled time, or a line cut off after REPLAYGAIN. */
  predicate Bad(lines: seq<string>, i: nat, resolve: string -> string)
    requires i < |lines|
  {
    (IsIndex(lines[i]) && (FileChanged(lines[..i], resolve) || ExtractTimeFromIndex(lines[i]) == -1)) || Short(lines, i)
  }

  predicate Short(lines: seq<string>, i: nat)
    requires i < |lines|
  {
    var kind := KindOf(lines[i], TrackCount(lines[..i]) > 0);
    (kind == AlbumGain || kind == TrackGain) && |lines[i]| < 26
  }

  /** None of the first n lines is bad. */
  predicate NoneBad(lines: seq<string>, n: nat, resolve: string -> string)
    requires n <= |lines|
  {
    forall i {:trigger Bad(lines, i, resolve)} :: 0 <= i < n ==> !Bad(lines, i, resolve)
  }

  /** The tracks agree in all but where they end. */
  predicate SameSong(track: Track, song: Track) {
    && track.artist == song.artist && track.title == song.title && track.file == song.file
    && track.number == song.number && track.start == song.start
  }

  class Cue {
    var artist: string
    var album: string
    var genre: string
    var year: int
    var discNumber: int
    var tracks: seq<Track>

    constructor ()
    {
      artist, album, genre, year, discNumber, tracks := "", "", "", 0, 0, [];
    }

    /** The tracks are the given ones, each ending where the next one starts; the last has no end. */
    ghost predicate Partition(songs: seq<Track>)
      reads this`tracks
    {
      && |tracks| == |songs|
      && (forall k :: 0 <= k < |tracks| ==> SameSong(tracks[k], songs[k]))
      && (forall k :: 0 <= k < |tracks| - 1 ==> tracks[k].end == songs[k + 1].start)
      && (tracks != [] ==> tracks[|tracks| - 1].end == 0)
    }

    function Headed(): Header
      reads this
    {
      Header(artist, album, genre, year, discNumber)
    }

    method Clear()
      modifies this
      ensures tracks == [] && Headed() == Header("", "", "", 0, 0)
    {
      artist, album, genre, year, discNumber, tracks := "", "", "", 0, 0, [];
    }

    /** The time an index gives starts the last track and ends the one before. */
    method SetIndexTime(time: int, ghost songs: seq<Track>)
      requires Partition(songs)
      modifies this`tracks
      ensures Partition(if songs == [] then songs else songs[|songs| - 1 := songs[|songs| - 1].(start := time)])
    {
      var last := |tracks| - 1;
      if last > 0 {
        tracks := tracks[last - 1 := tracks[last - 1].(end := time)];
      }
      if last >= 0 {
        tracks := tracks[last := tracks[last].(start := time)];
      }
    }

    method AddTrack(line: string, file: string, ghost songs: seq<Track>)
      requires Partition(songs) && KindOf(line, songs != []) == NewTrack
      modifies this`tracks
      ensures Partition(SongsAfter(songs, NewTrack, line, file))
    {
      var number := ExtractNumericInfo(line[5..]);
      tracks := tracks + [Track("", "", file, if number > 0 then number else |tracks| + 1, 0, 0)];
    }

    /** A title or performer belongs to the last track, if there is one. */
    method NameTrack(isTitle: bool, name: string, ghost songs: seq<Track>)
      requires Partition(songs) && tracks != []
      modifies this`tracks
      ensures var song := songs[|songs| - 1];
              Partition(songs[|songs| - 1 := if isTitle then song.(title := name) else song.(artist := name)])
    {
      var last := |tracks| - 1;
      if isTitle {
        tracks := tracks[last := tracks[last].(title := name)];
      } else {
        tracks := tracks[last := tracks[last].(artist := name)];
      }
    }

    /** Lines about the whole sheet; a title or performer is one while there is no track. */
    method SetHeader(kind: Kind, line: string)
      requires kind == KindOf(line, tracks != []) && (tracks != [] ==> kind != Title && kind != Performer)
      modifies `artist, `album, `genre, `year, `discNumber
      ensures Headed() == HeaderAfter(old(Headed()), kind, line, tracks != [])
    {
      match kind {
        case Title =>
          album := ExtractInfo(line[5..]);
        case Performer =>
          artist := ExtractInfo(line[9..]);
        case DiscNumber =>
          var number := ExtractNumericInfo(line[14..]);
          if number > 0 {
            discNumber := number;
          }
        case Date =>
          var number := ExtractNumericInfo(line[8..]);
          if number > 0 {
            year := number;
          }
        case Genre =>
          genre := ExtractInfo(line[9..]);
        case _ =>
      }
    }

    /** Lines that change neither the list of tracks nor their times. */
    method SetOther(kind: Kind, line: string, ghost songs: seq<Track>, ghost file: string)
      requires Partition(songs)
      requires kind == KindOf(line, tracks != []) && kind !in {Index, NewTrack, File}
      modifies this
      ensures Partition(SongsAfter(songs, kind, line, file))
      ensures Headed() == HeaderAfter(old(Headed()), kind, line, songs != [])
    {
      if tracks != [] && kind == Title {
        NameTrack(true, ExtractInfo(line[5..]), songs);
      } else if tracks != [] && kind == Performer {
        NameTrack(false, ExtractInfo(line[9..]), songs);
      } else {
        SetHeader(kind, line);
      }
    }

    /** What one line does; a result other than Accepted ends the reading. */
    method HandleLine(line: string, kind: Kind, file: string, changed: bool, resolve: string -> string,
                      ghost songs: seq<Track>)
      returns (r: Outcome, currentFile: string, currentFileChanged: bool)
      requires Partition(songs) && kind == KindOf(line, tracks != [])
      modifies this
      ensures r == Rejected <==> kind == Index && (changed || ExtractTimeFromIndex(line) == -1)
      ensures r == Thrown <==> (kind == AlbumGain || kind == TrackGain) && |line| < 26
      ensures r == Accepted ==> Partition(SongsAfter(songs, kind, line, file))
      ensures r == Accepted ==> Headed() == HeaderAfter(old(Headed()), kind, line, songs != [])
      ensures r == Accepted ==> currentFile == if kind == File then FileName(line, resolve) else file
      ensures r == Accepted ==> (currentFileChanged <==> kind != NewTrack && (changed || (kind == File && file != "")))
    {
      r, currentFile, currentFileChanged := Accepted, file, changed;
      if kind == Index {
        if currentFileChanged {
          return Rejected, currentFile, currentFileChanged;
        }
        var time := ExtractTimeFromIndex(line);
        if time == -1 {
          return Rejected, currentFile, currentFileChanged;
        }
        SetIndexTime(time, songs);
      } else if kind == NewTrack {
        AddTrack(line, currentFile, songs);
        currentFileChanged := false;
      } else if kind == File {
        if currentFile != "" {
          currentFileChanged := true;
        }
        currentFile := ExtractInfo(line[4..]);
        if currentFile != "" {
          currentFile := resolve(currentFile);
        }
      } else {
        if (kind == AlbumGain || kind == TrackGain) && |line| < 26 {
          return Thrown, currentFile, currentFileChanged;
        }
        SetOther(kind, line, songs, file);
      }
    }

    /** The first n lines have been read. */
    ghost predicate HasRead(lines: seq<string>, n: nat, resolve: string -> string, file: string, changed: bool)
      requires n <= |lines|
      reads this
    {
      var read := lines[..n];
      && Partition(Songs(read, resolve)) && Headed() == HeaderOf(read)
      && file == CurrentFile(read, resolve) && changed == FileChanged(read, resolve)
    }

    method ReadLine(lines: seq<string>, n: nat, resolve: string -> string, file: string, changed: bool)
      returns (r: Outcome, currentFile: string, currentFileChanged: bool)
      requires n < |lines| && HasRead(lines, n, resolve, file, changed)
      modifies this
      ensures r == Accepted <==> !Bad(lines, n, resolve)
      ensures r == Accepted ==> HasRead(lines, n + 1, resolve, currentFile, currentFileChanged)
      ensures r == Thrown ==> Short(lines, n)
    {
      var kind := KindOf(lines[n], tracks != []);
      OneMoreSong(lines, n, resolve);
      OneMoreLine(lines, n, resolve);
      r, currentFile, currentFileChanged :=
        HandleLine(lines[n], kind, file, changed, resolve, Songs(lines[..n], resolve));
    }

    /**
      Reads the whole sheet.  An accepted one has at least one track and no bad line; its
      tracks are the ones the sheet describes, each ends where the next one starts, and the
      last one's end is 0, for the end of the file.
     */
    method Parse(ready: bool, lines: seq<string>, resolve: string -> string) returns (r: Outcome)
      modifies this
      ensures r == Accepted ==> Partition(Songs(lines, resolve)) && tracks != [] && Headed() == HeaderOf(lines)
      ensures r == Accepted <==> ready && TrackCount(lines) > 0 && NoneBad(lines, |lines|, resolve)
      ensures r == Thrown ==> exists i :: 0 <= i < |lines| && Short(lines, i)
    {
      Clear();
      if !ready {
        return Rejected;
      }
      var currentFile, currentFileChanged := "", false;
      for n := 0 to |lines|
        invariant HasRead(lines, n, resolve, currentFile, currentFileChanged)
        invariant NoneBad(lines, n, resolve)
      {
        r, currentFile, currentFileChanged := ReadLine(lines, n, resolve, currentFile, currentFileChanged);
        if r != Accepted {
          return;
        }
      }
      assert lines[..|lines|] == lines;
      return if tracks != [] then Accepted else Rejected;
    }
  }

  lemma {:induction false} KindsAgree(line: string, tracks: bool)
    ensures IsIndex(line) <==> KindOf(line, tracks) == Index
    ensures IsTrack(line) <==> KindOf(line, tracks) == NewTrack
    ensures IsFile(line) <==> KindOf(line, tracks) == File
  {
  }

  function KindAt(lines: seq<string>, n: nat): Kind
    requires n < |lines|
  {
    KindOf(lines[n], TrackCount(lines[..n]) > 0)
  }

  /** What one more line says about the tracks. */
  lemma {:induction false} OneMoreSong(lines: seq<string>, n: nat, resolve: string -> string)
    requires n < |lines|
    ensures var songs := Songs(lines[..n], resolve);
            && KindAt(lines, n) == KindOf(lines[n], songs != [])
            && Songs(lines[..n + 1], resolve) ==
               SongsAfter(songs, KindAt(lines, n), lines[n], CurrentFile(lines[..n], resolve))
  {
    assert lines[..n + 1][..n] == lines[..n] && lines[..n + 1][n] == lines[n];
  }

  /** What one more line adds besides. */
  lemma {:induction false} OneMoreLine(lines: seq<string>, n: nat, resolve: string -> string)
    requires n < |lines|
    ensures HeaderOf(lines[..n + 1]) ==
            HeaderAfter(HeaderOf(lines[..n]), KindAt(lines, n), lines[n], TrackCount(lines[..n]) > 0)
    ensures CurrentFile(lines[..n + 1], resolve) ==
            if KindAt(lines, n) == File then FileName(lines[n], resolve) else CurrentFile(lines[..n], resolve)
    ensures FileChanged(lines[..n + 1], resolve) <==>
      && KindAt(lines, n) != NewTrack
      && (FileChanged(lines[..n], resolve) || (KindAt(lines, n) == File && CurrentFile(lines[..n], resolve) != ""))
    ensures Bad(lines, n, resolve) <==>
      || (KindAt(lines, n) == Index && (FileChanged(lines[..n], resolve) || ExtractTimeFromIndex(lines[n]) == -1))
      || Short(lines, n)
  {
    assert lines[..n + 1][..n] == lines[..n] && lines[..n + 1][n] == lines[n];
    KindsAgree(lines[n], TrackCount(lines[..n]) > 0);
  }

  /** A song's length in seconds, rounded from frames; the last track's is not known. */
  function Duration(start: int, end: int): int {
    if end == 0 then 0
    else if end - start + 37 >= 0 then (end - start + 37) / 75 else -((start - end - 37) / 75)
  }

  /** The durations of the first n tracks. */
  function TotalDuration(tracks: seq<Track>, n: nat): int
    requires n <= |tracks|
  {
    if n == 0 then 0 else TotalDuration(tracks, n - 1) + Duration(tracks[n - 1].start, tracks[n - 1].end)
  }

  predicate EndsMeetStarts(tracks: seq<Track>) {
    forall k :: 0 <= k < |tracks| - 1 ==> tracks[k].end == tracks[k + 1].start
  }

  predicate StrictlyIncreasing(tracks: seq<Track>) {
    forall i, j :: 0 <= i < j < |tracks| ==> tracks[i].start < tracks[j].start
  }

  /** The time the first n tracks take, but for those whose end is 0: that means the end of the file. */
  function TimedFrames(tracks: seq<Track>, n: nat): int
    requires n <= |tracks|
  {
    if n == 0 then 0
    else TimedFrames(tracks, n - 1) + (if tracks[n - 1].end == 0 then 0 else tracks[n - 1].end - tracks[n - 1].start)
  }

  /** With increasing times the rounded durations add up to the time taken, within 37 frames a track. */
  lemma {:induction false} DurationsAddUp(tracks: seq<Track>, n: nat)
    requires EndsMeetStarts(tracks) && StrictlyIncreasing(tracks) && n < |tracks|
    ensures -37 * n <= 75 * TotalDuration(tracks, n) - TimedFrames(tracks, n) <= 37 * n
    decreases n
  {
    if n > 0 {
      DurationsAddUp(tracks, n - 1);
      var length := tracks[n].start - tracks[n - 1].start;
      assert -37 <= 75 * ((length + 37) / 75) - length <= 37;
    }
  }

  /**
    That is the whole time spanned exactly when no track before the n-th ends at 0, as none does
    unless a time is negative.
   */
  lemma {:induction false} TimedIsSpanned(tracks: seq<Track>, n: nat)
    requires EndsMeetStarts(tracks) && StrictlyIncreasing(tracks) && n < |tracks|
    ensures TimedFrames(tracks, n) <= tracks[n].start - tracks[0].start
    ensures TimedFrames(tracks, n) == tracks[n].start - tracks[0].start <==>
      forall k :: 0 <= k < n ==> tracks[k].end != 0
    ensures tracks[0].start >= 0 ==> forall k :: 0 <= k < n ==> tracks[k].end != 0
    decreases n
  {
    if n > 0 {
      TimedIsSpanned(tracks, n - 1);
    }
  }
}
