/**
 * `cuesheet.py`: a cue sheet read line by line in two phases. The header holds the album's TITLE,
 * PERFORMER and REM tags; the body holds FILE, TRACK, INDEX, TITLE and PERFORMER directives. Then the
 * track lengths are derived from the offsets, and every track is converted with the album's metadata.
 */
module Sheets {
  import opened Wrappers
  import opened Strings
  import opened Errors
  import opened Dicts
  import opened Metadata
  import opened Paths
  import opened Commands
  import opened Tokenizing
  import opened Tracks
  import Util

  /** The fields of a `CueSheet` at one moment. */
  datatype SheetValue = SheetValue(title: Option<string>, performer: Option<string>, tags: Meta,
                                   tracks: seq<TrackValue>)

  /** `CueSheet.get_metadata`: a copy of the tags with ALBUM, ALBUMARTIST and TRACKTOTAL when known. */
  function SheetMetadata(s: SheetValue): (r: Meta)
    ensures Keys(s.tags) <= Keys(r)
    ensures forall k :: k != "ALBUM" && k != "ALBUMARTIST" && k != "TRACKTOTAL" ==> Get(r, k) == Get(s.tags, k)
    ensures Get(r, "ALBUM") == if Truthy(s.title) then Some(Str(s.title.value)) else Get(s.tags, "ALBUM")
    ensures Get(r, "ALBUMARTIST") ==
      if Truthy(s.performer) then Some(Str(s.performer.value)) else Get(s.tags, "ALBUMARTIST")
    ensures Get(r, "TRACKTOTAL") == if s.tracks != [] then Some(Int(|s.tracks|)) else Get(s.tags, "TRACKTOTAL")
    ensures Valid(s.tags) ==> Valid(r)
  {
    var m1 := SetWhen(s.tags, Truthy(s.title), "ALBUM", Str(if s.title.Some? then s.title.value else ""));
    var m2 := SetWhen(m1, Truthy(s.performer), "ALBUMARTIST", Str(if s.performer.Some? then s.performer.value else ""));
    var r := SetWhen(m2, s.tracks != [], "TRACKTOTAL", Int(|s.tracks|));
    SheetMetadataSteps(s, m1, m2, r);
    PrefixTrans(Keys(s.tags), Keys(m1), Keys(m2));
    PrefixTrans(Keys(s.tags), Keys(m2), Keys(r));
    r
  }

  /**
   * The keys of `get_metadata`'s result: the tags' in their order, then ALBUM, ALBUMARTIST and TRACKTOTAL,
   * each appended when it is set and was not there.
   */
  lemma SheetMetadataKeys(s: SheetValue)
    ensures Keys(SheetMetadata(s))
      == AddedKey(AddedKey(AddedKey(Keys(s.tags), Truthy(s.title), "ALBUM"), Truthy(s.performer), "ALBUMARTIST"),
                  s.tracks != [], "TRACKTOTAL")
  {
    var m1 := SetWhen(s.tags, Truthy(s.title), "ALBUM", Str(if s.title.Some? then s.title.value else ""));
    var m2 := SetWhen(m1, Truthy(s.performer), "ALBUMARTIST", Str(if s.performer.Some? then s.performer.value else ""));
    SetWhenKeys(s.tags, Truthy(s.title), "ALBUM", Str(if s.title.Some? then s.title.value else ""));
    SetWhenKeys(m1, Truthy(s.performer), "ALBUMARTIST", Str(if s.performer.Some? then s.performer.value else ""));
    SetWhenKeys(m2, s.tracks != [], "TRACKTOTAL", Int(|s.tracks|));
  }

  /** The three assignments of `get_metadata`, each known only by what `SetWhen` promises. */
  lemma SheetMetadataSteps(s: SheetValue, m1: Meta, m2: Meta, r: Meta)
    requires Get(m1, "ALBUM") == if Truthy(s.title) then Some(Str(s.title.value)) else Get(s.tags, "ALBUM")
    requires forall k' :: k' != "ALBUM" ==> Get(m1, k') == Get(s.tags, k')
    requires Get(m2, "ALBUMARTIST") ==
      if Truthy(s.performer) then Some(Str(s.performer.value)) else Get(m1, "ALBUMARTIST")
    requires forall k' :: k' != "ALBUMARTIST" ==> Get(m2, k') == Get(m1, k')
    requires Get(r, "TRACKTOTAL") == if s.tracks != [] then Some(Int(|s.tracks|)) else Get(m2, "TRACKTOTAL")
    requires forall k' :: k' != "TRACKTOTAL" ==> Get(r, k') == Get(m2, k')
    ensures forall k :: k != "ALBUM" && k != "ALBUMARTIST" && k != "TRACKTOTAL" ==> Get(r, k) == Get(s.tags, k)
    ensures Get(r, "ALBUM") == if Truthy(s.title) then Some(Str(s.title.value)) else Get(s.tags, "ALBUM")
    ensures Get(r, "ALBUMARTIST") ==
      if Truthy(s.performer) then Some(Str(s.performer.value)) else Get(s.tags, "ALBUMARTIST")
    ensures Get(r, "TRACKTOTAL") == if s.tracks != [] then Some(Int(|s.tracks|)) else Get(s.tags, "TRACKTOTAL")
  {
    assert Get(r, "ALBUM") == Get(m2, "ALBUM") == Get(m1, "ALBUM");
    assert Get(r, "ALBUMARTIST") == Get(m2, "ALBUMARTIST") && Get(m1, "ALBUMARTIST") == Get(s.tags, "ALBUMARTIST");
    assert Get(m2, "TRACKTOTAL") == Get(m1, "TRACKTOTAL") == Get(s.tags, "TRACKTOTAL");
  }

  // ---- read ----

  /** The REM keys the header keeps as tags. */
  const TagKeys: set<string> := {"DATE", "GENRE", "DISCID", "COMMENT"}

  /** The file types an AUDIO track may come from. */
  const AudioFileTypes: set<string> := {"WAVE", "MP3"}

  /** `' '.join(map(str.strip, parts))` */
  function JoinStripped(parts: seq<string>): string {
    Join(" ", seq(|parts|, i requires 0 <= i < |parts| => Strip(parts[i])))
  }

  /** The sheet read so far and the warnings printed so far. */
  datatype Progress = Progress(sheet: SheetValue, warnings: seq<Warning>)

  /**
   * One header line: the progress after it, None when the line ends the header (a directive other than
   * TITLE, PERFORMER and REM), or the error it raises.
   */
  function HeaderLine(line: seq<string>, lineNo: nat, p: Progress): (r: Result<Option<Progress>, Error>)
    requires line != []
  {
    var d := line[0];
    if d == "TITLE" || d == "PERFORMER" then
      match CheckTokenCount(Some(line), lineNo, 2)
      case Fail(e) => Err(e)
      case Pass =>
        var v := Some(Strip(line[1]));
        Ok(Some(p.(sheet := if d == "TITLE" then p.sheet.(title := v) else p.sheet.(performer := v))))
    else if d == "REM" then
      match CheckTokenCount(Some(line), lineNo, -2)
      case Fail(e) => Err(e)
      case Pass =>
        if |line| >= 3 && line[1] in TagKeys then
          Ok(Some(p.(sheet := p.sheet.(tags := Set(p.sheet.tags, line[1], Str(JoinStripped(line[2..])))))))
        else Ok(Some(p.(warnings := p.warnings + [IgnoredComment(lineNo, line)])))
    else if d != "" then Ok(None)
    else Ok(Some(p))
  }

  /**
   * The header loop from line counter `count`: the progress it makes, then either where it stopped (the
   * line that ends it, or None at end of input, with the line counter) or the error that ended it.
   */
  function Header(lines: seq<string>, count: nat, p: Progress): (Progress, Result<(Option<seq<string>>, nat), Error>)
    decreases |lines| - count
  {
    match NextLineFrom(lines, count)
    case Err(e) => (p, Err(e))
    case Ok((None, c)) => (p, Ok((None, c)))
    case Ok((Some(line), c)) =>
      match HeaderLine(line, c, p)
      case Err(e) => (p, Err(e))
      case Ok(None) => (p, Ok((Some(line), c)))
      case Ok(Some(p')) => Header(lines, c, p')
  }

  /**
   * The state of the body loop: the progress, `current_file`, and `current_track` (None, or the track with
   * whether it was appended: an appended current track is the last of the sheet's tracks, the same object).
   */
  datatype BodyState = BodyState(p: Progress, file: Option<FileRef>, track: Option<TrackValue>, appended: bool)

  /** `current_track` after an update, written through to the track list when it was appended. */
  function UpdateTrack(b: BodyState, t: TrackValue): (r: BodyState)
    requires b.appended ==> b.p.sheet.tracks != []
    ensures Coherent(r) && r.track == Some(t)
  {
    var ts := b.p.sheet.tracks;
    var ts' := if b.appended then ts[|ts| - 1 := t] else ts;
    b.(p := b.p.(sheet := b.p.sheet.(tracks := ts')), track := Some(t))
  }

  /** An appended current track is the last track of the sheet. */
  predicate Coherent(b: BodyState) {
    b.appended ==> b.track.Some? && b.p.sheet.tracks != [] && b.p.sheet.tracks[|b.p.sheet.tracks| - 1] == b.track.value
  }

  /** One body line: the state after it, or the error it raises. */
  function BodyLine(line: seq<string>, lineNo: nat, directory: string, b: BodyState): (r: Result<BodyState, Error>)
    requires line != [] && Coherent(b)
  {
    var d := line[0];
    if d == "FILE" then
      match CheckTokenCount(Some(line), lineNo, 3)
      case Fail(e) => Err(e)
      case Pass => Ok(b.(file := Some(FileRef(PathJoin(directory, line[1]), line[2])), track := None, appended := false))
    else if d == "TRACK" then
      match CheckTokenCount(Some(line), lineNo, 3)
      case Fail(e) => Err(e)
      case Pass =>
        if b.file.None? then Err(NoFileForTrack(lineNo))
        else match IntOf(line[1])
          case Err(e) => Err(e)
          case Ok(index) =>
            var t := TrackValue(Some(index), map[], None, b.file, Some(line[2]), None, None);
            if line[2] != "AUDIO" then Ok(b.(track := Some(t), appended := false))
            else if b.file.value.fileType !in AudioFileTypes then
              Err(UnsupportedFileType(lineNo, line[2], b.file.value.fileType))
            else
              Ok(b.(p := b.p.(sheet := b.p.sheet.(tracks := b.p.sheet.tracks + [t])), track := Some(t), appended := true))
    else if d == "INDEX" then
      match CheckTokenCount(Some(line), lineNo, 3)
      case Fail(e) => Err(e)
      case Pass =>
        if b.track.None? then Err(NoTrackFor(lineNo, d))
        else match IntOf(line[1])
          case Err(e) => Err(e)
          case Ok(k) =>
            match OffsetFrames(line[2])
            case Err(e) => Err(e)
            case Ok(frames) => Ok(UpdateTrack(b, b.track.value.(offset := b.track.value.offset[k := frames])))
    else if d == "TITLE" || d == "PERFORMER" then
      match CheckTokenCount(Some(line), lineNo, 2)
      case Fail(e) => Err(e)
      case Pass =>
        if b.track.None? then Err(NoTrackFor(lineNo, d))
        else
          var v := Some(Strip(line[1]));
          Ok(UpdateTrack(b, if d == "TITLE" then b.track.value.(title := v) else b.track.value.(performer := v)))
    else if d == "REM" then Ok(b)
    else if d != "" then Ok(b.(p := b.p.(warnings := b.p.warnings + [IllegalCommand(lineNo, d)])))
    else Ok(b)
  }

  /** Every body line keeps an appended current track the last of the sheet's tracks. */
  lemma BodyLineCoherent(line: seq<string>, lineNo: nat, directory: string, b: BodyState)
    requires line != [] && Coherent(b)
    ensures BodyLine(line, lineNo, directory, b).Ok? ==> Coherent(BodyLine(line, lineNo, directory, b).value)
  {
    var d := line[0];
    if d == "FILE" {
    } else if d == "TRACK" {
    } else if d == "INDEX" {
    } else if d == "TITLE" || d == "PERFORMER" {
    } else {
    }
  }

  /**
   * The body loop while `tok.line` holds a line: process it (its number is the line counter), read the next
   * one, and go on; the progress made and the outcome.
   */
  function Body(lines: seq<string>, count: nat, line: Option<seq<string>>, directory: string, b: BodyState)
    : (Progress, Outcome<Error>)
    requires line.Some? && line.value != [] ==> count <= |lines|
    requires Coherent(b)
    decreases if line.Some? && line.value != [] then |lines| + 1 - count else 0
  {
    if line.None? || line.value == [] then (b.p, Pass)
    else match BodyLine(line.value, count, directory, b)
      case Err(e) => (b.p, Fail(e))
      case Ok(b') =>
        BodyLineCoherent(line.value, count, directory, b);
        match NextLineFrom(lines, count)
        case Err(e) => (b'.p, Fail(e))
        case Ok((next, c)) => Body(lines, c, next, directory, b')
  }

  /** A body line that raises ends the body loop with the progress before it. */
  lemma BodyFails(lines: seq<string>, count: nat, line: seq<string>, directory: string, b: BodyState)
    requires line != [] && count <= |lines| && Coherent(b)
    requires BodyLine(line, count, directory, b).Err?
    ensures Body(lines, count, Some(line), directory, b) == (b.p, Fail(BodyLine(line, count, directory, b).error))
  {
  }

  /** A body line that goes through hands its state to the next line, or ends with it if reading fails. */
  lemma BodyGoesOn(lines: seq<string>, count: nat, line: seq<string>, directory: string, b: BodyState, b': BodyState)
    requires line != [] && count <= |lines| && Coherent(b)
    requires BodyLine(line, count, directory, b) == Ok(b')
    ensures Coherent(b')
    ensures NextLineFrom(lines, count).Err? ==>
      Body(lines, count, Some(line), directory, b) == (b'.p, Fail(NextLineFrom(lines, count).error))
    ensures NextLineFrom(lines, count).Ok? ==>
      var (next, c) := NextLineFrom(lines, count).value;
      (next.Some? && next.value != [] ==> c <= |lines|) &&
      Body(lines, count, Some(line), directory, b) == Body(lines, c, next, directory, b')
  {
    BodyLineCoherent(line, count, directory, b);
  }

  /** What `read` does to a sheet: the sheet and warnings it leaves, and whether it raised. */
  datatype ReadResult = ReadResult(sheet: SheetValue, warnings: seq<Warning>, outcome: Outcome<Error>)

  /** `CueSheet.read(src, directory)` on a sheet `s` for the lines `src` yields: the header, then the body. */
  function ReadSheet(lines: seq<string>, directory: string, s: SheetValue): ReadResult {
    var (p, h) := Header(lines, 0, Progress(s, []));
    match h
    case Err(e) => ReadResult(p.sheet, p.warnings, Fail(e))
    case Ok((line, c)) =>
      HeaderStops(lines, 0, Progress(s, []));
      var (q, o) := Body(lines, c, line, directory, BodyState(p, None, None, false));
      ReadResult(q.sheet, q.warnings, o)
  }

  /** The header stops on a line within the input, or at its end. */
  lemma {:induction false} HeaderStops(lines: seq<string>, count: nat, p: Progress)
    ensures var h := Header(lines, count, p).1; h.Ok? && h.value.0.Some? ==> h.value.0.value != [] && h.value.1 <= |lines|
    decreases |lines| - count
  {
    match NextLineFrom(lines, count)
    case Err(_) =>
    case Ok((None, c)) =>
    case Ok((Some(line), c)) =>
      match HeaderLine(line, c, p)
      case Err(_) =>
      case Ok(None) =>
      case Ok(Some(p')) => HeaderStops(lines, c, p');
  }

  // ---- compute_lengths and convert ----

  /**
   * The length `compute_lengths` gives `cur` when `next` follows it: None when they come from different
   * files, else the next track's INDEX 00 (or INDEX 01 without one) less this track's INDEX 01.
   */
  function LengthOf(cur: TrackValue, next: TrackValue): Result<Option<int>, Error> {
    if cur.file != next.file then Ok(None)
    else if 0 !in next.offset && 1 !in next.offset then Err(MissingOffset(1))
    else if 1 !in cur.offset then Err(MissingOffset(1))
    else Ok(Some((if 0 in next.offset then next.offset[0] else next.offset[1]) - cur.offset[1]))
  }

  /** The loop of `compute_lengths` from track `i`: the tracks it leaves, and whether it raised. */
  function LengthsFrom(ts: seq<TrackValue>, i: nat): (r: (seq<TrackValue>, Outcome<Error>))
    ensures |r.0| == |ts|
    decreases |ts| - i
  {
    if i + 1 >= |ts| then (ts, Pass)
    else match LengthOf(ts[i], ts[i + 1])
      case Err(e) => (ts, Fail(e))
      case Ok(l) => LengthsFrom(ts[i := ts[i].(length := l)], i + 1)
  }

  /** The album metadata `convert` hands every track: `get_metadata()` with CUESHEET set to the empty text. */
  function AlbumMetadata(s: SheetValue): (r: Meta)
    ensures Get(r, "CUESHEET") == Some(Str(""))
    ensures forall k :: k != "CUESHEET" ==> Get(r, k) == Get(SheetMetadata(s), k)
    ensures Valid(s.tags) ==> Valid(r)
  {
    Set(SheetMetadata(s), "CUESHEET", Str(""))
  }

  /**
   * The track loop of `convert` from track `i`, where `convert(t)` is what converting the track `t` logs and
   * whether it raised: the invocations made, up to the first track that raises.
   */
  function ConvertFrom(ts: seq<TrackValue>, i: nat, convert: TrackValue -> (seq<Invocation>, Outcome<Error>))
    : (seq<Invocation>, Outcome<Error>)
    decreases |ts| - i
  {
    if i >= |ts| then ([], Pass)
    else
      var (log, o) := convert(ts[i]);
      if o.Fail? then (log, o)
      else
        var (rest, o') := ConvertFrom(ts, i + 1, convert);
        (log + rest, o')
  }

  /** `track.convert(filename_format, ffmpeg_cmd, ffmpeg_args, album)` as a function of the track. */
  function TrackConverter(filenameFormat: string, ffmpegCmd: seq<CmdItem>, ffmpegArgs: seq<string>, album: Meta,
                          table: Util.Table, toolOk: seq<CmdItem> -> bool)
    : TrackValue -> (seq<Invocation>, Outcome<Error>)
  {
    t => TrackConversion(t, filenameFormat, ffmpegCmd, ffmpegArgs, album, table, toolOk)
  }

  /**
   * `CueSheet.convert`: the lengths are computed (the sheet keeps them even if a later step raises), then
   * every track is converted in order with the same album metadata.
   */
  function SheetConversion(s: SheetValue, filenameFormat: string, ffmpegCmd: seq<CmdItem>, ffmpegArgs: seq<string>,
                           table: Util.Table, toolOk: seq<CmdItem> -> bool)
    : (SheetValue, seq<Invocation>, Outcome<Error>)
  {
    var (ts, o) := LengthsFrom(s.tracks, 0);
    var s' := s.(tracks := ts);
    if o.Fail? then (s', [], o)
    else
      var (log, o') := ConvertFrom(ts, 0, TrackConverter(filenameFormat, ffmpegCmd, ffmpegArgs, AlbumMetadata(s'), table, toolOk));
      (s', log, o')
  }

  /** The step of the track loop of `convert`: track `i`, then the rest unless it raised. */
  lemma ConvertFromStep(ts: seq<TrackValue>, i: nat, convert: TrackValue -> (seq<Invocation>, Outcome<Error>))
    requires i < |ts|
    ensures var rest := ConvertFrom(ts, i + 1, convert);
      ConvertFrom(ts, i, convert) == if convert(ts[i]).1.Fail? then convert(ts[i]) else (convert(ts[i]).0 + rest.0, rest.1)
  {
  }

  /** The track loop of `convert`: each track converted in order, up to the first that raises. */
  method ConvertTracks(ts: seq<TrackValue>, convert: TrackValue -> (seq<Invocation>, Outcome<Error>))
    returns (log: seq<Invocation>, r: Outcome<Error>)
    ensures (log, r) == ConvertFrom(ts, 0, convert)
  {
    log := [];
    var i := 0;
    assert ConvertFrom(ts, 0, convert).0 == [] + ConvertFrom(ts, 0, convert).0;
    while i < |ts|
      invariant 0 <= i <= |ts|
      invariant ConvertFrom(ts, 0, convert) == (log + ConvertFrom(ts, i, convert).0, ConvertFrom(ts, i, convert).1)
    {
      var (l, o) := convert(ts[i]);
      ConvertFromStep(ts, i, convert);
      if o.Fail? {
        return log + l, o;
      }
      assert (log + l) + ConvertFrom(ts, i + 1, convert).0 == log + (l + ConvertFrom(ts, i + 1, convert).0);
      log := log + l;
      i := i + 1;
    }
    r := Pass;
    assert log + [] == log;
  }

  /** The value of `current_track`, when there is one. */
  function TrackOf(t: CueTrack?): Option<TrackValue>
    reads t
  {
    if t == null then None else Some(t.Value())
  }

  /** A cue sheet: the album's title and performer, its REM tags, and its audio tracks in order. */
  class CueSheet {
    var title: Option<string>
    var performer: Option<string>
    var tags: Meta
    var tracks: seq<TrackValue>

    function Value(): SheetValue
      reads this
    {
      SheetValue(title, performer, tags, tracks)
    }

    /** `CueSheet(title, performer)`: no tags and no tracks yet. */
    constructor (title: Option<string>, performer: Option<string>)
      ensures Value() == SheetValue(title, performer, Dict([]), [])
    {
      this.title := title;
      this.performer := performer;
      tags := Dict([]);
      tracks := [];
    }

    /**
     * `read(src, directory)` over the lines `src` yields: the header loop, then the body loop over the line
     * that ended the header and those after it. Returns the warnings printed and whether it raised.
     */
    method Read(lines: seq<string>, directory: string) returns (warnings: seq<Warning>, r: Outcome<Error>)
      modifies this
      ensures var spec := ReadSheet(lines, directory, old(Value()));
        Value() == spec.sheet && warnings == spec.warnings && r == spec.outcome
    {
      var tok := new CueSheetTokenizer(lines);
      warnings, r := ReadHeader(tok);
      if r.Fail? {
        assert Header(lines, 0, Progress(old(Value()), [])).1.Err?;
        return;
      }
      HeaderStops(lines, 0, Progress(old(Value()), []));
      warnings, r := ReadBody(tok, directory, warnings);
    }

    /** The header loop of `read`: reads lines until one that is not a header directive, or the end. */
    method ReadHeader(tok: CueSheetTokenizer) returns (warnings: seq<Warning>, r: Outcome<Error>)
      modifies this, tok
      ensures var (p, h) := Header(tok.lines, old(tok.lineCount), Progress(old(Value()), []));
        && Value() == p.sheet && warnings == p.warnings
        && (h.Err? ==> r == Fail(h.error))
        && (h.Ok? ==> r.Pass? && tok.line == h.value.0 && tok.lineCount == h.value.1)
    {
      warnings := [];
      ghost var lines := tok.lines;
      ghost var spec := Header(lines, tok.lineCount, Progress(Value(), []));
      var done := false;
      while !done
        invariant tok.lines == lines
        invariant !done ==> spec == Header(lines, tok.lineCount, Progress(Value(), warnings))
        invariant done ==> spec == (Progress(Value(), warnings), Ok((tok.line, tok.lineCount)))
        decreases if done then 0 else 1, |lines| - tok.lineCount
      {
        var next := tok.NextLine();
        if next.Err? {
          return warnings, Fail(next.error);
        }
        if next.value.None? {
          done := true;
        } else {
          warnings, done, r := ReadHeaderLine(next.value.value, tok.lineCount, warnings);
          if r.Fail? {
            return;
          }
        }
      }
      r := Pass;
    }

    /**
     * The body loop of `read`, from the tokenizer's current line: each FILE, TRACK, INDEX, TITLE and
     * PERFORMER line in turn, then the next line, until the end of input.
     */
    method ReadBody(tok: CueSheetTokenizer, directory: string, warnings: seq<Warning>)
      returns (warnings': seq<Warning>, r: Outcome<Error>)
      requires tok.line.Some? && tok.line.value != [] ==> tok.lineCount <= |tok.lines|
      modifies this, tok
      ensures var (q, o) := Body(tok.lines, old(tok.lineCount), old(tok.line), directory,
                                 BodyState(Progress(old(Value()), warnings), None, None, false));
        Value() == q.sheet && warnings' == q.warnings && r == o
    {
      warnings' := warnings;
      ghost var lines := tok.lines;
      ghost var spec := Body(lines, tok.lineCount, tok.line, directory, BodyState(Progress(Value(), warnings), None, None, false));
      var currentFile: Option<FileRef> := None;
      var current: CueTrack? := null;
      var appended := false;
      while tok.line.Some? && tok.line.value != []
        invariant tok.lines == lines
        invariant current != null ==> fresh(current)
        invariant tok.line.Some? && tok.line.value != [] ==> tok.lineCount <= |lines|
        invariant Coherent(BodyState(Progress(Value(), warnings'), currentFile, TrackOf(current), appended))
        invariant spec ==
          Body(lines, tok.lineCount, tok.line, directory, BodyState(Progress(Value(), warnings'), currentFile, TrackOf(current), appended))
        decreases |lines| + 1 - tok.lineCount
      {
        ghost var b := BodyState(Progress(Value(), warnings'), currentFile, TrackOf(current), appended);
        ghost var count := tok.lineCount;
        var line := tok.line.value;
        warnings', currentFile, current, appended, r :=
          ReadBodyLine(line, tok.lineCount, directory, warnings', currentFile, current, appended);
        if r.Fail? {
          BodyFails(lines, count, line, directory, b);
          return;
        }
        ghost var b' := BodyState(Progress(Value(), warnings'), currentFile, TrackOf(current), appended);
        BodyGoesOn(lines, count, line, directory, b, b');
        var next := tok.NextLine();
        if next.Err? {
          return warnings', Fail(next.error);
        }
      }
      r := Pass;
    }

    /** One pass of the header loop on `line`: whether it ends the header, or the error it raises. */
    method ReadHeaderLine(line: seq<string>, lineNo: nat, warnings: seq<Warning>)
      returns (warnings': seq<Warning>, ends: bool, r: Outcome<Error>)
      requires line != []
      modifies this
      ensures HeaderLine(line, lineNo, Progress(old(Value()), warnings)) ==
        if r.Fail? then Err(r.error) else if ends then Ok(None) else Ok(Some(Progress(Value(), warnings')))
      ensures r.Fail? || ends ==> Value() == old(Value()) && warnings' == warnings
    {
      warnings', ends, r := warnings, false, Pass;
      var d := line[0];
      if d == "TITLE" || d == "PERFORMER" {
        r := CheckTokenCount(Some(line), lineNo, 2);
        if r.Fail? {
          return;
        }
        if d == "TITLE" {
          title := Some(Strip(line[1]));
        } else {
          performer := Some(Strip(line[1]));
        }
      } else if d == "REM" {
        r := CheckTokenCount(Some(line), lineNo, -2);
        if r.Fail? {
          return;
        }
        if |line| >= 3 && line[1] in TagKeys {
          tags := Set(tags, line[1], Str(JoinStripped(line[2..])));
        } else {
          warnings' := warnings + [IgnoredComment(lineNo, line)];
        }
      } else if d != "" {
        ends := true;
      }
    }

    /**
     * One pass of the body loop on `line`, given `current_file`, `current_track` and whether that track was
     * appended: their new values, or the error the line raises.
     */
    method ReadBodyLine(line: seq<string>, lineNo: nat, directory: string, warnings: seq<Warning>,
                        file: Option<FileRef>, current: CueTrack?, appended: bool)
      returns (warnings': seq<Warning>, file': Option<FileRef>, current': CueTrack?, appended': bool, r: Outcome<Error>)
      requires line != []
      requires Coherent(BodyState(Progress(Value(), warnings), file, TrackOf(current), appended))
      modifies this, current
      ensures current' != null ==> current' == current || fresh(current')
      ensures var b := BodyState(Progress(old(Value()), warnings), file, old(TrackOf(current)), appended);
        BodyLine(line, lineNo, directory, b) ==
          if r.Fail? then Err(r.error) else Ok(BodyState(Progress(Value(), warnings'), file', TrackOf(current'), appended'))
      ensures r.Fail? ==> Value() == old(Value()) && warnings' == warnings
    {
      warnings', file', current', appended', r := warnings, file, current, appended, Pass;
      var d := line[0];
      if d == "FILE" {
        r := CheckTokenCount(Some(line), lineNo, 3);
        if r.Fail? {
          return;
        }
        file' := Some(FileRef(PathJoin(directory, line[1]), line[2]));
        current' := null;
        appended' := false;
      } else if d == "TRACK" {
        warnings', file', current', appended', r := ReadTrackLine(line, lineNo, directory, warnings, file, current, appended);
      } else if d == "INDEX" {
        warnings', file', current', appended', r := ReadIndexLine(line, lineNo, directory, warnings, file, current, appended);
      } else if d == "TITLE" || d == "PERFORMER" {
        warnings', file', current', appended', r := ReadFieldLine(line, lineNo, directory, warnings, file, current, appended);
      } else if d != "REM" && d != "" {
        warnings' := warnings + [IllegalCommand(lineNo, d)];
      }
    }

    /** A TRACK line: a new `CueTrack` from the current file, appended when AUDIO. */
    method ReadTrackLine(line: seq<string>, lineNo: nat, directory: string, warnings: seq<Warning>,
                         file: Option<FileRef>, current: CueTrack?, appended: bool)
      returns (warnings': seq<Warning>, file': Option<FileRef>, current': CueTrack?, appended': bool, r: Outcome<Error>)
      requires line != []
      requires line[0] == "TRACK"
      requires Coherent(BodyState(Progress(Value(), warnings), file, TrackOf(current), appended))
      modifies this, current
      ensures current' != null ==> current' == current || fresh(current')
      ensures var b := BodyState(Progress(old(Value()), warnings), file, old(TrackOf(current)), appended);
        BodyLine(line, lineNo, directory, b) ==
          if r.Fail? then Err(r.error) else Ok(BodyState(Progress(Value(), warnings'), file', TrackOf(current'), appended'))
      ensures r.Fail? ==> Value() == old(Value()) && warnings' == warnings
    {
      warnings', file', current', appended', r := warnings, file, current, appended, Pass;
      r := CheckTokenCount(Some(line), lineNo, 3);
      if r.Fail? {
        return;
      }
      if file.None? {
        r := Fail(NoFileForTrack(lineNo));
        return;
      }
      var index := IntOf(line[1]);
      if index.Err? {
        r := Fail(index.error);
        return;
      }
      var t := new CueTrack(Some(index.value), map[], None, file, Some(line[2]), None, None);
      if line[2] == "AUDIO" {
        if file.value.fileType !in AudioFileTypes {
          r := Fail(UnsupportedFileType(lineNo, line[2], file.value.fileType));
          return;
        }
        tracks := tracks + [t.Value()];
      }
      current', appended' := t, line[2] == "AUDIO";
    }

    /** An INDEX line: an offset of the current track, written through to the last track when appended. */
    method ReadIndexLine(line: seq<string>, lineNo: nat, directory: string, warnings: seq<Warning>,
                         file: Option<FileRef>, current: CueTrack?, appended: bool)
      returns (warnings': seq<Warning>, file': Option<FileRef>, current': CueTrack?, appended': bool, r: Outcome<Error>)
      requires line != []
      requires line[0] == "INDEX"
      requires Coherent(BodyState(Progress(Value(), warnings), file, TrackOf(current), appended))
      modifies this, current
      ensures current' != null ==> current' == current || fresh(current')
      ensures var b := BodyState(Progress(old(Value()), warnings), file, old(TrackOf(current)), appended);
        BodyLine(line, lineNo, directory, b) ==
          if r.Fail? then Err(r.error) else Ok(BodyState(Progress(Value(), warnings'), file', TrackOf(current'), appended'))
      ensures r.Fail? ==> Value() == old(Value()) && warnings' == warnings
    {
      warnings', file', current', appended', r := warnings, file, current, appended, Pass;
      r := CheckTokenCount(Some(line), lineNo, 3);
      if r.Fail? {
        return;
      }
      if current == null {
        r := Fail(NoTrackFor(lineNo, line[0]));
        return;
      }
      var k := IntOf(line[1]);
      if k.Err? {
        r := Fail(k.error);
        return;
      }
      r := current.ParseOffset(line[2], k.value);
      if r.Fail? {
        return;
      }
      if appended {
        tracks := tracks[|tracks| - 1 := current.Value()];
      }
    }

    /** A TITLE or PERFORMER line: the stripped parameter on the current track, written through when appended. */
    method ReadFieldLine(line: seq<string>, lineNo: nat, directory: string, warnings: seq<Warning>,
                         file: Option<FileRef>, current: CueTrack?, appended: bool)
      returns (warnings': seq<Warning>, file': Option<FileRef>, current': CueTrack?, appended': bool, r: Outcome<Error>)
      requires line != []
      requires line[0] == "TITLE" || line[0] == "PERFORMER"
      requires Coherent(BodyState(Progress(Value(), warnings), file, TrackOf(current), appended))
      modifies this, current
      ensures current' != null ==> current' == current || fresh(current')
      ensures var b := BodyState(Progress(old(Value()), warnings), file, old(TrackOf(current)), appended);
        BodyLine(line, lineNo, directory, b) ==
          if r.Fail? then Err(r.error) else Ok(BodyState(Progress(Value(), warnings'), file', TrackOf(current'), appended'))
      ensures r.Fail? ==> Value() == old(Value()) && warnings' == warnings
    {
      warnings', file', current', appended', r := warnings, file, current, appended, Pass;
      r := CheckTokenCount(Some(line), lineNo, 2);
      if r.Fail? {
        return;
      }
      if current == null {
        r := Fail(NoTrackFor(lineNo, line[0]));
        return;
      }
      if line[0] == "TITLE" {
        current.title := Some(Strip(line[1]));
      } else {
        current.performer := Some(Strip(line[1]));
      }
      if appended {
        tracks := tracks[|tracks| - 1 := current.Value()];
      }
    }

    /** `compute_lengths`: the length of every track but the last, from the offsets of the track after it. */
    method ComputeLengths() returns (r: Outcome<Error>)
      modifies this
      ensures Value() == old(Value()).(tracks := LengthsFrom(old(tracks), 0).0)
      ensures r == LengthsFrom(old(tracks), 0).1
    {
      var i := 0;
      while i + 1 < |tracks|
        invariant Value() == old(Value()).(tracks := tracks)
        invariant LengthsFrom(old(tracks), 0) == LengthsFrom(tracks, i)
        decreases |tracks| - i
      {
        var l := LengthOf(tracks[i], tracks[i + 1]);
        if l.Err? {
          return Fail(l.error);
        }
        tracks := tracks[i := tracks[i].(length := l.value)];
        i := i + 1;
      }
      r := Pass;
    }

    /**
     * `convert(filename_format, ffmpeg_cmd, ffmpeg_args)`: computes the lengths, then converts each track with
     * the album metadata. `table` is the file name filter, `toolOk` whether the tool succeeds on a list.
     */
    method Convert(filenameFormat: string, ffmpegCmd: seq<CmdItem>, ffmpegArgs: seq<string>, table: Util.Table,
                   toolOk: seq<CmdItem> -> bool)
      returns (log: seq<Invocation>, r: Outcome<Error>)
      modifies this
      ensures (Value(), log, r) == SheetConversion(old(Value()), filenameFormat, ffmpegCmd, ffmpegArgs, table, toolOk)
    {
      log := [];
      r := ComputeLengths();
      if r.Fail? {
        return;
      }
      log, r := ConvertTracks(tracks, TrackConverter(filenameFormat, ffmpegCmd, ffmpegArgs, AlbumMetadata(Value()), table, toolOk));
    }
  }
}
