/**
 * `cuetrack.py`: one track of a cue sheet, its start offsets in frames (75 per second), the metadata it
 * contributes, the character filters applied to metadata used in file names, and the ffmpeg argument list
 * that extracts it.
 */
module Tracks {
  import opened Wrappers
  import opened Strings
  import opened Numbers
  import opened Errors
  import opened Dicts
  import opened Metadata
  import opened Paths
  import opened Commands
  import opened Templates
  import Util

  const FramesPerSecond: int := 75

  /** `(path, file type)` of the FILE a track belongs to. */
  datatype FileRef = FileRef(path: string, fileType: string)

  /** The fields of a `CueTrack` at one moment. */
  datatype TrackValue = TrackValue(
    index: Option<int>, offset: map<int, int>, length: Option<int>, file: Option<FileRef>,
    trackType: Option<string>, title: Option<string>, performer: Option<string>)

  // ---- filename templates ----

  const ShortTemplate: string := "{TRACKNUMBER:02d} {TITLE}"
  const LongTemplate: string := "{TRACKNUMBER:02d} {ARTIST} - {TITLE}"
  /** `os.path.join('{ALBUMARTIST}', '[{DATE}] {ALBUM}', short)` */
  const FullTemplate: string := PathJoin(PathJoin("{ALBUMARTIST}", "[{DATE}] {ALBUM}"), ShortTemplate)

  /** `FILENAME_FORMAT_TEMPLATES`, in insertion order. */
  const FilenameFormatTemplates: Dict<string> :=
    Dict([("short", ShortTemplate), ("long", LongTemplate), ("full", FullTemplate)])

  // ---- offsets ----

  /** `int(text)`, with Python's ValueError as an error value. */
  function IntOf(text: string): (r: Result<int, Error>)
    ensures r.Ok? <==> ParseInt(text).Some?
    ensures r.Ok? ==> r.value == ParseInt(text).value
    ensures r.Err? ==> r.error == InvalidInteger(text)
  {
    match ParseInt(text)
    case None => Err(InvalidInteger(text))
    case Some(n) => Ok(n)
  }

  /**
   * The frame count `parse_offset` stores for `MM:SS:FF`: `s.split(':', 2)` must give three fields, each
   * an integer literal (parsed from the left, so the first bad field is the error). No field is
   * range-checked.
   */
  function OffsetFrames(s: string): (r: Result<int, Error>)
    ensures |SplitN(s, ':', 2)| != 3 ==> r == Err(InvalidOffsetSyntax(s))
  {
    var tok := SplitN(s, ':', 2);
    if |tok| != 3 then Err(InvalidOffsetSyntax(s)) else FieldsFrames(tok[0], tok[1], tok[2])
  }

  /** `map(int, tok)` on the three fields, then the frame count. */
  function FieldsFrames(minutes: string, seconds: string, fragments: string): (r: Result<int, Error>)
  {
    var m, n, f := IntOf(minutes), IntOf(seconds), IntOf(fragments);
    if m.Err? then Err(m.error)
    else if n.Err? then Err(n.error)
    else if f.Err? then Err(f.error)
    else Ok((m.value * 60 + n.value) * FramesPerSecond + f.value)
  }

  // ---- metadata ----

  /** The keys after `metadata[k] = ...` when `c` holds: a new key goes last, a present one keeps its place. */
  function AddedKey(ks: seq<string>, c: bool, k: string): seq<string> {
    if c && k !in ks then ks + [k] else ks
  }

  /** Adding `k` leaves the presence of every other key as it was. */
  lemma OtherKeyKept(ks: seq<string>, c: bool, k: string, x: string)
    requires x != k
    ensures x in AddedKey(ks, c, k) <==> x in ks
  {
  }

  /** `metadata[k] = v` when `c` holds. */
  function SetWhen(m: Meta, c: bool, k: string, v: Value): (r: Meta)
    ensures Keys(m) <= Keys(r)
    ensures Get(r, k) == if c then Some(v) else Get(m, k)
    ensures forall k' :: k' != k ==> Get(r, k') == Get(m, k')
    ensures Valid(m) ==> Valid(r)
  {
    if c then Set(m, k, v) else m
  }

  /** `metadata[k] = v` appends a new key and leaves a present one in its place. */
  lemma SetWhenKeys(m: Meta, c: bool, k: string, v: Value)
    ensures Keys(SetWhen(m, c, k, v)) == AddedKey(Keys(m), c, k)
  {
  }

  /**
   * `CueTrack.get_metadata(album)`: a copy of the album metadata with TRACKNUMBER set from the index, TITLE
   * from a non-empty title, and ARTIST from a non-empty performer or else from ALBUMARTIST when present.
   * New keys go last; keys already present keep their place.
   */
  function TrackMetadata(t: TrackValue, album: Meta): (r: Meta)
    ensures Keys(album) <= Keys(r)
    ensures forall k :: k != "TRACKNUMBER" && k != "TITLE" && k != "ARTIST" ==> Get(r, k) == Get(album, k)
    ensures Get(r, "TRACKNUMBER") == if t.index.Some? then Some(Int(t.index.value)) else Get(album, "TRACKNUMBER")
    ensures Get(r, "TITLE") == if Truthy(t.title) then Some(Str(t.title.value)) else Get(album, "TITLE")
    ensures Get(r, "ARTIST") ==
      if Truthy(t.performer) then Some(Str(t.performer.value))
      else if Has(album, "ALBUMARTIST") then Get(album, "ALBUMARTIST")
      else Get(album, "ARTIST")
    ensures Valid(album) ==> Valid(r)
  {
    var m1 := SetWhen(album, t.index.Some?, "TRACKNUMBER", Int(if t.index.Some? then t.index.value else 0));
    var m2 := SetWhen(m1, Truthy(t.title), "TITLE", Str(if t.title.Some? then t.title.value else ""));
    var albumArtist := Get(m2, "ALBUMARTIST");
    var artist := if Truthy(t.performer) then Some(Str(t.performer.value)) else albumArtist;
    var r := SetWhen(m2, artist.Some?, "ARTIST", if artist.Some? then artist.value else Str(""));
    TrackMetadataSteps(t, album, m1, m2, r);
    PrefixTrans(Keys(album), Keys(m1), Keys(m2));
    PrefixTrans(Keys(album), Keys(m2), Keys(r));
    r
  }

  /**
   * The keys of `get_metadata`'s result: the album's in their order, then TRACKNUMBER, TITLE and ARTIST,
   * each appended when it is set and was not there.
   */
  lemma TrackMetadataKeys(t: TrackValue, album: Meta)
    ensures Keys(TrackMetadata(t, album))
      == AddedKey(AddedKey(AddedKey(Keys(album), t.index.Some?, "TRACKNUMBER"), Truthy(t.title), "TITLE"),
                  Truthy(t.performer) || Has(album, "ALBUMARTIST"), "ARTIST")
  {
    var m1 := SetWhen(album, t.index.Some?, "TRACKNUMBER", Int(if t.index.Some? then t.index.value else 0));
    var m2 := SetWhen(m1, Truthy(t.title), "TITLE", Str(if t.title.Some? then t.title.value else ""));
    var artist := if Truthy(t.performer) then Some(Str(t.performer.value)) else Get(m2, "ALBUMARTIST");
    SetWhenKeys(album, t.index.Some?, "TRACKNUMBER", Int(if t.index.Some? then t.index.value else 0));
    SetWhenKeys(m1, Truthy(t.title), "TITLE", Str(if t.title.Some? then t.title.value else ""));
    SetWhenKeys(m2, artist.Some?, "ARTIST", if artist.Some? then artist.value else Str(""));
    assert Get(m2, "ALBUMARTIST").Some? == Has(album, "ALBUMARTIST") by {
      OtherKeyKept(Keys(album), t.index.Some?, "TRACKNUMBER", "ALBUMARTIST");
      OtherKeyKept(Keys(m1), Truthy(t.title), "TITLE", "ALBUMARTIST");
    }
  }

  /** The three assignments of `get_metadata`, each known only by what `SetWhen` promises. */
  lemma TrackMetadataSteps(t: TrackValue, album: Meta, m1: Meta, m2: Meta, r: Meta)
    requires Get(m1, "TRACKNUMBER") == if t.index.Some? then Some(Int(t.index.value)) else Get(album, "TRACKNUMBER")
    requires forall k' :: k' != "TRACKNUMBER" ==> Get(m1, k') == Get(album, k')
    requires Get(m2, "TITLE") == if Truthy(t.title) then Some(Str(t.title.value)) else Get(m1, "TITLE")
    requires forall k' :: k' != "TITLE" ==> Get(m2, k') == Get(m1, k')
    requires Get(r, "ARTIST") ==
      if Truthy(t.performer) then Some(Str(t.performer.value))
      else if Has(m2, "ALBUMARTIST") then Get(m2, "ALBUMARTIST")
      else Get(m2, "ARTIST")
    requires forall k' :: k' != "ARTIST" ==> Get(r, k') == Get(m2, k')
    ensures forall k :: k != "TRACKNUMBER" && k != "TITLE" && k != "ARTIST" ==> Get(r, k) == Get(album, k)
    ensures Get(r, "TRACKNUMBER") == if t.index.Some? then Some(Int(t.index.value)) else Get(album, "TRACKNUMBER")
    ensures Get(r, "TITLE") == if Truthy(t.title) then Some(Str(t.title.value)) else Get(album, "TITLE")
    ensures Get(r, "ARTIST") ==
      if Truthy(t.performer) then Some(Str(t.performer.value))
      else if Has(album, "ALBUMARTIST") then Get(album, "ALBUMARTIST")
      else Get(album, "ARTIST")
  {
    assert Get(m2, "ALBUMARTIST") == Get(m1, "ALBUMARTIST") == Get(album, "ALBUMARTIST");
    assert Has(m2, "ALBUMARTIST") == Has(album, "ALBUMARTIST");
    assert Get(m2, "ARTIST") == Get(m1, "ARTIST") == Get(album, "ARTIST");
  }

  lemma PrefixTrans(a: seq<string>, b: seq<string>, c: seq<string>)
    requires a <= b && b <= c
    ensures a <= c
  {
    assert c[..|a|] == c[..|b|][..|a|];
  }

  /** The translation tables selectable with `--format-filter`. */
  datatype FilterMode = Minimal | Full | Windows | Posix

  /** `str_maketrans(os.sep + (os.altsep or ''), '-', '\0')` */
  const MinimalTable: Util.Table := Util.MakeTrans([Sep], "-", "\0").value

  /** The characters the full table replaces: `'"<>:/\\|*' + os.sep + (os.altsep or '')`. */
  const FullFrom: string := "\"<>:/\\|*" + [Sep]

  /** `str_maketrans(FullFrom, "'-", '?')` */
  const FullBaseTable: Util.Table := Util.MakeTrans(FullFrom, "'-", "?").value

  /** `(c, None) for c in range(32)`: the control characters, deleted. */
  const ControlDeletions: Util.Table := map c: char | c < ' ' :: None

  /** The full table, then `update((c, None) for c in range(32))`. */
  const FullTable: Util.Table := FullBaseTable + ControlDeletions

  /** `translate_metadata.maps[mode]`: `windows` is the full table, `posix` the minimal one. */
  function TableOf(mode: FilterMode): Util.Table {
    match mode
    case Minimal => MinimalTable
    case Posix => MinimalTable
    case Full => FullTable
    case Windows => FullTable
  }

  /** `translate_metadata(meta)`: every string value translated through the table, other values kept. */
  function TranslateValue(v: Value, table: Util.Table): (r: Value)
    ensures v.Int? ==> r == v
    ensures v.Str? ==> r == Str(Util.Translate(v.s, table))
  {
    match v
    case Str(s) => Str(Util.Translate(s, table))
    case Int(_) => v
  }

  function TranslateMetadata(meta: Meta, table: Util.Table): (r: Meta)
    ensures Keys(r) == Keys(meta)
    ensures forall k :: Has(meta, k) ==> Get(r, k) == Some(TranslateValue(Get(meta, k).value, table))
  {
    MapValues(meta, v => TranslateValue(v, table))
  }

  /** `k + '=' + str(v)` for the entry `(k, v)`. */
  function Assignment(e: (string, Value)): string {
    e.0 + "=" + Render(e.1)
  }

  /** The arguments for the entries `es`, in order. */
  function EntriesArgs(es: seq<(string, Value)>): (r: seq<string>)
    ensures |r| == 2 * |es|
    ensures forall i :: 0 <= i < |es| ==> r[2 * i] == "-metadata" && r[2 * i + 1] == Assignment(es[i])
  {
    if es == [] then []
    else
      var init := es[..|es| - 1];
      var p := EntriesArgs(init);
      assert es == init + [es[|es| - 1]];
      PairsAppend(init, es[|es| - 1], p);
      p + ["-metadata", Assignment(es[|es| - 1])]
  }

  /** Appending one entry's pair to the arguments of the entries before it. */
  lemma PairsAppend(init: seq<(string, Value)>, e: (string, Value), p: seq<string>)
    requires |p| == 2 * |init|
    requires forall i :: 0 <= i < |init| ==> p[2 * i] == "-metadata" && p[2 * i + 1] == Assignment(init[i])
    ensures var es, r := init + [e], p + ["-metadata", Assignment(e)];
      forall i :: 0 <= i < |es| ==> r[2 * i] == "-metadata" && r[2 * i + 1] == Assignment(es[i])
  {
    var es, r := init + [e], p + ["-metadata", Assignment(e)];
    forall i | 0 <= i < |es| ensures r[2 * i] == "-metadata" && r[2 * i + 1] == Assignment(es[i]) {
      if i < |init| {
        assert es[i] == init[i];
        assert r[2 * i] == p[2 * i] && r[2 * i + 1] == p[2 * i + 1];
      }
    }
  }

  /**
   * `metadata_to_ffmpeg_args(meta)`: for each entry in iteration order, `-metadata` followed by
   * `key=str(value)`.
   */
  function MetadataArgs(meta: Meta): (r: seq<string>)
    ensures |r| == 2 * |meta.entries|
    ensures forall i :: 0 <= i < |meta.entries| ==>
      r[2 * i] == "-metadata" && r[2 * i + 1] == meta.entries[i].0 + "=" + Render(meta.entries[i].1)
  {
    EntriesArgs(meta.entries)
  }

  /** The append loop of `metadata_to_ffmpeg_args`. */
  method MetadataToFfmpegArgs(meta: Meta) returns (args: seq<string>)
    ensures args == MetadataArgs(meta)
  {
    args := [];
    for i := 0 to |meta.entries|
      invariant args == EntriesArgs(meta.entries[..i])
    {
      var (k, v) := meta.entries[i];
      assert meta.entries[..i + 1][..i] == meta.entries[..i];
      ghost var before := args;
      args := args + ["-metadata"];
      args := args + [k + "=" + Render(v)];
      assert args == before + ["-metadata", Assignment(meta.entries[i])];
    }
    assert meta.entries[..|meta.entries|] == meta.entries;
  }

  // ---- seek and duration ----

  /**
   * The thousandths of a second nearest to `frames / 75` (in magnitude). `40 * frames / 3` has a
   * fractional part of 0, 1/3 or 2/3, so there is never a tie.
   */
  function Thousandths(frames: nat): (t: nat)
    ensures -75 <= 2 * (75 * t - 1000 * frames) <= 75
  {
    (80 * frames + 3) / 6
  }

  /** Three decimal digits, zero-padded. */
  function ThreeDigits(n: nat): (r: string)
    requires n < 1000
    ensures |r| == 3 && forall i :: 0 <= i < 3 ==> IsDigit(r[i])
  {
    [DigitChar(n / 100), DigitChar(n / 10 % 10), DigitChar(n % 10)]
  }

  /** `format(frames / 75, '.3f')` */
  function Seconds(frames: int): (r: string)
  {
    var t := Thousandths(if frames < 0 then -frames else frames);
    (if frames < 0 then "-" else "") + NatToString(t / 1000) + "." + ThreeDigits(t % 1000)
  }

  // ---- conversion ----

  /**
   * The argument list `convert` builds: the command words after the leading actions, `-ss` and the start,
   * `-i` and the file path, `-t` and the duration when the length is known, the metadata arguments, the
   * extra ffmpeg arguments, and the file name rendered from the translated metadata. A missing start
   * offset, a missing file and a template that does not render are the errors, in that order.
   */
  function TrackCommand(t: TrackValue, filenameFormat: string, ffmpegCmd: seq<CmdItem>, ffmpegArgs: seq<string>,
                        album: Meta, table: Util.Table): (r: Result<seq<CmdItem>, Error>)
  {
    if 1 !in t.offset then Err(MissingOffset(1))
    else if t.file.None? then Err(NoFile)
    else
      var meta := TrackMetadata(t, album);
      match Format(filenameFormat, TranslateMetadata(meta, table))
      case Err(e) => Err(e)
      case Ok(name) =>
        Ok(AfterActions(ffmpegCmd) + Words(ArgumentWords(t.offset[1], t.file.value.path, t.length, meta, ffmpegArgs, name)))
  }

  /** The words after the command words, for a start offset, a file path, a length, the metadata and the file name. */
  function ArgumentWords(start: int, path: string, length: Option<int>, meta: Meta, ffmpegArgs: seq<string>,
                         name: string): seq<string>
  {
    ["-ss", Seconds(start), "-i", path]
      + (if length.Some? then ["-t", Seconds(length.value)] else [])
      + MetadataArgs(meta)
      + ffmpegArgs
      + [name]
  }

  /**
   * Running the actions in order, each with the same list. The print action always succeeds; the call
   * action fails when the tool exits with an error (`toolOk` says how the tool exits for an argument list),
   * and no later action runs.
   */
  function RunActions(actions: seq<Action>, cmd: seq<CmdItem>, toolOk: seq<CmdItem> -> bool)
    : (seq<Invocation>, Outcome<Error>)
  {
    if actions == [] then ([], Pass)
    else if actions[0] == CallAction && !toolOk(cmd) then ([Invocation(CallAction, cmd)], Fail(ToolFailed(cmd)))
    else
      var (log, o) := RunActions(actions[1..], cmd, toolOk);
      ([Invocation(actions[0], cmd)] + log, o)
  }

  /**
   * The log holds one invocation per action run, in order and with the same list; the run passes exactly
   * when every action ran and the tool succeeded if it was called, and a failure is the call that failed.
   */
  lemma {:induction false} RunActionsLog(actions: seq<Action>, cmd: seq<CmdItem>, toolOk: seq<CmdItem> -> bool)
    ensures var r := RunActions(actions, cmd, toolOk);
      && |r.0| <= |actions|
      && (forall i :: 0 <= i < |r.0| ==> r.0[i] == Invocation(actions[i], cmd))
      && (r.1.Pass? <==> |r.0| == |actions| && (CallAction in actions ==> toolOk(cmd)))
      && (r.1.Fail? ==> r.1.error == ToolFailed(cmd) && r.0 != [] && r.0[|r.0| - 1].action == CallAction)
  {
    if actions != [] && !(actions[0] == CallAction && !toolOk(cmd)) {
      RunActionsLog(actions[1..], cmd, toolOk);
      assert CallAction in actions <==> actions[0] == CallAction || CallAction in actions[1..] by {
        assert actions == [actions[0]] + actions[1..];
      }
    }
  }

  /** The actions `convert` runs: the leading ones of the command, or the call action alone if there are none. */
  function ActionsToRun(ffmpegCmd: seq<CmdItem>): (r: seq<Action>)
    ensures r != []
    ensures LeadingActions(ffmpegCmd) != [] ==> r == LeadingActions(ffmpegCmd)
    ensures LeadingActions(ffmpegCmd) == [] ==> r == [CallAction]
  {
    var actions := LeadingActions(ffmpegCmd);
    if actions == [] then [CallAction] else actions
  }

  /** `CueTrack.convert`: the actions run on the argument list, or the error met building it. */
  function TrackConversion(t: TrackValue, filenameFormat: string, ffmpegCmd: seq<CmdItem>, ffmpegArgs: seq<string>,
                           album: Meta, table: Util.Table, toolOk: seq<CmdItem> -> bool)
    : (r: (seq<Invocation>, Outcome<Error>))
    ensures TrackCommand(t, filenameFormat, ffmpegCmd, ffmpegArgs, album, table).Err? ==>
      r == ([], Fail(TrackCommand(t, filenameFormat, ffmpegCmd, ffmpegArgs, album, table).error))
  {
    match TrackCommand(t, filenameFormat, ffmpegCmd, ffmpegArgs, album, table)
    case Err(e) => ([], Fail(e))
    case Ok(cmd) => RunActions(ActionsToRun(ffmpegCmd), cmd, toolOk)
  }

  /** A track: its position and file, its start offsets by INDEX number, and its length once computed. */
  class CueTrack {
    var index: Option<int>
    var offset: map<int, int>
    var length: Option<int>
    var file: Option<FileRef>
    var trackType: Option<string>
    var title: Option<string>
    var performer: Option<string>

    function Value(): TrackValue
      reads this
    {
      TrackValue(index, offset, length, file, trackType, title, performer)
    }

    constructor (index: Option<int>, offset: map<int, int>, length: Option<int>, file: Option<FileRef>,
                 trackType: Option<string>, title: Option<string>, performer: Option<string>)
      ensures Value() == TrackValue(index, offset, length, file, trackType, title, performer)
    {
      this.index := index;
      this.offset := offset;
      this.length := length;
      this.file := file;
      this.trackType := trackType;
      this.title := title;
      this.performer := performer;
    }

    /** `parse_offset(s, offset_index)`: stores the frame count under `offset_index`; nothing else changes. */
    method ParseOffset(s: string, offsetIndex: int) returns (r: Outcome<Error>)
      modifies this
      ensures OffsetFrames(s).Ok? ==> r == Pass && offset == old(offset)[offsetIndex := OffsetFrames(s).value]
      ensures OffsetFrames(s).Err? ==> r == Fail(OffsetFrames(s).error) && offset == old(offset)
      ensures Value() == old(Value()).(offset := offset)
    {
      var frames := OffsetFrames(s);
      if frames.Err? {
        return Fail(frames.error);
      }
      offset := offset[offsetIndex := frames.value];
      return Pass;
    }

    /**
     * The argument list `convert` builds by appending: the command words, the seek and input, the duration
     * when known, the metadata arguments, the extra arguments and the file name.
     */
    method Command(filenameFormat: string, ffmpegCmd: seq<CmdItem>, ffmpegArgs: seq<string>, album: Meta,
                   table: Util.Table)
      returns (r: Result<seq<CmdItem>, Error>)
      ensures r == TrackCommand(Value(), filenameFormat, ffmpegCmd, ffmpegArgs, album, table)
    {
      var cmd := AfterActions(ffmpegCmd);
      ghost var words: seq<string> := [];
      assert cmd == AfterActions(ffmpegCmd) + Words(words);
      cmd, words := cmd + [Word("-ss")], Pushed(AfterActions(ffmpegCmd), words, "-ss");
      assert cmd == AfterActions(ffmpegCmd) + Words(words);
      if 1 !in offset {
        return Err(MissingOffset(1));
      }
      cmd, words := cmd + [Word(Seconds(offset[1]))], Pushed(AfterActions(ffmpegCmd), words, Seconds(offset[1]));
      assert cmd == AfterActions(ffmpegCmd) + Words(words);
      cmd, words := cmd + [Word("-i")], Pushed(AfterActions(ffmpegCmd), words, "-i");
      assert cmd == AfterActions(ffmpegCmd) + Words(words);
      if file.None? {
        return Err(NoFile);
      }
      cmd, words := cmd + [Word(file.value.path)], Pushed(AfterActions(ffmpegCmd), words, file.value.path);
      assert cmd == AfterActions(ffmpegCmd) + Words(words);
      ghost var head := ["-ss", Seconds(offset[1]), "-i", file.value.path];
      assert words == head;
      if length.Some? {
        cmd, words := cmd + [Word("-t")], Pushed(AfterActions(ffmpegCmd), words, "-t");
        assert cmd == AfterActions(ffmpegCmd) + Words(words);
        cmd, words := cmd + [Word(Seconds(length.value))], Pushed(AfterActions(ffmpegCmd), words, Seconds(length.value));
        assert cmd == AfterActions(ffmpegCmd) + Words(words);
      }
      ghost var duration := if length.Some? then ["-t", Seconds(length.value)] else [];
      assert words == head + duration;
      var metadata := TrackMetadata(Value(), album);
      var metadataArgs := MetadataToFfmpegArgs(metadata);
      WordsAppend(AfterActions(ffmpegCmd), words, metadataArgs);
      cmd, words := cmd + Words(metadataArgs), words + metadataArgs;
      assert cmd == AfterActions(ffmpegCmd) + Words(words);
      WordsAppend(AfterActions(ffmpegCmd), words, ffmpegArgs);
      cmd, words := cmd + Words(ffmpegArgs), words + ffmpegArgs;
      assert cmd == AfterActions(ffmpegCmd) + Words(words);
      var filename := Format(filenameFormat, TranslateMetadata(metadata, table));
      if filename.Err? {
        return Err(filename.error);
      }
      cmd, words := cmd + [Word(filename.value)], Pushed(AfterActions(ffmpegCmd), words, filename.value);
      assert cmd == AfterActions(ffmpegCmd) + Words(words);
      assert words == ArgumentWords(offset[1], file.value.path, length, metadata, ffmpegArgs, filename.value);
      return Ok(cmd);
    }

    /**
     * `convert(filename_format, ffmpeg_cmd, ffmpeg_args, album_metadata)`: builds the argument list, then
     * runs the actions on it. Creating the file name's parent directories is taken to succeed.
     */
    method Convert(filenameFormat: string, ffmpegCmd: seq<CmdItem>, ffmpegArgs: seq<string>, album: Meta,
                   table: Util.Table, toolOk: seq<CmdItem> -> bool)
      returns (log: seq<Invocation>, r: Outcome<Error>)
      ensures (log, r) == TrackConversion(Value(), filenameFormat, ffmpegCmd, ffmpegArgs, album, table, toolOk)
    {
      var cmd := Command(filenameFormat, ffmpegCmd, ffmpegArgs, album, table);
      if cmd.Err? {
        return [], Fail(cmd.error);
      }
      var actions := LeadingActions(ffmpegCmd);
      if actions == [] {
        actions := [CallAction];
      }
      log, r := Run(actions, cmd.value, toolOk);
    }
  }

  /** `words + [w]`, knowing that wrapping it extends `pre + Words(words)` by the word `w`. */
  ghost function Pushed(pre: seq<CmdItem>, words: seq<string>, w: string): (r: seq<string>)
    ensures r == words + [w] && pre + Words(words) + [Word(w)] == pre + Words(r)
  {
    WordsAppend(pre, words, [w]);
    assert Words([w]) == [Word(w)];
    words + [w]
  }

  /** The action loop of `convert`: each action in order on the same list, up to the first failure. */
  method Run(actions: seq<Action>, cmd: seq<CmdItem>, toolOk: seq<CmdItem> -> bool)
    returns (log: seq<Invocation>, r: Outcome<Error>)
    ensures (log, r) == RunActions(actions, cmd, toolOk)
  {
    log := [];
    var i := 0;
    assert actions[i..] == actions;
    assert [] + RunActions(actions, cmd, toolOk).0 == RunActions(actions, cmd, toolOk).0;
    while i < |actions|
      invariant 0 <= i <= |actions|
      invariant RunActions(actions, cmd, toolOk) ==
        (log + RunActions(actions[i..], cmd, toolOk).0, RunActions(actions[i..], cmd, toolOk).1)
    {
      assert actions[i..][0] == actions[i];
      assert actions[i..][1..] == actions[i + 1..];
      var rest := RunActions(actions[i + 1..], cmd, toolOk);
      if actions[i] == CallAction && !toolOk(cmd) {
        return log + [Invocation(actions[i], cmd)], Fail(ToolFailed(cmd));
      }
      assert RunActions(actions[i..], cmd, toolOk) == ([Invocation(actions[i], cmd)] + rest.0, rest.1);
      assert log + ([Invocation(actions[i], cmd)] + rest.0) == log + [Invocation(actions[i], cmd)] + rest.0;
      log := log + [Invocation(actions[i], cmd)];
      i := i + 1;
    }
    assert log + [] == log;
    return log, Pass;
  }
}
