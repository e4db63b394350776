/** What reading, measuring and converting a cue sheet guarantee. */
module SheetProperties {
  import opened Wrappers
  import opened Numbers
  import opened Strings
  import opened Errors
  import opened Dicts
  import opened Metadata
  import opened Paths
  import opened Commands
  import opened Tokenizing
  import opened Tracks
  import opened Sheets
  import Util

  // ---- the header ----

  /** TITLE and PERFORMER take exactly one parameter and set the album's field to it, stripped. */
  lemma HeaderTitlePerformer(line: seq<string>, lineNo: nat, p: Progress)
    requires line != [] && (line[0] == "TITLE" || line[0] == "PERFORMER")
    ensures |line| != 2 ==> HeaderLine(line, lineNo, p) == Err(ExactArity(lineNo, line[0], 1))
    ensures |line| == 2 ==>
      HeaderLine(line, lineNo, p) ==
        Ok(Some(Progress(SheetValue(if line[0] == "TITLE" then Some(Strip(line[1])) else p.sheet.title,
                                    if line[0] == "PERFORMER" then Some(Strip(line[1])) else p.sheet.performer,
                                    p.sheet.tags, p.sheet.tracks),
                         p.warnings)))
  {
  }

  /**
   * REM takes at least one parameter. `REM DATE|GENRE|DISCID|COMMENT value...` sets that tag to the stripped
   * values joined by spaces; any other REM is reported as an ignored comment and changes nothing.
   */
  lemma HeaderRem(line: seq<string>, lineNo: nat, p: Progress)
    requires line != [] && line[0] == "REM"
    ensures |line| < 2 ==> HeaderLine(line, lineNo, p) == Err(MinimumArity(lineNo, "REM", 1))
    ensures |line| >= 2 ==> HeaderLine(line, lineNo, p).Ok? && HeaderLine(line, lineNo, p).value.Some?
    ensures |line| >= 2 ==> var q := HeaderLine(line, lineNo, p).value.value;
      && q.sheet.title == p.sheet.title && q.sheet.performer == p.sheet.performer && q.sheet.tracks == p.sheet.tracks
      && if |line| >= 3 && line[1] in TagKeys then
           && q.warnings == p.warnings
           && Get(q.sheet.tags, line[1]) == Some(Str(JoinStripped(line[2..])))
           && forall k :: k != line[1] ==> Get(q.sheet.tags, k) == Get(p.sheet.tags, k)
         else q.sheet.tags == p.sheet.tags && q.warnings == p.warnings + [IgnoredComment(lineNo, line)]
  {
  }

  /**
   * The header adds no track, and it stops on the first line whose directive is not TITLE, PERFORMER or
   * REM, which `read` then hands to the body loop.
   */
  lemma {:induction false} HeaderEnds(lines: seq<string>, count: nat, p: Progress)
    ensures Header(lines, count, p).0.sheet.tracks == p.sheet.tracks
    ensures var h := Header(lines, count, p).1;
      h.Ok? && h.value.0.Some? ==> h.value.0.value != [] && h.value.0.value[0] !in {"TITLE", "PERFORMER", "REM", ""}
    decreases |lines| - count
  {
    match NextLineFrom(lines, count)
    case Err(_) =>
    case Ok((None, c)) =>
    case Ok((Some(line), c)) =>
      HeaderLineKeepsTracks(line, c, p);
      match HeaderLine(line, c, p)
      case Err(_) =>
      case Ok(None) =>
      case Ok(Some(p')) => HeaderEnds(lines, c, p');
  }

  /** A header line adds no track, and it ends the header only with a directive other than the header's own. */
  lemma HeaderLineKeepsTracks(line: seq<string>, lineNo: nat, p: Progress)
    requires line != []
    ensures var r := HeaderLine(line, lineNo, p);
      && (r == Ok(None) ==> line[0] !in {"TITLE", "PERFORMER", "REM", ""})
      && (r.Ok? && r.value.Some? ==> r.value.value.sheet.tracks == p.sheet.tracks)
  {
  }

  // ---- the body ----

  /**
   * TRACK needs a FILE before it; INDEX, TITLE and PERFORMER need a TRACK; an AUDIO track needs a WAVE or
   * MP3 file. FILE starts a new file with no current track.
   */
  lemma BodyLineContext(line: seq<string>, lineNo: nat, directory: string, b: BodyState)
    requires line != [] && Coherent(b)
    ensures var r := BodyLine(line, lineNo, directory, b);
      && (line[0] == "FILE" && |line| == 3 ==>
            r == Ok(b.(file := Some(FileRef(PathJoin(directory, line[1]), line[2])), track := None, appended := false)))
      && (line[0] == "TRACK" && |line| == 3 && b.file.None? ==> r == Err(NoFileForTrack(lineNo)))
      && (line[0] == "TRACK" && |line| == 3 && b.file.Some? && ParseInt(line[1]).Some? && line[2] == "AUDIO" &&
          b.file.value.fileType !in AudioFileTypes ==>
            r == Err(UnsupportedFileType(lineNo, "AUDIO", b.file.value.fileType)))
      && (line[0] == "INDEX" && |line| == 3 && b.track.None? ==> r == Err(NoTrackFor(lineNo, "INDEX")))
      && ((line[0] == "TITLE" || line[0] == "PERFORMER") && |line| == 2 && b.track.None? ==>
            r == Err(NoTrackFor(lineNo, line[0])))
  {
  }

  /**
   * A TRACK line in a file makes a new current track with that number, type and file and no offsets; it is
   * appended to the sheet exactly when it is an AUDIO track.
   */
  lemma BodyLineTrack(line: seq<string>, lineNo: nat, directory: string, b: BodyState)
    requires line != [] && Coherent(b)
    requires line[0] == "TRACK" && |line| == 3 && b.file.Some? && ParseInt(line[1]).Some?
    requires line[2] == "AUDIO" ==> b.file.value.fileType in AudioFileTypes
    ensures BodyLine(line, lineNo, directory, b).Ok?
    ensures var r := BodyLine(line, lineNo, directory, b).value;
      && r.track == Some(TrackValue(ParseInt(line[1]), map[], None, b.file, Some(line[2]), None, None))
      && r.file == b.file && r.p.warnings == b.p.warnings && r.appended == (line[2] == "AUDIO")
      && r.p.sheet.tracks == b.p.sheet.tracks + (if line[2] == "AUDIO" then [r.track.value] else [])
  {
  }

  /**
   * `INDEX k mm:ss:ff` records the frame count under `k` in the current track, and so in the sheet's
   * last track when the current track was appended.
   */
  lemma BodyLineIndex(line: seq<string>, lineNo: nat, directory: string, b: BodyState)
    requires line != [] && Coherent(b)
    requires line[0] == "INDEX" && |line| == 3 && b.track.Some? && ParseInt(line[1]).Some? && OffsetFrames(line[2]).Ok?
    ensures BodyLine(line, lineNo, directory, b).Ok?
    ensures var r := BodyLine(line, lineNo, directory, b).value;
      && r.track == Some(b.track.value.(offset := b.track.value.offset[ParseInt(line[1]).value := OffsetFrames(line[2]).value]))
      && r.file == b.file && r.appended == b.appended && r.p.warnings == b.p.warnings
      && r.p.sheet.tracks ==
           if b.appended then b.p.sheet.tracks[|b.p.sheet.tracks| - 1 := r.track.value] else b.p.sheet.tracks
  {
  }

  /** A track `read` may keep: an AUDIO track of a WAVE or MP3 file. */
  predicate AudioTrack(t: TrackValue) {
    t.trackType == Some("AUDIO") && t.file.Some? && t.file.value.fileType in AudioFileTypes
  }

  /** `ts` is `prefix` followed by audio tracks only. */
  predicate ExtendsWithAudio(ts: seq<TrackValue>, prefix: seq<TrackValue>) {
    |prefix| <= |ts| && ts[..|prefix|] == prefix && forall i :: |prefix| <= i < |ts| ==> AudioTrack(ts[i])
  }

  /** What the body loop keeps of the sheet `s` it started on: its fields, its tracks, then audio tracks. */
  predicate BodyKeeps(b: BodyState, s: SheetValue) {
    && ExtendsWithAudio(b.p.sheet.tracks, s.tracks)
    && (b.appended ==> |b.p.sheet.tracks| > |s.tracks|)
    && b.p.sheet.title == s.title && b.p.sheet.performer == s.performer && b.p.sheet.tags == s.tags
  }

  lemma AppendKeeps(ts: seq<TrackValue>, prefix: seq<TrackValue>, t: TrackValue)
    requires ExtendsWithAudio(ts, prefix) && AudioTrack(t)
    ensures ExtendsWithAudio(ts + [t], prefix)
  {
    assert (ts + [t])[..|prefix|] == ts[..|prefix|];
  }

  lemma UpdateLastKeeps(ts: seq<TrackValue>, prefix: seq<TrackValue>, t: TrackValue)
    requires ExtendsWithAudio(ts, prefix) && |ts| > |prefix| && AudioTrack(t)
    ensures ExtendsWithAudio(ts[|ts| - 1 := t], prefix)
  {
    assert ts[|ts| - 1 := t][..|prefix|] == ts[..|prefix|];
  }

  /** Each body line keeps the album fields, and the sheet's tracks those it started with and then audio ones. */
  lemma BodyLineKeeps(line: seq<string>, lineNo: nat, directory: string, b: BodyState, s: SheetValue)
    requires line != [] && Coherent(b) && BodyKeeps(b, s)
    ensures var r := BodyLine(line, lineNo, directory, b); r.Ok? ==> BodyKeeps(r.value, s)
  {
    var d := line[0];
    if d == "TRACK" {
      TrackLineKeeps(line, lineNo, directory, b, s);
    } else if d == "INDEX" || d == "TITLE" || d == "PERFORMER" {
      TrackUpdateKeeps(line, lineNo, directory, b, s);
    }
  }

  lemma TrackLineKeeps(line: seq<string>, lineNo: nat, directory: string, b: BodyState, s: SheetValue)
    requires line != [] && line[0] == "TRACK" && Coherent(b) && BodyKeeps(b, s)
    ensures var r := BodyLine(line, lineNo, directory, b); r.Ok? ==> BodyKeeps(r.value, s)
  {
    var r := BodyLine(line, lineNo, directory, b);
    if r.Ok? && r.value.appended {
      AppendKeeps(b.p.sheet.tracks, s.tracks, r.value.track.value);
    }
  }

  lemma TrackUpdateKeeps(line: seq<string>, lineNo: nat, directory: string, b: BodyState, s: SheetValue)
    requires line != [] && (line[0] == "INDEX" || line[0] == "TITLE" || line[0] == "PERFORMER")
    requires Coherent(b) && BodyKeeps(b, s)
    ensures var r := BodyLine(line, lineNo, directory, b); r.Ok? ==> BodyKeeps(r.value, s)
  {
    var ts := b.p.sheet.tracks;
    var r := BodyLine(line, lineNo, directory, b);
    if r.Ok? && b.appended {
      assert AudioTrack(ts[|ts| - 1]);
      UpdateLastKeeps(ts, s.tracks, r.value.track.value);
    }
  }

  /** The body loop leaves the album fields as they were, and adds audio tracks only. */
  lemma {:induction false} BodyKeepsSheet(lines: seq<string>, count: nat, line: Option<seq<string>>, directory: string,
                                          b: BodyState, s: SheetValue)
    requires line.Some? && line.value != [] ==> count <= |lines|
    requires Coherent(b) && BodyKeeps(b, s)
    ensures var q := Body(lines, count, line, directory, b).0;
      && ExtendsWithAudio(q.sheet.tracks, s.tracks)
      && q.sheet.title == s.title && q.sheet.performer == s.performer && q.sheet.tags == s.tags
    decreases if line.Some? && line.value != [] then |lines| + 1 - count else 0
  {
    if line.Some? && line.value != [] {
      match BodyLine(line.value, count, directory, b)
      case Err(_) =>
      case Ok(b') =>
        BodyLineCoherent(line.value, count, directory, b);
        BodyLineKeeps(line.value, count, directory, b, s);
        match NextLineFrom(lines, count)
        case Err(_) =>
        case Ok((next, c)) => BodyKeepsSheet(lines, c, next, directory, b', s);
    }
  }

  /** `read` keeps the tracks the sheet had and appends to them only AUDIO tracks of WAVE or MP3 files. */
  lemma ReadAppendsAudio(lines: seq<string>, directory: string, s: SheetValue)
    ensures ExtendsWithAudio(ReadSheet(lines, directory, s).sheet.tracks, s.tracks)
  {
    var (p, h) := Header(lines, 0, Progress(s, []));
    HeaderEnds(lines, 0, Progress(s, []));
    if h.Ok? {
      var (line, c) := h.value;
      HeaderStops(lines, 0, Progress(s, []));
      assert p.sheet.tracks[..|s.tracks|] == s.tracks;
      BodyKeepsSheet(lines, c, line, directory, BodyState(p, None, None, false), p.sheet);
    } else {
      assert p.sheet.tracks[..|s.tracks|] == s.tracks;
    }
  }

  // ---- compute_lengths ----

  /** The track `t` with its length set to `l`. */
  function WithLength(t: TrackValue, l: Option<int>): TrackValue {
    t.(length := l)
  }

  /** The first track from `i` on whose length is undefined, or `|ts|` when every one from `i` on is defined. */
  function FirstUnmeasured(ts: seq<TrackValue>, i: nat): (k: nat)
    ensures k == |ts| || (i <= k < |ts| - 1 && LengthOf(ts[k], ts[k + 1]).Err?)
    ensures forall m :: i <= m < k && m < |ts| - 1 ==> LengthOf(ts[m], ts[m + 1]).Ok?
    decreases |ts| - i
  {
    if i + 1 >= |ts| then |ts| else if LengthOf(ts[i], ts[i + 1]).Err? then i else FirstUnmeasured(ts, i + 1)
  }

  /** Which track is the first unmeasured one depends only on the tracks from `i` on, and not on lengths. */
  lemma {:induction false} FirstUnmeasuredFrame(ts: seq<TrackValue>, ts': seq<TrackValue>, i: nat)
    requires |ts| == |ts'|
    requires forall j :: i <= j < |ts| ==> WithLength(ts[j], None) == WithLength(ts'[j], None)
    ensures FirstUnmeasured(ts, i) == FirstUnmeasured(ts', i)
    decreases |ts| - i
  {
    if i + 1 < |ts| {
      assert LengthOf(ts[i], ts[i + 1]) == LengthOf(ts'[i], ts'[i + 1]) by {
        assert WithLength(ts[i], None) == WithLength(ts'[i], None);
        assert WithLength(ts[i + 1], None) == WithLength(ts'[i + 1], None);
      }
      FirstUnmeasuredFrame(ts, ts', i + 1);
    }
  }

  /** The step of `compute_lengths` on a track whose length is defined: it is set, and the loop goes on. */
  lemma LengthsStep(ts: seq<TrackValue>, i: nat)
    requires i + 1 < |ts| && LengthOf(ts[i], ts[i + 1]).Ok?
    ensures var ts' := ts[i := WithLength(ts[i], LengthOf(ts[i], ts[i + 1]).value)];
      && LengthsFrom(ts, i) == LengthsFrom(ts', i + 1)
      && FirstUnmeasured(ts, i) == FirstUnmeasured(ts', i + 1)
      && forall k :: i + 1 <= k < |ts| - 1 ==> LengthOf(ts'[k], ts'[k + 1]) == LengthOf(ts[k], ts[k + 1])
  {
    var ts' := ts[i := WithLength(ts[i], LengthOf(ts[i], ts[i + 1]).value)];
    FirstUnmeasuredFrame(ts, ts', i + 1);
  }

  /**
   * `compute_lengths` from track `i` changes only lengths, and leaves as they are the tracks before `i`,
   * the last track, and the tracks from the first unmeasured one on.
   */
  lemma {:induction false} LengthsKeep(ts: seq<TrackValue>, i: nat)
    requires i <= |ts|
    ensures forall j :: 0 <= j < |ts| ==> WithLength(ts[j], LengthsFrom(ts, i).0[j].length) == LengthsFrom(ts, i).0[j]
    ensures forall j :: 0 <= j < |ts| && (j < i || j >= FirstUnmeasured(ts, i) || j == |ts| - 1) ==>
      LengthsFrom(ts, i).0[j] == ts[j]
    decreases |ts| - i
  {
    if i + 1 < |ts| && LengthOf(ts[i], ts[i + 1]).Ok? {
      var ts' := ts[i := WithLength(ts[i], LengthOf(ts[i], ts[i + 1]).value)];
      LengthsStep(ts, i);
      LengthsKeep(ts', i + 1);
    }
  }

  /** Each track from `i` up to the first unmeasured one gets the length LengthOf computes from the next. */
  lemma {:induction false} LengthsSet(ts: seq<TrackValue>, i: nat)
    requires i <= |ts|
    ensures forall k :: i <= k < FirstUnmeasured(ts, i) && k < |ts| - 1 ==>
      LengthsFrom(ts, i).0[k].length == LengthOf(ts[k], ts[k + 1]).value
    decreases |ts| - i
  {
    if i + 1 < |ts| && LengthOf(ts[i], ts[i + 1]).Ok? {
      var ts' := ts[i := WithLength(ts[i], LengthOf(ts[i], ts[i + 1]).value)];
      LengthsStep(ts, i);
      LengthsSet(ts', i + 1);
      LengthsKeep(ts', i + 1);
    }
  }

  /** `compute_lengths` passes exactly when no track is unmeasured, and fails with the first one's error. */
  lemma {:induction false} LengthsOutcome(ts: seq<TrackValue>, i: nat)
    requires i <= |ts|
    ensures LengthsFrom(ts, i).1.Pass? <==> FirstUnmeasured(ts, i) == |ts|
    ensures LengthsFrom(ts, i).1.Fail? ==>
      LengthsFrom(ts, i).1.error == LengthOf(ts[FirstUnmeasured(ts, i)], ts[FirstUnmeasured(ts, i) + 1]).error
    decreases |ts| - i
  {
    if i + 1 < |ts| && LengthOf(ts[i], ts[i + 1]).Ok? {
      var ts' := ts[i := WithLength(ts[i], LengthOf(ts[i], ts[i + 1]).value)];
      LengthsStep(ts, i);
      LengthsOutcome(ts', i + 1);
    }
  }

  /**
   * After `compute_lengths` succeeds, every track but the last has the length LengthOf gives it from the
   * track after it, the last keeps its own, and nothing else changes.
   */
  lemma ComputedLengths(ts: seq<TrackValue>)
    requires LengthsFrom(ts, 0).1.Pass?
    ensures var r := LengthsFrom(ts, 0).0;
      && |r| == |ts|
      && (forall k :: 0 <= k < |ts| - 1 ==>
            LengthOf(ts[k], ts[k + 1]).Ok? && r[k] == WithLength(ts[k], LengthOf(ts[k], ts[k + 1]).value))
      && (ts != [] ==> r[|ts| - 1] == ts[|ts| - 1])
  {
    LengthsKeep(ts, 0);
    LengthsSet(ts, 0);
    LengthsOutcome(ts, 0);
  }

  /** Tracks of the same file measure from INDEX 01 to the next track's INDEX 00, or its INDEX 01 without one. */
  lemma LengthBetween(cur: TrackValue, next: TrackValue)
    requires cur.file == next.file && 1 in cur.offset
    ensures 0 in next.offset ==> LengthOf(cur, next) == Ok(Some(next.offset[0] - cur.offset[1]))
    ensures 0 !in next.offset && 1 in next.offset ==> LengthOf(cur, next) == Ok(Some(next.offset[1] - cur.offset[1]))
    ensures 0 !in next.offset && 1 !in next.offset ==> LengthOf(cur, next) == Err(MissingOffset(1))
  {
  }

  // ---- convert ----

  /**
   * The track loop of `convert` from track `i` passes exactly when every track from `i` on converts; when
   * it fails, the failure is that of the first track that did not convert.
   */
  lemma {:induction false} ConvertFromSpec(ts: seq<TrackValue>, i: nat, convert: TrackValue -> (seq<Invocation>, Outcome<Error>))
    requires i <= |ts|
    ensures var o := ConvertFrom(ts, i, convert).1;
      && (o.Pass? <==> forall j :: i <= j < |ts| ==> convert(ts[j]).1.Pass?)
      && (o.Fail? ==> exists j :: i <= j < |ts| && o == convert(ts[j]).1 && forall m :: i <= m < j ==> convert(ts[m]).1.Pass?)
    decreases |ts| - i
  {
    if i < |ts| && convert(ts[i]).1.Pass? {
      ConvertFromSpec(ts, i + 1, convert);
      var o := ConvertFrom(ts, i + 1, convert).1;
      if o.Fail? {
        var j :| i + 1 <= j < |ts| && o == convert(ts[j]).1 && forall m :: i + 1 <= m < j ==> convert(ts[m]).1.Pass?;
        assert forall m :: i <= m < j ==> convert(ts[m]).1.Pass?;
      }
    }
  }

  /**
   * `convert` runs nothing when a length cannot be computed; otherwise it hands every track the same album
   * metadata, whose TRACKTOTAL is the number of tracks and whose CUESHEET is empty.
   */
  lemma ConversionAlbum(s: SheetValue, filenameFormat: string, ffmpegCmd: seq<CmdItem>, ffmpegArgs: seq<string>,
                        table: Util.Table, toolOk: seq<CmdItem> -> bool)
    ensures var c := SheetConversion(s, filenameFormat, ffmpegCmd, ffmpegArgs, table, toolOk);
      && |c.0.tracks| == |s.tracks| && c.0.title == s.title && c.0.performer == s.performer && c.0.tags == s.tags
      && (LengthsFrom(s.tracks, 0).1.Fail? ==> c.1 == [] && c.2 == LengthsFrom(s.tracks, 0).1)
      && (LengthsFrom(s.tracks, 0).1.Pass? ==>
            && (c.1, c.2) == ConvertFrom(c.0.tracks, 0,
                                         TrackConverter(filenameFormat, ffmpegCmd, ffmpegArgs, AlbumMetadata(c.0), table, toolOk))
            && Get(AlbumMetadata(c.0), "CUESHEET") == Some(Str(""))
            && Get(AlbumMetadata(c.0), "TRACKTOTAL") ==
                 if s.tracks != [] then Some(Int(|s.tracks|)) else Get(s.tags, "TRACKTOTAL"))
  {
    LengthsKeep(s.tracks, 0);
  }
}
