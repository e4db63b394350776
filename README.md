# cuesplit, modelled in Dafny

`cuesplit` splits an audio image into one file per track, as a cue sheet describes. It reads the sheet line by
line:

- The tokenizer turns each line into a command and its parameters. A quoted parameter may contain blanks.
- The header sets the album's TITLE and PERFORMER and keeps the REM tags DATE, GENRE, DISCID and COMMENT.
- The body reads FILE, TRACK, INDEX, TITLE and PERFORMER commands. It keeps the AUDIO tracks, with their start
  offsets in frames (75 per second).

When the sheet is converted:

- each track's length is computed from the offset of the track after it;
- each track gets its metadata from the album's;
- metadata used in the output file name is filtered through a translation table;
- each track becomes one `ffmpeg` argument list. The seek position and duration are printed with three
  decimals, followed by `-metadata` pairs, the extra arguments and the file name rendered from a `str.format`
  template.

The list is then handed to the conversion actions: print it, run it, or both. The command-line front end picks
the file name template (`short`, `long`, `full` or `format:...`), adds an extension and a prefix directory, and
assembles the command prefix.

The model is split into these modules:

- `Tokenizing` and `TokenizerProperties` model the tokenizer; `NextLineProperties` models `next_line`.
- `Sheets` and `SheetProperties` model the cue sheet.
- `Tracks` and `TrackProperties` model a track.
- `Templates` and `TemplateProperties` model the `str.format` subset that the templates use.
- `Util` models the utilities.
- `Cli` models the front end.

Support modules model Python's behaviour:

- `Strings` models `str.strip`, `find`, `join` and `split`.
- `Numbers` models `int()` and `str()`.
- `Dicts` models insertion-ordered dictionaries.
- `Paths` models `posixpath.join`.
- `Metadata` models metadata values.
- `Commands` models command lists whose leading entries are actions.
- `Errors` models the exceptions and warnings.

The model follows these conventions:

- Stateful objects are classes whose methods are proved against specification functions
  (`Tokenizing.CueSheetTokenizer`, `Tracks.CueTrack`, `Sheets.CueSheet`).
- Loops in the source are `while` or `for` loops with invariants (`NextLine`, `Tokenize`, `StrMakeTrans`,
  `DetectBom`, `MetadataToFfmpegArgs`, `ConvertTracks`, `ComputeLengths`, the read loops).
- Every exception is an error value (`Errors.Error`), and every printed warning is an element of a warnings
  list.
- `parse_offset` does not range-check seconds or frames.
- The `full` table maps `:` to `-`.
- `compute_lengths` leaves the last track's length unchanged.

## Model

The rows below state properties of these definitions, each of which follows one stretch of the source:

- `Templates.Format` and `Templates.RenderField` model the `filename_format.format(...)` call at
  src/cuesplit/cuetrack.py:98.
- `Sheets.HeaderLine` models one turn of the header loop at src/cuesplit/cuesheet.py:34-49.
- `Sheets.BodyLine` models one turn of the body loop at src/cuesplit/cuesheet.py:54-101.
- `Sheets.LengthOf` models the body of `compute_lengths` at src/cuesplit/cuesheet.py:106-114.
- `Tracks.TrackCommand` models the argument list built at src/cuesplit/cuetrack.py:84-100.
- `Tracks.Seconds` models `format(frames / 75, '.3f')` at src/cuesplit/cuetrack.py:86 and 92.
- `Tracks.RunActions` models the action calls at src/cuesplit/cuetrack.py:102-112.

| member | source | states |
|---|---|---|
| Tokenizing.MatchToken | src/cuesplit/cuesheettokenizer.py:8 | A match of `token_pattern` at a position: the token ends after the position, holds no quote, and is either the text between a quote and the next quote or a non-empty run without blanks, and never starts at a blank |
| Tokenizing.Scan | src/cuesplit/cuesheettokenizer.py:64-72 | The scan loop keeps the tokens found so far as a prefix and adds only quote-free tokens |
| Tokenizing.Tokens | src/cuesplit/cuesheettokenizer.py:48-74 | `tokenize`: the empty line gives no tokens; otherwise the first token is the text before the first blank (or the whole line), and the later tokens hold no quote |
| Tokenizing.CueSheetTokenizer.Tokenize | src/cuesplit/cuesheettokenizer.py:48-74 | The loop of `tokenize` computes `Tokens` |
| Tokenizing.NextLineFrom | src/cuesplit/cuesheettokenizer.py:17-30 | `next_line` always advances the line counter; a line it returns is within the input and not empty; a syntax error names a line number within the input |
| Tokenizing.CheckTokenCount | src/cuesplit/cuesheettokenizer.py:33-44 | `assert_token_count` passes exactly when there is a command and the count is exact (count >= 0) or a minimum (count < 0); no command is `No command found`; otherwise the exactly/at-least error with `count - 1` or `-1 - count` parameters |
| Tokenizing.CueSheetTokenizer.constructor | src/cuesplit/cuesheettokenizer.py:11-14 | A new tokenizer has read no line and has no current line |
| Tokenizing.CueSheetTokenizer.NextLine | src/cuesplit/cuesheettokenizer.py:17-30 | The loop of `next_line` sets the current line and the counter as `NextLineFrom` says; on a syntax error the counter is the failing line and the current line is unchanged |
| TokenizerProperties.TokensUnparse | src/cuesplit/cuesheettokenizer.py:48-74 | Round trip: a command followed by parameters, each written in quotes, tokenizes back to exactly those tokens |
| TokenizerProperties.TokensWords | src/cuesplit/cuesheettokenizer.py:48-74 | Round trip: tokens without blanks or quotes, joined with single blanks, tokenize back to themselves |
| TokenizerProperties.TokensDirective | src/cuesplit/cuesheettokenizer.py:55-58 | The first token is everything before the first blank, whatever it contains; the scan starts after that blank |
| TokenizerProperties.TokensRejectUnterminated | src/cuesplit/cuesheettokenizer.py:65-67 | An unterminated quoted parameter is a syntax error |
| TokenizerProperties.TokensRejectDoubleBlank | src/cuesplit/cuesheettokenizer.py:65-67 | Two blanks after the command make the next match fail |
| TokenizerProperties.TokensRejectQuoteAfterWord | src/cuesplit/cuesheettokenizer.py:65-67 | A quote directly after an unquoted word is a syntax error |
| TokenizerProperties.MatchQuoted | src/cuesplit/cuesheettokenizer.py:8 | A quoted token matches when blanks or the end of the line follow it, and yields its text without the quotes |
| TokenizerProperties.MatchWord | src/cuesplit/cuesheettokenizer.py:8 | An unquoted word matches when blanks or the end of the line follow it, and yields the word |
| TokenizerProperties.ScanQuoteAll | src/cuesplit/cuesheettokenizer.py:64-72 | Scanning quoted tokens separated by single blanks yields exactly those tokens, unquoted |
| TokenizerProperties.ScanWords | src/cuesplit/cuesheettokenizer.py:64-72 | Scanning words separated by single blanks yields exactly those words |
| NextLineProperties.NextLineStep | src/cuesplit/cuesheettokenizer.py:19-27 | One turn of the loop of `next_line`: end of input gives None, a line that does not tokenize is a syntax error at its number, a blank line goes on to the next line, and any other line is returned |
| NextLineProperties.NextLineSkipsBlankLines | src/cuesplit/cuesheettokenizer.py:19-23 | Blank lines are skipped: starting before a run of blank lines gives the same result, counter included, as starting after it |
| NextLineProperties.NextLineFound | src/cuesplit/cuesheettokenizer.py:17-30 | A returned line is the tokenization of the line at the new counter, and every line between is blank |
| NextLineProperties.NextLineAtEnd | src/cuesplit/cuesheettokenizer.py:26-27 | After only blank lines, `next_line` returns None with the counter one past the end |
| NextLineProperties.NextLineSyntaxError | src/cuesplit/cuesheettokenizer.py:24-25 | A syntax error names the first non-blank line, which does not tokenize |
| Sheets.SheetMetadata | src/cuesplit/cuesheet.py:17-27 | `get_metadata`: the tags, with ALBUM set from a non-empty title, ALBUMARTIST from a non-empty performer and TRACKTOTAL from a non-empty track list; the tags' keys are kept; nothing else changes and keys stay distinct |
| Sheets.SheetMetadataKeys | src/cuesplit/cuesheet.py:17-27 | The keys of `get_metadata`: the tags' keys in their order, then ALBUM, ALBUMARTIST and TRACKTOTAL, in that order, each appended when it is set and was not present |
| Sheets.SheetMetadataSteps | src/cuesplit/cuesheet.py:18-25 | The three conditional assignments compose to the contract of `SheetMetadata` |
| Sheets.CueSheet.constructor | src/cuesplit/cuesheet.py:10-14 | A new sheet has the given title and performer, no tags and no tracks |
| Sheets.UpdateTrack | src/cuesplit/cuesheet.py:82 | Changing `current_track` writes through to the last track when it was appended, so the appended track stays the last track (aliasing) |
| Sheets.BodyLineCoherent | src/cuesplit/cuesheet.py:54-99 | Every body line keeps an appended current track the same as the sheet's last track |
| Sheets.BodyFails | src/cuesplit/cuesheet.py:54-99 | A body line that raises ends the read with that error and the state before the line |
| Sheets.BodyGoesOn | src/cuesplit/cuesheet.py:54-101 | After a body line the loop goes on with `next_line`: a syntax error there ends the read; otherwise the loop continues on the next line |
| Sheets.HeaderStops | src/cuesplit/cuesheet.py:34-49 | The header loop stops either at the end of input or on a non-empty line within the input |
| Sheets.CueSheet.Read | src/cuesplit/cuesheet.py:30-101 | `read` leaves the sheet, the warnings and the outcome that `ReadSheet` defines: the header loop, then the body loop from the line that ended the header |
| Sheets.CueSheet.ReadHeader | src/cuesplit/cuesheet.py:33-49 | The header loop leaves the sheet and warnings `Header` defines and stops the tokenizer where `Header` stops |
| Sheets.CueSheet.ReadHeaderLine | src/cuesplit/cuesheet.py:35-49 | One header line as `HeaderLine`; a failing or header-ending line changes nothing |
| Sheets.CueSheet.ReadBody | src/cuesplit/cuesheet.py:51-101 | The body loop leaves the sheet, warnings and outcome `Body` defines |
| Sheets.CueSheet.ReadBodyLine | src/cuesplit/cuesheet.py:54-99 | One body line on the objects (the current `CueTrack`, fresh on TRACK) as `BodyLine` on values; a failing line changes nothing |
| Sheets.CueSheet.ReadTrackLine | src/cuesplit/cuesheet.py:60-74 | A TRACK line as `BodyLine`: a fresh `CueTrack` from the current file, appended when AUDIO, or the arity, missing-FILE, `int()` or file-type error with the sheet unchanged |
| Sheets.CueSheet.ReadIndexLine | src/cuesplit/cuesheet.py:76-82 | An INDEX line as `BodyLine`: the offset stored in the current track and in the appended last track, or the arity, missing-TRACK, `int()` or offset error with the sheet unchanged |
| Sheets.CueSheet.ReadFieldLine | src/cuesplit/cuesheet.py:84-90 | A TITLE or PERFORMER line as `BodyLine`: the stripped parameter on the current track and the appended last track, or the arity or missing-TRACK error with the sheet unchanged |
| Sheets.LengthsFrom | src/cuesplit/cuesheet.py:105-114 | The loop of `compute_lengths` keeps the number of tracks |
| Sheets.CueSheet.ComputeLengths | src/cuesplit/cuesheet.py:104-114 | `compute_lengths` replaces the tracks with those `LengthsFrom` gives and changes nothing else |
| Sheets.AlbumMetadata | src/cuesplit/cuesheet.py:122-123 | The album metadata of `convert` is `get_metadata()` with CUESHEET set to the empty text |
| Sheets.ConvertFromStep | src/cuesplit/cuesheet.py:125-127 | One step of the track loop: a track that raises ends it; otherwise its log comes before the rest |
| Sheets.ConvertTracks | src/cuesplit/cuesheet.py:125-127 | The track loop computes `ConvertFrom` |
| Sheets.CueSheet.Convert | src/cuesplit/cuesheet.py:117-127 | `convert` leaves the sheet, the invocation log and outcome that `SheetConversion` defines |
| SheetProperties.HeaderTitlePerformer | src/cuesplit/cuesheet.py:35-37 | A header TITLE or PERFORMER needs exactly one parameter and sets that field to it, stripped; nothing else changes |
| SheetProperties.HeaderRem | src/cuesplit/cuesheet.py:38-47 | A header REM needs at least one parameter; REM DATE/GENRE/DISCID/COMMENT with a value sets that tag to the stripped parts joined by blanks; any other REM adds an ignored-comment warning and changes no tag |
| SheetProperties.HeaderEnds | src/cuesplit/cuesheet.py:34-49 | The header adds no track, and the line that ends it is a command other than TITLE, PERFORMER, REM or the empty command |
| SheetProperties.HeaderLineKeepsTracks | src/cuesplit/cuesheet.py:35-49 | Only a command other than TITLE, PERFORMER, REM and the empty one ends the header, and no header line touches the tracks |
| SheetProperties.BodyLineContext | src/cuesplit/cuesheet.py:55-89 | The error cases of the body: FILE sets the current file and clears the current track; TRACK without a FILE, an AUDIO track from a file that is not WAVE or MP3, and INDEX/TITLE/PERFORMER without a TRACK each raise their error |
| SheetProperties.BodyLineTrack | src/cuesplit/cuesheet.py:60-74 | TRACK makes a new current track with its number, type and file; only an AUDIO track is appended to the sheet |
| SheetProperties.BodyLineIndex | src/cuesplit/cuesheet.py:76-82 | INDEX stores the parsed offset under its number in the current track, and in the sheet's last track when that is the same track |
| SheetProperties.BodyKeepsSheet | src/cuesplit/cuesheet.py:51-101 | The body loop keeps the title, performer and tags, keeps the tracks it started with, and adds only AUDIO tracks from WAVE or MP3 files |
| SheetProperties.ReadAppendsAudio | src/cuesplit/cuesheet.py:30-101 | `read` only appends tracks, and every appended track is AUDIO from a WAVE or MP3 file |
| SheetProperties.FirstUnmeasuredFrame | src/cuesplit/cuesheet.py:105-114 | Where the length loop first raises does not depend on the lengths already set |
| SheetProperties.LengthsStep | src/cuesplit/cuesheet.py:105-114 | One turn of the length loop sets one length and changes no later length computation |
| SheetProperties.LengthsKeep | src/cuesplit/cuesheet.py:105-114 | The length loop changes only lengths, and leaves the last track and every track from the first failure on unchanged |
| SheetProperties.LengthsSet | src/cuesplit/cuesheet.py:105-114 | Each track before the first failure gets the length computed from its successor |
| SheetProperties.LengthsOutcome | src/cuesplit/cuesheet.py:105-114 | The length loop passes exactly when every adjacent pair has a length, and otherwise raises the first pair's error |
| SheetProperties.ComputedLengths | src/cuesplit/cuesheet.py:104-114 | A successful `compute_lengths` sets every track but the last to the length computed from its successor, and leaves the last track as it was |
| SheetProperties.LengthBetween | src/cuesplit/cuesheet.py:108-112 | Within one file, the length is the next track's INDEX 00 (or INDEX 01 without it) minus this track's INDEX 01; with neither, the lookup of INDEX 01 raises |
| SheetProperties.ConvertFromSpec | src/cuesplit/cuesheet.py:125-127 | The track loop passes exactly when every track converts, and otherwise fails with the first failing track's error |
| SheetProperties.ConversionAlbum | src/cuesplit/cuesheet.py:117-127 | `convert` keeps title, performer, tags and the number of tracks; a length failure converts nothing; otherwise every track is converted with album metadata that has CUESHEET empty and TRACKTOTAL the track count |
| TrackProperties.IntOfRoundTrip | src/cuesplit/cuetrack.py:57 | `int(str(n)) == n` for every integer, through the error-valued `int` used for offsets |
| Tracks.OffsetFrames | src/cuesplit/cuetrack.py:53-59 | `parse_offset`: an offset that does not split into three fields is `Invalid offset syntax` |
| Tracks.CueTrack.constructor | src/cuesplit/cuetrack.py:41-50 | A new track holds exactly the given fields |
| Tracks.CueTrack.ParseOffset | src/cuesplit/cuetrack.py:53-59 | `parse_offset` stores the frame count under the offset index and changes no other field; on an error the offsets are unchanged |
| Tracks.SetWhen | src/cuesplit/cuetrack.py:69-76 | A conditional metadata assignment sets the key only when the condition holds, keeps all keys and changes no other key |
| Tracks.SetWhenKeys | src/cuesplit/cuetrack.py:69-76 | A conditional assignment appends a new key and leaves a present key in its place |
| Tracks.TrackMetadata | src/cuesplit/cuetrack.py:62-78 | `get_metadata`: the album's metadata, with TRACKNUMBER from the index, TITLE from a non-empty title, and ARTIST from a non-empty performer, else the album artist when present; album keys are kept and nothing else changes |
| Tracks.TrackMetadataKeys | src/cuesplit/cuetrack.py:62-78 | The keys of `get_metadata`: the album's keys in their order, then TRACKNUMBER, TITLE and ARTIST, in that order, each appended when it is set and was not present |
| Tracks.TrackMetadataSteps | src/cuesplit/cuetrack.py:69-76 | The conditional assignments compose to the contract of `TrackMetadata` |
| TrackProperties.FilterIdempotent | src/cuesplit/cuetrack.py:23-38 | Filtering a metadata value through any selectable table is idempotent: a filtered value passes through again unchanged |
| Tracks.TranslateMetadata | src/cuesplit/cuetrack.py:23-27 | `translate_metadata` keeps the keys in order and translates every value |
| Tracks.EntriesArgs | src/cuesplit/cuetrack.py:120-125 | Each metadata entry gives `-metadata` and `KEY=value`, in order |
| Tracks.MetadataArgs | src/cuesplit/cuetrack.py:120-125 | `metadata_to_ffmpeg_args`: two words per entry, `-metadata` then the key, `=` and `str(value)` |
| Tracks.MetadataToFfmpegArgs | src/cuesplit/cuetrack.py:120-125 | The loop computes `MetadataArgs` |
| Tracks.Thousandths | src/cuesplit/cuetrack.py:86 | The thousandths of a second nearest to `frames / 75`, within half a thousandth |
| Tracks.RunActionsLog | src/cuesplit/cuetrack.py:104-105 | The actions run in order and each gets the same list. The run passes exactly when all ran and the tool, if called, succeeded. A failure is the call that failed, the last in the log |
| Tracks.ActionsToRun | src/cuesplit/cuetrack.py:102-107 | The leading actions of the command, or the call action alone when there are none |
| Tracks.TrackConversion | src/cuesplit/cuetrack.py:81-107 | A track whose argument list cannot be built runs no action and raises that error |
| Tracks.CueTrack.Command | src/cuesplit/cuetrack.py:84-100 | The appends of `convert` build the argument list `TrackCommand` defines |
| Tracks.CueTrack.Convert | src/cuesplit/cuetrack.py:81-107 | `convert` logs and fails as `TrackConversion` defines |
| Tracks.Run | src/cuesplit/cuetrack.py:102-107 | The action loop computes `RunActions` |
| TrackProperties.MinimalTableContents | src/cuesplit/cuetrack.py:30-31 | The `minimal` table maps `/` to `-`, deletes NUL, and touches nothing else |
| TrackProperties.FullTableContents | src/cuesplit/cuetrack.py:32-35 | The `full` table maps `"` to `'`, `<>:/\|*` to `-`, deletes `?` and control characters, and touches nothing else |
| TrackProperties.FullTableImage | src/cuesplit/cuetrack.py:32-35 | Whatever the `full` table keeps or produces is not one of `"<>:/\|*?` and not a control character |
| TrackProperties.FullTableSubstitutes | src/cuesplit/cuetrack.py:32-35 | Only `"` and `<>:/\|*` are substituted by the `full` table; all other entries delete |
| TrackProperties.FullFilterAvoids | src/cuesplit/cuetrack.py:23-38 | Text filtered with the `full` table contains no character unsafe in a Windows file name |
| TrackProperties.MinimalFilterAvoids | src/cuesplit/cuetrack.py:29-31 | Text filtered with the `minimal` table contains no path separator and no NUL |
| TrackProperties.FullFilterMetadata | src/cuesplit/cuetrack.py:23-27 | Every string value of metadata translated with the `full` table is file-name safe |
| TrackProperties.FullTemplateText | src/cuesplit/cuetrack.py:19-20 | The `full` template is `{ALBUMARTIST}/[{DATE}] {ALBUM}/` followed by the `short` one |
| TrackProperties.ShortTemplateRenders | src/cuesplit/cuetrack.py:16 | The `short` template renders a track number below 100 as two digits, then a blank and the title |
| TrackProperties.SplitOffset | src/cuesplit/cuetrack.py:54 | `MM:SS:FF` splits into its three fields |
| TrackProperties.OffsetFramesOfFields | src/cuesplit/cuetrack.py:53-59 | The offset written from three integers is `(MM * 60 + SS) * 75 + FF` frames, with no range check |
| TrackProperties.OffsetFramesOfSplit | src/cuesplit/cuetrack.py:53-59 | Any text that splits into three integer fields gives that frame count |
| TrackProperties.OffsetTooFewFields | src/cuesplit/cuetrack.py:54-56 | An offset with fewer than two colons is `Invalid offset syntax` |
| TrackProperties.OffsetExtraColon | src/cuesplit/cuetrack.py:54-57 | A third colon stays in the frame field, whose `int()` then fails |
| TrackProperties.SecondsDenotes | src/cuesplit/cuetrack.py:86 | `format(frames / 75, '.3f')` is a sign for negative values, digits, a point and three digits, whose value is the nearest thousandths |
| TrackProperties.SecondsWhole | src/cuesplit/cuetrack.py:86 | A whole number of seconds prints with `.000` |
| TrackProperties.SecondsExamples | src/cuesplit/cuetrack.py:86 | One frame is `0.013`; -38 frames is `-0.507` |
| TrackProperties.ArgumentWordsHead | src/cuesplit/cuetrack.py:85-100 | The argument list is `-ss` start, `-i` path, `-t` duration when the length is known, two words per metadata entry, the extra arguments, then the file name |
| TrackProperties.ArgumentWordsMetadata | src/cuesplit/cuetrack.py:94-95 | Each metadata entry's pair sits at its place after the seek and duration words |
| TrackProperties.ArgumentWordsExtra | src/cuesplit/cuetrack.py:96 | The extra ffmpeg arguments follow the metadata arguments, in order |
| TrackProperties.FullTemplateNeedsAlbumArtist | src/cuesplit/cuetrack.py:19-20 | The `full` template fails with the missing key ALBUMARTIST when the album has no performer and no such tag |
| TrackProperties.TrackCommandNamed | src/cuesplit/cuetrack.py:84-100 | With a start offset and a file, the list is the command words, the argument words and the name rendered from the translated metadata; a rendering error is the error |
| TrackProperties.NameIsLastWord | src/cuesplit/cuetrack.py:98-100 | Whatever the template, a file name it renders is the last word of the argument list |
| TrackProperties.ShortTemplateName | src/cuesplit/cuetrack.py:94-100 | With the `short` template, the last argument is the two-digit track number, a blank and the translated title |
| TrackProperties.ActionsRun | src/cuesplit/cuetrack.py:102-107 | Without leading actions the list is run once with `check_call`; otherwise each leading action runs in order, up to a failed call |
| TrackProperties.TrackConversionRuns | src/cuesplit/cuetrack.py:81-107 | When the file name renders, `convert` runs its actions on the command words, the argument words and that name; without leading actions that list is run once with `check_call` and fails exactly when the tool does |
| Util.MakeTrans | src/cuesplit/util.py:14-20 | `str_maketrans`: an empty `to` raises; otherwise the table covers exactly `from` and `delete`, deletes every `delete` character, and maps the last occurrence of each other `from` character to `to` at the same position, or to the last character of `to` |
| Util.StrMakeTrans | src/cuesplit/util.py:14-20 | The zip loop and the delete loop compute `MakeTrans` |
| Util.Translate | src/cuesplit/cuetrack.py:25 | `str.translate` never lengthens the text |
| Util.TranslateUntouched | src/cuesplit/cuetrack.py:25 | Text with no character in the table is unchanged |
| Util.TranslateAvoids | src/cuesplit/cuetrack.py:25 | If the table covers every bad character and produces none, the translation contains none |
| Util.EscapeFormat | src/cuesplit/util.py:23-24 | `escape_format` adds one character per brace and leaves brace-free text unchanged |
| Util.FirstMark | src/cuesplit/util.py:79-81 | The mark found is one of the map's marks, or none |
| Util.FirstMarkIsFirst | src/cuesplit/util.py:79-81 | The mark found prefixes the data and is the first in map order that does; none is found exactly when no mark prefixes the data |
| Util.DetectBom | src/cuesplit/util.py:77-82 | The loop of `detect_bom` computes `BomOf` |
| Util.BomOfPrefix | src/cuesplit/util.py:77-90 | `detect_bom`'s result prefixes the input; inputs under two bytes have no mark; otherwise it is the first mark in map order that prefixes the input, and empty exactly when none does |
| Util.Utf32LeDetectedAsUtf16Le | src/cuesplit/util.py:84-90 | Data starting with the UTF-32 LE mark is detected as UTF-16 LE |
| Util.BomOfLongestFirstFindsEachMark | src/cuesplit/util.py:77-90 | With longer marks checked first, each mark alone is detected as itself, and the map order misses UTF-32 LE |
| Cli.GetFilenameFormat | src/cuesplit/__main__.py:16-32 | `_get_filename_format`: `format:` text is taken verbatim; otherwise the name must be `short`, `long` or `full` and anything else is `Unknown format`; then the extension and the prefix are added |
| Cli.DecorateRenders | src/cuesplit/__main__.py:26-30 | The escaped extension and prefix are literal: the decorated template renders to the base rendering with `.extension`, joined under the prefix directory. When the rendering is an absolute path, the prefix is dropped, provided the template itself starts with `/` |
| Cli.ExtensionRenders | src/cuesplit/__main__.py:26-27 | Adding `.` and the escaped extension adds exactly `.extension` to the rendering |
| Cli.PrefixRenders | src/cuesplit/__main__.py:28-30 | Joining under the escaped prefix renders to the rendering joined under the prefix |
| Cli.SeparatedRenders | src/cuesplit/__main__.py:28-30 | The escaped prefix, a separator and a template render to the prefix, the separator and the rendering |
| Cli.EscapeFormatLast | src/cuesplit/util.py:23-24 | Escaping keeps the last character, so a prefix ending in a separator still does after escaping |
| Cli.CommandPrefix | src/cuesplit/__main__.py:151-156 | The command prefix holds the print action exactly when simulating or verbose, the call action exactly when not simulating, at least one action, print before call, then the words of `--ffmpeg-cmd` |
| Cli.ActionsThenWords | src/cuesplit/__main__.py:151-156 | A prefix of actions then words splits back into those actions and words |
| Cli.BuildCommand | src/cuesplit/__main__.py:151-156 | The appends of `run_cmdline` build `CommandPrefix` |
| Cli.RunCommandLine | src/cuesplit/__main__.py:148-157 | A sheet without tracks stops with `No tracks to convert!` before anything runs; otherwise the sheet is converted with the assembled prefix |
| Commands.LeadingActions | src/cuesplit/cuetrack.py:102 | `takewhile(callable)`: the leading action entries, stopping at the first word |
| Commands.AfterActions | src/cuesplit/cuetrack.py:84 | `dropwhile(callable)`: what follows the leading actions starts with a word |
| Commands.AfterActionsDrop | src/cuesplit/cuetrack.py:84 | What `dropwhile` keeps is the list after the entries `takewhile` takes |
| Commands.SplitActions | src/cuesplit/cuetrack.py:84-102 | `takewhile` and `dropwhile` together give back the whole list |
| Commands.WordsAppend | src/cuesplit/cuetrack.py:95-100 | Appending words in two steps is appending them at once |
| Dicts.IndexOf | src/cuesplit/cuetrack.py:75 | `k in d`: the first position holding the key, or -1 exactly when it is absent |
| Dicts.Get | src/cuesplit/cuetrack.py:75-76 | A lookup succeeds exactly when the key is present, and returns the value stored with the key's entry |
| Dicts.Set | src/cuesplit/cuesheet.py:43 | Assignment sets the key, keeps the order (a new key goes last), changes no other key and keeps keys distinct |
| Dicts.MapValues | src/cuesplit/cuetrack.py:24-27 | A dict comprehension over the items keeps the keys in order and maps every value |
| Metadata.Render | src/cuesplit/cuetrack.py:124 | `str(v)`: a string is itself, and an integer prints to text that `int()` reads back to it |
| Numbers.IntToStringRoundTrip | src/cuesplit/cuetrack.py:124 | `int(str(n)) == n` for every integer |
| Numbers.NatToStringValue | src/cuesplit/cuetrack.py:124 | The decimal digits `str` prints denote the number |
| Numbers.ParseIntLeadingZero | src/cuesplit/cuetrack.py:57 | `int()` accepts leading zeros: `int("0" + d) == int(d)` for every digit literal `d`, as in offset fields such as `01` |
| Numbers.ParseIntUnderscoreBetween | src/cuesplit/cuetrack.py:57 | For any two digit literals `a` and `b`, `int(a + "_" + b)` succeeds and equals `int(a + b)` |
| Numbers.ParseIntUnderscoreTrailing | src/cuesplit/cuetrack.py:57 | `int()` rejects every text that ends in an underscore |
| Numbers.ParseIntNegate | src/cuesplit/cuesheet.py:66 | A minus sign before a digit-led text without whitespace negates what `int()` reads, and `int()` fails on both or on neither |
| Numbers.ParseIntRejects | src/cuesplit/cuesheet.py:66 | Any character other than whitespace, a digit, `_` or a sign makes `int()` fail |
| Strings.Strip | src/cuesplit/cuesheettokenizer.py:23 | `str.strip` keeps no leading or trailing whitespace and never lengthens the text |
| Strings.StripInfix | src/cuesplit/cuesheettokenizer.py:23 | `str.strip` returns the part of the text between its leading whitespace and its trailing whitespace |
| Strings.StripKeeps | src/cuesplit/cuesheet.py:37 | Stripping keeps every character that is not whitespace |
| Strings.Find | src/cuesplit/cuesheettokenizer.py:55 | `str.find`: the first position of the character, or -1 exactly when it is absent |
| Strings.SplitN | src/cuesplit/cuetrack.py:54 | `s.split(':', 2)` gives one to three fields |
| Strings.SplitNJoin | src/cuesplit/cuetrack.py:54 | Joining the fields of a split with the separator gives the text back |
| Strings.SplitNFields | src/cuesplit/cuetrack.py:54 | No field but the last holds the separator, and the last holds one only when the split limit was reached |
| Paths.PathJoin | src/cuesplit/cuesheet.py:57 | `os.path.join`: an absolute second part replaces the first; otherwise the parts follow each other with one separator unless the first is empty or ends in one |
| Templates.FormatValue | src/cuesplit/cuetrack.py:98 | A field without a spec renders `str(value)`; a spec on a string value is an error; an integer renders exactly when the spec is empty or `[0][WIDTH]d` |
| Templates.PadInt | src/cuesplit/cuetrack.py:15-16 | `format(i, '[0][WIDTH]d')` is as long as the larger of the width and `len(str(i))` |
| Templates.PadIntReadsBack | src/cuesplit/cuetrack.py:15-16 | Padding with zeros or blanks keeps the number: `int(format(i, spec)) == i` for every integer, negative ones included |
| TemplateProperties.FormatThen | src/cuesplit/cuetrack.py:98 | Formatting is compositional: a template that renders, followed by any text, renders to its rendering followed by that text's rendering or error |
| TemplateProperties.FormatEscaped | src/cuesplit/util.py:23-24 | Round trip: `escape_format(s).format(**m) == s` for every text and metadata |
| TemplateProperties.FormatEscapedThen | src/cuesplit/util.py:23-24 | Escaped text before a template renders as itself, followed by the template's rendering or error |
| TemplateProperties.RenderPlainField | src/cuesplit/cuetrack.py:98 | A field naming a key renders the key's value with its spec, or raises the KeyError of a missing key |
| TemplateProperties.FormatFieldThen | src/cuesplit/cuetrack.py:98 | A replacement field, then text: the field's rendering, then the text's, and the field's error comes first |
| TemplateProperties.FormatKeyThen | src/cuesplit/cuetrack.py:98 | A key field before any text: the missing key is the error, whatever follows |
| TemplateProperties.FormatTwoFields | src/cuesplit/cuetrack.py:16-17 | Two key fields with escaped text between them render to the two values with that text between |
| TemplateProperties.FormatMissingKey | src/cuesplit/cuetrack.py:98 | A missing key after escaped text raises the KeyError for that key |
| TemplateProperties.PadTwoDigits | src/cuesplit/cuetrack.py:16 | `format(n, '02d')` for `0 <= n < 100` is its two digits |

## Left out

- I/O is not modelled:
  - opening and decoding the sheet (`open_read`, `equals_encoding`, the codecs) is left out; the reader is a
    sequence of physical lines, and a read past the end gives "";
  - `make_parent_dirs` creates directories, a file-system effect, and is left out;
  - the print action writes to stderr; `subprocess.check_call` runs a process. Both are modelled as entries of
    an invocation log. The tool's exit status is the parameter `toolOk`.
  - The stderr `print`s of warnings become `Errors.Warning` values.
- Argument parsing is not modelled: `_parse_args`, `argparse`, `_set_sample_rate`, the locale call,
  `ask_input`, `parse_number_with_magnitude` and `ensure_type`. The options, and the sheet already read,
  arrive as values. An absent `--prefix` is "". The translation table picked by `--format-filter` is the
  parameter `table` (`Tracks.TableOf` gives the four named tables). The module-level `run_cmdline()` call is
  left out.
- `_get_filename_format` runs during argument parsing, before the sheet is read, so a bad `--format` is raised
  before any read error. The model treats the two separately.
- `str.format` is modelled only for the subset the templates use: literal text, `{{`, `}}`, `{KEY}` and
  `{KEY:[0][WIDTH]d}`. Other conversions and format specs yield `UnsupportedTemplate`.
- Floating point is not modelled. `format(x / 75, '.3f')` is computed exactly, in integers. Binary rounding
  effects at magnitudes beyond 1e11 seconds are not modelled.
- `int()` accepts only ASCII digits in the model; Python would also accept Unicode decimal digits.
- `Errors.UnknownFormat` holds the bare name, where the message shows its `repr`.
- Python object identity is modelled by values. The list of tracks holds track values, and the current track
  is a `CueTrack` object. Whether that track was appended is a flag, and updates are written through to the
  list's last element (`Sheets.UpdateTrack`). The model captures the aliasing, but not identity beyond the
  last track.
- Paths are POSIX: `os.sep` is `/`, `os.altsep` is None and `os.extsep` is `.`. The filter tables as built on
  Windows, where `os.sep` is `\` and `os.altsep` is `/`, are not modelled.
- `__init__.py` only re-exports names and is not part of this model.
- Tracks.OffsetFrames: its contract states only the syntax error. Its values and the other error cases are
  stated by `TrackProperties.OffsetFramesOfFields`, `OffsetFramesOfSplit`, `OffsetTooFewFields` and
  `OffsetExtraColon`.
- Util.Translate: its own contract states only the length bound. Its meaning is stated by
  `TranslateUntouched`, `TranslateAvoids` and the filter lemmas.
- Util.EscapeFormat: its contract states the length and the brace-free case. The purpose of escaping is stated
  by `TemplateProperties.FormatEscaped`.

## Findings

| source | as written | input that shows it | evidently intended | confidence | as-written member | corrected member |
|---|---|---|---|---|---|---|
| src/cuesplit/util.py:77-90 | `detect_bom` checks the marks in the map's order; the UTF-16 LE mark `FF FE` comes before the UTF-32 LE mark `FF FE 00 00`, which starts with it | the bytes `FF FE 00 00` followed by any text: the UTF-16 LE mark is returned, so the file is decoded as UTF-16 | the UTF-32 LE mark is detected, as for every other mark in the map | not executed | Util.Utf32LeDetectedAsUtf16Le | Util.BomOfLongestFirstFindsEachMark |
