/** The exceptions cuesplit raises, and the warnings it prints and goes on. */
module Errors {
  import opened Commands

  datatype Error =
    /** `Line {n}: Syntax error` */
    | SyntaxError(line: nat)
    /** `Line {n}: No command found` */
    | NoCommand(line: nat)
    /** `Line {n}: Command "{c}" requires exactly {k} parameters` */
    | ExactArity(line: nat, command: string, parameters: int)
    /** `Line {n}: Command "{c}" requires at least {k} parameters` */
    | MinimumArity(line: nat, command: string, parameters: int)
    /** `Line {n}: No FILE for TRACK command` */
    | NoFileForTrack(line: nat)
    /** `Line {n}: No TRACK for {c} command` */
    | NoTrackFor(line: nat, command: string)
    /** `Line {n}: Trying to add an "{t}" track but the FILE type "{f}" is unsupported.` */
    | UnsupportedFileType(line: nat, trackType: string, fileType: string)
    /** the ValueError of `int(text)` */
    | InvalidInteger(text: string)
    /** `Invalid offset syntax: {s}` */
    | InvalidOffsetSyntax(text: string)
    /** the KeyError of `track.offset[kind]` */
    | MissingOffset(kind: int)
    /** `Unknown format: {name!r}` */
    | UnknownFormat(name: string)
    /** the KeyError of `str.format` for a missing metadata key */
    | MissingKey(key: string)
    /** the ValueError of `str.format` for a malformed template (a lone brace) */
    | TemplateSyntax(reason: string)
    /** the IndexError of `str.format` for a positional field such as `{}` or `{0}` */
    | PositionalField(name: string)
    /** the ValueError of a format spec that does not fit the value, such as `d` for a string */
    | FormatSpecMismatch(key: string, spec: string)
    /** a template construct outside the modelled subset of `str.format` */
    | UnsupportedTemplate(field: string)
    /** `Error: No tracks to convert!` */
    | NoTracks
    /** the CalledProcessError of `subprocess.check_call` */
    | ToolFailed(args: seq<CmdItem>)
    /** the TypeError of `self.file[0]` for a track without a file */
    | NoFile

  datatype Warning =
    /** `Line {n}: Ignoring cuesheet comment: {tokens}` */
    | IgnoredComment(line: nat, tokens: seq<string>)
    /** `Line {n}: Ignoring illegal command: {c}` */
    | IllegalCommand(line: nat, command: string)
}
