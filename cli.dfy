/**
 * The command-line front end of `cuesplit`: the filename template chosen with `--format`, `--extension`
 * and `--prefix`, the command prefix built from `--simulate` and `--verbose`, and the run over the sheet.
 * Argument parsing itself is not modelled: the options arrive as values (an absent `--prefix` is "").
 */
module Cli {
  import opened Wrappers
  import opened Errors
  import opened Dicts
  import opened Metadata
  import opened Paths
  import opened Commands
  import opened Templates
  import opened Tracks
  import opened Sheets
  import Util
  import TemplateProperties

  /** A `--format` value starting with this is a template written out by the user. */
  const FormatPrefix: string := "format:"

  /** The extension, then the prefix directory, added to a template, each only when it is non-empty. */
  function Decorate(fmt: string, extension: string, prefix: string): string {
    var withExt := if extension != "" then fmt + ExtSep + Util.EscapeFormat(extension) else fmt;
    if prefix != "" then PathJoin(Util.EscapeFormat(prefix), withExt) else withExt
  }

  /**
   * `_get_filename_format`: the text after `format:` verbatim, or else the named template, which must be
   * one of `short`, `long` and `full`; then decorated with the extension and the prefix.
   */
  function GetFilenameFormat(name: string, extension: string, prefix: string): (r: Result<string, Error>)
    ensures FormatPrefix <= name ==> r == Ok(Decorate(name[|FormatPrefix|..], extension, prefix))
    ensures !(FormatPrefix <= name) ==> (r.Ok? <==> name in {"short", "long", "full"})
    ensures name == "short" ==> r == Ok(Decorate(ShortTemplate, extension, prefix))
    ensures name == "long" ==> r == Ok(Decorate(LongTemplate, extension, prefix))
    ensures name == "full" ==> r == Ok(Decorate(FullTemplate, extension, prefix))
    ensures r.Err? ==> r.error == UnknownFormat(name)
  {
    assert Keys(FilenameFormatTemplates) == ["short", "long", "full"];
    if FormatPrefix <= name then Ok(Decorate(name[|FormatPrefix|..], extension, prefix))
    else match Get(FilenameFormatTemplates, name)
      case None => Err(UnknownFormat(name))
      case Some(base) => Ok(Decorate(base, extension, prefix))
  }

  /**
   * The file name that a decorated template stands for, given the rendering `x` of the undecorated one:
   * `x` with `.extension` when there is an extension, joined under the prefix directory when there is one.
   */
  function OutputName(x: string, extension: string, prefix: string): string {
    var withExt := if extension != "" then x + ExtSep + extension else x;
    if prefix != "" then PathJoin(prefix, withExt) else withExt
  }

  /** The last character of a text survives `escape_format`. */
  lemma {:induction false} EscapeFormatLast(s: string)
    requires s != ""
    ensures Util.EscapeFormat(s) != "" && Util.EscapeFormat(s)[|Util.EscapeFormat(s)| - 1] == s[|s| - 1]
  {
    var head := if s[0] == '{' || s[0] == '}' then [s[0], s[0]] else [s[0]];
    assert Util.EscapeFormat(s) == head + Util.EscapeFormat(s[1..]);
    if |s| > 1 {
      EscapeFormatLast(s[1..]);
    } else {
      assert s[1..] == "";
    }
  }

  /** A template that renders and starts with a separator renders to a text starting with one. */
  lemma AbsoluteRendering(fmt: string, meta: Meta)
    requires Format(fmt, meta).Ok? && Absolute(fmt)
    ensures Absolute(Format(fmt, meta).value)
  {
    TemplateProperties.FormatLiteral(fmt, meta);
  }

  /** A character other than a brace, then a template: that character, then the rendering. */
  lemma LiteralThen(c: char, f: string, meta: Meta)
    requires c != '{' && c != '}'
    ensures Format([c] + f, meta) == Prepend([c], Format(f, meta))
  {
    var g := [c] + f;
    assert g[0] == c && g[1..] == f;
    TemplateProperties.FormatLiteral(g, meta);
  }

  /** The template with the extension renders to the rendering with `.extension`. */
  lemma ExtensionRenders(fmt: string, extension: string, meta: Meta)
    requires Format(fmt, meta).Ok? && extension != ""
    ensures Format(fmt + ExtSep + Util.EscapeFormat(extension), meta) == Ok(Format(fmt, meta).value + ExtSep + extension)
  {
    var x := Format(fmt, meta).value;
    var e := Util.EscapeFormat(extension);
    var tail := ['.'] + e;
    assert fmt + ExtSep + e == fmt + tail;
    assert x + (['.'] + extension) == x + ExtSep + extension;
    assert Format(fmt + tail, meta) == Ok(x + (['.'] + extension)) by {
      assert Format(tail, meta) == Ok(['.'] + extension) by {
        LiteralThen('.', e, meta);
        TemplateProperties.FormatEscaped(extension, meta);
      }
      TemplateProperties.FormatThen(fmt, tail, meta);
    }
  }

  /** The escaped prefix, a separator, then a template: the prefix, the separator, then the rendering. */
  lemma SeparatedRenders(fmt: string, prefix: string, meta: Meta)
    requires Format(fmt, meta).Ok?
    ensures Format(Util.EscapeFormat(prefix) + [Sep] + fmt, meta) == Ok(prefix + [Sep] + Format(fmt, meta).value)
  {
    var y := Format(fmt, meta).value;
    var e := Util.EscapeFormat(prefix);
    var t := [Sep] + fmt;
    assert e + [Sep] + fmt == e + t;
    assert prefix + ([Sep] + y) == prefix + [Sep] + y;
    assert Format(e + t, meta) == Ok(prefix + ([Sep] + y)) by {
      assert Format(t, meta) == Ok([Sep] + y) by {
        LiteralThen(Sep, fmt, meta);
      }
      TemplateProperties.FormatEscapedThen(prefix, t, meta);
    }
  }

  /** A template that does not start with a separator, joined under the escaped prefix directory. */
  lemma PrefixRenders(fmt: string, prefix: string, meta: Meta)
    requires Format(fmt, meta).Ok? && prefix != "" && !Absolute(fmt) && !Absolute(Format(fmt, meta).value)
    ensures Format(PathJoin(Util.EscapeFormat(prefix), fmt), meta) == Ok(PathJoin(prefix, Format(fmt, meta).value))
  {
    var e := Util.EscapeFormat(prefix);
    var y := Format(fmt, meta).value;
    EscapeFormatLast(prefix);
    if prefix[|prefix| - 1] == Sep {
      assert PathJoin(e, fmt) == e + fmt;
      assert PathJoin(prefix, y) == prefix + y;
      TemplateProperties.FormatEscapedThen(prefix, fmt, meta);
    } else {
      assert PathJoin(e, fmt) == e + [Sep] + fmt;
      assert PathJoin(prefix, y) == prefix + [Sep] + y;
      SeparatedRenders(fmt, prefix, meta);
    }
  }

  /**
   * Escaping makes the extension and the prefix literal text: when the base template renders to `x`, the
   * decorated template renders to `x` with the extension, under the prefix directory. The prefix is
   * dropped exactly when `x` is an absolute path, as `os.path.join` drops it, provided the template starts
   * with a separator whenever its rendering does.
   */
  lemma DecorateRenders(fmt: string, extension: string, prefix: string, meta: Meta)
    requires Format(fmt, meta).Ok?
    requires Absolute(Format(fmt, meta).value) ==> Absolute(fmt)
    ensures Format(Decorate(fmt, extension, prefix), meta) == Ok(OutputName(Format(fmt, meta).value, extension, prefix))
  {
    var x := Format(fmt, meta).value;
    var withExt := if extension != "" then fmt + ExtSep + Util.EscapeFormat(extension) else fmt;
    var y := if extension != "" then x + ExtSep + extension else x;
    if extension != "" {
      ExtensionRenders(fmt, extension, meta);
    }
    assert Format(withExt, meta) == Ok(y);
    if Absolute(fmt) {
      AbsoluteRendering(fmt, meta);
    }
    assert Absolute(withExt) <==> Absolute(y);
    if prefix != "" && !Absolute(withExt) {
      PrefixRenders(withExt, prefix, meta);
    }
  }

  /** `cmd` of `run_cmdline`: the print action when simulating or verbose, the call action unless simulating, then `--ffmpeg-cmd`. */
  function CommandPrefix(simulate: bool, verbose: nat, ffmpegCmd: seq<string>): (cmd: seq<CmdItem>)
    ensures PrintAction in LeadingActions(cmd) <==> simulate || verbose > 0
    ensures CallAction in LeadingActions(cmd) <==> !simulate
    ensures LeadingActions(cmd) != [] && |LeadingActions(cmd)| <= 2
    ensures |LeadingActions(cmd)| == 2 ==> LeadingActions(cmd) == [PrintAction, CallAction]
    ensures AfterActions(cmd) == Words(ffmpegCmd)
  {
    var actions := (if simulate || verbose > 0 then [PrintAction] else []) + (if !simulate then [CallAction] else []);
    ActionsThenWords(actions, ffmpegCmd);
    ActionItems(actions) + Words(ffmpegCmd)
  }

  /** A list of actions followed by words splits back into those actions and those words. */
  lemma {:induction false} ActionsThenWords(actions: seq<Action>, words: seq<string>)
    ensures LeadingActions(ActionItems(actions) + Words(words)) == actions
    ensures AfterActions(ActionItems(actions) + Words(words)) == Words(words)
  {
    var cmd := ActionItems(actions) + Words(words);
    if actions != [] {
      ActionsThenWords(actions[1..], words);
      assert cmd[1..] == ActionItems(actions[1..]) + Words(words);
      assert actions == [actions[0]] + actions[1..];
    }
  }

  /** The list `run_cmdline` assembles by appending, one step at a time. */
  method BuildCommand(simulate: bool, verbose: nat, ffmpegCmd: seq<string>) returns (cmd: seq<CmdItem>)
    ensures cmd == CommandPrefix(simulate, verbose, ffmpegCmd)
  {
    cmd := [];
    if simulate || verbose > 0 {
      cmd := cmd + [ActionItem(PrintAction)];
    }
    if !simulate {
      cmd := cmd + [ActionItem(CallAction)];
    }
    cmd := cmd + Words(ffmpegCmd);
  }

  /**
   * The end of `run_cmdline`: a sheet without tracks stops the run before anything is converted;
   * otherwise the sheet is converted with the assembled command prefix.
   */
  method RunCommandLine(sheet: CueSheet, filenameFormat: string, simulate: bool, verbose: nat, ffmpegCmd: seq<string>,
                        ffmpegArgs: seq<string>, table: Util.Table, toolOk: seq<CmdItem> -> bool)
    returns (log: seq<Invocation>, r: Outcome<Error>)
    modifies sheet
    ensures old(sheet.tracks) == [] ==> r == Fail(NoTracks) && log == [] && sheet.Value() == old(sheet.Value())
    ensures old(sheet.tracks) != [] ==>
      (sheet.Value(), log, r) ==
      SheetConversion(old(sheet.Value()), filenameFormat, CommandPrefix(simulate, verbose, ffmpegCmd), ffmpegArgs, table, toolOk)
  {
    if sheet.tracks == [] {
      return [], Fail(NoTracks);
    }
    var cmd := BuildCommand(simulate, verbose, ffmpegCmd);
    log, r := sheet.Convert(filenameFormat, cmd, ffmpegArgs, table, toolOk);
  }
}
