/**
 * Command prefixes. `ffmpeg_cmd` is a list whose leading entries may be callables, the conversion
 * actions (`convert_action_print`, `convert_action_call`); the entries after them are the words of the
 * command line. Actions are modelled as values, and running one as an entry of an invocation log.
 */
module Commands {

  datatype Action =
    /** `CueTrack.convert_action_print`: prints the argument list to stderr. */
    | PrintAction
    /** `CueTrack.convert_action_call`: runs the argument list with `subprocess.check_call`. */
    | CallAction

  datatype CmdItem = ActionItem(action: Action) | Word(word: string)

  /** One call `action(cmd)`. */
  datatype Invocation = Invocation(action: Action, args: seq<CmdItem>)

  function Words(ss: seq<string>): (r: seq<CmdItem>)
    ensures |r| == |ss| && forall i :: 0 <= i < |ss| ==> r[i] == Word(ss[i])
  {
    seq(|ss|, i requires 0 <= i < |ss| => Word(ss[i]))
  }

  /** Wrapping two lists of words is wrapping their concatenation. */
  lemma WordsAppend(pre: seq<CmdItem>, a: seq<string>, b: seq<string>)
    ensures pre + Words(a) + Words(b) == pre + Words(a + b)
  {
    assert Words(a) + Words(b) == Words(a + b);
  }

  function ActionItems(actions: seq<Action>): (r: seq<CmdItem>)
    ensures |r| == |actions| && forall i :: 0 <= i < |actions| ==> r[i] == ActionItem(actions[i])
  {
    seq(|actions|, i requires 0 <= i < |actions| => ActionItem(actions[i]))
  }

  /** `tuple(itertools.takewhile(callable, cmd))`: the actions before the first word. */
  function LeadingActions(cmd: seq<CmdItem>): (r: seq<Action>)
    ensures |r| <= |cmd|
    ensures forall i :: 0 <= i < |r| ==> cmd[i] == ActionItem(r[i])
    ensures |r| < |cmd| ==> cmd[|r|].Word?
  {
    if cmd == [] || cmd[0].Word? then [] else [cmd[0].action] + LeadingActions(cmd[1..])
  }

  /** `list(itertools.dropwhile(callable, cmd))`: everything from the first word on. */
  function AfterActions(cmd: seq<CmdItem>): (r: seq<CmdItem>)
    ensures |r| <= |cmd|
    ensures r != [] ==> r[0].Word?
  {
    if cmd == [] || cmd[0].Word? then cmd else AfterActions(cmd[1..])
  }

  /** What `dropwhile` leaves is what follows the actions `takewhile` collects. */
  lemma {:induction false} AfterActionsDrop(cmd: seq<CmdItem>)
    ensures AfterActions(cmd) == cmd[|LeadingActions(cmd)|..]
  {
    if cmd != [] && cmd[0].ActionItem? {
      var k := |LeadingActions(cmd[1..])|;
      AfterActionsDrop(cmd[1..]);
      assert |LeadingActions(cmd)| == 1 + k;
      assert cmd[1..][k..] == cmd[1 + k..];
    }
  }

  /** `takewhile` and `dropwhile` split the command exactly: the leading actions, then the rest. */
  lemma SplitActions(cmd: seq<CmdItem>)
    ensures ActionItems(LeadingActions(cmd)) + AfterActions(cmd) == cmd
  {
    var k := |LeadingActions(cmd)|;
    assert ActionItems(LeadingActions(cmd)) == cmd[..k];
    AfterActionsDrop(cmd);
    assert cmd[..k] + cmd[k..] == cmd;
  }
}
