/** The keyboard plugin in `commands/vv.py`: it types an initial text and
    then replays a list of small commands, each naming one keyboard action.
    The keyboard is replaced by the trace of actions it would receive. */
module Vv {
  import opened Optional
  import opened Text

  /** One call into the keyboard library: type a text, tap a key (or key
      combination), hold a key down, or let it go. */
  datatype KeyAction =
    | Write(text: string)
    | Send(key: string)
    | Press(key: string)
    | Release(key: string)

  const WritePrefix: string := "write:"
  const KeyPrefix: string := "key:"
  const PressPrefix: string := "press:"
  const ReleasePrefix: string := "release:"

  /** A command prefix: a word without colons, then one colon. */
  predicate IsPrefixWord(prefix: string)
  {
    && |prefix| > 0
    && prefix[|prefix| - 1] == ':'
    && forall i :: 0 <= i < |prefix| - 1 ==> prefix[i] != ':'
  }

  /** `command.split(":", 1)[1]` for a command that holds a colon. */
  function AfterColon(command: string): string
    requires Contains(command, ":")
  {
    SplitOnce(command, ":")[1]
  }

  /** For a command that starts with a prefix word, the text after the first
      colon is everything after the prefix, later colons included. */
  lemma AfterPrefix(command: string, prefix: string)
    requires IsPrefixWord(prefix) && StartsWith(command, prefix)
    ensures Contains(command, ":")
    ensures AfterColon(command) == command[|prefix|..]
  {
    var i := |prefix| - 1;
    assert command[i] == prefix[i];
    assert OccursAt(command, ":", i) by { assert command[i..i + 1] == ":"; }
    forall j | 0 <= j < i
      ensures !OccursAt(command, ":", j)
    {
      assert command[j] == prefix[j];
    }
    assert IndexOf(command, ":") == Some(i);
  }

  lemma PrefixWords()
    ensures IsPrefixWord(WritePrefix) && IsPrefixWord(KeyPrefix)
    ensures IsPrefixWord(PressPrefix) && IsPrefixWord(ReleasePrefix)
  {
  }

  /** The action one command string asks for: `write:`, `key:`, `press:` and
      `release:` are tried in that order and act on the text after the first
      colon; any other command asks for nothing. */
  function ParseCommand(command: string): (r: Option<KeyAction>)
    ensures r.Some? <==>
      || StartsWith(command, WritePrefix) || StartsWith(command, KeyPrefix)
      || StartsWith(command, PressPrefix) || StartsWith(command, ReleasePrefix)
    ensures StartsWith(command, WritePrefix) ==> r == Some(Write(command[|WritePrefix|..]))
    ensures StartsWith(command, KeyPrefix) ==> r == Some(Send(command[|KeyPrefix|..]))
    ensures StartsWith(command, PressPrefix) ==> r == Some(Press(command[|PressPrefix|..]))
    ensures StartsWith(command, ReleasePrefix) ==> r == Some(Release(command[|ReleasePrefix|..]))
  {
    PrefixWords();
    if StartsWith(command, WritePrefix) then
      AfterPrefix(command, WritePrefix);
      Some(Write(AfterColon(command)))
    else if StartsWith(command, KeyPrefix) then
      AfterPrefix(command, KeyPrefix);
      Some(Send(AfterColon(command)))
    else if StartsWith(command, PressPrefix) then
      AfterPrefix(command, PressPrefix);
      Some(Press(AfterColon(command)))
    else if StartsWith(command, ReleasePrefix) then
      AfterPrefix(command, ReleasePrefix);
      Some(Release(AfterColon(command)))
    else None
  }

  /** The command string that asks for an action. */
  function Render(a: KeyAction): string
  {
    match a
    case Write(t) => WritePrefix + t
    case Send(k) => KeyPrefix + k
    case Press(k) => PressPrefix + k
    case Release(k) => ReleasePrefix + k
  }

  /** Every action can be asked for, whatever colons its text holds. */
  lemma ParseRender(a: KeyAction)
    ensures ParseCommand(Render(a)) == Some(a)
  {
    var c := Render(a);
    match a
    case Write(t) =>
      assert c[..|WritePrefix|] == WritePrefix && c[|WritePrefix|..] == t;
    case Send(k) =>
      assert c[..|KeyPrefix|] == KeyPrefix && c[|KeyPrefix|..] == k;
    case Press(k) =>
      assert c[..|PressPrefix|] == PressPrefix && c[|PressPrefix|..] == k;
    case Release(k) =>
      assert c[..|ReleasePrefix|] == ReleasePrefix && c[|ReleasePrefix|..] == k;
  }

  /** A recognised command is exactly the rendering of its action: no two
      commands ask for the same action. */
  lemma RenderParse(command: string)
    requires ParseCommand(command).Some?
    ensures Render(ParseCommand(command).value) == command
  {
    var a := ParseCommand(command).value;
    if StartsWith(command, WritePrefix) {
      assert command == WritePrefix + command[|WritePrefix|..];
    } else if StartsWith(command, KeyPrefix) {
      assert command == KeyPrefix + command[|KeyPrefix|..];
    } else if StartsWith(command, PressPrefix) {
      assert command == PressPrefix + command[|PressPrefix|..];
    } else {
      assert command == ReleasePrefix + command[|ReleasePrefix|..];
    }
  }

  /** The loop over the commands: each recognised command adds its action,
      in list order. */
  function Actions(commands: seq<string>): (r: seq<KeyAction>)
    ensures |r| <= |commands|
  {
    if |commands| == 0 then []
    else
      var rest := Actions(commands[1..]);
      match ParseCommand(commands[0])
      case None => rest
      case Some(a) => [a] + rest
  }

  /** `paste_vv(text, commands)`: the initial text is typed first, then the
      commands are replayed. */
  function PasteVv(text: string, commands: seq<string>): (r: seq<KeyAction>)
    ensures |r| >= 1 && r[0] == Write(text)
    ensures r[1..] == Actions(commands)
  {
    [Write(text)] + Actions(commands)
  }

  /** Replaying two command lists one after the other replays their actions
      one after the other. */
  lemma {:induction false} ActionsAppend(a: seq<string>, b: seq<string>)
    ensures Actions(a + b) == Actions(a) + Actions(b)
  {
    if |a| == 0 {
      assert a + b == b;
    } else {
      assert (a + b)[1..] == a[1..] + b;
      ActionsAppend(a[1..], b);
    }
  }

  predicate Recognised(command: string)
  {
    ParseCommand(command).Some?
  }

  /** One action per command exactly when every command is recognised. */
  lemma {:induction false} ActionsOnePerCommand(commands: seq<string>)
    ensures |Actions(commands)| == |commands| <==>
      forall k :: 0 <= k < |commands| ==> Recognised(commands[k])
  {
    if |commands| > 0 {
      ActionsOnePerCommand(commands[1..]);
      assert forall k :: 1 <= k < |commands| ==> commands[k] == commands[1..][k - 1];
    }
  }

  /** The command list that asks for each action of a trace in turn. */
  function RenderAll(actions: seq<KeyAction>): (r: seq<string>)
    ensures |r| == |actions|
  {
    if |actions| == 0 then [] else [Render(actions[0])] + RenderAll(actions[1..])
  }

  /** Replaying the rendered commands gives the trace back, in order. */
  lemma {:induction false} ReplayRendered(actions: seq<KeyAction>)
    ensures Actions(RenderAll(actions)) == actions
  {
    if |actions| > 0 {
      var cs := RenderAll(actions);
      ParseRender(actions[0]);
      assert cs[1..] == RenderAll(actions[1..]);
      ReplayRendered(actions[1..]);
    }
  }

  /** The rendering, command by command, of a trace is its replay. */
  lemma {:induction false} ReplayEach(commands: seq<string>, actions: seq<KeyAction>)
    requires |commands| == |actions|
    requires forall k :: 0 <= k < |commands| ==> commands[k] == Render(actions[k])
    ensures Actions(commands) == actions
  {
    if |commands| > 0 {
      ParseRender(actions[0]);
      ReplayEach(commands[1..], actions[1..]);
    }
  }

  /** The example the plugin runs when loaded. */
  const DemoText: string := "Visita Virtual ao Cliente.\n\n"
  const DemoCommands: seq<string> := [
    KeyPrefix + "ctrl+u", KeyPrefix + "ctrl+b",
    WritePrefix + "Procedimentos Realizados:\n",
    KeyPrefix + "ctrl+u", KeyPrefix + "ctrl+b",
    WritePrefix + "-", KeyPrefix + "space",
    KeyPrefix + "down"]

  /** What the example's commands ask for: the formatting keys around the
      second text, whose own colon is kept. */
  const DemoActions: seq<KeyAction> := [
    Send("ctrl+u"), Send("ctrl+b"),
    Write("Procedimentos Realizados:\n"),
    Send("ctrl+u"), Send("ctrl+b"),
    Write("-"), Send("space"),
    Send("down")]

  /** The example types its heading and then performs exactly its eight
      actions, in order. */
  lemma DemoTrace()
    ensures PasteVv(DemoText, DemoCommands) == [Write(DemoText)] + DemoActions
  {
    forall k | 0 <= k < |DemoActions|
      ensures DemoCommands[k] == Render(DemoActions[k])
    {
      RenderedDemo(k);
    }
    ReplayEach(DemoCommands, DemoActions);
  }

  lemma RenderedDemo(k: nat)
    requires k < |DemoActions|
    ensures DemoCommands[k] == Render(DemoActions[k])
  {
  }
}
