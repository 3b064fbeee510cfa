/** Properties of the launcher across several operations and events: the
    resolution order of a typed command, the policy of the auto-hide flag,
    the CNPJ search flow, the not-found recovery, the help overlay, and the
    end of a session. */
module Scenarios {
  import opened Optional
  import opened Text
  import opened Registry
  import opened Interface
  import opened Dispatch

  /** The CNPJ template's only token is its tail, so the link is the search
      address followed by the value. */
  lemma CnpjLink(value: string)
    ensures LinkFor(value, CnpjUrl) == CnpjSearch + value
  {
    assert 'R' !in IntranetHost && 'R' !in SearchPath;
    assert Token[0] !in CnpjSearch;
    forall i | 0 <= i < |CnpjSearch|
      ensures CnpjSearch[i] != Token[0]
    {
      assert CnpjSearch[i] in CnpjSearch;
    }
    ReplaceAtEnd(CnpjSearch, Token, value);
  }

  /** Built-in commands and the trigger are resolved before the directory is
      looked at: a file of the same name is never run. */
  lemma ReservedIgnoreDirectory(s: State, d1: Dir, d2: Dir, command: string)
    requires command in Builtins || command == InCommand
    ensures ExecuteCommand(s, d1, command) == ExecuteCommand(s, d2, command)
    ensures forall k :: 0 <= k < |ExecuteCommand(s, d1, command).state.effects| ==>
      !ExecuteCommand(s, d1, command).state.effects[k].RanScript?
      || k < |s.effects|
  {
  }

  /** Any other command depends on the directory only through the file the
      probe picks and whether running it fails. */
  lemma OtherCommandsProbeOnly(s: State, d1: Dir, d2: Dir, command: string)
    requires command !in Builtins && command != InCommand
    requires Probe(d1, command) == Probe(d2, command)
    requires Probe(d1, command).Some? ==>
      (Probe(d1, command).value in d1.failing <==> Probe(d1, command).value in d2.failing)
    ensures ExecuteCommand(s, d1, command) == ExecuteCommand(s, d2, command)
  {
  }

  /** The input reaches the dispatch only through its normalised form: two
      inputs with the same normalised command lead to the same state, apart
      from the input's own text. */
  lemma DispatchSeesNormalizedOnly(s: State, d: Dir, a: string, b: string)
    requires Normalize(a) == Normalize(b)
    ensures CheckExit(s.(entry := a), d).(entry := "") == CheckExit(s.(entry := b), d).(entry := "")
  {
    var c := Normalize(a);
    if c != ExitCommand && c != HelpCommand {
      var o := ExecuteCommand(s, d, c);
      ExecuteIgnoresEntry(s, d, c, a);
      ExecuteIgnoresEntry(s, d, c, b);
      AfterHandledIgnoresEntry(o.state, ExecuteCommand(s.(entry := a), d, c).state.entry);
      AfterHandledIgnoresEntry(o.state, ExecuteCommand(s.(entry := b), d, c).state.entry);
    }
  }

  /** `execute_command` is given the command, not the input: the input's
      text is carried along but decides nothing. */
  lemma ExecuteIgnoresEntry(s: State, d: Dir, command: string, text: string)
    ensures var o := ExecuteCommand(s, d, command);
      var t := ExecuteCommand(s.(entry := text), d, command);
      t.handled == o.handled && t.state == o.state.(entry := t.state.entry)
  {
    if command in Builtins || command == InCommand {
      ReservedIgnoreEntry(s, d, command, text);
    } else {
      ProbedIgnoreEntry(s, d, command, text);
    }
  }

  lemma ReservedIgnoreEntry(s: State, d: Dir, command: string, text: string)
    requires command in Builtins || command == InCommand
    ensures var o := ExecuteCommand(s, d, command);
      var t := ExecuteCommand(s.(entry := text), d, command);
      t.handled && o.handled && t.state == o.state.(entry := text)
  {
  }

  lemma ProbedIgnoreEntry(s: State, d: Dir, command: string, text: string)
    requires command !in Builtins && command != InCommand
    ensures var o := ExecuteCommand(s, d, command);
      var t := ExecuteCommand(s.(entry := text), d, command);
      t.handled == o.handled && t.state == o.state.(entry := t.state.entry)
  {
    if Probe(d, command).Some? {
      var file := Probe(d, command).value;
      var st := s.(entry := text);
      assert st.(effects := st.effects + [RanScript(file, true)])
          == s.(effects := s.effects + [RanScript(file, true)]).(entry := text);
    }
  }

  /** The end of a handled dispatch does not read the input's old text. */
  lemma AfterHandledIgnoresEntry(t: State, text: string)
    ensures AfterHandled(t.(entry := text)) == AfterHandled(t)
  {
  }

  /** `exit` and `?` come before everything else, whatever the directory
      holds and however the input is spaced or capitalised. */
  lemma ExitAndHelpFirst(s: State, d: Dir)
    requires Normalize(s.entry) in {ExitCommand, HelpCommand}
    ensures CheckExit(s, d).effects == s.effects + [Shutdown] || CheckExit(s, d).effects == s.effects
    ensures forall k :: |s.effects| <= k < |CheckExit(s, d).effects| ==> CheckExit(s, d).effects[k] == Shutdown
  {
  }

  /** After a dispatch that handles its command, the window is hidden unless
      it was hidden already, with one exception: the `in` trigger keeps the
      window open for its field. */
  lemma HiddenAfterHandled(s: State, d: Dir)
    requires s.hideAfterCommand
    requires var c := Normalize(s.entry);
      c != ExitCommand && c != HelpCommand && ExecuteCommand(s, d, c).handled
    ensures CheckExit(s, d).visible <==> s.visible && Normalize(s.entry) == InCommand
    ensures CheckExit(s, d).hideAfterCommand
    ensures CheckExit(s, d).entry == ""
  {
    var c := Normalize(s.entry);
    var o := ExecuteCommand(s, d, c);
    assert o.state.hideAfterCommand <==> c != InCommand;
  }

  /** A dispatch that does not handle its command never hides the window and
      leaves the flag as it was. */
  lemma UnhandledKeepsWindow(s: State, d: Dir)
    requires var c := Normalize(s.entry);
      c != ExitCommand && c != HelpCommand && !ExecuteCommand(s, d, c).handled
    ensures CheckExit(s, d).visible == s.visible
    ensures CheckExit(s, d).hideAfterCommand == s.hideAfterCommand
    ensures CheckExit(s, d).fields == s.fields
  {
  }

  /** A script that fails leaves everything but the log as it was; in
      particular the typed text stays in the input. */
  lemma FailingScriptKeepsInput(s: State, d: Dir)
    requires var c := Normalize(s.entry);
      && c != ExitCommand && c != HelpCommand && ResolvesToFile(d, c)
      && Probe(d, c).value in d.failing
    ensures CheckExit(s, d) == s.(effects := s.effects + [RanScript(Probe(d, Normalize(s.entry)).value, false)])
  {
  }

  /** Every state reachable from start-up keeps the layout invariant and has
      auto-hide set, whatever the directory and the events. */
  lemma ReachableStates(d: Dir, events: seq<Event>)
    ensures Valid(Run(Init(), d, events))
    ensures Run(Init(), d, events).hideAfterCommand
  {
  }

  lemma {:induction false} RunAppend(s: State, d: Dir, a: seq<Event>, b: seq<Event>)
    ensures Run(s, d, a + b) == Run(Run(s, d, a), d, b)
    decreases |a|
  {
    if |a| > 0 {
      assert (a + b)[0] == a[0];
      assert (a + b)[1..] == a[1..] + b;
      RunAppend(Step(s, d, a[0]), d, a[1..], b);
    } else {
      assert a + b == b;
    }
  }

  /** `exit` ends the session: the window is destroyed, the tray icon is
      stopped, and no later event does anything, not even the continuation
      of a field still on screen. */
  lemma ExitEndsSession(s: State, d: Dir, later: seq<Event>)
    requires !s.closed && Normalize(s.entry) == ExitCommand
    ensures Run(s, d, [Submit] + later) == s.(closed := true, effects := s.effects + [Shutdown])
  {
    RunAppend(s, d, [Submit], later);
    assert Run(s, d, [Submit]) == Run(CheckExit(s, d), d, []);
  }

  /** The `in` flow: the trigger opens a CNPJ field below the existing ones
      and keeps the window open; submitting the field opens the search page
      for the trimmed value once, removes all fields, restores the default
      size and hides the window. */
  lemma CnpjFlow(s: State, d: Dir, value: string)
    requires Valid(s) && !s.closed && s.hideAfterCommand
    requires Normalize(s.entry) == InCommand
    ensures var afterIn := Run(s, d, [Submit]);
      && afterIn.visible == s.visible
      && afterIn.entryCount == s.entryCount + 1
      && afterIn.geometry == Geometry(DefaultWidth, DefaultHeight + FieldHeight * (s.entryCount + 1))
      && afterIn.effects == s.effects
    ensures var done := Run(s, d, [Submit, SubmitAt(s.entryCount, value)]);
      && done.effects == s.effects + [OpenedUrl(CnpjSearch + Strip(value))]
      && done.entryCount == 0 && done.fields == []
      && done.geometry == Geometry(DefaultWidth, DefaultHeight)
      && !done.visible
      && done.hideAfterCommand
  {
    var afterIn := CheckExit(s, d);
    assert Run(s, d, [Submit]) == Run(afterIn, d, []);
    assert [Submit, SubmitAt(s.entryCount, value)] == [Submit] + [SubmitAt(s.entryCount, value)];
    RunAppend(s, d, [Submit], [SubmitAt(s.entryCount, value)]);
    var o := ExecuteCommand(s, d, InCommand);
    assert afterIn == AfterHandled(o.state);
    assert afterIn.fields[s.entryCount].onSubmit == Some(OpenLinkAndReset(CnpjUrl));
    var done := SubmitField(afterIn, d, s.entryCount, value);
    assert Run(afterIn, d, [SubmitAt(s.entryCount, value)]) == Run(done, d, []);
    CnpjLink(Strip(value));
  }

  /** An unknown command shows the not-found message in red and keeps the
      fields; the next key rebuilds the base interface with that key as the
      whole input. */
  lemma NotFoundRecovery(s: State, d: Dir, typed: string)
    requires !s.closed
    requires var c := Normalize(s.entry);
      && c != ExitCommand && c != HelpCommand && c !in Builtins && c != InCommand
      && Probe(d, c).None?
    ensures var shown := Run(s, d, [Submit]);
      && shown.placeholder == NotFoundMessage(Normalize(s.entry))
      && shown.placeholderColor == Red && shown.entry == ""
      && shown.fields == s.fields && shown.visible == s.visible
      && shown.hideAfterCommand == s.hideAfterCommand
    ensures var next := Run(s, d, [Submit, Key(typed)]);
      && next.entry == typed && next.placeholder == Prompt
      && next.fields == [] && next.entryCount == 0
      && next.visible == s.visible && next.effects == s.effects
  {
    var shown := CheckExit(s, d);
    assert Run(s, d, [Submit]) == Run(shown, d, []);
    assert [Submit, Key(typed)] == [Submit] + [Key(typed)];
    RunAppend(s, d, [Submit], [Key(typed)]);
    assert Run(shown, d, [Key(typed)]) == Run(KeyPress(shown, typed), d, []);
  }

  /** `?` lists every command file of the directory, one overlay row each,
      under the header and a blank row, and arms the input; the next key
      removes the overlay. */
  lemma HelpOverlay(s: State, d: Dir, typed: string)
    requires !s.closed && Normalize(s.entry) == HelpCommand
    requires |CommandFiles(d.listing)| >= 1
    requires forall k, i :: 0 <= k < |ListCommands(d)| && 0 <= i < |ListCommands(d)[k]| ==>
      ListCommands(d)[k][i] != '\n'
    ensures var shown := Run(s, d, [Submit]);
      && shown.tooltip.Some?
      && Split(shown.tooltip.value, "\n") == [TooltipHeader, ""] + ListCommands(d)
      && |ListCommands(d)| == |CommandFiles(d.listing)|
      && shown.resetOnKey
    ensures Run(s, d, [Submit, Key(typed)]).tooltip.None?
  {
    var shown := CheckExit(s, d);
    assert Run(s, d, [Submit]) == Run(shown, d, []);
    ListIsHelpLines(d, d.listing);
    TooltipRows(ListCommands(d));
    assert [Submit, Key(typed)] == [Submit] + [Key(typed)];
    RunAppend(s, d, [Submit], [Key(typed)]);
    assert Run(shown, d, [Key(typed)]) == Run(KeyPress(shown, typed), d, []);
  }
}
