/** Command dispatch: what pressing Return in an input, typing a key in the
    main input, and pressing the global hot key do to the launcher's state.
    A typed command is normalised and resolved in a fixed order: `exit`, `?`,
    the built-in commands, the `in` trigger, a script file in the commands
    directory, and finally "not found". */
module Dispatch {
  import opened Optional
  import opened Text
  import opened Registry
  import opened Interface

  const ExitCommand: string := "exit"
  const HelpCommand: string := "?"
  /** The command that opens the CNPJ search field. */
  const InCommand: string := "in"
  /** The names of the built-in commands; `dir` opens the launcher's own
      directory. */
  const Builtins: set<string> := {"dir"}

  const IntranetHost: string := "https://intranet.lzt.com.br"
  const SearchPath: string := "/cliente/pesquisar/"
  /** The intranet's customer search address. */
  const CnpjSearch: string := IntranetHost + SearchPath
  /** The template the CNPJ field's continuation fills in: the search
      address with the token as its last path segment. */
  const CnpjUrl: string := CnpjSearch + Token

  /** The command a raw input stands for: surrounding whitespace removed,
      then lower-cased. */
  function Normalize(raw: string): (r: string)
    ensures IsStripped(r) && |r| <= |raw|
    ensures forall i :: 0 <= i < |r| ==> !IsUpper(r[i])
  {
    LowerKeepsStripped(Strip(raw));
    Lower(Strip(raw))
  }

  /** Normalising twice is normalising once. */
  lemma NormalizeIdempotent(raw: string)
    ensures Normalize(Normalize(raw)) == Normalize(raw)
  {
    var n := Normalize(raw);
    StripIdempotent(n);
    LowerIdempotent(Strip(raw));
  }

  function NotFoundMessage(command: string): string
  {
    "Comando '" + command + "' n\U{e3}o encontrado"
  }

  /** What `execute_command` reports and the state it leaves. */
  datatype Outcome = Outcome(handled: bool, state: State)

  /** A command that resolves to a file the model runs: neither built in nor
      the trigger, and present in the directory. */
  predicate ResolvesToFile(d: Dir, command: string)
  {
    command !in Builtins && command != InCommand && Probe(d, command).Some?
  }

  /** `execute_command` on an already normalised command. */
  function ExecuteCommand(s: State, d: Dir, command: string): (o: Outcome)
    ensures o.handled <==>
      || command in Builtins
      || command == InCommand
      || (ResolvesToFile(d, command) && Probe(d, command).value !in d.failing)
    ensures command in Builtins ==>
      o.state == s.(effects := s.effects + [OpenedScriptDir], hideAfterCommand := true)
    ensures command == InCommand ==>
      && o.state == s.(fields := o.state.fields, entryCount := s.entryCount + 1,
                       geometry := SizeFor(s.entryCount + 1), hideAfterCommand := false)
      && |o.state.fields| == |s.fields| + 1
      && o.state.fields[..|s.fields|] == s.fields
      && o.state.fields[|s.fields|] == CnpjField(s.entryCount)
    ensures ResolvesToFile(d, command) ==>
      var file := Probe(d, command).value;
      && o.state.effects == s.effects + [RanScript(file, file !in d.failing)]
      && (o.handled ==>
            o.state == s.(entry := "", placeholder := Prompt, placeholderColor := ThemeColor,
                          resetOnKey := false, tooltip := None, fields := [], entryCount := 0,
                          geometry := Geometry(DefaultWidth, DefaultHeight), effects := o.state.effects))
      && (!o.handled ==> o.state == s.(effects := o.state.effects))
    ensures command !in Builtins && command != InCommand && Probe(d, command).None? ==>
      o.state == s.(entry := "", placeholder := NotFoundMessage(command),
                    placeholderColor := Red, resetOnKey := true)
    ensures o.state.visible == s.visible && o.state.closed == s.closed
    ensures s.effects <= o.state.effects
    ensures Valid(s) ==> Valid(o.state)
  {
    if command in Builtins then
      Outcome(true, s.(effects := s.effects + [OpenedScriptDir], hideAfterCommand := true))
    else if command == InCommand then
      var withField := CreateNewEntry(s, "CNPJ", Cyan, Some(OpenLinkAndReset(CnpjUrl)));
      AddsCnpjField(s);
      Outcome(true, AdjustWindowSize(withField).(hideAfterCommand := false))
    else
      match Probe(d, command)
      case None =>
        Outcome(false, ResetInputPlaceholder(s, NotFoundMessage(command), Red))
      case Some(file) =>
        if file in d.failing then
          Outcome(false, s.(effects := s.effects + [RanScript(file, false)]))
        else
          Outcome(true, SetupInterface(s.(effects := s.effects + [RanScript(file, true)])))
  }

  /** The field the trigger adds below `count` existing ones. */
  function CnpjField(count: nat): Field
  {
    Field("CNPJ", Cyan, 2 * count + 1, 2 * count + 2, Some(OpenLinkAndReset(CnpjUrl)))
  }

  /** The trigger's two steps, creating the field and resizing, append the
      CNPJ field and size the window for one more field; nothing else
      changes. */
  lemma AddsCnpjField(s: State)
    ensures AdjustWindowSize(CreateNewEntry(s, "CNPJ", Cyan, Some(OpenLinkAndReset(CnpjUrl))))
      == s.(fields := s.fields + [CnpjField(s.entryCount)], entryCount := s.entryCount + 1,
            geometry := SizeFor(s.entryCount + 1))
  {
  }

  /** The end of a handled dispatch in `check_exit`: the input is cleared,
      the window hides if the flag asks for it, and the flag is set again. */
  function AfterHandled(t: State): (r: State)
    ensures r.entry == "" && r.placeholder == Prompt
    ensures r.visible <==> t.visible && !t.hideAfterCommand
    ensures r.hideAfterCommand
    ensures r == t.(entry := "", placeholder := Prompt, visible := r.visible, hideAfterCommand := true)
  {
    var cleared := t.(entry := "", placeholder := Prompt);
    var shown := if cleared.hideAfterCommand then HideWindow(cleared) else cleared;
    shown.(hideAfterCommand := true)
  }

  /** `cleanup`: the window is destroyed and the tray icon stopped. */
  function Cleanup(s: State): (r: State)
    ensures r.closed && r.effects == s.effects + [Shutdown]
    ensures r == s.(closed := true, effects := r.effects)
  {
    s.(closed := true, effects := s.effects + [Shutdown])
  }

  /** `show_commands_tooltip`: the overlay shows the header and the help
      listing of the commands directory. */
  function ShowCommandsTooltip(s: State, d: Dir): (r: State)
    ensures r.tooltip == Some(TooltipText(ListCommands(d)))
    ensures r == s.(tooltip := r.tooltip)
  {
    s.(tooltip := Some(TooltipText(ListCommands(d))))
  }

  /** `check_exit`: Return pressed in the main input, or in a field without
      a continuation of its own. */
  function CheckExit(s: State, d: Dir): (r: State)
    ensures var c := Normalize(s.entry);
      c == ExitCommand ==> r == Cleanup(s)
    ensures var c := Normalize(s.entry);
      c == HelpCommand ==>
        && r.tooltip == Some(TooltipText(ListCommands(d)))
        && r.entry == "" && r.placeholder == Prompt && r.placeholderColor == Lime && r.resetOnKey
        && r.fields == s.fields && r.visible == s.visible
        && r.hideAfterCommand == s.hideAfterCommand && r.effects == s.effects
    ensures var c := Normalize(s.entry);
      c != ExitCommand && c != HelpCommand ==>
        var o := ExecuteCommand(s, d, c);
        && (o.handled ==> r == AfterHandled(o.state))
        && (!o.handled ==> r == o.state)
    ensures s.hideAfterCommand ==> r.hideAfterCommand
    ensures Valid(s) ==> Valid(r)
    ensures r.closed <==> s.closed || Normalize(s.entry) == ExitCommand
    ensures s.effects <= r.effects
  {
    var command := Normalize(s.entry);
    if command == ExitCommand then Cleanup(s)
    else if command == HelpCommand then
      ResetInputPlaceholder(ShowCommandsTooltip(s, d).(entry := ""), Prompt, Lime)
    else
      var o := ExecuteCommand(s, d, command);
      if o.handled then AfterHandled(o.state) else o.state
  }

  /** A key typed in the main input. The tooltip, if shown, goes away; when
      the input was armed by a placeholder reset, the base interface is
      rebuilt around the typed character; otherwise the character is
      appended. */
  function KeyPress(s: State, typed: string): (r: State)
    ensures r.tooltip.None?
    ensures s.resetOnKey ==> r.entry == typed && r.entryCount == 0 && r.fields == [] && !r.resetOnKey
    ensures !s.resetOnKey ==> r.entry == s.entry + typed && r.fields == s.fields && r.geometry == s.geometry
    ensures r.visible == s.visible && r.hideAfterCommand == s.hideAfterCommand
    ensures r.effects == s.effects && r.closed == s.closed
    ensures Valid(s) ==> Valid(r)
  {
    var hidden := s.(tooltip := None);
    if hidden.resetOnKey then ResetInputHandler(hidden, typed)
    else hidden.(entry := hidden.entry + typed)
  }

  /** Return pressed in interactive field `k` holding `text`: its
      continuation gets the trimmed text; a field without one runs the main
      dispatch, which reads the main input. A field index that does not
      exist changes nothing. */
  function SubmitField(s: State, d: Dir, k: nat, text: string): (r: State)
    ensures k < |s.fields| && s.fields[k].onSubmit.Some? ==>
      var base := s.fields[k].onSubmit.value.baseUrl;
      && r.effects == s.effects + [OpenedUrl(LinkFor(Strip(text), base))]
      && r.entryCount == 0 && r.fields == []
      && (r.visible <==> s.visible && !s.hideAfterCommand)
    ensures k < |s.fields| && s.fields[k].onSubmit.None? ==> r == CheckExit(s, d)
    ensures k >= |s.fields| ==> r == s
    ensures s.effects <= r.effects
    ensures s.hideAfterCommand ==> r.hideAfterCommand
    ensures Valid(s) ==> Valid(r)
  {
    if k >= |s.fields| then s
    else match s.fields[k].onSubmit
      case None => CheckExit(s, d)
      case Some(OpenLinkAndReset(base)) => OpenLinkWithValueAndReset(s, Strip(text), base)
  }

  /** The user's inputs: Return in the main input, Return in a field, a key
      in the main input, the global hot key. */
  datatype Event =
    | Submit
    | SubmitAt(index: nat, text: string)
    | Key(typed: string)
    | HotKey

  /** One event; a destroyed window receives nothing. */
  function Step(s: State, d: Dir, e: Event): (r: State)
    ensures s.closed ==> r == s
    ensures Valid(s) ==> Valid(r)
    ensures s.hideAfterCommand ==> r.hideAfterCommand
    ensures s.effects <= r.effects
  {
    if s.closed then s
    else match e
      case Submit => CheckExit(s, d)
      case SubmitAt(k, text) => SubmitField(s, d, k, text)
      case Key(typed) => KeyPress(s, typed)
      case HotKey => ToggleWindow(s)
  }

  /** A sequence of events, in order. */
  function Run(s: State, d: Dir, events: seq<Event>): (r: State)
    ensures Valid(s) ==> Valid(r)
    ensures s.hideAfterCommand ==> r.hideAfterCommand
    ensures s.closed ==> r == s
    ensures s.effects <= r.effects
    decreases |events|
  {
    if |events| == 0 then s
    else
      var next := Step(s, d, events[0]);
      Run(next, d, events[1..])
  }
}
