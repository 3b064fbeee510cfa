# Launcher command dispatch, in Dafny

The launcher is a small always-on-top window with one input. The user types a
command and presses Return. The command is stripped and lower-cased, then
resolved in a fixed order:

1. `exit` destroys the window and stops the tray icon.
2. `?` shows a help overlay that lists every command file with its description.
3. A built-in command (`dir`) opens the launcher's directory.
4. The `in` trigger adds a "CNPJ" field. Submitting that field opens the
   intranet's customer search page for the typed value.
5. `<command>.py`, then `<command>.txt`, in the `commands` directory is
   executed.
6. Anything else shows "not found" in the input's placeholder. The next key
   rebuilds the base interface.

A flag decides whether a successful command hides the window. The `in` trigger
clears the flag. `check_exit` sets it again after every handled command.

The `commands/vv.py` plugin types a heading. It then replays a list of
`write:`, `key:`, `press:` and `release:` commands as keyboard actions.

The model is a set of pure functions over an immutable state record
(`Interface.State`). The state holds:

- the input's text, placeholder and placeholder colour;
- whether the next key rebuilds the interface;
- the help overlay;
- the interactive fields and their counter;
- the window's size, and the launcher's record of whether the window is
  shown;
- the auto-hide flag;
- whether the window has been destroyed;
- a log of requests to the outside world: open the directory, open a URL, run
  a script, shut down.

The commands directory is a parameter (`Registry.Dir`). It lists:

- the names `os.listdir` yields;
- the readable files and their lines;
- the files whose execution raises.

The modules are:

- `Optional`: the option type.
- `Text`: Python's `strip`, `lower`, `in`, `find`, `split`, `split(sep, 1)`,
  `join` and `replace`, with the laws the launcher relies on.
- `Docstring`: the description scanner of `get_command_docstring`, in three
  forms:
  - as written;
  - as a declarative reference definition;
  - corrected for one-line blocks.

  The help listing uses the scan as written, as the launcher does.
- `Registry`: the file probe, the help listing and the overlay text.
- `Interface`: the state, its layout invariant (`Valid`), and the window and
  field operations.
- `Dispatch`: `check_exit`, `execute_command`, the key handler, field
  submission, and `Step`/`Run` over a sequence of user events.
- `Scenarios`: properties spanning several operations and events.
- `Vv`: `paste_vv` as a function from text and commands to an action trace.

## Model

| member | source | states |
|---|---|---|
| Dispatch.Normalize | main.py:167 | The command compared against the branches has no surrounding whitespace and no upper-case letter, and is never longer than the typed text |
| Dispatch.NormalizeIdempotent | main.py:167 | Normalising an already normalised command changes nothing, so typing the normalised form resolves the same way |
| Text.LowerStripCommute | main.py:167 | Lower-casing never creates or removes whitespace, so `strip().lower()` equals `lower().strip()` |
| Text.Strip | main.py:167 | `strip` returns text with no whitespace at either end and never lengthens its input |
| Text.StripShape | main.py:167 | What `strip` removes is whitespace only: the input is some whitespace, the result, and some more whitespace |
| Text.StripPadded | main.py:167 | Stripping text padded with whitespace on both sides gives back exactly the stripped text |
| Text.StripIdempotent | main.py:167 | Stripping a stripped line changes nothing |
| Text.Lower | main.py:167 | `lower` keeps the length, maps letter by letter, and leaves no upper-case letter |
| Dispatch.CheckExit | main.py:162-184 | `exit` only runs cleanup. `?` shows the listing, clears the input, shows the prompt in lime and arms the reset, without touching fields, visibility, the flag or the log. Any other command goes to `execute_command`; a handled one is followed by the clear, hide and flag reset, and an unhandled one changes nothing more. The flag is never cleared by the whole call, the layout invariant is kept, the window closes exactly on `exit`, and the log only grows |
| Dispatch.AfterHandled | main.py:176-182 | After a handled command, the input is emptied, the window is visible exactly when it was visible and the flag was off, and the flag is set again |
| Scenarios.ExitAndHelpFirst | main.py:169-174 | `exit` and `?` are decided before the directory is consulted: the log gains at most a shutdown and nothing else |
| Scenarios.DispatchSeesNormalizedOnly | main.py:167-182 | Two inputs with the same normalised command lead to the same state, apart from the input's own text |
| Scenarios.HiddenAfterHandled | main.py:176-182 | With the flag set, a handled command leaves the window visible only for the `in` trigger, clears the input, and leaves the flag set |
| Scenarios.UnhandledKeepsWindow | main.py:176-182 | A command that is not handled neither hides the window nor changes the flag or the fields |
| Dispatch.ExecuteCommand | main.py:197-249 | The command is handled exactly when it is built in, is the trigger, or resolves to a file that runs without raising. A built-in logs the directory request and sets the flag. The trigger appends a cyan `CNPJ` field on the next two rows, bound to the search template, sizes the window for one more field and clears the flag; nothing else changes. A file run is logged with its outcome. Success rebuilds the base interface: empty input, prompt in the theme colour, no overlay, no fields, default size, nothing else changed. Failure changes nothing else. "Not found" empties the input and shows the red message. Visibility and the closed state are untouched, the log only grows, and the layout invariant is kept |
| Scenarios.ReservedIgnoreDirectory | main.py:204-222 | Built-ins and the trigger come before the probe: the outcome is the same whatever the directory holds, and no script is run |
| Scenarios.OtherCommandsProbeOnly | main.py:223-246 | Any other command depends on the directory only through the file the probe picks and whether running it raises |
| Scenarios.ExecuteIgnoresEntry | main.py:197-249 | `execute_command` is driven by its argument: the input's text decides nothing |
| Scenarios.FailingScriptKeepsInput | main.py:233-243 | A script that raises leaves the whole state, typed text included, as it was, apart from the logged failed run |
| Registry.Probe | main.py:224-231 | A file is found exactly when `<command>.py` or `<command>.txt` exists. The `.py` file wins when it exists, and the `.txt` file is chosen exactly when only it exists |
| Registry.FirstFile | main.py:226-231 | The probe loop returns the first candidate that is a file; every earlier candidate is not one, and none is found only when no candidate is a file |
| Registry.ProbeLocal | main.py:224-231 | The probe looks at the two candidate names and nothing else in the directory |
| Interface.ResetInputPlaceholder | main.py:251-261 | Only a record update: the input is emptied, shows the message in the given colour, and the next key will rebuild the interface |
| Scenarios.NotFoundRecovery | main.py:244-246 | An unknown command shows its not-found message in red with the fields kept. The next key rebuilds the base interface with exactly that key as the input, with no fields and no new log entry |
| Interface.ResetInputHandler | main.py:263-272 | The base interface is rebuilt, the layout invariant holds with no fields, and the typed character is the whole input |
| Dispatch.KeyPress | main.py:460-470 | A key removes the overlay. When the input is armed, it rebuilds the base interface around the key; otherwise it appends the key. Visibility, flag and log are kept, and so is the layout invariant |
| Interface.Init | main.py:42-65 | At start-up the layout invariant holds, with no fields, the visibility record saying hidden, the flag set, and nothing requested yet |
| Dispatch.Step | main.py:115 | One event (Return in the main input as bound here, Return in a field as bound at lines 343-346, a key as bound at lines 259 and 456, the hot key as bound at line 527) keeps the layout invariant and the flag and only extends the log; a destroyed window ignores every event |
| Dispatch.Run | main.py:529 | A sequence of events, in order, keeps the layout invariant and the flag and only extends the log; a destroyed window stays as it is |
| Scenarios.RunAppend | main.py:529 | Running two event sequences one after the other is running their concatenation |
| Scenarios.ReachableStates | main.py:42-65 | In every state reachable from start-up, by any events and any directory, the layout invariant holds and the flag is set |
| Interface.SetupInterface | main.py:84-121 | The base layout: an empty input, no fields, a zero count, the default 240x100 size, no overlay, no armed reset. Visibility, flag, closed state and log are untouched |
| Interface.SetupIdempotent | main.py:84-121 | Rebuilding the base interface twice is rebuilding it once |
| Interface.CreateNewEntry | main.py:327-355 | A new field is appended with the given caption, colour and continuation. The existing fields are kept, the count grows by exactly one, the field takes the two rows after the existing ones, the window grows by one field height, and the layout invariant is kept |
| Interface.RowsDistinct | main.py:337-347 | Under the layout invariant no two field rows coincide, and no field uses row 0, where the main input sits |
| Interface.AdjustWindowSize | main.py:357-368 | The window is resized so that its height gives back the field count, at the default width, and nothing else changes |
| Interface.SizeForInverse | main.py:365-366 | A height of `100 + 70 * count` gives the count back, at width 240 |
| Interface.AdjustIdempotent | main.py:357-368 | Resizing twice is resizing once |
| Dispatch.SubmitField | main.py:343-346 | A field with a continuation opens one link built from its stripped text and resets the interface, without running the main dispatch. A field without one runs the main dispatch. An index with no field changes nothing |
| Interface.LinkFor | main.py:192 | A template without the token gives the template unchanged |
| Interface.LinkForFirst | main.py:192 | Every token is filled in, from the left: the template up to its first token, the value, then the rest of the template filled in the same way |
| Text.Replace | main.py:192 | `replace` leaves text without the target unchanged, and replacing the target with itself changes nothing |
| Text.ReplaceFirst | main.py:192 | `replace` works from the left: the text before the first target is kept, the target becomes the replacement, and the rest is replaced in the same way. With the no-target case this determines the result for every input |
| Text.ReplaceAtEnd | main.py:192 | A template whose only occurrence of the token is at its end becomes its prefix followed by the value |
| Interface.OpenLinkWithValue | main.py:186-195 | The browser is asked for exactly the substituted link, once; nothing else changes |
| Interface.OpenLinkWithValueAndReset | main.py:302-315 | The link is opened once and the base interface is rebuilt at the default size. The window is visible afterwards exactly when it was visible and the flag was off, and the flag itself is kept |
| Scenarios.CnpjLink | main.py:214-216 | The CNPJ template's link is the search address followed by the value |
| Scenarios.CnpjFlow | main.py:209-222 | `in` adds a field below the others, grows the window and keeps it open, with no log entry. Submitting that field opens the search page for the trimmed value once, removes all fields, restores the default size and hides the window, because the flag was set again in between |
| Interface.ToggleWindow | main.py:125-136 | The hot key flips the visibility record and changes nothing else |
| Interface.HideWindow | main.py:151-160 | Only a record update: the visibility record says hidden and nothing else changes |
| Interface.ShowWindow | main.py:138-149 | Only a record update: the visibility record says shown and nothing else changes |
| Interface.ToggleTwice | main.py:125-160 | Toggling twice restores the state |
| Dispatch.Cleanup | main.py:380-389 | Only a record update: the window is marked destroyed and one shutdown is logged |
| Scenarios.ExitEndsSession | main.py:169-170 | After `exit` the window is destroyed with one shutdown logged, and no later event has any effect, not even a field's continuation |
| Registry.ListCommands | main.py:391-406 | The listing has one line per `.py`/`.txt` name of the directory, in directory order, and line `k` is the help line of the `k`-th such name |
| Registry.ListFrom | main.py:398-402 | The loop yields exactly as many lines as there are command files among the names |
| Registry.HelpLine | main.py:400-402 | A help line starts with the command name and ` - `, followed by a non-empty description |
| Registry.DescriptionOf | main.py:408-431 | A listed name that cannot be read is described by the error text. A readable file is described by the declarative description of its lines, or by the "no description" text when that is empty. The result is never empty |
| Registry.ListingRunsOn | main.py:398-428 | A directory holding only `a.py`, whose lines are `"""A"""` and `b`, is listed as `a - A b`, where the corrected description is `A` |
| Registry.ListIsHelpLines | main.py:391-406 | The listing holds one `name - description` line per `.py`/`.txt` name, one for one and in directory order |
| Registry.ListAppend | main.py:398-402 | Listing two parts of the directory one after the other gives the listing of the whole |
| Registry.CommandFiles | main.py:399 | The filter keeps only names ending in `.py` or `.txt` and never adds any |
| Registry.CommandName | main.py:400 | The command name is the file name up to, not including, its first dot |
| Registry.CommandNameShort | main.py:399-400 | A command file's name stops before its extension, so it is a proper prefix of the file name |
| Text.Split | main.py:400 | `split` always gives at least one piece; `Text.SplitSpec` states the rest |
| Text.Join | main.py:440 | The joined text starts with the first element |
| Text.SplitSpec | main.py:400 | `split` pieces join back to the text, no piece holds the separator, and there are two pieces or more exactly when the separator occurs |
| Text.SplitJoin | main.py:440 | Splitting at a one-character separator that no element holds undoes the join |
| Dispatch.ShowCommandsTooltip | main.py:433-443 | Only a record update: the overlay shows the header and the listing of the current directory, and nothing else changes |
| Registry.TooltipRows | main.py:440 | When no help line holds a line break, the overlay's rows are the header, a blank row, and exactly the help lines |
| Scenarios.HelpOverlay | main.py:171-174 | `?` shows the header, a blank row and one row per command file, and arms the input. The next key removes the overlay |
| Text.IndexOf | main.py:419 | `find` returns the first occurrence, and none only when the text has no occurrence |
| Text.FindFrom | main.py:419 | The search from a position returns the first occurrence at or after it, and none only when there is none |
| Docstring.ScanAsWritten | main.py:416-427 | The scan as written equals the declarative description. With no marker line it is empty. Otherwise it is the text after the first marker, then each following line stripped and preceded by a space, then the text before the next marker, or every remaining line when no marker follows |
| Docstring.FirstMarkerIsFirst | main.py:418-425 | The block opens at a marker line with no marker line before it; there is none only when no line holds the marker |
| Docstring.OneLinerRunsOn | main.py:418-427 | The scan as written runs past a one-line block: the file `"""A"""` followed by `b` is described as `A b` |
| Docstring.FixedStopsAtOneLiner | main.py:418-427 | The corrected scan ends a one-line block where it opens: the description is that line's text, whatever lines follow |
| Docstring.FixedAgreesOnBlocks | main.py:416-427 | When the first marker line is not a one-line block, the corrected scan and the scan as written give the same description |
| Docstring.FirstMarkerKept | main.py:418-425 | Lines added after the first marker line do not move it |
| Docstring.ScanClosedFixedSpec | main.py:416-427 | The corrected scan: the opening text alone when the first marker line is a one-line block, the launcher's reading otherwise |
| Docstring.Describe | main.py:428 | The description shown is never empty. It is the declarative description when that is non-empty, and the "no description" text when it is empty |
| Docstring.DescribeFixed | main.py:428 | The same choice over the corrected scan |
| Vv.ParseCommand | commands/vv.py:21-33 | A command yields an action exactly when it starts with one of the four prefixes. `write:`, `key:`, `press:` and `release:` are tried in that order, and each acts on everything after the prefix, later colons included |
| Vv.AfterPrefix | commands/vv.py:22-23 | For a command that starts with a prefix word, the text after the first colon is everything after the prefix |
| Text.SplitOnce | commands/vv.py:23 | `split(sep, 1)` gives two pieces exactly when the separator occurs. They rebuild the text around the separator, and the first piece holds no separator |
| Vv.ParseRender | commands/vv.py:21-33 | Every action has a command that asks for it, whatever colons its text holds |
| Vv.RenderParse | commands/vv.py:21-33 | A recognised command is exactly the rendering of its action: no two commands ask for the same action |
| Vv.Actions | commands/vv.py:21-33 | The loop's trace has at most one action per command; `Vv.ActionsOnePerCommand` and `Vv.ActionsAppend` state the rest |
| Vv.PasteVv | commands/vv.py:4-33 | The initial text is typed first; the rest of the trace is the replay of the commands |
| Vv.ActionsAppend | commands/vv.py:21-33 | Commands are handled strictly in list order: replaying two lists one after the other concatenates their traces |
| Vv.ActionsOnePerCommand | commands/vv.py:21-33 | The trace has one action per command exactly when every command is recognised; otherwise it is shorter |
| Vv.ReplayRendered | commands/vv.py:21-33 | Replaying the commands rendered from a trace gives that trace back, in order |
| Vv.ReplayEach | commands/vv.py:21-33 | Commands that render a trace one by one replay to exactly that trace |
| Vv.DemoTrace | commands/vv.py:37-49 | The plugin's example types its heading and then exactly its eight actions, in order. The second text keeps its own colon |

## Left out

- Widgets, layout and styling: frames, fonts, colours other than the
  placeholder and label colours, focus, `update_idletasks`, the fields'
  "Digite o valor..." placeholder, and the grid weights of
  `rowconfigure`. Only grid rows and window size are kept.
- `center_window`: it depends on the screen size. The window's position is
  not part of the state.
- Whether the window is really on screen: the state holds only the
  launcher's own record (`self.visible`). At start-up that record says hidden
  while the window is already on screen, since `__init__` never withdraws
  it. So the first hot key press shows a window that is already shown.
- `show_error` and every `try`/`except` that calls it: error windows are not
  modelled. The exception is a script that raises, which is the modelled
  failure path of `execute_command`.
- `exec` of a script: an oracle, the directory's `failing` set. A script that
  runs is assumed not to change the launcher's state. A script that raises is
  assumed to have changed nothing before raising. Real scripts run with
  access to `self`.
- `os.listdir`, `os.path.isfile` and `open`: the directory is a parameter.
  A failure of `os.listdir` itself, which would give an empty listing and an
  error window, is not modelled. An existing file that cannot be read is not
  distinguished from a missing one when probing.
- How a file is divided into lines (`readlines`) and its text decoding: a
  file's contents are given as a sequence of lines.
- `webbrowser.open`, `os.startfile`, `root.destroy` and `icon.stop`: recorded
  in the log with no further semantics.
- `show_windows_tooltip`: modelled only as the overlay text it shows and the
  key binding that removes it; its window is not modelled.
- The tray thread, the pystray menu's "Exit" and the global hot key thread:
  concurrency with foreign libraries. The hot key is the `HotKey` event,
  which toggles the window. The menu's exit is the `exit` command's cleanup.
- Logging.
- Editing keys other than appending a typed character (deletion, cursor
  movement, paste) in the main input, and the text of the interactive
  fields, which arrives with each `SubmitAt` event.
- Text.Lower: only the Basic Latin and Latin-1 upper-case letters are
  lowered. Python's `lower` covers all of Unicode.
- Text.Replace: only the case of a non-empty target is modelled. The
  launcher's target is always the 9-character token.
- In `commands/vv.py`: the `keyboard` calls, `time.sleep` and `print`. The
  trace is the sequence of calls the keyboard library would receive.
- Launcher.py: an earlier prototype with no logic beyond `main.py`'s. It is
  not part of this model.

## Findings

| source | as written | input that shows it | evidently intended | confidence | as-written member | corrected member |
|---|---|---|---|---|---|---|
| main.py:418-427 | The first line holding `"""` opens the block with the text after that marker. The block only ends at a later line holding `"""`, even when the opening line already closes it (`"""text"""`) | A command file whose first lines are `"""A"""` and `b`: the description is `A b`, and every line up to the next `"""`, code included, is appended | A one-line docstring is the whole description (`A`) | high for the input shown, not executed | Docstring.OneLinerRunsOn | Docstring.FixedStopsAtOneLiner |

`Docstring.ScanAsWritten` is the scan as written, and it is what the help
listing uses (`Registry.DescriptionOf`, through `Docstring.Describe`).
`Docstring.DocstringFixed` also ends the scan at a one-line block, and
`Docstring.DescribeFixed` describes with it. `Docstring.FixedAgreesOnBlocks`
proves the two scans agree on every file whose block spans several lines.
`Registry.ListingRunsOn` shows the listing line the launcher produces for the
input above.
