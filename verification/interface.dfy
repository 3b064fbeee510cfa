/** The launcher window as an immutable record, and the operations of the
    application class that rebuild or extend it: resetting the base layout,
    appending an interactive field, resizing the window to fit the fields,
    replacing the input's placeholder, and opening a link built from a
    template. Widgets, focus and colours of the frames are not modelled; the
    browser, the file browser and the script runner appear only as entries of
    an effect log. */
module Interface {
  import opened Optional
  import opened Text

  const DefaultWidth: nat := 240
  const DefaultHeight: nat := 100
  /** Height the window gains for each interactive field. */
  const FieldHeight: nat := 70

  /** The input's default placeholder. */
  const Prompt: string := "Digite o comando..."
  /** The part of a link template replaced by the typed value. */
  const Token: string := "REPLACEME"

  /** A placeholder or label colour: the theme's own, or a named colour. */
  datatype Color = ThemeColor | Named(name: string)

  const Lime: Color := Named("lime")
  const Red: Color := Named("red")
  const Cyan: Color := Named("cyan")
  const White: Color := Named("white")

  datatype Geometry = Geometry(width: nat, height: nat)

  /** What submitting an interactive field does with its trimmed text. The
      launcher's only continuation opens a link built from a template and
      then resets the interface. */
  datatype Callback = OpenLinkAndReset(baseUrl: string)

  /** An interactive field: its caption, the grid rows of label and entry
      inside the entry frame, and the continuation bound to its submit key
      (`None`: submitting runs the main dispatch). */
  datatype Field = Field(
    caption: string,
    labelColor: Color,
    labelRow: nat,
    entryRow: nat,
    onSubmit: Option<Callback>)

  /** What the launcher asks of the world outside the window. */
  datatype Effect =
    | OpenedScriptDir
    | OpenedUrl(url: string)
    | RanScript(file: string, ok: bool)
    | Shutdown

  /** The launcher's state.
      `entry`, `placeholder`, `placeholderColor`: the main input's text and
      placeholder. `resetOnKey`: the next key in the main input rebuilds the
      base interface. `tooltip`: the help overlay's text, while shown.
      `fields`, `entryCount`: the interactive fields and their counter.
      `visible`: the launcher's own record of whether the window is shown
      (`self.visible`); only hiding and showing change it, and it starts out
      saying hidden although the window is then on screen.
      `hideAfterCommand`: a successful dispatch hides the window. `closed`:
      the window has been destroyed. `effects`: the log of requests to the
      outside world. */
  datatype State = State(
    entry: string,
    placeholder: string,
    placeholderColor: Color,
    resetOnKey: bool,
    tooltip: Option<string>,
    fields: seq<Field>,
    entryCount: nat,
    geometry: Geometry,
    visible: bool,
    hideAfterCommand: bool,
    closed: bool,
    effects: seq<Effect>)

  /** The window size for `count` interactive fields. */
  function SizeFor(count: nat): Geometry
  {
    Geometry(DefaultWidth, DefaultHeight + FieldHeight * count)
  }

  /** The number of fields a window size makes room for. */
  function FieldsFor(g: Geometry): int
  {
    (g.height - DefaultHeight) / FieldHeight
  }

  /** Field `k` sits on rows `2k + 1` (label) and `2k + 2` (entry). */
  predicate FieldAt(f: Field, k: nat)
  {
    f.labelRow == 2 * k + 1 && f.entryRow == 2 * k + 2
  }

  /** The layout invariant: one field per count, each on its own rows, and
      the window sized for exactly that many fields. */
  predicate Valid(s: State)
  {
    && |s.fields| == s.entryCount
    && (forall k :: 0 <= k < |s.fields| ==> FieldAt(s.fields[k], k))
    && s.geometry == SizeFor(s.entryCount)
  }

  /** Sizing and counting agree: the window's height gives the field count
      back. */
  lemma SizeForInverse(count: nat)
    ensures FieldsFor(SizeFor(count)) == count
    ensures SizeFor(count).width == DefaultWidth
  {
  }

  /** The rows of distinct fields never coincide, and no field uses row 0,
      where the main input sits. */
  lemma RowsDistinct(s: State, a: nat, b: nat)
    requires Valid(s) && a < |s.fields| && b < |s.fields| && a != b
    ensures s.fields[a].labelRow != s.fields[b].labelRow
    ensures s.fields[a].entryRow != s.fields[b].entryRow
    ensures s.fields[a].labelRow != s.fields[b].entryRow
    ensures s.fields[a].labelRow != s.fields[a].entryRow
    ensures s.fields[a].labelRow > 0 && s.fields[a].entryRow > 0
  {
  }

  /** `setup_interface`: the base layout with a fresh, empty input and no
      fields, at the default size. The tooltip window is a child of the root
      window and is destroyed with the rest. */
  function SetupInterface(s: State): (r: State)
    ensures Valid(r)
    ensures r.entryCount == 0 && r.geometry == Geometry(DefaultWidth, DefaultHeight)
    ensures r.entry == "" && !r.resetOnKey && r.tooltip.None?
    ensures r.visible == s.visible && r.hideAfterCommand == s.hideAfterCommand
    ensures r.closed == s.closed && r.effects == s.effects
  {
    s.(entry := "", placeholder := Prompt, placeholderColor := ThemeColor,
       resetOnKey := false, tooltip := None,
       fields := [], entryCount := 0, geometry := SizeFor(0))
  }

  lemma SetupIdempotent(s: State)
    ensures SetupInterface(SetupInterface(s)) == SetupInterface(s)
  {
  }

  /** `adjust_window_size`: the window is resized for the current count;
      nothing else changes. */
  function AdjustWindowSize(s: State): (r: State)
    ensures FieldsFor(r.geometry) == s.entryCount && r.geometry.width == DefaultWidth
    ensures r == s.(geometry := r.geometry)
    ensures |s.fields| == s.entryCount && (forall k :: 0 <= k < |s.fields| ==> FieldAt(s.fields[k], k))
      ==> Valid(r)
  {
    s.(geometry := SizeFor(s.entryCount))
  }

  lemma AdjustIdempotent(s: State)
    ensures AdjustWindowSize(AdjustWindowSize(s)) == AdjustWindowSize(s)
  {
  }

  /** `create_new_entry`: one more field, labelled and bound as given, on the
      two rows after the existing fields; the counter grows by exactly one
      and the window grows by one field's height. */
  function CreateNewEntry(s: State, caption: string, color: Color, onSubmit: Option<Callback>): (r: State)
    ensures r.entryCount == s.entryCount + 1
    ensures |r.fields| == |s.fields| + 1 && r.fields[..|s.fields|] == s.fields
    ensures var f := r.fields[|s.fields|];
      && f.caption == caption && f.labelColor == color && f.onSubmit == onSubmit
      && FieldAt(f, s.entryCount)
    ensures r.geometry.height == s.geometry.height + FieldHeight || !Valid(s)
    ensures Valid(s) ==> Valid(r)
    ensures r == s.(fields := r.fields, entryCount := r.entryCount, geometry := r.geometry)
  {
    var k := s.entryCount;
    var f := Field(caption, color, k * 2 + 1, k * 2 + 2, onSubmit);
    AdjustWindowSize(s.(fields := s.fields + [f], entryCount := k + 1))
  }

  /** `reset_input_placeholder`: the input is emptied, shows `message` in
      `color`, and the next key will rebuild the base interface. */
  function ResetInputPlaceholder(s: State, message: string, color: Color): (r: State)
    ensures r.entry == "" && r.placeholder == message && r.placeholderColor == color
    ensures r.resetOnKey
    ensures r.fields == s.fields && r.entryCount == s.entryCount && r.geometry == s.geometry
    ensures r.visible == s.visible && r.hideAfterCommand == s.hideAfterCommand
    ensures r.effects == s.effects && r.tooltip == s.tooltip && r.closed == s.closed
  {
    s.(entry := "", placeholder := message, placeholderColor := color, resetOnKey := true)
  }

  /** `reset_input_handler`: the base interface is rebuilt and the typed
      character becomes the new input's text. */
  function ResetInputHandler(s: State, typed: string): (r: State)
    ensures Valid(r) && r.entryCount == 0 && r.fields == []
    ensures r.entry == typed && r.placeholder == Prompt && r.placeholderColor == ThemeColor
    ensures !r.resetOnKey
    ensures r.visible == s.visible && r.hideAfterCommand == s.hideAfterCommand
    ensures r.effects == s.effects && r.closed == s.closed
  {
    SetupInterface(s).(entry := typed)
  }

  /** `hide_window`: the window is withdrawn; nothing else changes. */
  function HideWindow(s: State): (r: State)
    ensures !r.visible && r == s.(visible := false)
  {
    s.(visible := false)
  }

  /** `show_window`: the window is shown; nothing else changes. */
  function ShowWindow(s: State): (r: State)
    ensures r.visible && r == s.(visible := true)
  {
    s.(visible := true)
  }

  /** `toggle_window`, bound to the global hot key. */
  function ToggleWindow(s: State): (r: State)
    ensures r.visible == !s.visible
    ensures r == s.(visible := r.visible)
  {
    if s.visible then HideWindow(s) else ShowWindow(s)
  }

  /** Toggling twice restores the state. */
  lemma ToggleTwice(s: State)
    ensures ToggleWindow(ToggleWindow(s)) == s
  {
  }

  /** The link a template gives for a value: every occurrence of the token
      replaced by the value. */
  function LinkFor(value: string, baseUrl: string): (url: string)
    ensures !Contains(baseUrl, Token) ==> url == baseUrl
  {
    Replace(baseUrl, Token, value)
  }

  /** Every occurrence of the token is filled in, from the left: the
      template up to its first token, the value, then the rest of the
      template filled in the same way. */
  lemma LinkForFirst(value: string, baseUrl: string, i: nat)
    requires IndexOf(baseUrl, Token) == Some(i)
    ensures i + |Token| <= |baseUrl|
    ensures LinkFor(value, baseUrl) == baseUrl[..i] + value + LinkFor(value, baseUrl[i + |Token|..])
  {
    ReplaceFirst(baseUrl, Token, value, i);
  }

  /** `open_link_with_value`: the browser is asked for the link; nothing
      else changes. */
  function OpenLinkWithValue(s: State, value: string, baseUrl: string): (r: State)
    ensures r.effects == s.effects + [OpenedUrl(LinkFor(value, baseUrl))]
    ensures r == s.(effects := r.effects)
  {
    s.(effects := s.effects + [OpenedUrl(LinkFor(value, baseUrl))])
  }

  /** `open_link_with_value_and_reset`: the link is opened once, the base
      interface is rebuilt at the default size, and the window is hidden
      when the auto-hide flag is set; the flag itself is left as it is. */
  function OpenLinkWithValueAndReset(s: State, value: string, baseUrl: string): (r: State)
    ensures r.effects == s.effects + [OpenedUrl(LinkFor(value, baseUrl))]
    ensures Valid(r) && r.entryCount == 0 && r.fields == []
    ensures r.geometry == Geometry(DefaultWidth, DefaultHeight)
    ensures r.visible <==> s.visible && !s.hideAfterCommand
    ensures r.hideAfterCommand == s.hideAfterCommand && r.closed == s.closed
  {
    var linked := OpenLinkWithValue(s, value, baseUrl);
    var reset := SetupInterface(linked).(geometry := Geometry(DefaultWidth, DefaultHeight));
    if reset.hideAfterCommand then HideWindow(reset) else reset
  }

  /** `AlwaysOnTopApp.__init__`: the base interface, the visibility record
      saying hidden, auto-hide on, and nothing requested yet. */
  function Init(): (r: State)
    ensures Valid(r) && r.hideAfterCommand && !r.visible && !r.closed
    ensures r.entryCount == 0 && r.effects == []
  {
    var blank := State("", Prompt, ThemeColor, false, None, [], 0,
                       Geometry(DefaultWidth, DefaultHeight), false, true, false, []);
    SetupInterface(blank).(visible := false, hideAfterCommand := true, entryCount := 0)
  }
}
