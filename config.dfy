/**
 * Resolution of an editor's configuration. The Editor constructor builds an
 * object literal of defaults and copies the caller's partial configuration
 * over it with `Object.assign`; two of the defaults are computed from the mode
 * the caller asked for, not from the mode that the merge ends up with.
 */
module EditorConfig {
  import opened Wrappers

  /** The language modes an editor can be opened in (`TMode`). */
  datatype Mode = JavaScript | Python | Html

  /** The name by which a mode is written in a configuration. */
  function ModeName(m: Mode): string {
    match m
    case JavaScript => "javascript"
    case Python => "python"
    case Html => "html"
  }

  /** `config.mode || ""`: the requested mode's name, or "" when none was given. */
  function RequestedModeName(mode: Option<Mode>): string {
    match mode
    case None => ""
    case Some(m) => ModeName(m)
  }

  /** Mode names for which line numbers are hidden unless the caller says otherwise. */
  const LineNumberlessModes: seq<string> := ["html", "css", "svg"]

  /** An editor's resolved configuration (`IEditorState` without its mount element). */
  datatype EditorState = EditorState(
    mode: Mode,
    theme: string,
    fontSize: int,
    code: string,
    readOnly: bool,
    disableSelect: bool,
    showLineNumbers: bool,
    minLines: int,
    maxLines: int,
    showGutter: bool,
    showInvisibles: bool)

  /** What a caller passes (`Partial<IEditorState>`): `Some` for each field it supplies. */
  datatype PartialState = PartialState(
    mode: Option<Mode>,
    theme: Option<string>,
    fontSize: Option<int>,
    code: Option<string>,
    readOnly: Option<bool>,
    disableSelect: Option<bool>,
    showLineNumbers: Option<bool>,
    minLines: Option<int>,
    maxLines: Option<int>,
    showGutter: Option<bool>,
    showInvisibles: Option<bool>)

  /** A configuration that supplies nothing. */
  const NothingSupplied := PartialState(None, None, None, None, None, None, None, None, None, None, None)

  /** A configuration that supplies every field of `s`. */
  function SupplyAll(s: EditorState): PartialState {
    PartialState(Some(s.mode), Some(s.theme), Some(s.fontSize), Some(s.code), Some(s.readOnly),
      Some(s.disableSelect), Some(s.showLineNumbers), Some(s.minLines), Some(s.maxLines),
      Some(s.showGutter), Some(s.showInvisibles))
  }

  /** The literal of defaults, whose two mode-dependent entries read the caller's own `mode`. */
  function Defaults(config: PartialState): EditorState {
    EditorState(
      mode := Python,
      theme := "monokai",
      fontSize := 18,
      code := "",
      readOnly := false,
      disableSelect := false,
      showLineNumbers := RequestedModeName(config.mode) !in LineNumberlessModes,
      minLines := 4,
      maxLines := 20,
      showGutter := true,
      showInvisibles := config.mode == Some(Python))
  }

  /** `Object.assign(target, source)`: every field the source carries overwrites the target's. */
  function Assign(target: EditorState, source: PartialState): EditorState {
    EditorState(
      mode := source.mode.GetOr(target.mode),
      theme := source.theme.GetOr(target.theme),
      fontSize := source.fontSize.GetOr(target.fontSize),
      code := source.code.GetOr(target.code),
      readOnly := source.readOnly.GetOr(target.readOnly),
      disableSelect := source.disableSelect.GetOr(target.disableSelect),
      showLineNumbers := source.showLineNumbers.GetOr(target.showLineNumbers),
      minLines := source.minLines.GetOr(target.minLines),
      maxLines := source.maxLines.GetOr(target.maxLines),
      showGutter := source.showGutter.GetOr(target.showGutter),
      showInvisibles := source.showInvisibles.GetOr(target.showInvisibles))
  }

  /** Only "html" of the listed names is a mode an editor can have. */
  lemma LineNumberlessIffHtml(mode: Option<Mode>)
    ensures RequestedModeName(mode) in LineNumberlessModes <==> mode == Some(Html)
  {
  }

  /**
   * The editor's configuration: each supplied field is kept, each omitted one takes
   * its default. Line numbers default to hidden exactly for a requested "html" mode;
   * invisibles default to shown exactly for a requested "python" mode.
   */
  function Resolve(config: PartialState): (s: EditorState)
    ensures s.mode == config.mode.GetOr(Python)
    ensures s.theme == config.theme.GetOr("monokai")
    ensures s.fontSize == config.fontSize.GetOr(18)
    ensures s.code == config.code.GetOr("")
    ensures s.readOnly == config.readOnly.GetOr(false)
    ensures s.disableSelect == config.disableSelect.GetOr(false)
    ensures s.showLineNumbers == config.showLineNumbers.GetOr(config.mode != Some(Html))
    ensures s.minLines == config.minLines.GetOr(4)
    ensures s.maxLines == config.maxLines.GetOr(20)
    ensures s.showGutter == config.showGutter.GetOr(true)
    ensures s.showInvisibles == config.showInvisibles.GetOr(config.mode == Some(Python))
  {
    LineNumberlessIffHtml(config.mode);
    Assign(Defaults(config), config)
  }

  /** The "css" and "svg" entries of the list can never match a mode. */
  lemma CssAndSvgNeverMatch(m: Mode)
    ensures ModeName(m) != "css" && ModeName(m) != "svg"
  {
  }

  /**
   * Leaving the mode out resolves to "python", yet invisibles stay hidden, because
   * their default reads the requested mode; asking for "python" explicitly shows them.
   */
  lemma OmittedModeHidesInvisibles()
    ensures Resolve(NothingSupplied).mode == Python
    ensures !Resolve(NothingSupplied).showInvisibles
    ensures Resolve(NothingSupplied).showLineNumbers
    ensures Resolve(NothingSupplied.(mode := Some(Python))).showInvisibles
  {
  }

  /** A configuration that supplies every field resolves to exactly that configuration. */
  lemma FullySuppliedIsKept(s: EditorState)
    ensures Resolve(SupplyAll(s)) == s
  {
  }

  /** Supplying an omitted theme changes the theme and nothing else. */
  lemma SupplyingThemeChangesOnlyTheme(config: PartialState, theme: string)
    requires config.theme == None
    ensures Resolve(config.(theme := Some(theme))) == Resolve(config).(theme := theme)
  {
  }

  /**
   * Supplying an omitted mode changes the mode and, where the caller left them out,
   * the two defaults derived from the requested mode; nothing else.
   */
  lemma SupplyingModeMovesDerivedDefaults(config: PartialState, m: Mode)
    requires config.mode == None
    ensures Resolve(config.(mode := Some(m))) == Resolve(config).(
              mode := m,
              showLineNumbers := config.showLineNumbers.GetOr(m != Html),
              showInvisibles := config.showInvisibles.GetOr(m == Python))
  {
  }
}
