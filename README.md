# Editor wrapper model

A Dafny model of the logic in the `Editor` class of 3e8-editor, a wrapper that
opens an Ace editor for Python, JavaScript or HTML code. The editing engine is
abstracted to a session that holds a text and a list of annotations. The model
covers four pieces:

- **Configuration resolution** (`EditorConfig`). The caller's partial
  configuration is copied over a literal of defaults, as `Object.assign` does.
  The defaults for line numbers and invisibles are computed from the mode the
  caller asked for, not from the merged mode.
- **Annotation noise filter** (`Annotations`). On every `changeAnnotation`
  event the session's annotations are filtered. Those whose text contains one
  of four known false-positive phrases of the HTML checker are dropped. The
  result is written back only when something was removed.
- **Python check scheduler** (`EditorModel.Editor`). The editor keeps a busy
  flag, a timer slot, the last applied error string, and the log of texts
  posted to the checker. Edits re-arm the timer. A firing timer posts the
  current text. A reply clears the busy flag and replaces the annotations only
  when its `"-"`-joined texts differ from the last ones applied.
- **Font size** (`EditorModel.Editor`). `setFontSize`, `sizeup` and
  `sizedown` update the font size in the resolved configuration.

Ace's `setAnnotations` signals `changeAnnotation`. So the filter handler runs
again on the list it has just written back. `Editor.SetAnnotations` models this
re-entry as a loop and proves that it stops after at most two rounds. Replies of
the checker and annotations from Ace's own mode workers both arrive through it.

The timer is an armed/not-armed slot. A timer fires only when one is armed.
The checker's parser is not modelled: its replies are arbitrary annotation
lists, and it answers the posted texts in order.

Files: `wrappers.dfy` (Option), `config.dfy` (EditorConfig), `annotations.dfy`
(Annotations), `editor.dfy` (EditorModel).

## Model

| member | source | states |
|---|---|---|
| EditorConfig.Resolve | src/Editor.ts:39-53 | every supplied field is kept; every omitted field gets its default (python, monokai, 18, "", false, false, 4, 20, true); line numbers default to hidden exactly when the requested mode is html; invisibles default to shown exactly when the requested mode is python |
| EditorConfig.LineNumberlessIffHtml | src/Editor.ts:48 | `config.mode \|\| ""` is in the list ["html","css","svg"] exactly when the requested mode is html |
| EditorConfig.CssAndSvgNeverMatch | src/Editor.ts:7 | no mode is named "css" or "svg", so those list entries never match |
| EditorConfig.OmittedModeHidesInvisibles | src/Editor.ts:42-50 | with nothing supplied the mode is python but invisibles are hidden and line numbers shown; requesting python explicitly shows invisibles |
| EditorConfig.FullySuppliedIsKept | src/Editor.ts:40-53 | a configuration that supplies every field resolves to exactly itself |
| EditorConfig.SupplyingThemeChangesOnlyTheme | src/Editor.ts:40-53 | supplying an omitted theme changes only the theme of the result |
| EditorConfig.SupplyingModeMovesDerivedDefaults | src/Editor.ts:40-53 | supplying an omitted mode changes the mode and, where the caller left them out, the line-number and invisibles defaults derived from the requested mode; nothing else |
| Annotations.ContainsIffSomeMatch | src/Editor.ts:138-143 | an unanchored literal pattern matches exactly when it occurs at some index of the text |
| Annotations.IsNoise | src/Editor.ts:138-148 | an annotation is noise exactly when one of the four ignored phrases occurs at some index of its text (`regexesToIgnore.some(r => r.test(a.text))`) |
| Annotations.FilterNoise | src/Editor.ts:147-148 | the filtered list is no longer than the raw one and holds only raw annotations that contain no ignored phrase |
| Annotations.FilterIsSubsequence | src/Editor.ts:148 | the filtered list keeps the raw list's order |
| Annotations.FilterCounts | src/Editor.ts:148 | each clean annotation is kept as often as it occurs in the raw list, and each noisy one is dropped |
| Annotations.FilterIsClean | src/Editor.ts:148 | the filtered list contains no noise |
| Annotations.CleanIsUnfiltered | src/Editor.ts:148 | a list without noise passes the filter unchanged |
| Annotations.ShorterIffNoise | src/Editor.ts:149-151 | the filtered list is strictly shorter exactly when the raw list holds noise; otherwise it equals the raw list |
| Annotations.FilterIdempotent | src/Editor.ts:146-151 | filtering the filtered list removes nothing more |
| Annotations.FilterExample | src/Editor.ts:138-148 | a "doctype first. Expected >" annotation is dropped and a "real error" is kept |
| Annotations.ErrorString | src/Editor.ts:113 | `errs.map(e => e.text).join("-")`: the texts in order with "-" between neighbours; it starts with the first text, ends with the last, and is as long as the texts plus one per separator |
| Annotations.JoinLength | src/Editor.ts:113 | a join is as long as its parts plus one separator between each pair of neighbours |
| Annotations.JoinEnds | src/Editor.ts:113 | a join of at least one part starts with the first part and ends with the last |
| Annotations.ErrorStringEmptyIff | src/Editor.ts:113-114 | the joined error string is "" exactly when the reply is empty or is one annotation with an empty text |
| Annotations.ErrorStringSeesOnlyTexts | src/Editor.ts:113-114 | replies with the same texts give the same error string, whatever their rows and columns |
| Annotations.ErrorStringCollision | src/Editor.ts:113-114 | the reply ["a-b"] and the reply ["a","b"] give the same error string |
| EditorModel.Editor.constructor | src/Editor.ts:39-85 | the state is the resolved configuration; the session holds its code and no annotations; the checker is installed exactly for a resolved python mode with workers available, and then one check is scheduled; not busy; last error string "" |
| EditorModel.Editor.ScheduleCheck | src/Editor.ts:120-123 | after scheduling, exactly one timer is armed |
| EditorModel.Editor.Edit | src/Editor.ts:131-133 | the text becomes the new text; a timer is armed exactly when the checker is installed; nothing else changes |
| EditorModel.Editor.FireTimer | src/Editor.ts:124-129 | as written: the current text is posted and busy becomes true; the timer is re-armed exactly when the checker was already busy; one more text is in flight |
| EditorModel.Editor.FireTimerIntended | src/Editor.ts:124-129 | corrected: when busy only the timer is re-armed, otherwise the text is posted; the busy flag keeps telling whether one text is in flight |
| EditorModel.Editor.OnChangeAnnotation | src/Editor.ts:146-152 | writes back exactly when the annotations hold noise; afterwards they are the filtered list |
| EditorModel.Editor.SetAnnotations | src/Editor.ts:146-152 | the session ends with the filtered list; the handler runs twice when the list held noise and once otherwise, so the write-back does not loop |
| EditorModel.Editor.Reply | src/Editor.ts:110-119 | busy becomes false; the annotations are replaced by the filtered reply exactly when its error string differs from the last one; the last error string becomes the reply's |
| EditorModel.Editor.SetFontSize | src/Editor.ts:199-202 | the font size becomes the given value; no other field changes |
| EditorModel.Editor.SizeUp | src/Editor.ts:191-193 | the font size grows by exactly one; no other field changes |
| EditorModel.Editor.SizeDown | src/Editor.ts:195-197 | the font size shrinks by exactly one; no other field changes |
| EditorModel.OverlappingChecks | src/Editor.ts:124-129 | opening, firing, editing and firing again leaves two texts in flight |
| EditorModel.NoOverlapIntended | src/Editor.ts:124-129 | the same events with the corrected firing leave one text in flight and a timer armed |
| EditorModel.EditBurst | src/Editor.ts:120-133 | any burst of edits before the first firing yields one posted text, the last edit's |
| EditorModel.RepeatedReply | src/Editor.ts:104-117 | a second identical reply is suppressed; a first reply is applied exactly when its error string is not "" |
| EditorModel.SizeUpThenDown | src/Editor.ts:191-202 | `sizeup` then `sizedown` restores the original configuration |

## Findings

| source | as written | input that shows it | evidently intended | confidence | as-written member | corrected member |
|---|---|---|---|---|---|---|
| src/Editor.ts:125 | when busy, the timer is re-armed but the function does not return, so it still posts the text and stays busy | open in Python mode; the timer fires; an edit re-arms it; it fires again before the reply | a firing while a check runs only re-arms the timer, so at most one check is in flight | medium, not executed | EditorModel.OverlappingChecks | EditorModel.Editor.FireTimerIntended |

The busy flag `pythonCodeCheckWorkerBusy` exists only to say that a check is
running. The busy check at src/Editor.ts:125 only makes sense as a gate on the
post at src/Editor.ts:126-128. As written it does not gate the post: a busy
firing re-arms the timer and then starts a second check anyway. The model
follows the code: every as-written event sequence (`OverlappingChecks`,
`EditBurst`, `RepeatedReply`) uses `Editor.FireTimer`. `NoOverlapIntended`
replays the events of `OverlappingChecks` with the corrected step,
`Editor.FireTimerIntended`. Its contract proves that it keeps the busy flag
truthful (`Editor.SingleFlight`).
`Edit`, `Reply` and the constructor keep that invariant too.

## Left out

- src/LoadAce.ts: it only sets Ace's global asset paths and CDN URLs and calls `Ace.edit`. It has no logic of its own.
- The mount element and its default lookup (`document.getElementById`) are DOM. They are not part of the resolved state.
- Ace plumbing has no logic of its own: `setTheme`, `setMode`, `setOptions`, `resize`, `undo`/`redo`, `$blockScrolling`, the tab settings, and the `"px"` string passed to Ace's `setFontSize`. `setValue` is modelled as `Edit`; `getValue` and `getAnnotations` are reads of the `text` and `annotations` fields.
- Worker creation from a Blob URL and the `window.Worker` check are browser I/O. They become the constructor's `workerAvailable` parameter.
- The inlined TigerJython parser runs off-thread and is not shown. Its replies are arbitrary annotation lists.
- Wall-clock time and the 200 ms delay are not modelled. A timer is an armed flag, and its firing is an explicit event.
- `changeOptionsJS` polls Ace's JavaScript worker until it exists. It is a foreign readiness retry with no stateable result.
- The Ctrl/Cmd-S save command (a `CustomEvent` dispatch) and the `disableSelect` selection hook are DOM and Ace event wiring.
- EditorConfig.Resolve: a property that is present in the caller's object but set to `undefined` is not modelled. `Object.assign` would copy the `undefined`. Here a field is either supplied with a value or absent.
- EditorConfig.Resolve: the font size is an unbounded integer. JavaScript's floating-point numbers, including fractional sizes, are not modelled.
- Annotations.ErrorString: annotation texts are always strings. A reply whose entries lack a `text` would join as empty parts in JavaScript; this is not modelled.
