# Infographic document model in Dafny

A model of the core of an AI-assisted infographic editor. The editor keeps one
current *document*: a title, a subtitle, a theme colour, a background colour,
an optional footer, optional source citations, and an ordered list of
*sections*. Each section has an id, one of five chart types (BAR, PIE, LINE,
STAT, LIST), a title, optional descriptions and an ordered list of *data
points* (`name`, numeric `value`, optional `label`).

The document is never changed in place. Every edit in the renderer builds a
new document and hands it to the application, which makes it the current one.
The edits are: replace a root text property, replace a section, append a
placeholder section, remove a section, step a section's chart type round a
fixed five-element cycle, edit a data point's name, value or label, and add or
delete a data point. The application replaces the document in three more
ways: a generated document, a rewritten document, or a chosen template.

Modules, following the program's files:

- `Types` (`types.dfy`): the schema of `types.ts`, with `sources` added because the renderer reads it.
- `Renderer` (`renderer.dfy`): the edit closures of `components/InfographicRenderer.tsx`, the layout rule, and the number coercion applied to typed values.
- `App` (`app.dfy`): the lifecycle state of `App.tsx` (`doc`, `view`, `isGenerating`, `error`, `prompt`, `loadingText`). It has transition functions for generate, optimize and template selection and two event machines over them. `Run` takes every producer call as answered within one event. `SessionRun` keeps the calls in flight, so starts, answers and user actions can interleave, and `RunAsSession` shows that `Run` is the special case where every call is answered before the next event.
- `JsText` (`js_text.dfy`): the JavaScript built-ins the core calls. These are `trim`, `replace(/,/g, '')`, `parseFloat` on decimal literals, and the decimal rendering of a non-negative integer.
- `Seqs` (`seqs.dfy`): the index filter shared by section removal and data-point deletion.
- `Wrappers` (`wrappers.dfy`): `Option`, for optional properties.
- `Scenarios` (`scenarios.dfy`): concrete runs of the model.

The asynchronous producer (generation or rewriting by the language model) is
not modelled. Its eventual outcome is an input to the model, either
`Success(doc)` or `Failure`. The clock reading used for fresh section ids is a
parameter.

Behaviour the code does not have, although one might expect it:

- Nothing de-duplicates the sources.
- A rewrite does not re-attach the previous sources. The rewritten document replaces the current one as it is.
- No request token guards a late result. `PendingEditsAreOverwritten` shows that a successful generation discards edits made while it was pending.
- The busy flag is one boolean, not a count of calls in flight. `FlagDropsWhileCallPending` shows the flag going down while a second generation, started with the Enter key, is still pending.
- Replacing a section at an index the document does not have is not a no-op in the code (the JavaScript array would grow). `UpdateSection` therefore requires the index to be in range. Every caller takes the index from rendering the current sections.

## Model

| member | source | states |
|---|---|---|
| Types.ChartTypeIsClosed | types.ts:1-7 | there are exactly five chart types, pairwise distinct, and every chart type is one of them |
| Types.TagRoundTrip | types.ts:1-7 | each chart type's string value names that type and no other; reading a type back from its string gives the type |
| Types.ChartTypeFromTag | types.ts:1-7 | any type recognised from a string is the type whose string value it is |
| JsText.TrimEmptyIffBlank | App.tsx:60 | `trim()` yields the empty string exactly when every character of the input is white space |
| JsText.StripCommas | components/InfographicRenderer.tsx:55 | the stripped text contains no comma and is no longer than the input |
| JsText.StripCommasOfNoComma | components/InfographicRenderer.tsx:55 | text that has no comma is left exactly as it is |
| JsText.StripCommasAppend | components/InfographicRenderer.tsx:55 | stripping distributes over concatenation, so it removes the commas and keeps every other character in order |
| JsText.StripCommasIdempotent | components/InfographicRenderer.tsx:55 | stripping twice gives the same text as stripping once |
| JsText.StripCommasKeepsOnly | components/InfographicRenderer.tsx:55 | every character of the stripped text occurs in the input |
| JsText.NoDigitIsNaN | components/InfographicRenderer.tsx:55-56 | in the model, which reads decimal literals only, a string with no decimal digit is not a number; JavaScript's `Infinity` literal is the exception (see Left out) |
| JsText.ParsePlainDecimal | components/InfographicRenderer.tsx:55 | a plain decimal `a.b` with digits on at least one side of the point is read as exactly a + b/10^len(b) |
| JsText.ParseFloatDecimalString | components/InfographicRenderer.tsx:55 | `parseFloat` reads the decimal rendering of any non-negative integer back as that integer |
| JsText.DecimalStringInjective | components/InfographicRenderer.tsx:230 | different integers have different decimal renderings |
| JsText.StripCommasGroupThousands | components/InfographicRenderer.tsx:132 | removing the separators from a number grouped in threes leaves its plain decimal rendering |
| Renderer.CommitOnBlur | components/InfographicRenderer.tsx:35-40 | an editable text reports a save exactly when the text differs from what it showed, and reports that text |
| Renderer.CommitIffRootChanges | components/InfographicRenderer.tsx:35-40 | for a root text whose element shows the property's own text (not the footer's fallback line, which is shown when the footer is absent or empty), blurring reports a save exactly when writing the typed text back through the root edit changes the document |
| Renderer.UpdateRoot | components/InfographicRenderer.tsx:214-216 | the named root property takes the new text; every other root property, the sections and the sources are unchanged |
| Renderer.RootFieldsDetermineDocument | components/InfographicRenderer.tsx:214-216 | root properties, sections and sources determine a document, so the root-edit contract fixes its result completely |
| Renderer.UpdateRootNoChangeIff | components/InfographicRenderer.tsx:214-216 | a root edit leaves the document unchanged if and only if the property already held that text |
| Renderer.UpdateSection | components/InfographicRenderer.tsx:219-224 | the length is kept, the section at the index is the new one, every other section and all root properties and sources are unchanged |
| Renderer.UpdateSectionSame | components/InfographicRenderer.tsx:219-224 | putting back the section already at an index gives the same document |
| Renderer.UpdateSectionTwice | components/InfographicRenderer.tsx:219-224 | of two replacements at the same index the second wins |
| Renderer.UpdateSectionCommutes | components/InfographicRenderer.tsx:219-224 | replacements at different indices commute |
| Renderer.EditSectionText | components/InfographicRenderer.tsx:423-447 | editing a section's title, description or chart description changes only that text of that section; id, type, data and config and all other sections are kept |
| Renderer.NewSectionId | components/InfographicRenderer.tsx:230 | a fresh section id starts with `s-` followed by at least one character |
| Renderer.NewSectionIdInjective | components/InfographicRenderer.tsx:230 | sections added at different clock readings get different ids |
| Renderer.AddSection | components/InfographicRenderer.tsx:227-243 | one more section, the old sections form an unchanged prefix, and the new last section is a STAT section with the clock id, title หัวข้อใหม่, description คำอธิบายส่วนนี้..., no chart description or config, and the points ข้อมูล 1 = 100 and ข้อมูล 2 = 200 without labels |
| Renderer.AddSectionKeepsIdsUnique | components/InfographicRenderer.tsx:227-243 | appending a section whose id is new keeps all section ids distinct |
| Renderer.RemoveSection | components/InfographicRenderer.tsx:400-403 | an in-range index removes exactly that section, keeps the order of the rest and shortens the list by one; any other index changes nothing |
| Renderer.RemoveUndoesAdd | components/InfographicRenderer.tsx:400-403 | removing the section just appended restores the original document |
| Renderer.RemoveSectionKeepsIdsUnique | components/InfographicRenderer.tsx:400-403 | removing a section keeps distinct ids distinct |
| Renderer.CycleIndex | components/InfographicRenderer.tsx:249-250 | `indexOf` finds every chart type in the cycle table, so it is never -1 |
| Renderer.NextChartType | components/InfographicRenderer.tsx:249-250 | the next type sits one place further round the table, wrapping modulo 5 |
| Renderer.NextChartTypeTable | components/InfographicRenderer.tsx:249-250 | STAT goes to BAR, BAR to PIE, PIE to LINE, LINE to LIST, LIST back to STAT |
| Renderer.CycleTimesIndex | components/InfographicRenderer.tsx:250 | after k presses the type sits k places further round the table, modulo 5 |
| Renderer.CyclePeriodIsFive | components/InfographicRenderer.tsx:249-250 | a type comes back to itself after k presses exactly when k is a multiple of five |
| Renderer.CycleChartType | components/InfographicRenderer.tsx:246-253 | only the section's type changes, to the next one in the cycle; its other properties, every other section and all root properties are kept |
| Renderer.CycleFiveTimesIsIdentity | components/InfographicRenderer.tsx:246-253 | five presses of a section's type button give back the same document |
| Renderer.ShouldSpanFull | components/InfographicRenderer.tsx:255-263 | a section spans the full row iff it is LINE, or BAR with more than six points, or STAT with more than three |
| Renderer.SpanDependsOnTypeAndCount | components/InfographicRenderer.tsx:255-263 | two sections with the same type and number of points get the same layout |
| Renderer.SpanMonotoneInCount | components/InfographicRenderer.tsx:255-263 | adding points never turns a full-width section back to half width |
| Renderer.PieAndListAreHalfWidth | components/InfographicRenderer.tsx:255-263 | PIE and LIST sections never span the full row |
| Renderer.ValueFromInput | components/InfographicRenderer.tsx:55-56 | a typed value is the number parsed after removing commas, or 0 when that is not a number |
| Renderer.ValueIgnoresCommas | components/InfographicRenderer.tsx:55 | typing the text with its commas removed stores the same value |
| Renderer.ValueWithoutDigitsIsZero | components/InfographicRenderer.tsx:132-133 | in the model, input without any digit is stored as 0; JavaScript stores ±Infinity for the `Infinity` literal (see Left out) |
| Renderer.ValueOfDecimalString | components/InfographicRenderer.tsx:55-56 | a typed whole number is stored as that number |
| Renderer.ValueOfGroupedNumber | components/InfographicRenderer.tsx:132-133 | a whole number written with thousands separators, as the stat card shows values, is stored as that number |
| Renderer.EditPoint | components/InfographicRenderer.tsx:127-137 | a value edit stores the coerced number and a name or label edit the raw text; the two other properties are kept |
| Renderer.EditData | components/InfographicRenderer.tsx:129-137 | the length is kept, the point at the index gets the edit, every other point is unchanged |
| Renderer.ChartEditorChange | components/InfographicRenderer.tsx:52-61 | a chart-editor edit never touches any label and changes only the edited property of the edited point |
| Renderer.StatItemUpdate | components/InfographicRenderer.tsx:127-138 | a stat-card edit changes only the edited point of the section, and everything but the data is kept |
| Renderer.ListItemUpdate | components/InfographicRenderer.tsx:174-179 | a list edit never touches any value and changes only the name or label of the edited point |
| Renderer.AddPoint | components/InfographicRenderer.tsx:68-70 | one more point, the old points form an unchanged prefix, and the new point is named ข้อมูลใหม่ with value 10 and no label |
| Renderer.DeletePoint | components/InfographicRenderer.tsx:63-66 | an in-range index removes exactly that point, keeping order; any other index changes nothing |
| Renderer.DeleteUndoesAdd | components/InfographicRenderer.tsx:63-70 | deleting the point just added restores the data |
| Renderer.SetSectionData | components/InfographicRenderer.tsx:351-354 | only the data of the section at the index changes; other sections and root properties are kept |
| Renderer.PointEditFrame | components/InfographicRenderer.tsx:353 | editing one point through the document changes exactly that point of that section and no other point anywhere |
| Renderer.ShownSources | components/InfographicRenderer.tsx:474 | sources are shown iff they are present and non-empty, and then all of them are shown |
| Renderer.EditsKeepShownSources | components/InfographicRenderer.tsx:214-243 | root edits, section replacements and additions, and the section removal at lines 400-403, leave the shown sources as they were |
| App.RewriteShowsOnlyItsOwnSources | App.tsx:80-82 | after a successful rewrite the sources shown are the rewritten document's own; the previous ones are not carried over |
| Renderer.InPlaceEditsKeepIds | components/InfographicRenderer.tsx:219-224 | replacing a section by one with the same id keeps the id list, and so keeps ids unique |
| App.Initial | App.tsx:9-57 | the first document has three sections with ids s1, s2 and s3 (so unique ids); the dashboard is shown, nothing is generating, there is no error and the prompt is empty |
| App.GenerateStart | App.tsx:59-64 | a blank input leaves the state unchanged; otherwise the busy flag is raised and the error cleared, with the document kept |
| App.GenerateSettle | App.tsx:65-73 | a produced document becomes current; the editor opens if the handler was called from another view, and otherwise the view of the moment is kept; a failure keeps the document and view and sets the generation error; busy is cleared either way |
| App.HandleGenerate | App.tsx:59-74 | from start to finish: a blank input is a no-op; otherwise the run ends not busy, with the new document, the editor view and no error, or with the old document and the error |
| App.OptimizeStart | App.tsx:76-79 | starting a rewrite raises the busy flag and clears the error, keeping the document |
| App.OptimizeSettle | App.tsx:80-87 | a rewritten document replaces the current one wholesale; a failure keeps it and sets the rewrite error; busy is cleared and the view kept either way |
| App.HandleOptimize | App.tsx:76-88 | from start to finish a rewrite ends not busy, in the same view, with the new document and no error or the old document and the error |
| App.SelectTemplate | App.tsx:90-94 | the template's document becomes current, the editor view opens and the prompt is the template prefix followed by the template name |
| App.NeverBusyBetweenEvents | App.tsx:59-88 | when every producer call has settled, no run of events leaves the busy flag raised |
| App.StepKeepsDocument | App.tsx:59-94 | an event that cannot replace the document in the state it meets (navigation, typing, a blank or failed generation, a failed rewrite) leaves the document as it is |
| App.StepInstallsOfferedDocument | App.tsx:59-94 | an event that can replace the document installs exactly the document it brings |
| App.DocumentChangesOnlyByReplacement | App.tsx:59-94 | a run in which no event can replace the document, judged in the state each event meets, ends with the document it started with |
| App.BlankTranscriptOnlySetsPrompt | App.tsx:198-201 | a blank voice transcript is written to the prompt and starts nothing |
| App.SessionRunKeepsBusyOnlyWhilePending | App.tsx:59-88 | however starts, answers and user actions interleave, the busy flag is never up with no call in flight |
| App.FlagDropsWhileCallPending | App.tsx:184 | on the dashboard, two generations started with the prompt box's Enter key, which is not disabled while busy, and one answer leave the flag down with one call still in flight |
| App.SuccessRespectsNavigationDuringWait | App.tsx:59-73 | a successful generation ends in the view the user navigated to while waiting if it was started from the editor, and in the editor otherwise |
| App.VoiceSettlesAgainstMicView | components/VoiceControl.tsx:13-33 | a voice-started generation settles against the view in which the microphone was pressed: pressed in the editor, the view navigated to is kept; pressed elsewhere, the editor opens; the transcript becomes the prompt |
| App.PendingEditsAreOverwritten | App.tsx:66-67 | a successful generation replaces the document even when it was edited while the request was pending |
| App.StepAsSession | App.tsx:59-94 | from an idle state, each atomic event is the same as its call starting and being answered at once |
| App.RunAsSession | App.tsx:59-94 | from an idle state, the atomic run ends in the same state as the interleaving-aware run in which every call is answered at once, with nothing in flight |
| Scenarios.ValueInputWithSeparator | components/InfographicRenderer.tsx:55-56 | typing `1,234.5` stores 1234.5 |
| Scenarios.ValueInputNotANumber | components/InfographicRenderer.tsx:55-56 | typing `abc` stores 0 |
| Scenarios.AddPointThenCycle | components/InfographicRenderer.tsx:246-253 | a four-point BAR chart with one point added has five points ending with the placeholder, and one type press then makes it a PIE chart with the same data |

## Left out

- Rendering: all markup, CSS classes, the chart library, the PIE colour palette, the footer's fallback text with the current year and the background-colour fallback. None of them is part of the document.
- The content-editable text element: only its rule "save only when the text changed" is modelled (`CommitOnBlur`). The DOM and its focus handling are not.
- `toLocaleString` display formatting: it depends on the locale. `GroupThousands` is one English-style grouping of whole numbers, used only to state what comma stripping is for.
- NoDigitIsNaN: JavaScript's `parseFloat` reads the digit-free `Infinity` literal, after optional white space and sign, as ±Infinity. The model cannot represent it and yields not-a-number.
- ValueWithoutDigitsIsZero: for `Infinity` or `-Infinity` typed into a value field, JavaScript stores ±Infinity where the model stores 0, for the reason on the NoDigitIsNaN line.
- ValueFromInput: `parseFloat` is modelled on decimal literals over unbounded reals. IEEE-754 rounding, overflow to Infinity and the `Infinity` literal are not modelled. JavaScript gives ±Infinity for `Infinity` input, while the model stores 0.
- `Date.now()`: the clock reading is the parameter `now`. The code does not guarantee that a fresh id is unique, so `AddSectionKeepsIdsUnique` assumes it is.
- The renderer without an `onUpdate` callback, where every edit is a no-op: the application always supplies one.
- UpdateSection: requires an in-range index. An out-of-range assignment would grow the JavaScript array with holes, and no caller produces such an index. The same holds for `EditData`, `EditSectionText`, `CycleChartType` and `SetSectionData`.
- The language-model service (network calls, prompts, `JSON.parse` with an unchecked cast). A producer result is assumed to be a well-typed document. A chart type outside the five, which the cast would let through, cannot be represented.
- HandleOptimize: makes no promise that ids, types and values survive a rewrite. Only the prompt asks for that. Likewise, sources are neither de-duplicated nor re-attached.
- Speech capture: a transcript is event data. In `SessionRun` it carries the view in which the microphone was pressed, because the recognition calls back into the handler captured at that render.
- Printing and export (`window.print`).
- Overlapping producer calls in `Run`: `Run` takes each call as answered within one event, so it cannot represent two calls in flight. `SessionRun` does represent them. The generate, rewrite and microphone buttons are disabled while busy. The Enter key of the dashboard's prompt box (App.tsx:184), the template cards (App.tsx:102) and a transcript from a recognition started earlier are not gated, so a second call can start while one is pending. `SessionRun` lets renderer edits happen at any time. In the code a loading overlay covers the editor while busy (App.tsx:318-325), so an edit during a pending call needs keyboard focus already in the canvas, or the flag drop shown by `FlagDropsWhileCallPending`.
- The template catalogue: it is seed data without behaviour. A template is modelled only by its shape (`TemplateDefinition`).
