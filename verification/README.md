# Cover-photo builder — a Dafny model

This project models the editing core of a browser-based cover-photo builder.
The user composes a graphic from a title, a subtitle, overlay images, a
background (solid colour or gradient) and an optional pattern overlay. They
drag the elements into place and export the result as an image. A small
feedback dialog and a toast queue sit beside the builder on the page.

Everything is modelled with immutable records and pure functions. Each
handler of the source becomes a function from the old state to the new one,
and the page as a whole becomes a fold over a history of events.

| module | file | what it models |
|---|---|---|
| `Wrappers` | wrappers.dfy | `Option` |
| `Decimal` | decimal.dfy | `${n}` printing of timestamps, `Math.round`, and `Math.round(parseFloat(s))` for font sizes |
| `Options` | options.dfy | the `CustomizationOptions` record, its keys, and `{ ...prev, [key]: value }` |
| `Presets` | presets.dfy | the six width presets and the width-to-preset choice |
| `Builder` | builder.dfy | `CoverPhotoBuilder`: the session, resize, `updateOption`, drag, upload, remove, image resize and download |
| `Preview` | preview.dfy | `CoverPhotoPreview`: background and pattern styles, render order, drag reports, production stripping |
| `Background` | background.dfy | `BackgroundCustomizer`: the tables, the highlight rules, and the updates each control makes |
| `ImageControls` | image_controls.dfy | `ImageCustomizer`: upload renaming, cards, slider and remove callbacks |
| `Toasts` | toasts.dfy | `useToast`: append plus one scheduled removal of the head |
| `Feedback` | feedback.dfy | `FeedbackDialog` predicates and the page's `handleFeedbackSubmit` |
| `Editor` | editor.dfy | the builder page as a whole: events, runs, and the invariant of every reachable state |

Inputs the source reads from its environment are parameters:
- the window width;
- `Date().getTime()` (a `nat`);
- the file reader's data URL;
- the capture result;
- `process.env.NODE_ENV === 'production'` (a `bool`);
- the drag library's offsets (`real`);
- the outcome of the feedback network call.

"Nothing else changes" is stated through `Options.Get`, which reads any field
by its `Key`. An update to key `k` is then proved to leave `Get(o, j)` unchanged
for every `j != k`. `Options.SameFieldsSameOptions` shows that `Get` sees the
whole record.

## Behaviour worth knowing

- **Positions.** A drag reports `Math.round` of the drag library's pixel offsets (components/preview/CoverPhotoPreview.tsx:117). Nothing normalises or clamps them, so positions are unbounded integers here.
- **Export formats.** Every format except `svg` is saved under `cover-photo.<format>` with the captured data as it is. The refusal of `svg` and any capture error only go to the console (components/CoverPhotoBuilder.tsx:367-381).
- **Gradient colours.** `gradientColors` is declared a pair, but gradient presets 6, 8 and 15 carry three colours through a type cast. The preview draws only the first two (`Background.ThreeColorPresets`, `Preview.GradientUsesFirstTwoColors`).
- **Gradient direction.** The panel offers only the eight compass directions, so every reachable state uses one of them (`Editor.ReachableIsSane`).
- **Uploads.** The file reader's `onload` appends to the image list captured when the upload started (components/CoverPhotoBuilder.tsx:343-355). A move, resize or removal made while the file is read is undone when the read finishes (`Editor.EditDuringReadIsLost`). Of two uploads whose reads overlap, only the image of the read that finishes last survives (`Editor.ConcurrentUploadsKeepLastOnly`).
- **Feedback status.** The writes after the send's `await` run in one go, so 'success' and 'error' are written but never shown. Between actions the status is 'idle' or 'sending' (`Feedback.AtMostOneSendInFlight`).

## Model

| member | source | states |
|---|---|---|
| Decimal.NatToString | components/CoverPhotoBuilder.tsx:347 | a timestamp prints as a non-empty string of digits with no leading zero |
| Decimal.ParsePrinted | components/CoverPhotoBuilder.tsx:347 | reading a printed timestamp back gives the timestamp (round trip) |
| Decimal.PrintInjective | components/CoverPhotoBuilder.tsx:347 | distinct timestamps print as distinct strings |
| Decimal.RoundedNumeral | components/preview/CoverPhotoPreview.tsx:157 | `Math.round(parseFloat(size))` is NaN exactly when the size starts with no numeral |
| Decimal.RoundedPrinted | components/preview/CoverPhotoPreview.tsx:157 | an integer size string rounds back to the integer it spells |
| Decimal.Round | components/preview/CoverPhotoPreview.tsx:117 | `Math.round` gives the integer within half a unit, with halves rounded up |
| Options.Apply | components/CoverPhotoBuilder.tsx:329 | the named key holds the new value and every other key keeps its value |
| Options.SameFieldsSameOptions | components/CoverPhotoBuilder.tsx:19-39 | two records that agree on every key are equal |
| Options.ApplyCurrentValue | components/CoverPhotoBuilder.tsx:329 | writing a field's current value back leaves the record equal |
| Options.LastWriteWins | components/CoverPhotoBuilder.tsx:329 | a second write to the same key erases the first |
| Options.DistinctKeysCommute | components/CoverPhotoBuilder.tsx:329 | writes to different keys commute |
| Presets.PresetFor | components/CoverPhotoBuilder.tsx:300-312 | the preset chosen for a width is ranked by how many of the thresholds 768/900/1024/1200/1400 the width reaches: a threshold is reached exactly when its index is below the rank |
| Presets.PresetIsBucket | components/CoverPhotoBuilder.tsx:300-312 | the if-chain picks the preset whose rank is the number of thresholds 768/900/1024/1200/1400 reached, so each width gets exactly one preset |
| Presets.PresetMonotone | components/CoverPhotoBuilder.tsx:300-312 | a wider window never gets a narrower preset |
| Presets.PresetsAgreeExceptSizes | components/CoverPhotoBuilder.tsx:41-285 | any two presets agree on every field except the title size, the subtitle size and the pencil image's size |
| Presets.AgreesWithMobile | components/CoverPhotoBuilder.tsx:41-285 | every preset equals the mobile one on all fields except the two text sizes, and holds one image that differs from mobile's only in size |
| Presets.PresetSizes | components/CoverPhotoBuilder.tsx:41-285 | only mobile uses sizes 48/28 (others 72/40); pencil sizes are 100/149/149/133/190/190 from narrow to wide |
| Presets.PencilSizeNotMonotone | components/CoverPhotoBuilder.tsx:123-203 | the pencil shrinks from 149 to 133 when the width goes from 1023 to 1024 |
| Builder.Resize | components/CoverPhotoBuilder.tsx:297-319 | before any edit a resize installs the preset for the width; after an edit it changes nothing; the flag is never changed |
| Builder.Mount | components/CoverPhotoBuilder.tsx:288-319 | on mount the options are the preset for the current width and the flag is clear |
| Builder.UpdateOption | components/CoverPhotoBuilder.tsx:328-331 | exactly the named field is replaced and the edited flag is set |
| Builder.UpdateAll | components/CoverPhotoBuilder.tsx:436-442 | several panel callbacks compose as successive writes; the flag is set exactly when at least one call was made |
| Builder.EditedSessionIgnoresResize | components/CoverPhotoBuilder.tsx:297-331 | after any `updateOption` a resize returns the session unchanged |
| Builder.MoveImages | components/CoverPhotoBuilder.tsx:337-339 | images with the id move to the position; length, order, ids, urls, sizes and other images are kept |
| Builder.ResizeImages | components/CoverPhotoBuilder.tsx:362-364 | images with the id get the size; length, order, ids, urls, positions and other images are kept |
| Builder.UnknownIdChangesNoImage | components/CoverPhotoBuilder.tsx:333-365 | moving or resizing by an id no image carries leaves the list equal |
| Builder.MoveIsUndoable | components/CoverPhotoBuilder.tsx:337-339 | with a unique id, moving back to the old position restores the list |
| Builder.ResizeIsUndoable | components/CoverPhotoBuilder.tsx:361-365 | with a unique id, resizing back to the old size restores the list |
| Builder.PositionChange | components/CoverPhotoBuilder.tsx:333-341 | 'title' and 'subtitle' change only their own position; any other id changes only the images, as `MoveImages` |
| Builder.UploadIdInjective | components/CoverPhotoBuilder.tsx:347 | two uploads get the same id only with the same timestamp and the same file name |
| Builder.UploadIdIsNoReservedId | components/CoverPhotoBuilder.tsx:333-347 | an upload id is never 'title', 'subtitle' or 'pencil', so a drag on it never moves the text |
| Builder.UploadLoaded | components/CoverPhotoBuilder.tsx:343-355 | a finished read writes the list captured at upload time plus one image with id `${timestamp}-${name}`, size 100 and position (70, 50); other fields are untouched |
| Builder.RemovedDuringReadReturns | components/CoverPhotoBuilder.tsx:343-359 | an image removed while the file is read is back in the list once the read finishes |
| Builder.ImageUpload | components/CoverPhotoBuilder.tsx:343-355 | with no change to the images during the read, exactly one image is appended; earlier images and other fields are untouched |
| Builder.WithoutId | components/CoverPhotoBuilder.tsx:358 | the filter keeps exactly the images whose id differs |
| Builder.WithoutIdSingle | components/CoverPhotoBuilder.tsx:358 | on one image the filter keeps it exactly when its id differs |
| Builder.WithoutIdSplits | components/CoverPhotoBuilder.tsx:358 | the filter distributes over concatenation, so kept images stay in their relative order |
| Builder.WithoutAbsentId | components/CoverPhotoBuilder.tsx:358 | filtering out an absent id leaves the list equal |
| Builder.WithoutIdIdempotent | components/CoverPhotoBuilder.tsx:357-359 | removing twice is removing once |
| Builder.RemoveUndoesUpload | components/CoverPhotoBuilder.tsx:343-359 | filtering out the id of an image appended to a list without that id gives the list back |
| Builder.ImageRemove | components/CoverPhotoBuilder.tsx:357-359 | the new list is the filtered list: all images with the id go, the rest stay in order; an absent id changes no image; other fields are untouched |
| Builder.UploadThenRemove | components/CoverPhotoBuilder.tsx:343-359 | removing a fresh upload by its id gives back the previous options |
| Builder.ImageResize | components/CoverPhotoBuilder.tsx:361-365 | only the matching images' sizes change; other fields are untouched |
| Builder.Download | components/CoverPhotoBuilder.tsx:367-381 | saves under `cover-photo.<format>` exactly when the preview is mounted, the capture succeeded and the format is not 'svg'; a capture error is caught |
| Builder.OfferedFormatsAreSaved | components/download/DownloadOptions.tsx:9 | png, jpeg and webp are all saved, under pairwise distinct file names |
| Preview.BackgroundStyleOf | components/preview/CoverPhotoPreview.tsx:48-68 | colour sets only the colour; gradient sets only the gradient image; image with a truthy URL sets url/cover/center; otherwise the style is empty |
| Preview.GradientUsesFirstTwoColors | components/preview/CoverPhotoPreview.tsx:56 | colours after the second never change the background |
| Preview.GradientRoundTrip | components/preview/CoverPhotoPreview.tsx:56 | the gradient value decodes back to its direction and first two colours, in order |
| Preview.PatternStyleOf | components/preview/CoverPhotoPreview.tsx:70-114 | 'none' gives no overlay; otherwise a full-inset, pointer-events-none, multiply layer at opacity `patternOpacity / 100` |
| Preview.PatternGeometry | components/preview/CoverPhotoPreview.tsx:87-108 | dots: one 3px dot on a 30x30 tile; grid: two 1px lines on 100x100; graph: full-colour lines on 100x100 and "40"-suffixed lines on 20x20 |
| Preview.InvisibleIsNotAbsent | components/preview/CoverPhotoPreview.tsx:71-80 | opacity 0 still draws an overlay, unlike 'none' |
| Preview.TableSizesPrintAsPixels | components/preview/CoverPhotoPreview.tsx:157 | an integer size string renders as itself followed by "px" |
| Preview.ImageNodes | components/preview/CoverPhotoPreview.tsx:123-147 | one picture per image, in order, keyed and reporting by the image's id |
| Preview.Render | components/preview/CoverPhotoPreview.tsx:209-219 | draw order: the overlay (only if there is a pattern), then the images in order, then title, then subtitle |
| Preview.RenderBindings | components/preview/CoverPhotoPreview.tsx:124-170 | each image card is bound to its own id and the headings to 'title' and 'subtitle'; in production all are inert |
| Preview.TextNeverWraps | components/preview/CoverPhotoPreview.tsx:153-188 | title and subtitle are no-wrap, in their font and colour, sized `round(parseFloat(size))` px |
| Preview.OnDrag | components/preview/CoverPhotoPreview.tsx:116-118 | a bound node reports its own id and the rounded offsets; an unbound node reports nothing |
| Preview.ProductionNeverDrags | components/preview/CoverPhotoPreview.tsx:36-43 | in production no node of the preview can report a position change |
| Preview.DevelopmentDragReportsOwnId | components/preview/CoverPhotoPreview.tsx:124-170 | outside production, images report their own id and the headings report 'title' and 'subtitle' |
| Preview.ProductionIgnoresPositions | components/preview/CoverPhotoPreview.tsx:36-43 | in production neither the stored text positions nor any image's position affect the rendered tree: moving the title, the subtitle and any image by id renders the same |
| Background.EditedPair | components/background-customizer/BackgroundCustomizer.tsx:164-173 | a custom gradient input yields two colours: the edited slot takes the new colour and the other slot keeps its current one |
| Background.Emits | components/background-customizer/BackgroundCustomizer.tsx:95-235 | a tab, swatch, gradient, direction or pattern click makes its one call (two for a gradient preset) when the index is one on offer, else none; the colour pickers make their call; the pattern colour and opacity controls call only while a pattern is chosen |
| Background.EmitsOnlyBackgroundKeys | components/background-customizer/BackgroundCustomizer.tsx:95-235 | the panel only ever writes the seven background fields |
| Background.TabsOnlyColorOrGradient | components/background-customizer/BackgroundCustomizer.tsx:95-99 | the panel sets the background type only to 'color' or 'gradient' |
| Background.HiddenPatternControlsEmitNothing | components/background-customizer/BackgroundCustomizer.tsx:216-235 | with pattern 'none' the colour and opacity controls make no call |
| Background.SwatchesDistinct | components/background-customizer/BackgroundCustomizer.tsx:40-45 | the sixteen swatches are pairwise distinct |
| Background.AtMostOneSwatch | components/background-customizer/BackgroundCustomizer.tsx:105-114 | at most one swatch is highlighted |
| Background.ClickedSwatchIsHighlighted | components/background-customizer/BackgroundCustomizer.tsx:105-116 | after a swatch click exactly that swatch is highlighted |
| Background.GradientOptionsDistinct | components/background-customizer/BackgroundCustomizer.tsx:47-68 | the twenty gradient presets are pairwise distinct |
| Background.ClickedGradientIsHighlighted | components/background-customizer/BackgroundCustomizer.tsx:136-154 | a preset click stores its full colour list and its direction; then exactly that preset is highlighted |
| Background.ThreeColorPresets | components/background-customizer/BackgroundCustomizer.tsx:47-68 | presets 6, 8 and 15 list three colours, all others two |
| Background.CustomEditAfterPresetHasTwoColors | components/background-customizer/BackgroundCustomizer.tsx:164-173 | a custom colour edit always leaves exactly two colours, dropping a preset's third |
| Background.DirectionsDistinct | components/background-customizer/BackgroundCustomizer.tsx:29-38 | the eight directions are pairwise distinct |
| Background.ClickedDirectionIsHighlighted | components/background-customizer/BackgroundCustomizer.tsx:179-188 | a direction click sets that direction; then exactly that button is highlighted |
| ImageControls.Renamed | components/image-customizer/ImageCustomizer.tsx:38-39 | the file is renamed `${timestamp}-${name}` with its type and contents kept |
| ImageControls.RenamingIsReversible | components/image-customizer/ImageCustomizer.tsx:38-39 | cutting the new name at its first dash gives back the timestamp and the original name, whatever dashes the name contains |
| ImageControls.FileChange | components/image-customizer/ImageCustomizer.tsx:35-42 | no upload without a file; otherwise exactly the first file, renamed |
| ImageControls.Cards | components/image-customizer/ImageCustomizer.tsx:59-77 | one card per image, in list order, keyed by id, showing its url and size |
| ImageControls.Requests | components/image-customizer/ImageCustomizer.tsx:68-80 | the slider reports (card id, value) and the remove button reports the card id |
| ImageControls.ResizeRequestsAreInRange | components/image-customizer/ImageCustomizer.tsx:68-74 | every resize request is to a size in [20, 600] for an id in the list |
| ImageControls.RemoveRequestsNameAnImage | components/image-customizer/ImageCustomizer.tsx:80 | every remove request names an image in the list |
| Toasts.Push | hooks/use-toast.ts:14-18 | the new toast goes last, earlier toasts are unchanged, and one removal is scheduled |
| Toasts.Step | hooks/use-toast.ts:14-18 | a toast call appends the toast and schedules one removal; a firing timer drops the oldest toast and consumes one removal; a firing with nothing scheduled changes nothing |
| Toasts.ShowKeepsNewest | hooks/use-toast.ts:14-18 | a toast call keeps the shown list equal to the newest pushed toasts, one per pending timer |
| Toasts.FiringKeepsNewest | hooks/use-toast.ts:16-18 | a firing timer keeps the shown list equal to the newest pushed toasts, one per pending timer |
| Toasts.DropHead | hooks/use-toast.ts:17 | the removal drops the oldest toast; an empty list stays empty |
| Toasts.Expire | hooks/use-toast.ts:16-18 | a firing timer consumes one pending removal and drops the head |
| Toasts.ShownAreNewestPushed | hooks/use-toast.ts:14-18 | at every point the shown toasts are the most recent ones, in order, one per pending timer |
| Toasts.FirstInFirstOut | hooks/use-toast.ts:15-18 | after n toasts and k firings, exactly the last n - k remain, oldest gone first |
| Toasts.AllToastsExpire | hooks/use-toast.ts:15-18 | n toasts followed by n firings leave nothing shown and nothing pending |
| Feedback.SubmitLabel | components/FeedbackDialog.tsx:51 | the label is "Sending..." exactly while sending, otherwise "Submit" |
| Feedback.Act | components/FeedbackDialog.tsx:32-51 | the trigger opens the dialog; typing replaces the text; cancel closes it keeping text and status; a disabled submit changes nothing; an enabled one starts a send keeping the text; a result ends the awaited send; the toast timer only touches the toasts |
| Feedback.WarningMeansDisabled | components/FeedbackDialog.tsx:38-50 | a visible warning implies a disabled button; empty text disables it with no warning |
| Feedback.Begin | app/page.tsx:21-33 | short text only gets an error toast; otherwise the status becomes 'sending', the text is sent once and one send is awaited |
| Feedback.Settle | app/page.tsx:33-55 | success clears the text, closes the dialog and thanks; failure keeps both and shows an error; either way the status ends 'idle' and the send is no longer awaited |
| Feedback.Submit | app/page.tsx:21-56 | the whole handler with nothing in between: short text only gets an error toast; otherwise 'sending', one send, then success or error, ending 'idle' |
| Feedback.EnabledSubmitAlwaysSends | components/FeedbackDialog.tsx:47-50 | a click the dialog allows always reaches the send, with no error toast |
| Feedback.CancelCloses | components/FeedbackDialog.tsx:44 | cancel closes the dialog and keeps the text |
| Feedback.ClickThenSettleIsSubmit | app/page.tsx:21-56 | an enabled click followed by the send's result has the whole handler's effect and sends the same text |
| Feedback.SuccessClearsTextTypedDuringSend | app/page.tsx:34-44 | text typed during a send is cleared by a success and kept by a failure |
| Feedback.AtMostOneSendInFlight | components/FeedbackDialog.tsx:47-50 | in every history at most one send is awaited, exactly while the status is 'sending', and the status is otherwise 'idle' |
| Feedback.NoSecondSendWhileSending | components/FeedbackDialog.tsx:47-50 | while a send is awaited, a click neither sends nor changes the page |
| Feedback.SentTextsAreLongEnough | app/page.tsx:22-33 | every text ever sent has at least five characters |
| Feedback.SendingIsReachable | components/FeedbackDialog.tsx:47-51 | opening, typing five characters and clicking reaches 'sending', with the button disabled and labelled "Sending..." |
| Editor.TextUpdate | components/CoverPhotoBuilder.tsx:409-416 | each text input writes its own field (title input to the title, and so on for all eight) and only the text fields |
| Editor.Step | components/CoverPhotoBuilder.tsx:406-488 | a text input marks the session edited and writes only its own field; a resize never changes the flag; a read finishing removes it from the reads in progress and marks the session edited, and a finish for no read changes nothing; other events keep the reads in progress |
| Editor.Serve | components/CoverPhotoBuilder.tsx:343-365 | an upload only starts a read capturing the current images; remove and resize mark the session edited and change only the images, as the filter and the resize do |
| Editor.Drag | components/CoverPhotoBuilder.tsx:333-341 | a drag in production, or on no node, changes nothing; otherwise it marks the session edited or changes nothing, and touches only the images and the two text positions |
| Editor.PositionChangeKeepsSane | components/CoverPhotoBuilder.tsx:333-341 | moving the title, the subtitle or an image keeps the invariant |
| Editor.ServeAll | components/CoverPhotoBuilder.tsx:483-488 | no callback means no change; an upload only starts a read; any other callback marks the session edited; reads in progress are kept |
| Editor.Load | components/CoverPhotoBuilder.tsx:345-353 | a finished read writes its captured list plus the new image and leaves the other reads in order |
| Editor.StepKeepsFlag | components/CoverPhotoBuilder.tsx:289-331 | no event clears the edited flag |
| Editor.FlagIsMonotone | components/CoverPhotoBuilder.tsx:289-331 | once set at some point of a history, the flag stays set |
| Editor.UneditedStep | components/CoverPhotoBuilder.tsx:297-331 | an event that leaves the flag clear is a resize or changes nothing |
| Editor.UneditedFollowsLatestWidth | components/CoverPhotoBuilder.tsx:297-326 | until the first edit the options are the preset for the latest window width |
| Editor.EditedIgnoresResize | components/CoverPhotoBuilder.tsx:297-326 | after an edit, a resize event leaves the session as it is |
| Editor.ProductionDragIsInert | components/preview/CoverPhotoPreview.tsx:36-43 | in production no drag event changes the session |
| Editor.DevelopmentTitleDrag | components/preview/CoverPhotoPreview.tsx:116-152 | outside production, dragging the title sets only the title position, to the rounded offsets |
| Editor.TitleDragIsTitleChange | components/preview/CoverPhotoPreview.tsx:116-152 | outside production, a drag on the title node writes the rounded offsets to the title position |
| Editor.IntegralTitleDragIsExact | components/preview/CoverPhotoPreview.tsx:116-118 | a title drag by whole pixels stores exactly those offsets |
| Editor.StepKeepsReads | components/CoverPhotoBuilder.tsx:343-355 | events other than a load never drop or reorder the reads in progress |
| Editor.UploadCarriesBothTimestamps | components/image-customizer/ImageCustomizer.tsx:38-40 | choosing a file and finishing its read appends one image whose id carries the builder's timestamp, then the panel's, then the file name |
| Editor.EditDuringReadIsLost | components/CoverPhotoBuilder.tsx:343-355 | whatever single event other than another read finishing happens during a read, the list afterwards is the list at upload time plus the new image; other options keep that event's effect |
| Editor.ConcurrentUploadsKeepLastOnly | components/CoverPhotoBuilder.tsx:343-355 | with two overlapping uploads, whichever read finishes last writes the list from upload time plus only its own image, so the other upload's image is lost |
| Editor.EarlierReadFinishesFirst | components/CoverPhotoBuilder.tsx:343-355 | with two reads last in line, finishing the earlier and then the other writes the later read's captured list plus its image only |
| Editor.LaterReadFinishesFirst | components/CoverPhotoBuilder.tsx:343-355 | with two reads last in line, finishing the later and then the other writes the earlier read's captured list plus its image only |
| Editor.ChoosingOneFileStartsARead | components/image-customizer/ImageCustomizer.tsx:35-42 | choosing one file leaves the session alone and starts one read that captures the current image list |
| Editor.PresetsAreSane | components/CoverPhotoBuilder.tsx:41-285 | every preset satisfies the reachable-state invariant |
| Editor.ApplyAllKeepsSane | components/CoverPhotoBuilder.tsx:328-331 | writes that each respect the invariant keep it |
| Editor.GradientOptionsAreSane | components/background-customizer/BackgroundCustomizer.tsx:47-68 | every gradient preset has two or three colours and one of the eight directions |
| Editor.BackgroundKeepsSane | components/background-customizer/BackgroundCustomizer.tsx:95-235 | every update the background panel makes respects the invariant |
| Editor.ServeKeepsSane | components/CoverPhotoBuilder.tsx:343-365 | starting an upload, a remove and a slider resize keep the invariant, including that of the captured lists |
| Editor.ServeAllKeepsSane | components/image-customizer/ImageCustomizer.tsx:35-80 | every image-panel action keeps the invariant |
| Editor.LoadKeepsSane | components/CoverPhotoBuilder.tsx:345-353 | a finished read writes a captured list plus an image of size 100, which keeps the invariant |
| Editor.DragKeepsSane | components/CoverPhotoBuilder.tsx:333-341 | a drag only moves the title, the subtitle or images, which keeps the invariant |
| Editor.SessionEditKeepsSane | components/CoverPhotoBuilder.tsx:297-341 | resizes, text and background edits and drags keep the options sane and leave the reads in progress alone |
| Editor.StepKeepsSane | components/CoverPhotoBuilder.tsx:328-365 | every event preserves the invariant |
| Editor.ReachableIsSane | components/CoverPhotoBuilder.tsx:288-365 | every reachable state has opacity in [0, 100], a colour or gradient background, no background image, 2 or 3 gradient colours, an offered direction, and image sizes in [20, 600], also in every list a read in progress will write back |
| Editor.ReachableBackgroundIsColorOrGradient | components/preview/CoverPhotoPreview.tsx:48-68 | a reachable preview is painted with a colour or a gradient; the image branch is never taken |
| Editor.ReachableOverlayOpacity | components/preview/CoverPhotoPreview.tsx:80 | a reachable pattern overlay has opacity in [0, 1] |

## Left out

- The capture and download helpers in lib/utils.ts are foreign calls. Capture is an opaque `Capture` input. The captured data is always PNG, even under a `.jpeg` or `.webp` name; the model keeps the data as it is and does not track its format.
- `FileReader`, `Date().getTime()`, `process.env`, `window.innerWidth` and the drag library are inputs or parameters. A read is started by the upload callback and finished by a separate `Editor.FileLoaded` event, which can name any read in progress, so reads may finish in any order.
- The drag library's own behaviour, including `bounds="parent"`, is not modelled. The code adds no clamping of its own, so reported positions are unconstrained integers.
- `setTimeout` delays are not modelled. Timer firings are events, and a firing with no pending removal is treated as a no-op.
- Which tab panel is visible, and `defaultValue` on the tabs, are not modelled. Any control can be used in any state, which over-approximates what the user can do. Likewise the feedback text box and submit button (`Feedback.Act`) can be used while the dialog is closed.
- Decimal.RoundedNumeral: models `parseFloat` only for an unsigned `digits[.digits]` prefix. Signs, exponents, leading whitespace and floating-point precision are left out, because font sizes come from an integer table.
- Decimal.NatToString: timestamps are non-negative integers, so negative timestamps are not modelled.
- Lengths are counted in characters, not UTF-16 code units.
- Feedback.Settle: the error message text and console logging are not modelled. The writes after the `await` are one step, as React batches them into one render.
- Preview: CSS class names, the inline styles that do not carry meaning (transforms, `user-select`), the inset box shadow and the SVG blur filter are presentation only.
- Text, layout grid and logo customisers are left out: they are constant tables and callback wiring. Text edits appear only as `Editor.TextEdited` events that carry any string.
- The debug card, the console logging and the feedback network call itself are left out. The network call's outcome is a `SendResult` input.
