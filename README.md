# GK Studio editing core, modelled in Dafny

GK Studio is an all-in-one media studio in the browser. It has a video editor (layers on a timeline, with keyframes and fade transitions), an audio editor (a waveform editor, a mixer with effect sends and an undo history, and a drum sequencer), an image editor (filters, passport templates and target-size export), and a set of PDF tools. All of them share the rotary `Knob` control. Most of its code drives React, the canvas, Web Audio and remote AI services. This project models the deterministic logic inside those components and proves what that logic promises.

| file | models |
|---|---|
| `numeric.dfy` | `Math.floor`, `Math.round`, truncation toward zero, min/max/clamp, `Option`, bytes, target sizes in bytes |
| `history.dfy` | the snapshot history shared by the three editors: a bounded list plus a cursor, as a value (`Log`) and as a class (`History`) |
| `keyframes.dfy` | the stable time sort of a layer's keyframes and the piecewise-linear curve through them |
| `video_timeline.dfy` | `calculateLayerOpacity`, the transition factors, and the layer-activity tests of `drawFrame` |
| `video_edits.dfy` | the layer-list edits: move, remove, keyframe, animation preset, transition, split, paste, text layer |
| `video_session.dfy` | the video editor's state (layers, transitions, selection, clipboard, history) and its handlers |
| `video_helpers.dfy` | the speech WAV of `base64ToWavBlob`, the scrub and wheel-zoom clamps, the storyboard `MM:SS` parse |
| `wav.dfy` | the 44-byte RIFF/WAVE header, written through a `DataView` and parsed back |
| `audio_wav.dfy` | `createWavBlob`'s float-to-int16 conversion, `interleave`, `audioBufferToWav` |
| `audio_edit.dfy` | `getSelectedRange` and the cut, copy, paste, delete, trim, fade and reverse commands, channel by channel |
| `audio_mixer.dfy` | the mixer settings and their 20-entry history, EQ presets, the node wiring of `connectNodes`, the sequencer step |
| `image_geometry.dfy` | `toPixels`, passport templates and their centre crop, selection normalisation, overlay fit |
| `image_color.dfy` | `rgbToHex` and the in-place RGB channel multiply over RGBA bytes |
| `image_session.dfy` | the image canvas with its 30-entry history, and `calculateAutoQuality`'s 8-step bisection |
| `pdf_tools.dfy` | file acceptance, the tool file list, the process button, the compressed-size arithmetic, `formatSize` |
| `knob.dfy` | the knob's drag-to-value mapping, its gauge percentage and angle, and the SVG large-arc flag |

State that the source updates in place is modelled as classes with `modifies` clauses:
- `History`, `VideoEditor`, `AudioEditor`, `Mixer` and `ImageEditor`;
- channel buffers, RGBA pixels and WAV bytes as `array`s.

Every loop of the source is a `method` proved against a specification function. Pure expressions stay functions.

Two kinds of input are parameters of the model rather than computed by it:
- The file size the image encoder gives for a quality is the parameter `size: real -> real`.
- `Date.now()` ids are parameters.

Times, gains, opacities and samples are exact `real`s.

## Model

| member | source | states |
|---|---|---|
| Keyframes.InsertByTime | VideoStudio.tsx:558 | inserting a keyframe yields a list one longer |
| Keyframes.InsertByTimePermutes | VideoStudio.tsx:558 | inserting a keyframe gives the old keyframes plus the new one, as a multiset |
| Keyframes.SortByTime | VideoStudio.tsx:558 | the sorted copy has as many keyframes as the layer's list |
| Keyframes.SortByTimeSorted | VideoStudio.tsx:558 | `[...keyframes].sort((a, b) => a.time - b.time)` yields a list ordered by time that is a permutation of the layer's keyframes |
| Keyframes.InsertKeepsSorted | VideoStudio.tsx:558 | inserting into a list sorted by time keeps it sorted |
| Keyframes.SortOfSortedIsIdentity | VideoStudio.tsx:558 | the sort is stable on sorted input: a list already in time order, ties included, comes back unchanged |
| Keyframes.SegmentFrom | VideoStudio.tsx:561-569 | the index where the `for` loop breaks is the first segment from i on whose half-open interval [start.time, end.time) contains t; none means no segment does |
| Keyframes.SegmentUnique | VideoStudio.tsx:561-569 | in a sorted list at most one segment contains t, and it has a positive time difference (no division by zero) |
| Keyframes.SegmentExists | VideoStudio.tsx:561-569 | strictly inside the keyframe range of a sorted list the loop always breaks |
| Keyframes.InteriorIsInterpolation | VideoStudio.tsx:561-569 | inside the range the curve is the linear interpolation over the one segment containing t |
| Keyframes.LerpBetween | VideoStudio.tsx:565-567 | an interpolated value lies between the two keyframe values around it |
| Keyframes.CurvePassesThroughKeyframes | VideoStudio.tsx:559-569 | with strictly increasing times the curve takes each keyframe's value at its time |
| Keyframes.SortedEnds | VideoStudio.tsx:558-560 | the first and last sorted keyframes are keyframes of the layer with the least and the greatest time |
| Keyframes.CurveOutsideRange | VideoStudio.tsx:559-560 | before or at the earliest keyframe the curve is the earliest value; at or after the latest (and past the earliest) it is the latest value |
| VideoTimeline.OrElse | VideoStudio.tsx:554 | `layer.opacity ?? 1`: the value when present, the default otherwise |
| VideoTimeline.FindLayer | VideoStudio.tsx:615 | `layers.find(l => l.id === id)`: none exactly when no layer has the id; otherwise the first layer that has it |
| VideoTimeline.LayerOpacity | VideoStudio.tsx:553-587 | the opacity returned always lies in [0, 1] |
| VideoTimeline.CalculateLayerOpacity | VideoStudio.tsx:553-587 | the method (base opacity, keyframe step, transition loop, clamp) returns exactly `LayerOpacity`: base times curve times transition factors, clamped |
| VideoTimeline.ApplyKeyframes | VideoStudio.tsx:557-572 | the keyframe step multiplies the running opacity by the curve value of the sorted list at t |
| VideoTimeline.ApplyTransitions | VideoStudio.tsx:575-584 | the transition step multiplies the running opacity by the product of the factors of the transitions of this layer whose closed window contains t, in list order |
| VideoTimeline.ApplyTransition | VideoStudio.tsx:577-583 | one transition: a covering fade-in multiplies by p, a fade-out by 1 - p, any other transition or a non-covering one by 1 |
| VideoTimeline.FadeFactorInUnit | VideoStudio.tsx:575-583 | every single transition factor lies in [0, 1] |
| VideoTimeline.TransitionFactorInUnit | VideoStudio.tsx:575-584 | the product of the transition factors lies in [0, 1] |
| VideoTimeline.TransitionsNeverBrighten | VideoStudio.tsx:553-587 | adding transitions never makes a layer more opaque than without them |
| VideoTimeline.ClampScaledDown | VideoStudio.tsx:586 | scaling by a factor in [0, 1] never raises the clamped value |
| VideoTimeline.FadeWindowEnds | VideoStudio.tsx:575-583 | the fade window is closed: at its start a fade-in gives 0 and a fade-out 1, at its end the reverse |
| VideoTimeline.FadeInScenario | VideoStudio.tsx:553-587 | a one-second fade-in from 0 on an opaque layer gives 0.25 a quarter of the way in and 1 after the window |
| VideoTimeline.OpacityRampScenario | VideoStudio.tsx:553-587 | an opacity ramp from 0 to 1 over the first second reads 0.5 half-way |
| VideoTimeline.MainLayerAlpha | VideoStudio.tsx:615-623 | the main layer's `globalAlpha` is in [0, 1], 0 when the layer with id 1 is missing, hidden or outside [start, start + (duration or Infinity)), its computed opacity otherwise |
| VideoTimeline.WindowEnds | VideoStudio.tsx:706-709 | an overlay is still drawn at start + duration while the main layer (VideoStudio.tsx line 616) is not, and the overlay is gone just after |
| VideoTimeline.MainLayerWindow | VideoStudio.tsx:616 | with a duration, the main layer is active exactly on [start, start + duration) |
| VideoTimeline.OverlayWithoutDuration | VideoStudio.tsx:707-709 | an overlay image or text layer without a duration is drawn exactly from its start on |
| VideoTimeline.OpacityKeyframes | VideoStudio.tsx:557-558 | the keyframes kept are exactly the layer's opacity keyframes |
| VideoTimeline.IntendedLayerOpacity | VideoStudio.tsx:553-587 | the corrected rule (opacity keyframes only) also lies in [0, 1] |
| VideoTimeline.SlideLeftDimsLayer | VideoStudio.tsx:557-572 | as written, the slide-left preset's x keyframes (1.2 then 0.5) leave an opaque layer at opacity 0.5 after the slide |
| VideoTimeline.SlideLeftKeepsOpacity | VideoStudio.tsx:1235-1268 | under the corrected rule the same layer stays fully opaque |
| VideoTimeline.OtherPropertiesIgnored | VideoStudio.tsx:557-572 | under the corrected rule a scale, x or y keyframe never changes the opacity |
| VideoTimeline.OpacityOnlyLayersAgree | VideoStudio.tsx:553-587 | as written and corrected rules agree on layers whose keyframes all animate opacity |
| VideoEdits.MoveTarget | VideoStudio.tsx:256-273 | 'up' swaps with the next entry exactly when 0 < index < length - 1, 'down' with the previous one exactly when index > 0 |
| VideoEdits.Swapped | VideoStudio.tsx:265-270 | the destructuring swap exchanges the two entries and leaves every other entry in place |
| VideoEdits.SwappedIsPermutation | VideoStudio.tsx:265-270 | a swap is a permutation of the layer list |
| VideoEdits.MoveLayer | VideoStudio.tsx:256-273 | the copied array is changed (and only then committed) exactly when `MoveTarget` allows a swap; the result is then the swapped list, otherwise the list itself, always a permutation |
| VideoEdits.UpAtBottomIsNoOp | VideoStudio.tsx:256-273 | 'up' on entry 0 does nothing, although its button is enabled whenever there are two or more layers |
| VideoEdits.IntendedMoveTarget | VideoStudio.tsx:256-273 | corrected rule: 'up' moves whenever its button is enabled (index < length - 1), 'down' whenever index > 0 |
| VideoEdits.IntendedMovesInvert | VideoStudio.tsx:256-273 | under the corrected rule 'up' then 'down' on the moved layer restores the list |
| VideoEdits.IntendedDiffersOnlyAtBottom | VideoStudio.tsx:258 | the written and the corrected rule differ exactly for 'up' on entry 0 of a list of two or more |
| VideoEdits.RemoveLayer | VideoStudio.tsx:1211 | `filter(l => l.id !== id)` never lengthens the list |
| VideoEdits.RemoveLayerMembers | VideoStudio.tsx:1211 | the layers left are exactly the layers whose id differs |
| VideoEdits.RemoveLayerConcat | VideoStudio.tsx:1211 | the filter keeps the order: it acts on each part of a concatenation separately |
| VideoEdits.RemoveAbsentLayer | VideoStudio.tsx:1211 | removing an id no layer carries leaves the list unchanged |
| VideoEdits.KeepAwayFrom | VideoStudio.tsx:1230 | a keyframe is kept exactly when it is more than 0.1 s from the playhead or animates another property |
| VideoEdits.WithKeyframe | VideoStudio.tsx:1221-1231 | only the keyframes change; the new keyframe at the playhead, holding the property's base value (`?? 1`, `?? 1`, `?? 0.5`, `?? 0.5`), comes last; other properties' keyframes all stay; every kept keyframe of the property is more than 0.1 s away |
| VideoEdits.AddKeyframe | VideoStudio.tsx:1218-1233 | the layers with the id get the keyframe, all others are unchanged |
| VideoEdits.KeepAwayFromIdempotent | VideoStudio.tsx:1230 | the filter is idempotent |
| VideoEdits.AddKeyframeTwice | VideoStudio.tsx:1218-1233 | adding a keyframe twice at the same playhead equals adding it once |
| VideoEdits.PresetKeyframes | VideoStudio.tsx:1246-1257 | the two keyframes of fade-in, fade-out, slide-left and zoom-in, one second apart, with their values and properties |
| VideoEdits.ApplyAnimationPreset | VideoStudio.tsx:1235-1268 | nothing when no layer has the id; otherwise each layer with the id gets the first such layer's keyframes followed by the preset's, over [start, start + (duration or 5)]; other layers are unchanged |
| VideoEdits.TwoKeyframeOpacity | VideoStudio.tsx:553-587 | with two keyframes in order the opacity is the first value (clamped) up to the first time and the last value from the last time on |
| VideoEdits.FadeInPresetCurve | VideoStudio.tsx:1246-1248 | the fade-in preset makes an opaque layer transparent at its start and opaque from one second later |
| VideoEdits.FadeOutPresetCurve | VideoStudio.tsx:1239-1251 | the fade-out preset keeps an opaque layer opaque until one second before its end and transparent from its end |
| VideoEdits.MinR1 | VideoStudio.tsx:1344 | `Math.min(1, d)` is at most 1 and at most d, and is one of them |
| VideoEdits.WithoutKind | VideoStudio.tsx:1343 | the transitions kept are exactly those not of this layer and this kind |
| VideoEdits.NewTransition | VideoStudio.tsx:1344-1353 | the new transition lasts `min(1, duration or 120)`; a fade-in starts with the layer, any other kind ends with it |
| VideoEdits.AddTransition | VideoStudio.tsx:1330-1355 | nothing without a selected existing layer; otherwise the new transition comes last and the others are exactly the old ones not of this layer and kind |
| VideoEdits.WithoutKindCount | VideoStudio.tsx:1343 | after the clean-up no transition of this layer and kind is left |
| VideoEdits.AddTransitionLeavesOne | VideoStudio.tsx:1341-1354 | afterwards the layer has exactly one transition of that kind |
| VideoEdits.SplitLayer | VideoStudio.tsx:1270-1290 | nothing without selection, layer, or playhead strictly inside the layer; otherwise the selected layer ends at the playhead and a copy with a new id, " (Copy)" name, playhead start and the remaining duration is appended |
| VideoEdits.SplitPartsCover | VideoStudio.tsx:1274-1288 | both parts are non-empty, meet at the playhead and together span the original duration |
| VideoEdits.Paste | VideoStudio.tsx:1310-1323 | nothing without a clipboard; otherwise the layers followed by the clipboard layer with a new id, " (Copy)" name and the playhead as start |
| VideoEdits.NewTextLayer | VideoStudio.tsx:1129-1144 | the text layer's constants: visible, opacity 1, scale 1, centred, starting at the playhead, 5 s long, no keyframes |
| VideoEdits.AddTextLayer | VideoStudio.tsx:1127-1146 | the new layer goes first in the list, before all existing layers |
| VideoEdits.RemoveUndoesPasteAndAdd | VideoStudio.tsx:1209-1216 | removing a freshly pasted or added layer by its fresh id gives back the list from before |
| SnapshotHistory.Empty | VideoStudio.tsx:144-145 | the starting history `[]` with cursor -1 is well-formed for every capacity |
| SnapshotHistory.KeptPrefix | VideoStudio.tsx:212 | `slice(0, step + 1)` keeps the first step + 1 entries, or all of them when there are fewer |
| SnapshotHistory.Appended | VideoStudio.tsx:212-216 | slice, push and, past the capacity, shift: at most capacity entries, ending with the new snapshot, the oldest dropped only on overflow |
| SnapshotHistory.PushedAtEnd | VideoStudio.tsx:204-220 | VideoStudio's push keeps the history well-formed and leaves the cursor on the new snapshot, the last entry |
| SnapshotHistory.PushedAdvanced | AudioStudio.tsx:250-256 | AudioStudio's and ImageStudio's push: the same list, cursor `Math.min(prev + 1, capacity - 1)` |
| SnapshotHistory.CursorRulesAgree | ImageStudio.tsx:360-382 | on a well-formed history the two cursor rules give the same history |
| SnapshotHistory.CursorRulesDisagreeOffTheEnd | AudioStudio.tsx:250-256 | off a well-formed history the advanced cursor no longer names the last entry |
| SnapshotHistory.Undone | VideoStudio.tsx:229-238 | undo with the cursor above 0 moves it down and returns the entry it now names; otherwise nothing changes |
| SnapshotHistory.Redone | VideoStudio.tsx:240-249 | redo with the cursor below the last index moves it up and returns that entry; otherwise nothing changes |
| SnapshotHistory.UndoRedoKeepWellFormed | AudioStudio.tsx:266-298 | undo and redo keep the history well-formed |
| SnapshotHistory.RedoAfterUndo | AudioStudio.tsx:266-298 | redo after a successful undo returns to the same history and hands back the snapshot named before the undo |
| SnapshotHistory.PushEvictsOldest | VideoStudio.tsx:212-216 | a push at full capacity with the cursor at the end drops the oldest snapshot |
| SnapshotHistory.ScenarioCapacityThree | VideoStudio.tsx:204-238 | with capacity 3, pushing A, B, C, D keeps [B, C, D], and undo stops at B |
| SnapshotHistory.PushDropsRedoFuture | VideoStudio.tsx:212-213 | a push after an undo discards the redo future |
| SnapshotHistory.UndoAfterPush | ImageStudio.tsx:360-393 | with a capacity of two or more, undo straight after a push returns the snapshot the cursor named before, even after an eviction |
| SnapshotHistory.History.constructor | VideoStudio.tsx:144-145 | an empty history with cursor -1 |
| SnapshotHistory.History.PushAtEnd | VideoStudio.tsx:204-220 | the object's push reaches `PushedAtEnd` of its old state |
| SnapshotHistory.History.PushAdvance | AudioStudio.tsx:236-257 | the object's push reaches `PushedAdvanced` of its old state |
| SnapshotHistory.History.Reset | ImageStudio.tsx:424-427 | `setHistory([data])`, cursor 0 |
| SnapshotHistory.History.Undo | AudioStudio.tsx:266-281 | undo returns `Undone` of the old state |
| SnapshotHistory.History.Redo | AudioStudio.tsx:283-298 | redo returns `Redone` of the old state |
| VideoSession.VideoEditor.constructor | VideoStudio.tsx:222-227 | the mounted editor selects layer 1 and has an empty clipboard; its single history entry is the first render's demo (the two default layers of lines 126-129, no transitions), and only then do a loaded project's layers and transitions, each where present, replace the live ones (lines 285-289) |
| VideoSession.VideoEditor.PushToHistory | VideoStudio.tsx:204-220 | records the live layers and transitions with `PushedAtEnd` |
| VideoSession.VideoEditor.UpdateLayers | VideoStudio.tsx:251-254 | pushes the state before the edit, then replaces the layers; nothing else changes |
| VideoSession.VideoEditor.Undo | VideoStudio.tsx:229-238 | loads the snapshot below the cursor when there is one; otherwise the live state stays |
| VideoSession.VideoEditor.Redo | VideoStudio.tsx:240-249 | loads the snapshot above the cursor when there is one; otherwise the live state stays |
| VideoSession.VideoEditor.MoveLayer | VideoStudio.tsx:256-273 | a permitted swap commits through `updateLayers`; a refused move leaves layers and history as they were |
| VideoSession.VideoEditor.RemoveLayer | VideoStudio.tsx:1209-1216 | pushes, removes the layers with the id, clears the selection when it named the id |
| VideoSession.VideoEditor.Delete | VideoStudio.tsx:1326-1328 | with a selection, removes the selected layer and clears the selection; without one, nothing changes and the selection stays 0 |
| VideoSession.VideoEditor.Copy | VideoStudio.tsx:1293-1299 | the selected layer, when found, goes to the clipboard; nothing else changes |
| VideoSession.VideoEditor.Cut | VideoStudio.tsx:1301-1308 | the selected layer, when found, goes to the clipboard and is removed, and the selection is cleared; otherwise nothing changes, the selection included |
| VideoSession.VideoEditor.Paste | VideoStudio.tsx:1310-1324 | with a clipboard, one push, and the pasted copy appended and selected; without one, nothing changes |
| VideoSession.VideoEditor.AddTextLayer | VideoStudio.tsx:1127-1146 | pushes, puts the new text layer first, selects it |
| VideoSession.VideoEditor.AddKeyframe | VideoStudio.tsx:1218-1233 | pushes, then adds the keyframe to the layers with the id |
| VideoSession.VideoEditor.ApplyAnimationPreset | VideoStudio.tsx:1235-1268 | an unknown id changes nothing, history included; otherwise one push and the preset's keyframes |
| VideoSession.VideoEditor.SplitLayer | VideoStudio.tsx:1270-1291 | a refused split changes nothing; otherwise one push, the split layers and the second part selected |
| VideoSession.VideoEditor.AddTransition | VideoStudio.tsx:1330-1355 | without a selected existing layer nothing changes; otherwise one push and the replaced transition list |
| VideoSession.EditAsWritten | VideoStudio.tsx:251-254 | as written an edit leaves the cursor on the state from before the edit, not on the live state |
| VideoSession.UndoAfterTwoEditsSkipsState | VideoStudio.tsx:204-254 | from s0, edits to s1 and s2 leave [s0, s0, s1]; undo loads s0, not s1; redo then loads s1, and s2 cannot be reached |
| VideoSession.LoadedProjectUndoesToDemo | VideoStudio.tsx:222-227 | after loading a project, one edit and an undo show the demo layers of the first render, and redo then shows the project |
| VideoSession.CommitEdit | VideoStudio.tsx:251-254 | corrected: committing the edited state leaves the cursor on the live state |
| VideoSession.CommitThenUndoRestores | VideoStudio.tsx:229-254 | with commits, undo after an edit restores the state before it and redo brings the edit back, keeping the cursor on the live state |
| VideoSession.UndoRedoTrack | VideoStudio.tsx:229-249 | undo and redo keep the cursor naming the live state |
| VideoSession.UndoAfterTwoCommits | VideoStudio.tsx:229-254 | with commits, two edits and two undos restore s1 and then s0 |
| ImageSession.ImageEditor.constructor | ImageStudio.tsx:116 | a blank canvas and an empty history of capacity 30 |
| ImageSession.ImageEditor.LoadImage | ImageStudio.tsx:412-427 | a new image resets the history to the single snapshot of the drawn canvas |
| ImageSession.ImageEditor.Commit | ImageStudio.tsx:360-382 | an edit shows on the canvas and is recorded with `PushedAdvanced`; the cursor names the canvas again |
| ImageSession.ImageEditor.Undo | ImageStudio.tsx:384-393 | with the cursor above 0, the snapshot below it is pasted into the canvas at (0, 0) and the canvas keeps its size; otherwise nothing changes; a snapshot of the canvas's size is shown exactly |
| ImageSession.ImageEditor.Redo | ImageStudio.tsx:395-404 | with a snapshot above the cursor, it is pasted into the canvas at (0, 0) and the canvas keeps its size; otherwise nothing changes; a snapshot of the canvas's size is shown exactly |
| ImageSession.CommitThenUndoRestores | ImageStudio.tsx:360-393 | an edit followed by undo hands back the snapshot from before the edit, even with a full history, and shows it exactly when the edit kept the canvas's size |
| ImageSession.PutImageData | ImageStudio.tsx:389 | `putImageData` keeps the canvas's width and height |
| ImageSession.PutImageDataAt | ImageStudio.tsx:389 | each byte of a pixel the snapshot covers from the top-left corner is the snapshot's; every other byte is the canvas's |
| ImageSession.PutSameSizeIsSnapshot | ImageStudio.tsx:389 | a snapshot of the canvas's own size replaces the canvas entirely |
| ImageSession.UndoAfterResizeKeepsSize | ImageStudio.tsx:384-393 | as written, undo after an edit that changed the canvas size keeps the new size and does not show the earlier picture |
| ImageSession.IntendedUndoRestores | ImageStudio.tsx:384-393 | corrected: sizing the canvas to the snapshot before pasting makes undo after any edit show the earlier picture exactly |
| ImageSession.Halving | ImageStudio.tsx:1096-1108 | the width factor 2^-n of the search interval is positive |
| ImageSession.HalvingSteps | ImageStudio.tsx:1096 | after the loop's 8 steps the factor is 1/256 |
| ImageSession.BisectionBrackets | ImageStudio.tsx:1096-1108 | each step halves the interval and keeps the bracket: the lower end is 0.01 with best quality 0.8, or a tested quality that fits and is the best; the upper end is 1.0 or a tested quality that is too big |
| ImageSession.AutoQuality | ImageStudio.tsx:1090-1108 | the 8-step loop from 0.01, 1.0, 0.8 returns the best quality of `Bisection` |
| ImageSession.Bisect | ImageStudio.tsx:1096-1108 | the `for` loop, from any bounds and best quality, for any number of steps, returns `Bisection`'s best quality |
| ImageSession.AutoQualityMeetsTarget | ImageStudio.tsx:1090-1110 | the chosen quality is the default 0.8 or a tested quality in (0.01, 1) whose file fits; the final interval is 0.99 * 2^-n wide; its upper end is 1.0 or a quality whose file is too big |
| ImageSession.MonotoneSearchIsClose | ImageStudio.tsx:1090-1110 | when the file grows with the quality and a tested quality fit, no quality more than the final interval's width above the chosen one fits |
| ImageSession.NothingFitsKeepsBest | ImageStudio.tsx:1102-1107 | when every quality is too big no step changes the best quality |
| ImageSession.NothingFitsKeepsDefault | ImageStudio.tsx:1092-1110 | hence when nothing fits the export quality stays 0.8 rather than the smallest tried |
| ImageSession.CalculateAutoQuality | ImageStudio.tsx:1078-1110 | nothing is computed without a target size or with a target of no bytes; otherwise the bisection's quality for the target in bytes (1024, 1024² or 1024³ per unit) |
| ImageSession.DisplayUnit | ImageStudio.tsx:1116-1119 | GB exactly above 1024³ bytes, MB exactly above 1024² up to 1024³, KB otherwise; the GB and MB figures exceed 1 |
| Numeric.TargetBytes | ImageStudio.tsx:1082-1086 | the multiplier is 1024² for "MB", 1024³ for "GB" and 1024 for any other unit |
| VideoHelpers.Base64ToWav | VideoStudio.tsx:50-91 | the blob's bytes are a 44-byte header for mono 24 kHz 16-bit audio of |binary| data bytes followed by the character codes of the decoded string, each reduced to a byte |
| VideoHelpers.SpeechHeaderFields | VideoStudio.tsx:58-85 | that header reads back as RIFF size n + 36, one channel, 24000 Hz, byte rate 48000, block align 2, 16 bits, data size n |
| VideoHelpers.ScrubPercent | VideoStudio.tsx:857-860 | `Math.max(0, Math.min(1, absoluteX / width))` lies in [0, 1]; it is NaN exactly when both the pointer offset and the width are 0 |
| VideoHelpers.ScrubWithinVideo | VideoStudio.tsx:857-866 | the seek target lies in [0, duration]; left of the timeline it is 0, right of it the end |
| VideoHelpers.ScrubMonotone | VideoStudio.tsx:857-861 | moving the pointer right never seeks earlier |
| VideoHelpers.WheelZoom | VideoStudio.tsx:889-893 | the zoom after a Ctrl/Meta wheel event stays within [1, 5] |
| VideoHelpers.WheelZoomDirection | VideoStudio.tsx:891-892 | from a zoom in [1, 5], scrolling down never zooms in and scrolling up never zooms out |
| VideoHelpers.ZoomAfter | VideoStudio.tsx:891-892 | any number of wheel events keeps the zoom within [1, 5] |
| VideoHelpers.SeventeenStepsToMaximum | VideoStudio.tsx:889-893 | from the initial zoom 1, sixteen zoom-in steps stay below 5 and the seventeenth reaches it |
| VideoHelpers.DigitValue | VideoStudio.tsx:1815 | a digit's value is at most 36, and below 10 exactly for '0'..'9' |
| VideoHelpers.SpaceEnd | VideoStudio.tsx:1815 | `parseInt` skips leading white space up to the first other character |
| VideoHelpers.DigitEnd | VideoStudio.tsx:1815 | `parseInt` stops at the first character that is not a digit of the radix |
| VideoHelpers.DigitRunIsDigits | VideoStudio.tsx:1815 | everything before that stop is a digit of the radix |
| VideoHelpers.ParseDecimal | VideoStudio.tsx:1815 | a decimal digit string parses as its value |
| VideoHelpers.ColonFrom | VideoStudio.tsx:1815 | the next ':' from an index on, or the end |
| VideoHelpers.MinutesAndSeconds | VideoStudio.tsx:1815 | `minutes * 60 + seconds`, NaN exactly when either field is NaN |
| VideoHelpers.FieldsOf | VideoStudio.tsx:1815 | `split(':')` of `mm:ss` followed by another field gives back mm and ss |
| VideoHelpers.StoryboardTimestamp | VideoStudio.tsx:1815 | a decimal `MM:SS` timestamp jumps to minutes * 60 + seconds; anything after a second ':' is ignored |
| VideoHelpers.StoryboardNeedsColon | VideoStudio.tsx:1815 | a timestamp without ':' has no seconds field, so the jump target is NaN |
| VideoHelpers.StoryboardHexMinutes | VideoStudio.tsx:1815 | `parseInt` honours a hexadecimal prefix: "0x1:0" jumps to 60 seconds |
| VideoHelpers.StoryboardBadSeconds | VideoStudio.tsx:1815 | seconds without digits ("1:xy") make the jump target NaN |
| Wav.U16LE | AudioStudio.tsx:37-42 | `setUint16(offset, v, true)` writes two bytes |
| Wav.U32LE | AudioStudio.tsx:31-46 | `setUint32(offset, v, true)` writes four bytes |
| Wav.ReadU16 | AudioStudio.tsx:37-42 | a little-endian 16-bit field reads as a value below 2^16 |
| Wav.ReadU32 | AudioStudio.tsx:31-46 | a little-endian 32-bit field reads as a value below 2^32 |
| Wav.U16RoundTrip | AudioStudio.tsx:37-42 | a 16-bit field reads back as the written value modulo 2^16 |
| Wav.U32RoundTrip | AudioStudio.tsx:31-46 | a 32-bit field reads back as the written value modulo 2^32 |
| Wav.U16Surjective | AudioStudio.tsx:37-42 | every pair of bytes encodes the value it reads as |
| Wav.Tag | AudioStudio.tsx:19-23 | `writeString` writes one byte per character, its code modulo 2^8 |
| Wav.RiffDescriptor | AudioStudio.tsx:30-32 | bytes 0..11 hold "RIFF", 36 + data size and "WAVE" |
| Wav.FmtChunk | AudioStudio.tsx:35-42 | bytes 12..35 hold "fmt ", 16, format 1, channels, rate, rate * channels * 2, channels * 2 and 16 bits, at their offsets |
| Wav.DataChunkHeader | AudioStudio.tsx:45-46 | bytes 36..43 hold "data" and the data size |
| Wav.Header | AudioStudio.tsx:25-46 | the header is 44 bytes long |
| Wav.ParseHeader | AudioStudio.tsx:25-46 | a header the reader accepts has the four tags at offsets 0, 8, 12 and 36 |
| Wav.HeaderSlices | AudioStudio.tsx:30-46 | each of the thirteen fields sits at the offset the source writes it to |
| Wav.HeaderParses | AudioStudio.tsx:25-46 | round trip: the written header parses back to its format, each field reduced to its width as the `DataView` setters reduce it |
| Wav.FixedFieldsRead | AudioStudio.tsx:36-37 | the fixed fields read back as 16 and 1 |
| Wav.HeaderConsistent | AudioStudio.tsx:25-46 | when nothing wraps the header is self-consistent: RIFF size = data size + 36, block align = 2 * channels, byte rate = rate * block align |
| Wav.SetBytes | VideoStudio.tsx:87-88 | writing bytes at an offset changes exactly those positions |
| Wav.WriteString | AudioStudio.tsx:19-23 | `writeString` changes exactly the positions of the tag |
| Wav.SetUint16 | AudioStudio.tsx:37-42 | `setUint16` changes exactly two positions to the little-endian bytes |
| Wav.SetUint32 | AudioStudio.tsx:31-46 | `setUint32` changes exactly four positions to the little-endian bytes |
| Wav.WriteRiffDescriptor | AudioStudio.tsx:30-32 | the three writes leave the RIFF descriptor at bytes 0..11 and the rest untouched |
| Wav.WriteFmtChunk | AudioStudio.tsx:35-42 | the eight writes leave the `fmt ` chunk at bytes 12..35 and the rest untouched |
| Wav.WriteDataChunkHeader | AudioStudio.tsx:45-46 | the two writes leave the data chunk header at bytes 36..43 and the rest untouched |
| Wav.WriteHeader | AudioStudio.tsx:25-46 | the thirteen writes, in the source's order, leave `Header(channels, rate, dataSize)` in front of untouched bytes |
| Wav.NewBuffer | AudioStudio.tsx:27 | `new ArrayBuffer(n)` holds n zero bytes |
| AudioWav.ScaledSample | AudioStudio.tsx:50-52 | the sample clamped to [-1, 1] and scaled by 0x8000 below 0 and 0x7FFF otherwise lies in [-32768, 32767] |
| AudioWav.ToInt16 | AudioStudio.tsx:53 | `setInt16`'s ToInt16 gives a value in [-32768, 32767], the truncation toward zero when that is in range |
| AudioWav.SampleValue | AudioStudio.tsx:50-53 | the stored 16-bit value of a float sample lies in [-32768, 32767] |
| AudioWav.SampleValueIsTruncation | AudioStudio.tsx:50-53 | the scaled sample never wraps: the stored value is its truncation toward zero |
| AudioWav.SampleValueEnds | AudioStudio.tsx:50-53 | full scale maps to -32768 and 32767, anything beyond is clipped, silence is 0 |
| AudioWav.SampleValueSign | AudioStudio.tsx:50-53 | the conversion keeps the sign of the sample |
| AudioWav.SampleValueMonotone | AudioStudio.tsx:50-53 | a louder sample never gets a smaller 16-bit value |
| AudioWav.ReadI16 | AudioStudio.tsx:53 | a signed 16-bit field reads as a value in [-32768, 32767] |
| AudioWav.I16RoundTrip | AudioStudio.tsx:53 | `setInt16` followed by a signed read gives the value back |
| AudioWav.PcmBytes | AudioStudio.tsx:48-54 | two bytes of PCM data per sample |
| AudioWav.PcmSampleAt | AudioStudio.tsx:48-54 | sample i sits at bytes 2i, 2i + 1 of the data and reads back as its 16-bit value |
| AudioWav.SetInt16 | AudioStudio.tsx:53 | `setInt16` changes exactly two positions to the bytes of ToInt16 of its argument |
| AudioWav.CreateWavBlob | AudioStudio.tsx:25-57 | the buffer is the header for 2n data bytes followed by the PCM bytes of the samples, written at the running offset from 44 |
| AudioWav.Interleaved | AudioStudio.tsx:74-88 | the interleaved array is as long as both channels together |
| AudioWav.InterleavedAt | AudioStudio.tsx:74-88 | left sample i sits at 2i and right sample i at 2i + 1 |
| AudioWav.Evens | AudioStudio.tsx:74-88 | the even positions of an array |
| AudioWav.Odds | AudioStudio.tsx:74-88 | the odd positions of an array |
| AudioWav.DeinterleaveInverts | AudioStudio.tsx:74-88 | splitting an interleaved array into even and odd positions gives back both channels |
| AudioWav.Interleave | AudioStudio.tsx:74-88 | the `while` loop produces exactly `Interleaved(inputL, inputR)`: L0 R0 L1 R1 ... |
| AudioWav.AudioBufferToWav | AudioStudio.tsx:60-72 | the header carries the buffer's channel count and rate; the data is the interleaved pair for two channels and channel 0 otherwise |
| AudioWav.StereoDataIsWholeFrames | AudioStudio.tsx:60-72 | a stereo file's data is a whole number of 4-byte frames |
| AudioWav.SurroundHeaderMismatch | AudioStudio.tsx:60-72 | with three channels of one frame the header announces 6-byte frames but the data holds 2 bytes |
| AudioWav.Frame | AudioStudio.tsx:60-72 | one sample per channel, in channel order |
| AudioWav.InterleavedAll | AudioStudio.tsx:60-72 | all channels interleaved frame by frame: channels times frames samples |
| AudioWav.InterleavedAllAt | AudioStudio.tsx:60-72 | sample c of frame f sits at f * channels + c |
| AudioWav.IntendedDataIsWholeFrames | AudioStudio.tsx:60-72 | corrected: the data is always a whole number of the announced frames |
| AudioWav.IntendedAgreesUpToStereo | AudioStudio.tsx:60-72 | for mono and stereo the corrected encoding is the one written |
| AudioWav.AudioBufferToWavIntended | AudioStudio.tsx:60-72 | corrected: the same header over all channels interleaved |
| AudioEdit.SelectedRange | AudioStudio.tsx:518-523 | a range exists exactly when there is a selection and a buffer; it lies within [0, duration] and is a proper interval when the selection meets the audio |
| AudioEdit.SelectedRangeIsIntersection | AudioStudio.tsx:518-523 | a time lies in the range iff it lies both in the ordered selection and in the audio |
| AudioEdit.IndexWithin | AudioStudio.tsx:536-537 | `Math.floor(t * sampleRate)` of a time inside the audio is an index in [0, length] |
| AudioEdit.SpanBounds | AudioStudio.tsx:536-537 | both sample indices of a range lie in [0, length], in order when the selection meets the audio |
| AudioEdit.RangeSpan | AudioStudio.tsx:536-537 | the span of a range inside the audio is a pair of channel indices, unreversed for an unreversed range |
| AudioEdit.Silence | AudioStudio.tsx:524 | a fresh channel of n samples is all zero |
| AudioEdit.Subarray | AudioStudio.tsx:545 | `subarray` clamps both bounds to the channel and is empty for a reversed pair |
| AudioEdit.Spliced | AudioStudio.tsx:539-546 | the cut channel is `length - (e - s)` samples long |
| AudioEdit.SplicedRemovesSpan | AudioStudio.tsx:539-546 | for an unreversed span the cut channel is exactly what lies before and after the span |
| AudioEdit.Inserted | AudioStudio.tsx:564-571 | the pasted channel is as long as the channel and the clip together |
| AudioEdit.PasteUndoesCut | AudioStudio.tsx:533-571 | pasting the cut samples back at the start of the cut restores the channel |
| AudioEdit.FadeGainBounds | AudioStudio.tsx:604-636 | every fade factor lies in [0, 1]; a fade-in starts at 0, a fade-out at 1 |
| AudioEdit.Faded | AudioStudio.tsx:604-636 | the faded channel keeps its length |
| AudioEdit.FadesComplement | AudioStudio.tsx:604-636 | fades leave samples outside the span alone; inside, fade-in and fade-out of the same span add up to the original |
| AudioEdit.FadeAttenuates | AudioStudio.tsx:604-636 | a fade never raises a sample's magnitude nor flips its sign |
| AudioEdit.ReversedSpan | AudioStudio.tsx:638-653 | the reversed channel keeps its length |
| AudioEdit.ReverseTwice | AudioStudio.tsx:638-653 | reversing the same span twice restores the channel |
| AudioEdit.ReverseSwapsEnds | AudioStudio.tsx:638-653 | the span's first and last samples trade places |
| AudioEdit.SetFrom | AudioStudio.tsx:545 | `set(src, offset)` replaces exactly positions offset .. offset + length of src and keeps the rest |
| AudioEdit.CopyOf | AudioStudio.tsx:613 | `output.set(input)` on a fresh channel yields a copy of the input |
| AudioEdit.SpliceChannel | AudioStudio.tsx:539-546 | the per-channel cut loop body builds exactly `Spliced` |
| AudioEdit.CopyChannel | AudioStudio.tsx:555-557 | the per-channel copy builds exactly the samples [s, e) |
| AudioEdit.InsertChannel | AudioStudio.tsx:566-571 | the per-channel paste builds exactly before + clip + after |
| AudioEdit.FadeChannel | AudioStudio.tsx:609-617 | the fade loop builds exactly `Faded` |
| AudioEdit.ReverseChannel | AudioStudio.tsx:642-650 | the reverse loop builds exactly `ReversedSpan` over the clamped view |
| AudioEdit.EditedBuffer | AudioStudio.tsx:538-546 | the new buffer has as many channels, the same rate, the edited length, and each channel edited |
| AudioEdit.EditChannel | AudioStudio.tsx:538-653 | each command's channel loop yields its `Edited` channel |
| AudioEdit.EditChannels | AudioStudio.tsx:538-546 | the loop over `numberOfChannels` yields exactly `EditedBuffer` |
| AudioEdit.PastedBuffer | AudioStudio.tsx:561-575 | the pasted buffer has lengths added and channel i of the clip inserted into channel i |
| AudioEdit.PasteChannels | AudioStudio.tsx:566-573 | the paste loop over channels yields exactly `PastedBuffer` |
| AudioEdit.CopyIsSpan | AudioStudio.tsx:549-560 | copy and trim give exactly the samples [s, e) of every channel, and nothing when the span is empty |
| AudioEdit.CutRemovesSpan | AudioStudio.tsx:533-548 | a cut keeps what lies before and after the span in every channel and is refused only when it would remove everything |
| AudioEdit.CutThenPasteRestores | AudioStudio.tsx:533-575 | cut followed by paste at the start of the cut restores the buffer |
| AudioEdit.CutPastEndAppendsSilence | AudioStudio.tsx:533-548 | as written, cutting a selection past the end lengthens one sample of audio to three |
| AudioEdit.IntendedCutShortens | AudioStudio.tsx:533-548 | corrected: a cut always removes one non-empty span and so shortens the audio, and agrees with the written cut when the selection meets the audio |
| AudioEdit.PasteOutcome | AudioStudio.tsx:561-575 | the paste succeeds exactly when the cursor's sample lies within the audio and the clipboard has every channel, adding the clipboard's length |
| AudioEdit.PasteInsertsClip | AudioStudio.tsx:561-575 | pasting at a cursor inside the audio puts each clipboard channel between the samples before and after the cursor |
| AudioEdit.InPlaceKeepsOutside | AudioStudio.tsx:604-653 | fades and reverse keep the length and every sample outside the span |
| AudioEdit.ReverseSelectionTwice | AudioStudio.tsx:638-653 | reversing the same selection twice restores the buffer |
| AudioEdit.AudioEditor.constructor | AudioStudio.tsx:449-465 | a loaded track starts with no selection, no clipboard and the cursor at 0 |
| AudioEdit.AudioEditor.MouseDown | AudioStudio.tsx:795-806 | a shift-click with a selection moves its end; any other click starts an empty selection and moves the cursor |
| AudioEdit.AudioEditor.MouseMove | AudioStudio.tsx:807-817 | a drag moves the selection end and the cursor, and does nothing without a selection |
| AudioEdit.AudioEditor.UpdateMainBuffer | AudioStudio.tsx:525-532 | the new buffer replaces the old, the seek time is recorded, the selection is dropped |
| AudioEdit.AudioEditor.Copy | AudioStudio.tsx:549-560 | the clipboard becomes `CopyOutcome` when there is one, else stays; nothing else changes |
| AudioEdit.AudioEditor.Delete | AudioStudio.tsx:577-591 | the buffer becomes `CutOutcome` with playback at the range start, or nothing changes |
| AudioEdit.AudioEditor.Cut | AudioStudio.tsx:533-548 | copy then delete: the clipboard is set even when the removal is refused |
| AudioEdit.AudioEditor.Trim | AudioStudio.tsx:592-603 | the buffer becomes the span with playback at 0, or nothing changes |
| AudioEdit.AudioEditor.InPlace | AudioStudio.tsx:604-653 | with a selection the buffer is rebuilt by the fade or reverse and playback resumes at the range start |
| AudioEdit.AudioEditor.Paste | AudioStudio.tsx:561-575 | the buffer becomes `PasteOutcome` at the cursor; `thrown` exactly when `set` or a channel read would throw, and then nothing changes |
| AudioMixer.InitialSettings | AudioStudio.tsx:169-184 | the mount settings have a ten-band EQ and loudness off |
| AudioMixer.Capture | AudioStudio.tsx:237-248 | the recorded loudness is 1 when on and 0 when off |
| AudioMixer.Restore | AudioStudio.tsx:266-281 | `!!prev.loudness`: loudness is on iff the stored number is not 0 |
| AudioMixer.CaptureRestoreRoundTrip | AudioStudio.tsx:237-281 | restoring a recorded state gives the settings back; recording a restored entry gives it back iff its loudness was 0 or 1 |
| AudioMixer.Preset | AudioStudio.tsx:107-114 | every named preset has ten gains, and any other name has none |
| AudioMixer.PresetsWithinSliderRange | AudioStudio.tsx:1176-1177 | every preset gain lies within the sliders' -12..12 dB |
| AudioMixer.Mixer.constructor | AudioStudio.tsx:259-264 | on mount the empty history records the initial settings at cursor 0 |
| AudioMixer.Mixer.PushToHistory | AudioStudio.tsx:236-257 | the history becomes the push of the captured live settings under the 20-entry limit |
| AudioMixer.Mixer.ApplyPreset | AudioStudio.tsx:832 | a known preset records the old settings, then replaces the EQ gains; an unknown name changes nothing |
| AudioMixer.Mixer.SetEqBand | AudioStudio.tsx:833 | one band changes and nothing else |
| AudioMixer.Mixer.Undo | AudioStudio.tsx:266-281 | with the cursor above 0 the settings are restored from the entry below it; otherwise nothing changes |
| AudioMixer.Mixer.Redo | AudioStudio.tsx:283-298 | with an entry above the cursor the settings are restored from it; otherwise nothing changes |
| AudioMixer.PresetUndoSkipsState | AudioStudio.tsx:832 | as written, after two presets one undo returns to the settings before the first preset |
| AudioMixer.BandLink | AudioStudio.tsx:690 | the edge into EQ band i comes from the bass boost or the band before |
| AudioMixer.BandLinksStep | AudioStudio.tsx:690 | one more band adds exactly its own link |
| AudioMixer.ConnectNodes | AudioStudio.tsx:687-699 | the connections made are exactly `Wiring`: the serial chain, each enabled send, master to analyser and destination |
| AudioMixer.ChainEdgeShape | AudioStudio.tsx:687-693 | the serial chain joins chain nodes only, and only the compressor feeds the master gain within it |
| AudioMixer.SendWiredIff | AudioStudio.tsx:694-696 | each send's three edges are wired exactly when its level is above 0 |
| AudioMixer.EqBandsInSeries | AudioStudio.tsx:689-691 | the EQ bands form a path in band order from the bass boost to loudness |
| AudioMixer.MasterInputs | AudioStudio.tsx:693-696 | the master gain is fed only by the compressor and the send returns |
| AudioMixer.NextStep | AudioStudio.tsx:850-852 | a tick yields a step in [0, 16) |
| AudioMixer.StepAfterIsModular | AudioStudio.tsx:850-852 | n ticks from step p land on (p + n) mod 16 |
| AudioMixer.StepCycle | AudioStudio.tsx:850-852 | the sequencer is back at its start step iff the number of ticks is a multiple of 16 |
| ImageColor.HexDigit | ImageStudio.tsx:778 | `toString(16)` writes a lower-case hexadecimal digit |
| ImageColor.DigitValue | ImageStudio.tsx:778 | a character has a digit value exactly when it is a lower-case hexadecimal digit, and that digit writes it |
| ImageColor.DigitValueOfHexDigit | ImageStudio.tsx:778 | reading a written digit gives its value |
| ImageColor.ToHex | ImageStudio.tsx:778 | `toString(16)` gives at least one digit and only hexadecimal digits |
| ImageColor.ToHexRoundTrip | ImageStudio.tsx:778 | the digits `toString(16)` writes read back as the number |
| ImageColor.ToHexLength | ImageStudio.tsx:778 | a number is written in at most two digits iff it is below 256 |
| ImageColor.PadTwo | ImageStudio.tsx:778 | `padStart(2, '0')` yields at least two characters and leaves longer strings alone |
| ImageColor.ChannelDigits | ImageStudio.tsx:778 | each byte becomes exactly two digits worth the byte |
| ImageColor.PairOfChannel | ImageStudio.tsx:778 | the two digits a channel became read back as the channel |
| ImageColor.RgbToHexRoundTrip | ImageStudio.tsx:778-805 | the picked colour is `#` plus six lower-case digits and parses as a `#rrggbb` colour back to the pixel's bytes |
| ImageColor.RgbToHexInjective | ImageStudio.tsx:778 | different pixels never give the same colour string |
| ImageColor.ClampToByte | ImageStudio.tsx:666-668 | a `Uint8ClampedArray` store clamps to 0 and 255 and rounds to within half of the value |
| ImageColor.ClampToByteOfByte | ImageStudio.tsx:666-668 | storing a byte value stores that byte |
| ImageColor.Adjusted | ImageStudio.tsx:657-670 | the adjusted buffer keeps its length |
| ImageColor.AdjustedAt | ImageStudio.tsx:665-669 | colour bytes are scaled by their slider and alpha bytes copied |
| ImageColor.MultiplyChannels | ImageStudio.tsx:657-670 | with a slider off 100% the buffer becomes `Adjusted` of the old one, otherwise it is untouched |
| ImageColor.MultiplyPixels | ImageStudio.tsx:661-669 | the loop in steps of 4 turns the buffer into exactly `Adjusted` of the old one |
| ImageColor.ScalePixel | ImageStudio.tsx:666-668 | the loop body fixes the four bytes of one pixel and changes no other byte |
| ImageColor.PixelTargets | ImageStudio.tsx:666-668 | the red, green and blue bytes of a pixel get their own multiplier and alpha is kept |
| ImageColor.AllAtHundredIsIdentity | ImageStudio.tsx:657 | every slider at 100% leaves the buffer unchanged, so skipping the pass then changes nothing |
| ImageColor.ChannelEffects | ImageStudio.tsx:657-670 | alpha is never touched; 0% blacks a channel out, 100% keeps it, below 100% never brightens it |
| ImageColor.ScaledEffects | ImageStudio.tsx:666-668 | a gain of 0 gives 0, of 1 keeps the byte, between them never raises it |
| ImageColor.ClampNoBrighter | ImageStudio.tsx:666-668 | storing a value no larger than a byte stores no more than that byte |
| ImageGeometry.ToPixels | ImageStudio.tsx:479-485 | inches scale by the dpi, and pixels or any unknown unit are kept as they are |
| ImageGeometry.UnitsAgree | ImageStudio.tsx:479-485 | 10 mm convert like 1 cm, 25.4 mm and 2.54 cm like 1 inch |
| ImageGeometry.ToPixelsLinear | ImageStudio.tsx:479-485 | the conversion is additive in the value for every unit |
| ImageGeometry.ResizeKeepsWholePixels | ImageStudio.tsx:488-492 | a whole number of pixels given in pixels is resized to exactly that number |
| ImageGeometry.PassportTemplate | ImageStudio.tsx:19-26 | every template has positive pixel dimensions and a crop ratio in (0.7, 1] |
| ImageGeometry.CanadaTemplateStretches | ImageStudio.tsx:19-26 | as written, US is undistorted and the 35x45 mm templates stretch under 2%, but Canada's crop is stretched by more than 9% |
| ImageGeometry.ExactTemplate | ImageStudio.tsx:19-26 | corrected table: same keys and pixel sizes, with the ratio the pixel sizes imply |
| ImageGeometry.ExactTemplateUndistorted | ImageStudio.tsx:19-26 | corrected: cropping then resizing keeps proportions for every template |
| ImageGeometry.CentreCropFits | ImageStudio.tsx:566-579 | the crop has the template's ratio, spans the image in one direction, lies inside it and is centred |
| ImageGeometry.RoundedSpanInside | ImageStudio.tsx:581-586 | rounding the centred offset and size never reaches past the image edge |
| ImageGeometry.RoundedCrop | ImageStudio.tsx:581-586 | the rounded crop lies inside the image |
| ImageGeometry.ApplyPassportTemplate | ImageStudio.tsx:553-591 | a template sets the resize target to its pixel size and, exactly when an image is loaded, the rounded centre crop at the table's own ratio, which lies inside the image |
| ImageGeometry.ApplyPassportTemplateIntended | ImageStudio.tsx:553-591 | corrected: the same resize target, with the rounded centre crop at the pixel size's own ratio, inside the image |
| ImageGeometry.SquareImageCrops | ImageStudio.tsx:569-587 | on a 1000 x 1000 image the 35x45 mm template crops 770 pixels wide at offset 115 as written and 778 at 111 as corrected |
| ImageGeometry.AbsR | ImageStudio.tsx:954-955 | `Math.abs` is non-negative and equals the value or its negation |
| ImageGeometry.Normalized | ImageStudio.tsx:950-957 | the normalised selection has non-negative width and height |
| ImageGeometry.NormalizedCoversDrag | ImageStudio.tsx:950-957 | the normalised rectangle covers exactly the points of the dragged one, and normalising is idempotent |
| ImageGeometry.OverlayFitBounds | ImageStudio.tsx:457-469 | the overlay fills 80% of the canvas in one direction and at most 80% in the other, keeps its aspect ratio and is centred |
| PdfTools.LowerChar | PdfStudio.tsx:43 | `toLowerCase` on a character leaves no upper-case ASCII letter |
| PdfTools.Lower | PdfStudio.tsx:43 | `toLowerCase` keeps the length and lowers each character |
| PdfTools.IsPdfIgnoresCase | PdfStudio.tsx:43 | a file is a PDF iff its MIME type says so or its name ends in `.pdf` in any letter case |
| PdfTools.UpperCasePdfAccepted | PdfStudio.tsx:149 | `REPORT.PDF` passes the PDF check |
| PdfTools.OfficeCheckIsCaseSensitive | PdfStudio.tsx:141-146 | `REPORT.DOCX` fails the office check, which tests the name as it is |
| PdfTools.LowerCaseOfficeAccepted | PdfStudio.tsx:141-146 | `report.docx` passes the office check |
| PdfTools.Accepted | PdfStudio.tsx:139-150 | the filter never lengthens the list |
| PdfTools.AcceptedKeepsExactly | PdfStudio.tsx:139-150 | the filtered list holds exactly the picked files the tool accepts |
| PdfTools.AcceptedFirst | PdfStudio.tsx:156 | the first file of the filtered list is the first accepted pick |
| PdfTools.PickPdf | PdfStudio.tsx:40-60 | an accepted pick replaces the file and clears result and progress; anything else changes nothing and the upload, unlike the drop, alerts |
| PdfTools.PickKeepsPdf | PdfStudio.tsx:40-60 | the compress tab only ever holds a PDF |
| PdfTools.LevelFactor | PdfStudio.tsx:98 | each compression level reduces the size by a factor strictly between 0 and 1 |
| PdfTools.SmallFileGrows | PdfStudio.tsx:95 | as written, a 500-byte file with a 1 KB target is reported as 1024 bytes |
| PdfTools.CompressedSizeBounds | PdfStudio.tsx:86-106 | corrected: the reported size never exceeds the original, meets a target between 1 KB and the original, keeps the 1 KB floor for files of at least 1 KB, and agrees with the written one for such files |
| PdfTools.CompressedSizeAsWrittenBounds | PdfStudio.tsx:86-96 | as written: never negative, at least 1024 with a positive target, exactly 1024 for a file under 1 KB, no larger than a file of at least 1 KB, and a target between 1 KB and the original met to the byte |
| PdfTools.Compress | PdfStudio.tsx:70-119 | without a file nothing happens; otherwise progress is 100 and the result holds the original size and the written rule's size: at least 1024 with a positive target (exactly 1024 for a file under 1 KB), the target rounded down when it lies between 1 KB and the original, the level's share rounded down without a target, and for files of at least 1 KB no larger than the original and equal to the corrected size |
| PdfTools.CompressIntended | PdfStudio.tsx:70-119 | corrected handler: the reported size never exceeds the original, and for files of at least 1 KB it reports what the written handler does |
| PdfTools.UnitIndexBrackets | PdfStudio.tsx:66 | the unit index i satisfies 1024^i <= bytes < 1024^(i+1) |
| PdfTools.FormatSizeInRange | PdfStudio.tsx:62-68 | a size under 1024^4 is shown in the largest unit it reaches, as a figure in [1, 1024) |
| PdfTools.ToolUpload | PdfStudio.tsx:135-164 | accepted files are appended or the first replaces the list, clearing result, progress and OCR text; none accepted changes nothing and alerts |
| PdfTools.ToolUploadKeepsAccepted | PdfStudio.tsx:135-164 | every file a tool holds passes its filter, and an upload keeps that so |
| PdfTools.WithoutIndexSpec | PdfStudio.tsx:249-251 | the index filter drops exactly the element at the index, or nothing when the index is outside |
| PdfTools.RemoveToolFileDropsOne | PdfStudio.tsx:249-251 | `removeToolFile` drops exactly one file, keeps the others' order and the tool |
| PdfTools.ResetDisablesProcess | PdfStudio.tsx:253-262 | after a reset the process button is disabled, a second reset changes nothing, and removing the only file disables it |
| PdfTools.UploadEnablesProcess | PdfStudio.tsx:653-657 | an accepted upload enables the button for every tool that needs neither a range nor a password |
| Knob.KnobValue | Shared.tsx:97-134 | the dragged value always lies within [min, max] (at max for an inverted range) |
| Knob.SnapIsNearestMultiple | Shared.tsx:109-110 | snapping lands on a whole multiple of the step at most half a step away |
| Knob.SnapMonotone | Shared.tsx:109-110 | snapping keeps order |
| Knob.KnobMonotone | Shared.tsx:97-118 | dragging further up never lowers the value |
| Knob.ClickKeepsValue | Shared.tsx:120-151 | a click without movement keeps a value already on the grid |
| Knob.Percentage | Shared.tsx:165 | the gauge fraction lies in [0, 1], and is NaN exactly for an empty range at its own value |
| Knob.PercentageOfRange | Shared.tsx:165 | inside a proper range the fraction is the value's position in the range |
| Knob.CurrentAngle | Shared.tsx:166 | the needle angle lies between 135 and 405 degrees |
| Knob.ArcFlags | Shared.tsx:176-188 | the track takes the large arc, and the value arc takes it iff the value is past two thirds of the range |
| Numeric.Round | ImageStudio.tsx:490-491 | `Math.round` gives the integer within half of the value, halves rounding up |
| Numeric.Trunc | AudioStudio.tsx:53 | the conversion `setInt16` applies truncates toward zero |

## Left out

- The calls to the hosted AI model in `geminiService.ts` (speech, image and storyboard generation, AI mastering): network I/O. Only the deterministic processing of their results is modelled (`VideoHelpers.Base64ToWav`, `VideoHelpers.StoryboardTimestamp`). Base64 decoding itself (`atob`) is left out; the model starts from the decoded bytes.
- Canvas drawing is left out because it is platform drawing with no statable output. This covers `ctx.filter` strings, `drawImage`, text, vignette, scanlines, pixelate and textures. `drawFrame` is modelled only through the opacity and activity tests.
- The randomised effects are left out because they depend on `Math.random`: noise, glitch slices, the `shake` preset, the reverb impulse response, brush jitter and the drum noise bursts.
- Web Audio's signal processing is left out (biquads, compressor, convolver, delay, offline rendering, oscillators, the drum voices). Only which nodes `connectNodes` connects is modelled.
- Export, capture and persistence are left out: MediaRecorder, `captureStream`, microphone recording, `decodeAudioData`, `toDataURL`, Blob and object URLs, localStorage and JSON project import/export.
- Timer-driven code is left out: the sequencer's `setInterval` (only its step `(prev + 1) % 16` is modelled), the randomised PDF progress simulation, and the mock outputs of `handleToolProcess`.
- The 3D viewport and every Shared.tsx component other than the `Knob` arithmetic are left out, being UI only.
- Floating point is left out: numbers are exact reals. `toFixed`, `parseFloat` and `Math.log` are not modelled, and neither are NaN or Infinity except where the knob's gauge divides by an empty range. `formatSize` computes its unit index from the integer bracket that `Math.floor(Math.log(bytes) / Math.log(1024))` stands for.
- AudioWav.CreateWavBlob: the input samples are exact reals, not 32-bit floats.
- Keyframes.SortByTime: `Array.prototype.sort` is modelled as a stable sort by time. Its comparator returns a real difference, and the sort is given as an insertion sort.
- `toLowerCase` is modelled on ASCII letters only; Unicode case mapping is left out.
- VideoTimeline.LayerOpacity: transitions of duration 0 (which divide by zero in the source) are excluded by the precondition `NonZeroDurations`. `addTransition` never creates one, because its duration `Math.min(1, duration || 120)` is positive for a positive layer duration.
- VideoSession: the history snapshot holds the layers and transitions only. The video adjustments and visual effects stored beside them are left out, since no modelled operation reads them.
- ImageGeometry.ApplyPassportTemplate: the template select only offers the table's keys, so a key outside the table is modelled as doing nothing (the source would throw reading `t.w`).
- VideoSession.VideoEditor.Paste: `handlePaste` calls `pushToHistory` twice from the same render. Both calls see the same history and cursor, so the model records a single push.
- AudioEdit: a selection's click times are never negative, because the mouse handlers compute them from non-negative sample offsets. The model takes that as given (`Selectable`).

## Findings

| source | as written | input that shows it | evidently intended | confidence | as-written member | corrected member |
|---|---|---|---|---|---|---|
| VideoStudio.tsx:556-572 | `calculateLayerOpacity` interpolates every keyframe of the layer, whatever its `property` | a fully opaque layer with the slide-left preset (x keyframes 1.2 at 0 s, 0.5 at 1 s): at 2 s its opacity is 0.5 | only opacity keyframes scale the opacity | high, not executed | VideoTimeline.SlideLeftDimsLayer | VideoTimeline.OtherPropertiesIgnored |
| VideoStudio.tsx:251-254 | `updateLayers` pushes the state from *before* the edit, so the cursor names the previous state; the audio mixer's `applyPreset` (AudioStudio.tsx:832) does the same, see `AudioMixer.PresetUndoSkipsState` | mount at s0, then edit to s1 and to s2: the history is [s0, s0, s1], undo loads s0, and s2 is lost | push the state after each edit, so undo goes back one edit | high, not executed | VideoSession.UndoAfterTwoEditsSkipsState | VideoSession.CommitThenUndoRestores |
| PdfStudio.tsx:95 | `Math.max(1024, Math.min(targetBytes, size))` applies the 1 KB floor after the cap at the original size | a 500-byte PDF with a target of 1 KB is reported as compressed to 1024 bytes | the comment's "compression shouldn't grow": cap at the original last | high, not executed | PdfTools.SmallFileGrows | PdfTools.CompressedSizeBounds |
| VideoStudio.tsx:256-273 | 'up' requires `index > 0`, so the first layer cannot move up, although its button is enabled (VideoStudio.tsx:1437-1438) | two layers, 'up' on index 0: nothing happens | 'up' swaps with the next layer whenever there is one | high, not executed | VideoEdits.UpAtBottomIsNoOp | VideoEdits.IntendedMovesInvert |
| AudioStudio.tsx:60-72 | with more than two channels the header announces every channel but only channel 0's samples are written | three channels of one frame: the header says 6-byte frames and the data holds 2 bytes | all channels interleaved | medium, not executed | AudioWav.SurroundHeaderMismatch | AudioWav.IntendedDataIsWholeFrames |
| AudioStudio.tsx:533-548 | a range lying past the end of the audio has start > end, and `length - (end - start)` exceeds the length | one sample at rate 1, selection 3 s to 4 s: the cut leaves three samples, two of them silence | a cut of an empty span does nothing | medium, not executed | AudioEdit.CutPastEndAppendsSilence | AudioEdit.IntendedCutShortens |
| ImageStudio.tsx:19-26 | the Canada template crops at ratio 0.71 and then resizes to 420 x 540 (ratio 0.78) | any image with the Canada template: the crop is stretched horizontally by more than 9% | a crop ratio equal to the output's own width over height | medium, not executed | ImageGeometry.CanadaTemplateStretches | ImageGeometry.ExactTemplateUndistorted |
| ImageStudio.tsx:384-404 | undo and redo paste the snapshot with `putImageData`, which does not resize the canvas | load a 100 x 100 picture, resize it to 50 x 50, undo: the canvas stays 50 x 50 and shows the old picture's top-left quarter | size the canvas to the snapshot before pasting it | medium, not executed | ImageSession.UndoAfterResizeKeepsSize | ImageSession.IntendedUndoRestores |

The as-written members model the code as it is, and the handlers use them. The corrections stand beside the faithful model as separate definitions:
- `VideoSession.CommitEdit`;
- `VideoTimeline.IntendedLayerOpacity`;
- `VideoEdits.IntendedMoveTarget`;
- `AudioWav.AudioBufferToWavIntended`;
- `AudioEdit.IntendedCutOutcome`;
- `PdfTools.CompressIntended`;
- `ImageGeometry.ApplyPassportTemplateIntended`;
- `ImageSession.RestoreIntended`.
