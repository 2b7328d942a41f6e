# The piano-roll editor of ksx studio, and the protocols that drive it

This project models the macro editor of the mapper page (`studio-ui/src/MapIsland.ts`), the write and undo layer
over the daemon (`studio-ui/src/map.ts`, `crates/ksx-api/src/control.rs`), the learn flow, the toast stack, and the
live echo of the button check (`studio-ui/src/check.ts`), and proves what they keep.

- **The diagonal lens** (`Names`, `AxisNames`, `Fold`, `FoldOrder`, `Lens`, `ShapeReport`, `Grid`, `Matrix`,
  `PageMatrix`, `PadTables`, `Motions`). A step stores a list of function names, in any spelling, with duplicates and
  contradictions. `fold` presents a vertical and a horizontal direction of one mechanism as one diagonal without
  changing what is stored, and a click edits the list through the same `fold` that painted the cell.
- **The draft** (`Macros`, `Timing`, `Draft`, `DraftInvariant`, `DraftIsolation`, `DraftEvents`, `DraftSeeds`,
  `DraftRows`, `DraftPolls`, `Editor`). `Draft` is the state machine over step *identities*; `MacroEditor.Editor` is
  the page's module state, with step objects on the heap, and each of its methods is the event of that name. What each
  event does to the rows is in `DraftEvents` and `DraftSeeds`; everything about runs is proved of the machine. A
  payload may hold whatever a preset file says, steps with two units, none, or no positive time included; only the
  invariant that every row has one positive time asks that the file has it too.
- **Protocols across awaits** (`Learn`, `Toasts`, `ToastEvents`, `ToastPage`). Requests and timeouts in flight are
  part of the state; the lemmas hold for every interleaving.
- **Writes a daemon may refuse** (`Bindings`, `MacroStore`). Which calls are taken is an arbitrary function of the
  call's number; a refused call changes nothing.
- **Text and time** (`Toml`, `Timing`), and **the live echo** (`LiveEcho`).

A class is a record of page variables the page updates in place; its `Now()` (or `Flashing()`) is the state of the
machine beside it, every method says which step of that machine it is, and what such a step does is proved of the
machine.

## What turned out not to hold as one would say it

Each of these is the code's own behaviour, stated with the exact condition under which the promise is kept.

- A duration strictly between 0 and one half passes the guard of `macroSetDurationAt`, which looks before rounding,
  and is stored as 0 (`DraftInvariant.EventKeepsIff`, `DraftInvariant.QuarterIsStoredAsZero`).
- `macroSetUnitAt`, asked for milliseconds on a row that has no duration and is in milliseconds already, gives the row
  17 ms without counting it as an edit (`DraftPolls.StandingQuestionMeansNoEdit`, `DraftPolls.UnitFillsSilently`). The
  page's only caller always asks for the other unit, which is an edit (`DraftPolls.ToggleDropsQuestion`), so it does not
  happen there (`DraftPolls.QuestionOutlivesNoEdit`).
- Inserting a row into a draft without rows and deleting it again leaves the row, emptied
  (`DraftRows.InsertThenDelete`).
- The hit branch of `pollLearn` does not start a new generation, so a second poll of the same generation still in
  flight can write again (`Learn.SecondWriteIff`, `Learn.OverlappingPollsWriteTwice`).
- A start request that throws clears the armed controls without looking at the generation, and so ends a newer arm
  (`Learn.ThrownStartEndsCurrentArm`, `Learn.ThrownStartKillsSecondArm`).
- A group undo brings keys back, not auto-fire rates and not chords: clearing a control drops its rate, every write of a
  control, the undo's own included, drops its guarded rows, and no undo writes either again (`Bindings.GroupUndo`,
  `Bindings.ClearThenUndoLosesTheRate`, `Bindings.MapThenUndoLosesTheChord`).
- A macro write carries no `enabled`, which means enabled, and of a rate spelled both ways only the presses per
  second; a trigger write carries no guard and names each key once. So saving or renaming a macro that is switched off
  switches it on, and no undo brings back the switch, a gap beside a rate, or a guarded or repeated trigger, all of
  which a hand-written file may hold and the page shows or passes over (`MacroStore.FullRename`,
  `MacroStore.RenameThenUndo`, `MacroStore.SaveThenUndo`, `MacroStore.DeleteThenUndo`, `MacroStore.RenameSwitchesOn`,
  `MacroStore.DeleteThenUndoLosesTheGap`). The delete toast says "exactly as it was".
- `tomlStr` escapes the backslash, the quote and the newline; TOML v1.0.0, section String, also forbids other control
  characters in a basic string, and those are printed as they are (`Toml.TomlReadsBackIff`,
  `Toml.CarriageReturnIsRefused`).
- A click on a direction that is held twice leaves its cell lit (`Lens.NameClickEffect`).
- A diagonal coalesced from two mechanisms is marked approximate on both when either is (`Matrix.ApproxMeans`).
- The guard against an empty cycle in `turboMath` never fires: a cycle is at least 33 ms (`Timing.MacroRateIsCapped`).
- The readers of `map` requests drop blank key names, so a list with one in it does not arrive as it was sent
  (`Bindings.WireKeepsTheList`).

## Model

| member | source | states |
|---|---|---|
| Names.CanonicalPoints | studio-ui/src/MapIsland.ts:2431-2440 | the canonical spelling of a direction points where it says, at full deflection |
| Names.PointsOnItsPrefix | studio-ui/src/MapIsland.ts:2398-2404 | a name that points anywhere, hand-written ones too, belongs to the mechanism its prefix names |
| AxisNames.DeflectionPoints | studio-ui/src/MapIsland.ts:2531-2570 | a stick direction written in digits points by its sign, at full deflection from 32767 on; a centred or impossible one points nowhere |
| Names.DiagTokenRoundTrip | studio-ui/src/MapIsland.ts:2662-2672 | the token of a diagonal cell reads back as that mechanism and diagonal |
| Names.DirectionIsNoPick | studio-ui/src/MapIsland.ts:2531-2672 | no name that points anywhere can be taken for a diagonal's token |
| Fold.FoldHold | studio-ui/src/MapIsland.ts:2604-2657 | the page's bucket-by-bucket computation gives the presentation the lemmas are about |
| Fold.FoldPartitions | studio-ui/src/MapIsland.ts:2604-2657 | every entry of a hold is in exactly one presented control, and no control names an entry that is not there |
| Fold.LitIff | studio-ui/src/MapIsland.ts:2604-2657 | a mechanism is shown under a diagonal exactly when it is held on both axes and every direction it holds has the diagonal's sign on its axis |
| Fold.FoldIgnoresOrder | studio-ui/src/MapIsland.ts:2604-2657 | the (mechanism, diagonal) pairs shown do not depend on the order of the hold |
| FoldOrder.PresentedInOrder | studio-ui/src/MapIsland.ts:2604-2657 | what is presented stands in one order: the diagonals from up-left to down-right, their mechanisms from d-pad to right stick, then the rest as held |
| Lens.PaintEqualsClick | studio-ui/src/MapIsland.ts:2184-2240 | a diagonal is lit exactly when clicking it clears it; ticking leaves just the canonical pair there and lights that diagonal alone, unticking leaves nothing there, and every other entry keeps its place and presentation |
| Lens.PickTwice | studio-ui/src/MapIsland.ts:2184-2240 | two clicks on a diagonal restore the hold exactly when the mechanism held nothing, or just the canonical pair written last |
| Lens.NameClickEffect | studio-ui/src/MapIsland.ts:2242-2258 | a click on another column flips its cell unless there were several matches, takes out at most the first match, and keeps everything else in order |
| Lens.NameClickExactly | studio-ui/src/MapIsland.ts:2242-2258 | to the letter: the first match goes and the rest close up, or the name joins at the end |
| Lens.NameClickTwice | studio-ui/src/MapIsland.ts:2242-2258 | from an unlit cell two clicks restore the hold |
| Lens.DirectionClickIsLocal | studio-ui/src/MapIsland.ts:2242-2256 | a click on a direction can change the shape of its own mechanism only |
| ShapeReport.ReportShapeChange | studio-ui/src/MapIsland.ts:2279-2320 | walking both tables gives the report the lemmas are about |
| ShapeReport.TableIsShape | studio-ui/src/MapIsland.ts:2279-2320 | the table read off the presentation is the mechanism-to-diagonal map of the hold |
| ShapeReport.ReportSays | studio-ui/src/MapIsland.ts:2279-2320 | exactly which diagonals are reported made, with the names that make them, and which lost, with what is left |
| ShapeReport.SilentIffSameShape | studio-ui/src/MapIsland.ts:2279-2320 | nothing is reported exactly when every mechanism is shown as before |
| ShapeReport.NameClickReportsLocally | studio-ui/src/MapIsland.ts:2242-2256 | a click on a direction reports on its own mechanism only, a click on a button reports nothing |
| Grid.Columns | studio-ui/src/MapIsland.ts:2707-2778 | the loop over the zones with its set of mechanisms already rung emits the columns the lemmas are about, each under its control's or mechanism's band |
| Grid.ColumnsDistinct | studio-ui/src/MapIsland.ts:2721-2778 | column tokens are pairwise distinct for any zone table with distinct names, so each ring stands once |
| Grid.RingAtFirstZone | studio-ui/src/MapIsland.ts:2721-2778 | a mechanism's whole ring stands where its first zone is |
| Grid.PlainZonesKeepOrder | studio-ui/src/MapIsland.ts:2721-2778 | controls that are no direction keep a column of their own, in the table's order |
| Grid.Groups | studio-ui/src/MapIsland.ts:3217-3227 | expanding the group band gives back the bands of the columns it was handed, with adjacent labels different and no empty run |
| Grid.MacroGroups | studio-ui/src/MapIsland.ts:2707-2778 | the group band of the page's own columns spells out, column by column, the band of the control or mechanism the column belongs to |
| Grid.BandUnique | studio-ui/src/MapIsland.ts:3217-3227 | no other band with adjacent labels different expands to the same columns |
| Grid.RingWalksTheGate | studio-ui/src/MapIsland.ts:2679-2700 | a ring reads 8 7 4 1 2 3 6 9 on a number pad |
| PadTables.TableColumns | studio-ui/src/MapIsland.ts:412-468 | either pad's table gives thirty-seven columns, the rings of all three mechanisms among them |
| PadTables.TableBands | studio-ui/src/MapIsland.ts:2707-2719 | over either pad the group band is shoulders, face, system, left stick, d-pad, right stick, and nothing else is |
| PadTables.PadHidesNothing | studio-ui/src/MapIsland.ts:3367-3436 | on either pad whatever direction a step holds, in whatever spelling, lights a cell of its row |
| Matrix.CellsFor | studio-ui/src/MapIsland.ts:3367-3436 | the matrix filled row by row from the view of each step holds, cell by cell, what the lemmas are about |
| Matrix.RowMajor | studio-ui/src/MapIsland.ts:3367-3436 | cell i * columns + j is step i, column j |
| PageMatrix.OneColumnEach | studio-ui/src/MapIsland.ts:2721-2778 | each position of a mechanism's ring is a column of the page, and no token is a column twice |
| PageMatrix.MatrixHidesNothing | studio-ui/src/MapIsland.ts:3367-3436 | every direction a step holds, however spelled, has a column in the page's matrix whose cell in that step's row is lit: as part of the diagonal when folded, outright when not |
| PageMatrix.MatrixDirections | studio-ui/src/MapIsland.ts:3367-3436 | in the page's matrix a direction cell is lit exactly when its step holds that direction, and shows what the mechanism's shape says |
| Matrix.DirectionCellsAgree | studio-ui/src/MapIsland.ts:3367-3436 | a direction cell is lit only by an entry that points that way, and all lit ones of a mechanism show the same |
| Matrix.ButtonCellsAgree | studio-ui/src/MapIsland.ts:3400-3410 | the cell of a control that points nowhere is on exactly when the step holds that name, case aside |
| PageMatrix.MatrixButtons | studio-ui/src/MapIsland.ts:3367-3436 | so it is in the page's matrix, where every such control of the pad has a column |
| PageMatrix.MatrixOneDiagonal | studio-ui/src/MapIsland.ts:3367-3436 | in each row of the page's matrix a folded mechanism has exactly one lit diagonal column, the one of its shape, and an unfolded mechanism none |
| Matrix.ApproxMeans | studio-ui/src/MapIsland.ts:3367-3436 | when a diagonal cell is marked approximate |
| Motions.CornersFold | studio-ui/src/MapIsland.ts:2910-2948 | a motion's corner step holds what one click on that diagonal would put there, and shows exactly that diagonal |
| Motions.MotionsAsWritten | studio-ui/src/MapIsland.ts:2860-2880 | each ready-made motion, read on a number pad |
| Motions.StepPoints | studio-ui/src/MapIsland.ts:2910-2948 | a straight step of a motion holds that direction's own name, at full deflection |
| Timing.FramesMsIsNearest | studio-ui/src/MapIsland.ts:1621-1624 | frames to ms is off by at most half a millisecond, and monotone |
| Timing.MsFramesIsNearest | studio-ui/src/MapIsland.ts:3057-3084 | ms to frames is the nearest whole number of frames, and at least one |
| Timing.FramesSurviveToggle | studio-ui/src/MapIsland.ts:3057-3084 | frames to ms to frames is the identity exactly from one frame on |
| Timing.MsToggleMovesLittle | studio-ui/src/MapIsland.ts:3057-3084 | ms to frames to ms moves a duration by at most 8 ms exactly from 9 ms on, and only the first toggle moves it |
| Timing.TotalRespectsFloor | studio-ui/src/MapIsland.ts:1625-1737 | with no step marked allow-short a run lasts at least 33 ms a step, and the plain sum exactly when no step is short |
| Timing.PlayedFor | studio-ui/src/MapIsland.ts:1625-1737 | what a step is played for in either unit, with and without the mark, and with a faulty duration |
| Timing.TotalAdds | studio-ui/src/MapIsland.ts:1625-1737 | a sequence lasts as long as its steps one after another |
| Timing.TurboIsDeliverable | studio-ui/src/MapIsland.ts:909-929 | both halves of a press survive the sampler, add up to the period asked for or two samples, and never beat the clamped request |
| Timing.TurboIsEven | studio-ui/src/MapIsland.ts:909-929 | press and pause share the period evenly, the press taking the odd millisecond, for every rate |
| Timing.CycleIs | studio-ui/src/MapIsland.ts:1810-1854 | a macro's cycle is the period asked for to the nearest millisecond, or run and gap, and never less than run and 33 ms |
| Timing.RatesShown | studio-ui/src/MapIsland.ts:1810-1854 | the rates shown are the nearest to the cycles played |
| Timing.MacroRateIsCapped | studio-ui/src/MapIsland.ts:1810-1854 | a repeating macro's gap survives the sampler and its rate never exceeds the clamped request, after both roundings |
| Timing.LongerRunSlowerRate | studio-ui/src/MapIsland.ts:1810-1854 | a longer sequence never repeats faster |
| DraftInvariant.EventKeepsIff | studio-ui/src/MapIsland.ts:2950-3084 | one event keeps the editor invariant exactly when it is neither a duration between 0 and one half on a row that is there, nor a poll whose payload is itself without one positive time a step |
| DraftInvariant.RunSound | studio-ui/src/MapIsland.ts:2950-3084 | over every run, whatever the payloads say: distinct step objects, none of them a payload's, selection in range, and a question only while a step is short |
| DraftInvariant.RunKeeps | studio-ui/src/MapIsland.ts:2950-3084 | the whole invariant over every run without those two kinds of event: also a step at least, and one positive time each in the unit remembered for it |
| DraftInvariant.DurationSetKeepsIff | studio-ui/src/MapIsland.ts:3033-3055 | exactly which typed durations leave a step with a positive time |
| DraftInvariant.QuarterIsStoredAsZero | studio-ui/src/MapIsland.ts:3033-3055 | a concrete duration that passes the guard and is stored as nothing |
| DraftIsolation.EventTouchesDraftOnly | studio-ui/src/MapIsland.ts:1945-1955 | an event writes only steps of the draft it was made on, and steps it brings in are new objects |
| DraftIsolation.OutsideStepsKeepTheirValue | studio-ui/src/MapIsland.ts:1945-1955 | over whole runs no edit reaches the payload a draft was cloned from |
| DraftIsolation.UndoAfterAnyRun | studio-ui/src/MapIsland.ts:2179-2358 | after a click and any later run its undo either is refused and changes nothing, exactly when that step object has left the draft, as after every re-seed, or sets only that step's hold back |
| DraftEvents.ClickWrites | studio-ui/src/MapIsland.ts:2179-2258 | a click writes its row's hold alone and selects the row: for a diagonal nothing or the canonical pair in place of the mechanism's entries, for a name the first match out or the name in |
| DraftEvents.UndoWrites | studio-ui/src/MapIsland.ts:2346-2358 | an undo writes the hold it is given into its own step, where that now is |
| DraftEvents.InsertPlaces | studio-ui/src/MapIsland.ts:2950-3020 | a new row stands at the end, above or below, 50 ms long and empty, selected |
| DraftEvents.DeleteTakes | studio-ui/src/MapIsland.ts:2950-2986 | a delete takes its row out and selects the next; the only row is emptied and keeps its time |
| DraftEvents.VerbsStop | studio-ui/src/MapIsland.ts:2950-3020 | a verb on a row that is not there, or a move over an end, does nothing |
| DraftEvents.MotionAppends | studio-ui/src/MapIsland.ts:2910-2948 | a motion's steps join at the end in order, 50 ms each, and the first is selected |
| DraftEvents.DurationStores | studio-ui/src/MapIsland.ts:3033-3055 | a typed duration is rounded half up and stored in the unit the row shows |
| DraftEvents.UnitConverts | studio-ui/src/MapIsland.ts:3057-3084 | choosing a unit leaves a time in it alone and converts any other to the nearest |
| DraftEvents.ToggleConverts | studio-ui/src/MapIsland.ts:2990-2997 | the row's toggle chooses the unit it does not show |
| DraftEvents.AllowShortStores | studio-ui/src/MapIsland.ts:3095-3100 | allow-short goes to the selected row and no other |
| DraftEvents.PolicyStores | studio-ui/src/MapIsland.ts:3104-3136 | each policy field takes exactly its own words and touches no other; a turbo without a rate gets ten a second |
| DraftEvents.RateStores | studio-ui/src/MapIsland.ts:3141-3164 | a rate is rounded and replaces the other spelling, a blank clears, a negative one changes nothing |
| DraftEvents.AskingAsks | studio-ui/src/MapIsland.ts:3678-3686 | the question goes up exactly when some row is under 33 ms or a single frame |
| DraftSeeds.SeedByName | studio-ui/src/MapIsland.ts:2074-2106 | a seed by name opens a clean copy of the first macro of that name, whatever was open, or nothing |
| DraftSeeds.SeedByDefault | studio-ui/src/MapIsland.ts:2074-2106 | a seed without a name opens the chosen macro, else the selected one, else the first |
| DraftSeeds.PollSeeds | studio-ui/src/MapIsland.ts:1132-1152 | a poll that finds nobody's hands on the draft stores its payload and seeds |
| DraftSeeds.SlotSeeds | studio-ui/src/MapIsland.ts:747-756 | a slot switch drops draft, choice and unit and seeds from the last payload |
| DraftRows.MovesSwapNeighbours | studio-ui/src/MapIsland.ts:2950-3020 | moving a row up or down swaps it with its neighbour and nothing else, takes the selection along, and either undoes the other |
| DraftRows.InsertThenDelete | studio-ui/src/MapIsland.ts:2950-3020 | a row inserted above or below and deleted again leaves the other values as they were, and the rows exactly when there were any |
| DraftRows.ToggleTwiceKeepsFrames | studio-ui/src/MapIsland.ts:3057-3084 | a row authored in frames survives a toggle to milliseconds and back |
| DraftPolls.StandingQuestionMeansNoEdit | studio-ui/src/MapIsland.ts:2140-2148 | while Save's question stands, over any run, nothing it was asked about has changed, exactly when nobody chose milliseconds for a row that has no duration and is in milliseconds already |
| DraftPolls.QuestionOutlivesNoEdit | studio-ui/src/MapIsland.ts:2140-2148 | over any run of the page's own events, which change a unit only through the toggle, a standing question means nothing it was asked about has changed |
| DraftPolls.ToggleDropsQuestion | studio-ui/src/MapIsland.ts:2987-3084 | the page's own unit toggle is always an edit and takes the question down |
| DraftPolls.UnitFillsSilently | studio-ui/src/MapIsland.ts:3057-3084 | a concrete draft in which such a choice fills in 17 ms while the question stands |
| DraftPolls.BusyPollChangesTriggersOnly | studio-ui/src/MapIsland.ts:1144-1152 | a poll while dirty or focused, with any payload, changes only the draft's triggers |
| DraftPolls.IdlePollClones | studio-ui/src/MapIsland.ts:2074-2106 | any other poll installs a fresh deep copy of the chosen macro and keeps the selection while in range |
| DraftPolls.TwoPollsShowOne | studio-ui/src/MapIsland.ts:1132-1152 | two polls with one payload, whatever is wrong in it, show what one shows |
| MacroEditor.Editor.ToggleCell | studio-ui/src/MapIsland.ts:2179-2258 | a click is the click event, answered as the next row says |
| MacroEditor.AnswerSays | studio-ui/src/MapIsland.ts:2179-2258 | a click is reported exactly when it picks a diagonal or some mechanism is shown otherwise than before, with the step, the hold before it and the shape change |
| MacroEditor.Editor.RestoreHold | studio-ui/src/MapIsland.ts:2346-2358 | an undo addresses the step object and is refused exactly when the draft no longer has it |
| MacroEditor.Editor.SetDurationAt | studio-ui/src/MapIsland.ts:3033-3055 | the event of that name, in the row's own unit |
| MacroEditor.Editor.SetUnitAt | studio-ui/src/MapIsland.ts:3057-3084 | the event of that name: converted, and no edit when it already is that unit |
| MacroEditor.Editor.DoStepVerb | studio-ui/src/MapIsland.ts:2950-3020 | insert, delete, move, select and toggle are the events of those names, and an inserted step is a new object |
| MacroEditor.Editor.AppendMotion | studio-ui/src/MapIsland.ts:2910-2948 | a motion's steps are appended as new objects and the first of them is selected |
| MacroEditor.Editor.ChangePolicyTo | studio-ui/src/MapIsland.ts:3104-3136 | a policy changes to a word it accepts and to no other |
| MacroEditor.Editor.ChangeRateTo | studio-ui/src/MapIsland.ts:3141-3164 | at most one spelling of the rate is kept |
| MacroEditor.Editor.SeedMacro | studio-ui/src/MapIsland.ts:2074-2106 | a seed replaces the draft by new step objects with the file's values |
| MacroEditor.Editor.ApplyMap | studio-ui/src/MapIsland.ts:1132-1152 | a poll is the poll event, and the draft's new steps are not the payload's |
| MacroEditor.Editor.PickSlot | studio-ui/src/MapIsland.ts:747-756 | a slot switch drops the draft and shows the last payload again |
| MacroEditor.Editor.AskAboutShortSteps | studio-ui/src/MapIsland.ts:3678-3686 | Save asks once, and only about short steps |
| Learn.WritesOnlyToTheArmed | studio-ui/src/map.ts:372-475 | in every interleaving a captured key goes only to the controls armed under its poll's generation |
| Learn.NoWriteFromBefore | studio-ui/src/map.ts:421-488 | no poll sent before a cancel or a newer arm ever writes |
| Learn.WriteUsesChosenMode | studio-ui/src/map.ts:440-451 | a hit replaces or adds as last chosen since its arm, replacing unless told to add, and an empty key name is written nowhere |
| Learn.AtMostOneWritePerArm | studio-ui/src/map.ts:421-475 | while polls do not overlap each arm causes at most one write |
| Learn.SecondWriteIff | studio-ui/src/map.ts:440-451 | a second write can follow a hit exactly when another poll of that generation is still in flight |
| Learn.OverlappingPollsWriteTwice | studio-ui/src/map.ts:440-451 | one arm, two polls that name a key, two writes; an empty key name writes nothing |
| Learn.ThrownStartEndsCurrentArm | studio-ui/src/map.ts:414-419 | a thrown start ends the current arm, whichever it is, exactly when no poll of it is in flight |
| Learn.ThrownStartKillsSecondArm | studio-ui/src/map.ts:414-419 | arm, arm again, and the first request's failure ends the second arm |
| Learn.ArmArms | studio-ui/src/map.ts:372-386 | arming nothing does nothing, clicking the one control being recorded cancels, anything else is armed afresh in replace mode |
| Learn.StartBegins | studio-ui/src/map.ts:387-420 | a current start that is answered begins polling or disarms; an old one does neither |
| Learn.TickAsks | studio-ui/src/map.ts:421-430 | a tick polls for the controls armed at that moment, or stops |
| Learn.AnswerEnds | studio-ui/src/map.ts:428-475 | which answers keep the arm, which end it, and which write |
| Learn.KeyIsLearned | studio-ui/src/map.ts:372-475 | arm, listen, poll, press: the key is written once, to the controls armed |
| Learn.Page.StartLearn | studio-ui/src/map.ts:372-386 | arming is the arm event, and clicking the one control being recorded cancels |
| Learn.Page.PollReplied | studio-ui/src/map.ts:428-475 | a poll's answer is the answer event and says what it wrote |
| Toasts.StackIsSound | studio-ui/src/MapIsland.ts:1450-1581 | over every run: three toasts at most, newest first; one timeout for each toast that is not busy and none while held; none outlives its toast; 1.2 to 8 seconds left |
| Toasts.UndoRunsOnce | studio-ui/src/MapIsland.ts:1553-1581 | over every run: an undo is in flight at most once, never again after it succeeded, and a toast is busy exactly while its own undo is in flight |
| Toasts.StackKept | studio-ui/src/MapIsland.ts:1450-1581 | the stack invariant survives every event |
| Toasts.HoldingStopsTheClock | studio-ui/src/MapIsland.ts:1475-1494 | however long the hand stays, releasing gives each toast the time it had, and at least 1.2 s |
| Toasts.FailedUndoCanBeRetried | studio-ui/src/MapIsland.ts:1566-1581 | a failed undo leaves the same undo on its toast, and running it again calls it again |
| ToastEvents.PushShows | studio-ui/src/MapIsland.ts:1499-1517 | a push puts a toast with its undo and eight seconds on top and drops the oldest beyond three |
| ToastEvents.ReplaceShows | studio-ui/src/MapIsland.ts:1521-1534 | a replace rewrites that toast alone: its undo, not busy, eight seconds; without it, a push |
| ToastEvents.DismissTakesOut | studio-ui/src/MapIsland.ts:1536-1542 | a dismiss takes out that toast and its timeout, and closes the gap |
| ToastEvents.TimeoutTakesOut | studio-ui/src/MapIsland.ts:1469-1474 | a timeout takes out the one toast that armed it |
| ToastEvents.UndoBegins | studio-ui/src/MapIsland.ts:1553-1562 | undo sends that toast's own call and stops its clock, or does nothing |
| ToastEvents.AnswerSettles | studio-ui/src/MapIsland.ts:1563-1581 | an answer settles its own toast, which loses its undo exactly on success, and no other |
| ToastEvents.HoldStopsAll | studio-ui/src/MapIsland.ts:1475-1489 | a hold stops every clock at the time left, at least 1.2 s |
| ToastEvents.ReleaseStartsAll | studio-ui/src/MapIsland.ts:1491-1495 | a release starts every clock again but those of toasts whose undo is in flight |
| ToastPage.ToastStack.PushToast | studio-ui/src/MapIsland.ts:1499-1517 | a push is the push event: on top, oldest off the bottom with their timeouts, armed unless held |
| ToastPage.ToastStack.ReplaceToast | studio-ui/src/MapIsland.ts:1521-1534 | a replace is the replace event, in the same toast while it is there and a new one otherwise |
| ToastPage.ToastStack.HoldToasts | studio-ui/src/MapIsland.ts:1485-1489 | the loop over the stack is the hold event |
| ToastPage.ToastStack.ReleaseToasts | studio-ui/src/MapIsland.ts:1491-1495 | the loop over the stack is the release event |
| ToastPage.ToastStack.DismissToast | studio-ui/src/MapIsland.ts:1536-1542 | a dismiss takes out that toast and its timeout |
| ToastPage.ToastStack.RunUndo | studio-ui/src/MapIsland.ts:1553-1562 | an undo starts on a toast that offers one and is not busy, and on no other |
| ToastPage.ToastStack.UndoReplied | studio-ui/src/MapIsland.ts:1563-1581 | what the answer does to the toast it started from, if it is still there |
| Bindings.EditsAgree | studio-ui/src/map.ts:630-690 | adding and removing, the page writes the list the daemon's edit gives, and refuses exactly when that is the list there is |
| Bindings.WithKeyIs | crates/ksx-api/src/control.rs:599-605 | an added key is held, nothing before it moves and nothing is held twice; adding it again in any case changes nothing, and taking it off leaves what taking it off first would |
| Bindings.WithoutKeyIs | crates/ksx-api/src/control.rs:609-614 | taking a key off changes the list exactly when it was there, keeps the rest, and undoes adding |
| Bindings.BuildRequest | crates/ksx-api/src/control.rs:696-721 | which of clear, key and keys a list is sent as |
| Bindings.WireKeepsTheList | crates/ksx-api/src/wire.rs:155-214 | a list survives the wire exactly when no key in it is blank |
| Bindings.ReaderTakesOne | crates/ksx-api/src/wire.rs:155-214 | a request that says exactly one of key, keys and clear is taken, as that; any other is refused |
| Bindings.RowAfterJobs | studio-ui/src/map.ts:768-785 | whichever of the writes for a control are refused, it ends up written when one was taken and untouched when none was |
| Bindings.GroupUndo | studio-ui/src/map.ts:243-266 | whichever writes of a group were refused, an undo taken in full brings every selected control's keys back and touches nothing else; it restores the preset exactly when the page's memory was true, no selected control had a chord, and no rate was lost |
| Bindings.OfferedListsAreKept | studio-ui/src/MapIsland.ts:1254-1256 | where an Undo is offered, the list put back is the remembered one to the key |
| Bindings.UndoableIff | studio-ui/src/map.ts:261-266 | a group undo can be offered exactly when no selected control held several keys |
| Bindings.BlanksDrop | crates/ksx-api/src/wire.rs:155-214 | blank names in a list are dropped, wherever they stand |
| Bindings.FirstsGrow | crates/ksx-backend/src/mapping.rs:1032-1044 | each key is written once, where it first stood |
| Bindings.KeepingIs | studio-ui/src/map.ts:786-792 | what a map-all reports as kept, control by control, in order |
| Bindings.RefusedAre | studio-ui/src/map.ts:768-785 | what is reported as refused, write by write, in order |
| Bindings.UndoCanBeRetried | studio-ui/src/map.ts:243-258 | after an undo refused in part, one that is taken ends where a single one would |
| Bindings.ClearThenUndoLosesTheRate | crates/ksx-backend/src/mapping.rs:777-792 | a concrete cleared control whose undo loses its auto-fire rate |
| Bindings.MapThenUndoLosesTheChord | crates/ksx-backend/src/mapping.rs:722-726 | a concrete control whose chord is gone after the undo, whether or not the group's own write was taken |
| Bindings.MapAllKeptNone | studio-ui/src/map.ts:786-825 | a map-all finds no control on the key exactly when it wrote nothing and none was on it, and then nothing changed |
| Bindings.AllRefused | studio-ui/src/map.ts:832-862 | a group write refused in full changed nothing |
| Bindings.Daemon.BindKeys | crates/ksx-backend/src/mapping.rs:722-792 | a write replaces the control's keys and drops its chords, a clear drops its rate, and a refusal changes nothing |
| Bindings.Daemon.BindOnce | crates/ksx-api/src/control.rs:90-117 | one key, or none, is always a write a single-key daemon knows |
| Bindings.MapAll | studio-ui/src/map.ts:768-826 | the write loop, what it reports from the file, and exactly when its Undo is offered |
| Bindings.ClearSelected | studio-ui/src/map.ts:832-862 | the clear loop, what it reports, and exactly when its Undo is offered |
| Bindings.UndoGroup | studio-ui/src/map.ts:243-258 | the undo loop, and that it reports no failure exactly when every write was taken |
| MacroStore.MacroRenameTo | studio-ui/src/map.ts:1368-1396 | the three calls, stopping at the first refusal |
| MacroStore.RenameNeverLoses | studio-ui/src/map.ts:1368-1396 | for every pattern of refusals the steps survive under the old name, the new one or both, and other macros are untouched |
| MacroStore.RenameOutcomes | studio-ui/src/map.ts:1368-1396 | what each failure sentence says is what the preset holds |
| MacroStore.FullRename | studio-ui/src/map.ts:1398-1450 | a rename taken in full is exactly a rename exactly when the macro was switched on, spelled its rate one way at most, and had no guarded or repeated trigger; one without steps changes nothing |
| MacroStore.RenameThenUndo | studio-ui/src/map.ts:1436-1450 | rename and undo restore the whole preset exactly under that condition and with no stray trigger row under the new name |
| MacroStore.CaseOnlyRenameLoses | studio-ui/src/map.ts:1407-1420 | without the case guard a rename loses the macro exactly when its write and delete are taken |
| MacroStore.CallsKeepValid | crates/ksx-backend/src/mapping.rs:1633-1760 | no call leaves a table under another's name, one without steps or with both rates, a guarded trigger, or a trigger row without its table |
| MacroStore.RenamingKeepsValid | studio-ui/src/map.ts:1368-1396 | so no rename does, wherever it stopped |
| MacroStore.SaveWrites | crates/ksx-backend/src/mapping.rs:1633-1760 | a write lands switched on under the file's own spelling, with one rate, and touches nothing else |
| MacroStore.DeleteTakesBoth | crates/ksx-backend/src/mapping.rs:1701-1715 | a delete takes the table and its trigger row and nothing else |
| MacroStore.TriggerWrites | crates/ksx-backend/src/mapping.rs:830-915 | a trigger write leaves a plain row of the keys, each once, or none |
| MacroStore.MacroDaemon.Save | crates/ksx-backend/src/mapping.rs:1633-1760 | a whole-table write keeps the file's spelling, lands enabled, and refuses an empty step list |
| MacroStore.MacroDaemon.Delete | crates/ksx-backend/src/mapping.rs:1701-1715 | a delete takes the trigger rows along and refuses an unknown name |
| MacroStore.MacroDaemon.BindTrigger | crates/ksx-backend/src/mapping.rs:830-915 | a trigger write replaces the macro's keys and refuses an unknown name |
| MacroStore.UndoMacroTo | studio-ui/src/map.ts:1221-1247 | what the undo of a save or a delete has written when it succeeds and when it fails |
| MacroStore.DeleteThenUndo | studio-ui/src/map.ts:1513-1543 | a delete undone restores the preset exactly when the macro had steps, was switched on, spelled its rate one way at most, and had no guarded or repeated trigger |
| MacroStore.DeleteThenUndoLosesTheGap | studio-ui/src/map.ts:1145-1154 | a concrete macro that is switched on and comes back without its gap and its trigger's guard |
| MacroStore.RowReturnsIff | crates/ksx-backend/src/mapping.rs:1851-1879 | writing back the trigger keys the page is shown restores the row exactly when no key in it is guarded or named twice |
| MacroStore.SaveThenUndo | studio-ui/src/map.ts:1278-1318 | a save undone restores the preset exactly when the macro was new with no stray trigger row, or the version before met the same condition |
| MacroStore.RenameSwitchesOn | crates/ksx-api/src/control.rs:438-449 | a concrete macro that was switched off and runs again after a rename |
| Toml.TomlStrEscapes | studio-ui/src/MapIsland.ts:3458-3460 | three replacements in that order are one escape per character |
| Toml.StrReadsBack | studio-ui/src/MapIsland.ts:3458-3460 | undoing the escapes gets every string back |
| Toml.TomlReadsBackIff | studio-ui/src/MapIsland.ts:3458-3460 | TOML reads a printed string back exactly when it holds no control character but tab and newline |
| Toml.CarriageReturnIsRefused | studio-ui/src/MapIsland.ts:3458-3460 | a concrete string whose printed form TOML refuses |
| Toml.MacroTomlFor | studio-ui/src/MapIsland.ts:3466-3503 | the printer's loop and appends give the block the lemmas are about |
| Toml.BlockReadsBack | studio-ui/src/MapIsland.ts:3466-3503 | a reader recovers from the block name, steps, policies, rate and triggers |
| Toml.BlockIsInjective | studio-ui/src/MapIsland.ts:3466-3503 | two macros print alike exactly when they differ only in an empty repeat, a gap beside a rate, or being switched off |
| LiveEcho.HeldAgreesWithReplay | studio-ui/src/check.ts:79-120 | a chip is held exactly when the latest word about its slot says so: its own latest frame, or a later one that says not running |
| LiveEcho.FrameFlashesItsHits | studio-ui/src/check.ts:104-134 | a frame lights every chip of the roster that some slot of it hits, for 140 ms from then, and touches no other |
| LiveEcho.TimeoutDarkens | studio-ui/src/check.ts:122-134 | a timeout darkens the chip it was set for and no other |
| LiveEcho.FlashAgreesWithTimers | studio-ui/src/check.ts:122-134 | over every run a chip flashes exactly when its one timeout is pending, due 140 ms after a frame last hit it, by the history of frames alone |
| LiveEcho.ArrivedArePresses | studio-ui/src/check.ts:147-163 | the presses of a frame join the strip in order; releases do not |
| LiveEcho.StripIsLastTwelve | studio-ui/src/check.ts:147-163 | the strip is the last twelve of all presses ever |
| LiveEcho.LiveView.Paint | studio-ui/src/check.ts:79-109 | one frame's holds and flashes, slot by slot |
| LiveEcho.LiveView.OnFrame | studio-ui/src/check.ts:195-212 | after each frame the screen is what the whole history says |

## Left out

- Glyphs, titles, tooltips, sentences, CSS classes and the DOM: no state of their own beyond what they depict.
- `fetch`, JSON and server-sent events: a call is taken or refused, a poll succeeds; the poll that follows a write is
  taken to show the store.
- Status, Pads, Devices, Profiles, Setup and Start pages, the staged setup and the engine: not part of this model.
- Letters outside ASCII: names are lower-cased as ASCII, which is what the daemon does and what `toLowerCase` does
  on the names the vocabulary has. Inherited names of JavaScript objects (`dpad.constructor`) are not directions
  here.
- Typed numbers that are not finite, and floating point: durations are reals or integers, `Math.round` and
  `Math.floor` are exact; numbers that JavaScript would print with an exponent are printed as digits.
- A hold is a value in its step, and the draft table a value in its field; only the step objects are aliased. Nothing
  in the editor keeps a reference to a hold array or to the table.
- A save in flight: a save is one event, so edits typed while it is awaited, which the page drops, are not modelled.
- Whose macro is on screen after a slot switch: the last payload's, which may still be the other slot's.
- Time only needs to move forward in `Toasts` and `LiveEcho`; a timeout may be late by any amount.
- Toast texts and kinds. The undos of the turbo toast and of switching a macro on or off answer nothing where the stack
  expects null or a reason; those toasts are not modelled.
- Making or editing chords, cross-slot conflicts and `move_from` of the `map` verb: the page's group writes ask for none
  of them; a conflict is a refusal.
- The inert `None` key: a row that holds nothing else counts as no row, so a control the daemon leaves as a placeholder
  counts as unbound. Spellings the daemon puts in its own form when it rewrites a file count as the same name.
- Macro triggers selected among the controls of a group write.
- Two macro tables of one file whose names differ only in case: stores are keyed by the lower-cased name.
- Blank policy words, which the daemon reads as the default, and names with white space around them.
- The `enabled` toggle of a macro: one field moves and the opposite toggle moves it back.
- Row keys of the key strip, made of the clock and the buffer's length: two frames in one millisecond on a full
  strip can repeat one.
- Re-reading the roster of the button check while a frame is on screen: the roster is fixed.
- Toml.BlockReadsBack: the reader knows the block's own layout rather than all of TOML, and asks that the name hold no
  closing bracket, which every name the page accepts satisfies; a dotted name, which the page accepts, is read by TOML
  itself as nested tables.
