# AR measuring tool and remote review: a Dafny model

This project models the bookkeeping of an augmented-reality measuring app and of its
remote-review companion. The app has two generations:

- The **legacy** app: a WebXR page with buttons for undo, reset and new line and a unit button.
  Its parts are the `App` controller, the `UI` controls and a `MeasureManager`.
- The **current** React app: an `ARScene` component over a richer `MeasureManager` that can
  snap a chain shut and measure its floor area. It also has a floor-plan annotator,
  `PlanParser`, and a `usePeer` hook that connects a user and a reviewer by a room code.

Modules and files:

- `Geometry` (geometry.dfy) holds the 3-D point, polyline and segment-label values. It also
  holds the functions that say what the label, length and shoelace loops compute, and the loop
  methods themselves.
- `Format` (format.dfy) is `formatDistance`: the unit suffix, the conversion factor and the
  number of decimals.
- `MeasureState` and `LegacyMeasureState` write each manager's fields as one value and each
  operation as a transition. The invariants and the properties of the operations are proved
  about these transitions.
- `Measure.MeasureManager` and `LegacyMeasure.MeasureManager` are the managers as classes. Their
  fields are updated in place, and each method is proved to perform its transition and keep the
  invariant.
- `LegacyUi.Ui` and `LegacyApp.App` are the legacy controls and controller: the unit cycle,
  the display state of the buttons, tap gating and the readout.
- `ArScene.ArScene` is the React component's ref and state: tap gating, the four-unit cycle,
  and the handle its parent calls.
- `PlanParser` holds the room-annotation transitions. `PlanParser.PlanEditor` is the component
  state that applies them.
- `Peer` covers the peer-id derivation and `PeerSession`, the hook's state driven by the
  PeerJS and media events it receives.

`Vector3.distanceTo` is not computed. Each manager takes a distance function `dist` as a
constructor parameter, and the thresholds (0.15 m to close a loop, 0.1 m for a duplicate) are
comparisons of that function's value. The hit-test reticle position, media streams and
PeerJS events are all parameters.

`usePeer` never reconnects: after a call's `close` the hook places no new call itself, though a
later incoming call is still answered and wired, and a peer error still sets the status.

## Model

| member | source | states |
|---|---|---|
| Geometry.LabelUnit | src/modules/measure.js:228 | labels use the current unit, or metres when no unit has been set |
| Geometry.DropLast | src/modules/measure.js:84-86 | `pop` removes exactly the last element and leaves an empty list empty |
| Geometry.MarksPointsDropLast | src/modules/measure.js:84-86 | popping a dot and a point together keeps one dot per remaining point, in order |
| Geometry.MarksPointsAppend | src/modules/measure.js:53-54 | pushing a dot and its point together keeps one dot per point, in order |
| Geometry.SegmentLabels | src/modules/measure.js:152-161 | one label per consecutive pair of drawn points (none under two points), label i showing the distance from point i to point i+1 |
| Geometry.PolygonArea | src/modules/measure.js:248-255 | the shoelace area is never negative |
| Geometry.LabelsAddUpToPath | src/modules/measure.js:152-161 | the distances on a chain's labels add up to the chain's length |
| Geometry.PathLengthAppend | src/modules/measure.js:238-239 | adding the closing segment adds exactly that segment's length |
| Geometry.PathLengthNonNegative | src/modules/measure.js:234-237 | with a non-negative distance, a chain's length is never negative |
| Geometry.AreaIsTranslationInvariant | src/modules/measure.js:248-255 | moving every vertex of any outline by the same offset on the floor leaves its area unchanged, so the area does not depend on where the world origin lies |
| Geometry.RectangleArea | src/modules/measure.js:248-255 | an axis-aligned rectangle w by d on the floor, at any corner position and height, has area \|w·d\| |
| Geometry.BuildSegmentLabels | src/modules/measure.js:153-161 | the label loop builds exactly the labels `SegmentLabels` specifies |
| Geometry.SumSegments | src/modules/measure.js:234-237 | the accumulating loop returns the chain's length |
| Geometry.ShoelaceSum | src/modules/measure.js:248-254 | the loop over edges i to (i+1) mod n returns the shoelace sum |
| Format.FormatDistance | legacy/js/modules/utils.js:2-6 | feet and inches are converted and suffixed as such; any other unit, "cm" included, is metres with two decimals; inches have one decimal; a non-negative length gives a non-negative amount |
| Format.UnknownUnitShowsMetres | legacy/js/modules/utils.js:5 | a unit other than ft or in formats exactly as metres |
| Format.FormatIsMonotone | legacy/js/modules/utils.js:2-6 | a longer length never displays a smaller amount |
| MeasureState.Area | src/modules/measure.js:246-256 | the area is never negative and is 0 unless the chain is closed with at least three points |
| MeasureState.InitialConsistent | src/modules/measure.js:6-14 | a new manager satisfies the invariant and has no content |
| MeasureState.SnapClosesLoop | src/modules/measure.js:18-25 | a tap within 0.15 of the first of at least three points closes the chain, adds no point, and leaves one label per segment including the closing one |
| MeasureState.AddPointAsWritten | src/modules/measure.js:16-57 | `addPoint` as written: the chain is closed afterwards exactly when the tap closes the loop, so every other tap, an ignored duplicate included, leaves it open; a tap adds at most one point and never touches the archive or the unit |
| MeasureState.AsWrittenAgreesOffClosedDuplicate | src/modules/measure.js:18-36 | the written order and the corrected order of `addPoint` give the same new state exactly unless the tap is a duplicate, not a closing tap, at a closed chain |
| MeasureState.DuplicateIgnored | src/modules/measure.js:29-36 | in the corrected `addPoint` (duplicate check before `isClosed` is cleared), a tap within 0.1 of the last point that does not close the loop changes nothing; as written this holds only for an open chain, since a closed one is reopened (`AsWrittenDuplicateReopens`) |
| MeasureState.AcceptedTapAppends | src/modules/measure.js:38-56 | any other tap appends exactly that point and one dot at it, opens the chain, and leaves the archive alone |
| MeasureState.AddPointGrowsByAtMostOne | src/modules/measure.js:16-57 | a tap never removes a point and adds at most one |
| MeasureState.UpdateLineRestores | src/modules/measure.js:135-162 | whatever points and closure updateLine is given, it leaves labels and line matching them |
| MeasureState.AddPointKeepsConsistent | src/modules/measure.js:16-57 | with the duplicate check taken first, `addPoint` keeps the invariant: one dot per point, and labels and line matching the points and closure |
| MeasureState.AsWrittenDuplicateReopens | src/modules/measure.js:27-35 | as written, a duplicate tap clears `isClosed` but keeps the old line and labels |
| MeasureState.AsWrittenLeavesStaleClosingLabel | src/modules/measure.js:27-35 | as written, a duplicate tap on a closed triangle leaves three labels on a chain reported open, which breaks the invariant |
| MeasureState.UndoOutcomes | src/modules/measure.js:77-88 | undo reopens a closed chain and keeps every point; it does nothing on an empty chain; otherwise it pops exactly the last point and its dot |
| MeasureState.UndoKeepsConsistent | src/modules/measure.js:77-88 | undo keeps the invariant |
| MeasureState.UndoAfterSnapRestores | src/modules/measure.js:18-25 | undo right after a snap-close gives back the open chain exactly |
| MeasureState.UndoAfterTapRestores | src/modules/measure.js:38-56 | undo right after an accepted tap on an open chain of two or more points gives back that chain exactly |
| MeasureState.ResetClearsEverything | src/modules/measure.js:90-117 | reset empties every list, drops both lines, opens the chain, keeps the unit, leaves no content, keeps the invariant, and a second reset changes nothing |
| MeasureState.StartNewLineOutcomes | src/modules/measure.js:119-133 | under two points nothing changes; otherwise the chain (points, dots, line, labels, closure) is archived and an empty open chain starts; content is unaffected |
| MeasureState.StartNewLineKeepsConsistent | src/modules/measure.js:119-133 | starting a new line keeps the invariant, archived chains included |
| MeasureState.LabelCount | src/modules/measure.js:141-161 | no labels under two points, n-1 for an open chain, n for a closed one |
| MeasureState.SegmentLabelsIn | src/modules/measure.js:228 | every label built in one pass carries that pass's unit |
| MeasureState.ConsistentLabelsShareUnit | src/modules/measure.js:202-219 | in a consistent manager, every label, archived ones included, is in the unit new labels get |
| MeasureState.ChainLabelCount | src/modules/measure.js:208-217 | an archived chain has one label per segment, plus the closing one when closed |
| MeasureState.RelabelKeepsChain | src/modules/measure.js:205-218 | relabelling an archived chain in a new unit keeps its points, dots, line and closure and gives it the labels of its segments in that unit |
| MeasureState.SetUnitKeepsConsistent | src/modules/measure.js:202-219 | setUnit records the unit, keeps the invariant, and changes no point, dot, closure or archived chain's points |
| MeasureState.SetUnitRelabelsEverything | src/modules/measure.js:202-219 | after setUnit every label, on the current and on every archived chain, is in the new unit |
| MeasureState.LabelsMatchTotal | src/modules/measure.js:233-244 | without a reticle, the total equals the sum of the current chain's labels, closing segment included |
| MeasureState.TotalDistance | src/modules/measure.js:233-244 | the total is the length of the drawn chain (back to the first point when closed); an open chain with a live reticle adds the segment to the reticle |
| MeasureState.ShortChainHasNoLength | src/modules/measure.js:233-244 | with fewer than two points and no reticle the total is 0 |
| Measure.MeasureManager.constructor | src/modules/measure.js:6-14 | a new manager is empty and consistent |
| Measure.MeasureManager.AddPoint | src/modules/measure.js:16-57 | performs the corrected `addPoint` transition, with the duplicate check first, and keeps the invariant |
| Measure.MeasureManager.AddPointSteps | src/modules/measure.js:16-57 | the in-place steps of the corrected `addPoint` (close, skip duplicate, reopen, push dot and point, redraw) produce its transition |
| Measure.MeasureManager.UndoLastPoint | src/modules/measure.js:77-88 | performs the undo transition and keeps the invariant |
| Measure.MeasureManager.UndoLastPointSteps | src/modules/measure.js:77-88 | the in-place steps of undo produce the undo transition |
| Measure.MeasureManager.ResetAll | src/modules/measure.js:90-117 | performs the reset transition and keeps the invariant |
| Measure.MeasureManager.ResetAllSteps | src/modules/measure.js:90-117 | the in-place steps of reset produce the reset transition |
| Measure.MeasureManager.StartNewLine | src/modules/measure.js:119-133 | performs the new-line transition and keeps the invariant |
| Measure.MeasureManager.StartNewLineSteps | src/modules/measure.js:119-133 | the in-place steps of startNewLine produce the new-line transition |
| Measure.MeasureManager.UpdateLine | src/modules/measure.js:135-162 | redraws the line through the drawn points (first point repeated when closed) and rebuilds the labels; under two points it only clears the labels |
| Measure.MeasureManager.SetUnit | src/modules/measure.js:202-219 | performs the setUnit transition and keeps the invariant |
| Measure.MeasureManager.RelabelChains | src/modules/measure.js:205-218 | rebuilds every archived chain's labels in the label unit and changes nothing else |
| Measure.MeasureManager.GetTotalDistance | src/modules/measure.js:233-244 | returns the chain's length plus the closing segment, or plus the segment to the live reticle; without a reticle this equals the sum of the labels |
| Measure.MeasureManager.GetArea | src/modules/measure.js:246-256 | returns the floor area: never negative, 0 unless closed with at least three points |
| Measure.MeasureManager.GetPointCount | src/modules/measure.js:258-260 | the number of points of the current chain, which in a consistent manager is also the number of dots drawn |
| Measure.MeasureManager.HasContent | src/modules/measure.js:262-264 | false exactly when neither the current chain nor any archived chain holds a point; a consistent manager without content draws no dot and no label |
| LegacyMeasureState.InitialConsistent | legacy/js/modules/measure.js:6-13 | a new legacy manager is consistent and empty |
| LegacyMeasureState.DuplicateIgnored | legacy/js/modules/measure.js:17-24 | a tap within 0.1 of the last point changes nothing |
| LegacyMeasureState.AcceptedTapAppends | legacy/js/modules/measure.js:26-37 | any other tap appends exactly that point and one dot at it |
| LegacyMeasureState.AddPointGrowsByAtMostOne | legacy/js/modules/measure.js:15-38 | a tap adds at most one point and removes none |
| LegacyMeasureState.UpdateLineRestores | legacy/js/modules/measure.js:87-114 | whatever points updateLine is given, it leaves labels and line matching them |
| LegacyMeasureState.AddPointKeepsConsistent | legacy/js/modules/measure.js:15-38 | addPoint keeps the invariant |
| LegacyMeasureState.UndoOutcomes | legacy/js/modules/measure.js:40-46 | undo does nothing on an empty chain and otherwise pops exactly the last point and dot |
| LegacyMeasureState.UndoKeepsConsistent | legacy/js/modules/measure.js:40-46 | undo keeps the invariant |
| LegacyMeasureState.UndoAfterTapRestores | legacy/js/modules/measure.js:40-46 | undo after an accepted tap on a chain of two or more points restores it exactly |
| LegacyMeasureState.ResetClearsEverything | legacy/js/modules/measure.js:48-69 | reset empties every list, drops the line, leaves no content, and is idempotent |
| LegacyMeasureState.StartNewLineOutcomes | legacy/js/modules/measure.js:71-85 | under two points nothing changes; otherwise the chain is archived and an empty one starts |
| LegacyMeasureState.StartNewLineKeepsConsistent | legacy/js/modules/measure.js:71-85 | starting a new line keeps the invariant |
| LegacyMeasureState.LabelCount | legacy/js/modules/measure.js:87-114 | updateLine leaves max(0, n-1) labels |
| LegacyMeasureState.SetUnitKeepsArchivedChains | legacy/js/modules/measure.js:132-135 | setUnit relabels only the current chain in the new unit and leaves every archived chain, labels included, unchanged |
| LegacyMeasureState.LabelsMatchTotal | legacy/js/modules/measure.js:151-157 | the total equals the sum of the current chain's labels |
| LegacyMeasure.MeasureManager.constructor | legacy/js/modules/measure.js:6-13 | a new legacy manager is empty and consistent |
| LegacyMeasure.MeasureManager.AddPoint | legacy/js/modules/measure.js:15-38 | performs the addPoint transition and keeps the invariant |
| LegacyMeasure.MeasureManager.AddPointSteps | legacy/js/modules/measure.js:15-38 | the in-place steps of addPoint produce the addPoint transition |
| LegacyMeasure.MeasureManager.UndoLastPoint | legacy/js/modules/measure.js:40-46 | performs the undo transition and keeps the invariant |
| LegacyMeasure.MeasureManager.UndoLastPointSteps | legacy/js/modules/measure.js:40-46 | the in-place steps of undo produce the undo transition |
| LegacyMeasure.MeasureManager.ResetAll | legacy/js/modules/measure.js:48-69 | performs the reset transition and keeps the invariant |
| LegacyMeasure.MeasureManager.ResetAllSteps | legacy/js/modules/measure.js:48-69 | the in-place steps of reset produce the reset transition |
| LegacyMeasure.MeasureManager.StartNewLine | legacy/js/modules/measure.js:71-85 | performs the new-line transition and keeps the invariant |
| LegacyMeasure.MeasureManager.StartNewLineSteps | legacy/js/modules/measure.js:71-85 | the in-place steps of startNewLine produce the new-line transition |
| LegacyMeasure.MeasureManager.UpdateLine | legacy/js/modules/measure.js:87-114 | redraws the line and one label per segment; under two points it only clears the labels |
| LegacyMeasure.MeasureManager.SetUnit | legacy/js/modules/measure.js:132-135 | records the unit and redraws the current chain only |
| LegacyMeasure.MeasureManager.GetTotalDistance | legacy/js/modules/measure.js:151-157 | returns the chain's length, which equals the sum of its labels and is 0 under two points |
| LegacyMeasure.MeasureManager.GetPointCount | legacy/js/modules/measure.js:159-161 | the number of points of the current chain, which in a consistent manager is also the number of dots drawn |
| LegacyMeasure.MeasureManager.HasContent | legacy/js/modules/measure.js:163-165 | false exactly when neither the current chain nor any archived chain holds a point; a consistent manager without content draws no dot and no label |
| LegacyUi.ToggledUnit | legacy/js/modules/ui.js:78-81 | the next unit is always m, ft or in, and any unit other than m or ft toggles to m |
| LegacyUi.ToggleCycle | legacy/js/modules/ui.js:78-81 | each toggle changes the unit, and three toggles return to it |
| LegacyUi.Display | legacy/js/modules/ui.js:90-91 | a control is 'flex' exactly when shown and 'none' exactly when not |
| LegacyUi.Ui.constructor | legacy/js/modules/ui.js:3-42 | the unit starts as metres, shown on the unit button; the info reads 0.00 m; undo, reset and new line start hidden |
| LegacyUi.Ui.ToggleUnit | legacy/js/modules/ui.js:78-83 | the unit moves to the next in the cycle, the button text equals the unit, and nothing else changes |
| LegacyUi.Ui.UpdateInfo | legacy/js/modules/ui.js:85-87 | replaces the info text and nothing else |
| LegacyUi.Ui.UpdateControls | legacy/js/modules/ui.js:89-92 | undo and reset get the same display, 'flex' iff there are points; new line is 'flex' iff it is allowed, independently |
| LegacyApp.App.constructor | legacy/js/app.js:10-20 | the app starts in metres with fresh, empty controls and manager |
| LegacyApp.App.UpdateUi | legacy/js/app.js:111-124 | the info shows the formatted total and the count; undo and reset are shown iff there is content; new line iff there are at least two points |
| LegacyApp.App.HandleTap | legacy/js/app.js:86-93 | with a reticle and fewer than 20 points, the point goes through addPoint and the readout refreshes: the formatted total and count, undo and reset shown iff there is content, new line iff two points; otherwise nothing changes; taps never take the count above 20; the UI unit is never touched |
| LegacyApp.App.Render | legacy/js/app.js:95-109 | under two points the info reads 0.00 in the current unit and the controls are left as they were; otherwise it is the full refresh |
| LegacyApp.App.OnUnitChange | legacy/js/app.js:29-33 | takes the chosen unit, relabels the manager in it, and refreshes the readout in it: the formatted total and count, undo and reset shown iff there is content, new line iff two points |
| LegacyApp.App.UnitButtonClick | legacy/js/modules/ui.js:38-42 | the unit button toggles the unit and hands it to onUnitChange, so the app, button and manager agree on it, and the readout and controls are refreshed in the new unit |
| LegacyApp.App.OnUndo | legacy/js/app.js:25 | undo goes to the manager, with no refresh |
| LegacyApp.App.OnReset | legacy/js/app.js:26 | reset goes to the manager, with no refresh |
| LegacyApp.App.OnNewLine | legacy/js/app.js:27 | new line goes to the manager, with no refresh |
| ArScene.IndexOf | src/components/ARScene.jsx:31 | `indexOf` gives the first position holding the unit, or -1 exactly when the unit is absent |
| ArScene.IndexOfUnits | src/components/ARScene.jsx:29-31 | indexOf finds m, cm, in and ft at positions 0 to 3 |
| ArScene.CycledUnit | src/components/ARScene.jsx:29-31 | the next unit is always one of the four; an unknown unit moves to m |
| ArScene.CycleOrder | src/components/ARScene.jsx:29-31 | the cycle is m, cm, in, ft, then m again |
| ArScene.CycleReturnsAfterFour | src/components/ARScene.jsx:29-31 | each step changes the unit, and four steps return to it |
| ArScene.ArScene.constructor | src/components/ARScene.jsx:9-17 | no managers, metres, "Initializing AR...", and stats of "0.00 m" with 0 points |
| ArScene.ArScene.InitAr | src/components/ARScene.jsx:48-72 | a fresh empty manager and an interaction manager exist afterwards |
| ArScene.ArScene.OnSessionStart | src/components/ARScene.jsx:54 | the status becomes "AR Session Active" |
| ArScene.ArScene.OnSessionEnd | src/components/ARScene.jsx:55 | the status becomes "AR Session Ended" |
| ArScene.ArScene.UpdateUi | src/components/ARScene.jsx:98-105 | the stats become the total (without a reticle) passed through the imported formatter in the component's unit, and the count; without a manager it fails and changes nothing |
| ArScene.ArScene.HandleTap | src/components/ARScene.jsx:74-83 | with both managers, a reticle and fewer than 20 points, the tap goes through the corrected addPoint and the stats refresh; otherwise nothing changes; the status text and readiness are always kept; the count never passes 20 |
| ArScene.ArScene.SetUnit | src/components/ARScene.jsx:23-27 | the unit becomes exactly u; a manager, if present, performs setUnit; the refresh fails without one |
| ArScene.ArScene.CycleUnit | src/components/ARScene.jsx:28-35 | the unit becomes the next in the cycle and is applied as setUnit does: the manager relabels in it and the stats refresh in it; the refresh fails without a manager |
| ArScene.ArScene.Undo | src/components/ARScene.jsx:20 | undo goes to the manager if there is one, with no refresh |
| ArScene.ArScene.Reset | src/components/ARScene.jsx:21 | reset goes to the manager if there is one, with no refresh |
| ArScene.ArScene.StartNewLine | src/components/ARScene.jsx:22 | new line goes to the manager if there is one, with no refresh |
| PlanParser.ImageLoaded | src/components/PlanParser.jsx:20-23 | clicking becomes possible and the status asks for corners; saved rooms and open corners are kept |
| PlanParser.CanvasClick | src/components/PlanParser.jsx:30-43 | a click adds one open corner when an image is loaded and none otherwise; rooms, image and status are untouched |
| PlanParser.Finish | src/components/PlanParser.jsx:45-56 | one room is saved exactly when more than two corners are open, in which case the corners are emptied and the status reports the save; the image is kept |
| PlanParser.Clear | src/components/PlanParser.jsx:58-62 | no saved or open corner remains, the status reports the clear, and the image stays loaded |
| PlanParser.InitialValid | src/components/PlanParser.jsx:5-8 | the annotator starts with no image, no rooms and no corners |
| PlanParser.ClickWithoutImageIgnored | src/components/PlanParser.jsx:31 | with no image, a canvas click changes nothing |
| PlanParser.ClickAppendsOneCorner | src/components/PlanParser.jsx:42 | with an image, a click appends exactly that corner at the end and leaves the saved rooms alone |
| PlanParser.FinishRoomSaves | src/components/PlanParser.jsx:46-52 | with more than two corners, one room holding exactly those corners and the green fill is saved, and the corners are emptied |
| PlanParser.FinishRoomRefusesShortOutline | src/components/PlanParser.jsx:53-55 | with two or fewer corners nothing changes |
| PlanParser.FinishRoomKeepsCorners | src/components/PlanParser.jsx:46-51 | finishing a room loses and reorders no corner: all saved and open corners stay the same sequence |
| PlanParser.ClearAllEmpties | src/components/PlanParser.jsx:58-62 | clear empties rooms and corners, keeps the image, and a second clear changes nothing |
| PlanParser.HandlersKeepRoomsValid | src/components/PlanParser.jsx:46-50 | no handler can save a room with fewer than three corners |
| PlanParser.PlanEditor.constructor | src/components/PlanParser.jsx:5-8 | the initial component state |
| PlanParser.PlanEditor.OnImageLoad | src/components/PlanParser.jsx:20-23 | the image is held and the status asks for corners |
| PlanParser.PlanEditor.HandleCanvasClick | src/components/PlanParser.jsx:30-43 | applies the click transition and keeps every room at three or more corners |
| PlanParser.PlanEditor.FinishRoom | src/components/PlanParser.jsx:45-56 | applies the finish transition; the alert is raised exactly when fewer than three corners are open |
| PlanParser.PlanEditor.ClearAll | src/components/PlanParser.jsx:58-62 | applies the clear transition |
| Peer.OwnSuffix | src/hooks/usePeer.js:17 | the reviewer role gets "-reviewer", every other role "-user" |
| Peer.OtherSuffix | src/hooks/usePeer.js:18 | the reviewer role targets "-user", every other role "-reviewer" |
| Peer.MyId | src/hooks/usePeer.js:17 | the own id starts with the room code and is longer than it |
| Peer.TargetId | src/hooks/usePeer.js:18 | the target id starts with the room code and is longer than it |
| Peer.IdsAreSymmetric | src/hooks/usePeer.js:17-18 | the reviewer targets the user's own id and the user targets the reviewer's |
| Peer.OtherRolesActAsUserWithoutCalling | src/hooks/usePeer.js:17-18 | a role other than reviewer gets the user's ids, but only the role "user" calls on open |
| Peer.OwnIdIsNotTarget | src/hooks/usePeer.js:17-18 | a participant never targets its own id |
| Peer.UserAndReviewerIdsNeverCollide | src/hooks/usePeer.js:17 | a user id never equals a reviewer id, whatever the two room codes |
| Peer.IdDeterminesCode | src/hooks/usePeer.js:17 | within one role, equal ids mean equal room codes |
| Peer.PeerSession.constructor | src/hooks/usePeer.js:5-12 | a peer is created exactly for a non-empty code; the status is "Initializing..." and no call or stream is held |
| Peer.PeerSession.SetupCallEvents | src/hooks/usePeer.js:71-82 | the call is held and its stream and close handlers are installed |
| Peer.PeerSession.OnOpen | src/hooks/usePeer.js:22-30 | the peer is held; the user role alone starts a call, with status "Calling <target>..."; other roles show "Connected as <own id>" |
| Peer.PeerSession.OnMediaGranted | src/hooks/usePeer.js:59-64 | for a pending call, the local stream is kept in the ref, even after unmount; while mounted the outgoing call is held and wired, after unmount no held state changes; the peer flags are kept in both cases |
| Peer.PeerSession.OnMediaFailed | src/hooks/usePeer.js:65-68 | for a pending call, the status becomes "Media Error: " plus the message while mounted; after unmount it is unchanged; the peer flags, call, streams and wiring are kept |
| Peer.PeerSession.OnIncomingCall | src/hooks/usePeer.js:32-39 | an incoming call is held and wired; the peer flags, local stream and status are kept |
| Peer.PeerSession.OnError | src/hooks/usePeer.js:41-44 | the status becomes "Error: " plus the error type; the peer flags, call, streams and wiring are kept |
| Peer.PeerSession.OnStream | src/hooks/usePeer.js:73-76 | any wired call's stream becomes the remote stream; the peer stays live and every other field is kept |
| Peer.PeerSession.OnClose | src/hooks/usePeer.js:77-81 | a wired call's close sets "Call Ended" and drops both the call and the remote stream; the peer stays live, so later incoming calls are still answered |
| Peer.GrantAfterUnmount | src/hooks/usePeer.js:46-64 | a user session that opens, unmounts, and then has its media granted holds the stream in the ref, holds no call or remote stream, and still shows "Calling <target>..." |
| Peer.PeerSession.Unmount | src/hooks/usePeer.js:46-48 | the peer is destroyed, and every other field (call, streams, status, wiring, the pending media request) is kept; from then on later events change no held React state (a pending media grant still fills the local-stream ref) |

## Left out

- Rendering: Three.js meshes, sprites, label canvases and their positions (the `lerpVectors` midpoints), `updateAnimations` and its random pulse phase, removing objects from the scene, the `PlanParser` canvas drawing, and DOM styling. A dot is modelled by its position and a label by its distance and unit.
- `updatePreview` (src/modules/measure.js:164-196) is not modelled. `previewLine` is only ever cleared by reset; the preview line is purely visual.
- Floating point: `distanceTo` is an uninterpreted distance function. The digits `toFixed` would print are not computed; `Format.FormatDistance` keeps the exact amount and the decimal count. The canvas click scaling in src/components/PlanParser.jsx:36-40 is not modelled: a click arrives already in canvas coordinates.
- WebXR, the hit test and scene setup (both `interactions.js` and `scene.js`, `main.js`). The reticle position is a parameter, and session start and end are event methods.
- The legacy exit button and `setSessionActive`, `exitApp` and page reload, which are session plumbing with no bookkeeping.
- The `FileReader` and image decoding in `handleUpload`: only the final `img.onload` handler is modelled.
- PeerJS and `getUserMedia`: their callbacks are event methods, and calls and streams are opaque numbers. `Peer.PeerSession.OnOpen` uses the id the peer was created with (`MyId`) as the id PeerJS reports on open. `answer()` and `p.destroy()` have no modelled effect beyond the held state.
- Re-running the usePeer effect when the role or code changes: a session's role and code are fixed.
- Asynchronous ordering: each callback runs atomically, and React's batching of state updates is not modelled.
- `useDaily.js`, `App.jsx` and the pages are routing and UI composition; they are not modelled.
- `ArScene.ArScene.UpdateUi`: src/components/ARScene.jsx:5 imports `formatDistance` from src/modules/utils.js, which is not part of this model. The component takes that formatter as a parameter, `format`, and the stats state only that they are its output; what it displays for each unit is not stated.
- `Measure.MeasureManager.AddPointSteps`: `Measure.MeasureManager.AddPoint`, `ArScene.ArScene.HandleTap` and the rest of the model perform the corrected `addPoint` (see Findings). The written order is `MeasureState.AddPointAsWritten`, and `MeasureState.AsWrittenAgreesOffClosedDuplicate` shows the two differ only on a duplicate tap at a closed chain, where the source reopens the chain.
- `ArScene.ArScene.HandleTap`: performs the corrected `addPoint`; on a duplicate tap at a closed chain the source would also clear `isClosed`.
- `Peer.PeerSession.OnMediaGranted`: after unmount the source still calls `p.call` on the destroyed peer and installs handlers on what it returns; the object `p.call` returns on a destroyed peer has no modelled effect; the model records only the stream kept in the ref.
- `ArScene.ArScene.UpdateUi`: models the `TypeError` thrown without a manager as `ok == false`, without unwinding the caller.

## Findings

| source | as written | input that shows it | evidently intended | confidence | as-written member | corrected member |
|---|---|---|---|---|---|---|
| src/modules/measure.js:27-35 | `addPoint` clears `isClosed` before the duplicate check, then returns without `updateLine`. A duplicate tap on a closed loop therefore reports the loop open while its closing segment's line and label stay drawn. | A closed triangle (0,0,0), (1,0,0), (2,0,0), with distance \|a.x-b.x\|, and a tap at (2.05,0,0): the tap is 0.05 from the last point and 2.05 from the first. Afterwards `isClosed` is false but there are three labels, where an open chain of three points has two. | An ignored tap changes nothing, so the labels and line always match the points and the closure | medium, not executed | MeasureState.AddPointAsWritten, shown by MeasureState.AsWrittenLeavesStaleClosingLabel | MeasureState.AddPoint, proved by MeasureState.AddPointKeepsConsistent |

Other behaviours the model keeps as written, without treating them as bugs:

- The legacy `render` refreshes the controls only from two points up, so after undo, reset or new line the buttons keep their old display until a later accepted tap or a unit change.
- A close event from any wired call, not only the current one, drops the current call.
