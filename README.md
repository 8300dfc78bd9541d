# İzmir cultural map — selection controller, like counter and marker helpers

This project models the logic of the `CulturalMap` dashboard component
(`src/components/dashboard.jsx`). The component shows six cultural sites of
İzmir on a MapLibre map. One marker is drawn per site. Clicking a marker
selects the site. The selected marker is highlighted, its popup opens and
the camera flies to it. A click on the bare map or on the popup's close
button clears the selection. Each popup has a like button.

The Dafny modules follow the parts of the file:

- `Catalog` (`catalog.dfy`) holds the static site catalogue (`CULTURAL_SITES`)
  and the `find` lookup the selection pass does in it.
- `Text` (`text.dfy`) holds the JavaScript string operations the helpers use:
  `trim`, which uses the full ECMAScript white-space and line-terminator set;
  `toLowerCase`/`toUpperCase` on ASCII letters; and `includes`.
- `MarkerFactory` (`marker_factory.dfy`) covers `createCulturalMarker`:
  - the category colour and icon with their fallbacks;
  - `split(/(?=[Mm])/)` of the icon path into one `<path>` per non-blank
    segment;
  - the capitalised type badge of the popup.
- `LikeCounter` (`like_counter.dfy`) is the like button's `liked`/`count`
  state and its click rule.
- `MapStyle` (`map_style.dfy`) is the `style.load` handler that hides the
  base map's POI and symbol layers. It comes as a pure function and as a
  `MapEngine` class whose method loops over the layers.
- `Selection` (`selection.dfy`) is the controller as a state machine over
  values. Its state has these parts:
  - the selection;
  - the marker and popup dictionaries;
  - the camera target;
  - the registered map-click handlers;
  - the scheduled 100 ms popup attachments;
  - the cleanup the last pass returned.

  Each handler and effect is one function on that state. `Wired` is the
  invariant the controller keeps as written: consistent dictionaries, one
  active marker at most, and one dismiss handler exactly while something is
  selected. `Coherent` adds that only the selected popup is on the map. Only
  the corrected controller (live toggle, guarded attachment) keeps that.
  Lemmas prove both invariants over every event sequence, the other
  properties, and the findings below.
- `Controller` (`controller.dfy`) is the same controller as the component
  runs it: a `CulturalMap` class whose fields are updated in place. The
  `forEach` passes over the dictionaries and the setup loop over the catalogue
  are written as loops. Every method is proved to leave exactly the state the
  matching `Selection` function describes.

The marker click handler closes over `activeMarkerId` as it was when the
markers were built. The model keeps that value as a separate `captured` field
of the state.

The 100 ms `setTimeout` around `popup.addTo` is modelled as a queue of pending
attachments (`pending`), each fired by its own event. A timer can therefore
fire after the pass that scheduled it has been cleaned up.

React's effect scheduling is modelled as sequential. A change of
`activeMarkerId` runs the previous pass's cleanup, then the next pass. A
`setActiveMarkerId` with the current value does nothing.

## Model

| member | source | states |
|---|---|---|
| Catalog.Find | src/components/dashboard.jsx:509 | the lookup fails exactly when no record has the id; otherwise it returns a record with that id that no earlier record shares |
| Text.TrimStart | src/components/dashboard.jsx:214 | the result is a suffix of the input; what was dropped is white space; the result does not start with white space |
| Text.TrimEnd | src/components/dashboard.jsx:214 | the result is a prefix of the input; what was dropped is white space; the result does not end with white space |
| Text.Trim | src/components/dashboard.jsx:209 | the result has no white space at either end and keeps a first character that is not white space; it is empty exactly when the input is blank, which is the truthiness test on `segment.trim()` |
| Text.TrimIsBetween | src/components/dashboard.jsx:209 | the result of `trim` is the input cut between a prefix and a suffix that are white space only |
| Text.Includes | src/components/dashboard.jsx:426 | `includes`: `sub` occurs in `s` at some position |
| Text.Lower | src/components/dashboard.jsx:426 | same length as the input, each character lowered |
| MarkerFactory.ColorFor | src/components/dashboard.jsx:182 | a known category gets its `COLOR_MAP` colour; any other gets `#3b82f6`; the result is always one of the map's colours |
| MarkerFactory.IconPathFor | src/components/dashboard.jsx:207 | a known category gets its icon path; any other gets the `photo` path |
| MarkerFactory.NextCut | src/components/dashboard.jsx:208 | the next cut of the split is the next `M`/`m` after position `i`, or the end of the string |
| MarkerFactory.PiecesFromAreCut | src/components/dashboard.jsx:208 | no piece of the split holds an inner `M`/`m`; every piece but a leading one is non-empty and starts with `M`/`m` |
| MarkerFactory.PiecesFromConcat | src/components/dashboard.jsx:208 | the pieces concatenate back to the string |
| MarkerFactory.Pieces | src/components/dashboard.jsx:208 | `split(/(?=[Mm])/)`: the empty string gives one empty piece; otherwise the string is cut before every `M`/`m` after index 0 |
| MarkerFactory.PiecesShape | src/components/dashboard.jsx:208 | `split(/(?=[Mm])/)`: there is at least one piece; the pieces rebuild the string in order; each piece after the first starts with `M`/`m` and none holds another; a non-empty string has a non-empty first piece, so these facts determine the pieces |
| MarkerFactory.SegmentsWellFormed | src/components/dashboard.jsx:208-217 | from pieces cut before `M`/`m`, every kept segment is non-blank and trimmed, and each after the first starts with `M`/`m` |
| MarkerFactory.PathsOf | src/components/dashboard.jsx:209-216 | one piece gives its trimmed form when that is non-blank, nothing otherwise |
| MarkerFactory.Segments | src/components/dashboard.jsx:208-217 | the `forEach` over the pieces, keeping each non-blank piece trimmed, in order |
| MarkerFactory.IconSegments | src/components/dashboard.jsx:207-217 | the `<path>` values for a path string: its split pieces, filtered and trimmed |
| MarkerFactory.Kept | src/components/dashboard.jsx:209 | positions of non-blank pieces only, in increasing order |
| MarkerFactory.KeptComplete | src/components/dashboard.jsx:209 | every non-blank piece's position is among the kept ones, so no non-blank segment is skipped |
| MarkerFactory.SegmentsAreKeptPieces | src/components/dashboard.jsx:208-217 | the `k`-th `<path>` is the trimmed `k`-th non-blank piece, and there is one `<path>` per non-blank piece |
| MarkerFactory.IconSegmentsWellFormed | src/components/dashboard.jsx:207-217 | every `<path>` of any icon has a non-blank trimmed `d`, each after the first starts with a move-to, and the `<path>`s are exactly the trimmed non-blank pieces of the split, in order |
| MarkerFactory.BuildIconPaths | src/components/dashboard.jsx:207-217 | the `forEach` over the split pieces appends exactly `IconSegments(pathData)`, one non-blank trimmed piece at a time |
| MarkerFactory.CreateCulturalMarker | src/components/dashboard.jsx:179-223 | the element has class `cultural-marker` and the category colour; its loop appends exactly the non-blank trimmed segments of the category's icon path, in order |
| MarkerFactory.TypeLabel | src/components/dashboard.jsx:299-300 | the badge has the category's length and its characters after the first; its first letter is upper case and equal to the category's up to case |
| LikeCounter.Seed | src/components/dashboard.jsx:350 | `initialLikes \|\| 0`: the given count, or 0 when absent |
| LikeCounter.Fresh | src/components/dashboard.jsx:349-350 | a new popup starts unliked with its count equal to the seed `initialLikes \|\| 0` (0 when absent), and in a valid state when that seed is not negative |
| LikeCounter.Toggle | src/components/dashboard.jsx:362-363 | a click flips `liked`; a like makes the count `count + 1`; an unlike makes it `count - 1` when that is not negative, else 0; a non-negative count stays non-negative and a valid state stays valid |
| LikeCounter.ToggleTwice | src/components/dashboard.jsx:362-363 | from a valid state, like then unlike (or unlike then like) returns the same state |
| LikeCounter.ClicksAlternate | src/components/dashboard.jsx:360-365 | from `(false, n)` with `n >= 0`, `k` clicks give `(false, n)` for even `k` and `(true, n + 1)` for odd `k` |
| MapStyle.IsDefaultPoiLayer | src/components/dashboard.jsx:426 | a layer is hidden iff its lowercased id includes `poi` or its type is `symbol` |
| MapStyle.Hidden | src/components/dashboard.jsx:425-429 | one layer keeps its id and type and stays visible iff it was visible and is not a default POI layer |
| MapStyle.HideDefaultLayers | src/components/dashboard.jsx:425-429 | each layer becomes what `Hidden` makes of it, in the same order: the layers keep their ids and types; a layer ends up visible iff it was visible and neither has `poi` in its lowercased id nor has type `symbol` |
| MapStyle.OnStyleLoad | src/components/dashboard.jsx:421-430 | a style without layers is left as it is; otherwise each layer keeps its id and stays visible iff it was visible and is neither a POI nor a symbol layer |
| MapStyle.HideDefaultLayersIdempotent | src/components/dashboard.jsx:425-429 | hiding twice is the same as hiding once |
| MapStyle.MapEngine.constructor | src/components/dashboard.jsx:422-423 | the engine holds the given style |
| MapStyle.MapEngine.HandleStyleLoad | src/components/dashboard.jsx:421-430 | the `forEach` over the layers leaves the style `OnStyleLoad` describes |
| Selection.Initial | src/components/dashboard.jsx:439-443 | no map, no selection, empty dictionaries, no handler |
| Selection.Truthy | src/components/dashboard.jsx:488 | `!activeMarkerId` is false: a selection that is neither `null` nor the empty string |
| Selection.Deactivated | src/components/dashboard.jsx:489-491 | every marker loses `active` and nothing else changes |
| Selection.Activated | src/components/dashboard.jsx:513-519 | exactly the marker `id` is `active`; attachment is unchanged |
| Selection.MarkersRemoved | src/components/dashboard.jsx:482 | every marker is off the map |
| Selection.PopupsRemoved | src/components/dashboard.jsx:492-494 | every popup is off the map and keeps its content |
| Selection.PopupRemoved | src/components/dashboard.jsx:550 | the popup `id` is off the map; no other popup changes |
| Selection.MarkersFor | src/components/dashboard.jsx:451-476 | one marker per catalogue id, on the map and not active |
| Selection.PopupsFor | src/components/dashboard.jsx:451-476 | one popup per catalogue id, off the map and without content |
| Selection.FreshContent | src/components/dashboard.jsx:521-525 | the new popup content belongs to the site, with an unliked button at the site's seed |
| Selection.RunCleanup | src/components/dashboard.jsx:548-551 | with no cleanup outstanding, nothing changes; otherwise exactly its handler is unregistered and its popup removed |
| Selection.Reconcile | src/components/dashboard.jsx:487-552 | no map or no selection: no marker active, every popup removed, the camera at the default centre and zoom 11 when the map exists, no listener added. A present selection: exactly its marker active, its popup filled and scheduled, the camera on the site at zoom 15, one new handler registered and the matching cleanup returned. A selection with no marker, popup or site: nothing changes |
| Selection.SetActive | src/components/dashboard.jsx:548-552 | the selection becomes `v`; the map and the dictionary keys are kept; setting the current value changes nothing |
| Selection.MapReady | src/components/dashboard.jsx:445-485 | the map is ready, and a second call changes nothing; on the first call the dictionaries hold exactly the catalogue ids and the click handlers capture the current selection; with nothing selected, every marker is on the map and inactive, every popup off the map and empty, the camera at the default view, and no handler added |
| Selection.ToggleDecision | src/components/dashboard.jsx:460-464 | deselect exactly when the compared selection is this site; otherwise select this site |
| Selection.ClickMarker | src/components/dashboard.jsx:459-465 | as written: the new selection is the toggle decision against the captured selection; a click on an unknown marker changes nothing |
| Selection.ClickMarkerLive | src/components/dashboard.jsx:459-465 | corrected: the toggle decision against the live selection |
| Selection.ClickMap | src/components/dashboard.jsx:539-544 | with a handler registered, a click outside every `.cultural-marker` clears the selection; otherwise nothing changes |
| Selection.ClickClose | src/components/dashboard.jsx:521-523 | closing the attached popup clears the selection; otherwise nothing changes |
| Selection.ClickLike | src/components/dashboard.jsx:360-365 | only the clicked attached popup's like state changes, by `Toggle`; nothing else in the controller changes |
| Selection.Unschedule | src/components/dashboard.jsx:528-530 | a fired timer leaves the schedule one shorter: the entries before it as they were, the entries after it shifted down by one |
| Selection.UnscheduleRemovesOne | src/components/dashboard.jsx:528-530 | a fired timer takes exactly one occurrence of its id out of the schedule |
| Selection.FireAttach | src/components/dashboard.jsx:528-530 | as written: the scheduled popup goes on the map whatever the selection now is, its content kept; nothing else changes but the schedule |
| Selection.FireAttachGuarded | src/components/dashboard.jsx:528-530 | corrected: the popup goes on the map only if its site is still selected, its content kept; otherwise no popup changes; nothing else changes but the schedule |
| Selection.Unmount | src/components/dashboard.jsx:481-484 | every marker and popup is off the map and the last pass's handler is unregistered |
| Selection.InitialCoherent | src/components/dashboard.jsx:439-443 | the first render is coherent |
| Selection.CleanupLeavesNothing | src/components/dashboard.jsx:548-551 | after a change of selection, the previous pass's cleanup leaves no handler registered and no popup on the map |
| Selection.ClearingPassCoherent | src/components/dashboard.jsx:488-504 | the pass with nothing selected leaves a coherent state |
| Selection.SelectingPassCoherent | src/components/dashboard.jsx:507-546 | the pass with a selection leaves a coherent state |
| Selection.SetActiveCoherent | src/components/dashboard.jsx:487-552 | a change of selection to nothing or to a marker keeps the controller coherent |
| Selection.FindInIds | src/components/dashboard.jsx:509 | every catalogue id is found |
| Selection.MapReadyCoherent | src/components/dashboard.jsx:445-485 | the map's arrival keeps the controller coherent |
| Selection.FireAttachGuardedCoherent | src/components/dashboard.jsx:528-530 | a guarded timer keeps the controller coherent |
| Selection.Step | src/components/dashboard.jsx:439-552 | corrected: one event handled with the live toggle and the guarded attachment |
| Selection.Run | src/components/dashboard.jsx:439-552 | corrected: a sequence of events handled one after another |
| Selection.StepCoherent | src/components/dashboard.jsx:439-552 | corrected: every event keeps the controller coherent |
| Selection.RunCoherent | src/components/dashboard.jsx:439-552 | corrected: every event sequence keeps the controller coherent |
| Selection.SingleActiveSelection | src/components/dashboard.jsx:487-552 | corrected: after any events, at most one marker is active, and it is the selection; at most one popup is on the map, and it is the selection's; one dismiss handler is registered while something is selected, none otherwise |
| Selection.WiredSetActive | src/components/dashboard.jsx:487-552 | as written: a change of selection keeps the controller wired (dictionaries, selection, cleanup, handlers, active marker and schedule consistent) |
| Selection.WiredReconcile | src/components/dashboard.jsx:498-552 | as written: a selection pass run after the previous pass's cleanup keeps the controller wired |
| Selection.WiredMapReady | src/components/dashboard.jsx:445-485 | as written: the map's arrival keeps the controller wired |
| Selection.WiredFireAttach | src/components/dashboard.jsx:528-530 | as written: a timer keeps the controller wired, though it may attach a stale popup |
| Selection.StepAsWritten | src/components/dashboard.jsx:439-552 | as written: one event handled with the captured toggle and the unguarded attachment |
| Selection.RunAsWritten | src/components/dashboard.jsx:439-552 | as written: a sequence of events handled one after another |
| Selection.StepAsWrittenWired | src/components/dashboard.jsx:439-552 | as written: every event keeps the controller wired |
| Selection.RunAsWrittenWired | src/components/dashboard.jsx:439-552 | as written: every event sequence keeps the controller wired |
| Selection.SingleActiveMarkerAsWritten | src/components/dashboard.jsx:487-552 | as written: after any events, at most one marker is active, and it is the selection; one dismiss handler is registered while something is selected, none otherwise |
| Selection.PassThenCleanup | src/components/dashboard.jsx:539-551 | a pass with a selection registers exactly one handler; its cleanup unregisters it and removes that popup, leaving the other popups as they were |
| Selection.ReselectResetsLikes | src/components/dashboard.jsx:521-525 | selecting a site builds its popup anew, so its like button starts over at the seed |
| Selection.UnmountReleasesAll | src/components/dashboard.jsx:481-484 | unmounting a coherent controller leaves no handler, marker or popup on the map |
| Selection.CapturedAtSetupIsNone | src/components/dashboard.jsx:445-485 | the markers' click handlers capture no selection |
| Selection.StaleCaptureNeverDeselects | src/components/dashboard.jsx:459-465 | with no captured selection, a marker click always selects that marker |
| Selection.StaleToggleScenario | src/components/dashboard.jsx:459-465 | as written, clicking "kordon" twice leaves it selected |
| Selection.ToggleTwiceClears | src/components/dashboard.jsx:459-465 | corrected: clicking a marker twice clears the selection, the highlight, the popup and the handler, and returns the camera to the default view |
| Selection.SelectSchedulesAttach | src/components/dashboard.jsx:528-530 | selecting a marker schedules exactly its popup's attachment and attaches nothing yet |
| Selection.StaleTimerAttaches | src/components/dashboard.jsx:528-530 | as written, a timer for a site that is no longer selected attaches its popup, and the controller is no longer coherent |
| Selection.ClickSelects | src/components/dashboard.jsx:459-465 | as written, with no selection captured: a click on another marker selects it, schedules its popup and leaves every popup off the map, the controller coherent |
| Selection.TwoSelections | src/components/dashboard.jsx:513-530 | selecting `a` then `b` schedules `a` then `b`, leaves `b` selected and `a`'s popup off the map |
| Selection.SecondSelection | src/components/dashboard.jsx:459-465 | with `a` selected and scheduled, a click on `b` schedules `b` after `a`, selects `b` and leaves `a`'s popup off the map |
| Selection.GhostPopupAsWritten | src/components/dashboard.jsx:528-530 | as written: select `a` then `b` quickly; `a`'s timer puts `a`'s popup on the map beside the selection `b`, and both popups end up shown |
| Selection.GhostPopupGuarded | src/components/dashboard.jsx:528-530 | corrected: `a`'s late timer leaves `a`'s popup off the map |
| Selection.LoadedCatalogue | src/components/dashboard.jsx:14-76 | after the map loads the shipped catalogue, the controller is coherent and idle, with markers for "kordon" and "agora" |
| Selection.GhostPopupScenario | src/components/dashboard.jsx:528-530 | on the shipped catalogue, "kordon" then "agora" leaves "kordon"'s popup on the map while "agora" is selected |
| Selection.DismissedPopupStays | src/components/dashboard.jsx:528-530 | as written: select `a`, click the bare map before its timer fires; the timer puts `a`'s popup on the map with nothing selected and no handler registered, and neither a map click nor its close button changes anything |
| Selection.DismissedPopupScenario | src/components/dashboard.jsx:528-530 | on the shipped catalogue, select "kordon" then click the bare map: the popup appears with nothing selected and a map click leaves it there |
| Controller.CulturalMap.constructor | src/components/dashboard.jsx:439-443 | the new component is in the initial state |
| Controller.CulturalMap.RemoveActiveClasses | src/components/dashboard.jsx:489-491 | the loop leaves the markers `Deactivated` |
| Controller.CulturalMap.MarkActive | src/components/dashboard.jsx:513-519 | the loop leaves the markers `Activated` for `id` |
| Controller.CulturalMap.RemoveAllMarkers | src/components/dashboard.jsx:482 | the loop removes every marker |
| Controller.CulturalMap.RemoveAllPopups | src/components/dashboard.jsx:492-494 | the loop removes every popup |
| Controller.CulturalMap.RunCleanup | src/components/dashboard.jsx:548-551 | leaves the state `Selection.RunCleanup` describes |
| Controller.CulturalMap.ClearingPass | src/components/dashboard.jsx:488-504 | un-highlights every marker, removes every popup, recentres when the map exists, returns no cleanup |
| Controller.CulturalMap.SelectingPass | src/components/dashboard.jsx:513-546 | highlights `id`, fills its popup, schedules its attachment, moves the camera, registers one handler and returns its cleanup |
| Controller.CulturalMap.Reconcile | src/components/dashboard.jsx:487-552 | leaves the state `Selection.Reconcile` describes |
| Controller.CulturalMap.SetActiveMarkerId | src/components/dashboard.jsx:548-552 | leaves the state `Selection.SetActive` describes |
| Controller.CulturalMap.BuildMarkersAndPopups | src/components/dashboard.jsx:451-479 | the loop over the catalogue fills the dictionaries as `MarkersFor`/`PopupsFor` describe |
| Controller.CulturalMap.OnMapReady | src/components/dashboard.jsx:445-485 | leaves the state `Selection.MapReady` describes |
| Controller.CulturalMap.Unmount | src/components/dashboard.jsx:481-484 | leaves the state `Selection.Unmount` describes |
| Controller.CulturalMap.ClickMarker | src/components/dashboard.jsx:459-465 | as written; leaves the state `Selection.ClickMarker` describes |
| Controller.CulturalMap.ClickMarkerLive | src/components/dashboard.jsx:459-465 | corrected; leaves the state `Selection.ClickMarkerLive` describes |
| Controller.CulturalMap.ClickMap | src/components/dashboard.jsx:539-544 | leaves the state `Selection.ClickMap` describes |
| Controller.CulturalMap.ClickClose | src/components/dashboard.jsx:521-523 | leaves the state `Selection.ClickClose` describes |
| Controller.CulturalMap.ClickLike | src/components/dashboard.jsx:360-365 | updates the closure's `liked` and `count` in place, as `Selection.ClickLike` describes |
| Controller.CulturalMap.FireAttach | src/components/dashboard.jsx:528-530 | as written; leaves the state `Selection.FireAttach` describes |
| Controller.CulturalMap.FireAttachGuarded | src/components/dashboard.jsx:528-530 | corrected; leaves the state `Selection.FireAttachGuarded` describes |

## Left out

- The MapLibre engine is not modelled: construction, tiles, `maxBounds`, controls, marker and popup positioning, and `easeTo`'s animation with its easing curve. The camera is kept only as its target (default centre or a site) and its zoom.
- Coordinates, descriptions and image URLs of the sites are not modelled, being display data only.
- The stylesheet injection, inline styles, hover handlers, the 400 ms heart animation and the legend JSX are not modelled, being cosmetic.
- React's scheduler is not modelled. Effects run in order, cleanup first, and a `setState` with an unchanged value is a no-op.
- There is only one map instance, because `onMapReady` is the stable `setMapInstance`. A second `MapReady` does nothing.
- Selection.ClickClose: a close click is modelled only while that popup is on the map, since a removed popup cannot be clicked.
- Selection.ClickLike: a like click is modelled only on an attached popup. Its `stopPropagation` is not modelled, because clicks inside a popup never reach the map's click handler.
- Selection.FireAttach: a timer that fires after the component has unmounted is not modelled.
- Text.Lower: only ASCII letters change case. The catalogue ids, categories and the base map's layer ids are ASCII, and full Unicode case mapping is not modelled.
- MarkerFactory.ColorFor: `COLOR_MAP[site.type]` on a name inherited from `Object.prototype` (such as `constructor`) is not modelled. Such a name is treated as an unknown category.
- MarkerFactory.IconPathFor: `iconPaths[site.type]` on an inherited name (such as `toString`) gives a function, and `pathData.split` then throws a `TypeError`. The model instead returns the `photo` path.
- MapStyle.HideDefaultLayers: layer ids are taken as unique, as MapLibre requires, so hiding by id is hiding by position.
- LikeCounter.Seed: a non-numeric or `NaN` `initialLikes` is not modelled. The seed is an integer or absent.
- Catalog.Find: duplicate site ids are allowed by `Find`, which returns the first. The marker dictionary keeps the last record written for an id.
- The photo upload and its notice are not part of this model.

## Findings

| source | as written | input that shows it | evidently intended | confidence | as-written member | corrected member |
|---|---|---|---|---|---|---|
| src/components/dashboard.jsx:459-465 | the marker click handler compares with `activeMarkerId` as captured by the setup effect, which depends only on `[mapInstance]` and so always captures `null` | map loaded, click the "kordon" marker twice | the second click deselects "kordon" | not executed | Selection.StaleToggleScenario | Selection.ToggleTwiceClears |
| src/components/dashboard.jsx:528-530 | the deferred `popup.addTo(mapInstance)` attaches without checking that its site is still selected | map loaded, click "kordon" then "agora" within 100 ms | only the selected site's popup is shown | not executed | Selection.GhostPopupScenario | Selection.GhostPopupGuarded |
| src/components/dashboard.jsx:528-530 | the deferred attachment also runs after the selection has been cleared, when no dismiss handler is left | map loaded, click "kordon", then the bare map within 100 ms | no popup is shown once the selection is cleared | not executed | Selection.DismissedPopupScenario | Selection.SingleActiveSelection |
