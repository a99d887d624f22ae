# Satellite tracker: selection, filter and catalog bookkeeping

A Dafny model of the application layer of a browser satellite tracker. The `App` component
keeps the catalog of stations, the list of selected stations, the highlight query and the
reference frame, and drives a 3D scene engine with `addOrbit`, `removeOrbit`,
`setReferenceFrame`, `highlightStation` and `updateAllPositions`. The `Checkboxes` component
shows one checkbox per distinct owner and reports the checked owners back to the application,
which replaces the selection with the stations of those owners.

The model has these files:

- `wrappers.dfy`: `Option`.
- `seqs.dfy`: the JavaScript array operations the components use, each specified once:
  - `filter` (`Seqs.Filter`)
  - `find` (`Seqs.FindFirst`)
  - the filter-or-append toggle (`Seqs.Toggle`)
  - `[...new Set(xs)]` (`Seqs.Dedup`)
- `text.dfy`: ASCII `toLowerCase`, `indexOf` on strings, and `split` on one character with its inverse `Join`.
- `catalog.dfy`: the station record and the pure computations of `App.js`:
  - the name query
  - the lookup by catalog number
  - the ownership merge
  - the owner filter
- `engine.dfy`: the scene engine, represented by the log of the property writes and calls the application makes on it (`referenceFrame =`, `initialize`, `loadLteFileStations`, `addOrbit`, `removeOrbit`, `setReferenceFrame`, `highlightStation`, `updateAllPositions`).
  - `Shown` and `CurrentFrame` read that log as the set of orbit paths on screen (each tagged with the frame it was computed in) and the engine's current frame.
  - `InSyncWith` says the screen shows exactly the orbits of a selection, all in the current frame.
- `app.dfy`: the `App` component as a class. Its state fields are class fields, and each handler is a method that updates them and appends to the engine's log.
  - Every handler that keeps the screen in step with the selection proves `old(InSync()) ==> InSync()`.
- `checkboxes.dfy`: the `Checkboxes` component as a class, and the unique-owners list.
  - `onOwnerFilterChange` is represented by the log of the lists it was given.

Stations are values compared structurally. JavaScript compares them by object identity. An
owner is `Option<string>`; `None` stands for `undefined`, the owner of a station no feed entry
matched. `setState` is modelled as an immediate field update.

## Model

| member | source | states |
|---|---|---|
| Seqs.Filter | App.js:109 | `filter` keeps exactly the elements that satisfy the test, each with its multiplicity, in their original order (a subsequence) |
| Seqs.Remove | App.js:141 | `filter(s => s !== x)` leaves no occurrence of `x`, keeps every other value with its multiplicity, and keeps their relative order |
| Seqs.Toggle | Checkboxes.js:35-37 | the include-then-remove-or-append toggle flips whether the value is present and keeps every other value's count |
| Seqs.FindFirst | App.js:113 | `find` returns nothing iff no element satisfies the test; otherwise it returns an element that does, at a position before which none does |
| Seqs.FirstIndex | Checkboxes.js:49 | the position of a value's first occurrence |
| Seqs.Dedup | Checkboxes.js:49 | `[...new Set(xs)]` has no duplicates, the same values as `xs`, and lists them in order of first occurrence |
| Seqs.ToggleTwiceAbsent | App.js:122-127 | toggling an absent value appends it, and toggling it again restores the list exactly (so selecting then deselecting an unselected station, or checking then unchecking an owner, restores the list) |
| Seqs.TogglePresentTwice | App.js:122-127 | toggling a present value twice removes all its occurrences and puts one at the end |
| Seqs.ToggleNoDup | App.js:122-127 | toggling never creates a duplicate |
| Seqs.RemoveAbsent | App.js:140-145 | removing a value that does not occur changes nothing |
| Text.Lower | App.js:108 | lowering keeps the length, leaves no capital ASCII letter, keeps every other character, and turns each capital into its small letter |
| Text.LowerEqualIff | App.js:108 | two strings lower to the same string exactly when they agree up to ASCII case, so the query compares names without regard to case |
| Text.LowerIdempotent | App.js:108 | lowering twice equals lowering once |
| Text.IndexOf | App.js:109 | `indexOf` is -1 iff the query does not occur; otherwise it is the first position where it occurs |
| Text.ContainsEmpty | App.js:109 | the empty query occurs in every name |
| Text.Split | App.js:90 | `split(',')` yields at least one part, and no part contains a comma |
| Text.JoinSplit | App.js:90 | joining the parts of a split with the separator gives back the string |
| Text.SplitJoin | App.js:90 | splitting a join of separator-free parts gives back the parts |
| Catalog.QueryStationsByName | App.js:107-110 | the result holds exactly the stations whose lower-cased name contains the lower-cased query, each with its multiplicity, in catalog order |
| Catalog.QueryEmptyMatchesAll | App.js:107-110 | the empty query returns the whole catalog |
| Catalog.QueryIgnoresCase | App.js:107-110 | a query and its lower-cased form return the same stations |
| Catalog.FindStationById | App.js:112-114 | nothing iff no station has a satrec with that `satnum`; otherwise the first station that has one |
| Catalog.FoundById | App.js:94-95 | the station one id selects, as a list of at most one: empty iff no station carries the id |
| Catalog.StationsForIds | App.js:93-96 | the stations the ids select: at most one per id, each from the catalog and carrying one of the ids |
| Catalog.StationsForIdsSnoc | App.js:93-96 | one more id appends exactly the station that id finds, if any |
| Catalog.RepeatedIdSelectsTwice | App.js:93-96 | an id given twice selects its station twice, so the query string can create a duplicate selection |
| Catalog.FindEntry | App.js:178 | the feed entry for a name is absent iff no entry has exactly that `OBJECT_NAME`; otherwise it is the first that does |
| Catalog.MergeOne | App.js:178-182 | a merged station keeps its name and satrec; with a matching entry it gets the first match's `OWNER`; without one it is unchanged |
| Catalog.MergeOwnership | App.js:177-183 | the merge keeps the count and the order, and applies the per-station rule at every index |
| Catalog.MergeOwnershipIdempotent | App.js:245-251 | merging the same feed twice equals merging it once |
| Catalog.OwnedBy | App.js:257-259 | the stations whose owner is in the list, each with its multiplicity, in catalog order; the empty list gives nothing |
| OrbitEngine.Engine.constructor | App.js:67 | a new engine has received no calls |
| OrbitEngine.Engine.AssignReferenceFrame | App.js:68 | the write of the `referenceFrame` property is recorded |
| OrbitEngine.Engine.Initialize | App.js:69-71 | `initialize` is recorded |
| OrbitEngine.Engine.LoadLteFileStations | App.js:156 | `loadLteFileStations` with its URL and colour is recorded |
| OrbitEngine.Engine.AddOrbit | App.js:137 | `addOrbit` is recorded |
| OrbitEngine.Engine.RemoveOrbit | App.js:144 | `removeOrbit` is recorded |
| OrbitEngine.Engine.SetReferenceFrame | App.js:224 | `setReferenceFrame` is recorded |
| OrbitEngine.Engine.HighlightStation | App.js:102 | `highlightStation` is recorded |
| OrbitEngine.Engine.UpdateAllPositions | App.js:235 | `updateAllPositions` is recorded |
| OrbitEngine.Removals | App.js:215 | one `removeOrbit` per station, in order |
| OrbitEngine.Additions | App.js:226 | one `addOrbit` per station, in order |
| OrbitEngine.AdditionsAppend | App.js:93-96 | the `addOrbit` calls for two lists in a row are those of their concatenation |
| OrbitEngine.Highlights | App.js:102 | one `highlightStation` per station, in order |
| OrbitEngine.ShownSnoc | App.js:137 | one more call changes the screen as its `Redraw` says, and only the property write or `setReferenceFrame` changes the frame |
| OrbitEngine.ShownAfterRemovals | App.js:215 | removing the orbits of a list leaves every other orbit and the frame |
| OrbitEngine.ShownAfterAdditions | App.js:226 | adding the orbits of a list draws each in the current frame and keeps the rest |
| OrbitEngine.ShownAfterHighlights | App.js:102 | highlighting changes neither the orbits on screen nor the frame |
| OrbitEngine.SelectKeepsSync | App.js:133-138 | appending a station and adding its orbit keeps the screen in step with the selection |
| OrbitEngine.SelectAllKeepsSync | App.js:93-96 | selecting a list of stations one by one keeps the screen in step |
| OrbitEngine.DeselectKeepsSync | App.js:140-145 | removing every occurrence and its orbit keeps the screen in step |
| OrbitEngine.RemoveAllKeepsSync | App.js:214-217 | removing the orbit of every selected station clears the screen |
| OrbitEngine.ReplaceKeepsSync | App.js:219-227 | removing the old orbits, optionally setting a frame, and adding the new orbits shows exactly the new ones in the new frame |
| OrbitEngine.InSyncNoStaleOrbit | App.js:219-227 | in step, no orbit on screen is computed in another frame or belongs to an unselected station |
| App.NextFrame | App.js:222 | the new frame is 1 or 2 and differs from the old one |
| App.NextFrameTwice | App.js:222 | switching twice from frame 1 or 2 restores it |
| App.App.constructor | App.js:56-77 | the initial state: empty selection and catalog, no query, count 0, both dates at the clock reading, frame 1 (the date slider is off); the engine has, in order, its `referenceFrame` property set to 1, been initialized, been asked to load the active-satellite element set in white, and been positioned at the clock reading; the screen is in step |
| App.App.SelectStation | App.js:133-138 | the station is appended (even if already selected); exactly one `addOrbit`; nothing else changes; the screen stays in step |
| App.App.DeselectStation | App.js:140-145 | every occurrence leaves the selection, the others keep their order; exactly one `removeOrbit`; the screen stays in step |
| App.App.ToggleSelection | App.js:122-131 | `isSelected` decides: a selected station is deselected, any other selected; the matching single call; the screen stays in step |
| App.App.HandleStationClicked | App.js:116-120 | no station: nothing changes; otherwise the station is toggled |
| App.App.HandleSearchResultClick | App.js:202-206 | no station: nothing changes; otherwise the station is toggled |
| App.App.HandleRemoveSelected | App.js:208-212 | no station: nothing changes; otherwise the station is deselected |
| App.App.RemoveOrbits | App.js:215 | the loop issues one `removeOrbit` per station, in order |
| App.App.AddOrbits | App.js:226 | the loop issues one `addOrbit` per station, in order |
| App.App.HighlightAll | App.js:102 | the loop issues one `highlightStation` per station, in order |
| App.App.HandleRemoveAllSelected | App.js:214-217 | one `removeOrbit` per previously selected station, in order, then an empty selection; the screen stays in step |
| App.App.HandleReferenceFrameChange | App.js:219-227 | the frame flips 1/2; the selection is unchanged; the calls are a `removeOrbit` per selected station, one `setReferenceFrame`, then an `addOrbit` per selected station; the screen stays in step |
| App.App.HandleOwnerFilterChange | App.js:256-261 | as written: the selection becomes the catalog's stations whose owner is listed, and no engine call is made |
| App.App.HandleOwnerFilterChangeSynced | App.js:256-261 | the same selection, with the old orbits removed and the new ones added, so the screen stays in step |
| App.App.HandleOwnerCheckboxClick | App.js:275 | a click on an owner's checkbox, with `handleOwnerFilterChange` as the panel's callback as written: the owner is toggled in the panel, the selection ends as the stations of the checked owners, and no engine call is made |
| App.App.HandleOwnerCheckboxClickSynced | App.js:275 | the same click with the corrected handler as the callback: the same panel and selection, each report replaces the orbits on screen, and the screen stays in step |
| App.App.UpdateStationsWithOwner | App.js:244-254 | the catalog becomes its merge with the feed; everything else, including the screen, is unchanged |
| App.App.SelectById | App.js:94-95 | the station an id finds, if any, is appended with its `addOrbit`; an unknown id does nothing |
| App.App.SelectByIds | App.js:93-96 | the ids' stations, in id order, are appended with one `addOrbit` each |
| App.App.ProcessQuery | App.js:83-105 | a present `ss`: its comma-separated ids select their stations in order; a present `highlight`: the name matches are highlighted, `query` is set, and `queryObjectCount` is the number of matches; the screen stays in step |
| App.App.HandleStationsLoaded | App.js:165-167 | the loaded stations become the catalog and the query string is applied to them |
| App.App.HandleDateChange | App.js:229-236 | the date is the slider value when there is one and `d` otherwise; the engine repositions for it |
| App.App.HandleTimer | App.js:197-200 | without the date slider, the date follows the clock |
| App.OwnerFilterLosesSync | App.js:256-261 | one loaded station whose owner is then checked: with the handler as written, the screen is not in step |
| App.OwnerFilterSyncedKeepsSync | App.js:256-261 | the same steps with the corrected handler leave the screen in step |
| Checkboxes.Owners | Checkboxes.js:49 | `stations.map(s => s.owner)`: the owner values that occur are exactly the owners of the catalog's stations (an absent owner included) |
| Checkboxes.UniqueOwners | Checkboxes.js:49 | every owner that occurs (an absent owner included) appears exactly once, in order of first occurrence |
| Checkboxes.SingleOwnerSingleCheckbox | Checkboxes.js:49 | a catalog with one owner throughout gives a single checkbox |
| Checkboxes.Checkboxes.IsChecked | Checkboxes.js:64 | a checkbox is checked iff its owner occurs in the checked list, and while that list has no duplicate it occurs there exactly once |
| Checkboxes.Checkboxes.constructor | Checkboxes.js:24-27 | initially the accordion is closed, no owner is checked, and nothing has been reported |
| Checkboxes.Checkboxes.ToggleAccordion | Checkboxes.js:29-31 | the accordion flips, so doing it twice restores it; nothing else changes |
| Checkboxes.Checkboxes.HandleOwnerChange | Checkboxes.js:33-42 | a checked owner loses every occurrence, an unchecked one is appended; no other owner changes state; the new list is exactly what is reported; no owner ends up checked twice |
| Checkboxes.Checkboxes.ClickOwnerCheckbox | Checkboxes.js:65-66 | `onClick` reports the clicked owner alone, then `onChange` toggles it and reports the checked owners, so the last report is the checked list |

## Left out

- The scene engine's own code (`./engine`) is not part of this model. It covers propagation, frame transforms, orbit sampling and rendering. The engine is the log of the property writes and calls it receives, plus the reading of that log given by `Shown`/`CurrentFrame`. That reading is what the application evidently expects of `addOrbit`/`removeOrbit`/`setReferenceFrame`. The arguments `initialize` receives (the scene element and the `onStationClicked` callback) are not recorded.
- OrbitEngine.Shown reads the log as a set of orbits: a second `addOrbit` of a station already on screen adds nothing, and one `removeOrbit` takes away every orbit of the station. The screen-in-step claims for a station selected twice rest on that reading. This covers `App.App.SelectStation` on an already-selected station and `App.App.ProcessQuery`/`App.App.SelectByIds` with a repeated id such as `ss=25544,25544`. An engine that keeps one orbit object per `addOrbit` call would leave a stale copy after the deselect.
- `loadLteFileStations`, `fetch` and the promise chain (App.js:147-191) are I/O. The model starts from the lists they deliver: `HandleStationsLoaded`, and `UpdateStationsWithOwner` for the inline merge at App.js:177-185.
- `window.location.search` and `qs.parse` (App.js:84-87) are the browser and a foreign library. `ProcessQuery` takes the already-parsed `ss` and `highlight` values. A parameter counts when it is present and non-empty, as in `if (params.ss)`. The early return on a missing query string is the case where both are absent.
- The guard `!selectedIds || selectedIds.length === 0` (App.js:91) can never fire, because `split` always returns at least one part (`Text.Split`). The model has no branch for it.
- `setInterval`, `new Date()` and the date slider's DOM event are the clock and the browser. The clock reading is a parameter (`now`, `d`) and the slider value an `Option<int>`. `Date` objects are integers of milliseconds.
- `componentWillUnmount`, `renderDate` and the JSX of `render` (apart from the callback wiring at App.js:275 and the owner list at Checkboxes.js:49) are presentation, not state.
- React's batched, asynchronous `setState` is modelled as an immediate update. So is the spread `{...this.state, query, ...}` at App.js:103, which in React could write back a `selected` read before the same call's selections were applied.
- Checkboxes.Checkboxes.ClickOwnerCheckbox fixes one event order: `onClick` first, then `onChange`. React dispatches them in that order for one click. Other orders are not modelled. Each handler is also modelled on its own.
- `toLowerCase` lowers only the ASCII letters. Unicode case mapping is not modelled.
- `satnum == id` uses loose equality in JavaScript. The model compares strings exactly.
- Object identity: stations are values. Two distinct station objects with equal fields are one value here. After the merge produces new station objects, the old and new objects are different in JavaScript. In the model they are equal whenever the merge changed nothing.
- Three behaviours of the code that a reader might not expect:
  - Selection is not idempotent. Selecting an already-selected station appends it again (`App.App.SelectStation`, `Catalog.RepeatedIdSelectsTwice`). Select followed by deselect restores the selection only when the station was not selected before (`Seqs.ToggleTwiceAbsent`).
  - A station that no feed entry matches keeps whatever owner it had; it is not reset to absent (`Catalog.MergeOne`).
  - An empty owner list clears the selection; it does not leave the selection alone (`Catalog.OwnedBy`).

## Findings

| source | as written | input that shows it | evidently intended | confidence | as-written member | corrected member |
|---|---|---|---|---|---|---|
| App.js:256-261 | `handleOwnerFilterChange` replaces `selected` but calls neither `removeOrbit` nor `addOrbit`, unlike every other change of `selected`, so the orbits on screen no longer match the selection | catalog `[ISS (ZARYA), owner "ISS"]`, nothing selected, then the owner list `["ISS"]`: ISS is selected but no orbit is drawn; deselecting it later removes an orbit that was never added | the orbits of the old selection are removed and those of the new one added, as `handleRemoveAllSelected` and `selectStation` do (the note at App.js:43 asks for checkboxes "that call select station on each station") | not executed | App.OwnerFilterLosesSync | App.App.HandleOwnerFilterChangeSynced |
