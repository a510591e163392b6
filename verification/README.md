# Mirrormere, proved

A Dafny model of the parts of Mirrormere (a smart-display server in Go with edge daemons in Go and
Python) where being right is not obvious from reading one function, and proofs of what those parts
promise. `dafny verify dfyconfig.toml` checks everything.

## What is here

**Grid layout** (`Grid`, `Masks`, `Board`, `Search`, `Tilings`, `Fillings`, `Groups`, `Choices`, `Solver`,
`Packing`, `Layouts`, `LayoutOrder`, `GridLayout`). The backtracking solver that packs widgets onto screens,
with pinned widgets repeated on every screen. It tests only "are all masks full"; the proofs add the rest. A
layout it returns is a tiling with every widget on exactly one screen (or at one origin on all screens, if
pinned). When it gives up below its node budget, no tiling exists on any number of screens. The search never
visits more nodes than a bound that depends only on the grid and the number of widgets, so with a larger budget
the solver decides the question; with a budget no larger than the number of unpinned widgets it never finds
anything. `Masks` proves that the 32-bit word operations the code uses are the set operations the other modules
use. `Fillings` says which of the tilings is found, without mentioning the solver: pinned widgets at the first
origins any tiling gives them, the others as the first filling in configuration order or, after more than 512
nodes, the first by size. If the widgets fit one after the other in configuration order, the layout shows
exactly that.

**Explicit placement and overrides** (`Explicit`, `Holes`, `ExplicitScreens`, `Overrides`, `OverrideIds`). The
second solver keeps the user's coordinates and fills holes with greedy spacers; the override builder places what
the user did not position, with bookkeeping of its own. The two records of taken cells agree, so the solver can
only ever report an overlap the user asked for. Every screen lists each placement once, field by field, and
spacers in the holes, and the widget list says exactly what the screens show; a widget is laid out as its last
override says. Greedy filling is determined by the placements, so it can be said of the placements alone when
the resulting widget list has distinct ids: no widget may have the name of a hole.

**Event stream** (`Ring`, `Resume`, `ResumeLimits`, `EventIds`, `SseText`, `SseFields`, `SseLimits`). The replay ring refines
a list. The publish, subscribe, replay and drain steps interleave freely in a state machine, and clients may
start with any last event id; what a client receives stays one gap-free, duplicate-free stretch of the published
events over any evictions and reconnects. A client the server cannot replay to receives the whole hydration
batch first. The text written in Go is read back in Python, and the condition for that is exact.

**Cast frames** (`Varints`, `Cast`). Round trip of any stream of frames, decoding field by field, unknown fields
ignored.

**Photo deck** (`PhotoDeck`), **provider reconciler** (`Reconciler`, `RepeatedIds`, `Coordinator`), **chat log**
(`ChatLog`), **calendar timeline** (`Timeline`), **e-ink coalescer** (`Coalescer`, `CoalescerRuns`). A shuffled
deck that skips nothing, a worker map that matches the configuration and exactly when it does not, a pruned
store that answers like an unbounded one, a strictly increasing axis with collapsed gaps, and a timer that
agrees with its predicate.

`Sorting` and `Text` hold the stable sort and the string operations the others share.

### Reading the model

- Times and percentages are integers (nanoseconds) or reals; no floating point.
- Random choices, clock readings, answers of remote servers and the success of starting a provider are
  parameters or arbitrary choices, so every statement holds for all of them.
- Go's `sort.Slice` on keys that are pairwise distinct and `sort.SliceStable` are one stable sort.
- Ghost parameters such as `spots`, `want`, `full` or `dealt` are histories that only the proofs see. `SolveGridWithBudget`
  also returns whether the search ended below its budget, which in Go is visible in `nodeCount`.

### Where code and documentation differ

- `coalesce.py` documents `min_refresh_seconds` as a floor on panel writes. It is a floor on the time between the
  starts of refreshes that write, and even that only if the safety fetch is off or not faster than the floor
  (`StartsFloorIff`). The panel is written after the fetch, and the recorded time is from before it, so a slow fetch
  followed by a quick one writes the panel earlier than the floor allows (`SlowFetchBreaksFloor`, with the default
  settings and a fetch of thirty seconds). `PanelFloorIff` gives the exact condition for any distance and any bound on
  how long a turn takes, `DocumentedFloorIff` the one for the documented floor.
- The event handler subscribes before it asks for the replay "to eliminate race window". The race is gone for ids issued
  before the subscription. An id that is issued between subscription and replay, while other events are already
  queued, gets events repeated (`EarlyIdGetsRepetitions`); `FilterHoldsIff` is the exact condition.
- Configuration validation refuses repeated widget ids, but an override appends spacers to a list that was validated
  before, and nothing reserves their names (`AppliedIdsDistinctIff`; `OverrideRepeatsId` is an accepted override that
  repeats an id). No worker is lost by that, because spacers have none (`OverrideListsLoseNone`). But the reconciler
  compares by id: it stops the worker of a widget nobody touched and starts none (`SpacerStopsWidget`; exactly when, in
  `WorkerMissingIff`), or leaves the worker of a widget that is gone running (`GoneWidgetKeepsRunning`; exactly which
  configurations are safe, in `OverrideAgreesIff`).
- `Event.Format` is documented as normalising data for the event stream format, but it writes one `data:`
  field: data with a line feed does not survive (sections 9.2.5 and 9.2.6 of the WHATWG HTML Living Standard
  ask for one field per line). `SurvivesIff` says exactly which events do.
- The solver's last error says the widgets cannot tile the grid. That is certain only if the search ended
  below its budget; at the budget the same error means "not found" (`TooSmallABudget`: two halves of the landscape
  grid and a budget of one node).

## Model

| member | source | states |
|---|---|---|
| `Masks.ComputeWidgetBitmask` | internal/layout/solver.go:77-83 | the six-column fast path: the word is exactly the rectangle, for one row and for two |
| `Masks.ComputeWidgetBitmaskForGrid` | internal/layout/solver.go:86-96 | on every supported grid the word of an in-bounds rectangle has exactly the rectangle's bits |
| `Masks.UnionRepresents` | internal/layout/solver.go:478 | bitwise or of two words is the union of their cells |
| `Masks.DifferenceRepresents` | internal/layout/solver.go:490 | and-not of two words is the difference of their cells |
| `Masks.OverlapRepresents` | internal/layout/solver.go:475-477 | two words have no common bit exactly when their cell sets are disjoint |
| `Masks.FullMeansAllTaken` | internal/layout/solver.go:27-29 | a word equals the full mask exactly when every cell of the grid is taken |
| `Masks.TrailingZerosIsFirstFree` | internal/layout/solver.go:504-506 | the trailing zeros of the complement number the first free cell in reading order |
| `Masks.RepresentsIsInjective` | internal/layout/solver.go:570-578 | words that stand for the same cells are equal, so comparing words compares boards |
| `Board.TiledExactlyOnce` | internal/layout/solver.go:534-568 | in a tiling every cell of every screen lies in exactly one widget shown there |
| `Board.LiftUndoesPut` | internal/layout/solver.go:580-588 | taking a spot off the board again restores every screen |
| `Board.FreeIffNoClash` | internal/layout/solver.go:475-477 | the cells of a spot are free exactly when it clashes with no spot already placed |
| `Board.TiledIffAreaFits` | internal/layout/solver.go:499-502 | spots that do not clash tile k screens exactly when their areas add up to all cells |
| `Search.SomeBranchSucceeds` | internal/layout/solver.go:499-532 | exact cover: if a completion exists, some shape with a widget left, at the first free cell, leads to one |
| `Search.NoBranchNoCompletion` | internal/layout/solver.go:508-531 | if every shape with a widget left fails at the first free cell, no completion exists, whatever the order they were tried in |
| `Search.SomePinBranchSucceeds` | internal/layout/solver.go:448-467 | pinned widgets can be completed exactly when some origin of the next one can |
| `Tilings.TilingIgnoresOrder` | internal/layout/solver.go:331-365 | sorting widgets changes nothing about which plans are tilings |
| `Tilings.TileableIsCompletable` | internal/layout/solver.go:535-568 | any tiling of the widgets lies in the space the search explores from the empty board |
| `Tilings.TilingIsPinnedCompletion` | internal/layout/solver.go:448-467 | the pinned spots of any tiling lie in the space the search explores |
| `Fillings.InTurnIsFirst` | internal/layout/solver.go:508-526 | if the widgets fit one after the other, that is the first of all fillings in configuration order |
| `Fillings.FirstPinsComeFirst` | internal/layout/solver.go:448-467 | origins chosen first at every pinned widget are not after those of any other list that can be completed |
| `Groups.GroupOfNext` | internal/layout/solver.go:478-484 | the first unused widget of its shape is the one a group hands out next |
| `Choices.FillsIsCompletable` | internal/layout/solver.go:494-532 | every filling is a completion, so a shape that cannot be completed begins no filling |
| `Choices.FirstAmongBranches` | internal/layout/solver.go:508-531 | if the shapes tried before begin no completion and the rest is the first filling behind this one, the whole is the first filling in the order of the pass |
| `Choices.StraightOn` | internal/layout/solver.go:508-526 | if the remaining widgets fit in turn, the first candidate in configuration order is the next of them |
| `Solver.PlaceKeepsConsistent` | internal/layout/solver.go:478-484 | placing a widget of a shape keeps board, group counts, placements and free area in step |
| `Solver.PinKeepsConsistent` | internal/layout/solver.go:456-460 | placing a pinned widget on all screens keeps them in step |
| `Solver.NothingLeftMeansFull` | internal/layout/solver.go:428-431 | in a consistent state every widget is placed exactly when every mask is full: conservation of area |
| `Solver.GridSolver.FirstIncompleteScreen` | internal/layout/solver.go:570-578 | the least screen with a free cell; -1 exactly when all are full |
| `Solver.GridSolver.CandidateOrder` | internal/layout/solver.go:508-526 | every group with a widget left is tried, by the configuration order of its next widget in the first pass and largest shape first in the second |
| `Solver.GridSolver.FillAllScreens` | internal/layout/solver.go:580-588 | adds a rectangle to, or removes it from, every screen |
| `Solver.GridSolver.TryPlaceShapeGroup` | internal/layout/solver.go:470-492 | success fills the board, took at least a node for each widget left, and is the first filling behind this shape; failure restores board, counts and placements and, within budget, proves this branch has no completion; node count bounded |
| `Solver.GridSolver.PlaceOne` | internal/layout/solver.go:478-484 | the next widget of a shape is placed on free cells: board, counts and placements stay consistent and one widget less is left |
| `Solver.GridSolver.PlaceUnpinnedExactCover` | internal/layout/solver.go:494-532 | the same for a whole node; a success is the first filling of the board in the order of the pass; widgets that fit in turn are found in one node each and one more; terminates by the number of unplaced widgets whatever the budget; node count bounded |
| `Solver.GridSolver.TryCandidates` | internal/layout/solver.go:508-531 | the loop over the shapes: the first filling in their order, or none exists within budget |
| `Solver.GridSolver.PlaceUnpinnedInTwoPasses` | internal/layout/solver.go:427-447 | success is the first filling in configuration order if at most 512 nodes were visited and the first by size otherwise; fewer than 512 widgets that fit in turn are found by the first pass; failing below the original budget proves there is no completion |
| `Solver.GridSolver.TryPin` | internal/layout/solver.go:453-464 | one origin of a pinned widget: testing the first screen is enough, failure restores all screens, and a success after all earlier origins were ruled out is the first |
| `Solver.GridSolver.PinOne` | internal/layout/solver.go:456-460 | a pinned widget is put on every screen and recorded; all screens stay alike |
| `Solver.GridSolver.TryRow` | internal/layout/solver.go:449-465 | the origins of one row, left to right: the first that can be completed, or none can |
| `Solver.GridSolver.TryOrigins` | internal/layout/solver.go:448-467 | all origins of a pinned widget in reading order: the first that can be completed; failure below budget proves none can; node count bounded |
| `Solver.GridSolver.PlacePinned` | internal/layout/solver.go:426-468 | success is a full consistent board with the first pinned origins and the first filling behind them; widgets that fit in turn end up exactly there; failure below budget proves no placement completes the board; node count bounded |
| `Packing.ScreensSuffice` | internal/layout/solver.go:115-136 | the computed number of screens is the least with room, and the deficit is exactly the cells left over |
| `Packing.ScreensAreForced` | internal/layout/solver.go:115-136 | if the areas fit k screens exactly, k is the computed number (or the pinned widgets fill every screen alone) and the deficit is zero |
| `Packing.NoFitNoTiling` | internal/layout/solver.go:312-327 | an error or a deficit means no number of screens can be tiled |
| `Packing.PartitionAndValidateWidgets` | internal/layout/solver.go:282-329 | accepts exactly the well-formed lists whose areas fill some number of screens and splits them in order; every error is explained by the widgets |
| `Packing.SortAndGroupWidgets` | internal/layout/solver.go:331-365 | pinned widgets are permuted into the order area, rows, id; every unpinned widget is in the one group of its shape, in configuration order, none handed out, and the groups come largest first |
| `Packing.PinnedLargestFirst` | internal/layout/solver.go:332-340 | no pinned widget is larger than one before it, and equal sizes come by id |
| `Layouts.ScreenOrderPermutes` | internal/layout/solver.go:394-400 | the final screen order is a permutation, earliest configured widget first |
| `Layouts.RenumberKeepsTiled` | internal/layout/solver.go:401-406 | renumbering the screens by a permutation keeps a tiling a tiling |
| `Layouts.EveryWidgetPlaced` | internal/layout/solver.go:478-484 | when as many placements were made as there are unpinned widgets, each widget was placed exactly once |
| `Layouts.AssembleSolvedLayout` | internal/layout/solver.go:367-408 | each screen lists the pinned widgets and its own unpinned ones in reading order, screens renumbered in order |
| `LayoutOrder.ScreensInOrder` | internal/layout/solver.go:394-400 | every widget of a screen has one configured before it on every earlier screen |
| `LayoutOrder.InTurnInPlace` | internal/layout/solver.go:394-400 | screens filled in turn keep their numbers |
| `GridLayout.MovesToComputedScreens` | internal/layout/solver.go:115-136 | a tiling of any number of screens is one of the computed number |
| `GridLayout.SolveGridWithBudget` | internal/layout/solver.go:535-568 | Ok: the layout depicts a tiling of all widgets, with the first pinned origins of all tilings and the first filling in configuration order (always within 512 nodes) or by size, screens by earliest widget; fewer than 512 widgets that fit in sequence, within the budget, are shown exactly so. CannotTile below budget: no tiling on any number of screens. Other errors are explained. A budget above the search bound is never exhausted; one not above the number of unpinned widgets always ends in an error |
| `GridLayout.PinsFirstOfTilings` | internal/layout/solver.go:448-467 | no tiling gives the first pinned widget it puts elsewhere an earlier origin |
| `GridLayout.SequenceShown` | internal/layout/solver.go:367-408 | widgets laid in sequence are listed at their places on their screens |
| `GridLayout.SearchIsBounded` | internal/layout/solver.go:426-532 | the nodes the search can visit are bounded by a function of the grid and the numbers of pinned and unpinned widgets |
| `GridLayout.AnswerIsExact` | internal/layout/solver.go:535-568 | for well-formed widgets, an answer below budget is a layout if and only if some number of screens can be tiled |
| `GridLayout.ErrorMeansBudget` | internal/layout/solver.go:564-566 | for well-formed widgets that can tile, an error is CannotTile and means that the budget was exhausted |
| `GridLayout.TooSmallABudget` | internal/layout/solver.go:564-566 | two 3x2 widgets with a budget of one node are reported as impossible although they tile the grid |
| `Explicit.ValidateExplicitPlacements` | internal/layout/solver.go:619-647 | succeeds exactly when ids are non-empty and distinct after trimming and rectangles and screens are in range; collects exactly the unpinned screens |
| `Explicit.CompactScreenIndices` | internal/layout/solver.go:649-659 | used screens, each once and increasing, are numbered densely from zero |
| `Explicit.PlaceExplicitWidgets` | internal/layout/solver.go:661-705 | succeeds exactly when no two placements overlap on a screen they share, and otherwise names one that overlaps another; the masks are then exactly the placements |
| `Explicit.LargestSpacerAt` | internal/layout/solver.go:707-728 | a free rectangle at the cell: no other free one has more area, or as much and more rows |
| `Explicit.FillRemainingWithSpacers` | internal/layout/solver.go:730-747 | the loop ends, the screen is full, each spacer is the largest at the first cell the ones before leave free, spacers clash with nothing, other screens are untouched |
| `Explicit.SolveExplicit` | internal/layout/solver.go:591-617 | accepts exactly the acceptable lists; keeps every user origin, renumbers used screens densely in order, tiles every screen with greedy spacers in the holes; errors are explained |
| `ExplicitScreens.LayoutPortrays` | internal/layout/solver.go:661-705 | on the returned layout: each screen lists every placement it shows exactly once with its id, type, origin, dimensions and pinning, spacers at the holes and nothing else; the listed rectangles share no cell, cover the grid and come in reading order |
| `ExplicitScreens.SpacersAreListed` | internal/layout/solver.go:601-616 | everything listed is a placement or a returned spacer, and every returned spacer is listed |
| `Overrides.DimensionFromSlice` | internal/domain/dimension.go:22-31 | exactly the two-element slices that fit the landscape or the portrait grid |
| `Overrides.FindSlotOnScreen` | internal/config/override.go:161-171 | the first free rectangle in reading order, or none exactly when none is free |
| `Overrides.FindFirstOpenSlot` | internal/config/override.go:173-193 | the first spot, by screen and then in reading order, that clashes with nothing placed so far, or none exactly when all sixteen screens are crowded |
| `Overrides.TrackScreenMask` | internal/config/override.go:195-209 | each tracked mask stays exactly the pinned cells plus that screen's unpinned cells |
| `Overrides.BuildPlacementsFromOverrides` | internal/config/override.go:241-305 | user placements as asked, then one for every other widget but spacers, each at the first spot clear of all before it; the updated list describes them; refusals are explained |
| `Overrides.OnlyOverridesOverlap` | internal/config/override.go:241-305 | the built placements overlap exactly when the user's own do |
| `Overrides.OnlyIdsAndOverlaps` | internal/layout/solver.go:619-705 | the explicit solver can object to built placements only for ids or for overlaps among the user's own |
| `Overrides.ApplyOverride` | internal/config/override.go:335-363 | a widget is laid out at its last override's origin, with the dimensions it names or else its own, and so is its entry in the widget list; other widgets keep their dimensions; the list says exactly what the screens show, new spacers included and old ones dropped; everything an override makes is supported; success yields the explicit layout of the built placements; a solver error is about the id it names or an overlap the user asked for; other refusals are explained |
| `Overrides.TableHolds` | internal/config/override.go:337-340 | the table holds the last override of every id |
| `Overrides.ResultHonours` | internal/config/override.go:241-305 | each configured widget appears on its screen or screens and in the list as its last override, or without one its own entry, says |
| `Overrides.ResultLists` | internal/config/override.go:307-316 | the widget list has an entry for everything on the screens and no other |
| `Overrides.PlacementComesFrom` | internal/config/override.go:281-284 | only configured widgets are placed, and a configured spacer only if it has an override |
| `OverrideIds.SpacerIdIsInjective` | internal/layout/solver.go:739-740 | a spacer id tells its screen and its cell |
| `Holes.GreedyIsUnique` | internal/layout/solver.go:730-747 | of two greedy fillings of the same screen one starts the other: the spacers are determined by what is taken |
| `Holes.SpotsAreDense` | internal/layout/solver.go:649-659 | the renumbered spots are determined by the placements: a screen gets the number of used screens below it |
| `OverrideIds.SpacersNameHoles` | internal/layout/solver.go:730-747 | the ids of the generated spacers are exactly the names of the holes the placements leave |
| `OverrideIds.AppliedIdsDistinctIff` | internal/config/override.go:307-316 | the resulting widget list has distinct ids if and only if no placement is named after a hole of the placements |
| `OverrideIds.OneEntryPerId` | internal/layout/solver.go:661-705 | unless a placement is named after a hole, every screen it shows on lists exactly one entry with its id |
| `OverrideIds.OnlySpacersRepeat` | internal/config/override.go:307-316 | in every resulting list only an appended spacer repeats the id of a widget before it |
| `OverrideIds.OwnPrefixSuffices` | internal/layout/solver.go:739-740 | placements whose ids do not begin like a spacer id are not named after a hole |
| `OverrideIds.FirstHoleIsTaken` | internal/layout/solver.go:730-747 | a widget named after the first free cell of a screen is named after a hole, whatever else is placed |
| `OverrideIds.OverrideRepeatsId` | internal/config/override.go:335-363 | applying the override of one widget in the corner, named after the cell beside it, succeeds and yields a list that repeats an id |
| `Ring.ReplayIsExact` | internal/events/ring.go:76-133 | with distinct ids and a nondecreasing clock a replay is a miss or exactly all later events; the per-event expiry test drops none |
| `Ring.RingBuffer.constructor` | internal/events/ring.go:34-51 | capacity and lifetime default when not positive; the buffer starts empty |
| `Ring.RingBuffer.Add` | internal/events/ring.go:54-72 | head and count arithmetic keeps the array equal to the last `capacity` events added, in order |
| `Ring.RingBuffer.ReplaySince` | internal/events/ring.go:76-133 | the scans over the circular array answer what the list of all added events answers |
| `EventIds.IDGenerator.Next` | internal/events/event.go:77-80 | the clock's seconds and the counter with at least six digits; an id that was never issued before, as long as the 64-bit counter has not wrapped |
| `EventIds.IdsAreDistinct` | internal/events/event.go:76-80 | ids with different counters differ, whatever the times |
| `Resume.HitContinues` | internal/events/handler.go:86-101 | a replay that hits is exactly the events behind the presented id, and for a client that has received events this is where it left off |
| `Resume.MissedOnceMissedForever` | internal/events/ring.go:76-133 | in every run, a replay of an issued id that misses in one state misses in every later one |
| `Resume.ReplayableIff` | internal/events/ring.go:76-133 | in every run, an event can be replayed from exactly while it is among the last the buffer holds and its lifetime since publication is not over, and the answer is then all published after it |
| `Resume.OfferedSub` | internal/events/hub.go:176-189 | an offered event extends the queue as the next stretch of the log, or the subscriber is out |
| `Resume.WriteKeepsConn` | internal/events/handler.go:122-134 | the first event past the seen filter is exactly the next event of the log, so dropping the filter there is safe |
| `Resume.StepKeepsInv` | internal/events/hub.go:145-217 | every step of the publisher, the clock and every client keeps the invariant, whatever ids clients start with; an event may not be published under the id of a connection between subscription and replay whose queue starts with an earlier event |
| `Resume.RunKeepsInv` | internal/events/handler.go:53-154 | the invariant holds in every state of every run |
| `Resume.ReceivedWithoutGapOrDuplicate` | internal/events/handler.go:53-154 | in every state of every run what a client received since it started or was hydrated is one contiguous stretch of the published events, in order |
| `Resume.NothingIsSkipped` | internal/events/handler.go:53-154 | over any evictions, drops and reconnects the stretch only grows and keeps its beginning, unless the client starts over or a reconnect falls back to hydration |
| `Resume.ResumesBehindItsId` | internal/events/handler.go:74-101 | a client that starts with the id of any published event receives exactly what follows that event, until a reconnect falls back to hydration |
| `Resume.HydrationComesFirst` | internal/events/handler.go:86-93 | after a replay that misses, what the client has received and the hydration still on its way are the batch followed by the live events received, until the connection ends |
| `Resume.WholeBatchArrives` | internal/events/handler.go:86-93 | the batch is received in order before any live event, and after as many receives as it has ids the last id is its last |
| `ResumeLimits.FilterHoldsIff` | internal/events/handler.go:118-134 | the first queued event is filtered if the queue starts at the presented event or later, and is written as a repetition otherwise |
| `ResumeLimits.EarlyIdGetsRepetitions` | internal/events/handler.go:53-134 | a run in which a client presents an id before it is issued and receives events that are no stretch of the log |
| `SseText.Format` | internal/events/event.go:37-59 | for a transmittable event the text line by line: kind, id and data each under its name, and an empty line |
| `SseText.ParseSseBlock` | client/eink-node/sse.py:31-67 | kind, id and data of a block of lines, and whether it set anything |
| `SseText.SSEListener.Listen` | client/eink-node/sse.py:142-184 | the line loop dispatches each block and remembers the last id |
| `SseText.RoundTrip` | client/eink-node/sse.py:142-184 | any list of transmittable events, interleaved with any pings, is received exactly and in order |
| `SseFields.ManyLinesArrive` | client/eink-node/sse.py:31-67 | a block of one data field for each line is handed on as a message of the default kind whose data has exactly these lines |
| `SseFields.FieldForms` | client/eink-node/sse.py:48-54 | the value begins behind the colon or one space after it; a line without a colon is a name with no value |
| `SseFields.OtherLinesAreIgnored` | client/eink-node/sse.py:43-64 | comments and unknown fields change nothing |
| `SseFields.RemembersLastId` | client/eink-node/sse.py:142-184 | whatever lines arrive, the remembered id is that of the last event received that had one |
| `SseLimits.ReceivedIsClean` | client/eink-node/sse.py:41-67 | whatever the lines, kinds and ids received hold no line feed and no trailing carriage return |
| `SseLimits.SurvivesIff` | internal/events/event.go:37-59 | an event arrives unchanged if and only if its id is not empty and kind, id and data hold no line feed and no trailing carriage return |
| `Varints.PutUvarint` | client/cast-watcher/wire.go:152-157 | the scratch array holds the base 128 varint of the word, in at most ten bytes |
| `Varints.Uvarint` | client/cast-watcher/wire.go:67-70 | value and length of the varint at the front; short input and values past 64 bits are refused |
| `Varints.VarintReadsBack` | client/cast-watcher/wire.go:152-157 | every word is read back from its varint, whatever follows |
| `Varints.CutVarint` | client/cast-watcher/wire.go:67-70 | a varint cut short is not read |
| `Cast.AppendVarintField` | client/cast-watcher/wire.go:152-157 | appends tag and value of a number field |
| `Cast.AppendLengthDelimited` | client/cast-watcher/wire.go:159-165 | appends tag, length and bytes of a field |
| `Cast.EncodeCastMessage` | client/cast-watcher/wire.go:35-62 | the frame of the message's fields in order, or an error exactly when the body exceeds 64 KiB; read back field by field it holds fields 1 and 5 always, 2, 3, 4 and 7 exactly if not empty, 6 also if the payload type is text, and no others, by increasing number |
| `Cast.BodyCarriesFields` | client/cast-watcher/wire.go:35-53 | the same of the body of every message that fits a frame |
| `Cast.SampleIsEncoded` | client/cast-watcher/wire.go:35-62 | a message with a two-byte number and empty text, byte by byte |
| `Cast.DecodeCastField` | client/cast-watcher/wire.go:64-116 | one field's payload: every wire type, every error, the new offset and what is stored |
| `Cast.DecodeBody` | client/cast-watcher/wire.go:133-149 | for every byte string the loop ends, the offset grows and stays inside, and the result is the fields stored in order |
| `Cast.DecodeCastMessage` | client/cast-watcher/wire.go:119-150 | one frame is consumed from the reader; too long, cut short and empty inputs give their errors |
| `Cast.RoundTrip` | client/cast-watcher/wire.go:35-150 | decoding a message's frame followed by any bytes gives the message and leaves exactly those bytes |
| `Cast.StreamRoundTrip` | client/cast-watcher/wire.go:35-150 | any concatenation of frames decodes to the same messages, then end of input |
| `Cast.CutFrameIsRefused` | client/cast-watcher/wire.go:119-131 | no proper prefix of a frame is taken for a message |
| `Cast.CutFieldIsReported` | client/cast-watcher/wire.go:64-116 | a field cut in a number is corrupt, cut in its bytes it is truncated |
| `Cast.OddWireTypeIsCorrupt` | client/cast-watcher/wire.go:113-115 | wire types 3, 4, 6 and 7 are corrupt |
| `Cast.DecodingComposes` | client/cast-watcher/wire.go:133-149 | a decodable part can be decoded first and the rest after it |
| `Cast.UnknownFieldIsSkippable` | client/cast-watcher/wire.go:64-116 | fields of wire types 0, 1, 2 and 5 that the decoder does not store, all numbers outside 1 to 7 among them, can be prefixed to skippable bytes |
| `Cast.UnknownFieldsAreIgnored` | client/cast-watcher/wire.go:64-150 | inserting skippable fields between any two fields leaves the decoded message, or error, unchanged within the size limit |
| `PhotoDeck.GroupPhotosByDayAndAlbum` | internal/provider/photos.go:818-841 | days and albums once each, albums in order of appearance, the photos of every slot in order, the last photo of every key |
| `PhotoDeck.ExtractExistingDeckState` | internal/provider/photos.go:843-866 | surviving days in order of first appearance, and for each slot the first surviving photo |
| `PhotoDeck.BuildDeck` | internal/provider/photos.go:892-911 | one photo for each slot, the surviving one where there is one; day by day, and on a day album by album |
| `PhotoDeck.MovedCursor` | internal/provider/photos.go:913-919 | the cursor minus the dealt photos that left, kept inside the deck |
| `PhotoDeck.SingleAlbumSurvivors` | internal/provider/photos.go:843-911 | for one album the surviving photos are the first of the new deck, in the old order |
| `PhotoDeck.SurvivorsContinue` | internal/provider/photos.go:913-919 | the photos before the new cursor are exactly the survivors of those before the old one |
| `PhotoDeck.SameSize` | internal/provider/photos.go:965-982 | all decks of a scrape have as many photos as the scrape has slots, so the wrapped window is in range |
| `PhotoDeck.TailRepresents` | internal/provider/photos.go:973-979 | a tail and a fresh deck without the tail's slots hold exactly one photo for each slot |
| `PhotoDeck.PhotosProvider.ReconcilePhotoDeck` | internal/provider/photos.go:868-921 | after every scrape the deck has exactly one photo for each slot, the first survivor where there is one, old days first in their order and albums in order of appearance, and the cursor is in range; for one album with distinct keys the photos before the cursor are exactly the dealt ones |
| `PhotoDeck.PhotosProvider.SelectAlbumWindow` | internal/provider/photos.go:923-983 | every window is drawn from the scrape, has distinct slots and min(slots, 500) photos, and lies right before the cursor unless the cursor starts again; for one album nothing is dealt twice in a round and a round ends only when all of the deck was dealt; a reshuffled deck does not start with the photo just shown |
| `Reconciler.DiffConfigs` | internal/config/lkgc.go:523-559 | computes the classes of the difference, for any two widget lists |
| `Reconciler.NewWidgetsArePartitioned` | internal/config/lkgc.go:536-552 | added, modified and unchanged together are the new widgets, each exactly once |
| `Reconciler.ClassMembers` | internal/config/lkgc.go:536-552 | which class a widget is in, by id and by the settings of the old widget with that id |
| `Reconciler.RemovedMembers` | internal/config/lkgc.go:553-557 | removed are exactly the old widgets whose id is gone |
| `Reconciler.ChangesAreRecorded` | internal/config/lkgc.go:540-547 | a change is recorded with the widgets before and after it, whether the type is another one and whether type or configuration differ |
| `Reconciler.LayoutMembers` | internal/config/lkgc.go:548-552 | unchanged widgets with other dimensions or pinning are listed for the layout |
| `Reconciler.ConfiguredRuns` | internal/provider/coordinator.go:303-352 | for any two configurations, what runs under an id after an update: the last added widget that starts, else the last restarted one if it starts, else what ran before unless the id is gone |
| `Reconciler.DistinctRuns` | internal/provider/coordinator.go:303-352 | with distinct ids a widget that is new, changed or in a new time zone runs with its new settings exactly if it can be started; any other is left alone |
| `Reconciler.FirstRuns` | internal/provider/coordinator.go:416-421 | with distinct ids the first configuration runs exactly the widgets that can be started |
| `Reconciler.RemovedDoesNotRun` | internal/provider/coordinator.go:313-317 | no worker is left for a widget gone from the configuration |
| `Reconciler.ReconcileAgrees` | internal/provider/coordinator.go:285-362 | after an update to any configuration every worker has the current settings and time zone of a current widget, if widgets that shared an id before had the same settings |
| `Reconciler.RunAgrees` | internal/provider/coordinator.go:285-362 | the same after any number of updates; the last configuration may be any |
| `RepeatedIds.AgreesIff` | internal/config/lkgc.go:536-552 | the condition is exact: workers of a configuration stay current over every update if and only if its widgets that share an id have the same settings |
| `RepeatedIds.StaysCurrentIff` | internal/config/lkgc.go:536-552 | for given workers: they stay current over every update if and only if each has the settings of the last widget of its id |
| `RepeatedIds.OverrideAgreesIff` | internal/config/lkgc.go:536-552 | as long as no spacer runs: if and only if no other widget is followed by one with its id and other settings |
| `RepeatedIds.NoSpacerEverRuns` | internal/provider/coordinator.go:433-438 | no first configuration and no update makes a spacer run |
| `RepeatedIds.LeaksIff` | internal/provider/coordinator.go:349-352 | an update or a first configuration loses a running worker if and only if it adds two widgets with the same id that both start |
| `RepeatedIds.OverrideListsLoseNone` | internal/provider/coordinator.go:433-438 | lists in which only spacers repeat an id lose no worker, in any update or as the first configuration |
| `RepeatedIds.DistinctListsLoseNone` | internal/provider/coordinator.go:285-362 | neither do lists with distinct ids |
| `RepeatedIds.WorkerMissingIff` | internal/provider/coordinator.go:319-347 | the exact condition for a startable widget of an override list to have no worker after an update: a spacer with its id decides, or it is not restarted and had none |
| `RepeatedIds.SpacerStopsWidget` | internal/config/lkgc.go:536-552 | an input: the override that repeats an id stops the worker of the untouched widget, and none runs |
| `RepeatedIds.GoneWidgetKeepsRunning` | internal/config/lkgc.go:553-557 | an input: the worker of a widget that is gone runs on when a spacer keeps its id |
| `Coordinator.ProviderCoordinator.constructor` | internal/provider/coordinator.go:94-163 | starts the workers of the first configuration, all current; loses one exactly when it starts an id twice |
| `Coordinator.ProviderCoordinator.StartSingleWorker` | internal/provider/coordinator.go:423-507 | one new worker under the widget's id if it can be started; a worker is lost exactly when one runs under that id |
| `Coordinator.ProviderCoordinator.StopWorker` | internal/provider/coordinator.go:509-534 | the worker of an id is stopped and leaves the map; a lost worker stays lost |
| `Coordinator.ProviderCoordinator.UpdateConfig` | internal/provider/coordinator.go:285-362 | for any configurations, the workers in the map are those the reconciliation asks for, and it is said exactly when one is lost; if no two startable widgets with one id are added and widgets that shared an id before had the same settings, the running workers are exactly the started ones not stopped and match the new configuration; with distinct ids unchanged widgets keep their very worker; refused after shutdown or without a configuration |
| `Coordinator.ProviderCoordinator.Shutdown` | internal/provider/coordinator.go:370-414 | every worker in the map is stopped, for good; if none was lost, every worker ever started |
| `Coordinator.ProviderCoordinator.RecordWorkerPush` | internal/provider/coordinator.go:642-670 | a push is recorded exactly when it comes from the running worker of that widget; one from a replaced worker never is |
| `ChatLog.CapThenInsert` | internal/chatlog/store.go:241-258 | what the cap dropped cannot come back by adding a message |
| `ChatLog.CapThenExpire` | internal/chatlog/store.go:241-258 | what the cap dropped expires no later than what it kept |
| `ChatLog.PruneLater` | internal/chatlog/store.go:241-258 | pruning early never changes a later answer |
| `ChatLog.AddThenPrune` | internal/chatlog/store.go:98-106 | adding to a pruned list and pruning later equals adding to the whole history and pruning later |
| `ChatLog.SortIsStable` | internal/chatlog/store.go:243 | messages of the same time keep the order in which they were added |
| `ChatLog.LiveIsNewest` | internal/chatlog/store.go:241-258 | what a history shows is in order and not expired; an unexpired message is missing only if the cap is reached by messages not older than it |
| `ChatLog.AbsentShowsNothing` | internal/chatlog/store.go:253-256 | a key that was deleted has nothing to show, now or later |
| `ChatLog.Store.SortAndPrune` | internal/chatlog/store.go:241-258 | leaves the newest unexpired messages in stable time order, or removes the key |
| `ChatLog.Store.Add` | internal/chatlog/store.go:98-106 | the key's contents are the newest `max` unexpired messages of everything added since the last replacement; the message keeps its fields and its time, or gets the current time |
| `ChatLog.Store.Replace` | internal/chatlog/store.go:110-123 | the history starts again with the given messages, fields kept and missing times stamped |
| `ChatLog.Store.Messages` | internal/chatlog/store.go:197-215 | the stable time-ordered merge, over sorted keys, of what each accepted key's whole history shows; a message is in it exactly if some accepted key shows it |
| `Timeline.CollectOccupiedWeekHours` | internal/render/family_hours.go:207-245 | exactly the hours some event overlaps |
| `Timeline.OverlapsIffShared` | internal/render/family_hours.go:207-245 | an hour is occupied by an event exactly when they share a moment |
| `Timeline.ScanEndIsFirstHidden` | internal/render/family_hours.go:161-164 | the scan covers exactly the hours the band shows at least in part |
| `Timeline.OccupiedHourBounds` | internal/render/family_hours.go:247-262 | the first and the last occupied hour, or none |
| `Timeline.BuildCollapsedHourGaps` | internal/render/family_hours.go:264-288 | exactly the maximal free runs of at least three hours, in order and apart |
| `Timeline.ApplyCollapsedMiddayGaps` | internal/render/family_hours.go:153-205 | the band's gaps are exactly the free runs of at least three hours between two occupied hours; the early returns lose none |
| `Timeline.GapsAreFree` | internal/render/family_hours.go:153-205 | no event reaches into a gap, and gaps lie inside the band |
| `Timeline.MapMinutesToCanvasPct` | internal/render/family_hours.go:290-345 | the accumulator loop computes the share of the compressed canvas |
| `Timeline.PercentGrows` | internal/render/family_hours.go:290-345 | the map is strictly increasing inside the band from 0 to 100, for every gap list |
| `Timeline.EqualHeights` | internal/render/family_hours.go:290-345 | all gaps are as high as 39 minutes outside them, time runs evenly inside a gap, and equal stretches outside are equally high |
| `Timeline.PercentOutside` | internal/render/family_hours.go:290-303 | times outside the band are put at its ends |
| `Timeline.CollapsedGapsFit` | internal/render/family_hours.go:190-202 | the gaps a band is given are in order inside it |
| `Timeline.GenerateTimelineMarkersWithGaps` | internal/render/family_hours.go:347-398 | markers at the start, at exactly the full hours inside the band that no gap hides, and at the end, each at its rounded percentage |
| `Timeline.MarkersDescend` | internal/render/family_hours.go:347-398 | unrounded markers strictly increase and rounded ones never decrease |
| `Timeline.RoundingIsNearest` | internal/render/family.go:1117-1119 | a rounded percentage has two decimals and is as near as they allow |
| `Coalescer.NoWaitIffDue` | client/eink-node/coalesce.py:89-141 | the wait is zero exactly when a refresh is due |
| `Coalescer.WaitIsLeast` | client/eink-node/coalesce.py:114-141 | a finite wait is the least delay after which a refresh is due, an infinite one means never |
| `Coalescer.SleepTime` | client/eink-node/coalesce.py:241-247 | the worker sleeps at most a second and never past a wait of a millisecond or more, and as long as that allows |
| `Coalescer.BurstCoalesces` | client/eink-node/coalesce.py:74-87 | a burst of marks is one: due the debounce time after the last, the floor apart; all reasons and the first time are kept |
| `Coalescer.CoalescingEngine.ExecuteRefresh` | client/eink-node/coalesce.py:143-226 | every outcome of a fetch and what it leaves behind; the panel is written after the fetch, only with a fresh image that has bytes, while the recorded time is from before it |
| `Coalescer.CoalescingEngine.WorkerTurn` | client/eink-node/coalesce.py:228-247 | refreshes exactly when due at the check, with the time the fetch takes, and otherwise sleeps |
| `Coalescer.RunKeepsDistance` | client/eink-node/coalesce.py:89-247 | if the settings afford a distance for a bound on how long turns take, the panel writes of every run are that far apart, an earlier write included |
| `Coalescer.StartsKeepFloor` | client/eink-node/coalesce.py:89-247 | however long turns take, refreshes that write start at least the floor apart if the safety fetch is off or not faster than the floor |
| `Coalescer.StartsFloorIff` | client/eink-node/coalesce.py:89-247 | all runs keep the floor between those starts if and only if the safety fetch is off or not faster than the floor |
| `Coalescer.PanelFloorIff` | client/eink-node/coalesce.py:143-247 | all runs whose turns take at most a given time keep their panel writes a given distance apart if and only if the safety fetch leaves room for both and the debounce or the floor less that time covers the distance |
| `Coalescer.DocumentedFloorIff` | client/eink-node/coalesce.py:30-36 | the exact condition for the documented floor |
| `Coalescer.SlowFetchBreaksFloor` | client/eink-node/coalesce.py:148-218 | with the default settings a fetch of thirty seconds and a quick one after it write the panel thirty seconds apart |
| `Coalescer.ConsecutiveImagesDiffer` | client/eink-node/coalesce.py:192-218 | on every run without reconnects and empty answers the panel writer is never given the same image twice in a row |
| `CoalescerRuns.MarksWaitForSuccess` | client/eink-node/coalesce.py:74-197 | on every run the screen is dirty exactly while marks are pending, and a mark stays pending until a fetch succeeds; reasons and times are those of the pending marks |
| `CoalescerRuns.WritesAreNews` | client/eink-node/coalesce.py:157-218 | on every run the panel writer is given exactly the images that differ from the one known to be on the panel; asking with a reconnect pending forgets it, so the next image is written whatever it is |
| `CoalescerRuns.TagNamesImage` | client/eink-node/coalesce.py:157-205 | if the server's tags name its images, the stored tag always names the stored image |
| `CoalescerRuns.SafetyFetchesKeepDistance` | client/eink-node/coalesce.py:98-165 | without marks the server is asked at most once in the idle time, whether it answers or fails, and never if the safety fetch is off |

## Left out

- Masks inside the solver: `Solver`, `Explicit` and `Overrides` use cell sets; `Masks` proves each word operation they stand for.
- Error and suggestion texts (internal/layout/solver.go:138-246), labels, templates and styles: presentation.
- Concurrent publishers: publishes are serialised, each split into its steps; the seen filter is dropped at the first unseen event, so two interleaved publishes can repeat an event.
- Resume.StepKeepsInv: takes publishes that are not under the id of a connection between subscription and replay whose queue starts with an earlier event; ResumeLimits shows that this is where duplicates begin.
- Hub.Close, the Timestamp field of events and the trimming of the Last-Event-ID header: no effect on the properties proved.
- Event ids: the runs of `Resume` take ids the server has not used; `EventIds` proves the generator's are, for non-negative clock seconds and until its 64-bit counter wraps.
- Reconnect timing, sockets, HTTP handlers, files, YAML and JSON: their results are inputs.
- UTF-8 decoding in the event listener: the stream is a sequence of characters.
- Coordinator.ProviderCoordinator.StartSingleWorker: whether a provider can be created and initialised, or needs no worker at all, is a parameter; the worker's goroutines and the stale-while-revalidate cache are not modelled.
- Changes of dimensions, pinning, resolved secrets and package manifests: they do not restart a worker, so the reconciler's invariant does not speak of them.
- PhotoDeck.PhotosProvider.SelectAlbumWindow: the no-skip guarantee is for one album; with several, a new album's photo can land before the cursor.
- Photo slots: the pair of day and album stands for the two joined by a NUL character, which is the same for keys without NUL.
- Photo scraping and syncing: network code. `peekWindowLocked`: reads a window of the deck without changing it.
- ChatLog: MostRecentKey (the key with the newest message), View (the shape of the widget's data) and ParsePush (reading JSON) are not modelled.
- Timeline: local days, hours and event spans are given in minutes from midnight; time zones and daylight saving are library code.
- Coalescer: the first refresh at start-up happens before the worker loop and is covered as the earlier write of a run; a bound on the fetch rate after failures does not hold, because an error keeps the screen dirty. A panel write is a call of the panel writer; whether it fails is not modelled.
- Cast: the client's use of the decoded messages.
- Cast.EncodeCastMessage: asks for field lengths below 2^63, as every Go slice has.
- The voice daemon, the weather, calendar, task, media and Home Assistant clients, panel drivers and audio: network and hardware.
