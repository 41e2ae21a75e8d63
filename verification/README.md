# Logic Forge robot controller, modelled in Dafny

Logic Forge is a single-page visual programming toy. The user drops logic
blocks (move, turn, if, loop, wait) on a workspace and presses Execute. The
page sorts the blocks by their vertical position and steps a simulated robot
through them on a 10 x 10 grid, one block per second. A Stop button, a Reset
button, a grid view of the robot and a feedback panel that colours the
status message complete the page.

This project models the page controller (`src/pages/Index.tsx`) and the
three components whose logic it drives: the robot simulator's grid helpers,
the feedback panel's message classifier and the execution controls. The
modules follow the program:

- `Optional` (optional.dfy): the `Option` type.
- `Blocks` (blocks.dfy): the `LogicBlock` record, the template table of the
  drop handler, and the delete filter.
- `Ordering` (ordering.dfy): the execution order, a stable sort by `y`. It
  is pinned down by an independent definition of "a stable sort by y".
- `Robot` (robot.dfy): the robot state and the effect of one block.
- `Engine` (engine.dfy): the controller state and its transitions. A run of
  `executeProgram` is the sequence of state updates it publishes. Each
  update is applied to the state as it is when the update lands, the way
  React's functional updaters are. The run loop is also given as a method.
- `Grid` (grid.dfy): the simulator's index-to-cell mapping, robot cell,
  obstacle table, icon rotation and direction text.
- `Feedback` (feedback.dfy): the substring classifier, its icons and its
  colours.
- `Controls` (controls.dfy): what the Execute/Stop and Reset buttons offer
  and do, and how that follows the updates of a run.
- `Session` (session.dfy): user inputs interleaved freely with the updates
  of every run in flight. It carries the invariant that holds in every
  reachable state.

The model follows the code as written. Where that behaviour is easy to
misread:

- Stop does not cancel a run. It clears the flags and shows the stop
  message. The run keeps applying its effects and then overwrites the stop
  with its success message (`Engine.StopDoesNotCancel`).
- Nothing prevents a second run: the updates of two runs can interleave
  (`Engine.RunIgnoresExecutingFlag`, `Session`).
- Reset is disabled while running rather than stopping first. Once a run
  has been stopped, a reset does not end that run either
  (`Session.StaleRunAfterReset`).
- Step 0 is published twice: once before the loop and again by its first
  iteration. A run of N blocks therefore publishes N + 2 step indices, not
  N + 1 (`Engine.RunPublications`).
- Block ids come from the clock and need not be unique, so the model takes
  the id as an input and assumes nothing about it.
- `Blocks.Drop` is the corrected drop: only the five template keys add a
  block. As written, the names every object inherits (such as "toString")
  also pass the guard and add a block (see Findings); its type matches no
  case of the run loop, so every step ignores it, as a wait does.
- An Execute click on an idle page applies, within the click, the updates
  the handler makes before its first pause: the flag, step 0 and the
  progress message. The button is already Stop for the next click
  (`Session.SecondClickStops`).

## Model

| member | source | states |
|---|---|---|
| Blocks.KindOf | src/pages/Index.tsx:35-44 | A dragged token finds a template exactly when it is one of the five keys move, turn, if, loop, wait. The kind found is the one that key names. |
| Blocks.KindNameRoundTrip | src/pages/Index.tsx:35-41 | Each kind's key looks up that kind again. The five template labels are pairwise distinct. |
| Blocks.Drop | src/pages/Index.tsx:43-55 | An unrecognised token leaves the list unchanged. A recognised one appends exactly one block at the end and leaves every earlier block in place. The new block has the template's label and parameters, the given id and position, and no connections. |
| Blocks.Delete | src/pages/Index.tsx:167 | The filter never makes the list longer. |
| Blocks.DeleteKeeps | src/pages/Index.tsx:167 | A block survives a delete exactly when it was in the list and its id differs from the deleted id. |
| Blocks.DeleteAppend | src/pages/Index.tsx:167 | Deleting distributes over concatenation, so the surviving blocks keep their relative order. |
| Blocks.DeleteAbsent | src/pages/Index.tsx:167 | Deleting an id that no block carries changes nothing. |
| Blocks.DeleteIdempotent | src/pages/Index.tsx:167 | Deleting the same id twice is the same as deleting it once. |
| Blocks.DeleteUndoesDrop | src/pages/Index.tsx:45-55 | Deleting the id of the block just dropped gives the old list with that id deleted. With a fresh id this is exactly the list before the drop. |
| Blocks.DropDeleteCommute | src/pages/Index.tsx:55 | A drop under one id and a delete of a different id can be applied in either order. |
| Blocks.GuardAcceptsInheritedNames | src/pages/Index.tsx:43-44 | As written, the `if (template)` guard accepts, beyond the five keys, exactly the names every object inherits ("toString", "constructor", ...). "toString" passes the guard, while `KindOf` rejects it and the corrected drop leaves the list unchanged. |
| Ordering.Insert | src/pages/Index.tsx:71 | Inserting a block into a list sorted by y keeps it sorted and adds exactly that block, as a multiset. |
| Ordering.SortByY | src/pages/Index.tsx:71 | The execution order is sorted by ascending y and is a permutation of the program list. |
| Ordering.SortByYStable | src/pages/Index.tsx:71 | For every y value, the blocks with that y run in the order they were added. |
| Ordering.StableSortUnique | src/pages/Index.tsx:71 | Two lists sorted by y that agree on the order of the blocks of every y value are equal, so a stable sort has only one possible result. |
| Ordering.SortByYIsTheStableSort | src/pages/Index.tsx:71 | The execution order is a stable sort of the program by y. A list is a stable sort of the program by y if and only if it equals the execution order. |
| Ordering.SortByYSortedUnchanged | src/pages/Index.tsx:71 | A program already in y order runs in its own order. |
| Robot.Clamp | src/pages/Index.tsx:88-89 | The result is in 0..9. It equals the input inside that range, 0 below it and 9 above it. |
| Robot.Heading | src/pages/Index.tsx:86-87 | Each direction's step is a unit vector along one axis. |
| Robot.Step | src/pages/Index.tsx:81-100 | A move adds the heading of the current direction, clamps both coordinates and keeps the direction. A turn keeps the position and advances the direction by one, wrapping 3 to 0. Wait, if and loop change nothing. Energy is never changed, and a robot on the grid stays on it. |
| Robot.FourTurns | src/pages/Index.tsx:91-93 | Four turns bring the robot back to its starting state. |
| Robot.MoveBlockedAtEdge | src/pages/Index.tsx:85-90 | On the grid, a move leaves the robot where it is if and only if it faces the edge it stands on. Otherwise it advances exactly one cell. |
| Robot.RunBlocks | src/pages/Index.tsx:73-101 | A run of blocks keeps the direction in 0..3, keeps the energy, and keeps a robot on the grid on it. |
| Robot.RunBlocksAppend | src/pages/Index.tsx:73-101 | Running a + b is running a and then b. |
| Robot.RunBlocksSkipsInert | src/pages/Index.tsx:84-97 | A wait, if or loop block anywhere in a program can be removed without changing where the robot ends. |
| Robot.RunKeepsWellformed | src/pages/Index.tsx:81-100 | From a robot on the grid, facing a valid direction, with full energy, every run ends in such a robot. |
| Engine.Apply | src/pages/Index.tsx:66-105 | No update touches the block list or the energy. Only an effect update moves or turns the robot, and the robot stays on the grid. |
| Engine.ApplyAll | src/pages/Index.tsx:66-105 | Any sequence of a run's updates leaves the block list and the energy unchanged and keeps the robot on the grid. |
| Engine.ApplyOpening | src/pages/Index.tsx:66-68 | The three opening updates set the flag, step 0 and the progress message. |
| Engine.ApplyClosing | src/pages/Index.tsx:103-105 | Whatever happened before them, the three closing updates leave step -1, the flag cleared and the success message. |
| Engine.StepEvents | src/pages/Index.tsx:73-101 | The loop publishes two updates per block. |
| Engine.StepEventsAt | src/pages/Index.tsx:73-101 | Update 2j of the loop publishes step i + j. Update 2j + 1 applies the effect of block j. |
| Engine.ApplyStepEvents | src/pages/Index.tsx:73-101 | The loop's updates move the robot exactly as running the blocks in order does. They leave the flag and the message alone. |
| Engine.Execute | src/pages/Index.tsx:60-107 | An empty program only shows the hint. Otherwise a complete run ends idle, at step -1, with the success message, and with the robot of running the blocks in y order from where it stood. The stored block list is never reordered. |
| Engine.RunShape | src/pages/Index.tsx:60-107 | A run on N > 0 blocks publishes 2N + 6 updates: the three opening ones, then step i followed by the effect of the i-th block in execution order, then the three closing ones. |
| Engine.StepEventsProjections | src/pages/Index.tsx:73-101 | The loop publishes the consecutive step indices from its start and applies the kinds of its blocks in order. |
| Engine.RunPublications | src/pages/Index.tsx:60-107 | A run on N > 0 blocks publishes the steps 0, 0, 1, ..., N-1, -1. It applies exactly N effects, those of the blocks in execution order. An empty program publishes neither. |
| Engine.Synchronous | src/pages/Index.tsx:60-74 | The handler publishes part of a run before its first pause. That part is the whole run exactly when the program is empty. |
| Engine.StartedState | src/pages/Index.tsx:60-74 | Within the click, an empty program only gets the hint. A non-empty one is already executing at step 0 with the progress message, its robot not yet moved. |
| Engine.ExecuteProgram | src/pages/Index.tsx:60-107 | The loop produces exactly the updates of `Run`, ends in the state they lead to, and moves the robot as running the sorted blocks does. |
| Engine.Stop | src/pages/Index.tsx:118-123 | Stop clears the flag, sets step -1 and the stop message. It does not touch the blocks or the robot. |
| Engine.Reset | src/pages/Index.tsx:109-116 | Reset empties the workspace, clears the flag and step, puts the robot back at (1, 1) facing east with full energy, and shows the reset message. |
| Engine.ResetForgetsPast | src/pages/Index.tsx:109-116 | The state after a reset does not depend on the state before it. A second reset changes nothing, and the robot is left well formed. |
| Engine.StopDoesNotCancel | src/pages/Index.tsx:118-123 | A stop landing anywhere in a run before its closing updates changes nothing about the end of the run: the state is the one a run without a stop reaches. |
| Engine.StopThenRest | src/pages/Index.tsx:118-123 | A stop followed by the rest of a run, closing updates included, ends in the same state as the run without the stop. |
| Engine.StopCommutes | src/pages/Index.tsx:118-123 | A stop before any sequence of updates does not change the robot those updates lead to. |
| Engine.RunIgnoresExecutingFlag | src/pages/Index.tsx:60-68 | Starting a run while one is in progress publishes the same updates and ends in the same state as starting idle. |
| Engine.DropBlock | src/pages/Index.tsx:34-58 | A drop changes the block list as `Drop` does and nothing else. |
| Engine.DeleteBlock | src/pages/Index.tsx:167 | A delete changes the block list as `Delete` does and nothing else. |
| Engine.MoveAfterTurnScenario | src/pages/Index.tsx:71 | A move placed below a turn runs after it. From the start the robot turns south and ends at (1, 2) facing south with full energy. |
| Grid.CellOf | src/components/RobotSimulator.tsx:71-73 | Every one of the 100 indices names a cell on the grid, and the row-major index of that cell is the index again. |
| Grid.CellBijection | src/components/RobotSimulator.tsx:71-73 | Index to cell and cell to index are inverse, so the 100 cells are each drawn once. |
| Grid.RobotInExactlyOneCell | src/components/RobotSimulator.tsx:74 | A robot on the grid is drawn in exactly one cell, the one at its position. A robot off the grid would be drawn nowhere. |
| Grid.ObstacleTable | src/components/RobotSimulator.tsx:23-28 | The table lists 11 distinct cells, all on the grid. The robot's starting cell is not among them. |
| Grid.Rotation | src/components/RobotSimulator.tsx:18-20 | For a valid direction, the icon's rotation is a multiple of 90 degrees below 360. |
| Grid.RotationQuarterTurns | src/components/RobotSimulator.tsx:18-20 | The four directions get the four quarter turns, one each. |
| Grid.RotationFollowsHeading | src/components/RobotSimulator.tsx:18-20 | The rotation agrees with the heading: turning the east vector (1, 0) clockwise on screen by `Rotation(d)` gives `Heading(d)`. This fixes the rotation of direction d at 90·d degrees. |
| Grid.DirectionGlyph | src/components/RobotSimulator.tsx:48 | A valid direction shows the arrow pointing along its heading (east, south, west, north). Any other direction shows nothing. |
| Grid.DirectionGlyphsDistinct | src/components/RobotSimulator.tsx:48 | The four directions show four different arrows. |
| Grid.DirectionTextAsWritten | src/components/RobotSimulator.tsx:48 | As written, the direction text is a three-character string for each valid direction and is absent otherwise. |
| Grid.DirectionTextIsMisreadArrow | src/components/RobotSimulator.tsx:48 | For every direction, the text as written is the arrow's UTF-8 bytes read as Mac OS Roman, not the arrow itself. |
| Grid.StyleOf | src/components/RobotSimulator.tsx:74-83 | A cell gets the obstacle style exactly when it is in the obstacle table. It gets the robot style exactly when the robot stands there. |
| Grid.ObstaclesAreDisplayOnly | src/components/RobotSimulator.tsx:30-32 | Obstacles do not stop the robot. Two moves, a turn and two moves take it from the start onto the obstacle at (3, 3), and that cell then carries both styles. |
| Feedback.Classify | src/components/FeedbackPanel.tsx:9-20 | A message is a success exactly when it contains "successfully" or the party emoji. It is an error exactly when it contains neither but contains "Error" or "stopped". It is info exactly when it contains none of those but contains "Add" or "Ready". Otherwise it is default. |
| Feedback.FirstMatchWins | src/components/FeedbackPanel.tsx:9-20 | Any message with "successfully" or the party emoji in it is a success, whatever else it contains. Any message with "Error" or "stopped" in it is an error unless it also mentions success. |
| Feedback.EmptyIsDefault | src/components/FeedbackPanel.tsx:9-20 | The empty message is of the default type. |
| Feedback.ControllerMessageTypes | src/components/FeedbackPanel.tsx:9-20 | The controller's five messages are typed as success (completion), error (stop), info (empty program and reset) and default (in progress). |
| Feedback.StylesDistinguishTypes | src/components/FeedbackPanel.tsx:24-48 | Each type has its own icon and its own text colour. The icon's colour equals the text colour for every type but the default. |
| Feedback.ShownText | src/components/FeedbackPanel.tsx:63 | The panel never shows an empty text. A non-empty message is shown as it is. The empty message shows the welcome text, in the default style. |
| Controls.View | src/components/ExecutionControls.tsx:20-60 | The primary button is Stop exactly while the flag is set and Execute otherwise, and it is never disabled. Reset is disabled, and the running indicator is shown, exactly while the flag is set. |
| Controls.PressPrimary | src/components/ExecutionControls.tsx:21 | A click while running stops: robot kept, stop message shown. A click while idle runs the program to completion, or only shows the hint for an empty program. Either way the controller ends idle with its blocks unchanged. |
| Controls.PressReset | src/components/ExecutionControls.tsx:45-49 | A reset click does nothing exactly while running. Otherwise it resets. |
| Controls.PrimaryLeavesControlsIdle | src/components/ExecutionControls.tsx:21 | After a primary click and the whole run it starts (the `PressPrimary` abstraction), or after a stop, the controls show Execute with Reset enabled, and a reset click then resets. |
| Controls.ControlsDuringRun | src/components/ExecutionControls.tsx:21-49 | While the first p updates of a run have landed, the controls offer Stop and disable Reset exactly for 1 <= p <= (length of the run) - 2, or at p = 0 if a run was already in progress. |
| Session.Perform | src/pages/Index.tsx:141-167 | No input turns a well-formed robot into a malformed one. The queue of runs grows by one exactly on an Execute click on an idle page. That click applies the updates the handler makes before its first pause and queues the rest of the run. A delivery from run j removes exactly the first update of run j and applies it, or changes nothing when run j has no update left. Every other queued run stays exactly as it was. A drop or delete changes only the block list, as `DropBlock` and `DeleteBlock` do. A click while running applies `Stop`. A reset click resets when idle and is ignored while running. |
| Session.SecondClickStops | src/pages/Index.tsx:66-74 | After an Execute click on an idle page with blocks, the flag is set and step 0 is shown before any queued update lands. The next click is therefore a stop: it changes nothing but the controller, as `Stop` does. |
| Session.RunStepsFromMinusOne | src/pages/Index.tsx:60-107 | Every step index a run publishes is -1 or more. |
| Session.PerformKeepsGood | src/pages/Index.tsx:141-167 | Every input preserves the invariant. The robot stays on the grid, faces a valid direction and keeps full energy. The step indicator, and every step index still to land, is -1 or more. |
| Session.ReachableGood | src/pages/Index.tsx:141-167 | The invariant holds after any sequence of inputs, however the updates of several runs interleave with each other and with clicks. |
| Session.FreshIsGood | src/pages/Index.tsx:23-32 | A freshly loaded page satisfies the invariant, and so does every state reachable from it. |
| Session.DeliverRest | src/pages/Index.tsx:60-107 | Landing the remaining updates of one run, with nothing in between, is applying them in order. |
| Session.UninterruptedRun | src/pages/Index.tsx:60-107 | An Execute click on an idle page, followed by all of the run's queued updates with nothing in between, ends in the state `Execute` describes. |
| Session.StaleRunAfterReset | src/pages/Index.tsx:109-116 | A stopped run's remaining updates still land after a reset. They replace the reset message with the success message on the cleared workspace. A move among them acts on the freshly placed robot, and the first move carries it off the start. |

## Left out

- Timing: the 1000 ms pause between steps and the asynchronous loop are not
  modelled. A run is the ordered sequence of updates it publishes. The
  updates before the first pause land within the click; every later update
  is queued, and any input may land between two queued updates (`Session`).
- React's batching of state updates and its rendering schedule are left out.
  Every update is applied on its own, in order.
- Cancellation is left out because the code has none.
- Block ids: the page builds them from `Date.now()`. They are an input here,
  with no uniqueness assumed.
- Coordinates are unbounded integers. The page passes canvas pixel offsets,
  which may be fractional. Only the order of `y` matters to the engine, and
  the comparator `a.y - b.y` orders integers the same way.
- Block parameters are kept as the template's payload. The engine never
  reads them, and values dropped from elsewhere (untyped `any`) are not
  modelled.
- Toast notifications, the circuit background, styling classes, the
  block palette, the workspace canvas with its highlighting, and all
  rendering (JSX) are left out. They are outside the modelled core.
- Strings are sequences of code points. JavaScript strings are UTF-16 units,
  but no message here contains a character outside the basic plane except
  the party emoji. `includes` finds the same occurrences either way.
- Robot.Step: requires a direction in 0..3 for every kind of block, for
  simplicity. In the source only a move needs it: outside that range its
  heading lookup returns `undefined` and the destructuring throws, while a
  turn computes `(d + 1) % 4` and wait, if and loop read nothing. Every
  reachable robot satisfies the requirement (`Session.ReachableGood`).
- Blocks.Delete: its contract states only the length bound. Membership,
  order and the no-op case are stated by `DeleteKeeps`, `DeleteAppend` and
  `DeleteAbsent`.
- Controls.PressPrimary: models the click on an idle page as a whole,
  uninterrupted run. Interleavings are modelled by `Session`.
- Session.Perform: queued runs are never removed, even when finished. A
  finished run is an empty sequence that no delivery changes. Queued updates
  may land in any order across runs and at any moment; the page's one-second
  timers order them more strictly, so the sessions modelled include some the
  page cannot produce. The invariant of `Session.ReachableGood` holds for all
  of them.
- The robot's energy bar and position text only display the state. They are
  left out.

## Findings

| source | as written | input that shows it | evidently intended | confidence | as-written member | corrected member |
|---|---|---|---|---|---|---|
| src/pages/Index.tsx:43-44 | `blockTemplates[blockType]` is a plain-object read, so names inherited from `Object.prototype` are found, and `if (template)` lets them through | a drop whose type is "toString": a block with type "toString" and an undefined label is appended | only the five template keys add a block | not executed; medium (needs a drag carrying that text from outside the palette) | Blocks.GuardAcceptsInheritedNames | Blocks.Drop |
| src/components/RobotSimulator.tsx:48 | the direction labels are the three-character strings "‚Üí", "‚Üì", "‚Üê", "‚Üë" | any robot state, e.g. the start, facing east: the status shows "‚Üí" | the arrows → ↓ ← ↑ | not executed; high (the characters are those of the file's text) | Grid.DirectionTextIsMisreadArrow | Grid.DirectionGlyph |
