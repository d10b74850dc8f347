# Blocks: a verified model of the laser puzzle

Blocks is a 3D puzzle game. A puzzle is a grid of voxels, each either empty or
holding a block. A block is either *porous* (the laser can pass through it) or
*impermeable*. A laser enters the grid and moves through it one voxel at a time.
The player can turn it up, down, left or right. Each block the laser enters is
touched. The game is lost when the laser enters an impermeable block or runs
into its own trail. It is won when every porous block has been touched.
Around the puzzle sit a main menu of push buttons and a controller that moves
between the menu and a game.

This project models that core in Dafny and proves properties of the model.
It has one module per source entity:

| module | file | models |
|---|---|---|
| `Voxels` | `voxel.dfy` | the `Voxel` struct and its axis and in-between tests |
| `Blocks` | `blocks.dfy` | `AbstractBlock`, `PorousBlock`, `ImpermeableBlock` |
| `Grids` | `grid.dfy` | `BlockStructure`: cell queries, touching, the victory/loss calls, block positions, and the loader |
| `LaserSpec` | `laser_spec.dfy` | one laser `move` and one `turn` as functions on a laser state, with the invariants and scenarios proved about them |
| `BlockDrivers` | `driver.dfy` | `BlockDriver` and `LaserImplementation` as classes, proved to follow `LaserSpec` |
| `Buttons` | `button.dfy` | `Button`: hit test, setters, and the UP / MOUSE_OVER / DOWN press machine |
| `Menus` | `menu.dfy` | `ScrollingButtonMenu`: the scroll window, layout, and forwarding of mouse events |
| `Controllers` | `controller.dfy` | `Controller::sendKeyPress` and `Controller::update` |
| `Scenarios` | `scenarios.dfy` | small puzzles loaded from their descriptions and crossed by the laser, each tick fed with what the loaded contents hold |

**Units.** Every puzzle is loaded with block size 30, and the laser's speed is
a thirtieth of the block size. So laser progress is counted in whole ticks:

- a block is 30 ticks long;
- its centre is at 15 ticks;
- a transition into the next voxel happens once progress exceeds 30;
- with the threshold ratio of 1.0 the turn window is [0, 30] ticks.

**Inputs that come from outside.** These are parameters of the model:

- The clock is the parameter `now`, in seconds. A `move` is accepted after more
  than 0.01 s; a laser is idle after 5 s.
- The GL matrix-stack rotation inside `turn` is a function parameter of type
  `Rotation`.
- A puzzle file is given as its token sequence. `None` stands for a file that
  cannot be opened.

**Grid contents.** The grid's contents are also described abstractly, as a
ghost map from cell addresses to block values (`Grid.Contents`). The laser's
contracts are stated over that map, and the class invariant ties the map to the
array of block objects.

**Where the code and its design notes differ, the model follows the code:**

- `isAlongSameAxis` is an exclusive-or of three "differs" tests. It therefore
  holds when one coordinate differs *or when all three do*, not only when
  exactly one does. `AlongSameAxisIffOddDifferences` states this. On the
  laser's own trail, where consecutive points differ in one coordinate, the
  extra case never arises; `InBetweenOnStraightSegment` and
  `CompactKeepsStraight` prove this.
- A halted laser is not halted for good. Key P toggles `mobile`, so a
  stopped laser can be resumed (`Controllers.Controller.SendKeyPress`).

## Model

| member | source | states |
|---|---|---|
| Voxels.DiffCount | Blocks/BlockDriver.h:65-68 | the number of differing coordinates is at most 3, and it is 0 exactly when the two voxels are equal in the sense of `operator ==` |
| Voxels.Voxel.IsAlongSameAxis | Blocks/BlockDriver.h:46-49 | the axis test never holds between equal voxels, and holds whenever exactly one coordinate differs |
| Voxels.Voxel.IsInBetween | Blocks/BlockDriver.h:57-60 | a voxel between two others is neither end and lies in the box the two ends span |
| Voxels.AlongSameAxisIffOddDifferences | Blocks/BlockDriver.h:46-49 | `isAlongSameAxis` holds exactly when an odd number of coordinates differ, that is one or three |
| Voxels.AlongSameAxisSymmetricIrreflexive | Blocks/BlockDriver.h:46-49 | the axis test is symmetric and never holds between a voxel and itself |
| Voxels.InBetweenCharacterization | Blocks/BlockDriver.h:57-60 | `isInBetween(l, r)` is false at either end; otherwise it holds exactly when the voxel differs from both ends in an odd number of coordinates and lies in the box they span, in either order |
| Voxels.UnitStepDiffersOnce | Blocks/BlockDriver.h:221-223 | a step along an axis-aligned unit direction changes exactly one coordinate, so the new voxel is along the same axis as the old one |
| Blocks.NewBlockIsUntouched | Blocks/AbstractBlock.h:26 | a new block of either kind is untouched, Inactive and consistent |
| Blocks.TouchEffect | Blocks/AbstractBlock.h:40-45 | touching sets the flag and keeps the kind and the flag/state link; a porous block becomes Active, an impermeable one stays Inactive |
| Blocks.TouchIdempotentMonotone | Blocks/AbstractBlock.h:40-45 | touching twice is the same as touching once, and a touched block stays touched |
| Blocks.Block.constructor | Blocks/PorousBlock.h:18-21 | both concrete constructors build an untouched block in its Inactive state |
| Blocks.Block.HasBeenTouched | Blocks/AbstractBlock.h:58 | reports the touched flag of the block's value |
| Blocks.Block.IsImpenetrable | Blocks/ImpermeableBlock.h:24 | holds exactly for an impermeable block; a porous block is never impenetrable |
| Blocks.Block.SetState | Blocks/AbstractBlock.h:135-141 | the given state becomes current; the frame leaves the kind and the flag alone |
| Blocks.Block.TouchImplementation | Blocks/PorousBlock.h:41-44 | the variant hook: a porous block moves to Active, an impermeable one keeps its state |
| Blocks.Block.Touch | Blocks/AbstractBlock.h:40-45 | the block's new value is the touched value of the old one: flag first, then the hook |
| Blocks.Block.SetVictoryState | Blocks/PorousBlock.h:23 | the victory hook changes nothing, for both kinds |
| Blocks.Block.SetLossState | Blocks/ImpermeableBlock.h:18-20 | the loss hook changes nothing, for both kinds |
| Grids.NegativeWrapsHigh | Blocks/BlockStructure.h:129-132 | a negative 32-bit coordinate, passed as `size_type`, becomes at least 2^64 - 2^31 |
| Grids.NonNegativeKeeps | Blocks/BlockStructure.h:129-132 | a non-negative 32-bit coordinate keeps its value as `size_type` |
| Grids.Parse | Blocks/BlockStructure.h:225-278 | the described grid has exactly height x rows x columns cells |
| Grids.ParseSerialize | Blocks/BlockStructure.h:225-278 | reading a written description gives it back: the loader's format round-trips |
| Grids.ShortDescriptionPadsEmpty | Blocks/BlockStructure.h:263-276 | a cell with no type character left to read is empty |
| Grids.IndexInRange | Blocks/BlockStructure.h:248-256 | the reading position of every in-bounds cell is below height x rows x columns |
| Grids.LoadAgreesWithParse | Blocks/BlockStructure.h:248-278 | the cell the loader fills at (i, j, k) is the description's cell at reading position (i·rows + j)·columns + k |
| Grids.Grid.constructor | Blocks/BlockStructure.h:39 | a new structure has no levels, rows or columns and owns no blocks |
| Grids.Grid.CellAt | Blocks/BlockStructure.h:145-150 | the cell at (i, j, k) is what the contents hold there, and outside the grid there is no block |
| Grids.Grid.HasBlock | Blocks/BlockStructure.h:129-132 | holds exactly when the contents hold a block at the wrapped coordinates |
| Grids.Grid.HasImpenetrableBlock | Blocks/BlockStructure.h:135-138 | an impenetrable block at a location implies a block there |
| Grids.Grid.HasTouchedBlock | Blocks/BlockStructure.h:140-143 | a touched block at a location implies a block there |
| Grids.QueriesReadCell | Blocks/BlockStructure.h:129-143 | `hasBlock`, `hasImpenetrableBlock` and `hasTouchedBlock` hold exactly when the cell at the wrapped coordinates holds a block, an impermeable block, or a touched block |
| Grids.NegativeCoordinateHasNoBlock | Blocks/BlockStructure.h:292 | a negative coordinate names no cell: there is no block there, and asking for the block's position fails |
| Grids.Grid.GetBlockLocation | Blocks/BlockStructure.h:155-174 | succeeds exactly when there is a block at the location, and otherwise fails with the no-block error; a found block's centre is half a block above its level's floor |
| Grids.Grid.TouchBlock | Blocks/BlockStructure.h:92-100 | fails exactly when there is no block at the location; otherwise only that cell changes, by touching its block; whether the location holds an impenetrable block is unchanged |
| Grids.Grid.SetBlockLossState | Blocks/BlockStructure.h:102-110 | fails exactly on an empty or out-of-bounds cell |
| Grids.Grid.SetBlockVictoryState | Blocks/BlockStructure.h:112-120 | fails exactly on an empty or out-of-bounds cell |
| Grids.Grid.Load | Blocks/BlockStructure.h:201-283 | an unopenable source fails and leaves the structure unchanged; otherwise the dimensions are the description's and every cell holds a new block of the kind its token names ('P' porous, 'I' impermeable, anything else empty) |
| Grids.Grid.InstalledIsValid | Blocks/BlockStructure.h:225-231 | the dimensions, cells and block positions installed by a completed read satisfy the structure's invariant |
| Grids.ReadCells | Blocks/BlockStructure.h:248-280 | the nested loops build an array of the given dimensions in which every cell holds the block its token names, each block recorded at its own cell |
| Grids.ReadRow | Blocks/BlockStructure.h:252-279 | reading one row advances the token position by one row and extends the filled prefix by that row |
| Grids.ReadCell | Blocks/BlockStructure.h:263-277 | reading one cell stores a new block of the token's kind, or nothing, and extends the filled prefix by that cell |
| Grids.NextRow | Blocks/BlockStructure.h:252-256 | the end of a row is the start of the next, in cells and in token positions |
| Grids.NextLevel | Blocks/BlockStructure.h:248-252 | the end of a level is the start of the next, in cells and in token positions |
| Grids.AllRead | Blocks/BlockStructure.h:248-280 | once every level is read, the array holds exactly the described contents |
| BlockDrivers.TouchKeepsOccupant | Blocks/BlockDriver.h:225-230 | touching a cell does not change what the laser finds there, so the impenetrability test after the touch sees the block as it was before |
| BlockDrivers.Driver.constructor | Blocks/BlockDriver.h:340 | a driver is loaded exactly when built with a structure; the threshold ratio is 1.0 |
| BlockDrivers.Driver.LoadBlockStructure | Blocks/BlockDriver.h:351-355 | the structure is attached and the driver is loaded |
| BlockDrivers.Driver.Unload | Blocks/BlockDriver.h:357 | the driver is not loaded |
| BlockDrivers.Driver.HasTouchedAllPenetrable | Blocks/BlockDriver.h:475-490 | the scan returns true exactly when every penetrable block has been touched |
| BlockDrivers.UnsettledIffQueries | Blocks/BlockDriver.h:486 | the loop's three queries single out exactly the cells holding an untouched penetrable block |
| BlockDrivers.UntouchedCellBlocksWin | Blocks/BlockDriver.h:486-487 | one untouched penetrable block is enough to make the win test false |
| BlockDrivers.SettledCellsWin | Blocks/BlockDriver.h:483-489 | once no in-bounds cell holds an untouched penetrable block, the win test holds |
| BlockDrivers.EmptyGridIsWon | Blocks/BlockDriver.h:475-490 | a structure with no cells is won before anything is touched |
| BlockDrivers.WinTestWitness | Blocks/BlockDriver.h:475-490 | the win test fails exactly when some in-bounds cell holds an untouched porous block |
| BlockDrivers.Driver.SetAllLossState | Blocks/BlockDriver.h:492-505 | the loss hook of every block runs, and one loss broadcast is recorded |
| BlockDrivers.Driver.SetAllVictoryState | Blocks/BlockDriver.h:507-520 | the victory hook of every block runs, and one victory broadcast is recorded |
| BlockDrivers.Driver.ForEachBlock | Blocks/BlockDriver.h:500-504 | visiting every cell in reading order and running the hook of each block keeps the structure valid and its contents unchanged |
| BlockDrivers.LocationsAgree | Blocks/BlockStructure.h:155-174 | for an occupied cell the structure and the driver give the same block position |
| BlockDrivers.StepMovesOneBlock | Blocks/BlockDriver.h:451-473 | a step along a direction moves a voxel's position by one block size along that direction |
| BlockDrivers.GridCentredOnBase | Blocks/BlockDriver.h:423-445 | the grid is centred on its base: the first and last column, and the first and last row, are symmetric about it |
| BlockDrivers.Driver.VoxelLocationAt | Blocks/BlockDriver.h:423-445 | column c lies c - (columns - 1)/2 blocks from the base in x, row r likewise in z, and level h is h + 1/2 blocks above the base |
| BlockDrivers.Driver.VoxelLocation | Blocks/BlockDriver.h:451-473 | the same position, for the coordinates of a voxel |
| BlockDrivers.CentredOffset | Blocks/BlockDriver.h:432-443 | the corner computed with integer halving and the even-size half-block shift puts cell c at c - (n - 1)/2 blocks from the base |
| BlockDrivers.Driver.GetLaser | Blocks/BlockDriver.h:367-372 | a new laser on the driver's structure, at voxel (0, 0, -5), heading along the columns, mobile, with no progress |
| BlockDrivers.Laser.constructor | Blocks/BlockDriver.h:119-144 | the new laser is mobile, has no progress, has equal current and next directions and orientations, and has the start voxel as its whole path |
| BlockDrivers.Laser.SetMobile | Blocks/BlockDriver.h:188 | only the mobility flag changes |
| BlockDrivers.Laser.IsMobile | Blocks/BlockDriver.h:296 | reports the state's mobility; a laser that is not mobile accepts no move at any time |
| BlockDrivers.Laser.IsIdle | Blocks/BlockDriver.h:294 | an idle mobile laser accepts the next move: idleness (5 s) is past the move interval |
| BlockDrivers.Laser.IsAtPastLocation | Blocks/BlockDriver.h:299-311 | the scan reports a collision exactly when the current voxel is a recorded point other than the last, or lies between two consecutive recorded points |
| BlockDrivers.Laser.Turn | Blocks/BlockDriver.h:146-186 | the laser's new state is the one `TurnSpec` gives |
| BlockDrivers.Laser.Move | Blocks/BlockDriver.h:190-265 | the new state and the broadcasts are those of `Tick`, given what the next voxel held; at most that cell changes, by being touched; the invariant is kept |
| BlockDrivers.Laser.Advance | Blocks/BlockDriver.h:197-263 | an accepted tick counts, transitions and checks for a collision, as `Collide(Moved(Advanced(...)))` says |
| BlockDrivers.Laser.Settle | Blocks/BlockDriver.h:202-263 | after counting, the transition part is followed by the collision part |
| BlockDrivers.Laser.CrossIfPast | Blocks/BlockDriver.h:214-249 | past the end of the block the laser transitions; otherwise nothing changes |
| BlockDrivers.Laser.CountTick | Blocks/BlockDriver.h:199-200 | progress grows by one tick and the time of the move is noted |
| BlockDrivers.Laser.CheckCollision | Blocks/BlockDriver.h:252-263 | on the trail the laser jumps to the block's end, stops, and a loss is broadcast; otherwise nothing changes |
| BlockDrivers.Laser.Stop | Blocks/BlockDriver.h:232-239 | the laser stops and exactly one broadcast of the outcome is recorded |
| BlockDrivers.Laser.TransitionStep | Blocks/BlockDriver.h:214-249 | the state, the broadcasts and the contents are those of `Transition` |
| BlockDrivers.Laser.Record | Blocks/BlockDriver.h:218-248 | the next direction and orientation are committed, progress restarts, and the new voxel becomes current and is recorded with the compaction rule |
| BlockDrivers.Laser.EnterVoxel | Blocks/BlockDriver.h:225-241 | an occupied voxel's block is touched; the laser stops on an impenetrable block, or on a porous one once all are touched, and the matching broadcast is sent; an empty or outside voxel changes nothing |
| BlockDrivers.Laser.CheckOutcome | Blocks/BlockDriver.h:229-240 | after the touch: loss on an impenetrable block, victory once every penetrable block is touched, otherwise nothing |
| LaserSpec.CollidesIffSomeSegment | Blocks/BlockDriver.h:299-311 | the recursive collision test is the loop's test: some segment, first to last but one, is hit |
| LaserSpec.InitialInv | Blocks/BlockDriver.h:119-136 | a new laser's path ends at its voxel; it is axis-aligned when its direction is; it is mobile and not on its trail |
| LaserSpec.CompactEndsAt | Blocks/BlockDriver.h:245-248 | the path is never empty and ends at the voxel just entered; the previous last point is dropped exactly when the new voxel is along the same axis as the point before it |
| LaserSpec.CollideAfter | Blocks/BlockDriver.h:252-263 | the collision check depends only on the state; its broadcast follows those the transition already sent |
| LaserSpec.TickPreservesPathInv | Blocks/BlockDriver.h:269 | every tick keeps progress within a block and the path ending at the current voxel |
| LaserSpec.RunPreservesPathInv | Blocks/BlockDriver.h:269 | the same holds after any sequence of ticks |
| LaserSpec.RejectedTickChangesNothing | Blocks/BlockDriver.h:197 | a tick that is not mobile or comes too early changes nothing and broadcasts nothing |
| LaserSpec.HaltedStaysHalted | Blocks/BlockDriver.h:197 | a halted laser is unchanged by any number of ticks |
| LaserSpec.TickWithinBlock | Blocks/BlockDriver.h:197-213 | an accepted tick before the end of the block only advances progress (or jumps to the end on a collision); voxel, path and directions stay, and nothing is touched |
| LaserSpec.TickTransition | Blocks/BlockDriver.h:214-223 | at the end of a block progress restarts, the next direction becomes current, and the voxel steps by (y, z, x) into height, row and column and is recorded; the block there is touched exactly when the cell is occupied |
| LaserSpec.TransitionNotices | Blocks/BlockDriver.h:225-241 | entering broadcasts a loss for an impenetrable block, a victory for a penetrable one once all are touched, and nothing for an empty cell; a loss follows if the voxel is on the trail |
| LaserSpec.StopsIffNotified | Blocks/BlockDriver.h:225-263 | a tick stops the laser exactly when it broadcasts something, and a halted laser is not changed by a tick |
| LaserSpec.CollisionHalts | Blocks/BlockDriver.h:252-263 | when a tick leaves the laser on its trail, the laser is halted at the block's end and the last broadcast is a loss |
| LaserSpec.CompactKeepsStraight | Blocks/BlockDriver.h:244-248 | recording a unit step keeps every segment of the trail straight, one coordinate differing |
| LaserSpec.InBetweenOnStraightSegment | Blocks/BlockDriver.h:57-60 | on a straight segment the exclusive-or test is harmless: between means strictly inside the segment |
| LaserSpec.TickPreservesAxisInv | Blocks/BlockDriver.h:214-248 | ticks keep both directions axis-aligned unit vectors and the trail made of straight runs |
| LaserSpec.TurnWindowIsWholeBlock | Blocks/BlockDriver.h:322-331 | with threshold ratio 1.0 the turn window is the whole block, [0, 30] ticks |
| LaserSpec.TurnFrame | Blocks/BlockDriver.h:146-186 | a turn changes only the next direction and orientation, only inside the window, and to what the rotation gives for the current ones |
| LaserSpec.LaterTurnWins | Blocks/BlockDriver.h:148-154 | of two turns before a transition only the later counts |
| LaserSpec.TurnPreservesInv | Blocks/BlockDriver.h:146-186 | a turn keeps the path invariant, and the axis invariant when the rotation gives an axis-aligned unit direction |
| LaserSpec.TwoStepsEast | Blocks/BlockDriver.h:214-248 | two transitions along a row: the touches, the positions, the compacted path and the broadcasts are as entering says |
| LaserSpec.ScenarioImpermeableLoses | Blocks/BlockDriver.h:229-234 | in a row porous, impermeable: the first block is passed, the second stops the laser with a loss |
| LaserSpec.ScenarioLastPorousWins | Blocks/BlockDriver.h:235-240 | touching the last untouched porous block broadcasts one victory and stops the laser |
| LaserSpec.ScenarioClosedLoopCollides | Blocks/BlockDriver.h:252-263 | stepping back onto a turning point of the trail stops the laser with a loss, although the cell is empty |
| Buttons.MouseUp | Blocks/Button.h:73-84 | over the box the button shows MOUSE_OVER and the command runs exactly when it was DOWN; elsewhere it shows UP and nothing runs; nothing but the state changes |
| Buttons.MouseDown | Blocks/Button.h:87-93 | DOWN exactly when already DOWN or hovered with the mouse over the box, otherwise UP; nothing but the state changes |
| Buttons.CornersTouch | Blocks/Button.h:43-46 | the hit test is inclusive: the four corners of a box of non-negative size are inside it |
| Buttons.NegativeSizeNeverTouches | Blocks/Button.h:43-46 | a box of negative width or height is never touched |
| Buttons.NoPressFromUp | Blocks/Button.h:89 | from UP no single press reaches DOWN |
| Buttons.HeldStaysDown | Blocks/Button.h:87-93 | a held button stays DOWN through any number of presses, wherever the mouse is |
| Buttons.ClickRunsCommandOnce | Blocks/Button.h:73-93 | release, press, release over an idle button runs the command exactly once and leaves it hovered |
| Buttons.ReleaseNeverHolds | Blocks/Button.h:73-93 | no release leaves a button DOWN and no press leaves it hovered |
| Buttons.Button.WithCommand | Blocks/Button.h:35 | an empty hit box at the origin, with the command and label, in state UP |
| Buttons.Button.constructor | Blocks/Button.h:37 | the given hit box, command and label, in state UP |
| Buttons.Button.Copy | Blocks/Button.h:39 | a copy has every field of the original, the state included |
| Buttons.Button.IsTouching | Blocks/Button.h:43-46 | the hit test holds exactly where a release leaves the button hovered |
| Buttons.Button.SetX | Blocks/Button.h:48 | only x changes |
| Buttons.Button.SetY | Blocks/Button.h:50 | only y changes |
| Buttons.Button.SetWidth | Blocks/Button.h:52 | only the width changes |
| Buttons.Button.SetHeight | Blocks/Button.h:54 | only the height changes |
| Buttons.Button.SetText | Blocks/Button.h:56 | only the label changes |
| Buttons.Button.SetState | Blocks/Button.h:58 | only the state changes |
| Buttons.Button.SendMouseUp | Blocks/Button.h:73-84 | the new button and whether the command ran are those of `MouseUp` |
| Buttons.Button.SendMouseDown | Blocks/Button.h:87-93 | the new button is that of `MouseDown` |
| Menus.StartAfterScrollUp | Blocks/ScrollingButtonMenu.cpp:30-47 | the window start drops by one exactly when there are more buttons than fit and it is not at the top; otherwise it stays |
| Menus.StartAfterScrollDown | Blocks/ScrollingButtonMenu.cpp:49-67 | the window start grows by one exactly when there are more buttons than fit and the window is not at the end; otherwise it stays |
| Menus.ScrollKeepsWindow | Blocks/ScrollingButtonMenu.cpp:35-57 | both scroll directions keep the window inside the list, or at 0 when everything fits |
| Menus.ScrollUpDownInverse | Blocks/ScrollingButtonMenu.cpp:35-57 | an effective scroll up is undone by a scroll down, and the other way round |
| Menus.GrowingKeepsWindow | Blocks/ScrollingButtonMenu.cpp:93-108 | adding a button never breaks the window |
| Menus.WindowInsideList | Blocks/ScrollingButtonMenu.cpp:77-78 | every index the window shows names a button of the list |
| Menus.ScrollReleaseMovesAtMostOne | Blocks/ScrollingButtonMenu.cpp:69-75 | a release moves the window by at most one button either way and keeps it inside the list; when scroll-up moved it and scroll-down then runs, the window is back where it began |
| Menus.Menu.Layout | Blocks/ScrollingButtonMenu.cpp:39-45 | the buttons of the window go to consecutive slots below the scroll-up button; the others are unchanged |
| Menus.Menu.constructor | Blocks/ScrollingButtonMenu.cpp:8-20 | an empty menu with the window at 0, the scroll-up button in the top slot and the scroll-down button below the last shown slot |
| Menus.Menu.ScrollUp | Blocks/ScrollingButtonMenu.cpp:30-47 | the window start moves as `StartAfterScrollUp` says, and the window is laid out again exactly when it moved |
| Menus.Menu.ScrollDown | Blocks/ScrollingButtonMenu.cpp:49-67 | the window start moves as `StartAfterScrollDown` says, and the window is laid out again exactly when it moved |
| Menus.Menu.Relayout | Blocks/ScrollingButtonMenu.cpp:32-45 | the loop puts the window's buttons in their slots and keeps the menu's invariant |
| Menus.Menu.Add | Blocks/ScrollingButtonMenu.cpp:93-108 | exactly one button is appended, with the menu's width and height, placed in the next slot only while the window has room; the window does not move |
| Menus.Menu.ScrollRelease | Blocks/ScrollingButtonMenu.cpp:69-75 | the scroll buttons' part of a release keeps every button but its position: it only moves and re-lays out the list |
| Menus.Menu.DownEnabled | Blocks/ScrollingButtonMenu.cpp:74 | inside the window invariant, the scroll-down button takes part exactly when a scroll down would move the window or the list is shorter than the window |
| Menus.Menu.SendMouseDown | Blocks/ScrollingButtonMenu.cpp:81-91 | the press reaches the scroll-up button when the window is not at the top, the scroll-down button when it is not at the end, and exactly the buttons of the window |
| Menus.Menu.SendMouseUp | Blocks/ScrollingButtonMenu.cpp:69-79 | the scroll-up button gets the release when the window is not at the top, and the scroll-down button when the window, as scroll-up left it, is not at the end; the window start and the list are those of `ScrollRelease`; then each button of the new window gets `MouseUp` and the others keep their state; the fired indices are the window's buttons whose command ran, in increasing order; nothing but positions and states changes |
| Menus.Menu.ScrollControlsMouseUp | Blocks/ScrollingButtonMenu.cpp:71-75 | the scroll-up button gets `MouseUp` exactly when the window is not at the top, and the scroll-down button exactly when the window, after any scroll up, is not at the end; a button whose command ran scrolls the menu; the new window start and list are those of `ScrollRelease`, so the buttons only move |
| Menus.Menu.WindowMouseUp | Blocks/ScrollingButtonMenu.cpp:77-78 | each button of the window receives `MouseUp`, the others are unchanged, and the fired indices are exactly those whose command ran, in increasing order |
| Controllers.Controller.constructor | Blocks/Controller.h:75-100 | the game starts on the main menu, with the debug view off and nothing loaded |
| Controllers.Controller.SelectPuzzle | Blocks/Controller.h:270-272 | picking a puzzle on the menu sets the request flag and the path under `puzzles/` |
| Controllers.Controller.SendKeyPress | Blocks/Controller.h:140-174 | Q while loaded returns to the menu and unloads, and otherwise does nothing; F2 flips the debug view; P toggles the laser's mobility; the arrows turn the laser as `TurnSpec` says; the screen-flow invariant is kept |
| Controllers.Controller.Update | Blocks/Controller.h:176-212 | a request loads the puzzle (failing, with only the request cleared, when the file cannot be opened); a new game gets a fresh laser and leaves the menu; a mobile laser moves as `Tick` says; a halted idle laser outside the debug view returns to the menu; the invariant is kept |
| Scenarios.RowCell | Blocks/BlockStructure.h:248-277 | in a one-level, one-row description, the character at cell position k is loaded into column k |
| Scenarios.RowPIPContents | Blocks/BlockStructure.h:263-277 | loading `P I P`: the laser finds a porous block first, the win test stays false after touching it, then finds the impermeable block, and the test stays false after that touch too |
| Scenarios.RowPPContents | Blocks/BlockStructure.h:263-277 | loading `P P`: the laser finds two porous blocks, and the win test holds only after touching both |
| Scenarios.CrossTwoCells | Blocks/BlockDriver.h:214-263 | two crossings along a row fed from the contents: the first porous block is touched without stopping; the second cell decides a loss, a victory, or moving on |
| Scenarios.RowPIPLoses | Blocks/BlockDriver.h:225-234 | the loaded row `P I P`, crossed from one voxel west of it: the porous block is touched, then the impermeable block stops the laser with a loss |
| Scenarios.RowPPWins | Blocks/BlockDriver.h:225-240 | the loaded row `P P`, crossed from one voxel west of it: the second touch leaves no penetrable block untouched, so a victory is broadcast and the laser stops |

## Left out

- Drawing, textures, shadow volumes, physics and window handling are not modelled. No game state depends on them. This covers the GL calls, the `draw` methods, the views, `SimulatedModel.h`, `Cube.h`, and the state classes `BlockLimp.h`, `BlockExplode.h`, `PorousBlockInactive.h`, `PorousBlockActive.h` and `ImpermeableBlockInactive.h`. A block keeps only an Inactive/Active tag.
- Floating point is modelled as `real`. Laser progress is an exact tick count, which relies on the block size 30 the controller always uses.
- The laser's interpolated drawing position `currentLocation` is not modelled. It is used only for drawing.
- The rotation inside `turn` is a parameter. The model does not show that the GL rotation yields an axis-aligned unit direction after the `(GLint)` truncation. The axis invariant is proved on the condition that it does.
- `clock()` is replaced by the parameter `now`, in seconds.
- File opening is replaced by `Option<seq<Token>>`, a source that is either unopenable or already split into tokens. The first three tokens are the counts. Each later token stands for the one non-blank character a single `in >> c` extracts, so a `Num` in a cell position stands for one digit character, and a run of digits in the file is as many tokens. A count that cannot be read gives 0 and every later count 0. A type character that cannot be read, or a digit where a type character is expected, gives an empty cell. In C++ a character that cannot be read would be left uninitialised.
- The Win32 directory listing and ImGui are not modelled. `Controllers.Controller.SelectPuzzle` models only the effect of clicking a puzzle's button.
- Coordinates are unbounded integers. Wrap-around is modelled only where a signed coordinate becomes a `size_type` (`Grids.ToSize`). Overflow of the 32-bit voxel coordinates themselves is not modelled.
- The scroll buttons' commands are modelled by calling `ScrollUp` and `ScrollDown` directly.
- Commands other than scrolling are reported, not run. A button reports whether its command ran; the menu reports the indices of the buttons whose command ran. Loading a puzzle through `LoadBlockStructureCommand.h` is not modelled.
- The menu keeps its buttons as values, since the C++ vector holds copies. The sum `visibleStart + visibleButtons` is not reduced modulo 2^64.
- BlockDrivers.Laser.TransitionStep: records the new voxel on the path before touching its block, whereas the source touches first. Neither step reads what the other writes, so the resulting state is the same.
- BlockDrivers.Driver.SetAllLossState: the blocks' hooks change nothing, so the broadcast is stated as a ghost record of notices instead of per-block effects.
- BlockDrivers.Driver.SetAllVictoryState: stated the same way as the loss broadcast, as a ghost record of notices.
- Ownership and memory management are not modelled: `Handle.h`, destructors, `BlockDriver::reset` and the deletion of an old structure on reload. A reload builds a new structure.
- The exception thrown when a puzzle file cannot be opened is modelled as the result `Fail(SourceNotFound)` of `Controllers.Controller.Update`. The C++ exception would leave `update` at once, and so does the model.
- `main.cpp`, the command classes and `Vector4.h`/`Matrix44.h` are not part of this model, beyond the 4x4 orientation carried as an opaque matrix value.
