/**
 * The block driver and the laser it hands out.  The driver owns the loaded
 * structure, answers the win test, broadcasts victory and loss to every
 * block, and places voxels in world space; the laser walks the grid one
 * tick at a time and is proved to follow `LaserSpec.Tick` and
 * `LaserSpec.TurnSpec`.
 */
module BlockDrivers {
  import opened Voxels
  import opened Blocks
  import opened Grids
  import opened LaserSpec

  /** The voxel a new laser starts in: level 0, row 0, five columns before the grid. */
  const StartVoxel: Voxel := Voxel(0, 0, -5)
  /** A new laser heads along +x, that is, along the columns. */
  const StartDirection: Direction := Direction(1, 0, 0)

  /** What the laser finds at address `t` of contents `m`. */
  ghost function OccupantIn(m: CellMap, t: Coordinates): Occupant {
    if t in m && m[t].Some? then Holds(m[t].value.kind.IsImpenetrable()) else Vacant
  }

  /** The loop's three queries find exactly the cells that deny the win. */
  lemma UnsettledIffQueries(g: Grid, i: nat, j: nat, k: nat)
    requires g.Valid() && i < g.height && j < g.rows && k < g.columns
    ensures (g.HasBlock(i, j, k) && !g.HasImpenetrableBlock(i, j, k) && !g.HasTouchedBlock(i, j, k)) <==>
      !PenetrableTouched(g.CellAt(i, j, k))
  {
    QueriesReadCell(g, i, j, k);
    assert ToSize(i) == i && ToSize(j) == j && ToSize(k) == k;
  }

  /** One penetrable block not yet touched is enough to deny the win. */
  lemma UntouchedCellBlocksWin(g: Grid, i: nat, j: nat, k: nat)
    requires g.Valid() && !PenetrableTouched(g.CellAt(i, j, k))
    ensures !g.AllPenetrableTouched()
  {
    assert g.Contents[(i, j, k)] == g.CellAt(i, j, k);
  }

  /** Every cell the win test's loops pass before reaching (i, j, k) is settled. */
  ghost predicate SettledBefore(g: Grid, i: nat, j: nat, k: nat)
    reads g, g.cells, g.Footprint
    requires g.Valid()
  {
    forall i': nat, j': nat, k': nat | ReadBefore(i', j', k', i, j, k) && j' < g.rows && k' < g.columns ::
      PenetrableTouched(g.CellAt(i', j', k'))
  }

  lemma SettleNextCell(g: Grid, i: nat, j: nat, k: nat)
    requires g.Valid() && SettledBefore(g, i, j, k) && PenetrableTouched(g.CellAt(i, j, k))
    ensures SettledBefore(g, i, j, k + 1)
  {
  }

  lemma SettleNextRow(g: Grid, i: nat, j: nat)
    requires g.Valid() && SettledBefore(g, i, j, g.columns)
    ensures SettledBefore(g, i, j + 1, 0)
  {
  }

  lemma SettleNextLevel(g: Grid, i: nat)
    requires g.Valid() && SettledBefore(g, i, g.rows, 0)
    ensures SettledBefore(g, i + 1, 0, 0)
  {
  }

  /** When every cell of the grid is settled, the win test holds: outside the grid there is nothing. */
  lemma SettledCellsWin(g: Grid)
    requires g.Valid()
    requires forall i: nat, j: nat, k: nat | i < g.height && j < g.rows && k < g.columns :: PenetrableTouched(g.CellAt(i, j, k))
    ensures g.AllPenetrableTouched()
  {
    forall t | t in g.Contents
      ensures g.Contents[t].Some? && !g.Contents[t].value.kind.IsImpenetrable() ==> g.Contents[t].value.touched
    {
      assert g.Contents[t] == g.CellAt(t.0, t.1, t.2);
    }
  }

  /** Touching a cell never changes what the laser finds there. */
  lemma TouchKeepsOccupant(m: CellMap, t: Coordinates)
    ensures OccupantIn(TouchAt(m, t), t) == OccupantIn(m, t)
  {
  }

  /** A cell that does not block the win: empty, impenetrable, or already touched. */
  predicate PenetrableTouched(c: Option<BlockValue>) {
    !(c.Some? && !c.value.kind.IsImpenetrable() && !c.value.touched)
  }

  class Driver {
    var loaded: bool
    var grid: Grid?
    const thresholdRatio: real
    /** The victory and loss broadcasts sent so far, in order. */
    ghost var notices: seq<Notice>

    /** A driver is loaded exactly when it is built with a structure. */
    constructor (structure: Grid?)
      ensures loaded == (structure != null) && grid == structure
      ensures thresholdRatio == 1.0 && notices == []
    {
      loaded := structure != null;
      grid := structure;
      thresholdRatio := 1.0;
      notices := [];
    }

    /** Attaches a structure; lasers handed out afterwards walk it. */
    method LoadBlockStructure(structure: Grid)
      modifies this`grid, this`loaded
      ensures grid == structure && loaded
    {
      grid := structure;
      loaded := true;
    }

    method Unload()
      modifies this`loaded
      ensures !loaded
    {
      loaded := false;
    }

    predicate IsLoaded()
      reads this
    {
      loaded
    }

    /**
     * The position of a voxel given as three coordinates: column `c` lies
     * c - (columns - 1) / 2 blocks from the base in x, row `r` likewise in z,
     * and level `h` is centred h + 1/2 blocks above it.
     */
    function VoxelLocationAt(height: int, row: int, column: int): (p: Point)
      reads this, grid
      requires loaded && grid != null
      ensures p.x == grid.base.x + (column as real - (grid.columns as real - 1.0) / 2.0) * grid.blockSize
      ensures p.z == grid.base.z + (row as real - (grid.rows as real - 1.0) / 2.0) * grid.blockSize
      ensures p.y == grid.base.y + (height as real + 0.5) * grid.blockSize
    {
      var p := CellCentre(grid.base, grid.blockSize, grid.rows, grid.columns, height, row, column);
      assert p.x == grid.base.x + (column as real - (grid.columns as real - 1.0) / 2.0) * grid.blockSize by {
        CentredOffset(grid.base.x, grid.blockSize, grid.columns, column);
      }
      assert p.z == grid.base.z + (row as real - (grid.rows as real - 1.0) / 2.0) * grid.blockSize by {
        CentredOffset(grid.base.z, grid.blockSize, grid.rows, row);
      }
      p
    }

    /** The position of a voxel: the three-coordinate overload applied to its fields. */
    function VoxelLocation(v: Voxel): (p: Point)
      reads this, grid
      requires loaded && grid != null
      ensures p.x == grid.base.x + (v.column as real - (grid.columns as real - 1.0) / 2.0) * grid.blockSize
      ensures p.z == grid.base.z + (v.row as real - (grid.rows as real - 1.0) / 2.0) * grid.blockSize
      ensures p.y == grid.base.y + (v.height as real + 0.5) * grid.blockSize
    {
      VoxelLocationAt(v.height, v.row, v.column)
    }

    /** The win test: no cell holds a penetrable block that has not been touched. */
    method HasTouchedAllPenetrable() returns (all: bool)
      requires loaded && grid != null && grid.Valid()
      ensures all <==> grid.AllPenetrableTouched()
    {
      var i := 0;
      while i < grid.height
        invariant 0 <= i <= grid.height
        invariant SettledBefore(grid, i, 0, 0)
      {
        var j := 0;
        while j < grid.rows
          invariant 0 <= j <= grid.rows
          invariant SettledBefore(grid, i, j, 0)
        {
          var k := 0;
          while k < grid.columns
            invariant 0 <= k <= grid.columns
            invariant SettledBefore(grid, i, j, k)
          {
            UnsettledIffQueries(grid, i, j, k);
            if grid.HasBlock(i, j, k) && !grid.HasImpenetrableBlock(i, j, k) && !grid.HasTouchedBlock(i, j, k) {
              UntouchedCellBlocksWin(grid, i, j, k);
              return false;
            }
            SettleNextCell(grid, i, j, k);
            k := k + 1;
          }
          SettleNextRow(grid, i, j);
          j := j + 1;
        }
        SettleNextLevel(grid, i);
        i := i + 1;
      }
      SettledCellsWin(grid);
      return true;
    }

    /** Runs the loss hook of every block, in reading order, and records the broadcast. */
    method SetAllLossState()
      requires loaded && grid != null && grid.Valid()
      modifies this`notices
      ensures notices == old(notices) + [Loss]
    {
      ForEachBlock(false);
      notices := notices + [Loss];
    }

    /** Runs the victory hook of every block, in reading order, and records the broadcast. */
    method SetAllVictoryState()
      requires loaded && grid != null && grid.Valid()
      modifies this`notices
      ensures notices == old(notices) + [Victory]
    {
      ForEachBlock(true);
      notices := notices + [Victory];
    }

    /** The loop both broadcasts share: the hook of every occupied cell. */
    method ForEachBlock(victory: bool)
      requires loaded && grid != null && grid.Valid()
      ensures grid.Valid() && grid.Contents == old(grid.Contents)
    {
      var i := 0;
      while i < grid.height
      {
        var j := 0;
        while j < grid.rows
        {
          var k := 0;
          while k < grid.columns
          {
            if grid.HasBlock(i, j, k) {
              if victory {
                var _ := grid.SetBlockVictoryState(i, j, k);
              } else {
                var _ := grid.SetBlockLossState(i, j, k);
              }
            }
            k := k + 1;
          }
          j := j + 1;
        }
        i := i + 1;
      }
    }

    /** A new laser at the start voxel, heading along the columns. */
    method GetLaser(now: real) returns (laser: Laser)
      requires loaded && grid != null && grid.Valid()
      ensures fresh(laser) && laser.driver == this && laser.grid == grid && laser.Valid()
      ensures laser.State() == Initial(StartDirection, StartVoxel, now)
    {
      laser := new Laser(this, StartDirection, StartVoxel, now);
    }
  }

  class Laser {
    const driver: Driver
    /** The structure the laser walks, fixed when it is built. */
    const grid: Grid
    var mobile: bool
    var progress: int
    var currentDirection: Direction
    var nextDirection: Direction
    var currentOrientation: Matrix
    var nextOrientation: Matrix
    var currentVoxel: Voxel
    var visitedLocations: seq<Voxel>
    var lastMoved: real

    /** The laser's fields as a value. */
    function State(): LaserState
      reads this
    {
      LaserState(mobile, progress, currentDirection, nextDirection, currentOrientation, nextOrientation,
                 currentVoxel, visitedLocations, lastMoved)
    }

    ghost predicate Valid()
      reads this, driver, grid, grid.cells, grid.Footprint
    {
      driver.grid == grid && grid.Valid() && PathInv(State())
    }

    /** Mobile, no progress, both directions equal, the start voxel recorded. */
    constructor (driver: Driver, direction: Direction, voxel: Voxel, now: real)
      requires driver.loaded && driver.grid != null && driver.grid.Valid()
      ensures this.driver == driver && grid == driver.grid
      ensures State() == Initial(direction, voxel, now) && Valid()
    {
      this.driver := driver;
      grid := driver.grid;
      mobile := true;
      progress := 0;
      currentDirection, nextDirection := direction, direction;
      currentOrientation, nextOrientation := Identity, Identity;
      currentVoxel := voxel;
      visitedLocations := [voxel];
      lastMoved := now;
    }

    /** Whether ticks still move the laser; a stopped laser accepts none. */
    predicate IsMobile()
      reads this
      ensures IsMobile() <==> State().mobile
      ensures !IsMobile() ==> forall now: real :: !Accepts(State(), now)
    {
      mobile
    }

    method SetMobile(mobile: bool)
      modifies this`mobile
      ensures State() == old(State()).(mobile := mobile)
    {
      this.mobile := mobile;
    }

    /** Long without moving; an idle laser that is still mobile accepts the next tick. */
    predicate IsIdle(now: real)
      reads this
      ensures IsIdle(now) && IsMobile() ==> Accepts(State(), now)
    {
      LaserSpec.IsIdle(State(), now)
    }

    predicate HasTransitioned()
      reads this
    {
      LaserSpec.HasTransitioned(State())
    }

    predicate IsWithinTurnThreshold()
      reads this
    {
      LaserSpec.IsWithinTurnThreshold(State())
    }

    predicate HasPassedBlockCenter()
      reads this
    {
      LaserSpec.HasPassedBlockCenter(State())
    }

    /** The self-collision test: a scan over consecutive pairs of recorded points. */
    method IsAtPastLocation() returns (collided: bool)
      ensures collided <==> CollidesWithPath(visitedLocations, currentVoxel)
    {
      var i := 0;
      while i < |visitedLocations| - 1
        invariant 0 <= i <= |visitedLocations|
        invariant forall j :: 0 <= j < i && j < |visitedLocations| - 1 ==> !HitsSegment(visitedLocations, j, currentVoxel)
      {
        if currentVoxel == visitedLocations[i] || currentVoxel.IsInBetween(visitedLocations[i], visitedLocations[i + 1]) {
          assert HitsSegment(visitedLocations, i, currentVoxel);
          CollidesIffSomeSegment(visitedLocations, currentVoxel);
          return true;
        }
        i := i + 1;
      }
      CollidesIffSomeSegment(visitedLocations, currentVoxel);
      return false;
    }

    /** Inside the turn window, recomputes the next direction and orientation from the current ones. */
    method Turn(t: TurnDirection, rotate: Rotation)
      modifies this`nextDirection, this`nextOrientation
      ensures State() == TurnSpec(old(State()), t, rotate)
    {
      if IsWithinTurnThreshold() {
        var (o, d) := rotate(currentOrientation, currentDirection, t);
        nextDirection := d;
        nextOrientation := o;
      }
    }

    /**
     * One call of `move` at time `now`: the new state and the broadcasts are
     * those of `Tick`, given what the next voxel held and the win test after
     * the touch; only the entered cell's block can change, by being touched.
     */
    method Move(now: real)
      requires Valid() && driver.loaded
      modifies this, driver`notices, grid.Footprint, grid`Contents
      ensures Valid()
      ensures var t := AddressOf(Step(old(currentVoxel), old(nextDirection)));
        var r := Tick(old(State()), now, OccupantIn(old(grid.Contents), t), AllTouched(TouchAt(old(grid.Contents), t)));
        State() == r.state && driver.notices == old(driver.notices) + r.notices &&
        grid.Contents == if r.touched then TouchAt(old(grid.Contents), t) else old(grid.Contents)
    {
      if mobile && now - lastMoved > MoveInterval {
        Advance(now);
      }
      ghost var t := AddressOf(Step(old(currentVoxel), old(nextDirection)));
      TickPreservesPathInv(old(State()), now, OccupantIn(old(grid.Contents), t), AllTouched(TouchAt(old(grid.Contents), t)));
    }

    /** An accepted tick: count it, transition when past the block, then check for a collision. */
    method Advance(now: real)
      requires Valid() && driver.loaded && Accepts(State(), now)
      modifies this, driver`notices, grid.Footprint, grid`Contents
      ensures driver.grid == grid && grid.Valid()
      ensures var t := AddressOf(Step(old(currentVoxel), old(nextDirection)));
        var r := Collide(Moved(Advanced(old(State()), now), OccupantIn(old(grid.Contents), t), AllTouched(TouchAt(old(grid.Contents), t))));
        State() == r.state && driver.notices == old(driver.notices) + r.notices &&
        grid.Contents == if r.touched then TouchAt(old(grid.Contents), t) else old(grid.Contents)
    {
      CountTick(now);
      Settle();
    }

    /** After counting a tick: transition when past the block, then check for a collision. */
    method Settle()
      requires driver.grid == grid && grid.Valid() && driver.loaded && |visitedLocations| > 0
      modifies this, driver`notices, grid.Footprint, grid`Contents
      ensures driver.grid == grid && grid.Valid()
      ensures var a := AddressOf(Step(old(currentVoxel), old(nextDirection)));
        var r := Collide(Moved(old(State()), OccupantIn(old(grid.Contents), a), AllTouched(TouchAt(old(grid.Contents), a))));
        State() == r.state && driver.notices == old(driver.notices) + r.notices &&
        grid.Contents == if r.touched then TouchAt(old(grid.Contents), a) else old(grid.Contents)
    {
      ghost var a := AddressOf(Step(currentVoxel, nextDirection));
      ghost var m := Moved(State(), OccupantIn(grid.Contents, a), AllTouched(TouchAt(grid.Contents, a)));
      ghost var sent := driver.notices;
      CrossIfPast();
      CheckCollision();
      CollideAfter(m, sent);
    }

    /** Past the end of the block, the laser transitions into the next voxel. */
    method CrossIfPast()
      requires driver.grid == grid && grid.Valid() && driver.loaded && |visitedLocations| > 0
      modifies this, driver`notices, grid.Footprint, grid`Contents
      ensures driver.grid == grid && grid.Valid()
      ensures var a := AddressOf(Step(old(currentVoxel), old(nextDirection)));
        var m := Moved(old(State()), OccupantIn(old(grid.Contents), a), AllTouched(TouchAt(old(grid.Contents), a)));
        State() == m.state && driver.notices == old(driver.notices) + m.notices &&
        grid.Contents == if m.touched then TouchAt(old(grid.Contents), a) else old(grid.Contents)
    {
      if HasTransitioned() {
        TransitionStep();
      }
    }

    /** Counts one tick of progress and notes the time of the move. */
    method CountTick(now: real)
      requires driver.grid == grid && grid.Valid()
      modifies this`progress, this`lastMoved
      ensures driver.grid == grid && grid.Valid()
      ensures State() == Advanced(old(State()), now)
    {
      lastMoved := now;
      progress := progress + 1;
    }

    /** The collision part of `move`: on the trail, jump to the block's end, stop, and broadcast a loss. */
    method CheckCollision()
      requires driver.grid == grid && grid.Valid() && driver.loaded
      modifies this`progress, this`mobile, driver`notices
      ensures driver.grid == grid && grid.Valid()
      ensures var c := Collide(TickResult(old(State()), false, []));
        State() == c.state && driver.notices == old(driver.notices) + c.notices
    {
      var collided := IsAtPastLocation();
      if collided {
        progress := TicksPerBlock;
        Stop(Loss);
      }
    }

    /** Stops the laser and has the driver broadcast the outcome to every block. */
    method Stop(outcome: Notice)
      requires driver.grid == grid && grid.Valid() && driver.loaded
      modifies this`mobile, driver`notices
      ensures !mobile && driver.notices == old(driver.notices) + [outcome]
    {
      SetMobile(false);
      match outcome
      case Victory => driver.SetAllVictoryState();
      case Loss => driver.SetAllLossState();
    }

    /**
     * The transition part of `move`: commit the next direction and
     * orientation, step into the next voxel and record it, then enter it.
     * The recording happens before the touch here; neither reads what the
     * other writes.
     */
    method TransitionStep()
      requires driver.grid == grid && grid.Valid() && driver.loaded && |visitedLocations| > 0
      modifies this, driver`notices, grid.Footprint, grid`Contents
      ensures driver.grid == grid && grid.Valid()
      ensures var a := AddressOf(Step(old(currentVoxel), old(nextDirection)));
        var t := Transition(old(State()), OccupantIn(old(grid.Contents), a), AllTouched(TouchAt(old(grid.Contents), a)));
        State() == t.state
      ensures var a := AddressOf(Step(old(currentVoxel), old(nextDirection)));
        var t := Transition(old(State()), OccupantIn(old(grid.Contents), a), AllTouched(TouchAt(old(grid.Contents), a)));
        driver.notices == old(driver.notices) + t.notices
      ensures var a := AddressOf(Step(old(currentVoxel), old(nextDirection)));
        var t := Transition(old(State()), OccupantIn(old(grid.Contents), a), AllTouched(TouchAt(old(grid.Contents), a)));
        grid.Contents == if t.touched then TouchAt(old(grid.Contents), a) else old(grid.Contents)
    {
      var v := Step(currentVoxel, nextDirection);
      Record(v);
      EnterVoxel(v);
    }

    /**
     * Commits the next direction and orientation, makes `v` the current
     * voxel and records it, dropping the last recorded point when it lies
     * on the same axis as `v` and the point before it.
     */
    method Record(v: Voxel)
      modifies this`progress, this`currentDirection, this`currentOrientation, this`currentVoxel, this`visitedLocations
      ensures State() == old(State()).(progress := 0, currentDirection := old(nextDirection),
        currentOrientation := old(nextOrientation), voxel := v, path := Compact(old(visitedLocations), v))
    {
      var path := visitedLocations;
      if |path| > 1 && v.IsAlongSameAxis(path[|path| - 2]) {
        path := path[..|path| - 1];
      }
      progress, currentDirection, currentOrientation, currentVoxel, visitedLocations :=
        0, nextDirection, nextOrientation, v, path + [v];
    }

    /**
     * Entering voxel `v`: touch its block, then stop and broadcast a loss on
     * an impenetrable block, or a victory once every penetrable block is
     * touched.
     */
    method EnterVoxel(v: Voxel)
      requires driver.grid == grid && grid.Valid() && driver.loaded
      modifies this`mobile, driver`notices, grid.Footprint, grid`Contents
      ensures driver.grid == grid && grid.Valid()
      ensures var t := AddressOf(v);
        var e := Enter(OccupantIn(old(grid.Contents), t), AllTouched(TouchAt(old(grid.Contents), t)));
        mobile == (old(mobile) && !e.stops) && driver.notices == old(driver.notices) + e.notices &&
        grid.Contents == if e.touched then TouchAt(old(grid.Contents), t) else old(grid.Contents)
    {
      ghost var t := AddressOf(v);
      assert grid.Contents[t] == grid.CellAt(t.0, t.1, t.2);
      if grid.HasBlock(v.height, v.row, v.column) {
        TouchKeepsOccupant(grid.Contents, t);
        var _ := grid.TouchBlock(v.height, v.row, v.column);
        CheckOutcome(v);
      }
    }

    /**
     * After the touch: an impenetrable block loses the game; otherwise the
     * game is won once every penetrable block has been touched.
     */
    method CheckOutcome(v: Voxel)
      requires driver.grid == grid && grid.Valid() && driver.loaded
      requires grid.HasBlock(v.height, v.row, v.column)
      modifies this`mobile, driver`notices
      ensures driver.grid == grid && grid.Valid()
      ensures var e := Enter(OccupantIn(grid.Contents, AddressOf(v)), AllTouched(grid.Contents));
        mobile == (old(mobile) && !e.stops) && driver.notices == old(driver.notices) + e.notices
    {
      ghost var t := AddressOf(v);
      assert grid.Contents[t] == grid.CellAt(t.0, t.1, t.2);
      if grid.HasImpenetrableBlock(v.height, v.row, v.column) {
        Stop(Loss);
      } else {
        var all := driver.HasTouchedAllPenetrable();
        if all {
          Stop(Victory);
        }
      }
    }
  }

  /** The address of the cell a voxel names. */
  function AddressOf(v: Voxel): Coordinates {
    Address(v.height, v.row, v.column)
  }

  // ---------------------------------------------------------------------
  // Lemmas about the driver
  // ---------------------------------------------------------------------

  /** An empty structure is won before anything is touched. */
  lemma EmptyGridIsWon(g: Grid)
    requires g.Valid() && (g.height == 0 || g.rows == 0 || g.columns == 0)
    ensures g.AllPenetrableTouched()
  {
  }

  /** The win test fails exactly when some cell holds an untouched porous block. */
  lemma WinTestWitness(g: Grid)
    requires g.Valid()
    ensures !g.AllPenetrableTouched() <==>
      exists i: nat, j: nat, k: nat :: g.InBounds(i, j, k) && g.CellAt(i, j, k).Some? &&
        g.CellAt(i, j, k).value.kind == Porous && !g.CellAt(i, j, k).value.touched
  {
    if !g.AllPenetrableTouched() {
      var t :| t in g.Contents && g.Contents[t].Some? && !g.Contents[t].value.kind.IsImpenetrable() && !g.Contents[t].value.touched;
      assert g.Contents[t] == g.CellAt(t.0, t.1, t.2);
    }
    if exists i: nat, j: nat, k: nat :: g.InBounds(i, j, k) && g.CellAt(i, j, k).Some? &&
        g.CellAt(i, j, k).value.kind == Porous && !g.CellAt(i, j, k).value.touched {
      var i: nat, j: nat, k: nat :| g.InBounds(i, j, k) && g.CellAt(i, j, k).Some? &&
        g.CellAt(i, j, k).value.kind == Porous && !g.CellAt(i, j, k).value.touched;
      assert g.Contents[(i, j, k)] == g.CellAt(i, j, k);
    }
  }

  /** The driver and the structure place a block at the same point. */
  lemma LocationsAgree(d: Driver, v: Voxel)
    requires d.loaded && d.grid != null && d.grid.Valid()
    requires d.grid.HasBlock(v.height, v.row, v.column)
    requires IsGLint(v.height) && IsGLint(v.row) && IsGLint(v.column)
    requires 0 <= v.height && 0 <= v.row && 0 <= v.column
    ensures d.grid.GetBlockLocation(v.height, v.row, v.column) == Success(d.VoxelLocation(v))
  {
    NonNegativeKeeps(v.height);
    NonNegativeKeeps(v.row);
    NonNegativeKeeps(v.column);
  }

  /** A step along a direction moves the position by one block size along that direction. */
  lemma StepMovesOneBlock(d: Driver, v: Voxel, dir: Direction)
    requires d.loaded && d.grid != null
    ensures var p := d.VoxelLocation(v);
      var q := d.VoxelLocation(Step(v, dir));
      q.x == p.x + dir.x as real * d.grid.blockSize &&
      q.y == p.y + dir.y as real * d.grid.blockSize &&
      q.z == p.z + dir.z as real * d.grid.blockSize
  {
  }

  /** The grid is centred on its base: the first and last column (row) are symmetric about it. */
  lemma GridCentredOnBase(d: Driver)
    requires d.loaded && d.grid != null && d.grid.rows > 0 && d.grid.columns > 0
    ensures d.VoxelLocation(Voxel(0, 0, 0)).x + d.VoxelLocation(Voxel(0, 0, d.grid.columns - 1)).x == 2.0 * d.grid.base.x
    ensures d.VoxelLocation(Voxel(0, 0, 0)).z + d.VoxelLocation(Voxel(0, d.grid.rows - 1, 0)).z == 2.0 * d.grid.base.z
  {
    CentredAxis(d.grid.base.x, d.grid.blockSize, d.grid.columns);
    CentredAxis(d.grid.base.z, d.grid.blockSize, d.grid.rows);
  }

  /** Column (row) `c` of `n` lies c - (n - 1) / 2 blocks from the base. */
  lemma CentredOffset(b: real, blockSize: real, n: nat, c: int)
    ensures var corner := b - (n / 2) as real * blockSize + (if n % 2 == 0 then blockSize / 2.0 else 0.0);
      corner + c as real * blockSize == b + (c as real - (n as real - 1.0) / 2.0) * blockSize
  {
    var m := n / 2;
    if n % 2 == 0 {
      assert n as real == 2.0 * m as real;
    } else {
      assert n as real == 2.0 * m as real + 1.0;
    }
  }

  lemma CentredAxis(b: real, blockSize: real, n: nat)
    requires n > 0
    ensures var corner := b - (n / 2) as real * blockSize + (if n % 2 == 0 then blockSize / 2.0 else 0.0);
      corner + (corner + (n - 1) as real * blockSize) == 2.0 * b
  {
    var m := n / 2;
    if n % 2 == 0 {
      assert n == 2 * m;
      assert (n - 1) as real == 2.0 * m as real - 1.0;
    } else {
      assert n == 2 * m + 1;
      assert (n - 1) as real == 2.0 * m as real;
    }
  }
}
