/**
 * The screen flow of the game: the main menu, loading a puzzle, playing it
 * with a laser, and going back to the menu.  Only the key handler and the
 * per-frame update are modelled; windows, textures and drawing are not.
 * The puzzle file named by the menu is given to `Update` as its tokens
 * (None when it cannot be opened), and the clock as `now`.
 */
module Controllers {
  import opened Voxels
  import opened Grids
  import opened LaserSpec
  import opened BlockDrivers

  /** The keys the game reacts to; every other key is `Other`. */
  datatype Key = Q | F2 | P | ArrowUp | ArrowDown | ArrowLeft | ArrowRight | Other {
    predicate IsArrow() {
      this == ArrowUp || this == ArrowDown || this == ArrowLeft || this == ArrowRight
    }

    /** The turn an arrow key asks for. */
    function Turn(): TurnDirection
      requires IsArrow()
    {
      match this
      case ArrowUp => Up
      case ArrowDown => Down
      case ArrowLeft => Left
      case ArrowRight => Right
    }
  }

  /** The block size and base every puzzle is loaded with. */
  const PuzzleBlockSize: real := 30.0
  const PuzzleBase: Point := Point(0.0, 50.0, 0.0)

  class Controller {
    var mainMenuEnabled: bool
    var debugViewEnabled: bool
    /** Set by the menu when a puzzle is picked; read and cleared by `Update`. */
    var pathset: bool
    var path: string
    const driver: Driver
    var laser: Laser?

    /**
     * The menu shows exactly when no game is in progress; a game is in
     * progress exactly when the driver is loaded, and then the laser walks
     * the driver's structure and keeps its path invariant.  A puzzle can
     * only be picked from the menu.
     */
    ghost predicate Valid()
      reads this, driver, laser, driver.grid
      reads if driver.grid != null then driver.grid.Footprint else {}
      reads if driver.grid != null then {driver.grid.cells} else {}
    {
      (laser != null <==> driver.loaded) &&
      (mainMenuEnabled <==> laser == null) &&
      (pathset ==> mainMenuEnabled) &&
      (driver.loaded ==> driver.grid != null && driver.grid.Valid()) &&
      (laser != null ==> laser.driver == driver && laser.grid == driver.grid && PathInv(laser.State()))
    }

    /** The game starts on the main menu with nothing loaded. */
    constructor ()
      ensures Valid() && mainMenuEnabled && !debugViewEnabled && !pathset
      ensures laser == null && !driver.loaded
    {
      mainMenuEnabled := true;
      debugViewEnabled := false;
      pathset := false;
      path := "";
      driver := new Driver(null);
      laser := null;
    }

    /** Picking a puzzle on the menu records its path for the next update. */
    method SelectPuzzle(name: string)
      requires Valid() && mainMenuEnabled
      modifies this`pathset, this`path
      ensures Valid() && pathset && path == "puzzles/" + name
    {
      pathset := true;
      path := "puzzles/" + name;
    }

    /**
     * Q leaves a game for the menu; F2 flips the debug view; P pauses or
     * resumes the laser; the arrows ask the laser to turn.  `rotate` is the
     * rotation the laser's turn applies.
     */
    method SendKeyPress(key: Key, rotate: Rotation)
      requires Valid()
      modifies this`mainMenuEnabled, this`debugViewEnabled, this`laser, driver`loaded, laser
      ensures Valid()
      ensures debugViewEnabled == if key == F2 then !old(debugViewEnabled) else old(debugViewEnabled)
      ensures pathset == old(pathset) && path == old(path) && driver.grid == old(driver.grid)
      ensures key == Q && old(driver.loaded) ==> mainMenuEnabled && laser == null && !driver.loaded
      ensures !(key == Q && old(driver.loaded)) ==>
        mainMenuEnabled == old(mainMenuEnabled) && laser == old(laser) && driver.loaded == old(driver.loaded)
      ensures key == P && old(laser) != null ==> laser.State() == old(laser.State()).(mobile := !old(laser.mobile))
      ensures key.IsArrow() && old(laser) != null ==> laser.State() == TurnSpec(old(laser.State()), key.Turn(), rotate)
      ensures (key == F2 || key == Other) && old(laser) != null ==> laser.State() == old(laser.State())
    {
      match key
      case Q =>
        if driver.IsLoaded() {
          mainMenuEnabled := true;
          laser := null;
          driver.Unload();
        }
      case F2 =>
        debugViewEnabled := !debugViewEnabled;
      case P =>
        if laser != null && driver.IsLoaded() {
          laser.SetMobile(!laser.IsMobile());
        }
      case ArrowUp =>
        if laser != null && driver.IsLoaded() {
          laser.Turn(Up, rotate);
        }
      case ArrowDown =>
        if laser != null && driver.IsLoaded() {
          laser.Turn(Down, rotate);
        }
      case ArrowLeft =>
        if laser != null && driver.IsLoaded() {
          laser.Turn(Left, rotate);
        }
      case ArrowRight =>
        if laser != null && driver.IsLoaded() {
          laser.Turn(Right, rotate);
        }
      case Other =>
    }

    /**
     * One frame.  A picked puzzle is loaded first (failing, with only the
     * request cleared, when its file cannot be opened).  Then, with a game
     * loaded: a new game gets its laser and leaves the menu; a moving laser
     * moves; a halted laser that has been idle long enough ends the game,
     * unless the debug view is on.
     */
    method Update(now: real, source: Option<seq<Token>>) returns (res: Outcome)
      requires Valid()
      modifies this`pathset, this`mainMenuEnabled, this`laser, driver, laser
      modifies if driver.grid != null then {driver.grid} else {}
      modifies if driver.grid != null then driver.grid.Footprint else {}
      ensures Valid() && !pathset && debugViewEnabled == old(debugViewEnabled)
      ensures res.Fail? <==> old(pathset) && source.None?
      ensures res.Fail? ==>
        res == Fail(SourceNotFound) &&
        mainMenuEnabled == old(mainMenuEnabled) && laser == old(laser) && driver.loaded == old(driver.loaded)
      ensures old(pathset) && source.Some? ==>
        driver.loaded && fresh(driver.grid) && driver.grid.Contents == Described(source.value) &&
        laser != null && fresh(laser) && laser.State() == Initial(StartDirection, StartVoxel, now) && !mainMenuEnabled
      ensures !old(pathset) && old(laser) == null ==>
        laser == null && mainMenuEnabled == old(mainMenuEnabled) && driver.loaded == old(driver.loaded)
      ensures !old(pathset) && old(laser) != null && old(laser.mobile) ==>
        laser == old(laser) && !mainMenuEnabled && driver.loaded &&
        var t := AddressOf(Step(old(laser.currentVoxel), old(laser.nextDirection)));
        var r := Tick(old(laser.State()), now, OccupantIn(old(driver.grid.Contents), t), AllTouched(TouchAt(old(driver.grid.Contents), t)));
        laser.State() == r.state && driver.notices == old(driver.notices) + r.notices &&
        driver.grid.Contents == if r.touched then TouchAt(old(driver.grid.Contents), t) else old(driver.grid.Contents)
      ensures !old(pathset) && old(laser) != null && !old(laser.mobile) ==>
        if !debugViewEnabled && LaserSpec.IsIdle(old(laser.State()), now) then
          mainMenuEnabled && laser == null && !driver.loaded
        else
          laser == old(laser) && laser.State() == old(laser.State()) && !mainMenuEnabled && driver.loaded
    {
      res := Done;
      if pathset {
        pathset := false;
        var structure := new Grid(PuzzleBlockSize, PuzzleBase);
        var loadResult := structure.Load(source);
        if loadResult.Fail? {
          return loadResult;
        }
        driver.LoadBlockStructure(structure);
      }
      if driver.IsLoaded() {
        if laser != null {
          if laser.IsMobile() {
            laser.Move(now);
          } else if !debugViewEnabled && laser.IsIdle(now) {
            mainMenuEnabled := true;
            laser := null;
            driver.Unload();
          }
        } else {
          laser := driver.GetLaser(now);
          mainMenuEnabled := false;
        }
      }
    }
  }
}
