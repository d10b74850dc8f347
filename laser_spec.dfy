/**
 * The laser as a state machine over values.  One call of `move` is one
 * `Tick`, one call of `turn` is one `TurnSpec`; the laser class in the
 * driver module is proved to update its fields exactly as these say.
 *
 * Progress is counted in ticks: the speed is a thirtieth of the block size,
 * so a block is 30 ticks long, its centre is at 15, and a transition into
 * the next voxel happens once progress exceeds 30.
 */
module LaserSpec {
  import opened Voxels

  /** Ticks per block: blockSize / speed. */
  const TicksPerBlock: int := 30
  /** The centre of a block: blockSize / 2, in ticks. */
  const Center: int := 15
  /** The turn threshold blockSize * thresholdRatio / 2 with thresholdRatio 1.0, in ticks. */
  const TurnThreshold: int := 15
  /** Seconds that must pass between two accepted ticks. */
  const MoveInterval: real := 0.01
  /** Seconds without an accepted tick after which the laser counts as idle. */
  const SecondsToIdle: real := 5.0

  /** A 4x4 orientation matrix; its entries matter only to the rotation. */
  type Matrix = seq<seq<real>>

  const Identity: Matrix := [[1.0, 0.0, 0.0, 0.0], [0.0, 1.0, 0.0, 0.0], [0.0, 0.0, 1.0, 0.0], [0.0, 0.0, 0.0, 1.0]]

  datatype TurnDirection = Up | Down | Left | Right

  /**
   * The matrix-stack rotation of `turn`: from the current orientation, the
   * current direction and the turn, the next orientation and the next
   * direction (already truncated to integers).
   */
  type Rotation = (Matrix, Direction, TurnDirection) -> (Matrix, Direction)

  /** The notification the driver sends to every block. */
  datatype Notice = Victory | Loss

  /** What the laser finds in the voxel it enters. */
  datatype Occupant = Vacant | Holds(impenetrable: bool)

  datatype LaserState = LaserState(
    mobile: bool,
    progress: int,
    currentDirection: Direction,
    nextDirection: Direction,
    currentOrientation: Matrix,
    nextOrientation: Matrix,
    voxel: Voxel,
    path: seq<Voxel>,
    lastMoved: real)

  /** One tick: the new state, whether the entered voxel's block was touched, and the notices sent in order. */
  datatype TickResult = TickResult(state: LaserState, touched: bool, notices: seq<Notice>)

  /** A new laser: mobile, no progress, both directions and orientations equal, the start voxel recorded. */
  function Initial(direction: Direction, voxel: Voxel, now: real): LaserState {
    LaserState(true, 0, direction, direction, Identity, Identity, voxel, [voxel], now)
  }

  predicate HasPassedBlockCenter(s: LaserState) {
    s.progress > Center
  }

  predicate HasTransitioned(s: LaserState) {
    s.progress > TicksPerBlock
  }

  predicate IsWithinTurnThreshold(s: LaserState) {
    Center - TurnThreshold <= s.progress <= Center + TurnThreshold
  }

  /** `move` acts only on a mobile laser whose last accepted tick is more than the interval ago. */
  predicate Accepts(s: LaserState, now: real) {
    s.mobile && now - s.lastMoved > MoveInterval
  }

  predicate IsIdle(s: LaserState, now: real) {
    now - s.lastMoved >= SecondsToIdle
  }

  /**
   * Records voxel `v` on the path.  The previous last point is dropped when
   * `v` is along the same axis as the point before it, so that only the
   * turning points of the trail remain.
   */
  function Compact(path: seq<Voxel>, v: Voxel): seq<Voxel> {
    (if |path| > 1 && v.IsAlongSameAxis(path[|path| - 2]) then path[..|path| - 1] else path) + [v]
  }

  /** `v` is the recorded point `i` or lies between it and the next one. */
  predicate HitsSegment(path: seq<Voxel>, i: int, v: Voxel)
    requires 0 <= i < |path| - 1
  {
    v == path[i] || v.IsInBetween(path[i], path[i + 1])
  }

  /** `v` is a recorded point other than the last, or lies between two consecutive recorded points. */
  predicate CollidesWithPath(path: seq<Voxel>, v: Voxel)
    decreases |path|
  {
    |path| > 1 && (HitsSegment(path, 0, v) || CollidesWithPath(path[1..], v))
  }

  /** The recursive test is the loop's test: some segment, first to last but one, is hit. */
  lemma {:induction false} CollidesIffSomeSegment(path: seq<Voxel>, v: Voxel)
    ensures CollidesWithPath(path, v) <==> exists i :: 0 <= i < |path| - 1 && HitsSegment(path, i, v)
    decreases |path|
  {
    if |path| > 1 {
      CollidesIffSomeSegment(path[1..], v);
      if CollidesWithPath(path[1..], v) {
        var i :| 0 <= i < |path| - 2 && HitsSegment(path[1..], i, v);
        assert HitsSegment(path, i + 1, v);
      }
      if i :| 0 <= i < |path| - 1 && HitsSegment(path, i, v) {
        if i > 0 {
          assert HitsSegment(path[1..], i - 1, v);
        }
      }
    }
  }

  /** What entering a voxel does: whether its block is touched, whether the laser stops, and the notices sent. */
  datatype Entry = Entry(touched: bool, stops: bool, notices: seq<Notice>)

  /** Touch the block, and stop on an impenetrable block or on the last untouched porous one. */
  function Enter(occupant: Occupant, allTouched: bool): Entry {
    match occupant
    case Vacant => Entry(false, false, [])
    case Holds(true) => Entry(true, true, [Loss])
    case Holds(false) =>
      if allTouched then Entry(true, true, [Victory])
      else Entry(true, false, [])
  }

  /** Moving into the next voxel along the committed direction, entering it, and recording it. */
  function Transition(s: LaserState, occupant: Occupant, allTouched: bool): TickResult {
    var v := Step(s.voxel, s.nextDirection);
    var e := Enter(occupant, allTouched);
    TickResult(s.(mobile := s.mobile && !e.stops, progress := 0, currentDirection := s.nextDirection,
                  currentOrientation := s.nextOrientation, voxel := v, path := Compact(s.path, v)),
               e.touched, e.notices)
  }

  /**
   * One call of `move` at time `now`.  `occupant` is what the next voxel
   * holds and `allTouched` whether every penetrable block is touched once
   * that voxel's block has been touched; both matter only on a transition.
   */
  function Tick(s: LaserState, now: real, occupant: Occupant, allTouched: bool): TickResult {
    if !Accepts(s, now) then TickResult(s, false, [])
    else Collide(Moved(Advanced(s, now), occupant, allTouched))
  }

  /** An accepted tick first counts one tick of progress and notes the time. */
  function Advanced(s: LaserState, now: real): LaserState {
    s.(progress := s.progress + 1, lastMoved := now)
  }

  /** Past the end of the block, the laser transitions into the next voxel. */
  function Moved(s: LaserState, occupant: Occupant, allTouched: bool): TickResult {
    if HasTransitioned(s) then Transition(s, occupant, allTouched) else TickResult(s, false, [])
  }

  /** On the trail, the laser jumps to the end of its block, stops, and a loss is broadcast. */
  function Collide(m: TickResult): TickResult {
    if CollidesWithPath(m.state.path, m.state.voxel) then
      TickResult(m.state.(progress := TicksPerBlock, mobile := false), m.touched, m.notices + [Loss])
    else m
  }

  /** One call of `turn`: inside the window the next direction and orientation are recomputed from the current ones. */
  function TurnSpec(s: LaserState, t: TurnDirection, rotate: Rotation): LaserState {
    if IsWithinTurnThreshold(s) then
      var (o, d) := rotate(s.currentOrientation, s.currentDirection, t);
      s.(nextOrientation := o, nextDirection := d)
    else s
  }

  // ---------------------------------------------------------------------
  // Invariants
  // ---------------------------------------------------------------------

  /** Progress stays within one block and the path ends at the current voxel. */
  ghost predicate PathInv(s: LaserState) {
    0 <= s.progress <= TicksPerBlock && |s.path| > 0 && s.path[|s.path| - 1] == s.voxel
  }

  /** Consecutive recorded points differ in exactly one coordinate. */
  ghost predicate StraightSegments(path: seq<Voxel>) {
    forall i :: 0 <= i < |path| - 1 ==> DiffCount(path[i], path[i + 1]) == 1
  }

  /** Both directions are axis-aligned unit vectors and the trail is made of straight runs. */
  ghost predicate AxisInv(s: LaserState) {
    PathInv(s) && IsUnitAxis(s.currentDirection) && IsUnitAxis(s.nextDirection) && StraightSegments(s.path)
  }

  lemma InitialInv(direction: Direction, voxel: Voxel, now: real)
    ensures PathInv(Initial(direction, voxel, now))
    ensures IsUnitAxis(direction) ==> AxisInv(Initial(direction, voxel, now))
    ensures Initial(direction, voxel, now).mobile && !CollidesWithPath(Initial(direction, voxel, now).path, voxel)
  {
  }

  /** The recorded path is never empty and always ends at the voxel just entered. */
  lemma CompactEndsAt(path: seq<Voxel>, v: Voxel)
    requires |path| > 0
    ensures |Compact(path, v)| > 0 && Compact(path, v)[|Compact(path, v)| - 1] == v
    ensures |path| > 1 && v.IsAlongSameAxis(path[|path| - 2]) ==> Compact(path, v) == path[..|path| - 1] + [v]
    ensures !(|path| > 1 && v.IsAlongSameAxis(path[|path| - 2])) ==> Compact(path, v) == path + [v]
  {
  }

  /** The collision check sees only the state: its notices follow those already sent. */
  lemma CollideAfter(m: TickResult, sent: seq<Notice>)
    ensures var c := Collide(TickResult(m.state, false, []));
      Collide(m) == TickResult(c.state, m.touched, m.notices + c.notices) &&
      sent + m.notices + c.notices == sent + Collide(m).notices
  {
  }

  /** Every tick keeps progress within a block and the path ending at the current voxel. */
  lemma TickPreservesPathInv(s: LaserState, now: real, occupant: Occupant, allTouched: bool)
    requires PathInv(s)
    ensures PathInv(Tick(s, now, occupant, allTouched).state)
  {
    if Accepts(s, now) && s.progress + 1 > TicksPerBlock {
      CompactEndsAt(s.path, Step(s.voxel, s.nextDirection));
    }
  }

  /** A tick that is not accepted changes nothing and sends nothing. */
  lemma RejectedTickChangesNothing(s: LaserState, now: real, occupant: Occupant, allTouched: bool)
    requires !s.mobile || now - s.lastMoved <= MoveInterval
    ensures Tick(s, now, occupant, allTouched) == TickResult(s, false, [])
  {
  }

  /**
   * An accepted tick that does not end a block only advances progress (or
   * jumps to the block's end on a collision); voxel, path and directions
   * stay, and nothing is touched.
   */
  lemma TickWithinBlock(s: LaserState, now: real, occupant: Occupant, allTouched: bool)
    requires PathInv(s) && Accepts(s, now) && s.progress < TicksPerBlock
    ensures var r := Tick(s, now, occupant, allTouched);
      r.state.voxel == s.voxel && r.state.path == s.path &&
      r.state.currentDirection == s.currentDirection && r.state.nextDirection == s.nextDirection &&
      r.state.lastMoved == now && !r.touched &&
      r.state.progress == (if CollidesWithPath(s.path, s.voxel) then TicksPerBlock else s.progress + 1)
  {
  }

  /**
   * An accepted tick at the end of a block transitions: progress restarts,
   * the next direction becomes current, the voxel moves one step along it
   * (height by y, row by z, column by x) and is recorded on the path.
   */
  lemma TickTransition(s: LaserState, now: real, occupant: Occupant, allTouched: bool)
    requires PathInv(s) && Accepts(s, now) && s.progress == TicksPerBlock
    ensures var r := Tick(s, now, occupant, allTouched);
      var v := Voxel(s.voxel.height + s.nextDirection.y, s.voxel.row + s.nextDirection.z, s.voxel.column + s.nextDirection.x);
      r.state.voxel == v &&
      r.state.currentDirection == s.nextDirection && r.state.nextDirection == s.nextDirection &&
      r.state.currentOrientation == s.nextOrientation &&
      r.state.path == Compact(s.path, v) &&
      r.state.progress == (if CollidesWithPath(Compact(s.path, v), v) then TicksPerBlock else 0) &&
      r.touched == occupant.Holds?
  {
  }

  /**
   * What entering a voxel broadcasts: a loss for an impenetrable block, a
   * victory for a penetrable block once all are touched, nothing for an
   * empty cell; a loss is appended when the voxel is on the trail.
   */
  lemma TransitionNotices(s: LaserState, now: real, occupant: Occupant, allTouched: bool)
    requires PathInv(s) && Accepts(s, now) && s.progress == TicksPerBlock
    ensures var r := Tick(s, now, occupant, allTouched);
      var v := Step(s.voxel, s.nextDirection);
      r.notices ==
        (match occupant
         case Vacant => []
         case Holds(true) => [Loss]
         case Holds(false) => if allTouched then [Victory] else []) +
        (if CollidesWithPath(Compact(s.path, v), v) then [Loss] else [])
  {
  }

  /** The laser stops on exactly the ticks that broadcast something, and never restarts by moving. */
  lemma StopsIffNotified(s: LaserState, now: real, occupant: Occupant, allTouched: bool)
    ensures var r := Tick(s, now, occupant, allTouched);
      (r.state.mobile <==> s.mobile && r.notices == []) &&
      (!s.mobile ==> r.state == s)
  {
  }

  /** A tick that reports a collision leaves the laser halted at the end of its block. */
  lemma CollisionHalts(s: LaserState, now: real, occupant: Occupant, allTouched: bool)
    requires Accepts(s, now)
    ensures var r := Tick(s, now, occupant, allTouched);
      CollidesWithPath(r.state.path, r.state.voxel) ==>
        !r.state.mobile && r.state.progress == TicksPerBlock && r.notices[|r.notices| - 1] == Loss
  {
  }

  // ---------------------------------------------------------------------
  // Runs of ticks
  // ---------------------------------------------------------------------

  /** The inputs of one call of `move`. */
  datatype TickInput = TickInput(now: real, occupant: Occupant, allTouched: bool)

  /** The state after a sequence of calls of `move`. */
  function Run(s: LaserState, inputs: seq<TickInput>): LaserState
    decreases |inputs|
  {
    if |inputs| == 0 then s
    else Run(Tick(s, inputs[0].now, inputs[0].occupant, inputs[0].allTouched).state, inputs[1..])
  }

  /** A halted laser stays where it is, however often it is moved. */
  lemma {:induction false} HaltedStaysHalted(s: LaserState, inputs: seq<TickInput>)
    requires !s.mobile
    ensures Run(s, inputs) == s
    decreases |inputs|
  {
    if |inputs| > 0 {
      StopsIffNotified(s, inputs[0].now, inputs[0].occupant, inputs[0].allTouched);
      HaltedStaysHalted(s, inputs[1..]);
    }
  }

  /** The path invariant holds after any sequence of moves. */
  lemma {:induction false} RunPreservesPathInv(s: LaserState, inputs: seq<TickInput>)
    requires PathInv(s)
    ensures PathInv(Run(s, inputs))
    decreases |inputs|
  {
    if |inputs| > 0 {
      TickPreservesPathInv(s, inputs[0].now, inputs[0].occupant, inputs[0].allTouched);
      RunPreservesPathInv(Tick(s, inputs[0].now, inputs[0].occupant, inputs[0].allTouched).state, inputs[1..]);
    }
  }

  // ---------------------------------------------------------------------
  // The trail is made of straight runs
  // ---------------------------------------------------------------------

  /** Two points that each differ from a third in one coordinate differ from each other in at most two. */
  lemma DiffCountTriangle(a: Voxel, b: Voxel, c: Voxel)
    ensures DiffCount(a, c) <= DiffCount(a, b) + DiffCount(b, c)
  {
  }

  /**
   * Recording a unit step from the last point keeps every segment straight:
   * when the last point is dropped, the new point differs from the one
   * before it in a single coordinate.
   */
  lemma {:induction false} CompactKeepsStraight(path: seq<Voxel>, d: Direction)
    requires |path| > 0 && StraightSegments(path) && IsUnitAxis(d)
    ensures StraightSegments(Compact(path, Step(path[|path| - 1], d)))
  {
    var u := path[|path| - 1];
    var v := Step(u, d);
    UnitStepDiffersOnce(u, d);
    var c := Compact(path, v);
    if |path| > 1 && v.IsAlongSameAxis(path[|path| - 2]) {
      var p := path[|path| - 2];
      assert DiffCount(p, u) == 1;
      DiffCountTriangle(p, u, v);
      AlongSameAxisSymmetricIrreflexive(v, p);
      AlongSameAxisIffOddDifferences(p, v);
      assert DiffCount(p, v) == 1;
      assert c == path[..|path| - 1] + [v];
      forall i | 0 <= i < |c| - 1
        ensures DiffCount(c[i], c[i + 1]) == 1
      {
        if i < |c| - 2 {
          assert c[i] == path[i] && c[i + 1] == path[i + 1];
        }
      }
    } else {
      assert c == path + [v];
      forall i | 0 <= i < |c| - 1
        ensures DiffCount(c[i], c[i + 1]) == 1
      {
        if i < |c| - 2 {
          assert c[i] == path[i] && c[i + 1] == path[i + 1];
        }
      }
    }
  }

  /**
   * On a straight segment the exclusive-or test is harmless: a voxel is
   * between the ends exactly when it differs from them only in the
   * segment's coordinate, strictly inside.
   */
  lemma InBetweenOnStraightSegment(v: Voxel, l: Voxel, r: Voxel)
    requires DiffCount(l, r) == 1
    ensures v.IsInBetween(l, r) <==> v != l && v != r && InBox(v, l, r)
  {
    InBetweenCharacterization(v, l, r);
    if v != l && v != r && InBox(v, l, r) {
      assert DiffCount(v, l) == 1 && DiffCount(v, r) == 1;
    }
  }

  /** Every tick keeps directions axis-aligned and segments straight, given that they were. */
  lemma TickPreservesAxisInv(s: LaserState, now: real, occupant: Occupant, allTouched: bool)
    requires AxisInv(s)
    ensures AxisInv(Tick(s, now, occupant, allTouched).state)
  {
    TickPreservesPathInv(s, now, occupant, allTouched);
    if Accepts(s, now) && s.progress + 1 > TicksPerBlock {
      CompactKeepsStraight(s.path, s.nextDirection);
    }
  }

  // ---------------------------------------------------------------------
  // Turning
  // ---------------------------------------------------------------------

  /** With threshold ratio 1.0 the turn window is the whole block, [0, 30] ticks. */
  lemma TurnWindowIsWholeBlock(s: LaserState)
    ensures IsWithinTurnThreshold(s) <==> 0 <= s.progress <= TicksPerBlock
  {
  }

  /**
   * A turn changes only the next direction and orientation, only inside the
   * window, and to what the rotation gives for the current ones.
   */
  lemma TurnFrame(s: LaserState, t: TurnDirection, rotate: Rotation)
    ensures var s' := TurnSpec(s, t, rotate);
      s'.mobile == s.mobile && s'.progress == s.progress && s'.voxel == s.voxel &&
      s'.path == s.path && s'.currentDirection == s.currentDirection &&
      s'.currentOrientation == s.currentOrientation && s'.lastMoved == s.lastMoved
    ensures !IsWithinTurnThreshold(s) ==> TurnSpec(s, t, rotate) == s
    ensures PathInv(s) ==>
      TurnSpec(s, t, rotate).nextDirection == rotate(s.currentOrientation, s.currentDirection, t).1 &&
      TurnSpec(s, t, rotate).nextOrientation == rotate(s.currentOrientation, s.currentDirection, t).0
  {
  }

  /** Of two turns before a transition only the later counts: each starts from the current direction. */
  lemma LaterTurnWins(s: LaserState, t1: TurnDirection, t2: TurnDirection, rotate: Rotation)
    requires PathInv(s)
    ensures TurnSpec(TurnSpec(s, t1, rotate), t2, rotate) == TurnSpec(s, t2, rotate)
  {
  }

  /** A turn keeps both invariants when the rotation yields an axis-aligned unit direction. */
  lemma TurnPreservesInv(s: LaserState, t: TurnDirection, rotate: Rotation)
    requires PathInv(s)
    ensures PathInv(TurnSpec(s, t, rotate))
    ensures AxisInv(s) && IsUnitAxis(rotate(s.currentOrientation, s.currentDirection, t).1) ==>
      AxisInv(TurnSpec(s, t, rotate))
  {
  }

  // ---------------------------------------------------------------------
  // Scenarios
  // ---------------------------------------------------------------------

  /** A laser at the end of its block, heading along `d`, about to transition. */
  function AtBlockEnd(voxel: Voxel, d: Direction, path: seq<Voxel>): LaserState {
    LaserState(true, TicksPerBlock, d, d, Identity, Identity, voxel, path, 0.0)
  }

  /** The voxel at an offset from `o`, in levels, rows and columns. */
  function Offset(o: Voxel, dh: int, dr: int, dc: int): Voxel {
    Voxel(o.height + dh, o.row + dr, o.column + dc)
  }

  /**
   * Two transitions along a row of columns, starting one voxel before `o`:
   * the laser enters `o` and then the next column, finding `first` and
   * `second` there, with `allTouchedAfter` the win test after the second touch.
   */
  lemma TwoStepsEast(o: Voxel, t1: real, t2: real, first: Occupant, second: Occupant, allTouchedAfter: bool)
    requires t1 > MoveInterval && t2 - t1 > MoveInterval
    requires first == Holds(false) || first == Vacant
    ensures var s0 := AtBlockEnd(Offset(o, 0, 0, -1), Direction(1, 0, 0), [Offset(o, 0, 0, -1)]);
      var r1 := Tick(s0, t1, first, false);
      var r2 := Tick(r1.state.(progress := TicksPerBlock), t2, second, allTouchedAfter);
      r1.touched == first.Holds? && r1.notices == [] && r1.state.mobile && r1.state.voxel == o &&
      r2.touched == second.Holds? && r2.state.voxel == Offset(o, 0, 0, 1) &&
      r2.state.path == [Offset(o, 0, 0, -1), Offset(o, 0, 0, 1)] &&
      r2.notices == (match second
                     case Vacant => []
                     case Holds(true) => [Loss]
                     case Holds(false) => if allTouchedAfter then [Victory] else []) &&
      (r2.state.mobile <==> r2.notices == [])
  {
    var east := Direction(1, 0, 0);
    var s0 := AtBlockEnd(Offset(o, 0, 0, -1), east, [Offset(o, 0, 0, -1)]);
    assert Step(s0.voxel, east) == o;
    var p1 := [Offset(o, 0, 0, -1), o];
    assert Compact(s0.path, o) == p1;
    assert !HitsSegment(p1, 0, o);
    assert !CollidesWithPath(p1, o);
    TickTransition(s0, t1, first, false);
    TransitionNotices(s0, t1, first, false);
    StopsIffNotified(s0, t1, first, false);
    var r1 := Tick(s0, t1, first, false);
    var s1 := r1.state.(progress := TicksPerBlock);
    var v2 := Offset(o, 0, 0, 1);
    assert Step(s1.voxel, s1.nextDirection) == v2;
    assert v2.IsAlongSameAxis(p1[0]);
    var p2 := [Offset(o, 0, 0, -1), v2];
    assert Compact(p1, v2) == p2;
    assert !HitsSegment(p2, 0, v2);
    assert !CollidesWithPath(p2, v2);
    TickTransition(s1, t2, second, allTouchedAfter);
    TransitionNotices(s1, t2, second, allTouchedAfter);
    StopsIffNotified(s1, t2, second, allTouchedAfter);
  }

  /**
   * A row `P I P` crossed along the columns: the first porous block is
   * touched without stopping, the impermeable one then stops the laser with
   * a loss.
   */
  lemma ScenarioImpermeableLoses(o: Voxel, t1: real, t2: real)
    requires t1 > MoveInterval && t2 - t1 > MoveInterval
    ensures var s0 := AtBlockEnd(Offset(o, 0, 0, -1), Direction(1, 0, 0), [Offset(o, 0, 0, -1)]);
      var r1 := Tick(s0, t1, Holds(false), false);
      var r2 := Tick(r1.state.(progress := TicksPerBlock), t2, Holds(true), false);
      r1.touched && r1.notices == [] && r1.state.mobile &&
      r2.touched && r2.notices == [Loss] && !r2.state.mobile && r2.state.voxel == Offset(o, 0, 0, 1)
  {
    TwoStepsEast(o, t1, t2, Holds(false), Holds(true), false);
  }

  /**
   * A row `P P` crossed along the columns: the second touch completes the
   * set, so victory is broadcast once and the laser stops.
   */
  lemma ScenarioLastPorousWins(o: Voxel, t1: real, t2: real)
    requires t1 > MoveInterval && t2 - t1 > MoveInterval
    ensures var s0 := AtBlockEnd(Offset(o, 0, 0, -1), Direction(1, 0, 0), [Offset(o, 0, 0, -1)]);
      var r1 := Tick(s0, t1, Holds(false), false);
      var r2 := Tick(r1.state.(progress := TicksPerBlock), t2, Holds(false), true);
      r1.notices == [] && r1.state.mobile &&
      r2.notices == [Victory] && !r2.state.mobile
  {
    TwoStepsEast(o, t1, t2, Holds(false), Holds(false), true);
  }

  /**
   * A closed loop: the laser goes round a square and steps back onto its
   * starting voxel, which is a recorded turning point; the collision stops
   * it with a loss although the cell is empty.
   */
  lemma ScenarioClosedLoopCollides(o: Voxel, now: real)
    requires now > MoveInterval
    ensures var path := [o, Offset(o, 0, 0, 2), Offset(o, 0, 2, 2), Offset(o, 0, 2, 0), Offset(o, 0, 1, 0)];
      var r := Tick(AtBlockEnd(Offset(o, 0, 1, 0), Direction(0, 0, -1), path), now, Vacant, false);
      r.state.voxel == o && !r.state.mobile &&
      r.state.progress == TicksPerBlock && r.notices == [Loss] && !r.touched
  {
    var north := Direction(0, 0, -1);
    var path := [o, Offset(o, 0, 0, 2), Offset(o, 0, 2, 2), Offset(o, 0, 2, 0), Offset(o, 0, 1, 0)];
    var s := AtBlockEnd(Offset(o, 0, 1, 0), north, path);
    assert Step(s.voxel, north) == o;
    assert o.IsAlongSameAxis(path[3]);
    var c := [o, Offset(o, 0, 0, 2), Offset(o, 0, 2, 2), Offset(o, 0, 2, 0), o];
    assert Compact(path, o) == c;
    assert HitsSegment(c, 0, o);
    assert CollidesWithPath(c, o);
    TickTransition(s, now, Vacant, false);
    TransitionNotices(s, now, Vacant, false);
    StopsIffNotified(s, now, Vacant, false);
  }
}
