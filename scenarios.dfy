/**
 * Whole games on small loaded structures: the occupants and win tests the
 * laser's ticks see are read off the contents a description loads, and the
 * contents follow the touches the ticks report.
 */
module Scenarios {
  import opened Voxels
  import opened Blocks
  import opened Grids
  import opened LaserSpec
  import opened BlockDrivers

  /** A single row of three cells: porous, impermeable, porous. */
  function RowPIP(): seq<Token> {
    [Num(1), Num(1), Num(3), Sym('P'), Sym('I'), Sym('P')]
  }

  /** A single row of two porous cells. */
  function RowPP(): seq<Token> {
    [Num(1), Num(1), Num(2), Sym('P'), Sym('P')]
  }

  /** In a structure of one level and one row, column `k` is the k-th cell in reading order. */
  lemma IndexInFirstRow(k: nat, n: nat)
    ensures Index(0, 0, k, 1, n) == k
  {
  }

  /** A one-row description loads character `c` into column `k`. */
  lemma RowCell(tokens: seq<Token>, n: Size, k: nat, c: char)
    requires Dimensions(tokens) == (1, 1, n) && k < n
    requires 3 + k < |tokens| && tokens[3 + k] == Sym(c)
    ensures Described(tokens)[(0, 0, k)] == NewCell(KindOf(c))
  {
    IndexInFirstRow(k, n);
    assert CellToken(tokens, 3 + k) == KindOf(c);
  }

  lemma RowPIPCells()
    ensures Described(RowPIP())[(0, 0, 0)] == Some(NewBlock(Porous))
    ensures Described(RowPIP())[(0, 0, 1)] == Some(NewBlock(Impermeable))
    ensures Described(RowPIP())[(0, 0, 2)] == Some(NewBlock(Porous))
  {
    assert Dimensions(RowPIP()) == (1, 1, 3);
    RowCell(RowPIP(), 3, 0, 'P');
    RowCell(RowPIP(), 3, 1, 'I');
    RowCell(RowPIP(), 3, 2, 'P');
  }

  /** What the laser finds crossing `P I P`: the win test stays false throughout. */
  lemma RowPIPContents()
    ensures var m0 := Described(RowPIP());
      var m1 := TouchAt(m0, (0, 0, 0));
      OccupantIn(m0, (0, 0, 0)) == Holds(false) && !AllTouched(m1) &&
      OccupantIn(m1, (0, 0, 1)) == Holds(true) && !AllTouched(TouchAt(m1, (0, 0, 1)))
  {
    RowPIPCells();
    var m0 := Described(RowPIP());
    var m1 := TouchAt(m0, (0, 0, 0));
    assert m1[(0, 0, 2)] == Some(NewBlock(Porous));
    assert TouchAt(m1, (0, 0, 1))[(0, 0, 2)] == Some(NewBlock(Porous));
  }

  lemma RowPPCells()
    ensures Described(RowPP())[(0, 0, 0)] == Some(NewBlock(Porous))
    ensures Described(RowPP())[(0, 0, 1)] == Some(NewBlock(Porous))
    ensures forall t :: Described(RowPP())[t].Some? ==> t == (0, 0, 0) || t == (0, 0, 1)
  {
    assert Dimensions(RowPP()) == (1, 1, 2);
    RowCell(RowPP(), 2, 0, 'P');
    RowCell(RowPP(), 2, 1, 'P');
  }

  /** What the laser finds crossing `P P`: the second touch completes the set. */
  lemma RowPPContents()
    ensures var m0 := Described(RowPP());
      var m1 := TouchAt(m0, (0, 0, 0));
      OccupantIn(m0, (0, 0, 0)) == Holds(false) && !AllTouched(m1) &&
      OccupantIn(m1, (0, 0, 1)) == Holds(false) && AllTouched(TouchAt(m1, (0, 0, 1)))
  {
    RowPPCells();
    var m0 := Described(RowPP());
    var m1 := TouchAt(m0, (0, 0, 0));
    assert m1[(0, 0, 1)] == Some(NewBlock(Porous));
    var m2 := TouchAt(m1, (0, 0, 1));
    forall t | t in m2 && m2[t].Some? && !m2[t].value.kind.IsImpenetrable()
      ensures m2[t].value.touched
    {
      assert m0[t].Some?;
    }
  }

  /** The laser one voxel west of a row's first cell, at the end of its block. */
  function WestOfRow(): LaserState {
    AtBlockEnd(Voxel(0, 0, -1), Direction(1, 0, 0), [Voxel(0, 0, -1)])
  }

  /** The start state and the first two cells of a row, in the terms the crossing lemma uses. */
  lemma RowAddresses()
    ensures AddressOf(Voxel(0, 0, 0)) == (0, 0, 0) && AddressOf(Offset(Voxel(0, 0, 0), 0, 0, 1)) == (0, 0, 1)
    ensures WestOfRow() == AtBlockEnd(Offset(Voxel(0, 0, 0), 0, 0, -1), Direction(1, 0, 0), [Offset(Voxel(0, 0, 0), 0, 0, -1)])
  {
  }

  /**
   * Two calls of `move` from `s0` that each cross into the next voxel, fed
   * with what the contents `m0` hold; the contents follow the first touch,
   * and the laser is back at the end of its block for the second call.
   */
  ghost function TwoCrossings(s0: LaserState, m0: CellMap, t1: real, t2: real): (TickResult, TickResult) {
    var a1 := AddressOf(Step(s0.voxel, s0.nextDirection));
    var r1 := Tick(s0, t1, OccupantIn(m0, a1), AllTouched(TouchAt(m0, a1)));
    var m1 := if r1.touched then TouchAt(m0, a1) else m0;
    var s1 := r1.state.(progress := TicksPerBlock);
    var a2 := AddressOf(Step(s1.voxel, s1.nextDirection));
    (r1, Tick(s1, t2, OccupantIn(m1, a2), AllTouched(TouchAt(m1, a2))))
  }

  /**
   * Two crossings along a row from one voxel west of `o`.  The first entered
   * cell holds a porous block and the win test stays false after touching
   * it; the second holds `second`, and `allTouchedAfter` is the win test
   * after touching it too.
   */
  lemma CrossTwoCells(o: Voxel, s0: LaserState, m0: CellMap, t1: real, t2: real, second: Occupant, allTouchedAfter: bool)
    requires t1 > MoveInterval && t2 - t1 > MoveInterval
    requires s0 == AtBlockEnd(Offset(o, 0, 0, -1), Direction(1, 0, 0), [Offset(o, 0, 0, -1)])
    requires OccupantIn(m0, AddressOf(o)) == Holds(false) && !AllTouched(TouchAt(m0, AddressOf(o)))
    requires OccupantIn(TouchAt(m0, AddressOf(o)), AddressOf(Offset(o, 0, 0, 1))) == second
    requires AllTouched(TouchAt(TouchAt(m0, AddressOf(o)), AddressOf(Offset(o, 0, 0, 1)))) == allTouchedAfter
    requires second == Holds(true) ==> !allTouchedAfter
    ensures var r1 := TwoCrossings(s0, m0, t1, t2).0;
      r1.touched && r1.notices == [] && r1.state.mobile && r1.state.voxel == o
    ensures var r2 := TwoCrossings(s0, m0, t1, t2).1;
      r2.touched == second.Holds? && r2.state.voxel == Offset(o, 0, 0, 1)
    ensures second == Holds(true) ==>
      TwoCrossings(s0, m0, t1, t2).1.notices == [Loss] && !TwoCrossings(s0, m0, t1, t2).1.state.mobile
    ensures second == Holds(false) && allTouchedAfter ==>
      TwoCrossings(s0, m0, t1, t2).1.notices == [Victory] && !TwoCrossings(s0, m0, t1, t2).1.state.mobile
    ensures second == Vacant || (second == Holds(false) && !allTouchedAfter) ==>
      TwoCrossings(s0, m0, t1, t2).1.notices == [] && TwoCrossings(s0, m0, t1, t2).1.state.mobile
  {
    assert Step(s0.voxel, s0.nextDirection) == o;
    TwoStepsEast(o, t1, t2, Holds(false), second, allTouchedAfter);
  }

  /** The `P I P` structure, seen from one voxel west of its row, in the terms of the crossing lemma. */
  lemma RowPIPFacts(o: Voxel, s0: LaserState, m0: CellMap)
    requires o == Voxel(0, 0, 0) && s0 == WestOfRow() && m0 == Described(RowPIP())
    ensures s0 == AtBlockEnd(Offset(o, 0, 0, -1), Direction(1, 0, 0), [Offset(o, 0, 0, -1)])
    ensures OccupantIn(m0, AddressOf(o)) == Holds(false) && !AllTouched(TouchAt(m0, AddressOf(o)))
    ensures OccupantIn(TouchAt(m0, AddressOf(o)), AddressOf(Offset(o, 0, 0, 1))) == Holds(true)
    ensures AllTouched(TouchAt(TouchAt(m0, AddressOf(o)), AddressOf(Offset(o, 0, 0, 1)))) == false
  {
    RowAddresses();
    RowPIPContents();
  }

  /**
   * The row `P I P` loaded and crossed by a laser one voxel west of it,
   * each call of `move` fed with what the contents hold: the first porous
   * block is touched without stopping, then the impermeable block stops
   * the laser with a loss.
   */
  lemma RowPIPLoses(t1: real, t2: real)
    requires t1 > MoveInterval && t2 - t1 > MoveInterval
    ensures var r1 := TwoCrossings(WestOfRow(), Described(RowPIP()), t1, t2).0;
      r1.touched && r1.notices == [] && r1.state.mobile && r1.state.voxel == Voxel(0, 0, 0)
    ensures var r2 := TwoCrossings(WestOfRow(), Described(RowPIP()), t1, t2).1;
      r2.touched && r2.notices == [Loss] && !r2.state.mobile && r2.state.voxel == Voxel(0, 0, 1)
  {
    var o :| o == Voxel(0, 0, 0);
    RowPIPFacts(o, WestOfRow(), Described(RowPIP()));
    CrossTwoCells(o, WestOfRow(), Described(RowPIP()), t1, t2, Holds(true), false);
  }

  /** The `P P` structure, seen from one voxel west of its row, in the terms of the crossing lemma. */
  lemma RowPPFacts(o: Voxel, s0: LaserState, m0: CellMap)
    requires o == Voxel(0, 0, 0) && s0 == WestOfRow() && m0 == Described(RowPP())
    ensures s0 == AtBlockEnd(Offset(o, 0, 0, -1), Direction(1, 0, 0), [Offset(o, 0, 0, -1)])
    ensures OccupantIn(m0, AddressOf(o)) == Holds(false) && !AllTouched(TouchAt(m0, AddressOf(o)))
    ensures OccupantIn(TouchAt(m0, AddressOf(o)), AddressOf(Offset(o, 0, 0, 1))) == Holds(false)
    ensures AllTouched(TouchAt(TouchAt(m0, AddressOf(o)), AddressOf(Offset(o, 0, 0, 1)))) == true
  {
    RowAddresses();
    RowPPContents();
  }

  /**
   * The row `P P` loaded and crossed by a laser one voxel west of it: the
   * second touch leaves no penetrable block untouched, so victory is
   * broadcast and the laser stops.
   */
  lemma RowPPWins(t1: real, t2: real)
    requires t1 > MoveInterval && t2 - t1 > MoveInterval
    ensures var r1 := TwoCrossings(WestOfRow(), Described(RowPP()), t1, t2).0;
      r1.touched && r1.notices == [] && r1.state.mobile && r1.state.voxel == Voxel(0, 0, 0)
    ensures var r2 := TwoCrossings(WestOfRow(), Described(RowPP()), t1, t2).1;
      r2.touched && r2.notices == [Victory] && !r2.state.mobile && r2.state.voxel == Voxel(0, 0, 1)
  {
    var o :| o == Voxel(0, 0, 0);
    RowPPFacts(o, WestOfRow(), Described(RowPP()));
    CrossTwoCells(o, WestOfRow(), Described(RowPP()), t1, t2, Holds(false), true);
  }
}
