/**
 * The block structure: a height x rows x columns array of optional blocks,
 * the queries the laser asks of it, the touch and victory/loss calls it
 * forwards to single blocks, the world position of a cell, and the loader
 * that reads a grid description.
 */
module Grids {
  import opened Blocks

  datatype Option<T> = None | Some(value: T)

  /** The two exceptions the structure throws. */
  datatype Error = SourceNotFound | NoBlockAtLocation

  datatype Outcome = Done | Fail(error: Error)

  datatype Result<T> = Success(value: T) | Failure(error: Error)

  /** A position in world space (the x, y, z of a Vector4). */
  datatype Point = Point(x: real, y: real, z: real)

  /** 2^64: a signed coordinate passed where a size_type is expected wraps modulo this. */
  const SizeModulus: int := 0x1_0000_0000_0000_0000

  /** The conversion of a signed coordinate to the unsigned size_type. */
  function ToSize(n: int): nat {
    n % SizeModulus
  }

  /** A coordinate of the 32-bit signed range (GLint). */
  predicate IsGLint(n: int) {
    -0x8000_0000 <= n < 0x8000_0000
  }

  /** A negative GLint becomes a size_type at least 2^64 - 2^31. */
  lemma NegativeWrapsHigh(n: int)
    requires IsGLint(n) && n < 0
    ensures ToSize(n) == n + SizeModulus
    ensures ToSize(n) >= SizeModulus - 0x8000_0000
  {
  }

  /** A non-negative GLint is its own size_type. */
  lemma NonNegativeKeeps(n: int)
    requires IsGLint(n) && 0 <= n
    ensures ToSize(n) == n
  {
  }

  /** Touching applied to the content of a cell; an empty cell stays empty. */
  function TouchCell(c: Option<BlockValue>): Option<BlockValue> {
    match c
    case None => None
    case Some(b) => Some(Touched(b))
  }

  // ---------------------------------------------------------------------
  // The grid description
  // ---------------------------------------------------------------------

  /** A value of the unsigned size_type. */
  type Size = n: nat | n < SizeModulus

  /**
   * A token of a description.  The first three are the counts.  Each later
   * token stands for one non-blank character, the one cell read `in >> c`
   * takes; a `Num` there stands for a single digit character.
   */
  datatype Token = Num(value: Size) | Sym(c: char)

  /** What a description denotes: the three dimensions and the cells in reading order. */
  datatype Description = Description(height: Size, rows: Size, columns: Size, cells: seq<Option<BlockKind>>)

  /** 'P' is a porous block, 'I' an impermeable one, anything else an empty cell. */
  function KindOf(c: char): Option<BlockKind> {
    if c == 'P' then Some(Porous)
    else if c == 'I' then Some(Impermeable)
    else None
  }

  /**
   * The cell read at token position `p`.  A character token is decoded; a
   * digit is not a type character and leaves the cell empty; past the end
   * nothing is read.
   */
  function CellToken(tokens: seq<Token>, p: int): Option<BlockKind> {
    if 0 <= p < |tokens| then
      match tokens[p]
      case Sym(c) => KindOf(c)
      case Num(_) => None
    else None
  }

  /**
   * The three counts.  A read that does not find a count yields 0 and leaves
   * the stream failed, so every later count is 0 as well.
   */
  function Dimensions(tokens: seq<Token>): (Size, Size, Size) {
    if |tokens| > 0 && tokens[0].Num? then
      if |tokens| > 1 && tokens[1].Num? then
        if |tokens| > 2 && tokens[2].Num? then (tokens[0].value, tokens[1].value, tokens[2].value)
        else (tokens[0].value, tokens[1].value, 0)
      else (tokens[0].value, 0, 0)
    else (0, 0, 0)
  }

  /** Position of cell (i, j, k) in reading order: level, then row, then column. */
  function Index(i: nat, j: nat, k: nat, rows: nat, columns: nat): nat {
    (i * rows + j) * columns + k
  }

  lemma IndexInRange(i: nat, j: nat, k: nat, height: nat, rows: nat, columns: nat)
    requires i < height && j < rows && k < columns
    ensures Index(i, j, k, rows, columns) < height * rows * columns
  {
    var m := i * rows + j;
    assert m + 1 <= height * rows by {
      assert m + 1 <= i * rows + rows;
      MulLe(i + 1, height, rows);
    }
    assert m * columns + k < m * columns + columns;
    MulLe(m + 1, height * rows, columns);
  }

  /** Multiplying by a natural number keeps the order. */
  lemma MulLe(a: nat, b: nat, c: nat)
    requires a <= b
    ensures a * c <= b * c
    ensures a * c + c == (a + 1) * c
  {
  }

  /** The meaning of a token sequence, as the loader reads it. */
  function Parse(tokens: seq<Token>): (d: Description)
    ensures |d.cells| == d.height * d.rows * d.columns
  {
    var (h, r, c) := Dimensions(tokens);
    Description(h, r, c, seq(h * r * c, t => CellToken(tokens, 3 + t)))
  }

  /** The character that denotes a cell. */
  function CharOf(k: Option<BlockKind>): char {
    match k
    case Some(Porous) => 'P'
    case Some(Impermeable) => 'I'
    case None => '.'
  }

  /** Writes a description as tokens: the three counts, then one character per cell. */
  function Serialize(d: Description): seq<Token> {
    [Num(d.height), Num(d.rows), Num(d.columns)] + seq(|d.cells|, t requires 0 <= t < |d.cells| => Sym(CharOf(d.cells[t])))
  }

  /** Reading a written description gives it back. */
  lemma ParseSerialize(d: Description)
    requires |d.cells| == d.height * d.rows * d.columns
    ensures Parse(Serialize(d)) == d
  {
    var tokens := Serialize(d);
    assert Dimensions(tokens) == (d.height, d.rows, d.columns);
    var p := Parse(tokens);
    assert |p.cells| == |d.cells|;
    forall t | 0 <= t < |d.cells|
      ensures p.cells[t] == d.cells[t]
    {
      assert tokens[3 + t] == Sym(CharOf(d.cells[t]));
      match d.cells[t]
      case Some(Porous) =>
      case Some(Impermeable) =>
      case None =>
    }
  }

  /** A short description: fewer type characters than cells leaves the rest empty. */
  lemma ShortDescriptionPadsEmpty(tokens: seq<Token>, t: nat)
    requires t < |Parse(tokens).cells|
    requires 3 + t >= |tokens|
    ensures Parse(tokens).cells[t] == None
  {
  }

  /** A grid cell as the loader builds it. */
  function NewCell(k: Option<BlockKind>): Option<BlockValue> {
    match k
    case None => None
    case Some(kind) => Some(NewBlock(kind))
  }

  // ---------------------------------------------------------------------
  // The structure
  // ---------------------------------------------------------------------

  /** A cell address: level, row, column. */
  type Coordinates = (nat, nat, nat)

  /** What every address holds; addresses outside the grid hold nothing. */
  type CellMap = imap<Coordinates, Option<BlockValue>>

  /** The address a signed coordinate triple names once converted to size_type. */
  function Address(height: int, row: int, column: int): Coordinates {
    (ToSize(height), ToSize(row), ToSize(column))
  }

  /**
   * The centre of the cell at (`height`, `row`, `column`) of a structure of
   * `rows` by `columns` cells of side `blockSize` standing on `base`: the
   * grid is centred on the base in x and z, and its first level sits on it.
   */
  function CellCentre(base: Point, blockSize: real, rows: nat, columns: nat, height: int, row: int, column: int): Point {
    var upperLeftCornerX := base.x - (columns / 2) as real * blockSize + (if columns % 2 == 0 then blockSize / 2.0 else 0.0);
    var upperLeftCornerZ := base.z - (rows / 2) as real * blockSize + (if rows % 2 == 0 then blockSize / 2.0 else 0.0);
    Point(upperLeftCornerX + column as real * blockSize,
          base.y + blockSize / 2.0 + blockSize * height as real,
          upperLeftCornerZ + row as real * blockSize)
  }

  /** The contents after the block at `t`, if any, is touched. */
  ghost function TouchAt(m: CellMap, t: Coordinates): CellMap {
    if t in m then m[t := TouchCell(m[t])] else m
  }

  /** The win condition: every penetrable block held anywhere has been touched. */
  ghost predicate AllTouched(m: CellMap) {
    forall t | t in m :: m[t].Some? && !m[t].value.kind.IsImpenetrable() ==> m[t].value.touched
  }

  /** What a description fills the structure with: a new block of the kind each cell's token names. */
  ghost function Described(tokens: seq<Token>): CellMap {
    imap t: Coordinates :: DescribedCell(tokens, t)
  }

  /** The cell at address `t` of a loaded description; outside its dimensions there is nothing. */
  function DescribedCell(tokens: seq<Token>, t: Coordinates): Option<BlockValue> {
    var (h, r, c) := Dimensions(tokens);
    if t.0 < h && t.1 < r && t.2 < c then NewCell(CellToken(tokens, 3 + Index(t.0, t.1, t.2, r, c))) else None
  }

  class Grid {
    var height: nat
    var rows: nat
    var columns: nat
    const blockSize: real
    /** The centre of the structure's base. */
    const base: Point
    var cells: array3<Block?>

    /** The block objects the cells own. */
    ghost var Footprint: set<Block>
    /** Where each owned block sits; a block sits in one cell only. */
    ghost var Pos: map<Block, (nat, nat, nat)>
    /** What every address holds, as a value. */
    ghost var Contents: CellMap

    ghost predicate Valid()
      reads this, cells, Footprint
    {
      height < SizeModulus && rows < SizeModulus && columns < SizeModulus &&
      cells.Length0 == height && cells.Length1 == rows && cells.Length2 == columns &&
      Footprint == Pos.Keys &&
      (forall i, j, k {:trigger cells[i, j, k]} | 0 <= i < height && 0 <= j < rows && 0 <= k < columns && cells[i, j, k] != null ::
         cells[i, j, k] in Pos && Pos[cells[i, j, k]] == (i, j, k)) &&
      (forall b | b in Footprint :: Consistent(b.Value())) &&
      (forall t: Coordinates {:trigger Contents[t]} {:trigger t in Contents} :: t in Contents &&
         Contents[t] == if t.0 < height && t.1 < rows && t.2 < columns && cells[t.0, t.1, t.2] != null
                        then Some(cells[t.0, t.1, t.2].Value()) else None)
    }

    /** An empty structure, as the constructor's initialisers leave it before loading. */
    constructor (blockSize: real, base: Point)
      ensures Valid() && fresh(cells)
      ensures this.blockSize == blockSize && this.base == base
      ensures height == 0 && rows == 0 && columns == 0 && Footprint == {}
    {
      this.blockSize := blockSize;
      this.base := base;
      height, rows, columns := 0, 0, 0;
      var a := new Block?[0, 0, 0];
      cells := a;
      Footprint, Pos := {}, map[];
      Contents := Described([]);
    }

    /** An address inside the grid; its reading-order position is one of the cells read. */
    predicate InBounds(i: nat, j: nat, k: nat)
      reads this
    {
      i < height && j < rows && k < columns
    }

    /** The content of cell (i, j, k); outside the grid there is nothing. */
    function CellAt(i: nat, j: nat, k: nat): (r: Option<BlockValue>)
      reads this, cells, Footprint
      requires Valid()
      ensures r == Contents[(i, j, k)]
      ensures !InBounds(i, j, k) ==> r == None
    {
      if InBounds(i, j, k) && cells[i, j, k] != null then Some(cells[i, j, k].Value()) else None
    }

    /** Whether the address, converted to size_type, holds a block. */
    predicate HasBlock(height: int, row: int, column: int)
      reads this, cells, Footprint
      requires Valid()
      ensures HasBlock(height, row, column) <==> Contents[Address(height, row, column)].Some?
    {
      InBounds(ToSize(height), ToSize(row), ToSize(column)) &&
      cells[ToSize(height), ToSize(row), ToSize(column)] != null
    }

    predicate HasImpenetrableBlock(height: int, row: int, column: int)
      reads this, cells, Footprint
      requires Valid()
      ensures HasImpenetrableBlock(height, row, column) ==> HasBlock(height, row, column)
    {
      InBounds(ToSize(height), ToSize(row), ToSize(column)) &&
      cells[ToSize(height), ToSize(row), ToSize(column)] != null &&
      cells[ToSize(height), ToSize(row), ToSize(column)].IsImpenetrable()
    }

    predicate HasTouchedBlock(height: int, row: int, column: int)
      reads this, cells, Footprint
      requires Valid()
      ensures HasTouchedBlock(height, row, column) ==> HasBlock(height, row, column)
    {
      HasBlock(height, row, column) && cells[ToSize(height), ToSize(row), ToSize(column)].HasBeenTouched()
    }

    /** Every occupied cell whose block can be passed through has been touched. */
    ghost predicate AllPenetrableTouched()
      reads this, cells, Footprint
      requires Valid()
    {
      AllTouched(Contents)
    }

    /** Sets the touched flag of the block at the location; throws when there is none. */
    method TouchBlock(height: int, row: int, column: int) returns (res: Outcome)
      requires Valid()
      modifies Footprint, this`Contents
      ensures Valid()
      ensures res == if old(HasBlock(height, row, column)) then Done else Fail(NoBlockAtLocation)
      ensures Contents == TouchAt(old(Contents), Address(height, row, column))
      ensures HasImpenetrableBlock(height, row, column) == old(HasImpenetrableBlock(height, row, column))
    {
      var t := Address(height, row, column);
      assert Contents[t] == if InBounds(t.0, t.1, t.2) && cells[t.0, t.1, t.2] != null then Some(cells[t.0, t.1, t.2].Value()) else None;
      if !HasBlock(height, row, column) {
        assert Contents == TouchAt(Contents, t);
        return Fail(NoBlockAtLocation);
      }
      var b := cells[t.0, t.1, t.2];
      TouchEffect(b.Value());
      b.Touch();
      Contents := TouchAt(Contents, t);
      forall u: Coordinates {:trigger Contents[u]}
        ensures Contents[u] == if u.0 < this.height && u.1 < rows && u.2 < columns && cells[u.0, u.1, u.2] != null
                               then Some(cells[u.0, u.1, u.2].Value()) else None
      {
        if u != t && u.0 < this.height && u.1 < rows && u.2 < columns && cells[u.0, u.1, u.2] != null {
          assert Pos[cells[u.0, u.1, u.2]] == u;
        }
      }
      res := Done;
    }

    /** Runs the block's loss hook; throws when there is no block. */
    method SetBlockLossState(height: int, row: int, column: int) returns (res: Outcome)
      requires Valid()
      ensures res == if HasBlock(height, row, column) then Done else Fail(NoBlockAtLocation)
    {
      if !HasBlock(height, row, column) {
        return Fail(NoBlockAtLocation);
      }
      cells[ToSize(height), ToSize(row), ToSize(column)].SetLossState();
      res := Done;
    }

    /** Runs the block's victory hook; throws when there is no block. */
    method SetBlockVictoryState(height: int, row: int, column: int) returns (res: Outcome)
      requires Valid()
      ensures res == if HasBlock(height, row, column) then Done else Fail(NoBlockAtLocation)
    {
      if !HasBlock(height, row, column) {
        return Fail(NoBlockAtLocation);
      }
      cells[ToSize(height), ToSize(row), ToSize(column)].SetVictoryState();
      res := Done;
    }

    /**
     * The centre of the block at the location: columns spread along x and rows
     * along z around the base, levels stacked upward from it.
     */
    function GetBlockLocation(height: int, row: int, column: int): (r: Result<Point>)
      reads this, cells, Footprint
      requires Valid()
      ensures r.Success? <==> Contents[Address(height, row, column)].Some?
      ensures r.Failure? ==> r.error == NoBlockAtLocation
      ensures r.Success? ==> r.value.y == base.y + blockSize * (ToSize(height) as real + 0.5)
    {
      if !HasBlock(height, row, column) then Failure(NoBlockAtLocation)
      else
        Success(CellCentre(base, blockSize, rows, columns, ToSize(height), ToSize(row), ToSize(column)))
    }

    /**
     * Reads a description.  An unopenable source throws before anything is
     * released; otherwise every cell is rebuilt from the tokens in reading order.
     */
    method Load(source: Option<seq<Token>>) returns (res: Outcome)
      requires Valid()
      modifies this
      ensures Valid()
      ensures source.None? ==> res == Fail(SourceNotFound) && unchanged(this)
      ensures source.Some? ==>
        res == Done && fresh(cells) && fresh(Footprint) &&
        (height, rows, columns) == Dimensions(source.value)
      ensures source.Some? ==> Contents == Described(source.value)
    {
      if source.None? {
        return Fail(SourceNotFound);
      }
      var tokens := source.value;
      var (h, r, c) := Dimensions(tokens);
      var a;
      ghost var pos;
      a, pos := ReadCells(tokens, h, r, c);
      AllRead(a, pos, tokens);
      height, rows, columns := h, r, c;
      cells := a;
      Pos := pos;
      Footprint := pos.Keys;
      Contents := Described(tokens);
      InstalledIsValid(tokens);
      res := Done;
    }

    /** The fields the loader installs from a completed read satisfy the invariant. */
    lemma InstalledIsValid(tokens: seq<Token>)
      requires (height, rows, columns) == Dimensions(tokens) == (cells.Length0, cells.Length1, cells.Length2)
      requires Footprint == Pos.Keys && Contents == Described(tokens)
      requires forall i, j, k {:trigger cells[i, j, k]} | 0 <= i < height && 0 <= j < rows && 0 <= k < columns && cells[i, j, k] != null ::
        cells[i, j, k] in Pos && Pos[cells[i, j, k]] == (i, j, k)
      requires forall b | b in Pos :: Consistent(b.Value())
      requires forall t: Coordinates {:trigger Contents[t]} ::
        (t in Contents &&
         Contents[t] == if t.0 < height && t.1 < rows && t.2 < columns && cells[t.0, t.1, t.2] != null
                        then Some(cells[t.0, t.1, t.2].Value()) else None)
      ensures Valid()
    {
    }
  }

  /** Builds the cell array of the given dimensions from the tokens after the three counts. */
  method ReadCells(tokens: seq<Token>, h: nat, r: nat, c: nat) returns (a: array3<Block?>, ghost pos: map<Block, (nat, nat, nat)>)
    ensures fresh(a) && a.Length0 == h && a.Length1 == r && a.Length2 == c
    ensures forall b | b in pos :: fresh(b)
    ensures LoadedBefore(a, pos, tokens, h, 0, 0)
  {
    a := new Block?[h, r, c]((_, _, _) => null);
    pos := map[];
    var next := 3;
    var i := 0;
    while i < h
      invariant 0 <= i <= h
      invariant next == 3 + Index(i, 0, 0, r, c)
      invariant forall b | b in pos :: fresh(b)
      invariant LoadedBefore(a, pos, tokens, i, 0, 0)
    {
      var j := 0;
      while j < r
        invariant 0 <= j <= r
        invariant next == 3 + Index(i, j, 0, r, c)
        invariant forall b | b in pos :: fresh(b)
        invariant LoadedBefore(a, pos, tokens, i, j, 0)
      {
        next, pos := ReadRow(a, tokens, i, j, next, pos);
        j := j + 1;
      }
      NextLevel(a, pos, tokens, i);
      i := i + 1;
    }
  }

  /** Once every level is read, each cell holds what its token denotes and the positions are recorded. */
  lemma AllRead(a: array3<Block?>, pos: map<Block, (nat, nat, nat)>, tokens: seq<Token>)
    requires LoadedBefore(a, pos, tokens, a.Length0, 0, 0)
    requires Dimensions(tokens) == (a.Length0, a.Length1, a.Length2)
    ensures forall i, j, k {:trigger a[i, j, k]} | 0 <= i < a.Length0 && 0 <= j < a.Length1 && 0 <= k < a.Length2 && a[i, j, k] != null ::
      a[i, j, k] in pos && pos[a[i, j, k]] == (i, j, k)
    ensures forall b | b in pos :: Consistent(b.Value())
    ensures forall t: Coordinates {:trigger Described(tokens)[t]} ::
      (t in Described(tokens) &&
       Described(tokens)[t] == if t.0 < a.Length0 && t.1 < a.Length1 && t.2 < a.Length2 && a[t.0, t.1, t.2] != null
                               then Some(a[t.0, t.1, t.2].Value()) else None)
  {
    forall i, j, k | 0 <= i < a.Length0 && 0 <= j < a.Length1 && 0 <= k < a.Length2 && a[i, j, k] != null
      ensures a[i, j, k] in pos && pos[a[i, j, k]] == (i, j, k)
    {
      assert CellRead(a, pos, tokens, i, j, k, a.Length0, 0, 0);
    }
    forall t: Coordinates
      ensures t in Described(tokens) &&
        Described(tokens)[t] == if t.0 < a.Length0 && t.1 < a.Length1 && t.2 < a.Length2 && a[t.0, t.1, t.2] != null
                                then Some(a[t.0, t.1, t.2].Value()) else None
    {
      var (h, r, c) := Dimensions(tokens);
      assert t in Described(tokens);
      if t.0 < a.Length0 && t.1 < a.Length1 && t.2 < a.Length2 {
        assert CellRead(a, pos, tokens, t.0, t.1, t.2, a.Length0, 0, 0);
      }
    }
  }

  /**
   * Reads the cells of row `j` of level `i` from the tokens at `next`: a
   * fresh block for a type character, an empty cell otherwise.
   */
  method ReadRow(a: array3<Block?>, tokens: seq<Token>, i: nat, j: nat, next: nat, ghost pos: map<Block, (nat, nat, nat)>)
    returns (next': nat, ghost pos': map<Block, (nat, nat, nat)>)
    requires i < a.Length0 && j < a.Length1
    requires next == 3 + Index(i, j, 0, a.Length1, a.Length2)
    requires LoadedBefore(a, pos, tokens, i, j, 0)
    modifies a
    ensures next' == 3 + Index(i, j + 1, 0, a.Length1, a.Length2)
    ensures LoadedBefore(a, pos', tokens, i, j + 1, 0)
    ensures forall b | b in pos' :: b in pos || fresh(b)
  {
    next', pos' := next, pos;
    var k := 0;
    while k < a.Length2
      invariant 0 <= k <= a.Length2
      invariant next' == 3 + Index(i, j, k, a.Length1, a.Length2)
      invariant forall b | b in pos' :: b in pos || fresh(b)
      invariant LoadedBefore(a, pos', tokens, i, j, k)
    {
      pos' := ReadCell(a, tokens, i, j, k, next', pos');
      next' := next' + 1;
      k := k + 1;
    }
    NextRow(a, pos', tokens, i, j);
  }

  /** Lexicographic order of cells: (i', j', k') is read before (i, j, k). */
  predicate ReadBefore(i': nat, j': nat, k': nat, i: nat, j: nat, k: nat) {
    i' < i || (i' == i && j' < j) || (i' == i && j' == j && k' < k)
  }

  /**
   * The loader's progress: every cell read before (i, j, k) holds a
   * block built from its token (recorded in `pos`) or nothing, and every
   * later cell is still empty.
   */
  ghost predicate LoadedBefore(a: array3<Block?>, pos: map<Block, (nat, nat, nat)>, tokens: seq<Token>, i: nat, j: nat, k: nat)
    reads a, pos.Keys
  {
    (forall i', j', k' | 0 <= i' < a.Length0 && 0 <= j' < a.Length1 && 0 <= k' < a.Length2 ::
       CellRead(a, pos, tokens, i', j', k', i, j, k)) &&
    Owned(a, pos)
  }

  /** Cell (i', j', k') as the loader leaves it once it has reached (i, j, k). */
  ghost predicate CellRead(a: array3<Block?>, pos: map<Block, (nat, nat, nat)>, tokens: seq<Token>, i': nat, j': nat, k': nat, i: nat, j: nat, k: nat)
    requires i' < a.Length0 && j' < a.Length1 && k' < a.Length2
    reads a, pos.Keys
  {
    if ReadBefore(i', j', k', i, j, k) then
      (a[i', j', k'] == null <==> CellToken(tokens, 3 + Index(i', j', k', a.Length1, a.Length2)).None?) &&
      (a[i', j', k'] != null ==>
         a[i', j', k'] in pos && pos[a[i', j', k']] == (i', j', k') &&
         Some(a[i', j', k'].Value()) == NewCell(CellToken(tokens, 3 + Index(i', j', k', a.Length1, a.Length2))))
    else a[i', j', k'] == null
  }

  /** Every recorded block is consistent and sits in the array at its recorded position. */
  ghost predicate Owned(a: array3<Block?>, pos: map<Block, (nat, nat, nat)>)
    reads a, pos.Keys
  {
    forall b | b in pos :: Consistent(b.Value()) &&
      pos[b].0 < a.Length0 && pos[b].1 < a.Length1 && pos[b].2 < a.Length2 &&
      a[pos[b].0, pos[b].1, pos[b].2] == b
  }

  /** Reads cell (i, j, k) from the token at `next`. */
  method ReadCell(a: array3<Block?>, tokens: seq<Token>, i: nat, j: nat, k: nat, next: nat, ghost pos: map<Block, (nat, nat, nat)>)
    returns (ghost pos': map<Block, (nat, nat, nat)>)
    requires i < a.Length0 && j < a.Length1 && k < a.Length2
    requires next == 3 + Index(i, j, k, a.Length1, a.Length2)
    requires LoadedBefore(a, pos, tokens, i, j, k)
    modifies a
    ensures LoadedBefore(a, pos', tokens, i, j, k + 1)
    ensures forall b | b in pos' :: b in pos || fresh(b)
  {
    assert CellRead(a, pos, tokens, i, j, k, i, j, k);
    var kind := CellToken(tokens, next);
    if kind.Some? {
      var b := new Block(kind.value);
      assert b !in pos;
      a[i, j, k] := b;
      pos' := pos[b := (i, j, k)];
    } else {
      a[i, j, k] := null;
      pos' := pos;
    }
    ghost var k1 := k + 1;
    forall i', j', k' | 0 <= i' < a.Length0 && 0 <= j' < a.Length1 && 0 <= k' < a.Length2
      ensures CellRead(a, pos', tokens, i', j', k', i, j, k1)
    {
      if (i', j', k') != (i, j, k) {
        assert old(CellRead(a, pos, tokens, i', j', k', i, j, k));
      }
    }
  }

  /** The end of a row is the start of the next one, in cells and in tokens. */
  lemma NextRow(a: array3<Block?>, pos: map<Block, (nat, nat, nat)>, tokens: seq<Token>, i: nat, j: nat)
    requires LoadedBefore(a, pos, tokens, i, j, a.Length2)
    ensures LoadedBefore(a, pos, tokens, i, j + 1, 0)
    ensures Index(i, j, a.Length2, a.Length1, a.Length2) == Index(i, j + 1, 0, a.Length1, a.Length2)
  {
    var j1 := j + 1;
    forall i', j', k' | 0 <= i' < a.Length0 && 0 <= j' < a.Length1 && 0 <= k' < a.Length2
      ensures CellRead(a, pos, tokens, i', j', k', i, j1, 0)
    {
      assert CellRead(a, pos, tokens, i', j', k', i, j, a.Length2);
    }
  }

  /** The end of a level is the start of the next one, in cells and in tokens. */
  lemma NextLevel(a: array3<Block?>, pos: map<Block, (nat, nat, nat)>, tokens: seq<Token>, i: nat)
    requires LoadedBefore(a, pos, tokens, i, a.Length1, 0)
    ensures LoadedBefore(a, pos, tokens, i + 1, 0, 0)
    ensures Index(i, a.Length1, 0, a.Length1, a.Length2) == Index(i + 1, 0, 0, a.Length1, a.Length2)
  {
    var i1 := i + 1;
    forall i', j', k' | 0 <= i' < a.Length0 && 0 <= j' < a.Length1 && 0 <= k' < a.Length2
      ensures CellRead(a, pos, tokens, i', j', k', i1, 0, 0)
    {
      assert CellRead(a, pos, tokens, i', j', k', i, a.Length1, 0);
    }
  }

  /** The loader's cell (i, j, k) is the parsed description's cell at reading position Index(i, j, k). */
  lemma LoadAgreesWithParse(tokens: seq<Token>, i: nat, j: nat, k: nat)
    requires i < Parse(tokens).height && j < Parse(tokens).rows && k < Parse(tokens).columns
    ensures Index(i, j, k, Parse(tokens).rows, Parse(tokens).columns) < |Parse(tokens).cells|
    ensures Parse(tokens).cells[Index(i, j, k, Parse(tokens).rows, Parse(tokens).columns)] ==
            CellToken(tokens, 3 + Index(i, j, k, Parse(tokens).rows, Parse(tokens).columns))
  {
    var d := Parse(tokens);
    IndexInRange(i, j, k, d.height, d.rows, d.columns);
  }

  /** The three queries read the cell the wrapped coordinates name. */
  lemma QueriesReadCell(g: Grid, height: int, row: int, column: int)
    requires g.Valid()
    ensures g.HasBlock(height, row, column) <==> g.CellAt(ToSize(height), ToSize(row), ToSize(column)).Some?
    ensures g.HasImpenetrableBlock(height, row, column) <==>
      g.CellAt(ToSize(height), ToSize(row), ToSize(column)).Some? &&
      g.CellAt(ToSize(height), ToSize(row), ToSize(column)).value.kind == Impermeable
    ensures g.HasTouchedBlock(height, row, column) <==>
      g.CellAt(ToSize(height), ToSize(row), ToSize(column)).Some? &&
      g.CellAt(ToSize(height), ToSize(row), ToSize(column)).value.touched
  {
  }

  /**
   * A negative GLint coordinate wraps past any dimension below 2^63, so it
   * names no cell: the structure has no block there.
   */
  lemma NegativeCoordinateHasNoBlock(g: Grid, height: int, row: int, column: int)
    requires g.Valid()
    requires g.height < 0x8000_0000_0000_0000 && g.rows < 0x8000_0000_0000_0000 && g.columns < 0x8000_0000_0000_0000
    requires IsGLint(height) && IsGLint(row) && IsGLint(column)
    requires height < 0 || row < 0 || column < 0
    ensures !g.HasBlock(height, row, column)
    ensures g.GetBlockLocation(height, row, column) == Failure(NoBlockAtLocation)
  {
    if height < 0 { NegativeWrapsHigh(height); }
    if row < 0 { NegativeWrapsHigh(row); }
    if column < 0 { NegativeWrapsHigh(column); }
  }
}
