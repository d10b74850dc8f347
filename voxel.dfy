/**
 * Grid coordinates and the geometric predicates the laser uses to detect
 * that it has run into its own trail.
 */
module Voxels {

  /** A grid coordinate: level, row and column (signed, like the GLint fields). */
  datatype Voxel = Voxel(height: int, row: int, column: int) {

    /**
     * The exclusive-or of the three "this coordinate differs" tests.  It holds
     * when one coordinate differs, but also when all three do.
     */
    predicate IsAlongSameAxis(other: Voxel)
      ensures IsAlongSameAxis(other) ==> this != other
      ensures DiffCount(this, other) == 1 ==> IsAlongSameAxis(other)
    {
      ((height - other.height != 0) != (row - other.row != 0)) != (column - other.column != 0)
    }

    /**
     * Along the same axis as both ends and inside the box they span, with
     * `left` below or above `right` in every coordinate at once.
     */
    predicate IsInBetween(left: Voxel, right: Voxel)
      ensures IsInBetween(left, right) ==> this != left && this != right && InBox(this, left, right)
    {
      IsAlongSameAxis(left) && IsAlongSameAxis(right) &&
      ((height >= left.height && row >= left.row && column >= left.column &&
        height <= right.height && row <= right.row && column <= right.column) ||
       (height >= right.height && row >= right.row && column >= right.column &&
        height <= left.height && row <= left.row && column <= left.column))
    }
  }

  /** How many of the three coordinates of `a` and `b` differ. */
  function DiffCount(a: Voxel, b: Voxel): (n: nat)
    ensures n <= 3
    ensures n == 0 <==> a == b
  {
    (if a.height != b.height then 1 else 0) +
    (if a.row != b.row then 1 else 0) +
    (if a.column != b.column then 1 else 0)
  }

  /** Inclusive box containment of `v` between `l` and `r`, in either order. */
  ghost predicate InBox(v: Voxel, l: Voxel, r: Voxel) {
    (l.height <= v.height <= r.height && l.row <= v.row <= r.row && l.column <= v.column <= r.column) ||
    (r.height <= v.height <= l.height && r.row <= v.row <= l.row && r.column <= v.column <= l.column)
  }

  /** The XOR test is the parity of the number of differing coordinates. */
  lemma AlongSameAxisIffOddDifferences(a: Voxel, b: Voxel)
    ensures a.IsAlongSameAxis(b) <==> DiffCount(a, b) % 2 == 1
    ensures a.IsAlongSameAxis(b) <==> DiffCount(a, b) == 1 || DiffCount(a, b) == 3
  {
  }

  /** The test is symmetric and never holds of a voxel and itself. */
  lemma AlongSameAxisSymmetricIrreflexive(a: Voxel, b: Voxel)
    ensures a.IsAlongSameAxis(b) == b.IsAlongSameAxis(a)
    ensures !a.IsAlongSameAxis(a)
  {
  }

  /**
   * `IsInBetween` never holds at either end of the run; away from the ends it
   * is exactly odd parity with both ends plus box containment.
   */
  lemma InBetweenCharacterization(v: Voxel, l: Voxel, r: Voxel)
    ensures v == l || v == r ==> !v.IsInBetween(l, r)
    ensures v.IsInBetween(l, r) <==>
              v != l && v != r &&
              DiffCount(v, l) % 2 == 1 && DiffCount(v, r) % 2 == 1 && InBox(v, l, r)
  {
    AlongSameAxisIffOddDifferences(v, l);
    AlongSameAxisIffOddDifferences(v, r);
  }

  /** A direction vector after truncation to integers (x, y, z of the GL frame). */
  datatype Direction = Direction(x: int, y: int, z: int)

  function Abs(n: int): nat { if n < 0 then -n else n }

  /** An axis-aligned unit vector. */
  predicate IsUnitAxis(d: Direction) {
    Abs(d.x) + Abs(d.y) + Abs(d.z) == 1
  }

  /** One cell step: height follows y, row follows z, column follows x. */
  function Step(v: Voxel, d: Direction): Voxel {
    Voxel(v.height + d.y, v.row + d.z, v.column + d.x)
  }

  /** A unit step changes exactly one coordinate. */
  lemma UnitStepDiffersOnce(v: Voxel, d: Direction)
    requires IsUnitAxis(d)
    ensures DiffCount(v, Step(v, d)) == 1
    ensures v.IsAlongSameAxis(Step(v, d))
  {
  }
}
