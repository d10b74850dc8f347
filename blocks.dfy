/**
 * The two kinds of block that fill grid cells.  A block carries a touched
 * flag, a constant impenetrability (decided by its kind) and an internal
 * Inactive/Active state; the colours and physics the states drive are not
 * part of this model.
 */
module Blocks {

  /** The two concrete block classes. */
  datatype BlockKind = Porous | Impermeable {
    /** Porous blocks can be passed through; impermeable ones end the game. */
    predicate IsImpenetrable() {
      this == Impermeable
    }
  }

  /** The state object a block currently holds. */
  datatype BlockState = Inactive | Active

  /** The observable value of a block. */
  datatype BlockValue = BlockValue(kind: BlockKind, touched: bool, state: BlockState)

  /** A newly built block of either kind: untouched, in its Inactive state. */
  function NewBlock(kind: BlockKind): BlockValue {
    BlockValue(kind, false, Inactive)
  }

  /** The variant hook run after the flag is set: porous blocks switch to Active. */
  function AfterTouchImplementation(kind: BlockKind, state: BlockState): BlockState {
    match kind
    case Porous => Active
    case Impermeable => state
  }

  /** Touching: set the flag, then run the variant hook. */
  function Touched(b: BlockValue): BlockValue {
    BlockValue(b.kind, true, AfterTouchImplementation(b.kind, b.state))
  }

  /**
   * The link between the flag and the state that every block keeps:
   * an impermeable block never leaves Inactive, a porous one is Active
   * exactly when it has been touched.
   */
  predicate Consistent(b: BlockValue) {
    match b.kind
    case Impermeable => b.state == Inactive
    case Porous => (b.state == Active <==> b.touched)
  }

  lemma NewBlockIsUntouched(kind: BlockKind)
    ensures !NewBlock(kind).touched && NewBlock(kind).state == Inactive
    ensures NewBlock(kind).kind == kind && Consistent(NewBlock(kind))
  {
  }

  /** Touching sets the flag, keeps the kind, and keeps the block consistent. */
  lemma TouchEffect(b: BlockValue)
    requires Consistent(b)
    ensures Touched(b).touched && Touched(b).kind == b.kind
    ensures Consistent(Touched(b))
    ensures b.kind == Porous ==> Touched(b).state == Active
    ensures b.kind == Impermeable ==> Touched(b).state == Inactive
  {
  }

  /** Touching twice is touching once; a touched block stays touched. */
  lemma TouchIdempotentMonotone(b: BlockValue)
    ensures Touched(Touched(b)) == Touched(b)
    ensures b.touched ==> Touched(b).touched
  {
  }

  /**
   * A block object.  The kind is fixed when it is built; `touched` and
   * `state` are updated in place.
   */
  class Block {
    const kind: BlockKind
    var touched: bool
    var state: BlockState

    /** The abstract value of this block. */
    function Value(): BlockValue
      reads this
    {
      BlockValue(kind, touched, state)
    }

    /** Both concrete constructors: untouched, Inactive. */
    constructor (kind: BlockKind)
      ensures Value() == NewBlock(kind)
    {
      this.kind := kind;
      touched := false;
      state := Inactive;
    }

    /** Whether the laser has passed through the block. */
    function HasBeenTouched(): (r: bool)
      reads this
      ensures r == Value().touched
    {
      touched
    }

    /** Only an impermeable block stops the laser. */
    predicate IsImpenetrable()
      ensures IsImpenetrable() <==> Value().kind == Impermeable
    {
      kind.IsImpenetrable()
    }

    /** Makes `s` the current state and leaves the other fields alone. */
    method SetState(s: BlockState)
      modifies this`state
      ensures state == s
    {
      state := s;
    }

    /** The variant's hook: porous blocks become Active, impermeable ones do nothing. */
    method TouchImplementation()
      modifies this`state
      ensures state == AfterTouchImplementation(kind, old(state))
    {
      match kind
      case Porous => SetState(Active);
      case Impermeable =>
    }

    /** Sets the flag first, then runs the variant's hook. */
    method Touch()
      modifies this
      ensures Value() == Touched(old(Value()))
    {
      touched := true;
      TouchImplementation();
    }

    /** Both variants leave the victory hook empty: it changes nothing. */
    method SetVictoryState()
      ensures Value() == old(Value())
    {
    }

    /** Both variants leave the loss hook empty: it changes nothing. */
    method SetLossState()
      ensures Value() == old(Value())
    {
    }
  }
}
