/**
 * Push buttons: a hit box whose top-left corner is (x, y), a command run on
 * a completed click, a label, and a three-state press machine.  Drawing is
 * not part of this model; running the command is reported to the caller.
 */
module Buttons {

  /** UP, MOUSE_OVER and DOWN. */
  datatype ButtonState = Up | MouseOver | Down

  /** The command a button carries; only whether it ran is observable here. */
  datatype Command = NullCommand | ScrollUpCommand | ScrollDownCommand | LoadCommand(path: string)

  /** The value of a button: hit box, command, label and press state. */
  datatype ButtonValue = ButtonValue(x: real, y: real, width: real, height: real,
                                     command: Command, text: string, state: ButtonState)

  /** Inclusive hit test; y grows upwards, so the box spans [y - height, y]. */
  predicate Touching(b: ButtonValue, mouseX: real, mouseY: real) {
    b.x <= mouseX && mouseX <= b.x + b.width && b.y >= mouseY && mouseY >= b.y - b.height
  }

  /**
   * Releasing the mouse: over the box the button shows MOUSE_OVER and its
   * command runs when it was held DOWN; elsewhere it returns to UP.
   */
  function MouseUp(b: ButtonValue, mouseX: real, mouseY: real): (r: (ButtonValue, bool))
    ensures r.1 <==> b.state == Down && Touching(b, mouseX, mouseY)
    ensures r.0.state == (if Touching(b, mouseX, mouseY) then MouseOver else Up)
    ensures r.0 == b.(state := r.0.state)
  {
    if Touching(b, mouseX, mouseY) then (b.(state := MouseOver), b.state == Down)
    else (b.(state := Up), false)
  }

  /** Pressing the mouse: a held button stays DOWN; a hovered one over the box goes DOWN. */
  function MouseDown(b: ButtonValue, mouseX: real, mouseY: real): (r: ButtonValue)
    ensures r.state == Down <==> b.state == Down || (Touching(b, mouseX, mouseY) && b.state == MouseOver)
    ensures r.state != MouseOver
    ensures r == b.(state := r.state)
  {
    if b.state == Down || (Touching(b, mouseX, mouseY) && b.state == MouseOver) then b.(state := Down)
    else b.(state := Up)
  }

  /** With a non-negative size, the four corners of the box are inside it. */
  lemma CornersTouch(b: ButtonValue)
    requires b.width >= 0.0 && b.height >= 0.0
    ensures Touching(b, b.x, b.y) && Touching(b, b.x + b.width, b.y)
    ensures Touching(b, b.x, b.y - b.height) && Touching(b, b.x + b.width, b.y - b.height)
  {
  }

  /** A box of negative width or height is never touched. */
  lemma NegativeSizeNeverTouches(b: ButtonValue, mouseX: real, mouseY: real)
    requires b.width < 0.0 || b.height < 0.0
    ensures !Touching(b, mouseX, mouseY)
  {
  }

  /** From UP no single press reaches DOWN: the button must be hovered first. */
  lemma NoPressFromUp(b: ButtonValue, mouseX: real, mouseY: real)
    requires b.state == Up
    ensures MouseDown(b, mouseX, mouseY).state == Up
  {
  }

  /** Once held, the button stays DOWN through any number of presses, wherever the mouse is. */
  lemma {:induction false} HeldStaysDown(b: ButtonValue, presses: seq<(real, real)>)
    requires b.state == Down
    ensures PressAll(b, presses).state == Down
    decreases |presses|
  {
    if |presses| > 0 {
      HeldStaysDown(MouseDown(b, presses[0].0, presses[0].1), presses[1..]);
    }
  }

  /** The button after a run of presses at the given mouse positions. */
  function PressAll(b: ButtonValue, presses: seq<(real, real)>): ButtonValue
    decreases |presses|
  {
    if |presses| == 0 then b else PressAll(MouseDown(b, presses[0].0, presses[0].1), presses[1..])
  }

  /**
   * A whole click over the box of an idle button: a release to hover
   * (nothing runs), a press (DOWN), and a release that runs the command
   * exactly once and leaves the button hovered.
   */
  lemma ClickRunsCommandOnce(b: ButtonValue, mouseX: real, mouseY: real)
    requires b.state == Up && Touching(b, mouseX, mouseY)
    ensures var (b1, ran1) := MouseUp(b, mouseX, mouseY);
      var b2 := MouseDown(b1, mouseX, mouseY);
      var (b3, ran3) := MouseUp(b2, mouseX, mouseY);
      !ran1 && b1.state == MouseOver && b2.state == Down && ran3 && b3.state == MouseOver &&
      b3 == b.(state := MouseOver)
  {
  }

  /** No release ever leaves a button DOWN, and no press leaves it hovered. */
  lemma ReleaseNeverHolds(b: ButtonValue, mouseX: real, mouseY: real)
    ensures MouseUp(b, mouseX, mouseY).0.state != Down
    ensures MouseDown(b, mouseX, mouseY).state != MouseOver
  {
  }

  /** A button object; the setters and the mouse handlers update its fields in place. */
  class Button {
    var x: real
    var y: real
    var width: real
    var height: real
    const command: Command
    var text: string
    var state: ButtonState

    /** This button as a value. */
    function Value(): ButtonValue
      reads this
    {
      ButtonValue(x, y, width, height, command, text, state)
    }

    /** A button with an empty hit box at the origin, in state UP. */
    constructor WithCommand(command: Command, text: string)
      ensures Value() == ButtonValue(0.0, 0.0, 0.0, 0.0, command, text, Up)
    {
      x, y, width, height := 0.0, 0.0, 0.0, 0.0;
      this.command := command;
      this.text := text;
      state := Up;
    }

    /** A button with the given hit box, in state UP. */
    constructor (x: real, y: real, width: real, height: real, command: Command, text: string)
      ensures Value() == ButtonValue(x, y, width, height, command, text, Up)
    {
      this.x, this.y, this.width, this.height := x, y, width, height;
      this.command := command;
      this.text := text;
      state := Up;
    }

    /** A copy shares the command and takes every field, the state included. */
    constructor Copy(other: Button)
      ensures Value() == other.Value()
    {
      x, y, width, height := other.x, other.y, other.width, other.height;
      command := other.command;
      text := other.text;
      state := other.state;
    }

    /** Inside the box: exactly where a release leaves the button hovered. */
    predicate IsTouching(mouseX: real, mouseY: real)
      reads this
      ensures IsTouching(mouseX, mouseY) <==> MouseUp(Value(), mouseX, mouseY).0.state == MouseOver
    {
      Touching(Value(), mouseX, mouseY)
    }

    method SetX(x: real)
      modifies this`x
      ensures Value() == old(Value()).(x := x)
    {
      this.x := x;
    }

    method SetY(y: real)
      modifies this`y
      ensures Value() == old(Value()).(y := y)
    {
      this.y := y;
    }

    method SetWidth(width: real)
      modifies this`width
      ensures Value() == old(Value()).(width := width)
    {
      this.width := width;
    }

    method SetHeight(height: real)
      modifies this`height
      ensures Value() == old(Value()).(height := height)
    {
      this.height := height;
    }

    method SetText(text: string)
      modifies this`text
      ensures Value() == old(Value()).(text := text)
    {
      this.text := text;
    }

    method SetState(state: ButtonState)
      modifies this`state
      ensures Value() == old(Value()).(state := state)
    {
      this.state := state;
    }

    /** Releasing the mouse; `ran` reports whether the command was executed. */
    method SendMouseUp(mouseX: real, mouseY: real) returns (ran: bool)
      modifies this`state
      ensures (Value(), ran) == MouseUp(old(Value()), mouseX, mouseY)
    {
      ran := false;
      if IsTouching(mouseX, mouseY) {
        if state == Down {
          ran := true;
        }
        SetState(MouseOver);
      } else {
        SetState(Up);
      }
    }

    /** Pressing the mouse. */
    method SendMouseDown(mouseX: real, mouseY: real)
      modifies this`state
      ensures Value() == MouseDown(old(Value()), mouseX, mouseY)
    {
      if state == Down || (IsTouching(mouseX, mouseY) && state == MouseOver) {
        SetState(Down);
      } else {
        SetState(Up);
      }
    }
  }
}
