/**
 * A vertical menu of buttons that shows at most `visibleButtons` of them at
 * a time, between a scroll-up button above and a scroll-down button below.
 * `visibleStart` is the index of the first button shown.  The list holds
 * button values (the menu keeps its own copies); drawing is not modelled.
 */
module Menus {
  import opened Buttons

  function Min(a: nat, b: nat): nat {
    if a <= b then a else b
  }

  /**
   * The scroll window is well placed: with more buttons than fit, it lies
   * inside the list; otherwise it starts at the first button.
   */
  predicate WindowInv(size: nat, visibleButtons: nat, visibleStart: nat) {
    if size > visibleButtons then visibleStart + visibleButtons <= size else visibleStart == 0
  }

  /** Where `scrollUp` moves the window start. */
  function StartAfterScrollUp(size: nat, visibleButtons: nat, visibleStart: nat): (r: nat)
    ensures r == visibleStart || r + 1 == visibleStart
    ensures r + 1 == visibleStart <==> size > visibleButtons && visibleStart != 0
  {
    if size > visibleButtons && visibleStart != 0 then visibleStart - 1 else visibleStart
  }

  /** Where `scrollDown` moves the window start. */
  function StartAfterScrollDown(size: nat, visibleButtons: nat, visibleStart: nat): (r: nat)
    ensures r == visibleStart || r == visibleStart + 1
    ensures r == visibleStart + 1 <==> size > visibleButtons && visibleStart + visibleButtons != size
  {
    if size > visibleButtons && visibleStart + visibleButtons != size then visibleStart + 1 else visibleStart
  }

  /**
   * Where a release leaves the window start after the scroll-up button:
   * the button takes part only when the window is not at the top, and
   * `upRan` says whether it would run its command.
   */
  function StartAfterUpRelease(size: nat, visibleButtons: nat, visibleStart: nat, upRan: bool): nat {
    if visibleStart != 0 && upRan then StartAfterScrollUp(size, visibleButtons, visibleStart) else visibleStart
  }

  /**
   * Where a release leaves the window start after the scroll-down button:
   * the button takes part only when the window is not at the end, and
   * `downRan` says whether it would run its command.
   */
  function StartAfterDownRelease(size: nat, visibleButtons: nat, visibleStart: nat, downRan: bool): nat {
    if visibleStart + visibleButtons != size && downRan then StartAfterScrollDown(size, visibleButtons, visibleStart) else visibleStart
  }

  /**
   * A release moves the window at most one button either way and keeps it
   * inside the list; when both scroll commands run, the window ends where
   * it began.
   */
  lemma {:induction false} ScrollReleaseMovesAtMostOne(size: nat, visibleButtons: nat, visibleStart: nat, upRan: bool, downRan: bool)
    requires WindowInv(size, visibleButtons, visibleStart)
    ensures var mid := StartAfterUpRelease(size, visibleButtons, visibleStart, upRan);
      var end := StartAfterDownRelease(size, visibleButtons, mid, downRan);
      WindowInv(size, visibleButtons, end) &&
      (end + 1 == visibleStart || end == visibleStart || end == visibleStart + 1) &&
      (mid != visibleStart && end != mid ==> end == visibleStart)
  {
    ScrollKeepsWindow(size, visibleButtons, visibleStart);
    var mid := StartAfterUpRelease(size, visibleButtons, visibleStart, upRan);
    ScrollKeepsWindow(size, visibleButtons, mid);
    ScrollUpDownInverse(size, visibleButtons, visibleStart);
  }

  /** Both scroll directions keep the window inside the list. */
  lemma ScrollKeepsWindow(size: nat, visibleButtons: nat, visibleStart: nat)
    requires WindowInv(size, visibleButtons, visibleStart)
    ensures WindowInv(size, visibleButtons, StartAfterScrollUp(size, visibleButtons, visibleStart))
    ensures WindowInv(size, visibleButtons, StartAfterScrollDown(size, visibleButtons, visibleStart))
  {
  }

  /** An effective scroll up is undone by a scroll down, and the other way round. */
  lemma ScrollUpDownInverse(size: nat, visibleButtons: nat, visibleStart: nat)
    requires WindowInv(size, visibleButtons, visibleStart)
    ensures var up := StartAfterScrollUp(size, visibleButtons, visibleStart);
      up != visibleStart ==> StartAfterScrollDown(size, visibleButtons, up) == visibleStart
    ensures var down := StartAfterScrollDown(size, visibleButtons, visibleStart);
      down != visibleStart ==> StartAfterScrollUp(size, visibleButtons, down) == visibleStart
  {
  }

  /** Adding a button never breaks the window. */
  lemma GrowingKeepsWindow(size: nat, visibleButtons: nat, visibleStart: nat)
    requires WindowInv(size, visibleButtons, visibleStart)
    ensures WindowInv(size + 1, visibleButtons, visibleStart)
  {
  }

  /** The indices the window shows: [visibleStart, visibleStart + min(size, visibleButtons)). */
  predicate InWindow(j: int, size: nat, visibleButtons: nat, visibleStart: nat) {
    visibleStart <= j < visibleStart + Min(size, visibleButtons)
  }

  /** Every index the window shows names a button of the list. */
  lemma WindowInsideList(j: int, size: nat, visibleButtons: nat, visibleStart: nat)
    requires WindowInv(size, visibleButtons, visibleStart) && InWindow(j, size, visibleButtons, visibleStart)
    ensures 0 <= j < size
  {
  }

  class Menu {
    const x: real
    const y: real
    const buttonWidth: real
    const buttonHeight: real
    const visibleButtons: nat
    const padding: real
    var scrollUpButton: ButtonValue
    var scrollDownButton: ButtonValue
    var buttons: seq<ButtonValue>
    var visibleStart: nat

    /** The x of every shown button. */
    function SlotX(): real {
      x + padding
    }

    /** The y of the `k`-th shown slot, below the scroll-up button. */
    function SlotY(k: nat): real {
      y - padding * (k + 2) as real - buttonHeight * (k + 1) as real
    }

    /** `b` placed in the `k`-th slot. */
    function Place(b: ButtonValue, k: nat): ButtonValue {
      b.(x := SlotX(), y := SlotY(k))
    }

    /** The list after the buttons of the window starting at `start` are put in their slots. */
    function Layout(bs: seq<ButtonValue>, start: nat): (r: seq<ButtonValue>)
      ensures |r| == |bs|
      ensures forall j :: 0 <= j < |bs| && !InWindow(j, |bs|, visibleButtons, start) ==> r[j] == bs[j]
      ensures forall j :: 0 <= j < |bs| && InWindow(j, |bs|, visibleButtons, start) ==> r[j] == Place(bs[j], j - start)
    {
      seq(|bs|, j requires 0 <= j < |bs| =>
        if InWindow(j, |bs|, visibleButtons, start) then Place(bs[j], j - start) else bs[j])
    }

    /** The buttons of the window sit in consecutive slots. */
    ghost predicate LaidOut()
      reads this
    {
      forall j :: 0 <= j < |buttons| && InWindow(j, |buttons|, visibleButtons, visibleStart) ==>
        buttons[j].x == SlotX() && buttons[j].y == SlotY(j - visibleStart)
    }

    /** Every button has the menu's width and height. */
    ghost predicate Sized()
      reads this
    {
      forall j :: 0 <= j < |buttons| ==> buttons[j].width == buttonWidth && buttons[j].height == buttonHeight
    }

    ghost predicate Valid()
      reads this
    {
      WindowInv(|buttons|, visibleButtons, visibleStart) && LaidOut() && Sized()
    }

    /**
     * An empty menu.  The scroll-up button sits in the top slot, the
     * scroll-down button just below the last shown slot.
     */
    constructor (x: real, y: real, buttonWidth: real, buttonHeight: real, visibleButtons: nat, padding: real)
      ensures Valid() && buttons == [] && visibleStart == 0
      ensures this.x == x && this.y == y && this.buttonWidth == buttonWidth && this.buttonHeight == buttonHeight
      ensures this.visibleButtons == visibleButtons && this.padding == padding
      ensures scrollUpButton == ButtonValue(x + padding, y - padding, buttonWidth, buttonHeight, ScrollUpCommand, "^", Up)
      ensures scrollDownButton == ButtonValue(SlotX(), SlotY(visibleButtons), buttonWidth, buttonHeight, ScrollDownCommand, "v", Up)
    {
      this.x, this.y, this.buttonWidth, this.buttonHeight := x, y, buttonWidth, buttonHeight;
      this.visibleButtons, this.padding := visibleButtons, padding;
      scrollUpButton := ButtonValue(x + padding, y - padding, buttonWidth, buttonHeight, ScrollUpCommand, "^", Up);
      scrollDownButton := ButtonValue(x + padding, y - padding * (visibleButtons + 2) as real - buttonHeight * (visibleButtons + 1) as real,
                                      buttonWidth, buttonHeight, ScrollDownCommand, "v", Up);
      buttons := [];
      visibleStart := 0;
    }

    /** Moves the window one button up, when there is more to see above, and lays it out again. */
    method ScrollUp()
      requires Valid()
      modifies this`visibleStart, this`buttons
      ensures Valid()
      ensures visibleStart == StartAfterScrollUp(|buttons|, visibleButtons, old(visibleStart))
      ensures buttons == if visibleStart == old(visibleStart) then old(buttons) else Layout(old(buttons), visibleStart)
    {
      if |buttons| > visibleButtons && visibleStart != 0 {
        visibleStart := visibleStart - 1;
        Relayout();
      }
    }

    /** Moves the window one button down, when there is more to see below, and lays it out again. */
    method ScrollDown()
      requires Valid()
      modifies this`visibleStart, this`buttons
      ensures Valid()
      ensures visibleStart == StartAfterScrollDown(|buttons|, visibleButtons, old(visibleStart))
      ensures buttons == if visibleStart == old(visibleStart) then old(buttons) else Layout(old(buttons), visibleStart)
    {
      if |buttons| > visibleButtons && visibleStart + visibleButtons != |buttons| {
        visibleStart := visibleStart + 1;
        Relayout();
      }
    }

    /** Puts the buttons of the current window in consecutive slots, from the top one down. */
    method Relayout()
      requires WindowInv(|buttons|, visibleButtons, visibleStart) && Sized()
      modifies this`buttons
      ensures buttons == Layout(old(buttons), visibleStart)
      ensures Valid()
    {
      var buttonPositionX := x + padding;
      var buttonPositionY := y - 2.0 * padding - buttonHeight;
      var i := visibleStart;
      while i != visibleStart + Min(|buttons|, visibleButtons)
        invariant visibleStart <= i <= visibleStart + Min(|buttons|, visibleButtons) <= |buttons|
        invariant |buttons| == |old(buttons)|
        invariant buttonPositionX == SlotX() && buttonPositionY == SlotY(i - visibleStart)
        invariant forall j :: 0 <= j < |buttons| ==>
          buttons[j] == if visibleStart <= j < i then Place(old(buttons)[j], j - visibleStart) else old(buttons)[j]
        decreases visibleStart + Min(|buttons|, visibleButtons) - i
      {
        buttons := buttons[i := buttons[i].(x := buttonPositionX)];
        buttons := buttons[i := buttons[i].(y := buttonPositionY)];
        buttonPositionY := buttonPositionY - (buttonHeight + padding);
        i := i + 1;
      }
    }

    /**
     * Appends a copy of `button` sized to the menu; while the window still
     * has room it also goes into the next slot.  The window does not move.
     */
    method Add(button: ButtonValue)
      requires Valid()
      modifies this`buttons
      ensures Valid() && visibleStart == old(visibleStart)
      ensures |buttons| == |old(buttons)| + 1 && buttons[..|old(buttons)|] == old(buttons)
      ensures var added := button.(width := buttonWidth, height := buttonHeight);
        buttons[|old(buttons)|] == if |old(buttons)| < visibleButtons then Place(added, |old(buttons)|) else added
    {
      var temp := button.(width := buttonWidth, height := buttonHeight);
      if |buttons| < visibleButtons {
        temp := temp.(x := x + padding);
        temp := temp.(y := y - padding * (|buttons| + 2) as real - buttonHeight * (|buttons| + 1) as real);
      }
      buttons := buttons + [temp];
    }

    /**
     * The list and window start after a release has reached the scroll
     * buttons: scroll-up goes first, and scroll-down then depends on
     * the window as scroll-up left it.  A moved window is laid out again.
     */
    function ScrollRelease(bs: seq<ButtonValue>, start: nat, upRan: bool, downRan: bool): (r: (seq<ButtonValue>, nat))
      ensures |r.0| == |bs|
      ensures forall j :: 0 <= j < |bs| ==> r.0[j] == bs[j].(x := r.0[j].x, y := r.0[j].y)
    {
      var mid := StartAfterUpRelease(|bs|, visibleButtons, start, upRan);
      var b1 := if mid == start then bs else Layout(bs, mid);
      var end := StartAfterDownRelease(|bs|, visibleButtons, mid, downRan);
      (if end == mid then b1 else Layout(b1, end), end)
    }

    /**
     * Whether the scroll-down button takes part in mouse events: when a
     * scroll down would move the window, and also when the list is shorter
     * than the window, where it would not.
     */
    predicate DownEnabled()
      reads this
      ensures WindowInv(|buttons|, visibleButtons, visibleStart) ==>
        (DownEnabled() <==> StartAfterScrollDown(|buttons|, visibleButtons, visibleStart) != visibleStart || |buttons| < visibleButtons)
    {
      visibleStart + visibleButtons != |buttons|
    }

    /**
     * A mouse press reaches the scroll-up button when the window can move up,
     * the scroll-down button when it is not at the end, and exactly the
     * buttons of the window.
     */
    method SendMouseDown(mouseX: real, mouseY: real)
      requires Valid()
      modifies this`scrollUpButton, this`scrollDownButton, this`buttons
      ensures Valid()
      ensures scrollUpButton == if visibleStart != 0 then MouseDown(old(scrollUpButton), mouseX, mouseY) else old(scrollUpButton)
      ensures scrollDownButton == if DownEnabled() then MouseDown(old(scrollDownButton), mouseX, mouseY) else old(scrollDownButton)
      ensures |buttons| == |old(buttons)|
      ensures forall j :: 0 <= j < |buttons| ==>
        buttons[j] == if InWindow(j, |buttons|, visibleButtons, visibleStart) then MouseDown(old(buttons)[j], mouseX, mouseY) else old(buttons)[j]
    {
      if visibleStart != 0 {
        scrollUpButton := MouseDown(scrollUpButton, mouseX, mouseY);
      }
      if visibleStart + visibleButtons != |buttons| {
        scrollDownButton := MouseDown(scrollDownButton, mouseX, mouseY);
      }
      var i := visibleStart;
      while i != visibleStart + Min(|buttons|, visibleButtons)
        invariant visibleStart <= i <= visibleStart + Min(|buttons|, visibleButtons) <= |buttons|
        invariant |buttons| == |old(buttons)|
        invariant forall j :: 0 <= j < |buttons| ==>
          buttons[j] == if visibleStart <= j < i then MouseDown(old(buttons)[j], mouseX, mouseY) else old(buttons)[j]
        modifies this`buttons
        decreases visibleStart + Min(|buttons|, visibleButtons) - i
      {
        buttons := buttons[i := MouseDown(buttons[i], mouseX, mouseY)];
        i := i + 1;
      }
    }

    /**
     * A mouse release.  The scroll buttons go first and may scroll the menu
     * (their commands are scrollUp and scrollDown); then every button of the
     * window, as it stands after scrolling, receives the release.  `fired`
     * lists, in increasing order, the buttons whose command ran.
     */
    method SendMouseUp(mouseX: real, mouseY: real) returns (fired: seq<nat>)
      requires Valid()
      modifies this`scrollUpButton, this`scrollDownButton, this`buttons, this`visibleStart
      ensures Valid() && |buttons| == |old(buttons)|
      ensures scrollUpButton == if old(visibleStart) != 0 then MouseUp(old(scrollUpButton), mouseX, mouseY).0 else old(scrollUpButton)
      ensures var mid := StartAfterUpRelease(|buttons|, visibleButtons, old(visibleStart), MouseUp(old(scrollUpButton), mouseX, mouseY).1);
        scrollDownButton == if mid + visibleButtons != |buttons| then MouseUp(old(scrollDownButton), mouseX, mouseY).0 else old(scrollDownButton)
      ensures var s := ScrollRelease(old(buttons), old(visibleStart),
          MouseUp(old(scrollUpButton), mouseX, mouseY).1, MouseUp(old(scrollDownButton), mouseX, mouseY).1);
        visibleStart == s.1 &&
        forall j :: 0 <= j < |buttons| ==>
          buttons[j] == (if InWindow(j, |buttons|, visibleButtons, visibleStart) then MouseUp(s.0[j], mouseX, mouseY).0 else s.0[j]) &&
          (j in fired <==> InWindow(j, |buttons|, visibleButtons, visibleStart) && MouseUp(s.0[j], mouseX, mouseY).1)
      ensures forall j :: 0 <= j < |buttons| && !InWindow(j, |buttons|, visibleButtons, visibleStart) ==>
        buttons[j].state == old(buttons)[j].state
      ensures forall j :: 0 <= j < |buttons| && InWindow(j, |buttons|, visibleButtons, visibleStart) ==>
        buttons[j].state != Down && (j in fired <==> old(buttons)[j].state == Down && buttons[j].state == MouseOver)
      ensures forall n :: 0 <= n < |fired| ==> InWindow(fired[n], |buttons|, visibleButtons, visibleStart)
      ensures forall m, n :: 0 <= m < n < |fired| ==> fired[m] < fired[n]
      ensures forall j :: 0 <= j < |buttons| ==>
        buttons[j] == old(buttons)[j].(x := buttons[j].x, y := buttons[j].y, state := buttons[j].state)
    {
      ScrollControlsMouseUp(mouseX, mouseY);
      fired := WindowMouseUp(mouseX, mouseY);
    }

    /** The scroll buttons' part of a release: each may run its command. */
    method ScrollControlsMouseUp(mouseX: real, mouseY: real)
      requires Valid()
      modifies this`scrollUpButton, this`scrollDownButton, this`buttons, this`visibleStart
      ensures Valid() && |buttons| == |old(buttons)|
      ensures scrollUpButton == if old(visibleStart) != 0 then MouseUp(old(scrollUpButton), mouseX, mouseY).0 else old(scrollUpButton)
      ensures var mid := StartAfterUpRelease(|buttons|, visibleButtons, old(visibleStart), MouseUp(old(scrollUpButton), mouseX, mouseY).1);
        scrollDownButton == if mid + visibleButtons != |buttons| then MouseUp(old(scrollDownButton), mouseX, mouseY).0 else old(scrollDownButton)
      ensures (buttons, visibleStart) == ScrollRelease(old(buttons), old(visibleStart),
        MouseUp(old(scrollUpButton), mouseX, mouseY).1, MouseUp(old(scrollDownButton), mouseX, mouseY).1)
      ensures forall j :: 0 <= j < |buttons| ==>
        buttons[j] == old(buttons)[j].(x := buttons[j].x, y := buttons[j].y)
    {
      if visibleStart != 0 {
        var ran;
        scrollUpButton, ran := MouseUp(scrollUpButton, mouseX, mouseY).0, MouseUp(scrollUpButton, mouseX, mouseY).1;
        if ran {
          ScrollUp();
        }
      }
      if visibleStart + visibleButtons != |buttons| {
        var ran;
        scrollDownButton, ran := MouseUp(scrollDownButton, mouseX, mouseY).0, MouseUp(scrollDownButton, mouseX, mouseY).1;
        if ran {
          ScrollDown();
        }
      }
    }

    /** The window's part of a release. */
    method WindowMouseUp(mouseX: real, mouseY: real) returns (fired: seq<nat>)
      requires Valid()
      modifies this`buttons
      ensures Valid() && |buttons| == |old(buttons)|
      ensures forall j :: 0 <= j < |buttons| ==>
        buttons[j] == if InWindow(j, |buttons|, visibleButtons, visibleStart) then MouseUp(old(buttons)[j], mouseX, mouseY).0 else old(buttons)[j]
      ensures forall j :: 0 <= j < |buttons| ==>
        (j in fired <==> InWindow(j, |buttons|, visibleButtons, visibleStart) && MouseUp(old(buttons)[j], mouseX, mouseY).1)
      ensures forall m, n :: 0 <= m < n < |fired| ==> fired[m] < fired[n]
      ensures forall n :: 0 <= n < |fired| ==> fired[n] < |buttons|
    {
      fired := [];
      var i := visibleStart;
      while i != visibleStart + Min(|buttons|, visibleButtons)
        invariant visibleStart <= i <= visibleStart + Min(|buttons|, visibleButtons) <= |buttons|
        invariant |buttons| == |old(buttons)|
        invariant forall j :: 0 <= j < |buttons| ==>
          buttons[j] == if visibleStart <= j < i then MouseUp(old(buttons)[j], mouseX, mouseY).0 else old(buttons)[j]
        invariant forall j :: 0 <= j < |buttons| ==>
          (j in fired <==> visibleStart <= j < i && MouseUp(old(buttons)[j], mouseX, mouseY).1)
        invariant forall n :: 0 <= n < |fired| ==> visibleStart <= fired[n] < i
        invariant forall m, n :: 0 <= m < n < |fired| ==> fired[m] < fired[n]
        decreases visibleStart + Min(|buttons|, visibleButtons) - i
      {
        var ran := MouseUp(buttons[i], mouseX, mouseY).1;
        buttons := buttons[i := MouseUp(buttons[i], mouseX, mouseY).0];
        if ran {
          fired := fired + [i];
        }
        i := i + 1;
      }
    }
  }
}
