/**
 * The press/click state machine of a UI `Button`
 * (src/engine/components/ui/Button.ts).
 *
 * A button covers a closed rectangle. A mouse-down inside it arms the button;
 * the next mouse-up disarms it and fires `onClick` when it is inside too.
 * What a handler does is returned as a list of reactions.
 */
module Button {

  /** Identity of the `onClick` function. */
  type CallbackId = nat

  /** The rectangle `x`, `y`, `width`, `height`. */
  datatype Bounds = Bounds(x: real, y: real, width: real, height: real)

  /** `clientX`, `clientY` of a mouse event. */
  datatype Pointer = Pointer(clientX: real, clientY: real)

  datatype MouseInput = MouseDown(at: Pointer) | MouseUp(at: Pointer)

  /** What a handler calls: the `onMouseDown`/`onMouseUp` hooks and `onClick`. */
  datatype Reaction = OnMouseDown | OnMouseUp | Clicked(callback: CallbackId)

  /** `isMouseInside`: the rectangle includes its edges. */
  predicate Contains(b: Bounds, p: Pointer)
  {
    b.x <= p.clientX <= b.x + b.width && b.y <= p.clientY <= b.y + b.height
  }

  /** From the pressed flag and one input, the new flag and the reactions. */
  function Step(b: Bounds, onClick: CallbackId, pressed: bool, input: MouseInput): (bool, seq<Reaction>)
  {
    match input
    case MouseDown(p) =>
      if Contains(b, p) then (true, [OnMouseDown]) else (pressed, [])
    case MouseUp(p) =>
      if pressed then (false, if Contains(b, p) then [OnMouseUp, Clicked(onClick)] else [OnMouseUp])
      else (pressed, [])
  }

  /** The pressed flag after a sequence of inputs to a button that started unpressed. */
  function PressedAfter(b: Bounds, onClick: CallbackId, inputs: seq<MouseInput>): bool
  {
    if inputs == [] then false
    else Step(b, onClick, PressedAfter(b, onClick, inputs[..|inputs| - 1]), inputs[|inputs| - 1]).0
  }

  /** Input k of `inputs` fires `onClick`. */
  predicate ClickedAt(b: Bounds, onClick: CallbackId, inputs: seq<MouseInput>, k: nat)
    requires k < |inputs|
  {
    Clicked(onClick) in Step(b, onClick, PressedAfter(b, onClick, inputs[..k]), inputs[k]).1
  }

  /** Input j is a mouse-down inside the button. */
  predicate DownInside(b: Bounds, input: MouseInput)
  {
    input.MouseDown? && Contains(b, input.at)
  }

  /** No mouse-up among inputs lo .. hi - 1. */
  predicate NoMouseUpBetween(inputs: seq<MouseInput>, lo: nat, hi: nat)
    requires lo <= hi <= |inputs|
  {
    forall m :: lo <= m < hi ==> !inputs[m].MouseUp?
  }

  /** A pressed button was armed by a mouse-down inside with no mouse-up since. */
  lemma {:induction false} PressedHasArmingDown(b: Bounds, onClick: CallbackId, inputs: seq<MouseInput>)
    requires PressedAfter(b, onClick, inputs)
    ensures exists j :: 0 <= j < |inputs| && DownInside(b, inputs[j]) && NoMouseUpBetween(inputs, j + 1, |inputs|)
  {
    var n := |inputs|;
    var init := inputs[..n - 1];
    var last := inputs[n - 1];
    if DownInside(b, last) {
      assert NoMouseUpBetween(inputs, n, n);
    } else {
      assert last.MouseDown?;
      assert PressedAfter(b, onClick, init);
      PressedHasArmingDown(b, onClick, init);
      var j :| 0 <= j < |init| && DownInside(b, init[j]) && NoMouseUpBetween(init, j + 1, |init|);
      assert inputs[j] == init[j];
      assert NoMouseUpBetween(inputs, j + 1, n);
    }
  }

  /**
   * Over any input sequence, every click is fired by a mouse-up inside and is
   * preceded by a mouse-down inside with no mouse-up between the two.
   */
  lemma ClickNeedsPressInside(b: Bounds, onClick: CallbackId, inputs: seq<MouseInput>, k: nat)
    requires k < |inputs| && ClickedAt(b, onClick, inputs, k)
    ensures inputs[k].MouseUp? && Contains(b, inputs[k].at)
    ensures exists j :: 0 <= j < k && DownInside(b, inputs[j]) && NoMouseUpBetween(inputs, j + 1, k)
  {
    var before := inputs[..k];
    assert PressedAfter(b, onClick, before);
    PressedHasArmingDown(b, onClick, before);
    var j :| 0 <= j < |before| && DownInside(b, before[j]) && NoMouseUpBetween(before, j + 1, |before|);
    assert inputs[j] == before[j];
    assert NoMouseUpBetween(inputs, j + 1, k);
  }

  /** Conversely, a press inside followed by a release inside, with no release between, fires one click. */
  lemma PressThenReleaseClicks(b: Bounds, onClick: CallbackId, inputs: seq<MouseInput>, j: nat, k: nat)
    requires j < k < |inputs|
    requires DownInside(b, inputs[j]) && NoMouseUpBetween(inputs, j + 1, k)
    requires inputs[k].MouseUp? && Contains(b, inputs[k].at)
    ensures ClickedAt(b, onClick, inputs, k)
    ensures Step(b, onClick, PressedAfter(b, onClick, inputs[..k]), inputs[k]).1 == [OnMouseUp, Clicked(onClick)]
  {
    StaysPressed(b, onClick, inputs, j, k);
  }

  lemma {:induction false} StaysPressed(b: Bounds, onClick: CallbackId, inputs: seq<MouseInput>, j: nat, k: nat)
    requires j < k <= |inputs|
    requires DownInside(b, inputs[j]) && NoMouseUpBetween(inputs, j + 1, k)
    ensures PressedAfter(b, onClick, inputs[..k])
    decreases k
  {
    var prefix := inputs[..k];
    assert prefix[..k - 1] == inputs[..k - 1];
    if k - 1 > j {
      StaysPressed(b, onClick, inputs, j, k - 1);
    }
  }

  class Button {
    const onClick: CallbackId
    const x: real
    const y: real
    const width: real
    const height: real
    var isPressed: bool

    /** A new button is not pressed. */
    constructor (x: real, y: real, width: real, height: real, onClick: CallbackId)
      ensures this.x == x && this.y == y && this.width == width && this.height == height
      ensures this.onClick == onClick && !isPressed
    {
      this.onClick := onClick;
      this.x, this.y, this.width, this.height := x, y, width, height;
      isPressed := false;
    }

    function Area(): Bounds
    {
      Bounds(x, y, width, height)
    }

    /** `isMouseInside`: both coordinates within the closed ranges, edges included. */
    function IsMouseInside(p: Pointer): (r: bool)
      ensures r <==> x <= p.clientX <= x + width && y <= p.clientY <= y + height
      ensures width >= 0.0 && height >= 0.0 ==>
                Contains(Area(), Pointer(x, y)) && Contains(Area(), Pointer(x + width, y + height))
    {
      Contains(Area(), p)
    }

    /** `mouseDown`: inside arms the button and calls `onMouseDown`; outside changes nothing. */
    method HandleMouseDown(p: Pointer) returns (reactions: seq<Reaction>)
      modifies this
      ensures (isPressed, reactions) == Step(Area(), onClick, old(isPressed), MouseDown(p))
      ensures IsMouseInside(p) ==> isPressed && reactions == [OnMouseDown]
      ensures !IsMouseInside(p) ==> isPressed == old(isPressed) && reactions == []
    {
      reactions := [];
      if IsMouseInside(p) {
        isPressed := true;
        reactions := [OnMouseDown];
      }
    }

    /**
     * `mouseUp`: when not pressed, nothing; when pressed, disarm, call
     * `onMouseUp`, and fire `onClick` once exactly when the release is inside.
     */
    method HandleMouseUp(p: Pointer) returns (reactions: seq<Reaction>)
      modifies this
      ensures (isPressed, reactions) == Step(Area(), onClick, old(isPressed), MouseUp(p))
      ensures !old(isPressed) ==> !isPressed && reactions == []
      ensures old(isPressed) ==> !isPressed && reactions[0] == OnMouseUp
      ensures (Clicked(onClick) in reactions) <==> old(isPressed) && IsMouseInside(p)
      ensures multiset(reactions)[Clicked(onClick)] <= 1
    {
      reactions := [];
      if isPressed {
        isPressed := false;
        reactions := [OnMouseUp];
        if IsMouseInside(p) {
          reactions := reactions + [Clicked(onClick)];
          assert reactions == [OnMouseUp, Clicked(onClick)];
        }
      }
    }

    /** `clone`: same rectangle and `onClick`, not pressed. */
    method Clone() returns (c: Button)
      ensures fresh(c)
      ensures c.x == x && c.y == y && c.width == width && c.height == height
      ensures c.onClick == onClick && !c.isPressed
    {
      c := new Button(x, y, width, height, onClick);
    }
  }
}
