/**
 The drawing of one frame onto the canvas: per pixel, choose its colour,
 add a rectangle one strip-slot wide and the full canvas height, outline it
 and fill it. The drawing context itself is external; the model records
 the commands issued to it, with positions as exact rationals.
 */
module Render {
  import opened Effects

  /** A command issued to the drawing context. */
  datatype Op =
    | SetSourceRgb(color: Color)
    | Rectangle(x: real, y: real, w: real, h: real)
    | StrokePreserve
    | Fill

  /** Width of one pixel slot: the canvas width shared out over COUNT slots. */
  function SlotWidth(width: int): (w: real)
  {
    width as real / COUNT as real
  }

  /** Left edge of slot `i`. */
  function SlotLeft(i: nat, width: int): (x: real)
  {
    i as real * width as real / COUNT as real
  }

  /** The four commands that draw pixel `i` in colour `c`. */
  function PixelOps(i: nat, c: Color, width: int, height: int): (ops: seq<Op>)
  {
    [SetSourceRgb(c), Rectangle(SlotLeft(i, width), 0.0, SlotWidth(width), height as real), StrokePreserve, Fill]
  }

  /** The commands that draw `frame`, pixel by pixel from the left. */
  function Projection(frame: Frame, width: int, height: int): (ops: seq<Op>)
    decreases |frame|
  {
    if frame == [] then []
    else Projection(frame[..|frame| - 1], width, height) + PixelOps(|frame| - 1, frame[|frame| - 1], width, height)
  }

  /**
   Drawing a frame issues four commands per pixel, and the four at
   positions 4i to 4i+3 draw pixel i: its colour, its slot's rectangle, one
   outline and one fill. So rectangles come once per pixel, in pixel order.
   */
  lemma {:induction false} ProjectionLayout(frame: Frame, width: int, height: int)
    ensures |Projection(frame, width, height)| == 4 * |frame|
    ensures forall i | 0 <= i < |frame| ::
      Projection(frame, width, height)[4 * i .. 4 * i + 4] == PixelOps(i, frame[i], width, height)
  {
    if frame != [] {
      var n := |frame| - 1;
      var front := frame[..n];
      ProjectionLayout(front, width, height);
      var ops := Projection(frame, width, height);
      assert ops == Projection(front, width, height) + PixelOps(n, frame[n], width, height);
      forall i | 0 <= i < |frame|
        ensures ops[4 * i .. 4 * i + 4] == PixelOps(i, frame[i], width, height)
      {
        if i < n {
          assert front[i] == frame[i];
          assert ops[4 * i .. 4 * i + 4] == Projection(front, width, height)[4 * i .. 4 * i + 4];
        } else {
          assert ops[4 * i .. 4 * i + 4] == ops[4 * n ..];
        }
      }
    }
  }

  /**
   The slots tile the canvas from the left edge: slot 0 starts at 0, each
   slot starts where the one before it ends, and slot COUNT starts at the
   right edge.
   */
  lemma SlotsTile(i: nat, width: int)
    ensures SlotLeft(0, width) == 0.0
    ensures SlotLeft(i + 1, width) == SlotLeft(i, width) + SlotWidth(width)
    ensures SlotLeft(COUNT, width) == width as real
  {
  }

  /** On a canvas of positive width, slots go strictly left to right. */
  lemma SlotsLeftToRight(i: nat, j: nat, width: int)
    requires width > 0 && i < j
    ensures SlotLeft(i, width) < SlotLeft(j, width)
  {
  }
}
