/** The part of pygame's integer rectangle that the simulation relies on. */
module Geometry {

  /** An axis-aligned rectangle with its top-left corner at (x, y); y grows downwards. */
  datatype Rect = Rect(x: int, y: int, w: nat, h: nat)
  {
    function Left(): int { x }
    function Right(): int { x + w }
    function Top(): int { y }
    function Bottom(): int { y + h }
    function CenterX(): int { x + w / 2 }
    function CenterY(): int { y + h / 2 }

    /** pygame's `rect.center = (cx, cy)`: moves the rectangle, keeps its size. */
    function WithCenter(cx: int, cy: int): (r: Rect)
      ensures r.CenterX() == cx && r.CenterY() == cy
      ensures r.w == w && r.h == h
    {
      Rect(cx - w / 2, cy - h / 2, w, h)
    }

    /** pygame's `rect.bottom = b`: moves the rectangle vertically, keeps its size. */
    function WithBottom(b: int): (r: Rect)
      ensures r.Bottom() == b
      ensures r.x == x && r.w == w && r.h == h
    {
      Rect(x, b - h, w, h)
    }
  }

  /** `a.colliderect(b)`: the open interiors of the two rectangles intersect. */
  predicate Overlap(a: Rect, b: Rect)
  {
    && a.Left() < b.Right() && b.Left() < a.Right()
    && a.Top() < b.Bottom() && b.Top() < a.Bottom()
  }
}
