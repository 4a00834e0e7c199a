/** An obstacle: a top and a bottom barrier with a fixed-size gap between them
    (class Pipe, Fly.py lines 46-63). */
module Pipes {
  import opened Config
  import opened Geometry

  /** The bounds of `random.randint(100, SCREEN_HEIGHT - GAP_SIZE)`, both inclusive. */
  const MinTopHeight: int := 100
  const MaxTopHeight: int := ScreenHeight - GapSize

  /** A height the random draw can produce for the top barrier. */
  type TopHeight = h: int | MinTopHeight <= h <= MaxTopHeight witness MinTopHeight

  /** `height` is the top barrier's height; `top` and `bottom` are its collision rectangles. */
  datatype Pipe = Pipe(x: int, height: int, top: Rect, bottom: Rect)

  /** The geometry every pipe keeps for its whole life: both barriers at the pipe's x,
      the top barrier hanging from the ceiling, the bottom one standing on the floor,
      and exactly GapSize pixels between them. */
  predicate WellFormed(p: Pipe)
  {
    && MinTopHeight <= p.height <= MaxTopHeight
    && p.top.x == p.x && p.bottom.x == p.x
    && p.top.w == PipeWidth && p.bottom.w == PipeWidth
    && p.top.Top() == 0 && p.top.Bottom() == p.height
    && p.bottom.Top() == p.height + GapSize && p.bottom.Bottom() == ScreenHeight
  }

  /** `Pipe(x_position)` once the top height `h` has been drawn. */
  function NewPipe(x: int, h: TopHeight): (p: Pipe)
    ensures WellFormed(p) && p.x == x && p.height == h
    ensures p.top == Rect(x, 0, PipeWidth, h)
    ensures p.top.h + GapSize + p.bottom.h == ScreenHeight
    ensures p.bottom.h == 0 <==> h == MaxTopHeight
  {
    Pipe(x, h, Rect(x, 0, PipeWidth, h), Rect(x, h + GapSize, PipeWidth, ScreenHeight - h - GapSize))
  }

  /** The barriers of a well-formed pipe, together with its gap, split the
      ScreenHeight column into three consecutive pieces that do not overlap. */
  lemma PartitionsColumn(p: Pipe)
    requires WellFormed(p)
    ensures p.top.h + GapSize + p.bottom.h == ScreenHeight
    ensures 0 < p.top.Bottom() && p.top.Bottom() + GapSize == p.bottom.Top()
    ensures p.bottom.Top() <= p.bottom.Bottom() == ScreenHeight
    ensures !Overlap(p.top, p.bottom)
  {
  }

  /** `Pipe.move`: one tick to the left, both barriers following the pipe. */
  function Move(p: Pipe): (r: Pipe)
    ensures r.x == p.x - PipeVelocity
    ensures r.top.x == r.x && r.bottom.x == r.x
    ensures r.height == p.height
    ensures r.top.(x := 0) == p.top.(x := 0) && r.bottom.(x := 0) == p.bottom.(x := 0)
    ensures WellFormed(p) ==> WellFormed(r)
  {
    var x := p.x - PipeVelocity;
    p.(x := x, top := p.top.(x := x), bottom := p.bottom.(x := x))
  }

  /** `Pipe.off_screen`: a well-formed pipe is off-screen exactly when both barriers
      lie wholly left of the field. */
  predicate OffScreen(p: Pipe): (r: bool)
    ensures WellFormed(p) ==> (r <==> p.top.Right() < 0 && p.bottom.Right() < 0)
  {
    p.x < -(PipeWidth as int)
  }

  /** The pipe after `k` ticks. */
  function MoveN(p: Pipe, k: nat): Pipe
  {
    if k == 0 then p else Move(MoveN(p, k - 1))
  }

  lemma {:induction false} MoveNShifts(p: Pipe, k: nat)
    ensures MoveN(p, k).x == p.x - k * PipeVelocity
    ensures MoveN(p, k).height == p.height
    ensures WellFormed(p) ==> WellFormed(MoveN(p, k))
  {
    if k > 0 {
      MoveNShifts(p, k - 1);
    }
  }

  /** A pipe spawned at the right edge of the field is off-screen after exactly
      93 ticks: 92 ticks take it to x = -60, which is still on screen. */
  lemma SpawnedPipeLifetime(h: TopHeight, k: nat)
    ensures OffScreen(MoveN(NewPipe(ScreenWidth, h), k)) <==> k >= 93
  {
    MoveNShifts(NewPipe(ScreenWidth, h), k);
  }
}
