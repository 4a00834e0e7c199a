/** The player body (class Bird, Fly.py lines 66-112). */
module Birds {
  import opened Config
  import opened Geometry

  /** Where the bird starts: `bird_rect.center = (100, SCREEN_HEIGHT // 2)`. */
  const StartCenterX: int := 100
  const StartCenterY: int := ScreenHeight / 2

  /** The bird's collision rectangle, its vertical velocity (positive is downwards),
      whether it has ever jumped since the last reset, its remaining jump budget
      and the fast-descend flag. */
  datatype Bird = Bird(rect: Rect, velocity: real, isJumping: bool, jumpsLeft: nat, isDescending: bool)

  /** `Bird()`: the 20x20 rectangle centred on the start point, falling at BirdVelocity. */
  function Initial(): (b: Bird)
    ensures b.rect.CenterX() == StartCenterX && b.rect.CenterY() == StartCenterY
    ensures b.rect.w == BirdWidth && b.rect.h == BirdHeight
    ensures b.velocity == BirdVelocity
    ensures b.jumpsLeft == MaxJumps && !b.isJumping && !b.isDescending
  {
    Bird(Rect(0, 0, BirdWidth, BirdHeight).WithCenter(StartCenterX, StartCenterY), BirdVelocity, false, MaxJumps, false)
  }

  /** What holds of every bird the game can reach: its rectangle keeps its size and
      column, it is never below the floor, its jump budget never exceeds MaxJumps,
      and the fast-descend flag is never raised (nothing in Fly.py sets it). */
  predicate Valid(b: Bird)
  {
    && b.rect.CenterX() == StartCenterX
    && b.rect.w == BirdWidth && b.rect.h == BirdHeight
    && b.rect.Bottom() <= ScreenHeight
    && b.jumpsLeft <= MaxJumps
    && !b.isDescending
  }

  lemma InitialValid()
    ensures Valid(Initial())
  {
  }

  /** `Bird.jump`: spends one jump for an upward impulse; a silent no-op once the budget is spent. */
  function Jump(b: Bird): (r: Bird)
    ensures b.jumpsLeft > 0 ==> r.velocity == JumpStrength && r.isJumping && r.jumpsLeft + 1 == b.jumpsLeft
    ensures b.jumpsLeft == 0 ==> r == b
    ensures r.rect == b.rect && r.isDescending == b.isDescending
    ensures Valid(b) ==> Valid(r)
  {
    if b.jumpsLeft > 0 then b.(velocity := JumpStrength, isJumping := true, jumpsLeft := b.jumpsLeft - 1)
    else b
  }

  /** `n` presses of the jump key with no tick in between. */
  function JumpN(b: Bird, n: nat): Bird
  {
    if n == 0 then b else Jump(JumpN(b, n - 1))
  }

  /** The jump budget is spent one press at a time and never goes below zero:
      after `n` presses, `max(0, jumpsLeft - n)` jumps remain. */
  lemma {:induction false} JumpBudget(b: Bird, n: nat)
    ensures JumpN(b, n).jumpsLeft == if n <= b.jumpsLeft then b.jumpsLeft - n else 0
    ensures JumpN(b, n).rect == b.rect
    ensures 0 < n && 0 < b.jumpsLeft ==> JumpN(b, n).velocity == JumpStrength && JumpN(b, n).isJumping
    ensures n > 0 && b.jumpsLeft == 0 ==> JumpN(b, n) == b
  {
    if n > 0 {
      JumpBudget(b, n - 1);
    }
  }

  /** `Bird.descend`: pins the velocity to DescendVelocity. It does not raise the
      fast-descend flag, so gravity keeps applying on the next move. */
  function Descend(b: Bird): (r: Bird)
    ensures r.velocity == DescendVelocity
    ensures r.(velocity := b.velocity) == b
    ensures Valid(b) ==> Valid(r)
  {
    b.(velocity := DescendVelocity)
  }

  /** `Bird.stop_descend`: restores the gravity velocity, unless the bird has jumped
      since the last reset (the jumping flag is cleared only by Reset). */
  function StopDescend(b: Bird): (r: Bird)
    ensures b.isJumping ==> r == b
    ensures !b.isJumping ==> r.velocity == Gravity
    ensures r.(velocity := b.velocity) == b
    ensures Valid(b) ==> Valid(r)
  {
    if b.isJumping then b else b.(velocity := Gravity)
  }

  /** The velocity a move applies: gravity is added unless the fast-descend flag is set. */
  function FallVelocity(b: Bird): real
  {
    if b.isDescending then b.velocity else b.velocity + Gravity
  }

  /** The rectangle after `rect.y += velocity`, before the floor clamp. `snap` is how
      the float sum `y + velocity` is turned back into the rectangle's integer y. */
  function Displaced(b: Bird, snap: real -> int): Rect
  {
    b.rect.(y := snap(b.rect.y as real + FallVelocity(b)))
  }

  /** The move reaches the floor (Fly.py line 98 uses `>=`). */
  predicate Lands(b: Bird, snap: real -> int)
  {
    Displaced(b, snap).Bottom() >= ScreenHeight
  }

  /** `Bird.move`: gravity, displacement, then the floor clamp that stops the bird
      and recharges its jumps. */
  function Move(b: Bird, snap: real -> int): (r: Bird)
    ensures r.rect.Bottom() <= ScreenHeight
    ensures r.rect.Bottom() == ScreenHeight <==> Lands(b, snap)
    ensures Lands(b, snap) ==> r.velocity == 0.0 && r.jumpsLeft == MaxJumps
    ensures !Lands(b, snap) ==> r.jumpsLeft == b.jumpsLeft && r.velocity == FallVelocity(b)
    ensures !Lands(b, snap) ==> r.rect.y == snap(b.rect.y as real + FallVelocity(b))
    ensures r.rect.x == b.rect.x && r.rect.w == b.rect.w && r.rect.h == b.rect.h
    ensures r.isJumping == b.isJumping && r.isDescending == b.isDescending
    ensures Valid(b) ==> Valid(r)
  {
    var v := FallVelocity(b);
    var moved := b.(velocity := v, rect := Displaced(b, snap));
    if moved.rect.Bottom() >= ScreenHeight then
      moved.(rect := moved.rect.WithBottom(ScreenHeight), velocity := 0.0, jumpsLeft := MaxJumps)
    else
      moved
  }

  /** Without the fast-descend flag (which nothing sets) a move that does not land
      always adds exactly Gravity to the velocity: the fall speed grows without bound. */
  lemma GravityAlwaysApplies(b: Bird, snap: real -> int)
    requires Valid(b) && !Lands(b, snap)
    ensures Move(b, snap).velocity == b.velocity + Gravity
  {
  }

  /** A jump followed by a move that does not land leaves the bird rising at JumpStrength + Gravity. */
  lemma JumpThenMove(b: Bird, snap: real -> int)
    requires Valid(b) && b.jumpsLeft > 0 && !Lands(Jump(b), snap)
    ensures Move(Jump(b), snap).velocity == JumpStrength + Gravity
    ensures Move(Jump(b), snap).jumpsLeft + 1 == b.jumpsLeft
  {
  }

  /** `Bird.reset`: back to the start centre and velocity, jumping flag cleared,
      budget recharged; the size and the fast-descend flag are left as they were. */
  function Reset(b: Bird): (r: Bird)
    ensures r.rect.CenterX() == StartCenterX && r.rect.CenterY() == StartCenterY
    ensures r.rect.w == b.rect.w && r.rect.h == b.rect.h
    ensures r.velocity == BirdVelocity && !r.isJumping && r.jumpsLeft == MaxJumps
    ensures r.isDescending == b.isDescending
  {
    Bird(b.rect.WithCenter(StartCenterX, StartCenterY), BirdVelocity, false, MaxJumps, b.isDescending)
  }

  /** Resetting any reachable bird gives back exactly the bird the game started with. */
  lemma ResetIsInitial(b: Bird)
    requires Valid(b)
    ensures Reset(b) == Initial()
  {
  }
}
