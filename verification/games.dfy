/** The simulation: the bird, the live pipes, the score and the game-over flag
    (class Game, Fly.py lines 115-185). */
module Games {
  import opened Config
  import opened Geometry
  import opened Pipes
  import Birds

  /** A new pipe is spawned once the newest one is left of this x (`SCREEN_WIDTH - 300`). */
  const SpawnThreshold: int := ScreenWidth - 300
  /** The horizontal distance the spawn rule keeps between any two live pipes is more than this. */
  const MinSpacing: int := ScreenWidth - SpawnThreshold

  datatype Game = Game(bird: Birds.Bird, pipes: seq<Pipe>, score: nat, gameOver: bool)

  /** `Game()`. */
  function Initial(): (g: Game)
    ensures g.bird == Birds.Initial() && g.pipes == [] && g.score == 0 && !g.gameOver
  {
    Game(Birds.Initial(), [], 0, false)
  }

  /** Pipes in spawn order are ordered left to right and more than MinSpacing apart. */
  predicate Spaced(ps: seq<Pipe>)
  {
    forall i, j :: 0 <= i < j < |ps| ==> ps[i].x + MinSpacing < ps[j].x
  }

  /** Every live pipe is well formed, between the left cull line and the spawn column. */
  predicate PipesInField(ps: seq<Pipe>)
  {
    forall i :: 0 <= i < |ps| ==> WellFormed(ps[i]) && -(PipeWidth as int) <= ps[i].x <= ScreenWidth
  }

  // ---------------------------------------------------------------- collisions

  /** The bird touches the ceiling or the floor (Fly.py line 132). */
  predicate HitsEdge(r: Rect)
  {
    r.Top() <= 0 || r.Bottom() >= ScreenHeight
  }

  /** The bird overlaps one of the pipe's barriers (Fly.py line 135). */
  predicate HitsPipe(r: Rect, p: Pipe)
  {
    Overlap(r, p.top) || Overlap(r, p.bottom)
  }

  /** The condition under which `check_collisions` ends the game. */
  predicate Collides(r: Rect, ps: seq<Pipe>)
  {
    HitsEdge(r) || exists i :: 0 <= i < |ps| && HitsPipe(r, ps[i])
  }

  /** The loop over the pipes in `check_collisions`. */
  function HitsAnyPipe(r: Rect, ps: seq<Pipe>): (hit: bool)
    ensures hit <==> exists i :: 0 <= i < |ps| && HitsPipe(r, ps[i])
  {
    if |ps| == 0 then false
    else if HitsPipe(r, ps[0]) then true
    else
      var rest := HitsAnyPipe(r, ps[1..]);
      assert forall i :: 1 <= i < |ps| ==> ps[i] == ps[1..][i - 1];
      rest
  }

  /** `Game.check_collisions`: may set the game-over flag, never clears it, changes nothing else. */
  function CheckCollisions(g: Game): (r: Game)
    ensures r.gameOver <==> g.gameOver || Collides(g.bird.rect, g.pipes)
    ensures r.(gameOver := g.gameOver) == g
  {
    if HitsEdge(g.bird.rect) || HitsAnyPipe(g.bird.rect, g.pipes) then g.(gameOver := true) else g
  }

  // ---------------------------------------------------------------- spawning

  /** The spawn rule of `spawn_pipe` (Fly.py line 124). */
  predicate ShouldSpawn(ps: seq<Pipe>)
  {
    |ps| == 0 || ps[|ps| - 1].x < SpawnThreshold
  }

  /** `Game.spawn_pipe`. `draw` stands for `random.seed(score)` followed by
      `randint(100, SCREEN_HEIGHT - GAP_SIZE)`: the top height is a function of the score. */
  function Spawn(ps: seq<Pipe>, score: nat, draw: nat -> TopHeight): (r: seq<Pipe>)
    ensures ShouldSpawn(ps) ==> |r| == |ps| + 1 && r[|ps|] == NewPipe(ScreenWidth, draw(score))
    ensures !ShouldSpawn(ps) ==> |r| == |ps|
    ensures r[..|ps|] == ps
  {
    if ShouldSpawn(ps) then ps + [NewPipe(ScreenWidth, draw(score))] else ps
  }

  /** Spawning keeps the pipes spaced and inside the field: a pipe is only added at
      the spawn column once every live pipe is left of SpawnThreshold (and then at
      most one pipe is live, since a second would lie left of the cull line). */
  lemma SpawnKeepsInvariant(ps: seq<Pipe>, score: nat, draw: nat -> TopHeight)
    requires Spaced(ps) && PipesInField(ps)
    ensures Spaced(Spawn(ps, score, draw)) && PipesInField(Spawn(ps, score, draw))
  {
  }

  // ---------------------------------------------------------------- moving and culling

  /** Every pipe moved one tick, in order. */
  function MoveAll(ps: seq<Pipe>): (r: seq<Pipe>)
    ensures |r| == |ps|
    ensures forall i :: 0 <= i < |ps| ==> r[i] == Move(ps[i])
  {
    if |ps| == 0 then [] else [Move(ps[0])] + MoveAll(ps[1..])
  }

  /** The pipes of a list that are still on screen, in order. */
  function OnScreen(ps: seq<Pipe>): (r: seq<Pipe>)
    ensures |r| <= |ps|
    ensures forall q :: q in r <==> q in ps && !OffScreen(q)
  {
    if |ps| == 0 then []
    else (if OffScreen(ps[0]) then [] else [ps[0]]) + OnScreen(ps[1..])
  }

  /** The pipes that survive a tick, and how many were culled. */
  datatype Culled = Culled(kept: seq<Pipe>, removed: nat)

  /** The loop at Fly.py lines 147-151: each pipe is moved, and removed if it is then off-screen. */
  function MoveAndCull(ps: seq<Pipe>): (r: Culled)
    ensures |r.kept| + r.removed == |ps|
    ensures forall i :: 0 <= i < |r.kept| ==> !OffScreen(r.kept[i])
    ensures forall q :: q in r.kept ==> q in MoveAll(ps)
    ensures forall i :: 0 <= i < |ps| && !OffScreen(Move(ps[i])) ==> Move(ps[i]) in r.kept
    ensures r.kept == OnScreen(MoveAll(ps))
  {
    if |ps| == 0 then Culled([], 0)
    else
      var m := Move(ps[0]);
      var rest := MoveAndCull(ps[1..]);
      assert MoveAll(ps) == [m] + MoveAll(ps[1..]);
      assert MoveAll(ps)[1..] == MoveAll(ps[1..]);
      assert forall i :: 1 <= i < |ps| ==> ps[i] == ps[1..][i - 1];
      if OffScreen(m) then Culled(rest.kept, rest.removed + 1)
      else Culled([m] + rest.kept, rest.removed)
  }

  /** Nothing is culled when no pipe goes off-screen. */
  lemma {:induction false} NothingCulledOnScreen(ps: seq<Pipe>)
    requires forall i :: 0 <= i < |ps| ==> !OffScreen(Move(ps[i]))
    ensures MoveAndCull(ps) == Culled(MoveAll(ps), 0)
  {
    if |ps| > 0 {
      assert forall i :: 0 <= i < |ps[1..]| ==> ps[1..][i] == ps[i + 1];
      NothingCulledOnScreen(ps[1..]);
    }
  }

  /** The pipes after the first of a spaced list are spaced. */
  lemma SpacedTail(ps: seq<Pipe>)
    requires Spaced(ps) && |ps| > 0
    ensures Spaced(ps[1..])
  {
  }

  /** Prepending a pipe far enough left of every other keeps a list spaced. */
  lemma SpacedCons(m: Pipe, rest: seq<Pipe>)
    requires Spaced(rest)
    requires forall q :: q in rest ==> m.x + MinSpacing < q.x
    ensures Spaced([m] + rest)
  {
  }

  /** Every survivor of the pipes after the first is more than MinSpacing right of the moved first pipe. */
  lemma SurvivorsRightOfFirst(ps: seq<Pipe>)
    requires Spaced(ps) && |ps| > 0
    ensures forall q :: q in MoveAndCull(ps[1..]).kept ==> Move(ps[0]).x + MinSpacing < q.x
  {
  }

  /** Moving keeps the spacing (all pipes shift alike) and culling only drops pipes. */
  lemma {:induction false} CullKeepsSpacing(ps: seq<Pipe>)
    requires Spaced(ps)
    ensures Spaced(MoveAndCull(ps).kept)
  {
    if |ps| > 0 {
      SpacedTail(ps);
      CullKeepsSpacing(ps[1..]);
      if !OffScreen(Move(ps[0])) {
        SurvivorsRightOfFirst(ps);
        SpacedCons(Move(ps[0]), MoveAndCull(ps[1..]).kept);
      }
    }
  }

  /** Moving well-formed pipes inside the field keeps them well formed and one step left. */
  lemma MovedStayWellFormed(ps: seq<Pipe>)
    requires PipesInField(ps)
    ensures forall q :: q in MoveAll(ps) ==> WellFormed(q) && q.x <= ScreenWidth - PipeVelocity
  {
    forall q | q in MoveAll(ps) ensures WellFormed(q) && q.x <= ScreenWidth - PipeVelocity {
      var k :| 0 <= k < |MoveAll(ps)| && MoveAll(ps)[k] == q;
    }
  }

  /** Surviving pipes stay well formed and inside the field, one step left of where they were. */
  lemma CullKeepsInField(ps: seq<Pipe>)
    requires PipesInField(ps)
    ensures PipesInField(MoveAndCull(ps).kept)
    ensures forall i :: 0 <= i < |MoveAndCull(ps).kept| ==> MoveAndCull(ps).kept[i].x <= ScreenWidth - PipeVelocity
  {
    MovedStayWellFormed(ps);
    var kept := MoveAndCull(ps).kept;
    forall i | 0 <= i < |kept|
      ensures WellFormed(kept[i]) && -(PipeWidth as int) <= kept[i].x <= ScreenWidth - PipeVelocity
    {
      assert kept[i] in MoveAll(ps);
    }
  }

  // ---------------------------------------------------------------- the game

  /** Everything the running game maintains: a reachable bird, well-formed spaced
      pipes inside the field, and a running game is never in a colliding position. */
  predicate Valid(g: Game)
  {
    && Birds.Valid(g.bird)
    && PipesInField(g.pipes)
    && Spaced(g.pipes)
    && (!g.gameOver ==> !Collides(g.bird.rect, g.pipes))
  }

  lemma InitialValid()
    ensures Valid(Initial())
  {
    Birds.InitialValid();
    var r := Initial().bird.rect;
    assert r.Top() == Birds.StartCenterY - BirdHeight / 2;
  }

  /** Three spaced pipes span more than twice MinSpacing. */
  lemma SpreadOfThree(ps: seq<Pipe>)
    requires Spaced(ps)
    ensures |ps| > 2 ==> ps[0].x + 2 * MinSpacing < ps[2].x
  {
    if |ps| > 2 {
      assert ps[0].x + MinSpacing < ps[1].x && ps[1].x + MinSpacing < ps[2].x;
    }
  }

  /** The spacing and the field bounds leave room for at most two live pipes. */
  lemma AtMostTwoPipes(g: Game)
    requires Valid(g)
    ensures |g.pipes| <= 2
  {
    SpreadOfThree(g.pipes);
  }

  /** `Game.update`: nothing once the game is over; otherwise bird move, spawn,
      move and cull (one point per culled pipe), then the collision check. */
  function Update(g: Game, snap: real -> int, draw: nat -> TopHeight): (r: Game)
    ensures g.gameOver ==> r == g
    ensures !g.gameOver ==> r.bird == Birds.Move(g.bird, snap)
    ensures !g.gameOver ==> (r.gameOver <==> Collides(r.bird.rect, r.pipes))
    ensures r.score >= g.score
    ensures !g.gameOver ==> forall i :: 0 <= i < |r.pipes| ==> !OffScreen(r.pipes[i])
  {
    if g.gameOver then g else Tick(g, snap, draw)
  }

  /** The body of `Game.update` for a running game: bird move, spawn, move and cull
      (one point per culled pipe), then the collision check. */
  function Tick(g: Game, snap: real -> int, draw: nat -> TopHeight): (r: Game)
    requires !g.gameOver
    ensures r.bird == Birds.Move(g.bird, snap)
    ensures r.gameOver <==> Collides(r.bird.rect, r.pipes)
    ensures r.score >= g.score
    ensures forall i :: 0 <= i < |r.pipes| ==> !OffScreen(r.pipes[i])
    ensures r.pipes == MoveAndCull(Spawn(g.pipes, g.score, draw)).kept
  {
    var bird := Birds.Move(g.bird, snap);
    var spawned := Spawn(g.pipes, g.score, draw);
    var culled := MoveAndCull(spawned);
    CheckCollisions(Game(bird, culled.kept, g.score + culled.removed, false))
  }

  /** Every step of the game keeps it valid. */
  lemma UpdateKeepsValid(g: Game, snap: real -> int, draw: nat -> TopHeight)
    requires Valid(g)
    ensures Valid(Update(g, snap, draw))
  {
    if !g.gameOver {
      var spawned := Spawn(g.pipes, g.score, draw);
      SpawnKeepsInvariant(g.pipes, g.score, draw);
      CullKeepsSpacing(spawned);
      CullKeepsInField(spawned);
    }
  }

  /** A bird that reaches the floor during its move ends the game in the same update. */
  lemma LandingEndsGame(g: Game, snap: real -> int, draw: nat -> TopHeight)
    requires !g.gameOver && Birds.Lands(g.bird, snap)
    ensures Update(g, snap, draw).gameOver
  {
  }

  /** In one update of a running game the live pipes are the spawned list moved one
      tick and culled, and the score grows by exactly the number of
      pipes that left the screen: the pipes that were live or spawned and are now gone. */
  lemma ScoreCountsCulledPipes(g: Game, snap: real -> int, draw: nat -> TopHeight)
    requires !g.gameOver
    ensures Update(g, snap, draw).pipes == MoveAndCull(Spawn(g.pipes, g.score, draw)).kept
    ensures Update(g, snap, draw).score - g.score == MoveAndCull(Spawn(g.pipes, g.score, draw)).removed
    ensures Update(g, snap, draw).score + |Update(g, snap, draw).pipes|
         == g.score + |g.pipes| + (if ShouldSpawn(g.pipes) then 1 else 0)
  {
  }

  /** `Game.reset`. */
  function Reset(g: Game): (r: Game)
    ensures r.pipes == [] && r.score == 0 && !r.gameOver
    ensures r.bird == Birds.Reset(g.bird) && r.bird.velocity == BirdVelocity
    ensures r.bird.rect.CenterX() == Birds.StartCenterX && r.bird.rect.CenterY() == Birds.StartCenterY
    ensures r.bird.jumpsLeft == MaxJumps && !r.bird.isJumping
  {
    Game(Birds.Reset(g.bird), [], 0, false)
  }

  /** Resetting any valid game gives back exactly the game `Game()` builds. */
  lemma ResetIsInitial(g: Game)
    requires Valid(g)
    ensures Reset(g) == Initial()
  {
    Birds.ResetIsInitial(g.bird);
  }
}
