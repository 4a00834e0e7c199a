/** The keyboard dispatch of the main loop (Fly.py lines 188-217) as a mapping from
    key events to game commands, and one frame of the loop: the queued events in
    order, then one update. */
module Controls {
  import opened Pipes
  import Birds
  import opened Games

  datatype Option<T> = None | Some(value: T)

  /** The keys the game listens to; every other key is `OtherKey`. */
  datatype Key = Up | Down | Space | OtherKey

  /** A polled input event. Quitting the window is not part of the model. */
  datatype Event = KeyDown(key: Key) | KeyUp(key: Key) | OtherEvent

  /** What a key event asks the game to do. */
  datatype Command = Jump | Descend | StopDescend | Retry

  /** The one event that issues each command. */
  function EventOf(c: Command): Event
  {
    match c
    case Jump => KeyDown(Up)
    case Descend => KeyDown(Down)
    case StopDescend => KeyUp(Down)
    case Retry => KeyDown(Space)
  }

  /** The key tests at Fly.py lines 198-208: up and down presses, the space press,
      and the release of down; any other event issues nothing. */
  function CommandOf(e: Event): (r: Option<Command>)
    ensures r.Some? ==> EventOf(r.value) == e
    ensures r.None? <==> forall c: Command :: EventOf(c) != e
  {
    match e
    case KeyDown(Up) => Some(Jump)
    case KeyDown(Down) => Some(Descend)
    case KeyDown(Space) => Some(Retry)
    case KeyUp(Down) => Some(StopDescend)
    case _ => None
  }

  /** Each command is recognised from its own event. */
  lemma CommandOfEventOf(c: Command)
    ensures CommandOf(EventOf(c)) == Some(c)
  {
  }

  /** Carries out one command. The bird commands act even on a finished game, as in
      the source; Retry restarts only a finished game (Fly.py line 203). */
  function Apply(g: Game, c: Command): (r: Game)
    ensures r.gameOver ==> g.gameOver
    ensures g.gameOver && !r.gameOver ==> c == Retry
    ensures c != Retry ==> r.(bird := g.bird) == g && r.bird.rect == g.bird.rect
    ensures c == Retry && !g.gameOver ==> r == g
    ensures c == Retry && g.gameOver ==> r == Games.Reset(g)
    ensures c == Jump ==> r.bird == Birds.Jump(g.bird)
    ensures c == Descend ==> r.bird == Birds.Descend(g.bird)
    ensures c == StopDescend ==> r.bird == Birds.StopDescend(g.bird)
    ensures Valid(g) ==> Valid(r)
  {
    match c
    case Jump => g.(bird := Birds.Jump(g.bird))
    case Descend => g.(bird := Birds.Descend(g.bird))
    case StopDescend => g.(bird := Birds.StopDescend(g.bird))
    case Retry => if g.gameOver then Games.Reset(g) else g
  }

  /** Handles one polled event. No event ends a game; only a space press can change
      the pipes, the score or the game-over flag, and only on a finished game. */
  function Dispatch(g: Game, e: Event): (r: Game)
    ensures r.gameOver ==> g.gameOver
    ensures e != KeyDown(Space) ==> r.pipes == g.pipes && r.score == g.score && r.gameOver == g.gameOver
    ensures e == KeyDown(Space) && !g.gameOver ==> r == g
    ensures e == KeyDown(Space) && g.gameOver ==> r.pipes == [] && r.score == 0 && !r.gameOver
    ensures Valid(g) ==> Valid(r)
  {
    match CommandOf(e)
    case None => g
    case Some(c) => Apply(g, c)
  }

  /** Handles the events of one frame in the order they were polled. The events never
      end a game, and either leave the pipes and score alone or a retry cleared them. */
  function DispatchAll(g: Game, es: seq<Event>): (r: Game)
    ensures r.gameOver ==> g.gameOver
    ensures (r.pipes == g.pipes && r.score == g.score) || (r.pipes == [] && r.score == 0)
    decreases |es|
  {
    if |es| == 0 then g else DispatchAll(Dispatch(g, es[0]), es[1..])
  }

  /** Handling the events keeps the game valid. */
  lemma {:induction false} DispatchAllKeepsValid(g: Game, es: seq<Event>)
    requires Valid(g)
    ensures Valid(DispatchAll(g, es))
    decreases |es|
  {
    if |es| > 0 {
      DispatchAllKeepsValid(Dispatch(g, es[0]), es[1..]);
    }
  }

  /** Without a space press the events never change the game-over flag, the pipes
      or the score: every other command only touches the bird. */
  lemma {:induction false} DispatchAllWithoutSpace(g: Game, es: seq<Event>)
    ensures KeyDown(Space) !in es ==>
      && DispatchAll(g, es).gameOver == g.gameOver
      && DispatchAll(g, es).pipes == g.pipes && DispatchAll(g, es).score == g.score
    decreases |es|
  {
    if |es| > 0 && KeyDown(Space) !in es {
      assert es[0] != KeyDown(Space);
      assert KeyDown(Space) !in es[1..];
      DispatchAllWithoutSpace(Dispatch(g, es[0]), es[1..]);
    }
  }

  /** One pass of the main loop: the frame's events, then `game.update()`. A frame
      ends a running game only through a collision, a game still running after it is
      not in a colliding position, and without a space press a finished game stays
      finished with the same pipes and score. */
  function Frame(g: Game, es: seq<Event>, snap: real -> int, draw: nat -> TopHeight): (r: Game)
    ensures r.gameOver ==> g.gameOver || Collides(r.bird.rect, r.pipes)
    ensures !r.gameOver ==> !Collides(r.bird.rect, r.pipes)
    ensures g.gameOver && KeyDown(Space) !in es ==> r.gameOver && r.pipes == g.pipes && r.score == g.score
  {
    DispatchAllWithoutSpace(g, es);
    Update(DispatchAll(g, es), snap, draw)
  }

  /** Every frame keeps the game valid; in particular at most two pipes are ever live. */
  lemma FrameKeepsValid(g: Game, es: seq<Event>, snap: real -> int, draw: nat -> TopHeight)
    requires Valid(g)
    ensures Valid(Frame(g, es, snap, draw))
    ensures |Frame(g, es, snap, draw).pipes| <= 2
  {
    DispatchAllKeepsValid(g, es);
    UpdateKeepsValid(DispatchAll(g, es), snap, draw);
    AtMostTwoPipes(Frame(g, es, snap, draw));
  }

  /** Pressing space on a finished valid game starts it over from the initial state. */
  lemma RetryRestarts(g: Game)
    requires Valid(g) && g.gameOver
    ensures Dispatch(g, KeyDown(Space)) == Games.Initial()
  {
    Games.ResetIsInitial(g);
  }

  /** Consecutive frames of the main loop, the events of each frame in order. A finished
      game stays finished, with the same pipes and score, until a frame presses space. */
  function Run(g: Game, frames: seq<seq<Event>>, snap: real -> int, draw: nat -> TopHeight): (r: Game)
    ensures g.gameOver && (forall k :: 0 <= k < |frames| ==> KeyDown(Space) !in frames[k]) ==>
      r.gameOver && r.pipes == g.pipes && r.score == g.score
    decreases |frames|
  {
    if |frames| == 0 then g else Run(Frame(g, frames[0], snap, draw), frames[1..], snap, draw)
  }

  /** However long the game runs, it stays valid and never has more than two live pipes. */
  lemma {:induction false} RunKeepsValid(g: Game, frames: seq<seq<Event>>, snap: real -> int, draw: nat -> TopHeight)
    requires Valid(g)
    ensures Valid(Run(g, frames, snap, draw))
    ensures |Run(g, frames, snap, draw).pipes| <= 2
    decreases |frames|
  {
    if |frames| > 0 {
      FrameKeepsValid(g, frames[0], snap, draw);
      RunKeepsValid(Frame(g, frames[0], snap, draw), frames[1..], snap, draw);
    } else {
      AtMostTwoPipes(g);
    }
  }
}
