/** Model of ai_flappyBird/gpt4o/game.js: a 320x480 canvas, gravity 0.6 and
    lift -15, a bird clamped to the floor, pipes spawned every 90 frames and
    filtered once off screen, and a collision check that only ever sets
    gameOver. */
module FlappyGpt4o {

  const CanvasWidth: real := 320.0
  const CanvasHeight: real := 480.0
  const BirdX: real := 50.0
  const BirdSize: real := 20.0
  const StartY: real := 150.0
  const Gravity: real := 0.6
  const Lift: real := -15.0
  const PipeWidth: real := 20.0
  const PipeGap: int := 100
  const PipeSpeed: real := 2.0
  const SpawnInterval: nat := 90

  /** One pipe: its left edge, the height of the upper part and the height
      of the lower part, both whole numbers of pixels. */
  datatype Pipe = Pipe(x: real, top: int, bottom: int)

  /** updatePipes' new pipe for one Math.random() value: the upper height is
      floor(roll * canvas.height / 2), the lower one fills the rest after the
      gap. */
  function NewPipe(roll: real): (p: Pipe)
    requires 0.0 <= roll < 1.0
    ensures p.x == CanvasWidth
    ensures 0 <= p.top <= 239
    ensures p.top + p.bottom + PipeGap == CanvasHeight.Floor
  {
    var top := (roll * (CanvasHeight / 2.0)).Floor;
    Pipe(CanvasWidth, top, CanvasHeight.Floor - top - PipeGap)
  }

  /** Each gap is 100 pixels tall, so a 20-pixel bird fits in every one. */
  lemma NewPipeIsPassable(roll: real)
    requires 0.0 <= roll < 1.0
    ensures var p := NewPipe(roll);
      var y := p.top as real + 40.0;
      p.top as real <= y && y + BirdSize <= CanvasHeight - p.bottom as real
  {
  }

  // ---------------------------------------------------------------------
  // updatePipes: the forEach that moves, then the filter.

  function Advance(p: Pipe): Pipe { p.(x := p.x - PipeSpeed) }

  function Moved(ps: seq<Pipe>): seq<Pipe>
  {
    if ps == [] then [] else Moved(ps[..|ps| - 1]) + [Advance(ps[|ps| - 1])]
  }

  predicate Visible(p: Pipe) { p.x + PipeWidth > 0.0 }

  /** `pipes.filter(pipe => pipe.x + pipe.width > 0)` */
  function Kept(ps: seq<Pipe>): seq<Pipe>
  {
    if ps == [] then []
    else Kept(ps[..|ps| - 1]) + (if Visible(ps[|ps| - 1]) then [ps[|ps| - 1]] else [])
  }

  /** Every pipe moves exactly 2 to the left and nothing else changes. */
  lemma {:induction false} MovedPointwise(ps: seq<Pipe>)
    ensures |Moved(ps)| == |ps|
    ensures forall k :: 0 <= k < |ps| ==>
      Moved(ps)[k].x == ps[k].x - PipeSpeed && Moved(ps)[k].top == ps[k].top && Moved(ps)[k].bottom == ps[k].bottom
  {
    if ps != [] {
      var i := |ps| - 1;
      MovedPointwise(ps[..i]);
      assert forall k :: 0 <= k < i ==> ps[..i][k] == ps[k];
    }
  }

  /** The filter keeps exactly the visible pipes. */
  lemma {:induction false} KeptExactly(ps: seq<Pipe>)
    ensures forall p <- Kept(ps) :: p in ps && Visible(p)
    ensures forall p <- ps :: Visible(p) ==> p in Kept(ps)
  {
    if ps != [] {
      var i := |ps| - 1;
      KeptExactly(ps[..i]);
      assert forall p <- ps[..i] :: p in ps;
      assert forall p <- ps :: p in ps[..i] || p == ps[i];
    }
  }

  /** The filter keeps the order: filtering a concatenation filters each part. */
  lemma {:induction false} KeptAppend(a: seq<Pipe>, b: seq<Pipe>)
    ensures Kept(a + b) == Kept(a) + Kept(b)
    decreases |b|
  {
    if b == [] {
      assert a + b == a;
    } else {
      var j := |b| - 1;
      assert (a + b)[..|a + b| - 1] == a + b[..j];
      assert (a + b)[|a + b| - 1] == b[j];
      KeptAppend(a, b[..j]);
    }
  }

  /** The forEach of updatePipes, over a copy of the list. */
  method MovePipes(pipes: seq<Pipe>) returns (ps: seq<Pipe>)
    ensures ps == Moved(pipes)
  {
    ps := [];
    var i := 0;
    while i < |pipes|
      invariant 0 <= i <= |pipes|
      invariant ps == Moved(pipes[..i])
    {
      assert pipes[..i + 1][..i] == pipes[..i];
      ps := ps + [pipes[i].(x := pipes[i].x - PipeSpeed)];
      i := i + 1;
    }
    assert pipes[..i] == pipes;
  }

  // ---------------------------------------------------------------------
  // checkCollision

  /** Touching the floor or the top edge counts. */
  predicate OutOfBounds(birdY: real)
  {
    birdY + BirdSize >= CanvasHeight || birdY <= 0.0
  }

  /** Strict horizontal overlap with the column and the bird above the lower
      edge of the upper part or below the upper edge of the lower part. */
  predicate Hits(birdY: real, p: Pipe)
  {
    BirdX < p.x + PipeWidth && BirdX + BirdSize > p.x &&
    (birdY < p.top as real || birdY + BirdSize > CanvasHeight - p.bottom as real)
  }

  predicate Struck(birdY: real, ps: seq<Pipe>)
  {
    exists k :: 0 <= k < |ps| && Hits(birdY, ps[k])
  }

  /** The bird is safe from one pipe: clear of its column, or inside its
      gap. */
  predicate Clear(birdY: real, p: Pipe)
  {
    BirdX + BirdSize <= p.x || p.x + PipeWidth <= BirdX ||
    (p.top as real <= birdY && birdY + BirdSize <= CanvasHeight - p.bottom as real)
  }

  /** No pipe stops the bird exactly when the bird is clear of every pipe. */
  lemma StruckIffSomePipeNotClear(birdY: real, ps: seq<Pipe>)
    ensures !Struck(birdY, ps) <==> forall p <- ps :: Clear(birdY, p)
  {
    if !Struck(birdY, ps) {
      forall p | p in ps
        ensures Clear(birdY, p)
      {
        var k :| 0 <= k < |ps| && ps[k] == p;
      }
    } else {
      var k :| 0 <= k < |ps| && Hits(birdY, ps[k]);
      assert ps[k] in ps && !Clear(birdY, ps[k]);
    }
  }

  /** The forEach of checkCollision: every pipe is checked, none stops the
      walk. */
  method AnyHit(birdY: real, pipes: seq<Pipe>) returns (hit: bool)
    ensures hit == Struck(birdY, pipes)
  {
    hit := false;
    var i := 0;
    while i < |pipes|
      invariant 0 <= i <= |pipes|
      invariant hit == exists k :: 0 <= k < i && Hits(birdY, pipes[k])
    {
      hit := hit || Hits(birdY, pipes[i]);
      i := i + 1;
    }
  }

  // ---------------------------------------------------------------------
  // The game state.

  /** A pipe as it stands between frames: the shape NewPipe gives it, on
      screen and left of the spawn column. */
  predicate Sound(p: Pipe)
  {
    0 <= p.top <= 239 && p.top + p.bottom + PipeGap == CanvasHeight.Floor &&
    Visible(p) && p.x < CanvasWidth
  }

  /** updatePipes keeps every pipe in shape. */
  lemma UpdatePipesKeepsShape(ps: seq<Pipe>)
    requires forall p <- ps :: 0 <= p.top <= 239 && p.top + p.bottom + PipeGap == CanvasHeight.Floor && p.x <= CanvasWidth
    ensures forall p <- Kept(Moved(ps)) :: Sound(p)
  {
    MovedPointwise(ps);
    KeptExactly(Moved(ps));
    forall p | p in Kept(Moved(ps))
      ensures Sound(p)
    {
      var k :| 0 <= k < |Moved(ps)| && Moved(ps)[k] == p;
      assert ps[k] in ps;
    }
  }

  /** updateBird's step from height y and speed v to y1 and v1: gravity,
      then the clamp that stops the bird on the floor. */
  predicate Fell(y: real, v: real, y1: real, v1: real)
  {
    var v' := v + Gravity;
    var y' := y + v';
    if y' + BirdSize > CanvasHeight then y1 == CanvasHeight - BirdSize && v1 == 0.0
    else y1 == y' && v1 == v'
  }

  class Game {
    var birdY: real
    var velocity: real
    var pipes: seq<Pipe>
    var frame: nat
    var gameOver: bool

    /** The clamp keeps the bird off the floor's far side, and every pipe
        is in shape. */
    ghost predicate Valid()
      reads this
    {
      birdY + BirdSize <= CanvasHeight && forall p <- pipes :: Sound(p)
    }

    constructor ()
      ensures Valid()
      ensures birdY == StartY && velocity == 0.0 && pipes == [] && frame == 0 && !gameOver
    {
      birdY := StartY;
      velocity := 0.0;
      pipes := [];
      frame := 0;
      gameOver := false;
    }

    /** The keydown handler: SPACE lifts the bird, even after the game is
        over. */
    method KeyDown(isSpace: bool)
      requires Valid()
      modifies this
      ensures Valid()
      ensures velocity == (if isSpace then Lift else old(velocity))
      ensures birdY == old(birdY) && pipes == old(pipes) && frame == old(frame) && gameOver == old(gameOver)
    {
      if isSpace {
        velocity := Lift;
      }
    }

    /** updateBird: fall, then clamp to the floor. */
    method UpdateBird()
      requires Valid()
      modifies this
      ensures Valid()
      ensures birdY + BirdSize <= CanvasHeight
      ensures Fell(old(birdY), old(velocity), birdY, velocity)
      ensures pipes == old(pipes) && frame == old(frame) && gameOver == old(gameOver)
    {
      velocity := velocity + Gravity;
      birdY := birdY + velocity;
      if birdY + BirdSize > CanvasHeight {
        birdY := CanvasHeight - BirdSize;
        velocity := 0.0;
      }
    }

    /** updatePipes: spawn on every 90th frame, move, drop the pipes off
        screen. */
    method UpdatePipes(roll: real)
      requires Valid()
      requires 0.0 <= roll < 1.0
      modifies this
      ensures Valid()
      ensures pipes == Kept(Moved(old(pipes) + if frame % SpawnInterval == 0 then [NewPipe(roll)] else []))
      ensures birdY == old(birdY) && velocity == old(velocity) && frame == old(frame) && gameOver == old(gameOver)
    {
      ghost var incoming := old(pipes) + if frame % SpawnInterval == 0 then [NewPipe(roll)] else [];
      if frame % SpawnInterval == 0 {
        pipes := pipes + [NewPipe(roll)];
      }
      assert pipes == incoming;
      UpdatePipesKeepsShape(pipes);
      var moved := MovePipes(pipes);
      pipes := Kept(moved);
    }

    /** checkCollision: it only ever sets gameOver. */
    method CheckCollision()
      requires Valid()
      modifies this
      ensures Valid()
      ensures gameOver == (old(gameOver) || OutOfBounds(birdY) || Struck(birdY, pipes))
      ensures birdY == old(birdY) && velocity == old(velocity) && pipes == old(pipes) && frame == old(frame)
    {
      if birdY + BirdSize >= CanvasHeight || birdY <= 0.0 {
        gameOver := true;
      }
      var hit := AnyHit(birdY, pipes);
      if hit {
        gameOver := true;
      }
    }

    /** The state part of gameLoop; `roll` is the Math.random() value a
        spawning frame draws. A bird that lands on the floor ends the game. */
    method GameLoop(roll: real)
      requires Valid()
      requires 0.0 <= roll < 1.0
      modifies this
      ensures Valid()
      ensures old(gameOver) ==> unchanged(this)
      ensures !old(gameOver) ==>
        && frame == old(frame) + 1
        && Fell(old(birdY), old(velocity), birdY, velocity)
        && pipes == Kept(Moved(old(pipes) + if old(frame) % SpawnInterval == 0 then [NewPipe(roll)] else []))
        && gameOver == (OutOfBounds(birdY) || Struck(birdY, pipes))
        && (birdY + BirdSize == CanvasHeight ==> gameOver)
    {
      if gameOver {
        return;
      }
      UpdateBird();
      UpdatePipes(roll);
      CheckCollision();
      frame := frame + 1;
    }
  }
}
