/** Model of ai_flappyBird/claude_prompt+web/game.js: a FlappyBird class with a
    start screen, a frame-counted pipe spawner, a forward pipe loop that scores
    followed by a filter, and a collision test over the filtered pipes. */
module FlappyPromptWeb {

  const CanvasWidth: real := 400.0
  const CanvasHeight: real := 600.0
  const BirdX: real := 50.0
  const BirdSize: real := 20.0
  const StartY: real := 300.0
  const Gravity: real := 0.5
  const Jump: real := -8.0
  const PipeWidth: real := 50.0
  const PipeGap: real := 150.0
  const PipeSpeed: real := 2.0
  const SpawnInterval: nat := 90
  const MinHeight: real := 50.0
  const MaxHeight: real := 400.0   // canvas.height - pipeGap - minHeight

  /** One pipe pair: its left edge, the height of the upper pipe (a real
      number here: the source does not round it) and the scored flag. */
  datatype Pipe = Pipe(x: real, height: real, scored: bool)

  /** The height spawnPipe draws from one Math.random() value. */
  function PipeHeight(roll: real): (h: real)
    requires 0.0 <= roll < 1.0
    ensures MinHeight <= h < MaxHeight
  {
    roll * (MaxHeight - MinHeight) + MinHeight
  }

  /** Every height in [50, 400) is drawn by exactly the value that maps to it. */
  lemma PipeHeightOnto(h: real)
    requires MinHeight <= h < MaxHeight
    ensures var roll := (h - MinHeight) / (MaxHeight - MinHeight);
      0.0 <= roll < 1.0 && PipeHeight(roll) == h
  {
  }

  // ---------------------------------------------------------------------
  // updatePipes: the for-of loop, then the filter.

  /** What the for-of loop does to one pipe: move it, and mark it once the
      bird is past it. */
  function Step(p: Pipe): Pipe
  {
    var q := p.(x := p.x - PipeSpeed);
    if !q.scored && q.x + PipeWidth < BirdX then q.(scored := true) else q
  }

  /** 1 when Step marks the pipe, else 0. */
  function Gain(p: Pipe): nat
  {
    if !p.scored && p.x - PipeSpeed + PipeWidth < BirdX then 1 else 0
  }

  function Moved(ps: seq<Pipe>): seq<Pipe>
  {
    if ps == [] then [] else Moved(ps[..|ps| - 1]) + [Step(ps[|ps| - 1])]
  }

  function Gained(ps: seq<Pipe>): nat
  {
    if ps == [] then 0 else Gained(ps[..|ps| - 1]) + Gain(ps[|ps| - 1])
  }

  function Unscored(ps: seq<Pipe>): nat
  {
    if ps == [] then 0 else Unscored(ps[..|ps| - 1]) + (if ps[|ps| - 1].scored then 0 else 1)
  }

  predicate Visible(p: Pipe) { p.x + PipeWidth > 0.0 }

  /** `pipes.filter(pipe => pipe.x + pipeWidth > 0)` */
  function OnScreen(ps: seq<Pipe>): seq<Pipe>
  {
    if ps == [] then []
    else OnScreen(ps[..|ps| - 1]) + (if Visible(ps[|ps| - 1]) then [ps[|ps| - 1]] else [])
  }

  /** The loop maps every pipe through Step and keeps the list's length. */
  lemma {:induction false} MovedPointwise(ps: seq<Pipe>)
    ensures |Moved(ps)| == |ps|
    ensures forall k :: 0 <= k < |ps| ==> Moved(ps)[k] == Step(ps[k])
  {
    if ps != [] {
      var i := |ps| - 1;
      MovedPointwise(ps[..i]);
      assert forall k :: 0 <= k < i ==> ps[..i][k] == ps[k];
    }
  }

  /** Each point the loop adds uses up exactly one unscored pipe, so a pipe
      is never counted twice. */
  lemma {:induction false} MovedScoresOnce(ps: seq<Pipe>)
    ensures Gained(ps) + Unscored(Moved(ps)) == Unscored(ps)
  {
    if ps != [] {
      var i := |ps| - 1;
      MovedScoresOnce(ps[..i]);
      var m := Moved(ps[..i]) + [Step(ps[i])];
      assert m[..|m| - 1] == Moved(ps[..i]);
    }
  }

  lemma UnscoredOne(p: Pipe)
    ensures Unscored([p]) == if p.scored then 0 else 1
  {
    assert [p][..0] == [];
  }

  lemma {:induction false} UnscoredAppend(a: seq<Pipe>, b: seq<Pipe>)
    ensures Unscored(a + b) == Unscored(a) + Unscored(b)
    decreases |b|
  {
    if b == [] {
      assert a + b == a;
    } else {
      var j := |b| - 1;
      assert (a + b)[..|a + b| - 1] == a + b[..j];
      UnscoredAppend(a, b[..j]);
    }
  }

  /** The filter keeps exactly the visible pipes. */
  lemma {:induction false} OnScreenKeepsExactly(ps: seq<Pipe>)
    ensures forall p <- OnScreen(ps) :: p in ps && Visible(p)
    ensures forall p <- ps :: Visible(p) ==> p in OnScreen(ps)
  {
    if ps != [] {
      var i := |ps| - 1;
      OnScreenKeepsExactly(ps[..i]);
      assert forall p <- ps[..i] :: p in ps;
      assert forall p <- ps :: p in ps[..i] || p == ps[i];
    }
  }

  /** The filter keeps the order: filtering a concatenation filters each part. */
  lemma {:induction false} OnScreenAppend(a: seq<Pipe>, b: seq<Pipe>)
    ensures OnScreen(a + b) == OnScreen(a) + OnScreen(b)
    decreases |b|
  {
    if b == [] {
      assert a + b == a;
    } else {
      var j := |b| - 1;
      assert (a + b)[..|a + b| - 1] == a + b[..j];
      assert (a + b)[|a + b| - 1] == b[j];
      OnScreenAppend(a, b[..j]);
    }
  }

  /** The filter never adds an unscored pipe. */
  lemma {:induction false} OnScreenUnscored(ps: seq<Pipe>)
    ensures Unscored(OnScreen(ps)) <= Unscored(ps)
  {
    if ps != [] {
      var i := |ps| - 1;
      OnScreenUnscored(ps[..i]);
      var tail := if Visible(ps[i]) then [ps[i]] else [];
      UnscoredAppend(OnScreen(ps[..i]), tail);
      UnscoredOne(ps[i]);
    }
  }

  /** The for-of loop of updatePipes, over a copy of the list. */
  method MovePipes(pipes: seq<Pipe>, score: int) returns (ps: seq<Pipe>, points: int)
    ensures ps == Moved(pipes) && points == score + Gained(pipes)
  {
    ps, points := [], score;
    var i := 0;
    while i < |pipes|
      invariant 0 <= i <= |pipes|
      invariant ps == Moved(pipes[..i])
      invariant points == score + Gained(pipes[..i])
    {
      assert pipes[..i + 1][..i] == pipes[..i];
      var p := pipes[i].(x := pipes[i].x - PipeSpeed);
      if !p.scored && p.x + PipeWidth < BirdX {
        p := p.(scored := true);
        points := points + 1;
      }
      ps := ps + [p];
      i := i + 1;
    }
    assert pipes[..i] == pipes;
  }

  // ---------------------------------------------------------------------
  // checkCollisions

  predicate OutOfBounds(birdY: real)
  {
    birdY < 0.0 || birdY + BirdSize > CanvasHeight
  }

  /** Horizontal overlap with the column and the bird outside the gap. */
  predicate HitsPipe(birdY: real, p: Pipe)
  {
    BirdX + BirdSize > p.x && BirdX < p.x + PipeWidth &&
    (birdY < p.height || birdY + BirdSize > p.height + PipeGap)
  }

  predicate Collides(birdY: real, ps: seq<Pipe>)
  {
    OutOfBounds(birdY) || exists k :: 0 <= k < |ps| && HitsPipe(birdY, ps[k])
  }

  /** A bird on screen that sits inside every gap it overlaps never collides. */
  lemma InsideGapsIsSafe(birdY: real, ps: seq<Pipe>)
    requires !OutOfBounds(birdY)
    requires forall p <- ps :: BirdX + BirdSize <= p.x || p.x + PipeWidth <= BirdX ||
                                (p.height <= birdY && birdY + BirdSize <= p.height + PipeGap)
    ensures !Collides(birdY, ps)
  {
    if exists k :: 0 <= k < |ps| && HitsPipe(birdY, ps[k]) {
      var k :| 0 <= k < |ps| && HitsPipe(birdY, ps[k]);
      assert ps[k] in ps;
    }
  }

  /** checkCollisions: bounds first, then the pipes in order. */
  method CheckCollisions(birdY: real, pipes: seq<Pipe>) returns (hit: bool)
    ensures hit == Collides(birdY, pipes)
  {
    if birdY < 0.0 || birdY + BirdSize > CanvasHeight {
      return true;
    }
    var i := 0;
    while i < |pipes|
      invariant 0 <= i <= |pipes|
      invariant forall k :: 0 <= k < i ==> !HitsPipe(birdY, pipes[k])
    {
      if BirdX + BirdSize > pipes[i].x && BirdX < pipes[i].x + PipeWidth {
        if birdY < pipes[i].height || birdY + BirdSize > pipes[i].height + PipeGap {
          return true;
        }
      }
      i := i + 1;
    }
    return false;
  }

  // ---------------------------------------------------------------------
  // The game object.

  /** Shape of a pipe the game keeps between frames. */
  predicate Sound(p: Pipe)
  {
    MinHeight <= p.height < MaxHeight && Visible(p)
  }

  /** The heights spawnPipe draws survive the for-of loop. */
  lemma {:induction false} MovedKeepsHeights(ps: seq<Pipe>)
    requires forall p <- ps :: MinHeight <= p.height < MaxHeight
    ensures forall p <- Moved(ps) :: MinHeight <= p.height < MaxHeight
  {
    if ps != [] {
      var i := |ps| - 1;
      assert forall p <- ps[..i] :: p in ps;
      MovedKeepsHeights(ps[..i]);
      assert ps[i] in ps;
    }
  }

  /** updatePipes keeps the pipes in shape and counts each pipe at most once. */
  lemma UpdatePipesKeepsShape(ps: seq<Pipe>, score: int, spawned: nat)
    requires 0 <= score && score + Unscored(ps) <= spawned
    requires forall p <- ps :: Sound(p)
    ensures var r := OnScreen(Moved(ps));
      0 <= score + Gained(ps) && score + Gained(ps) + Unscored(r) <= spawned && forall p <- r :: Sound(p)
  {
    MovedScoresOnce(ps);
    MovedKeepsHeights(ps);
    OnScreenUnscored(Moved(ps));
    OnScreenKeepsExactly(Moved(ps));
  }

  class FlappyBird {
    var gameStarted: bool
    var gameOver: bool
    var score: int
    var birdY: real
    var velocity: real
    var pipes: seq<Pipe>
    var frameCount: nat
    /** Pipes spawned since the last reset. */
    ghost var spawned: nat

    /** A pipe scores at most once; the start screen is a clean game; only a
        started game can be over. */
    ghost predicate Valid()
      reads this
    {
      && 0 <= score
      && score + Unscored(pipes) <= spawned
      && (forall p <- pipes :: Sound(p))
      && (gameOver ==> gameStarted)
      && (!gameStarted ==> pipes == [] && score == 0 && frameCount == 0 && birdY == StartY && velocity == 0.0)
    }

    constructor ()
      ensures Valid()
      ensures !gameStarted && !gameOver && score == 0 && pipes == [] && frameCount == 0
      ensures birdY == StartY && velocity == 0.0
    {
      gameStarted := false;
      gameOver := false;
      score := 0;
      birdY := StartY;
      velocity := 0.0;
      pipes := [];
      frameCount := 0;
      spawned := 0;
    }

    /** Click, SPACE and touch all call handleInput. */
    method HandleInput()
      requires Valid()
      modifies this
      ensures Valid()
      ensures !old(gameStarted) ==>
        gameStarted && !gameOver && pipes == old(pipes) && score == old(score)
        && birdY == old(birdY) && velocity == old(velocity) && frameCount == old(frameCount)
      ensures old(gameStarted) && old(gameOver) ==>
        !gameStarted && !gameOver && score == 0 && pipes == [] && birdY == StartY && velocity == 0.0 && frameCount == 0
      ensures old(gameStarted) && !old(gameOver) ==>
        velocity == Jump && gameStarted && !gameOver && birdY == old(birdY) && pipes == old(pipes)
        && score == old(score) && frameCount == old(frameCount)
    {
      if !gameStarted {
        StartGame();
      } else if gameOver {
        ResetGame();
      } else {
        velocity := Jump;
      }
    }

    method StartGame()
      requires Valid()
      requires !gameStarted
      modifies this
      ensures Valid()
      ensures gameStarted && !gameOver
      ensures score == old(score) && pipes == old(pipes) && birdY == old(birdY)
      ensures velocity == old(velocity) && frameCount == old(frameCount)
    {
      gameStarted := true;
    }

    method ResetGame()
      modifies this
      ensures Valid()
      ensures !gameOver && !gameStarted && score == 0 && pipes == []
      ensures birdY == StartY && velocity == 0.0 && frameCount == 0
    {
      gameOver := false;
      gameStarted := false;
      score := 0;
      pipes := [];
      birdY := StartY;
      velocity := 0.0;
      frameCount := 0;
      spawned := 0;
    }

    method SpawnPipe(roll: real)
      requires Valid()
      requires gameStarted
      requires 0.0 <= roll < 1.0
      modifies this
      ensures Valid()
      ensures pipes == old(pipes) + [Pipe(CanvasWidth, PipeHeight(roll), false)]
      ensures gameStarted == old(gameStarted) && gameOver == old(gameOver) && score == old(score)
      ensures birdY == old(birdY) && velocity == old(velocity) && frameCount == old(frameCount)
    {
      var p := Pipe(CanvasWidth, PipeHeight(roll), false);
      UnscoredAppend(pipes, [p]);
      UnscoredOne(p);
      pipes := pipes + [p];
      spawned := spawned + 1;
    }

    /** updatePipes: move and score every pipe, then drop those off screen. */
    method UpdatePipes()
      requires Valid()
      requires gameStarted
      modifies this
      ensures Valid()
      ensures pipes == OnScreen(Moved(old(pipes))) && score == old(score) + Gained(old(pipes))
      ensures gameStarted == old(gameStarted) && gameOver == old(gameOver)
      ensures birdY == old(birdY) && velocity == old(velocity) && frameCount == old(frameCount)
    {
      UpdatePipesKeepsShape(pipes, score, spawned);
      var moved;
      moved, score := MovePipes(pipes, score);
      pipes := OnScreen(moved);
    }

    /** One animation frame; `roll` is the Math.random() value spawnPipe
        would draw. */
    method Update(roll: real)
      requires Valid()
      requires 0.0 <= roll < 1.0
      modifies this
      ensures Valid()
      ensures !(old(gameStarted) && !old(gameOver)) ==> unchanged(this)
      ensures old(gameStarted) && !old(gameOver) ==>
        && velocity == old(velocity) + Gravity
        && birdY == old(birdY) + velocity
        && var incoming := old(pipes) + (if old(frameCount) % SpawnInterval == 0
                                      then [Pipe(CanvasWidth, PipeHeight(roll), false)] else []);
        && pipes == OnScreen(Moved(incoming))
        && score == old(score) + Gained(incoming)
        && gameOver == Collides(birdY, pipes)
        && gameStarted
        && frameCount == old(frameCount) + 1
    {
      if gameStarted && !gameOver {
        velocity := velocity + Gravity;
        birdY := birdY + velocity;
        ghost var incoming := pipes + (if frameCount % SpawnInterval == 0
                                    then [Pipe(CanvasWidth, PipeHeight(roll), false)] else []);
        if frameCount % SpawnInterval == 0 {
          SpawnPipe(roll);
        }
        assert pipes == incoming;
        UpdatePipes();
        var hit := CheckCollisions(birdY, pipes);
        if hit {
          gameOver := true;
        }
        frameCount := frameCount + 1;
      }
    }
  }
}
