/** Model of ai_flappyBird/claude_web/game.js: the canvas size comes from the
    page, pipes are created by a timer that runs whether or not the game is
    over, the boundary test comes before the pipe pass and does not stop it,
    and off-screen pipes are filtered out afterwards. */
module FlappyWeb {

  const BirdX: real := 50.0
  const BirdWidth: real := 30.0
  const BirdHeight: real := 30.0
  const Gravity: real := 0.5
  const FlapSpeed: real := -8.0
  const PipeSpeed: real := 2.0
  const PipeGap: real := 150.0
  const PipeWidth: real := 50.0   // written as the literal 50 in the collision and score tests

  datatype Pipe = Pipe(x: real, topHeight: real, bottomY: real, scored: bool)

  /** createPipe on a canvas `width` by `height`, from one Math.random() value. */
  function NewPipe(width: real, height: real, roll: real): (p: Pipe)
    requires 0.0 <= roll < 1.0
    ensures p.x == width && !p.scored && p.bottomY == p.topHeight + PipeGap
    ensures height > 250.0 ==> 50.0 <= p.topHeight < height - 200.0
  {
    var span := height - PipeGap - 100.0;
    ScaleBelow(roll, span);
    var gap := roll * span + 50.0;
    Pipe(width, gap, gap + PipeGap, false)
  }

  lemma ScaleBelow(roll: real, span: real)
    requires 0.0 <= roll < 1.0
    ensures span > 0.0 ==> 0.0 <= roll * span < span
  {
    if span > 0.0 {
      assert (1.0 - roll) * span > 0.0;
    }
  }

  predicate OutOfBounds(birdY: real, height: real)
  {
    birdY + BirdHeight > height || birdY < 0.0
  }

  // ---------------------------------------------------------------------
  // The forEach pass and the filter.

  function Advance(p: Pipe): Pipe { p.(x := p.x - PipeSpeed) }

  /** The nested collision test of the forEach body, on a moved pipe. */
  predicate Collides(birdY: real, p: Pipe)
  {
    BirdX + BirdWidth > p.x && BirdX < p.x + PipeWidth &&
    (birdY < p.topHeight || birdY + BirdHeight > p.bottomY)
  }

  /** What the forEach body leaves of one pipe. */
  function Step(p: Pipe): Pipe
  {
    var m := Advance(p);
    if !m.scored && m.x + PipeWidth < BirdX then m.(scored := true) else m
  }

  function Gain(p: Pipe): nat
  {
    var m := Advance(p);
    if !m.scored && m.x + PipeWidth < BirdX then 1 else 0
  }

  function Moved(ps: seq<Pipe>): seq<Pipe>
  {
    if ps == [] then [] else Moved(ps[..|ps| - 1]) + [Step(ps[|ps| - 1])]
  }

  function Points(ps: seq<Pipe>): nat
  {
    if ps == [] then 0 else Points(ps[..|ps| - 1]) + Gain(ps[|ps| - 1])
  }

  /** Some pipe, once moved, collides with the bird. */
  predicate Struck(birdY: real, ps: seq<Pipe>)
  {
    ps != [] && (Struck(birdY, ps[..|ps| - 1]) || Collides(birdY, Advance(ps[|ps| - 1])))
  }

  function Unscored(ps: seq<Pipe>): nat
  {
    if ps == [] then 0 else Unscored(ps[..|ps| - 1]) + (if ps[|ps| - 1].scored then 0 else 1)
  }

  predicate Visible(p: Pipe) { p.x > -50.0 }

  /** `pipes.filter(pipe => pipe.x > -50)` */
  function OnScreen(ps: seq<Pipe>): seq<Pipe>
  {
    if ps == [] then []
    else OnScreen(ps[..|ps| - 1]) + (if Visible(ps[|ps| - 1]) then [ps[|ps| - 1]] else [])
  }

  /** The pass maps every pipe through Step and keeps the list's length. */
  lemma {:induction false} MovedPointwise(ps: seq<Pipe>)
    ensures |Moved(ps)| == |ps|
    ensures forall k :: 0 <= k < |ps| ==> Moved(ps)[k] == Step(ps[k])
  {
    if ps != [] {
      var i := |ps| - 1;
      MovedPointwise(ps[..i]);
      assert forall k :: 0 <= k < i ==> ps[..i][k] == ps[k];
    }
  }

  /** The pass sets gameOver exactly when some moved pipe collides; every
      pipe is checked, including those the filter then drops. */
  lemma {:induction false} StruckIffSomeCollision(birdY: real, ps: seq<Pipe>)
    ensures Struck(birdY, ps) <==> exists k :: 0 <= k < |ps| && Collides(birdY, Advance(ps[k]))
  {
    if ps != [] {
      var i := |ps| - 1;
      StruckIffSomeCollision(birdY, ps[..i]);
      if exists k :: 0 <= k < |ps| && Collides(birdY, Advance(ps[k])) {
        var k :| 0 <= k < |ps| && Collides(birdY, Advance(ps[k]));
        if k < i { assert ps[..i][k] == ps[k]; }
      }
      if exists k :: 0 <= k < i && Collides(birdY, Advance(ps[..i][k])) {
        var k :| 0 <= k < i && Collides(birdY, Advance(ps[..i][k]));
        assert ps[..i][k] == ps[k];
      }
    }
  }

  /** Every point uses up exactly one pipe that had not been counted. */
  lemma {:induction false} MovedScoresOnce(ps: seq<Pipe>)
    ensures Points(ps) + Unscored(Moved(ps)) == Unscored(ps)
  {
    if ps != [] {
      var i := |ps| - 1;
      MovedScoresOnce(ps[..i]);
      var m := Moved(ps[..i]) + [Step(ps[i])];
      assert m[..|m| - 1] == Moved(ps[..i]);
    }
  }

  lemma {:induction false} UnscoredAppend(a: seq<Pipe>, b: seq<Pipe>)
    ensures Unscored(a + b) == Unscored(a) + Unscored(b)
    decreases |b|
  {
    if b == [] {
      assert a + b == a;
    } else {
      var j := |b| - 1;
      assert (a + b)[..|a + b| - 1] == a + b[..j];
      UnscoredAppend(a, b[..j]);
    }
  }

  /** The filter keeps exactly the pipes with x > -50. */
  lemma {:induction false} OnScreenKeepsExactly(ps: seq<Pipe>)
    ensures forall p <- OnScreen(ps) :: p in ps && Visible(p)
    ensures forall p <- ps :: Visible(p) ==> p in OnScreen(ps)
  {
    if ps != [] {
      var i := |ps| - 1;
      OnScreenKeepsExactly(ps[..i]);
      assert forall p <- ps[..i] :: p in ps;
      assert forall p <- ps :: p in ps[..i] || p == ps[i];
    }
  }

  /** The filter keeps the order. */
  lemma {:induction false} OnScreenAppend(a: seq<Pipe>, b: seq<Pipe>)
    ensures OnScreen(a + b) == OnScreen(a) + OnScreen(b)
    decreases |b|
  {
    if b == [] {
      assert a + b == a;
    } else {
      var j := |b| - 1;
      assert (a + b)[..|a + b| - 1] == a + b[..j];
      assert (a + b)[|a + b| - 1] == b[j];
      OnScreenAppend(a, b[..j]);
    }
  }

  lemma {:induction false} OnScreenUnscored(ps: seq<Pipe>)
    ensures Unscored(OnScreen(ps)) <= Unscored(ps)
  {
    if ps != [] {
      var i := |ps| - 1;
      OnScreenUnscored(ps[..i]);
      var tail := if Visible(ps[i]) then [ps[i]] else [];
      UnscoredAppend(OnScreen(ps[..i]), tail);
      assert [ps[i]][..0] == [];
    }
  }

  /** Shape of a pipe createPipe builds. */
  predicate Sound(p: Pipe) { p.bottomY == p.topHeight + PipeGap }

  /** A pass and the filter keep the pipes' shape and count each at most once. */
  lemma PassKeepsShape(ps: seq<Pipe>, score: int, spawned: nat)
    requires 0 <= score && score + Unscored(ps) <= spawned
    requires forall p <- ps :: Sound(p)
    ensures var r := OnScreen(Moved(ps));
      0 <= score + Points(ps) && score + Points(ps) + Unscored(r) <= spawned && forall p <- r :: Sound(p)
  {
    MovedScoresOnce(ps);
    OnScreenUnscored(Moved(ps));
    MovedKeepsSound(ps);
    OnScreenKeepsExactly(Moved(ps));
  }

  lemma {:induction false} MovedKeepsSound(ps: seq<Pipe>)
    requires forall p <- ps :: Sound(p)
    ensures forall p <- Moved(ps) :: Sound(p)
  {
    if ps != [] {
      var i := |ps| - 1;
      assert forall p <- ps[..i] :: p in ps;
      MovedKeepsSound(ps[..i]);
      assert ps[i] in ps;
    }
  }

  /** The forEach pass over a copy of the list; `over` is gameOver on entry. */
  method PassPipes(pipes: seq<Pipe>, score: int, over: bool, birdY: real)
    returns (ps: seq<Pipe>, points: int, over': bool)
    ensures ps == Moved(pipes) && points == score + Points(pipes)
    ensures over' == (over || Struck(birdY, pipes))
  {
    ps, points, over' := [], score, over;
    var i := 0;
    while i < |pipes|
      invariant 0 <= i <= |pipes|
      invariant ps == Moved(pipes[..i])
      invariant points == score + Points(pipes[..i])
      invariant over' == (over || Struck(birdY, pipes[..i]))
    {
      assert pipes[..i + 1][..i] == pipes[..i];
      var p := pipes[i].(x := pipes[i].x - PipeSpeed);
      if BirdX + BirdWidth > p.x && BirdX < p.x + PipeWidth {
        if birdY < p.topHeight || birdY + BirdHeight > p.bottomY {
          over' := true;
        }
      }
      if !p.scored && p.x + PipeWidth < BirdX {
        points := points + 1;
        p := p.(scored := true);
      }
      ps := ps + [p];
      i := i + 1;
    }
    assert pipes[..i] == pipes;
  }

  // ---------------------------------------------------------------------
  // The game state.

  class Game {
    /** canvas.width and canvas.height, set by the page. */
    const width: real
    const height: real
    var birdY: real
    var velocity: real
    var pipes: seq<Pipe>
    var score: int
    var gameOver: bool
    /** Pipes created since the last reset. */
    ghost var spawned: nat

    /** Pipes keep their gap, and no pipe has been counted twice. */
    ghost predicate Valid()
      reads this
    {
      && 0 <= score
      && score + Unscored(pipes) <= spawned
      && forall p <- pipes :: Sound(p)
    }

    constructor (width: real, height: real)
      ensures Valid()
      ensures this.width == width && this.height == height
      ensures birdY == height / 2.0 && velocity == 0.0 && pipes == [] && score == 0 && !gameOver
    {
      this.width := width;
      this.height := height;
      birdY := height / 2.0;
      velocity := 0.0;
      pipes := [];
      score := 0;
      gameOver := false;
      spawned := 0;
    }

    /** The keydown handler. */
    method KeyDown(isSpace: bool)
      requires Valid()
      modifies this
      ensures Valid()
      ensures !isSpace ==> unchanged(this)
      ensures isSpace && old(gameOver) ==>
        birdY == height / 2.0 && velocity == 0.0 && pipes == [] && score == 0 && !gameOver
      ensures isSpace && !old(gameOver) ==>
        velocity == FlapSpeed && birdY == old(birdY) && pipes == old(pipes) && score == old(score) && !gameOver
    {
      if isSpace {
        if gameOver {
          ResetGame();
        } else {
          velocity := FlapSpeed;
        }
      }
    }

    method ResetGame()
      modifies this
      ensures Valid()
      ensures birdY == height / 2.0 && velocity == 0.0 && pipes == [] && score == 0 && !gameOver
    {
      birdY := height / 2.0;
      velocity := 0.0;
      pipes := [];
      score := 0;
      gameOver := false;
      spawned := 0;
    }

    /** The setInterval callback: it runs whatever the game state, so pipes
        also pile up while the game is over. */
    method CreatePipe(roll: real)
      requires Valid()
      requires 0.0 <= roll < 1.0
      modifies this
      ensures Valid()
      ensures pipes == old(pipes) + [NewPipe(width, height, roll)]
      ensures birdY == old(birdY) && velocity == old(velocity) && score == old(score) && gameOver == old(gameOver)
    {
      var p := NewPipe(width, height, roll);
      UnscoredAppend(pipes, [p]);
      assert [p][..0] == [];
      pipes := pipes + [p];
      spawned := spawned + 1;
    }

    /** One frame. */
    method Update()
      requires Valid()
      modifies this
      ensures Valid()
      ensures old(gameOver) ==> unchanged(this)
      ensures !old(gameOver) ==>
        && velocity == old(velocity) + Gravity
        && birdY == old(birdY) + velocity
        && gameOver == (OutOfBounds(birdY, height) || Struck(birdY, old(pipes)))
        && pipes == OnScreen(Moved(old(pipes)))
        && score == old(score) + Points(old(pipes))
    {
      if gameOver {
        return;
      }
      velocity := velocity + Gravity;
      birdY := birdY + velocity;
      if birdY + BirdHeight > height || birdY < 0.0 {
        gameOver := true;
      }
      PassKeepsShape(pipes, score, spawned);
      var moved;
      moved, score, gameOver := PassPipes(pipes, score, gameOver, birdY);
      pipes := OnScreen(moved);
    }
  }
}
