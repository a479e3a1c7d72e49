/** Model of ai_flappyBird/claude_visual/game.js: one bird, a time-gated pipe
    spawner, a backward splice loop over the pipes with an early return on a
    hit, and a reset that keeps the spawn clock. */
module FlappyVisual {

  const CanvasWidth: real := 400.0
  const CanvasHeight: real := 600.0
  const BirdX: real := 50.0
  const BirdWidth: real := 34.0
  const BirdHeight: real := 24.0
  const StartY: real := 300.0      // canvas.height / 2
  const Gravity: real := 0.5
  const Jump: real := -8.0
  const PipeWidth: real := 50.0
  const PipeGap: real := 150.0
  const PipeSpeed: real := 2.0
  const PipeSpawnInterval: int := 1500
  const MinHeight: int := 50
  const MaxHeight: int := 400      // canvas.height - pipeGap - minHeight

  /** One pipe pair: its left edge, the height of the upper pipe, and whether
      it has already been counted. */
  datatype Pipe = Pipe(x: real, height: int, scored: bool)

  /** The upper-pipe height createPipe draws from one Math.random() value. */
  function PipeHeight(roll: real): (h: int)
    requires 0.0 <= roll < 1.0
    ensures MinHeight <= h <= MaxHeight
  {
    (roll * (MaxHeight - MinHeight + 1) as real).Floor + MinHeight
  }

  /** Every height the source can draw is reachable from some random value. */
  lemma PipeHeightCoversRange(h: int)
    requires MinHeight <= h <= MaxHeight
    ensures exists roll :: 0.0 <= roll < 1.0 && PipeHeight(roll) == h
  {
    var roll := (h - MinHeight) as real / (MaxHeight - MinHeight + 1) as real;
    assert roll * (MaxHeight - MinHeight + 1) as real == (h - MinHeight) as real;
    assert PipeHeight(roll) == h;
  }

  /** The bird's box and the pipe's column overlap strictly. */
  predicate Overlaps(p: Pipe)
  {
    BirdX + BirdWidth > p.x && BirdX < p.x + PipeWidth
  }

  /** checkCollision: strict horizontal overlap, and the bird above the gap's
      top or its bottom edge below the gap's bottom. */
  predicate CheckCollision(birdY: real, p: Pipe)
  {
    (BirdX + BirdWidth > p.x && BirdX < p.x + PipeWidth && birdY < p.height as real) ||
    (BirdX + BirdWidth > p.x && BirdX < p.x + PipeWidth && birdY + BirdHeight > p.height as real + PipeGap)
  }

  /** A bird inside the gap, or beside the column, is never hit; one that
      overlaps the column and reaches into either pipe always is. */
  lemma CollisionGeometry(birdY: real, p: Pipe)
    ensures !Overlaps(p) ==> !CheckCollision(birdY, p)
    ensures p.height as real <= birdY && birdY + BirdHeight <= p.height as real + PipeGap ==> !CheckCollision(birdY, p)
    ensures Overlaps(p) && birdY < p.height as real ==> CheckCollision(birdY, p)
    ensures Overlaps(p) && birdY + BirdHeight > p.height as real + PipeGap ==> CheckCollision(birdY, p)
  {
  }

  /** The boundary test at the end of update. */
  predicate OutOfBounds(birdY: real)
  {
    birdY < 0.0 || birdY + BirdHeight > CanvasHeight
  }

  // ---------------------------------------------------------------------
  // The pipe sweep of update, as a function of the pipes still to visit
  // (`todo`, visited from the back) and those already visited (`done`).

  function Advance(p: Pipe): Pipe { p.(x := p.x - PipeSpeed) }

  predicate OffScreen(p: Pipe) { p.x + PipeWidth < 0.0 }

  predicate Passed(p: Pipe) { !p.scored && p.x + PipeWidth < BirdX }

  /** A pipe as the game keeps it between ticks. */
  predicate Sound(p: Pipe)
  {
    MinHeight <= p.height <= MaxHeight && p.x + PipeWidth >= 0.0
  }

  function Unscored(ps: seq<Pipe>): nat
  {
    if ps == [] then 0 else (if ps[0].scored then 0 else 1) + Unscored(ps[1..])
  }

  lemma {:induction false} UnscoredAppend(a: seq<Pipe>, b: seq<Pipe>)
    ensures Unscored(a + b) == Unscored(a) + Unscored(b)
  {
    if a == [] {
      assert a + b == b;
    } else {
      assert (a + b)[0] == a[0];
      assert (a + b)[1..] == a[1..] + b;
      UnscoredAppend(a[1..], b);
    }
  }

  lemma AppendAssoc<T>(a: seq<T>, b: seq<T>, c: seq<T>)
    ensures a + (b + c) == (a + b) + c
  {
  }

  datatype Sweep = Sweep(pipes: seq<Pipe>, score: int, hit: bool)

  /** The backward loop of update: move pipe i, splice it out when it is off
      screen, stop at the first hit, otherwise count it once when passed. */
  function SweepBack(todo: seq<Pipe>, done: seq<Pipe>, score: int, birdY: real): Sweep
    decreases |todo|
  {
    if todo == [] then Sweep(done, score, false)
    else
      var i := |todo| - 1;
      var p := Advance(todo[i]);
      if OffScreen(p) then
        SweepBack(todo[..i], done, score, birdY)
      else if CheckCollision(birdY, p) then
        Sweep(todo[..i] + [p] + done, score, true)
      else if Passed(p) then
        SweepBack(todo[..i], [p.(scored := true)] + done, score + 1, birdY)
      else
        SweepBack(todo[..i], [p] + done, score, birdY)
  }

  /** The score never falls during a sweep, and each point uses up one
      pipe that was not yet counted. */
  lemma {:induction false} SweepScoresOnce(todo: seq<Pipe>, done: seq<Pipe>, score: int, birdY: real)
    ensures var r := SweepBack(todo, done, score, birdY);
      r.score >= score && r.score + Unscored(r.pipes) <= score + Unscored(todo) + Unscored(done)
  {
    if todo != [] {
      var i := |todo| - 1;
      var p := Advance(todo[i]);
      UnscoredAppend(todo[..i], [todo[i]]);
      assert todo == todo[..i] + [todo[i]];
      assert Unscored([todo[i]]) == Unscored([p]) by {
        assert [todo[i]][1..] == [] && [p][1..] == [];
      }
      if OffScreen(p) {
        SweepScoresOnce(todo[..i], done, score, birdY);
      } else if CheckCollision(birdY, p) {
        UnscoredAppend(todo[..i], [p]);
        UnscoredAppend(todo[..i] + [p], done);
      } else if Passed(p) {
        var q := p.(scored := true);
        assert Unscored([q] + done) == Unscored(done) by { assert ([q] + done)[1..] == done; }
        SweepScoresOnce(todo[..i], [q] + done, score + 1, birdY);
      } else {
        assert Unscored([p] + done) == Unscored([p]) + Unscored(done) by {
          assert ([p] + done)[1..] == done;
        }
        SweepScoresOnce(todo[..i], [p] + done, score, birdY);
      }
    }
  }

  /** The sweep keeps only pipes in the shape the game keeps between ticks. */
  lemma {:induction false} SweepKeepsSound(todo: seq<Pipe>, done: seq<Pipe>, score: int, birdY: real)
    requires forall p <- todo + done :: Sound(p)
    ensures forall p <- SweepBack(todo, done, score, birdY).pipes :: Sound(p)
  {
    if todo != [] {
      var i := |todo| - 1;
      var p := Advance(todo[i]);
      assert todo[i] in todo + done;
      assert forall q <- todo[..i] + done :: q in todo + done;
      if OffScreen(p) {
        SweepKeepsSound(todo[..i], done, score, birdY);
      } else if CheckCollision(birdY, p) {
        assert forall q <- todo[..i] + [p] + done :: q in todo[..i] + done || q == p;
      } else if Passed(p) {
        SweepKeepsSound(todo[..i], [p.(scored := true)] + done, score + 1, birdY);
      } else {
        SweepKeepsSound(todo[..i], [p] + done, score, birdY);
      }
    }
  }

  /** On a hit, the pipe that stopped the sweep has moved and every pipe
      below it in the list is left exactly as it was. */
  lemma {:induction false} SweepHitLeavesLowerPipes(todo: seq<Pipe>, done: seq<Pipe>, score: int, birdY: real)
    ensures var r := SweepBack(todo, done, score, birdY);
      r.hit ==> exists k :: 0 <= k < |todo| && k < |r.pipes| && r.pipes[..k] == todo[..k]
                 && r.pipes[k] == Advance(todo[k]) && CheckCollision(birdY, r.pipes[k])
  {
    if todo != [] {
      var i := |todo| - 1;
      var rest := todo[..i];
      var p := Advance(todo[i]);
      var r := SweepBack(todo, done, score, birdY);
      if OffScreen(p) || !CheckCollision(birdY, p) {
        var done' := if OffScreen(p) then done else if Passed(p) then [p.(scored := true)] + done else [p] + done;
        var score' := if !OffScreen(p) && Passed(p) then score + 1 else score;
        assert r == SweepBack(rest, done', score', birdY);
        SweepHitLeavesLowerPipes(rest, done', score', birdY);
        if r.hit {
          var k :| 0 <= k < |rest| && k < |r.pipes| && r.pipes[..k] == rest[..k]
                   && r.pipes[k] == Advance(rest[k]) && CheckCollision(birdY, r.pipes[k]);
          assert rest[..k] == todo[..k] && rest[k] == todo[k];
        }
      } else {
        assert r.pipes == rest + [p] + done;
        assert r.pipes[..i] == todo[..i] && r.pipes[i] == p;
      }
    }
  }

  /** Reference definition of a sweep without a hit: advance every pipe,
      drop those that left the screen, mark those the bird has passed. */
  function Survivors(ps: seq<Pipe>): seq<Pipe>
  {
    if ps == [] then []
    else
      var p := Advance(ps[|ps| - 1]);
      Survivors(ps[..|ps| - 1]) + (if OffScreen(p) then [] else if Passed(p) then [p.(scored := true)] else [p])
  }

  /** Number of pipes a sweep without a hit counts. */
  function Points(ps: seq<Pipe>): nat
  {
    if ps == [] then 0
    else
      var p := Advance(ps[|ps| - 1]);
      Points(ps[..|ps| - 1]) + (if !OffScreen(p) && Passed(p) then 1 else 0)
  }

  /** Some pipe, once moved and still on screen, collides with the bird. */
  predicate Strikes(ps: seq<Pipe>, birdY: real)
  {
    exists k :: 0 <= k < |ps| && !OffScreen(Advance(ps[k])) && CheckCollision(birdY, Advance(ps[k]))
  }

  lemma StrikesSplit(ps: seq<Pipe>, birdY: real)
    requires ps != []
    ensures var i := |ps| - 1; var p := Advance(ps[i]);
      Strikes(ps, birdY) <==> Strikes(ps[..i], birdY) || (!OffScreen(p) && CheckCollision(birdY, p))
  {
    var i := |ps| - 1;
    if Strikes(ps, birdY) {
      var k :| 0 <= k < |ps| && !OffScreen(Advance(ps[k])) && CheckCollision(birdY, Advance(ps[k]));
      if k < i { assert ps[..i][k] == ps[k]; }
    }
    if Strikes(ps[..i], birdY) {
      var k :| 0 <= k < i && !OffScreen(Advance(ps[..i][k])) && CheckCollision(birdY, Advance(ps[..i][k]));
      assert ps[..i][k] == ps[k];
    }
  }

  /** The sweep stops exactly when some on-screen pipe collides; otherwise it
      is the filter-and-mark of Survivors and adds Points. */
  lemma {:induction false} SweepMatchesSurvivors(todo: seq<Pipe>, done: seq<Pipe>, score: int, birdY: real)
    ensures SweepBack(todo, done, score, birdY).hit == Strikes(todo, birdY)
    ensures !Strikes(todo, birdY) ==>
      SweepBack(todo, done, score, birdY) == Sweep(Survivors(todo) + done, score + Points(todo), false)
  {
    if todo != [] {
      var i := |todo| - 1;
      var rest := todo[..i];
      var p := Advance(todo[i]);
      StrikesSplit(todo, birdY);
      if OffScreen(p) {
        assert SweepBack(todo, done, score, birdY) == SweepBack(rest, done, score, birdY);
        assert Survivors(todo) == Survivors(rest) && Points(todo) == Points(rest);
        SweepMatchesSurvivors(rest, done, score, birdY);
      } else if CheckCollision(birdY, p) {
        assert SweepBack(todo, done, score, birdY).hit;
      } else if Passed(p) {
        var q := p.(scored := true);
        assert SweepBack(todo, done, score, birdY) == SweepBack(rest, [q] + done, score + 1, birdY);
        assert Survivors(todo) == Survivors(rest) + [q] && Points(todo) == Points(rest) + 1;
        SweepMatchesSurvivors(rest, [q] + done, score + 1, birdY);
        AppendAssoc(Survivors(rest), [q], done);
      } else {
        assert SweepBack(todo, done, score, birdY) == SweepBack(rest, [p] + done, score, birdY);
        assert Survivors(todo) == Survivors(rest) + [p] && Points(todo) == Points(rest);
        SweepMatchesSurvivors(rest, [p] + done, score, birdY);
        AppendAssoc(Survivors(rest), [p], done);
      }
    }
  }

  /** Survivors removes a pipe exactly when it is off screen after the move. */
  lemma {:induction false} SurvivorsOnScreen(ps: seq<Pipe>)
    ensures |Survivors(ps)| <= |ps|
    ensures forall q <- Survivors(ps) :: !OffScreen(q)
    ensures (forall p <- ps :: !OffScreen(Advance(p))) ==> |Survivors(ps)| == |ps|
  {
    if ps != [] {
      var i := |ps| - 1;
      SurvivorsOnScreen(ps[..i]);
      if forall p <- ps :: !OffScreen(Advance(p)) {
        assert forall p <- ps[..i] :: p in ps;
      }
    }
  }

  // ---------------------------------------------------------------------
  // Vertical motion.

  /** Height and velocity after n running ticks with no flap. */
  function Glide(y: real, v: real, n: nat): (real, real)
  {
    if n == 0 then (y, v)
    else
      var (y', v') := Glide(y, v, n - 1);
      (y' + (v' + Gravity), v' + Gravity)
  }

  /** Closed form of n ticks of `v += g; y += v`. */
  lemma {:induction false} GlideClosedForm(y: real, v: real, n: nat)
    ensures Glide(y, v, n).1 == v + Gravity * n as real
    ensures Glide(y, v, n).0 == y + v * n as real + Gravity * (n as real) * (n as real + 1.0) / 2.0
  {
    if n > 0 {
      GlideClosedForm(y, v, n - 1);
      var m := (n - 1) as real;
      assert n as real == m + 1.0;
      assert v * m + v == v * (m + 1.0);
      assert m * (m + 1.0) / 2.0 + m + 1.0 == (m + 1.0) * (m + 2.0) / 2.0;
    }
  }

  /** From the start height, a flap and one tick give y = 292.5 and v = -7.5;
      thirty more ticks bring the bird back to 300, still on screen. */
  lemma FlapThenFall()
    ensures Glide(StartY, Jump, 1) == (292.5, -7.5)
    ensures Glide(StartY, Jump, 31).0 == StartY
    ensures !OutOfBounds(Glide(StartY, Jump, 31).0)
  {
    GlideClosedForm(StartY, Jump, 1);
    GlideClosedForm(StartY, Jump, 31);
  }

  // ---------------------------------------------------------------------
  // The game state: the script's globals.

  class Game {
    var birdY: real
    var velocity: real
    var pipes: seq<Pipe>
    var score: int
    var gameOver: bool
    var lastPipeSpawn: int
    /** Pipes created since the last reset. */
    ghost var spawned: nat

    /** Each pipe is counted at most once: a point uses up an unscored pipe. */
    ghost predicate Valid()
      reads this
    {
      && 0 <= score
      && score + Unscored(pipes) <= spawned
      && forall p <- pipes :: Sound(p)
    }

    constructor ()
      ensures Valid()
      ensures birdY == StartY && velocity == 0.0 && pipes == [] && score == 0
      ensures !gameOver && lastPipeSpawn == 0
    {
      birdY := StartY;
      velocity := 0.0;
      pipes := [];
      score := 0;
      gameOver := false;
      lastPipeSpawn := 0;
      spawned := 0;
    }

    /** The keydown handler: SPACE flaps while playing and resets when over. */
    method KeyDown(isSpace: bool)
      requires Valid()
      modifies this
      ensures Valid()
      ensures !isSpace ==> unchanged(this)
      ensures isSpace && !old(gameOver) ==>
        velocity == Jump && birdY == old(birdY) && pipes == old(pipes) && score == old(score) && !gameOver
        && lastPipeSpawn == old(lastPipeSpawn)
      ensures isSpace && old(gameOver) ==>
        birdY == StartY && velocity == 0.0 && pipes == [] && score == 0 && !gameOver
        && lastPipeSpawn == old(lastPipeSpawn)
    {
      if isSpace && !gameOver {
        velocity := Jump;
      }
      if isSpace && gameOver {
        ResetGame();
      }
    }

    /** The click handler: flap while playing, reset when over. */
    method Click()
      requires Valid()
      modifies this
      ensures Valid()
      ensures !old(gameOver) ==>
        velocity == Jump && birdY == old(birdY) && pipes == old(pipes) && score == old(score) && !gameOver
        && lastPipeSpawn == old(lastPipeSpawn)
      ensures old(gameOver) ==>
        birdY == StartY && velocity == 0.0 && pipes == [] && score == 0 && !gameOver
        && lastPipeSpawn == old(lastPipeSpawn)
    {
      if !gameOver {
        velocity := Jump;
      } else {
        ResetGame();
      }
    }

    method ResetGame()
      modifies this
      ensures Valid()
      ensures birdY == StartY && velocity == 0.0 && pipes == [] && score == 0 && !gameOver
      ensures lastPipeSpawn == old(lastPipeSpawn)
    {
      birdY := StartY;
      velocity := 0.0;
      pipes := [];
      score := 0;
      gameOver := false;
      spawned := 0;
    }

    method CreatePipe(roll: real)
      requires Valid()
      requires 0.0 <= roll < 1.0
      modifies this
      ensures Valid()
      ensures pipes == old(pipes) + [Pipe(CanvasWidth, PipeHeight(roll), false)]
      ensures birdY == old(birdY) && velocity == old(velocity) && score == old(score)
      ensures gameOver == old(gameOver) && lastPipeSpawn == old(lastPipeSpawn)
    {
      UnscoredAppend(pipes, [Pipe(CanvasWidth, PipeHeight(roll), false)]);
      pipes := pipes + [Pipe(CanvasWidth, PipeHeight(roll), false)];
      spawned := spawned + 1;
    }

    /** One animation frame. `now` is Date.now() and `roll` the Math.random()
        value createPipe would draw. */
    method Update(now: int, roll: real)
      requires Valid()
      requires 0.0 <= roll < 1.0
      modifies this
      ensures Valid()
      ensures old(gameOver) ==> unchanged(this)
      ensures !old(gameOver) ==>
        && velocity == old(velocity) + Gravity
        && birdY == old(birdY) + velocity
        && var spawn := now - old(lastPipeSpawn) > PipeSpawnInterval;
        && lastPipeSpawn == (if spawn then now else old(lastPipeSpawn))
        && var r := SweepBack(old(pipes) + (if spawn then [Pipe(CanvasWidth, PipeHeight(roll), false)] else []),
                              [], old(score), birdY);
        && pipes == r.pipes
        && score == r.score
        && gameOver == (r.hit || OutOfBounds(birdY))
    {
      if gameOver {
        return;
      }
      velocity := velocity + Gravity;
      birdY := birdY + velocity;
      ghost var spawn := now - lastPipeSpawn > PipeSpawnInterval;
      if now - lastPipeSpawn > PipeSpawnInterval {
        CreatePipe(roll);
        lastPipeSpawn := now;
      }
      assert pipes == old(pipes) + (if spawn then [Pipe(CanvasWidth, PipeHeight(roll), false)] else []);
      UpdatePipes();
      // a hit has already returned from the source's loop, skipping this test
      if !gameOver && (birdY < 0.0 || birdY + BirdHeight > CanvasHeight) {
        gameOver := true;
      }
    }

    /** The pipe loop of update, writing its outcome back to the globals. */
    method UpdatePipes()
      requires Valid()
      requires !gameOver
      modifies this
      ensures Valid()
      ensures var r := SweepBack(old(pipes), [], old(score), birdY);
        pipes == r.pipes && score == r.score && gameOver == r.hit
      ensures birdY == old(birdY) && velocity == old(velocity) && lastPipeSpawn == old(lastPipeSpawn)
    {
      assert pipes + [] == pipes;
      SweepScoresOnce(pipes, [], score, birdY);
      SweepKeepsSound(pipes, [], score, birdY);
      assert Unscored([]) == 0;
      pipes, score, gameOver := SweepPipes(pipes, score, birdY);
    }
  }

  /** The list as the iteration at index |rest| finds it, after the move of
      that pipe, after a splice and after marking it scored. */
  lemma VisitPipe(ps: seq<Pipe>, rest: seq<Pipe>, x: Pipe, done: seq<Pipe>)
    requires ps == rest + [x] + done
    ensures var i, p := |rest|, Advance(x);
      && ps[i] == x
      && ps[i := p] == rest + [p] + done
      && ps[i := p][..i] + ps[i := p][i + 1..] == rest + done
      && ps[i := p][i := p.(scored := true)] == rest + [p.(scored := true)] + done
  {
    var i, p := |rest|, Advance(x);
    var q := ps[i := p];
    assert q == rest + [p] + done;
    assert q[..i] == rest && q[i + 1..] == done;
  }

  /** SweepBack visiting the last pipe of rest + [x]. */
  lemma SweepBackLast(rest: seq<Pipe>, x: Pipe, done: seq<Pipe>, score: int, birdY: real)
    ensures var p := Advance(x);
      SweepBack(rest + [x], done, score, birdY) ==
        if OffScreen(p) then SweepBack(rest, done, score, birdY)
        else if CheckCollision(birdY, p) then Sweep(rest + [p] + done, score, true)
        else if Passed(p) then SweepBack(rest, [p.(scored := true)] + done, score + 1, birdY)
        else SweepBack(rest, [p] + done, score, birdY)
  {
    assert (rest + [x])[..|rest|] == rest;
  }

  /** The backward loop of update: `for (i = pipes.length - 1; i >= 0; i--)`
      with a splice for off-screen pipes and a return on the first hit. */
  method SweepPipes(pipes: seq<Pipe>, score: int, birdY: real) returns (ps: seq<Pipe>, points: int, hit: bool)
    ensures Sweep(ps, points, hit) == SweepBack(pipes, [], score, birdY)
  {
    ghost var target := SweepBack(pipes, [], score, birdY);
    assert pipes[..|pipes|] == pipes;
    ps, points, hit := pipes, score, false;
    ghost var done: seq<Pipe> := [];
    var i := |ps| - 1;
    while i >= 0
      invariant -1 <= i < |pipes|
      invariant ps == pipes[..i + 1] + done
      invariant SweepBack(pipes[..i + 1], done, points, birdY) == target
      decreases i
    {
      ghost var rest, p := pipes[..i], Advance(pipes[i]);
      assert pipes[..i + 1] == rest + [pipes[i]];
      VisitPipe(ps, rest, pipes[i], done);
      SweepBackLast(rest, pipes[i], done, points, birdY);
      ps := ps[i := Advance(ps[i])];
      if ps[i].x + PipeWidth < 0.0 {
        ps := ps[..i] + ps[i + 1..];
        i := i - 1;
        continue;
      }
      if CheckCollision(birdY, ps[i]) {
        hit := true;
        return;
      }
      if !ps[i].scored && ps[i].x + PipeWidth < BirdX {
        ps := ps[i := ps[i].(scored := true)];
        points := points + 1;
        done := [p.(scored := true)] + done;
      } else {
        done := [p] + done;
      }
      assert ps == rest + done;
      i := i - 1;
    }
    assert pipes[..0] == [] && ps == done;
  }
}
