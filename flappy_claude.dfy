/** Model of ai_flappyBird/claude_/game.js: pipes spawn when the last one has
    moved far enough, the backward pipe loop keeps going after a hit (so the
    same tick can still score), and the boundary test always runs. */
module FlappyClaude {

  const CanvasWidth: real := 400.0
  const CanvasHeight: real := 600.0
  const BirdX: real := 50.0
  const BirdSize: real := 20.0
  const StartY: real := 300.0     // canvas.height / 2
  const Gravity: real := 0.5
  const Jump: real := -8.0
  const PipeWidth: real := 50.0
  const PipeGap: real := 150.0
  const PipeSpeed: real := 2.0
  const SpawnDistance: real := 200.0   // canvas.width - 200 is the spawn line

  /** One pipe pair: left edge, bottom of the upper pipe, top of the lower
      pipe, and whether it has been counted. */
  datatype Pipe = Pipe(x: real, topHeight: real, bottomY: real, scored: bool)

  /** createPipe from one Math.random() value. */
  function NewPipe(roll: real): (p: Pipe)
    requires 0.0 <= roll < 1.0
    ensures p.x == CanvasWidth && !p.scored
    ensures p.bottomY - p.topHeight == PipeGap && 50.0 <= p.topHeight < 400.0
  {
    var gap := roll * (CanvasHeight - PipeGap - 100.0) + 50.0;
    Pipe(CanvasWidth, gap, gap + PipeGap, false)
  }

  /** The spawn test of update, made before the pipes move. */
  predicate WantsPipe(ps: seq<Pipe>)
  {
    |ps| == 0 || ps[|ps| - 1].x < CanvasWidth - SpawnDistance
  }

  // ---------------------------------------------------------------------
  // The backward pipe loop.

  function Advance(p: Pipe): Pipe { p.(x := p.x - PipeSpeed) }

  predicate OffScreen(p: Pipe) { p.x + PipeWidth < 0.0 }

  /** The collision test inside the loop, on a moved pipe. */
  predicate Collides(birdY: real, p: Pipe)
  {
    BirdX + BirdSize > p.x && BirdX < p.x + PipeWidth &&
    (birdY < p.topHeight || birdY + BirdSize > p.bottomY)
  }

  /** What an iteration leaves of a pipe. */
  function Keep(p: Pipe): seq<Pipe>
  {
    var m := Advance(p);
    if OffScreen(m) then []
    else if !m.scored && BirdX > m.x + PipeWidth then [m.(scored := true)]
    else [m]
  }

  function Gain(p: Pipe): nat
  {
    var m := Advance(p);
    if !OffScreen(m) && !m.scored && BirdX > m.x + PipeWidth then 1 else 0
  }

  /** The iteration for this pipe sets gameOver. */
  predicate Hits(birdY: real, p: Pipe)
  {
    !OffScreen(Advance(p)) && Collides(birdY, Advance(p))
  }

  function Survivors(ps: seq<Pipe>): seq<Pipe>
  {
    if ps == [] then [] else Keep(ps[0]) + Survivors(ps[1..])
  }

  function Points(ps: seq<Pipe>): nat
  {
    if ps == [] then 0 else Gain(ps[0]) + Points(ps[1..])
  }

  predicate Struck(birdY: real, ps: seq<Pipe>)
  {
    ps != [] && (Hits(birdY, ps[0]) || Struck(birdY, ps[1..]))
  }

  function Unscored(ps: seq<Pipe>): nat
  {
    if ps == [] then 0 else (if ps[0].scored then 0 else 1) + Unscored(ps[1..])
  }

  /** The loop's hit flag is set exactly when some pipe, once moved and still
      on screen, collides. */
  lemma {:induction false} StruckIffSomeHit(birdY: real, ps: seq<Pipe>)
    ensures Struck(birdY, ps) <==> exists k :: 0 <= k < |ps| && Hits(birdY, ps[k])
  {
    if ps != [] {
      StruckIffSomeHit(birdY, ps[1..]);
      if exists k :: 0 <= k < |ps| && Hits(birdY, ps[k]) {
        var k :| 0 <= k < |ps| && Hits(birdY, ps[k]);
        if k > 0 { assert ps[1..][k - 1] == ps[k]; }
      }
      if exists k :: 0 <= k < |ps[1..]| && Hits(birdY, ps[1..][k]) {
        var k :| 0 <= k < |ps[1..]| && Hits(birdY, ps[1..][k]);
        assert ps[k + 1] == ps[1..][k];
      }
    }
  }

  /** The loop does not stop at a hit: a pipe the bird has passed still
      scores in the tick in which another pipe is hit. */
  lemma HitStillScores()
    ensures var ps := [Pipe(0.0, 50.0, 200.0, false), Pipe(40.0, 50.0, 200.0, false)];
      Struck(10.0, ps) && Points(ps) == 1
  {
    var ps := [Pipe(0.0, 50.0, 200.0, false), Pipe(40.0, 50.0, 200.0, false)];
    assert ps[1..] == [Pipe(40.0, 50.0, 200.0, false)] && ps[1..][1..] == [];
  }

  lemma {:induction false} UnscoredAppend(a: seq<Pipe>, b: seq<Pipe>)
    ensures Unscored(a + b) == Unscored(a) + Unscored(b)
  {
    if a == [] {
      assert a + b == b;
    } else {
      assert (a + b)[0] == a[0] && (a + b)[1..] == a[1..] + b;
      UnscoredAppend(a[1..], b);
    }
  }

  /** Each point uses up a pipe that was not yet counted. */
  lemma {:induction false} SurvivorsScoreOnce(ps: seq<Pipe>)
    ensures Points(ps) + Unscored(Survivors(ps)) <= Unscored(ps)
  {
    if ps != [] {
      SurvivorsScoreOnce(ps[1..]);
      UnscoredAppend(Keep(ps[0]), Survivors(ps[1..]));
      var k := Keep(ps[0]);
      if k != [] { assert k[1..] == []; }
    }
  }

  /** Every survivor lies beyond any bound all the inputs lay 2 beyond. */
  lemma {:induction false} SurvivorsBeyond(ps: seq<Pipe>, bound: real)
    requires forall q <- ps :: bound + PipeSpeed < q.x
    ensures forall q <- Survivors(ps) :: bound < q.x
  {
    if ps != [] {
      assert forall q <- ps[1..] :: q in ps;
      SurvivorsBeyond(ps[1..], bound);
    }
  }

  /** Pipes are in increasing x order, each more than 200 to the left of
      every later one. */
  predicate Spaced(ps: seq<Pipe>)
  {
    ps == [] || ((forall q <- ps[1..] :: ps[0].x + SpawnDistance < q.x) && Spaced(ps[1..]))
  }

  /** Moving and filtering keeps the spacing. */
  lemma {:induction false} SurvivorsSpaced(ps: seq<Pipe>)
    requires Spaced(ps)
    ensures Spaced(Survivors(ps))
  {
    if ps != [] {
      SurvivorsSpaced(ps[1..]);
      var rest := Survivors(ps[1..]);
      if Keep(ps[0]) != [] {
        var m := Keep(ps[0])[0];
        SurvivorsBeyond(ps[1..], ps[0].x + SpawnDistance - PipeSpeed);
        var r := [m] + rest;
        assert Survivors(ps) == r && r[0] == m && r[1..] == rest;
      } else {
        assert Survivors(ps) == rest;
      }
    }
  }

  /** A spawn appends the new pipe far enough to the right. */
  lemma {:induction false} SpacedAppend(ps: seq<Pipe>, p: Pipe)
    requires Spaced(ps)
    requires forall q <- ps :: q.x + SpawnDistance < p.x
    ensures Spaced(ps + [p])
  {
    if ps == [] {
      assert [p][1..] == [];
    } else {
      assert (ps + [p])[1..] == ps[1..] + [p];
      assert forall q <- ps[1..] :: q in ps;
      SpacedAppend(ps[1..], p);
    }
  }

  /** In a spaced list the last pipe is the rightmost. */
  lemma {:induction false} SpacedLastRightmost(ps: seq<Pipe>)
    requires Spaced(ps) && ps != []
    ensures forall q <- ps :: q.x <= ps[|ps| - 1].x
  {
    if |ps| > 1 {
      SpacedLastRightmost(ps[1..]);
      assert ps[1..][|ps| - 2] == ps[|ps| - 1];
      assert forall q <- ps :: q == ps[0] || q in ps[1..];
    }
  }

  /** The last pipe survives a pass when it does not leave the screen. */
  lemma {:induction false} LastSurvives(ps: seq<Pipe>)
    requires ps != [] && !OffScreen(Advance(ps[|ps| - 1]))
    ensures Survivors(ps) != []
  {
    if |ps| > 1 {
      assert ps[1..][|ps| - 2] == ps[|ps| - 1];
      LastSurvives(ps[1..]);
    }
  }

  /** Shape of a pipe between ticks. */
  predicate Sound(p: Pipe)
  {
    p.bottomY - p.topHeight == PipeGap && 50.0 <= p.topHeight < 400.0 && !OffScreen(p) && p.x <= CanvasWidth
  }

  lemma {:induction false} SurvivorsSound(ps: seq<Pipe>)
    requires forall p <- ps :: Sound(p)
    ensures forall p <- Survivors(ps) :: Sound(p)
  {
    if ps != [] {
      assert forall q <- ps[1..] :: q in ps;
      assert ps[0] in ps;
      SurvivorsSound(ps[1..]);
    }
  }

  /** A pass over the pipes the game holds after the spawn test keeps them
      sound, spaced and non-empty, and counts each pipe at most once. */
  lemma PassKeepsShape(ps: seq<Pipe>, score: int, spawned: nat)
    requires ps != [] && ps[|ps| - 1].x >= CanvasWidth - SpawnDistance
    requires 0 <= score && score + Unscored(ps) <= spawned
    requires (forall p <- ps :: Sound(p)) && Spaced(ps)
    ensures var r := Survivors(ps);
      && 0 <= score + Points(ps) && score + Points(ps) + Unscored(r) <= spawned
      && (forall p <- r :: Sound(p)) && Spaced(r) && r != []
  {
    LastSurvives(ps);
    SurvivorsScoreOnce(ps);
    SurvivorsSound(ps);
    SurvivorsSpaced(ps);
  }

  lemma AppendAssoc<T>(a: seq<T>, b: seq<T>, c: seq<T>)
    ensures a + b + c == a + (b + c)
  {
  }

  /** Taking the last pipe off the end of the list: what it leaves, what it
      scores and whether it is hit. */
  lemma {:induction false} SplitLast(ps: seq<Pipe>, birdY: real)
    requires ps != []
    ensures var i := |ps| - 1;
      && Survivors(ps) == Survivors(ps[..i]) + Keep(ps[i])
      && Points(ps) == Points(ps[..i]) + Gain(ps[i])
      && Struck(birdY, ps) == (Struck(birdY, ps[..i]) || Hits(birdY, ps[i]))
  {
    var i := |ps| - 1;
    if i == 0 {
      assert ps[..i] == [] && ps[1..] == [];
    } else {
      SplitLast(ps[1..], birdY);
      assert ps[1..][..i - 1] == ps[..i][1..];
      assert ps[1..][i - 1] == ps[i];
      assert ps[..i][0] == ps[0];
      AppendAssoc(Keep(ps[0]), Survivors(ps[..i][1..]), Keep(ps[i]));
    }
  }

  /** The loop's outcome is the reference pass: the survivors in order, one
      point per newly passed pipe, and a hit exactly when some moved pipe
      still on screen collides. */
  lemma {:induction false} SweepMatchesSurvivors(todo: seq<Pipe>, done: seq<Pipe>, score: int, hit: bool, birdY: real)
    ensures SweepBack(todo, done, score, hit, birdY)
      == Sweep(Survivors(todo) + done, score + Points(todo), hit || Struck(birdY, todo))
    decreases |todo|
  {
    if todo == [] {
      assert Survivors(todo) + done == done;
    } else {
      var i := |todo| - 1;
      var rest := todo[..i];
      var m := Advance(todo[i]);
      SplitLast(todo, birdY);
      if OffScreen(m) {
        assert Survivors(todo) == Survivors(rest) + [];
        SweepMatchesSurvivors(rest, done, score, hit, birdY);
      } else {
        var hit' := hit || Collides(birdY, m);
        var q := if !m.scored && BirdX > m.x + PipeWidth then m.(scored := true) else m;
        assert Keep(todo[i]) == [q];
        assert SweepBack(todo, done, score, hit, birdY)
          == SweepBack(rest, [q] + done, score + Gain(todo[i]), hit', birdY);
        SweepMatchesSurvivors(rest, [q] + done, score + Gain(todo[i]), hit', birdY);
        AppendAssoc(Survivors(rest), [q], done);
      }
    }
  }

  datatype Sweep = Sweep(pipes: seq<Pipe>, score: int, hit: bool)

  /** The backward loop as a function of the indices still to visit (`todo`,
      visited from the back) and what the visited ones left (`done`). */
  function SweepBack(todo: seq<Pipe>, done: seq<Pipe>, score: int, hit: bool, birdY: real): Sweep
    decreases |todo|
  {
    if todo == [] then Sweep(done, score, hit)
    else
      var i := |todo| - 1;
      var m := Advance(todo[i]);
      if OffScreen(m) then SweepBack(todo[..i], done, score, hit, birdY)
      else
        var hit' := hit || Collides(birdY, m);
        if !m.scored && BirdX > m.x + PipeWidth then
          SweepBack(todo[..i], [m.(scored := true)] + done, score + 1, hit', birdY)
        else
          SweepBack(todo[..i], [m] + done, score, hit', birdY)
  }

  /** The list as the iteration at index |rest| finds it, after the move of
      that pipe, after a splice and after marking it scored. */
  lemma VisitPipe(ps: seq<Pipe>, rest: seq<Pipe>, x: Pipe, done: seq<Pipe>)
    requires ps == rest + [x] + done
    ensures var i, m := |rest|, Advance(x);
      && ps[i] == x
      && ps[i := m] == rest + [m] + done
      && ps[i := m][..i] + ps[i := m][i + 1..] == rest + done
      && ps[i := m][i := m.(scored := true)] == rest + [m.(scored := true)] + done
  {
    var i, m := |rest|, Advance(x);
    var q := ps[i := m];
    assert q == rest + [m] + done;
    assert q[..i] == rest && q[i + 1..] == done;
  }

  /** SweepBack visiting the last pipe of rest + [x]. */
  lemma SweepBackLast(rest: seq<Pipe>, x: Pipe, done: seq<Pipe>, score: int, hit: bool, birdY: real)
    ensures var m := Advance(x); var hit' := hit || Collides(birdY, m);
      SweepBack(rest + [x], done, score, hit, birdY) ==
        if OffScreen(m) then SweepBack(rest, done, score, hit, birdY)
        else if !m.scored && BirdX > m.x + PipeWidth then
          SweepBack(rest, [m.(scored := true)] + done, score + 1, hit', birdY)
        else SweepBack(rest, [m] + done, score, hit', birdY)
  {
    assert (rest + [x])[..|rest|] == rest;
  }

  /** The backward loop of update over a copy of the list: move, splice when
      off screen, flag a collision without stopping, score once. */
  method SweepPipes(pipes: seq<Pipe>, score: int, birdY: real) returns (ps: seq<Pipe>, points: int, hit: bool)
    ensures Sweep(ps, points, hit) == SweepBack(pipes, [], score, false, birdY)
  {
    ghost var target := SweepBack(pipes, [], score, false, birdY);
    assert pipes[..|pipes|] == pipes;
    ps, points, hit := pipes, score, false;
    ghost var done: seq<Pipe> := [];
    var i := |ps| - 1;
    while i >= 0
      invariant -1 <= i < |pipes|
      invariant ps == pipes[..i + 1] + done
      invariant SweepBack(pipes[..i + 1], done, points, hit, birdY) == target
      decreases i
    {
      ghost var rest, m := pipes[..i], Advance(pipes[i]);
      assert pipes[..i + 1] == rest + [pipes[i]];
      VisitPipe(ps, rest, pipes[i], done);
      SweepBackLast(rest, pipes[i], done, points, hit, birdY);
      ps := ps[i := Advance(ps[i])];
      if ps[i].x + PipeWidth < 0.0 {
        ps := ps[..i] + ps[i + 1..];
        i := i - 1;
        continue;
      }
      hit := hit || Collides(birdY, ps[i]);
      if !ps[i].scored && BirdX > ps[i].x + PipeWidth {
        points := points + 1;
        ps := ps[i := ps[i].(scored := true)];
        done := [m.(scored := true)] + done;
      } else {
        done := [m] + done;
      }
      assert ps == rest + done;
      i := i - 1;
    }
    assert pipes[..0] == [] && ps == done;
  }

  // ---------------------------------------------------------------------
  // The game state.

  class Game {
    var birdY: real
    var velocity: real
    var pipes: seq<Pipe>
    var score: int
    var gameOver: bool
    /** Pipes created since the last reset. */
    ghost var spawned: nat

    /** Each pipe is counted at most once, pipes are well formed and more
        than 200 apart, in order. */
    ghost predicate Valid()
      reads this
    {
      && 0 <= score
      && score + Unscored(pipes) <= spawned
      && (forall p <- pipes :: Sound(p))
      && Spaced(pipes)
    }

    constructor ()
      ensures Valid()
      ensures birdY == StartY && velocity == 0.0 && pipes == [] && score == 0 && !gameOver
    {
      birdY := StartY;
      velocity := 0.0;
      pipes := [];
      score := 0;
      gameOver := false;
      spawned := 0;
    }

    /** Both the SPACE key and a click: reset when over, flap otherwise. */
    method Input()
      requires Valid()
      modifies this
      ensures Valid()
      ensures old(gameOver) ==> birdY == StartY && velocity == 0.0 && pipes == [] && score == 0 && !gameOver
      ensures !old(gameOver) ==>
        velocity == Jump && birdY == old(birdY) && pipes == old(pipes) && score == old(score) && !gameOver
    {
      if gameOver {
        ResetGame();
      } else {
        velocity := Jump;
      }
    }

    method ResetGame()
      modifies this
      ensures Valid()
      ensures birdY == StartY && velocity == 0.0 && pipes == [] && score == 0 && !gameOver
    {
      birdY := StartY;
      velocity := 0.0;
      pipes := [];
      score := 0;
      gameOver := false;
      spawned := 0;
    }

    method CreatePipe(roll: real)
      requires Valid()
      requires 0.0 <= roll < 1.0
      requires WantsPipe(pipes)
      modifies this
      ensures Valid()
      ensures pipes == old(pipes) + [NewPipe(roll)]
      ensures birdY == old(birdY) && velocity == old(velocity) && score == old(score) && gameOver == old(gameOver)
    {
      var p := NewPipe(roll);
      if pipes != [] {
        SpacedLastRightmost(pipes);
      }
      SpacedAppend(pipes, p);
      UnscoredAppend(pipes, [p]);
      assert [p][1..] == [];
      pipes := pipes + [p];
      spawned := spawned + 1;
    }

    /** The pipe loop of update, writing its outcome back. */
    method UpdatePipes()
      requires Valid()
      requires pipes != [] && pipes[|pipes| - 1].x >= CanvasWidth - SpawnDistance
      modifies this
      ensures Valid()
      ensures pipes == Survivors(old(pipes)) && score == old(score) + Points(old(pipes))
      ensures gameOver == Struck(birdY, old(pipes)) && pipes != []
      ensures birdY == old(birdY) && velocity == old(velocity)
    {
      PassKeepsShape(pipes, score, spawned);
      SweepMatchesSurvivors(pipes, [], score, false, birdY);
      assert Survivors(pipes) + [] == Survivors(pipes);
      var hit;
      pipes, score, hit := SweepPipes(pipes, score, birdY);
      gameOver := hit;
    }

    /** One frame; `roll` is the Math.random() value createPipe would draw. */
    method Update(roll: real)
      requires Valid()
      requires 0.0 <= roll < 1.0
      modifies this
      ensures Valid()
      ensures old(gameOver) ==> unchanged(this)
      ensures !old(gameOver) ==>
        && velocity == old(velocity) + Gravity
        && birdY == old(birdY) + velocity
        && var incoming := old(pipes) + (if WantsPipe(old(pipes)) then [NewPipe(roll)] else []);
        && pipes == Survivors(incoming)
        && score == old(score) + Points(incoming)
        && gameOver == (Struck(birdY, incoming) || birdY < 0.0 || birdY + BirdSize > CanvasHeight)
        && pipes != []
    {
      if gameOver {
        return;
      }
      velocity := velocity + Gravity;
      birdY := birdY + velocity;
      ghost var incoming := pipes + (if WantsPipe(pipes) then [NewPipe(roll)] else []);
      if pipes == [] || pipes[|pipes| - 1].x < CanvasWidth - SpawnDistance {
        CreatePipe(roll);
      }
      assert pipes == incoming;
      UpdatePipes();
      if birdY < 0.0 || birdY + BirdSize > CanvasHeight {
        gameOver := true;
      }
    }
  }
}
