/** Model of ai_flappyBird/copilot/online-game-project/src/game.js: a bird
    with gravity 0.25 and flap -6, pipe pairs stored as two entries, no pipe
    collision at all, and a forEach loop that splices entries out of the list
    it is walking, so the entry after a removed one is not visited. */
module FlappyOnline {

  const CanvasWidth: real := 400.0
  const CanvasHeight: real := 600.0
  const BirdHeight: real := 24.0
  const StartY: real := 300.0     // canvas.height / 2
  const Gravity: real := 0.25
  const Jump: real := -6.0
  const PipeWidth: real := 50.0
  const PipeGap: real := 100.0
  const PipeSpeed: real := 2.0
  const SpawnInterval: int := 1500

  /** One list entry: a rectangle at (x, y) of the given height. */
  datatype Entry = Entry(x: real, y: real, height: real)

  /** The height of the upper entry spawnPipe draws from one Math.random(). */
  function PipeHeight(roll: real): (h: real)
    requires 0.0 <= roll < 1.0
    ensures 20.0 <= h < 500.0
  {
    roll * (CanvasHeight - PipeGap - 20.0) + 20.0
  }

  /** spawnPipe's two entries: the upper one from the top edge, the lower one
      from the end of the gap to the floor. */
  function NewPair(roll: real): (es: seq<Entry>)
    requires 0.0 <= roll < 1.0
    ensures |es| == 2 && es[0].x == es[1].x == CanvasWidth
    ensures es[0].y == 0.0 && es[1].y == es[0].height + PipeGap
    ensures es[0].height + PipeGap + es[1].height == CanvasHeight
  {
    var h := PipeHeight(roll);
    [Entry(CanvasWidth, 0.0, h), Entry(CanvasWidth, h + PipeGap, CanvasHeight - h - PipeGap)]
  }

  /** The boundary test of updateGame: touching the floor or the top edge
      counts. */
  predicate OutOfBounds(birdY: real)
  {
    birdY + BirdHeight >= CanvasHeight || birdY <= 0.0
  }

  // ---------------------------------------------------------------------
  // The forEach-with-splice pass.

  function Advance(e: Entry): Entry { e.(x := e.x - PipeSpeed) }

  predicate OffScreen(e: Entry) { e.x + PipeWidth < 0.0 }

  /** What the pass leaves of a list, read from the front: a moved entry that
      has left the screen is removed, and the entry after it slides into the
      visited index and stays where it was. */
  function AfterPass(es: seq<Entry>): seq<Entry>
  {
    if es == [] then []
    else if OffScreen(Advance(es[0])) then
      if |es| == 1 then [] else [es[1]] + AfterPass(es[2..])
    else [Advance(es[0])] + AfterPass(es[1..])
  }

  /** Number of entries the pass removes, each worth one point. */
  function Removed(es: seq<Entry>): nat
  {
    if es == [] then 0
    else if OffScreen(Advance(es[0])) then
      if |es| == 1 then 1 else 1 + Removed(es[2..])
    else Removed(es[1..])
  }

  /** Every entry is either kept or removed and scored: none is lost and
      none is counted twice. */
  lemma {:induction false} PassAccountsForEveryEntry(es: seq<Entry>)
    ensures |AfterPass(es)| + Removed(es) == |es|
    decreases |es|
  {
    if es != [] {
      if OffScreen(Advance(es[0])) {
        if |es| > 1 {
          PassAccountsForEveryEntry(es[2..]);
        }
      } else {
        PassAccountsForEveryEntry(es[1..]);
      }
    }
  }

  /** The skip: when both entries of a pair have left the screen, the pass
      removes the first, scores 1 and leaves the second in place, unmoved. */
  lemma SecondEntrySkipped(x: real, h: real)
    requires x - PipeSpeed + PipeWidth < 0.0
    ensures var es := [Entry(x, 0.0, h), Entry(x, h + PipeGap, CanvasHeight - h - PipeGap)];
      AfterPass(es) == [es[1]] && Removed(es) == 1
  {
    var es := [Entry(x, 0.0, h), Entry(x, h + PipeGap, CanvasHeight - h - PipeGap)];
    assert es[2..] == [];
  }

  /** No entry moves right: a bound on every x before the pass bounds every
      x after it. */
  lemma {:induction false} PassNeverMovesRight(es: seq<Entry>, bound: real)
    requires forall e <- es :: e.x <= bound
    ensures forall e <- AfterPass(es) :: e.x <= bound
    decreases |es|
  {
    if es != [] {
      assert forall e <- es[1..] :: e in es;
      if OffScreen(Advance(es[0])) {
        if |es| > 1 {
          assert es[1] in es;
          assert forall e <- es[2..] :: e in es;
          PassNeverMovesRight(es[2..], bound);
        }
      } else {
        PassNeverMovesRight(es[1..], bound);
      }
    }
  }

  /** Index k keeps its moved entry: the walk goes on at k + 1. */
  lemma MoveStep(ps: seq<Entry>, k: nat)
    requires k < |ps| && !OffScreen(Advance(ps[k]))
    ensures var q := ps[k := Advance(ps[k])];
      && q[..k + 1] + AfterPass(q[k + 1..]) == ps[..k] + AfterPass(ps[k..])
      && Removed(q[k + 1..]) == Removed(ps[k..])
  {
    var q := ps[k := Advance(ps[k])];
    assert ps[k..][1..] == q[k + 1..];
    assert q[..k + 1] == ps[..k] + [Advance(ps[k])];
  }

  /** Index k is spliced out: the entry after it slides down to k and the
      walk, moving on to k + 1, passes over it. */
  lemma SpliceStep(ps: seq<Entry>, k: nat)
    requires k < |ps| && OffScreen(Advance(ps[k]))
    ensures var q := ps[k := Advance(ps[k])]; var r := q[..k] + q[k + 1..];
      && (k + 1 <= |r| ==> r[..k + 1] + AfterPass(r[k + 1..]) == ps[..k] + AfterPass(ps[k..]))
      && (k + 1 <= |r| ==> Removed(r[k + 1..]) + 1 == Removed(ps[k..]))
      && (k + 1 > |r| ==> r == ps[..k] + AfterPass(ps[k..]) && Removed(ps[k..]) == 1)
  {
    var q := ps[k := Advance(ps[k])];
    var r := q[..k] + q[k + 1..];
    var rest := ps[k..];
    assert r == ps[..k] + rest[1..];
    if |rest| > 1 {
      assert r[..k + 1] == ps[..k] + [rest[1]];
      assert r[k + 1..] == rest[2..];
    }
  }

  /** `pipes.forEach((pipe, index) => ...)` over a copy of the list: the
      length is read once, an index past the current end is skipped, and a
      splice shifts the rest of the list down under the walk. */
  method ForEachSplice(pipes: seq<Entry>, score: int) returns (ps: seq<Entry>, points: int)
    ensures ps == AfterPass(pipes) && points == score + Removed(pipes)
  {
    ps, points := pipes, score;
    var len := |pipes|;
    var k := 0;
    while k < len
      invariant 0 <= k <= len && |ps| <= len
      invariant k <= |ps| ==> AfterPass(pipes) == ps[..k] + AfterPass(ps[k..])
      invariant k <= |ps| ==> score + Removed(pipes) == points + Removed(ps[k..])
      invariant k > |ps| ==> AfterPass(pipes) == ps && points == score + Removed(pipes)
      decreases len - k
    {
      if k < |ps| {
        ghost var ps0 := ps;
        ps := ps[k := Advance(ps[k])];
        if ps[k].x + PipeWidth < 0.0 {
          ps := ps[..k] + ps[k + 1..];
          points := points + 1;
          SpliceStep(ps0, k);
        } else {
          MoveStep(ps0, k);
        }
      }
      k := k + 1;
    }
    if k <= |ps| {
      assert ps[..k] == ps && ps[k..] == [];
    }
  }

  // ---------------------------------------------------------------------
  // The game state.

  class Game {
    var birdY: real
    var velocity: real
    var pipes: seq<Entry>
    var score: int
    var gameOver: bool
    var lastPipeSpawn: int
    /** Entries created since the last reset. */
    ghost var spawned: nat

    /** Every entry created is either still in the list or has been removed
        and scored exactly once. */
    ghost predicate Valid()
      reads this
    {
      score + |pipes| == spawned && 0 <= score
    }

    constructor ()
      ensures Valid()
      ensures birdY == StartY && velocity == 0.0 && pipes == [] && score == 0
      ensures !gameOver && lastPipeSpawn == 0
    {
      birdY := StartY;
      velocity := 0.0;
      pipes := [];
      score := 0;
      gameOver := false;
      lastPipeSpawn := 0;
      spawned := 0;
    }

    /** The keydown handler. */
    method KeyDown(isSpace: bool)
      requires Valid()
      modifies this
      ensures Valid()
      ensures !isSpace ==> unchanged(this)
      ensures isSpace && old(gameOver) ==>
        birdY == StartY && velocity == 0.0 && pipes == [] && score == 0 && !gameOver && lastPipeSpawn == 0
      ensures isSpace && !old(gameOver) ==>
        velocity == Jump && birdY == old(birdY) && pipes == old(pipes) && score == old(score)
        && !gameOver && lastPipeSpawn == old(lastPipeSpawn)
    {
      if isSpace {
        if gameOver {
          birdY := StartY;
          velocity := 0.0;
          pipes := [];
          score := 0;
          gameOver := false;
          lastPipeSpawn := 0;
          spawned := 0;
        } else {
          velocity := Jump;
        }
      }
    }

    method SpawnPipe(roll: real)
      requires Valid()
      requires 0.0 <= roll < 1.0
      modifies this
      ensures Valid()
      ensures pipes == old(pipes) + NewPair(roll)
      ensures birdY == old(birdY) && velocity == old(velocity) && score == old(score)
      ensures gameOver == old(gameOver) && lastPipeSpawn == old(lastPipeSpawn)
    {
      pipes := pipes + NewPair(roll);
      spawned := spawned + 2;
    }

    /** One frame. Date.now() is read twice, as `now` for the spawn test and
        `later` for the new spawn time; `roll` is the Math.random() value
        spawnPipe would draw. */
    method UpdateGame(now: int, later: int, roll: real)
      requires Valid()
      requires 0.0 <= roll < 1.0
      modifies this
      ensures Valid()
      ensures old(gameOver) ==> unchanged(this)
      ensures !old(gameOver) ==>
        && velocity == old(velocity) + Gravity
        && birdY == old(birdY) + velocity
        && gameOver == OutOfBounds(birdY)
        && var spawn := now - old(lastPipeSpawn) > SpawnInterval;
        && lastPipeSpawn == (if spawn then later else old(lastPipeSpawn))
        && var incoming := old(pipes) + (if spawn then NewPair(roll) else []);
        && pipes == AfterPass(incoming)
        && score == old(score) + Removed(incoming)
    {
      if gameOver {
        return;
      }
      velocity := velocity + Gravity;
      birdY := birdY + velocity;
      if birdY + BirdHeight >= CanvasHeight || birdY <= 0.0 {
        gameOver := true;
      }
      ghost var incoming := old(pipes) + (if now - old(lastPipeSpawn) > SpawnInterval then NewPair(roll) else []);
      if now - lastPipeSpawn > SpawnInterval {
        SpawnPipe(roll);
        lastPipeSpawn := later;
      }
      assert pipes == incoming;
      PassAccountsForEveryEntry(pipes);
      pipes, score := ForEachSplice(pipes, score);
    }
  }
}
