/** Model of ai_flappyBird/copilot/game.js: each pipe pair is stored as two
    list entries (the upper and the lower pipe), each entry scores half a
    point, collisions are an inclusive box test, and the pipe loop runs
    backwards with a splice. */
module FlappyCopilot {

  const CanvasWidth: real := 400.0
  const CanvasHeight: int := 600
  const BirdX: real := 50.0
  const BirdWidth: real := 30.0
  const BirdHeight: real := 24.0
  const StartY: real := 300.0     // canvas.height / 2
  const Gravity: real := 0.5
  const Jump: real := -8.0
  const PipeWidth: real := 50.0
  const PipeGap: int := 150
  const PipeSpeed: real := 2.0
  const PipeSpawnInterval: int := 1500
  const MinHeight: int := 50
  const MaxHeight: int := 400     // canvas.height - pipeGap - minHeight

  /** One list entry: a rectangle of width 50 at (x, y) of the given height.
      The lower entry is created without a `passed` field; reading it gives
      `undefined`, which the model writes as false. */
  datatype Entry = Entry(x: real, y: int, height: int, passed: bool)

  function PipeHeight(roll: real): (h: int)
    requires 0.0 <= roll < 1.0
    ensures MinHeight <= h <= MaxHeight
  {
    (roll * (MaxHeight - MinHeight + 1) as real).Floor + MinHeight
  }

  function Upper(h: int): Entry { Entry(CanvasWidth, 0, h, false) }

  function Lower(h: int): Entry { Entry(CanvasWidth, h + PipeGap, CanvasHeight - h - PipeGap, false) }

  /** The two entries of one pair: same column, same flag, the upper one
      from the top edge down to h, the lower one from h + 150 to the floor. */
  predicate PairOk(a: Entry, b: Entry)
  {
    && a.x == b.x && a.passed == b.passed
    && a.y == 0 && MinHeight <= a.height <= MaxHeight
    && b.y == a.height + PipeGap && b.y + b.height == CanvasHeight
  }

  /** The list is a sequence of well-formed pairs. */
  predicate Paired(ps: seq<Entry>)
    decreases |ps|
  {
    ps == [] || (|ps| >= 2 && PairOk(ps[0], ps[1]) && Paired(ps[2..]))
  }

  /** createPipe's two entries form a pair whose heights and gap fill the
      canvas. */
  lemma CreatedPairOk(roll: real)
    requires 0.0 <= roll < 1.0
    ensures var h := PipeHeight(roll);
      PairOk(Upper(h), Lower(h)) && Upper(h).height + PipeGap + Lower(h).height == CanvasHeight
  {
  }

  lemma {:induction false} PairedAppend(ps: seq<Entry>, a: Entry, b: Entry)
    requires Paired(ps) && PairOk(a, b)
    ensures Paired(ps + [a, b])
    decreases |ps|
  {
    if ps == [] {
      assert ps + [a, b] == [a, b] && [a, b][2..] == [];
    } else {
      assert (ps + [a, b])[2..] == ps[2..] + [a, b];
      PairedAppend(ps[2..], a, b);
    }
  }

  // ---------------------------------------------------------------------
  // checkCollision

  /** The negated separating-axis test of checkCollision: edges that touch
      count as a hit. */
  predicate HitsEntry(birdY: real, e: Entry)
  {
    !(BirdX + BirdWidth < e.x || BirdX > e.x + PipeWidth ||
      birdY + BirdHeight < e.y as real || birdY > (e.y + e.height) as real)
  }

  /** `pipes.some(...)` */
  predicate CheckCollision(birdY: real, ps: seq<Entry>)
  {
    exists k :: 0 <= k < |ps| && HitsEntry(birdY, ps[k])
  }

  /** For a bird on screen in a pair's column, neither entry is hit exactly
      when the bird lies strictly inside the gap: touching a pipe's edge is a
      hit. */
  lemma GapIsOpen(birdY: real, a: Entry, b: Entry)
    requires PairOk(a, b)
    requires BirdX + BirdWidth >= a.x && BirdX <= a.x + PipeWidth
    requires 0.0 <= birdY && birdY + BirdHeight <= CanvasHeight as real
    ensures !HitsEntry(birdY, a) && !HitsEntry(birdY, b) <==>
      a.height as real < birdY && birdY + BirdHeight < (a.height + PipeGap) as real
  {
  }

  // ---------------------------------------------------------------------
  // The backward pipe loop.

  function Advance(e: Entry): Entry { e.(x := e.x - PipeSpeed) }

  /** What one loop iteration leaves of an entry: nothing when it has left
      the screen, else the moved entry, marked once the bird is past it. */
  function Keep(e: Entry): seq<Entry>
  {
    var m := Advance(e);
    if m.x + PipeWidth < 0.0 then []
    else if !m.passed && m.x + PipeWidth < BirdX then [m.(passed := true)]
    else [m]
  }

  /** 1 when the iteration adds half a point for the entry. */
  function Gain(e: Entry): nat
  {
    var m := Advance(e);
    if m.x + PipeWidth >= 0.0 && !m.passed && m.x + PipeWidth < BirdX then 1 else 0
  }

  function Survivors(ps: seq<Entry>): seq<Entry>
  {
    if ps == [] then [] else Keep(ps[0]) + Survivors(ps[1..])
  }

  /** Number of half points a pass over the list adds. */
  function Halves(ps: seq<Entry>): nat
  {
    if ps == [] then 0 else Gain(ps[0]) + Halves(ps[1..])
  }

  /** The score a pass adds: half a point for each of n entries. */
  function HalfPoints(n: nat): real { 0.5 * n as real }

  function Unpassed(ps: seq<Entry>): nat
  {
    if ps == [] then 0 else (if ps[0].passed then 0 else 1) + Unpassed(ps[1..])
  }

  /** The survivors are the entries still on screen after the move, in their
      order, and there are at most as many of them. */
  lemma {:induction false} SurvivorsOnScreen(ps: seq<Entry>)
    ensures |Survivors(ps)| <= |ps|
    ensures forall e <- Survivors(ps) :: e.x + PipeWidth >= 0.0
    ensures (forall e <- ps :: e.x - PipeSpeed + PipeWidth >= 0.0) ==> |Survivors(ps)| == |ps|
  {
    if ps != [] {
      SurvivorsOnScreen(ps[1..]);
      assert forall e <- ps[1..] :: e in ps;
    }
  }

  /** Every half point uses up an entry that had not been passed. */
  lemma {:induction false} SurvivorsScoreOnce(ps: seq<Entry>)
    ensures Halves(ps) + Unpassed(Survivors(ps)) <= Unpassed(ps)
  {
    if ps != [] {
      SurvivorsScoreOnce(ps[1..]);
      UnpassedAppend(Keep(ps[0]), Survivors(ps[1..]));
      var k := Keep(ps[0]);
      if k != [] { assert k[1..] == []; }
    }
  }

  lemma {:induction false} UnpassedAppend(a: seq<Entry>, b: seq<Entry>)
    ensures Unpassed(a + b) == Unpassed(a) + Unpassed(b)
  {
    if a == [] {
      assert a + b == b;
    } else {
      assert (a + b)[0] == a[0] && (a + b)[1..] == a[1..] + b;
      UnpassedAppend(a[1..], b);
    }
  }

  /** The two entries of a pair have the same column and flag, so one
      iteration treats them alike. */
  lemma KeepPair(a: Entry, b: Entry)
    requires PairOk(a, b)
    ensures |Keep(a)| == |Keep(b)| && Gain(a) == Gain(b)
    ensures Keep(a) != [] ==> PairOk(Keep(a)[0], Keep(b)[0])
  {
  }

  /** Both entries of a pair move, leave and score together, so a pass over a
      paired list leaves it paired and adds a whole number of points: each
      pair is worth 0.5 + 0.5. */
  lemma {:induction false} PairsStayTogether(ps: seq<Entry>)
    requires Paired(ps)
    ensures Paired(Survivors(ps))
    ensures Halves(ps) % 2 == 0
    decreases |ps|
  {
    if ps != [] {
      var a, b, tail := ps[0], ps[1], ps[2..];
      PairsStayTogether(tail);
      KeepPair(a, b);
      FirstTwo(ps);
      var rest := Survivors(tail);
      if Keep(a) != [] {
        assert Keep(a) == [Keep(a)[0]] && Keep(b) == [Keep(b)[0]];
        PairedCons(Keep(a)[0], Keep(b)[0], rest);
      } else {
        assert Survivors(ps) == rest;
      }
    }
  }

  /** Survivors and Halves of a list of two or more entries, two at a time. */
  lemma FirstTwo(ps: seq<Entry>)
    requires |ps| >= 2
    ensures Survivors(ps) == Keep(ps[0]) + Keep(ps[1]) + Survivors(ps[2..])
    ensures Halves(ps) == Gain(ps[0]) + Gain(ps[1]) + Halves(ps[2..])
  {
    assert ps[1..][1..] == ps[2..];
  }

  /** A pair in front of a paired list gives a paired list. */
  lemma PairedCons(a: Entry, b: Entry, rest: seq<Entry>)
    requires PairOk(a, b) && Paired(rest)
    ensures Paired([a] + [b] + rest)
  {
    assert ([a] + [b] + rest)[2..] == rest;
  }

  /** Visiting index i puts Keep(pipes[i]) in front of what the later
      indices left. */
  lemma SweepStep(pipes: seq<Entry>, i: nat)
    requires i < |pipes|
    ensures Survivors(pipes[i..]) == Keep(pipes[i]) + Survivors(pipes[i + 1..])
    ensures Halves(pipes[i..]) == Gain(pipes[i]) + Halves(pipes[i + 1..])
  {
    assert pipes[i..][1..] == pipes[i + 1..];
  }

  /** Removing or replacing the middle element of a + [x] + b. */
  lemma Splice<T>(a: seq<T>, x: T, b: seq<T>, y: T)
    ensures var s := a + [x] + b;
      s[|a|] == x && s[..|a|] + s[|a| + 1..] == a + b && s[|a| := y] == a + [y] + b
  {
    var s := a + [x] + b;
    assert s[..|a|] == a && s[|a| + 1..] == b;
  }

  /** The list as one iteration at index |a| finds it, a + [m] + done, and
      what each of its three branches makes of it. */
  lemma SweepBody(ps: seq<Entry>, a: seq<Entry>, m: Entry, done: seq<Entry>)
    requires ps == a + [m] + done
    ensures ps[|a|] == m
    ensures ps[..|a|] + ps[|a| + 1..] == a + done
    ensures ps[|a| := Advance(m).(passed := true)] == a + [Advance(m).(passed := true)] + done
    ensures ps[|a| := Advance(m)] == a + [Advance(m)] + done
  {
    Splice(a, m, done, Advance(m).(passed := true));
    Splice(a, m, done, Advance(m));
  }

  /** The body of the loop at index i, when the entries above i have been
      visited: move the entry, splice it out once it has left the screen,
      else mark it and add half a point the first time the bird is past it. */
  method VisitEntry(ps: seq<Entry>, s: real, ghost pipes: seq<Entry>, i: nat) returns (qs: seq<Entry>, s': real)
    requires i < |pipes| && ps == pipes[..i + 1] + Survivors(pipes[i + 1..])
    ensures qs == pipes[..i] + Survivors(pipes[i..])
    ensures s' == s + HalfPoints(Gain(pipes[i]))
  {
    ghost var done := Survivors(pipes[i + 1..]);
    assert ps == pipes[..i] + [pipes[i]] + done by {
      assert pipes[..i + 1] == pipes[..i] + [pipes[i]];
    }
    SweepStep(pipes, i);
    SweepBody(ps, pipes[..i], pipes[i], done);
    var e := ps[i].(x := ps[i].x - PipeSpeed);
    s' := s;
    if e.x + PipeWidth < 0.0 {
      qs := ps[..i] + ps[i + 1..];
    } else if !e.passed && e.x + PipeWidth < BirdX {
      qs := ps[i := e.(passed := true)];
      s' := s + 0.5;
    } else {
      qs := ps[i := e];
    }
  }

  /** `for (let i = pipes.length - 1; i >= 0; i--)`, over a copy of the list. */
  method SweepEntries(pipes: seq<Entry>, score: real) returns (ps: seq<Entry>, s: real)
    ensures ps == Survivors(pipes)
    ensures s == score + HalfPoints(Halves(pipes))
  {
    ps, s := pipes, score;
    assert pipes[|pipes|..] == [] && pipes[..|pipes|] == pipes;
    for i := |pipes| downto 0
      invariant ps == pipes[..i] + Survivors(pipes[i..])
      invariant s == score + HalfPoints(Halves(pipes[i..]))
    {
      ps, s := VisitEntry(ps, s, pipes, i);
      SweepStep(pipes, i);
    }
    assert pipes[0..] == pipes;
  }

  // ---------------------------------------------------------------------
  // The game state.

  class Game {
    var birdY: real
    var velocity: real
    var pipes: seq<Entry>
    var score: real
    var gameOver: bool
    var lastPipeSpawn: int
    /** Pipe pairs created since the last reset, and points earned. */
    ghost var spawned: nat
    ghost var points: nat

    /** The list is made of whole pairs, the score is a whole number, and no
        pair has been counted twice. */
    ghost predicate Valid()
      reads this
    {
      && Paired(pipes)
      && score == points as real
      && 2 * points + Unpassed(pipes) <= 2 * spawned
    }

    constructor ()
      ensures Valid()
      ensures birdY == StartY && velocity == 0.0 && pipes == [] && score == 0.0
      ensures !gameOver && lastPipeSpawn == 0
    {
      birdY := StartY;
      velocity := 0.0;
      pipes := [];
      score := 0.0;
      gameOver := false;
      lastPipeSpawn := 0;
      spawned := 0;
      points := 0;
    }

    /** The keydown handler: SPACE resets a finished game, otherwise flaps. */
    method KeyDown(isSpace: bool)
      requires Valid()
      modifies this
      ensures Valid()
      ensures !isSpace ==> unchanged(this)
      ensures isSpace && old(gameOver) ==>
        birdY == StartY && velocity == 0.0 && pipes == [] && score == 0.0 && !gameOver && lastPipeSpawn == 0
      ensures isSpace && !old(gameOver) ==>
        velocity == Jump && birdY == old(birdY) && pipes == old(pipes) && score == old(score)
        && !gameOver && lastPipeSpawn == old(lastPipeSpawn)
    {
      if isSpace {
        if gameOver {
          birdY := StartY;
          velocity := 0.0;
          pipes := [];
          score := 0.0;
          gameOver := false;
          lastPipeSpawn := 0;
          spawned := 0;
          points := 0;
        } else {
          velocity := Jump;
        }
      }
    }

    method CreatePipe(roll: real)
      requires Valid()
      requires 0.0 <= roll < 1.0
      modifies this
      ensures Valid()
      ensures var h := PipeHeight(roll); pipes == old(pipes) + [Upper(h), Lower(h)]
      ensures birdY == old(birdY) && velocity == old(velocity) && score == old(score)
      ensures gameOver == old(gameOver) && lastPipeSpawn == old(lastPipeSpawn)
    {
      var h := PipeHeight(roll);
      PairedAppend(pipes, Upper(h), Lower(h));
      UnpassedAppend(pipes, [Upper(h), Lower(h)]);
      assert Unpassed([Upper(h), Lower(h)]) == 2 by {
        assert [Upper(h), Lower(h)][1..] == [Lower(h)] && [Lower(h)][1..] == [];
        assert Unpassed([Lower(h)]) == 1;
      }
      pipes := pipes + [Upper(h), Lower(h)];
      spawned := spawned + 1;
    }

    /** The pipe loop of updateGame, writing its outcome back. */
    method UpdatePipes()
      requires Valid()
      modifies this
      ensures Valid()
      ensures pipes == Survivors(old(pipes)) && score == old(score) + HalfPoints(Halves(old(pipes)))
      ensures birdY == old(birdY) && velocity == old(velocity)
      ensures gameOver == old(gameOver) && lastPipeSpawn == old(lastPipeSpawn)
    {
      PairsStayTogether(pipes);
      SurvivorsScoreOnce(pipes);
      points := points + Halves(pipes) / 2;
      pipes, score := SweepEntries(pipes, score);
    }

    /** One animation frame; `timestamp` is the frame time and `roll` the
        Math.random() value createPipe would draw. */
    method UpdateGame(timestamp: int, roll: real)
      requires Valid()
      requires 0.0 <= roll < 1.0
      modifies this
      ensures Valid()
      ensures old(gameOver) ==> unchanged(this)
      ensures !old(gameOver) ==>
        && velocity == old(velocity) + Gravity
        && birdY == old(birdY) + velocity
        && var spawn := timestamp - old(lastPipeSpawn) > PipeSpawnInterval;
        && lastPipeSpawn == (if spawn then timestamp else old(lastPipeSpawn))
        && var h := PipeHeight(roll);
        && var incoming := old(pipes) + (if spawn then [Upper(h), Lower(h)] else []);
        && pipes == Survivors(incoming)
        && score == old(score) + HalfPoints(Halves(incoming))
        && gameOver == (CheckCollision(birdY, pipes) || birdY < 0.0 || birdY + BirdHeight > CanvasHeight as real)
    {
      if gameOver {
        return;
      }
      velocity := velocity + Gravity;
      birdY := birdY + velocity;
      ghost var incoming := pipes + (if timestamp - lastPipeSpawn > PipeSpawnInterval
                                     then [Upper(PipeHeight(roll)), Lower(PipeHeight(roll))] else []);
      if timestamp - lastPipeSpawn > PipeSpawnInterval {
        CreatePipe(roll);
        lastPipeSpawn := timestamp;
      }
      assert pipes == incoming;
      UpdatePipes();
      var hit := HasCollision(birdY, pipes);
      if hit || birdY < 0.0 || birdY + BirdHeight > CanvasHeight as real {
        gameOver := true;
        return;
      }
    }
  }

  /** `pipes.some(...)`, as the scan it performs. */
  method HasCollision(birdY: real, ps: seq<Entry>) returns (hit: bool)
    ensures hit == CheckCollision(birdY, ps)
  {
    var i := 0;
    while i < |ps|
      invariant 0 <= i <= |ps|
      invariant forall k :: 0 <= k < i ==> !HitsEntry(birdY, ps[k])
    {
      if HitsEntry(birdY, ps[i]) {
        return true;
      }
      i := i + 1;
    }
    return false;
  }
}
