/** Model of ai_pac-man/windsurf/pacman.py: a maze of 40-pixel cells
    (0 empty, 1 wall, 2 dot) held as a list of rows, Pac-Man and the
    ghosts as objects that move by whole pixels, a four-corner wall test with
    a horizontal tunnel, dot eating that writes the maze, and the lives and
    restart logic of the main loop. All arithmetic is on integers; Python's
    floor division by the positive cell size is Dafny's `/`. */
module PacmanWindsurf {

  const CellSize: int := 40
  const PacmanSpeed: int := 5
  const GhostSpeed: int := 4
  const Half: int := 20          // CELL_SIZE // 2
  const Rows: int := 15
  const Cols: int := 20

  const Empty: int := 0
  const Wall: int := 1
  const Dot: int := 2

  /** A direction as the source writes it: a pair [dx, dy]. */
  datatype Dir = Dir(dx: int, dy: int)

  const Stop: Dir := Dir(0, 0)

  /** The order in which a blocked ghost tries the four directions. */
  const Compass: seq<Dir> := [Dir(1, 0), Dir(-1, 0), Dir(0, 1), Dir(0, -1)]

  /** The maze as it starts. */
  function Layout(): (g: seq<seq<int>>)
    ensures |g| == Rows && forall r :: 0 <= r < |g| ==> |g[r]| == Cols
  {
    [ [1, 1, 1, 1, 1, 1, 1, 1, 1, 1, 1, 1, 1, 1, 1, 1, 1, 1, 1, 1],
      [1, 2, 2, 2, 2, 2, 2, 2, 2, 1, 1, 2, 2, 2, 2, 2, 2, 2, 2, 1],
      [1, 2, 1, 1, 2, 1, 1, 1, 2, 1, 1, 2, 1, 1, 1, 2, 1, 1, 2, 1],
      [1, 2, 2, 2, 2, 2, 2, 2, 2, 2, 2, 2, 2, 2, 2, 2, 2, 2, 2, 1],
      [1, 2, 1, 1, 2, 1, 2, 1, 1, 1, 1, 1, 1, 2, 1, 2, 1, 1, 2, 1],
      [1, 2, 2, 2, 2, 1, 2, 2, 2, 1, 1, 2, 2, 2, 1, 2, 2, 2, 2, 1],
      [1, 1, 1, 1, 2, 1, 1, 1, 0, 1, 1, 0, 1, 1, 1, 2, 1, 1, 1, 1],
      [1, 1, 1, 1, 2, 1, 0, 0, 0, 0, 0, 0, 0, 0, 1, 2, 1, 1, 1, 1],
      [0, 0, 0, 0, 2, 0, 0, 1, 1, 0, 0, 1, 1, 0, 0, 2, 0, 0, 0, 0],
      [1, 1, 1, 1, 2, 1, 0, 0, 0, 0, 0, 0, 0, 0, 1, 2, 1, 1, 1, 1],
      [1, 1, 1, 1, 2, 1, 0, 1, 1, 1, 1, 1, 1, 0, 1, 2, 1, 1, 1, 1],
      [1, 2, 2, 2, 2, 2, 2, 2, 2, 1, 1, 2, 2, 2, 2, 2, 2, 2, 2, 1],
      [1, 2, 1, 1, 2, 1, 1, 1, 2, 1, 1, 2, 1, 1, 1, 2, 1, 1, 2, 1],
      [1, 2, 2, 1, 2, 2, 2, 2, 2, 2, 2, 2, 2, 2, 2, 2, 1, 2, 2, 1],
      [1, 1, 2, 1, 2, 1, 2, 1, 1, 1, 1, 1, 1, 2, 1, 2, 1, 2, 1, 1] ]
  }

  /** A maze the engine can index: at least one row, all rows as long as
      the first, which is not empty. */
  predicate Rect(g: seq<seq<int>>)
  {
    |g| >= 1 && |g[0]| >= 1 && forall r :: 0 <= r < |g| ==> |g[r]| == |g[0]|
  }

  /** The maze: a list of rows that the game writes in place. */
  class Maze {
    var cells: seq<seq<int>>

    ghost predicate Valid()
      reads this
    {
      Rect(cells)
    }

    constructor (layout: seq<seq<int>>)
      requires Rect(layout)
      ensures Valid() && cells == layout
    {
      cells := layout;
    }

    /** `maze[r][c] = v` */
    method Set(r: int, c: int, v: int)
      requires Valid() && 0 <= r < |cells| && 0 <= c < |cells[r]|
      modifies this
      ensures Valid() && cells == old(cells)[r := old(cells)[r][c := v]]
    {
      cells := cells[r := cells[r][c := v]];
    }
  }

  // ---------------------------------------------------------------------
  // Wrap-around and the four-corner test.

  /** The tunnel: a candidate x left of the maze re-enters at the last
      column, one at or past the right edge re-enters at 0. */
  function WrapX(nx: int, cols: int): (r: int)
    requires cols >= 1
    ensures 0 <= r < cols * CellSize
    ensures 0 <= nx < cols * CellSize ==> r == nx
  {
    if nx < 0 then (cols - 1) * CellSize
    else if nx >= cols * CellSize then 0
    else nx
  }

  /** The wrapped target of a step of `speed` pixels from (x, y) along d. */
  function Target(x: int, y: int, d: Dir, speed: int, cols: int): (p: (int, int))
    requires cols >= 1
    ensures 0 <= p.0 < cols * CellSize && p.1 == y + d.dy * speed
  {
    (WrapX(x + d.dx * speed, cols), y + d.dy * speed)
  }

  /** The same wrap on a column index. */
  function WrapCol(c: int, cols: int): (r: int)
    requires cols >= 1
    ensures 0 <= r < cols
    ensures 0 <= c < cols ==> r == c
  {
    if c < 0 then cols - 1 else if c >= cols then 0 else c
  }

  /** One corner is fine: its row exists and its (wrapped) cell is no wall. */
  predicate CornerOk(g: seq<seq<int>>, cx: int, cy: int)
  {
    var row := cy / CellSize;
    0 <= row < |g| && |g[row]| >= 1 && g[row][WrapCol(cx / CellSize, |g[row]|)] != Wall
  }

  function Corners(nx: int, ny: int): seq<(int, int)>
  {
    [(nx, ny), (nx + CellSize - 1, ny), (nx, ny + CellSize - 1), (nx + CellSize - 1, ny + CellSize - 1)]
  }

  /** A 40x40 box at (nx, ny) may stand there: all four corners are fine. */
  predicate Clear(g: seq<seq<int>>, nx: int, ny: int)
  {
    CornerOk(g, nx, ny) && CornerOk(g, nx + CellSize - 1, ny) &&
    CornerOk(g, nx, ny + CellSize - 1) && CornerOk(g, nx + CellSize - 1, ny + CellSize - 1)
  }

  /** A box that may stand somewhere lies wholly within the rows, so its
      centre row exists. */
  lemma ClearKeepsCentreRow(g: seq<seq<int>>, nx: int, ny: int)
    requires Clear(g, nx, ny)
    ensures 0 <= ny && ny + CellSize <= |g| * CellSize
    ensures 0 <= (ny + Half) / CellSize < |g|
  {
    assert 0 <= ny / CellSize;
    assert (ny + CellSize - 1) / CellSize < |g|;
  }

  /** The corner loop: the four corners in order, stopping at the first
      that fails. */
  method CanMove(maze: Maze, nx: int, ny: int) returns (ok: bool)
    requires maze.Valid()
    ensures ok == Clear(maze.cells, nx, ny)
  {
    var cells := maze.cells;
    var corners := Corners(nx, ny);
    ok := true;
    var i := 0;
    while i < 4
      invariant 0 <= i <= 4
      invariant ok ==> forall k :: 0 <= k < i ==> CornerOk(cells, corners[k].0, corners[k].1)
      invariant !ok ==> !Clear(cells, nx, ny)
    {
      var (cornerX, cornerY) := corners[i];
      var cellX := cornerX / CellSize;
      var cellY := cornerY / CellSize;
      if cellX < 0 {
        cellX := |cells[0]| - 1;
      } else if cellX >= |cells[0]| {
        cellX := 0;
      }
      if cellY < 0 || cellY >= |cells| || cells[cellY][cellX] == Wall {
        assert !CornerOk(cells, cornerX, cornerY);
        ok := false;
        break;
      }
      assert CornerOk(cells, cornerX, cornerY);
      i := i + 1;
    }
    if ok {
      assert CornerOk(cells, corners[0].0, corners[0].1) && CornerOk(cells, corners[1].0, corners[1].1);
      assert CornerOk(cells, corners[2].0, corners[2].1) && CornerOk(cells, corners[3].0, corners[3].1);
    }
  }

  // ---------------------------------------------------------------------
  // Dots.

  function RowDots(row: seq<int>): nat
  {
    if row == [] then 0 else RowDots(row[..|row| - 1]) + (if row[|row| - 1] == Dot then 1 else 0)
  }

  /** Number of dot cells in the maze. */
  function Dots(g: seq<seq<int>>): nat
  {
    if g == [] then 0 else Dots(g[..|g| - 1]) + RowDots(g[|g| - 1])
  }

  /** Clearing one dot in a row removes exactly one dot from its count. */
  lemma {:induction false} RowDotsClear(row: seq<int>, c: int)
    requires 0 <= c < |row| && row[c] == Dot
    ensures RowDots(row[c := Empty]) + 1 == RowDots(row)
  {
    var n := |row| - 1;
    if c < n {
      assert row[c := Empty][..n] == row[..n][c := Empty];
      RowDotsClear(row[..n], c);
    } else {
      assert row[c := Empty][..n] == row[..n];
    }
  }

  /** Replacing one row changes the count by the change in that row. */
  lemma {:induction false} DotsReplaceRow(g: seq<seq<int>>, r: int, row: seq<int>)
    requires 0 <= r < |g|
    ensures Dots(g[r := row]) + RowDots(g[r]) == Dots(g) + RowDots(row)
  {
    var n := |g| - 1;
    if r < n {
      assert g[r := row][..n] == g[..n][r := row];
      DotsReplaceRow(g[..n], r, row);
    } else {
      assert g[r := row][..n] == g[..n];
    }
  }

  /** What eating at (r, c) does to the maze: a dot becomes empty, anything
      else stays. */
  function EatAt(g: seq<seq<int>>, r: int, c: int): seq<seq<int>>
    requires 0 <= r < |g| && 0 <= c < |g[r]|
  {
    if g[r][c] == Dot then g[r := g[r][c := Empty]] else g
  }

  /** Eating touches only the centre cell, never leaves a dot there and
      never changes a wall. */
  lemma EatTouchesOneCell(g: seq<seq<int>>, r: int, c: int)
    requires 0 <= r < |g| && 0 <= c < |g[r]|
    ensures var e := EatAt(g, r, c);
      && |e| == |g| && (forall i :: 0 <= i < |g| ==> |e[i]| == |g[i]|)
      && (forall i, j :: 0 <= i < |g| && 0 <= j < |g[i]| ==>
            (e[i][j] == Wall <==> g[i][j] == Wall) && (e[i][j] == g[i][j] || (i == r && j == c)))
      && e[r][c] != Dot
  {
  }

  /** Eating removes exactly the dot it scores for. */
  lemma EatCountsOneDot(g: seq<seq<int>>, r: int, c: int)
    requires 0 <= r < |g| && 0 <= c < |g[r]|
    ensures Dots(EatAt(g, r, c)) + (if g[r][c] == Dot then 1 else 0) == Dots(g)
  {
    if g[r][c] == Dot {
      RowDotsClear(g[r], c);
      DotsReplaceRow(g, r, g[r][c := Empty]);
    }
  }

  // ---------------------------------------------------------------------
  // reset_game's refill.

  /** The tunnel cells of row 8 that never get a dot. */
  predicate Tunnel(r: int, c: int) { r == 8 && (c < 4 || c > 15) }

  /** One cell after the refill: every empty cell outside the tunnel gets a
      dot. */
  function Refill(r: int, c: int, v: int): (w: int)
    ensures (v == Wall || v == Dot) ==> w == v
    ensures w == Empty ==> v == Empty && Tunnel(r, c)
  {
    if v == Empty && !Tunnel(r, c) then Dot else v
  }

  /** The refill leaves a maze it has already refilled as it is. */
  lemma RefillIdempotent(r: int, c: int, v: int)
    ensures Refill(r, c, Refill(r, c, v)) == Refill(r, c, v)
  {
  }

  // ---------------------------------------------------------------------
  // Pac-Man.

  class Pacman {
    var x: int
    var y: int
    var direction: Dir
    var nextDirection: Dir
    var score: int
    var lives: int

    /** `Pacman()`: the start cell, standing still, no score, three lives. */
    constructor ()
      ensures x == 10 * CellSize && y == 13 * CellSize && direction == Stop && nextDirection == Stop
      ensures score == 0 && lives == 3
    {
      x := 10 * CellSize;
      y := 13 * CellSize;
      direction := Stop;
      nextDirection := Stop;
      score := 0;
      lives := 3;
    }

    method ResetPosition()
      modifies this
      ensures x == 10 * CellSize && y == 13 * CellSize && direction == Stop && nextDirection == Stop
      ensures score == old(score) && lives == old(lives)
    {
      x := 10 * CellSize;
      y := 13 * CellSize;
      direction := Stop;
      nextDirection := Stop;
    }

    /** One step: take the buffered turn if a step that way is clear, then
        step the current way if that is clear, and eat the dot under the
        centre. */
    method Move(maze: Maze)
      requires maze.Valid()
      modifies this, maze
      ensures maze.Valid()
      ensures nextDirection == old(nextDirection) && lives == old(lives)
      ensures direction == Turned(old(maze.cells), old(x), old(y), old(direction), old(nextDirection))
      ensures Advanced(old(maze.cells), old(x), old(y), direction, maze.cells, x, y, score - old(score))
      ensures score + 10 * Dots(maze.cells) == old(score) + 10 * Dots(old(maze.cells))
    {
      Turn(maze);
      Advance(maze);
    }

    /** The first half of move: the buffered turn is taken when a step that
        way is clear. */
    method Turn(maze: Maze)
      requires maze.Valid()
      modifies this
      ensures direction == Turned(maze.cells, old(x), old(y), old(direction), old(nextDirection))
      ensures x == old(x) && y == old(y) && nextDirection == old(nextDirection)
      ensures score == old(score) && lives == old(lives)
    {
      var cols := |maze.cells[0]|;
      // next_x, next_y with the left/right wrap-around
      var (nextX, nextY) := Target(x, y, nextDirection, PacmanSpeed, cols);
      var canMove := CanMove(maze, nextX, nextY);
      if canMove {
        direction := nextDirection;
      }
    }

    /** The second half of move: step the current way when that is clear,
        then eat. */
    method Advance(maze: Maze)
      requires maze.Valid()
      modifies this, maze
      ensures maze.Valid()
      ensures direction == old(direction) && nextDirection == old(nextDirection) && lives == old(lives)
      ensures Advanced(old(maze.cells), old(x), old(y), direction, maze.cells, x, y, score - old(score))
      ensures score + 10 * Dots(maze.cells) == old(score) + 10 * Dots(old(maze.cells))
    {
      var cols := |maze.cells[0]|;
      // next_x, next_y with the left/right wrap-around
      var (nextX, nextY) := Target(x, y, direction, PacmanSpeed, cols);
      ghost var g := maze.cells;
      var canMove := CanMove(maze, nextX, nextY);
      if canMove {
        ClearKeepsCentreRow(g, nextX, nextY);
        var points := EatDot(maze, nextX, nextY);
        AdvancedByMove(g, x, y, direction, maze.cells, nextX, nextY, points);
        x := nextX;
        y := nextY;
        score := score + points;
      } else {
        AdvancedByStay(g, x, y, direction);
      }
    }
  }

  /** A step from (x, y) along d on maze g ends at (x1, y1) on maze g1 with
      `points` scored: the wrapped target and a meal when it is clear,
      nothing at all otherwise. */
  ghost predicate Advanced(g: seq<seq<int>>, x: int, y: int, d: Dir,
                           g1: seq<seq<int>>, x1: int, y1: int, points: int)
    requires Rect(g)
  {
    var (nx, ny) := Target(x, y, d, PacmanSpeed, |g[0]|);
    if Clear(g, nx, ny) then x1 == nx && y1 == ny && Eaten(g, g1, x1, y1, points)
    else x1 == x && y1 == y && g1 == g && points == 0
  }
  /** The step when the target is clear and the centre cell was eaten. */
  lemma AdvancedByMove(g: seq<seq<int>>, x: int, y: int, d: Dir, g1: seq<seq<int>>, nx: int, ny: int, points: int)
    requires Rect(g)
    requires (nx, ny) == Target(x, y, d, PacmanSpeed, |g[0]|) && Clear(g, nx, ny)
    requires Eaten(g, g1, nx, ny, points)
    ensures Advanced(g, x, y, d, g1, nx, ny, points)
  {
  }

  /** The step when the target is blocked. */
  lemma AdvancedByStay(g: seq<seq<int>>, x: int, y: int, d: Dir)
    requires Rect(g)
    requires !Clear(g, Target(x, y, d, PacmanSpeed, |g[0]|).0, Target(x, y, d, PacmanSpeed, |g[0]|).1)
    ensures Advanced(g, x, y, d, g, x, y, 0)
  {
  }


  /** The direction after the buffered-turn test. */
  function Turned(g: seq<seq<int>>, x: int, y: int, direction: Dir, next: Dir): Dir
    requires Rect(g)
  {
    var (tx, ty) := Target(x, y, next, PacmanSpeed, |g[0]|);
    if Clear(g, tx, ty) then next else direction
  }

  /** The centre cell of a box at (x, y) eats its dot: `before` becomes
      `after` and `points` is 10 for a dot, 0 otherwise. */
  ghost predicate Eaten(before: seq<seq<int>>, after: seq<seq<int>>, x: int, y: int, points: int)
  {
    var r := (y + Half) / CellSize;
    && 0 <= r < |before| && |before[r]| >= 1
    && var c := WrapCol((x + Half) / CellSize, |before[r]|);
    && after == EatAt(before, r, c)
    && points == (if before[r][c] == Dot then 10 else 0)
  }

  /** The dot-collection part of Pacman.move, for a box whose centre row
      exists. */
  method EatDot(maze: Maze, x: int, y: int) returns (points: int)
    requires maze.Valid()
    requires 0 <= (y + Half) / CellSize < |maze.cells|
    modifies maze
    ensures maze.Valid()
    ensures Eaten(old(maze.cells), maze.cells, x, y, points)
    ensures points + 10 * Dots(maze.cells) == 10 * Dots(old(maze.cells))
  {
    var cols := |maze.cells[0]|;
    var centerX := (x + Half) / CellSize;
    var centerY := (y + Half) / CellSize;
    if centerX < 0 {
      centerX := cols - 1;
    } else if centerX >= cols {
      centerX := 0;
    }
    EatCountsOneDot(maze.cells, centerY, centerX);
    if maze.cells[centerY][centerX] == Dot {
      maze.Set(centerY, centerX, Empty);
      points := 10;
    } else {
      points := 0;
    }
  }

  // ---------------------------------------------------------------------
  // Ghosts.

  /** A blocked ghost may take direction d: it is not the exact reverse of
      the current one and a step that way is clear. */
  predicate Allowed(g: seq<seq<int>>, x: int, y: int, current: Dir, d: Dir)
    requires Rect(g)
  {
    var (tx, ty) := Target(x, y, d, GhostSpeed, |g[0]|);
    !(d.dx == -current.dx && d.dy == -current.dy) && Clear(g, tx, ty)
  }

  /** The directions of `ds` that are allowed, in order. */
  function Admissible(g: seq<seq<int>>, x: int, y: int, current: Dir, ds: seq<Dir>): seq<Dir>
    requires Rect(g)
  {
    if ds == [] then []
    else Admissible(g, x, y, current, ds[..|ds| - 1]) +
         (if Allowed(g, x, y, current, ds[|ds| - 1]) then [ds[|ds| - 1]] else [])
  }

  /** When no direction of ds is allowed, none is admissible. */
  lemma {:induction false} NoneAllowed(g: seq<seq<int>>, x: int, y: int, current: Dir, ds: seq<Dir>)
    requires Rect(g)
    requires forall d <- ds :: !Allowed(g, x, y, current, d)
    ensures Admissible(g, x, y, current, ds) == []
  {
    if ds != [] {
      var n := |ds| - 1;
      assert forall d <- ds[..n] :: d in ds;
      assert ds[n] in ds;
      NoneAllowed(g, x, y, current, ds[..n]);
    }
  }

  /** `possible_directions` holds exactly the allowed directions. */
  lemma {:induction false} AdmissibleExactly(g: seq<seq<int>>, x: int, y: int, current: Dir, ds: seq<Dir>)
    requires Rect(g)
    ensures forall d :: d in Admissible(g, x, y, current, ds) <==> d in ds && Allowed(g, x, y, current, d)
  {
    if ds != [] {
      var n := |ds| - 1;
      AdmissibleExactly(g, x, y, current, ds[..n]);
      assert forall d :: d in ds <==> d in ds[..n] || d == ds[n];
    }
  }

  /** Admissible over the first i + 1 directions extends the first i by one. */
  lemma AdmissibleStep(g: seq<seq<int>>, x: int, y: int, current: Dir, ds: seq<Dir>, i: nat)
    requires Rect(g) && i < |ds|
    ensures Admissible(g, x, y, current, ds[..i + 1]) ==
      Admissible(g, x, y, current, ds[..i]) + (if Allowed(g, x, y, current, ds[i]) then [ds[i]] else [])
  {
    assert ds[..i + 1][..i] == ds[..i];
  }

  /** The direction loop of Ghost.move: try each direction of the compass in
      order, skip the reverse, keep those whose step is clear. */
  method Candidates(maze: Maze, x: int, y: int, current: Dir) returns (possible: seq<Dir>)
    requires maze.Valid()
    ensures possible == Admissible(maze.cells, x, y, current, Compass)
  {
    var cols := |maze.cells[0]|;
    possible := [];
    for i := 0 to |Compass|
      invariant possible == Admissible(maze.cells, x, y, current, Compass[..i])
    {
      AdmissibleStep(maze.cells, x, y, current, Compass, i);
      var newDir := Compass[i];
      if newDir.dx == -current.dx && newDir.dy == -current.dy {
        continue;
      }
      // test_x, test_y with the left/right wrap-around
      var (testX, testY) := Target(x, y, newDir, GhostSpeed, cols);
      var valid := CanMove(maze, testX, testY);
      if valid {
        possible := possible + [newDir];
      }
    }
    assert Compass[..|Compass|] == Compass;
  }

  /** `random.choice`: any element of a non-empty list, here the one at
      `pick` modulo its length. */
  function Choice(ds: seq<Dir>, pick: nat): (d: Dir)
    requires ds != []
    ensures d in ds
  {
    ds[pick % |ds|]
  }

  /** A blocked ghost never turns back: its new direction is either the old
      one or an allowed one. */
  lemma BlockedGhostNeverReverses(g: seq<seq<int>>, x: int, y: int, current: Dir, pick: nat)
    requires Rect(g)
    ensures var ds := Admissible(g, x, y, current, Compass);
      ds != [] ==> var d := Choice(ds, pick);
        d in Compass && !(d.dx == -current.dx && d.dy == -current.dy) && Allowed(g, x, y, current, d)
  {
    AdmissibleExactly(g, x, y, current, Compass);
  }

  /** A ghost's move from (x, y) heading d on maze g ends at (x1, y1)
      heading d1: the wrapped step when it is clear; otherwise it stays put
      and takes the admissible direction `pick` selects, if there is one. */
  predicate GhostMoved(g: seq<seq<int>>, x: int, y: int, d: Dir, pick: nat, x1: int, y1: int, d1: Dir)
    requires Rect(g)
  {
    var (nx, ny) := Target(x, y, d, GhostSpeed, |g[0]|);
    if Clear(g, nx, ny) then x1 == nx && y1 == ny && d1 == d
    else
      && x1 == x && y1 == y
      && var ds := Admissible(g, x, y, d, Compass);
      && d1 == if ds == [] then d else Choice(ds, pick)
  }

  class Ghost {
    const initialX: int
    const initialY: int
    var x: int
    var y: int
    var direction: Dir

    constructor (x0: int, y0: int)
      ensures initialX == x0 && initialY == y0
      ensures x == x0 && y == y0 && direction == Dir(1, 0)
    {
      initialX, initialY := x0, y0;
      x, y := x0, y0;
      direction := Dir(1, 0);
    }

    method ResetPosition()
      modifies this
      ensures x == initialX && y == initialY && direction == Dir(1, 0)
    {
      x := initialX;
      y := initialY;
      direction := Dir(1, 0);
    }

    /** Step the current way if that is clear; otherwise stay put and pick
        one of the allowed directions, if there is any. `pick` stands for
        the random choice. */
    method Move(maze: Maze, pick: nat)
      requires maze.Valid()
      modifies this
      ensures GhostMoved(maze.cells, old(x), old(y), old(direction), pick, x, y, direction)
    {
      var cols := |maze.cells[0]|;
      // next_x, next_y with the left/right wrap-around
      var (nextX, nextY) := Target(x, y, direction, GhostSpeed, cols);
      var canMove := CanMove(maze, nextX, nextY);
      if canMove {
        x := nextX;
        y := nextY;
      } else {
        var possible := Candidates(maze, x, y, direction);
        if |possible| > 0 {
          direction := possible[pick % |possible|];
        }
      }
    }
  }

  // ---------------------------------------------------------------------
  // reset_game and the main loop.

  /** h is g after the refill, cell by cell. */
  ghost predicate RefilledFrom(g: seq<seq<int>>, h: seq<seq<int>>)
  {
    |h| == |g| &&
    (forall r :: 0 <= r < |g| ==> |h[r]| == |g[r]|) &&
    forall r, c :: 0 <= r < |g| && 0 <= c < |g[r]| ==> h[r][c] == Refill(r, c, g[r][c])
  }

  /** A refilled maze is its own refill, so resetting twice is resetting
      once. */
  lemma RefillTwiceIsOnce(g: seq<seq<int>>, h: seq<seq<int>>)
    requires RefilledFrom(g, h)
    ensures RefilledFrom(h, h)
  {
    forall r, c | 0 <= r < |h| && 0 <= c < |h[r]|
      ensures h[r][c] == Refill(r, c, h[r][c])
    {
      RefillIdempotent(r, c, g[r][c]);
    }
  }

  /** The refill loops of reset_game: every empty cell outside the tunnel
      gets its dot back. */
  method RefillDots(maze: Maze)
    requires maze.Valid()
    modifies maze
    ensures maze.Valid() && RefilledFrom(old(maze.cells), maze.cells)
  {
    ghost var g := maze.cells;
    var rows := |maze.cells|;
    var cols := |maze.cells[0]|;
    var y := 0;
    while y < rows
      invariant 0 <= y <= rows
      invariant maze.Valid() && |maze.cells| == rows && |maze.cells[0]| == cols
      invariant forall r, c :: 0 <= r < rows && 0 <= c < cols ==>
        maze.cells[r][c] == if r < y then Refill(r, c, g[r][c]) else g[r][c]
    {
      var x := 0;
      while x < cols
        invariant 0 <= x <= cols
        invariant maze.Valid() && |maze.cells| == rows && |maze.cells[0]| == cols
        invariant forall r, c :: 0 <= r < rows && 0 <= c < cols ==>
          maze.cells[r][c] == if r < y || (r == y && c < x) then Refill(r, c, g[r][c]) else g[r][c]
      {
        if maze.cells[y][x] == Empty && !(y == 8 && (x < 4 || x > 15)) {
          maze.Set(y, x, Dot);
        }
        x := x + 1;
      }
      y := y + 1;
    }
  }

  /** reset_game: Pac-Man and every ghost back to their start, dots
      refilled; score and lives untouched. */
  method ResetGame(pacman: Pacman, ghosts: seq<Ghost>, maze: Maze)
    requires maze.Valid()
    modifies pacman, maze, set gh | gh in ghosts
    ensures maze.Valid() && RefilledFrom(old(maze.cells), maze.cells)
    ensures pacman.x == 10 * CellSize && pacman.y == 13 * CellSize
    ensures pacman.direction == Stop && pacman.nextDirection == Stop
    ensures pacman.score == old(pacman.score) && pacman.lives == old(pacman.lives)
    ensures forall gh <- ghosts :: gh.x == gh.initialX && gh.y == gh.initialY && gh.direction == Dir(1, 0)
  {
    pacman.ResetPosition();
    for i := 0 to |ghosts|
      invariant forall k :: 0 <= k < i ==>
        ghosts[k].x == ghosts[k].initialX && ghosts[k].y == ghosts[k].initialY && ghosts[k].direction == Dir(1, 0)
      invariant pacman.x == 10 * CellSize && pacman.y == 13 * CellSize
      invariant pacman.direction == Stop && pacman.nextDirection == Stop
      invariant pacman.score == old(pacman.score) && pacman.lives == old(pacman.lives)
      invariant maze.cells == old(maze.cells)
    {
      ghosts[i].ResetPosition();
    }
    RefillDots(maze);
  }

  /** A ghost touches Pac-Man: both coordinates closer than half a cell. */
  predicate Contact(px: int, py: int, gx: int, gy: int)
  {
    -Half < px - gx < Half && -Half < py - gy < Half
  }

  /** The contact loop of the main loop, up to its `break`: is any ghost
      touching Pac-Man? */
  method AnyContact(pacman: Pacman, ghosts: seq<Ghost>) returns (hit: bool)
    ensures hit == exists k :: 0 <= k < |ghosts| && Contact(pacman.x, pacman.y, ghosts[k].x, ghosts[k].y)
  {
    hit := false;
    var i := 0;
    while i < |ghosts|
      invariant 0 <= i <= |ghosts|
      invariant !hit && forall k :: 0 <= k < i ==> !Contact(pacman.x, pacman.y, ghosts[k].x, ghosts[k].y)
    {
      var dx := pacman.x - ghosts[i].x;
      var dy := pacman.y - ghosts[i].y;
      if (if dx < 0 then -dx else dx) < Half && (if dy < 0 then -dy else dy) < Half {
        hit := true;
        break;
      }
      i := i + 1;
    }
  }

  /** Keys the game reacts to. */
  datatype Key = Left | Right | Up | Down | Space | Other

  /** The state of the main loop: Pac-Man, the three ghosts, the maze and
      the game-over flag. */
  class Game {
    var pacman: Pacman
    var ghosts: seq<Ghost>
    var gameOver: bool
    const maze: Maze

    /** The game is over exactly when the lives are used up, and the ghosts
        are three distinct objects whose homes are (360, 320), (400, 320)
        and (440, 320), as `main` creates them. */
    ghost predicate Valid()
      reads this, pacman, maze
    {
      && maze.Valid() && 0 <= pacman.lives <= 3 && (gameOver <==> pacman.lives == 0)
      && |ghosts| == 3
      && (forall i, j :: 0 <= i < j < |ghosts| ==> ghosts[i] != ghosts[j])
      && forall k :: 0 <= k < |ghosts| ==> ghosts[k].initialX == (9 + k) * CellSize && ghosts[k].initialY == 8 * CellSize
    }

    /** Pac-Man stands still at (400, 520) and every ghost is at its home,
        heading right. */
    ghost predicate InStartPositions()
      reads this, pacman, ghosts
    {
      && pacman.x == 10 * CellSize && pacman.y == 13 * CellSize
      && pacman.direction == Stop && pacman.nextDirection == Stop
      && forall k :: 0 <= k < |ghosts| ==>
           ghosts[k].x == ghosts[k].initialX && ghosts[k].y == ghosts[k].initialY && ghosts[k].direction == Dir(1, 0)
    }

    /** Some ghost touches Pac-Man. */
    ghost predicate Caught()
      reads this, pacman, ghosts
    {
      exists k :: 0 <= k < |ghosts| && Contact(pacman.x, pacman.y, ghosts[k].x, ghosts[k].y)
    }

    /** Where the ghosts are and which way they head, in list order. */
    ghost function Places(): (ps: seq<(int, int, Dir)>)
      reads this, ghosts
      ensures |ps| == |ghosts|
      ensures forall k :: 0 <= k < |ghosts| ==> ps[k] == (ghosts[k].x, ghosts[k].y, ghosts[k].direction)
    {
      seq(|ghosts|, k requires 0 <= k < |ghosts| reads this, ghosts => (ghosts[k].x, ghosts[k].y, ghosts[k].direction))
    }

    constructor ()
      ensures Valid() && !gameOver && maze.cells == Layout()
      ensures pacman.score == 0 && pacman.lives == 3 && InStartPositions()
    {
      maze := new Maze(Layout());
      pacman := new Pacman();
      var red := new Ghost(9 * CellSize, 8 * CellSize);
      var pink := new Ghost(10 * CellSize, 8 * CellSize);
      var cyan := new Ghost(11 * CellSize, 8 * CellSize);
      ghosts := [red, pink, cyan];
      gameOver := false;
    }

    /** A KEYDOWN event: while the game is over only SPACE counts and starts
        a new game on the same maze; otherwise the arrows set the buffered
        turn. */
    method KeyDown(key: Key)
      requires Valid()
      modifies this, pacman, maze
      ensures Valid()
      ensures old(gameOver) && key == Space ==>
        && !gameOver && fresh(pacman) && pacman.score == 0 && pacman.lives == 3
        && (forall gh <- ghosts :: fresh(gh)) && InStartPositions()
        && RefilledFrom(old(maze.cells), maze.cells)
      ensures old(gameOver) && key != Space ==> pacman == old(pacman) && unchanged(this, old(pacman), maze)
      ensures !old(gameOver) ==>
        && pacman == old(pacman) && ghosts == old(ghosts) && gameOver == old(gameOver)
        && maze.cells == old(maze.cells)
        && pacman.x == old(pacman.x) && pacman.y == old(pacman.y) && pacman.direction == old(pacman.direction)
        && pacman.score == old(pacman.score) && pacman.lives == old(pacman.lives)
        && pacman.nextDirection == match key
             case Left => Dir(-1, 0)
             case Right => Dir(1, 0)
             case Up => Dir(0, -1)
             case Down => Dir(0, 1)
             case _ => old(pacman.nextDirection)
    {
      if gameOver {
        if key == Space {
          pacman := new Pacman();
          var red := new Ghost(9 * CellSize, 8 * CellSize);
          var pink := new Ghost(10 * CellSize, 8 * CellSize);
          var cyan := new Ghost(11 * CellSize, 8 * CellSize);
          ghosts := [red, pink, cyan];
          ResetGame(pacman, ghosts, maze);
          gameOver := false;
        }
      } else {
        match key {
          case Left => pacman.nextDirection := Dir(-1, 0);
          case Right => pacman.nextDirection := Dir(1, 0);
          case Up => pacman.nextDirection := Dir(0, -1);
          case Down => pacman.nextDirection := Dir(0, 1);
          case _ =>
        }
      }
    }

    /** `for ghost in ghosts: ghost.move(MAZE)`, with `picks` standing for
        the random choices of blocked ghosts, one per ghost. */
    method MoveGhosts(picks: seq<nat>)
      requires Valid() && |picks| == |ghosts|
      modifies set gh | gh in ghosts
      ensures forall k :: 0 <= k < |ghosts| ==>
        GhostMoved(maze.cells, old(ghosts[k].x), old(ghosts[k].y), old(ghosts[k].direction), picks[k],
                   ghosts[k].x, ghosts[k].y, ghosts[k].direction)
    {
      for i := 0 to |ghosts|
        invariant forall k :: 0 <= k < i ==>
          GhostMoved(maze.cells, old(ghosts[k].x), old(ghosts[k].y), old(ghosts[k].direction), picks[k],
                     ghosts[k].x, ghosts[k].y, ghosts[k].direction)
        invariant forall k :: i <= k < |ghosts| ==>
          ghosts[k].x == old(ghosts[k].x) && ghosts[k].y == old(ghosts[k].y) && ghosts[k].direction == old(ghosts[k].direction)
      {
        ghosts[i].Move(maze, picks[i]);
      }
    }

    /** The contact loop and what follows it: a touching ghost costs a life,
        and then either everything goes back to its start with the dots
        refilled or, on the last life, the game is over. */
    method Resolve()
      requires Valid() && !gameOver
      modifies this, pacman, maze, set gh | gh in ghosts
      ensures Valid() && pacman == old(pacman) && ghosts == old(ghosts)
      ensures pacman.score == old(pacman.score)
      ensures pacman.lives == old(pacman.lives) - (if old(Caught()) then 1 else 0)
      ensures if old(Caught()) && pacman.lives > 0 then
          InStartPositions() && RefilledFrom(old(maze.cells), maze.cells)
        else
          && pacman.x == old(pacman.x) && pacman.y == old(pacman.y)
          && pacman.direction == old(pacman.direction) && pacman.nextDirection == old(pacman.nextDirection)
          && maze.cells == old(maze.cells) && Places() == old(Places())
    {
      var hit := AnyContact(pacman, ghosts);
      if hit {
        pacman.lives := pacman.lives - 1;
        if pacman.lives > 0 {
          ResetGame(pacman, ghosts, maze);
        } else {
          gameOver := true;
        }
      }
    }

    /** One pass of the main loop's game logic: Pac-Man moves and eats, the
        ghosts move on the maze he leaves, then contact is resolved. The
        ghost results name the state between the moves and the contact
        test: the maze, Pac-Man's place and heading, and the ghosts'. */
    method Tick(picks: seq<nat>) returns (ghost cells: seq<seq<int>>, ghost px: int, ghost py: int, ghost pd: Dir,
                                          ghost moved: seq<(int, int, Dir)>)
      requires Valid()
      requires |picks| == |ghosts|
      modifies this, pacman, maze, set gh | gh in ghosts
      ensures Valid()
      ensures pacman == old(pacman) && ghosts == old(ghosts)
      ensures old(gameOver) ==> gameOver && unchanged(pacman, maze) && forall gh <- ghosts :: unchanged(gh)
      ensures !old(gameOver) ==>
        && Rect(cells) && |moved| == |ghosts|
        && pd == Turned(old(maze.cells), old(pacman.x), old(pacman.y), old(pacman.direction), old(pacman.nextDirection))
        && Advanced(old(maze.cells), old(pacman.x), old(pacman.y), pd, cells, px, py, pacman.score - old(pacman.score))
        && (forall k :: 0 <= k < |ghosts| ==>
              GhostMoved(cells, old(ghosts[k].x), old(ghosts[k].y), old(ghosts[k].direction), picks[k],
                         moved[k].0, moved[k].1, moved[k].2))
        && var hit := exists k :: 0 <= k < |moved| && Contact(px, py, moved[k].0, moved[k].1);
        && pacman.lives == old(pacman.lives) - (if hit then 1 else 0)
        && if hit && pacman.lives > 0 then
             InStartPositions() && RefilledFrom(cells, maze.cells)
           else
             && pacman.x == px && pacman.y == py && pacman.direction == pd
             && pacman.nextDirection == old(pacman.nextDirection)
             && maze.cells == cells && Places() == moved
    {
      if !gameOver {
        pacman.Move(maze);
        MoveGhosts(picks);
      }
      cells, px, py, pd, moved := maze.cells, pacman.x, pacman.y, pacman.direction, Places();
      if !gameOver {
        assert Caught() == exists k :: 0 <= k < |moved| && Contact(px, py, moved[k].0, moved[k].1);
        Resolve();
      }
    }
  }
}

module PacmanWindsurfStart {
  import opened PacmanWindsurf

  /** Pac-Man's start box (400, 520) lies in an open cell, and so do the
      red and pink ghosts' boxes (360, 320) and (400, 320). */
  lemma StartBoxesOpen()
    ensures Clear(Layout(), 10 * CellSize, 13 * CellSize)
    ensures Clear(Layout(), 9 * CellSize, 8 * CellSize)
    ensures Clear(Layout(), 10 * CellSize, 8 * CellSize)
  {
    var g := Layout();
    assert g[13][10] == Dot && g[8][9] == Empty && g[8][10] == Empty;
  }

  /** The maze is closed: every border cell is a wall except the two ends
      of the row-8 tunnel, the only place where the wrap-around is used. */
  lemma BorderClosedButTunnel()
    ensures forall c :: 0 <= c < Cols ==> Layout()[0][c] == Wall
    ensures forall r :: 0 <= r < Rows ==>
      Layout()[r][0] == Layout()[r][Cols - 1] == if r == 8 then Empty else Wall
  {
    var g := Layout();
    forall r | 0 <= r < Rows
      ensures g[r][0] == g[r][Cols - 1] == if r == 8 then Empty else Wall
    {
      assert r in {0, 1, 2, 3, 4, 5, 6, 7, 8, 9, 10, 11, 12, 13, 14};
    }
  }

  /** The bottom row holds dots in columns 2, 4, 6, 13, 15 and 17 and walls
      everywhere else. */
  lemma BottomRowDots()
    ensures forall c :: 0 <= c < Cols ==>
      Layout()[14][c] == if c in {2, 4, 6, 13, 15, 17} then Dot else Wall
  {
    var g := Layout();
    forall c | 0 <= c < Cols
      ensures g[14][c] == if c in {2, 4, 6, 13, 15, 17} then Dot else Wall
    {
      assert c in {0, 1, 2, 3, 4, 5, 6, 7, 8, 9, 10, 11, 12, 13, 14, 15, 16, 17, 18, 19};
    }
  }

  /** The nook below row 13 at column 17 is open: from (680, 520) a step
      down is clear, and so is the box resting in the bottom row. */
  lemma BottomRightNookOpen()
    ensures Clear(Layout(), 17 * CellSize, 13 * CellSize + PacmanSpeed)
    ensures Clear(Layout(), 17 * CellSize, 14 * CellSize)
  {
    var g := Layout();
    assert g[13][17] == Dot && g[14][17] == Dot;
  }

  /** The cyan ghost starts at (440, 320), which is a wall cell: no step of
      four pixels in any direction is clear, so its move leaves it where it
      is and it never gets a direction to choose. */
  lemma CyanGhostWalledIn(current: Dir)
    ensures !Clear(Layout(), 11 * CellSize, 8 * CellSize)
    ensures forall d <- Compass :: var t := Target(11 * CellSize, 8 * CellSize, d, GhostSpeed, Cols);
      !Clear(Layout(), t.0, t.1)
    ensures Admissible(Layout(), 11 * CellSize, 8 * CellSize, current, Compass) == []
  {
    var g := Layout();
    CyanStepsBlocked(g);
    NoneAllowed(g, 11 * CellSize, 8 * CellSize, current, Compass);
  }

  /** Each of the four targets around (440, 320) has a corner in the wall
      cell at row 8, column 11. */
  lemma CyanStepsBlocked(g: seq<seq<int>>)
    requires g == Layout()
    ensures !Clear(g, 11 * CellSize, 8 * CellSize)
    ensures forall d <- Compass :: var t := Target(11 * CellSize, 8 * CellSize, d, GhostSpeed, Cols);
      !Clear(g, t.0, t.1)
  {
    assert g[8][11] == Wall;
    assert !Clear(g, 440, 320) && !Clear(g, 444, 320) && !Clear(g, 436, 320);
    assert !Clear(g, 440, 324) && !Clear(g, 440, 316);
    forall d <- Compass
      ensures var t := Target(11 * CellSize, 8 * CellSize, d, GhostSpeed, Cols); !Clear(g, t.0, t.1)
    {
      var t := Target(11 * CellSize, 8 * CellSize, d, GhostSpeed, Cols);
      assert t in {(444, 320), (436, 320), (440, 324), (440, 316)};
    }
  }
}
