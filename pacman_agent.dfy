/** Model of ai_pac-man/claude_agent/game.js: a 28x30 maze of 16-pixel
    cells (0 wall, 1 dot, 2 empty, 3 power pellet) that the game writes in
    place, Pac-Man steered by the arrow keys held down, four ghosts on a
    random walk, a tunnel that wraps the x coordinate, circle contact that
    ends the game, and dots and pellets eaten at Pac-Man's centre cell.
    Every wall test looks only at the cell under the sprite's top-left
    point. Positions are reals (ghosts move 1.5 pixels a frame). */
module PacmanAgent {

  const CellSize: real := 16.0
  const PacmanSize: real := 24.0      // CELL_SIZE * 1.5
  const GhostSize: real := 24.0       // CELL_SIZE * 1.5
  const PacmanSpeed: real := 2.0
  const GhostSpeed: real := 1.5
  /** The chance per frame that a ghost picks a new direction. */
  const TurnChance: real := 0.05

  const Wall: int := 0
  const Dot: int := 1
  const Empty: int := 2
  const Pellet: int := 3

  const Rows: int := 30
  const Cols: int := 28

  /** The maze as the page loads it. */
  function Layout(): (g: seq<seq<int>>)
    ensures |g| == Rows && forall r :: 0 <= r < |g| ==> |g[r]| == Cols
  {
    [ [0, 0, 0, 0, 0, 0, 0, 0, 0, 0, 0, 0, 0, 0, 0, 0, 0, 0, 0, 0, 0, 0, 0, 0, 0, 0, 0, 0],
      [0, 1, 1, 1, 1, 1, 1, 1, 1, 1, 1, 1, 1, 0, 0, 1, 1, 1, 1, 1, 1, 1, 1, 1, 1, 1, 1, 0],
      [0, 1, 0, 0, 0, 0, 1, 0, 0, 0, 0, 0, 1, 0, 0, 1, 0, 0, 0, 0, 0, 1, 0, 0, 0, 0, 1, 0],
      [0, 3, 0, 0, 0, 0, 1, 0, 0, 0, 0, 0, 1, 0, 0, 1, 0, 0, 0, 0, 0, 1, 0, 0, 0, 0, 3, 0],
      [0, 1, 0, 0, 0, 0, 1, 0, 0, 0, 0, 0, 1, 0, 0, 1, 0, 0, 0, 0, 0, 1, 0, 0, 0, 0, 1, 0],
      [0, 1, 1, 1, 1, 1, 1, 1, 1, 1, 1, 1, 1, 1, 1, 1, 1, 1, 1, 1, 1, 1, 1, 1, 1, 1, 1, 0],
      [0, 1, 0, 0, 0, 0, 1, 0, 0, 1, 0, 0, 0, 0, 0, 0, 0, 0, 1, 0, 0, 1, 0, 0, 0, 0, 1, 0],
      [0, 1, 0, 0, 0, 0, 1, 0, 0, 1, 0, 0, 0, 0, 0, 0, 0, 0, 1, 0, 0, 1, 0, 0, 0, 0, 1, 0],
      [0, 1, 1, 1, 1, 1, 1, 0, 0, 1, 1, 1, 1, 0, 0, 1, 1, 1, 1, 0, 0, 1, 1, 1, 1, 1, 1, 0],
      [0, 0, 0, 0, 0, 0, 1, 0, 0, 0, 0, 0, 2, 0, 0, 2, 0, 0, 0, 0, 0, 1, 0, 0, 0, 0, 0, 0],
      [0, 0, 0, 0, 0, 0, 1, 0, 0, 0, 0, 0, 2, 0, 0, 2, 0, 0, 0, 0, 0, 1, 0, 0, 0, 0, 0, 0],
      [0, 0, 0, 0, 0, 0, 1, 0, 0, 2, 2, 2, 2, 2, 2, 2, 2, 2, 2, 0, 0, 1, 0, 0, 0, 0, 0, 0],
      [0, 0, 0, 0, 0, 0, 1, 0, 0, 2, 0, 0, 0, 0, 0, 0, 0, 0, 2, 0, 0, 1, 0, 0, 0, 0, 0, 0],
      [0, 0, 0, 0, 0, 0, 1, 0, 0, 2, 0, 2, 2, 2, 2, 2, 2, 0, 2, 0, 0, 1, 0, 0, 0, 0, 0, 0],
      [2, 2, 2, 2, 2, 2, 1, 2, 2, 2, 0, 2, 2, 2, 2, 2, 2, 0, 2, 2, 2, 1, 2, 2, 2, 2, 2, 2],
      [0, 0, 0, 0, 0, 0, 1, 0, 0, 2, 0, 2, 2, 2, 2, 2, 2, 0, 2, 0, 0, 1, 0, 0, 0, 0, 0, 0],
      [0, 0, 0, 0, 0, 0, 1, 0, 0, 2, 0, 0, 0, 0, 0, 0, 0, 0, 2, 0, 0, 1, 0, 0, 0, 0, 0, 0],
      [0, 0, 0, 0, 0, 0, 1, 0, 0, 2, 2, 2, 2, 2, 2, 2, 2, 2, 2, 0, 0, 1, 0, 0, 0, 0, 0, 0],
      [0, 0, 0, 0, 0, 0, 1, 0, 0, 2, 0, 0, 0, 0, 0, 0, 0, 0, 2, 0, 0, 1, 0, 0, 0, 0, 0, 0],
      [0, 1, 1, 1, 1, 1, 1, 1, 1, 1, 1, 1, 1, 0, 0, 1, 1, 1, 1, 1, 1, 1, 1, 1, 1, 1, 1, 0],
      [0, 1, 0, 0, 0, 0, 1, 0, 0, 0, 0, 0, 1, 0, 0, 1, 0, 0, 0, 0, 0, 1, 0, 0, 0, 0, 1, 0],
      [0, 1, 0, 0, 0, 0, 1, 0, 0, 0, 0, 0, 1, 0, 0, 1, 0, 0, 0, 0, 0, 1, 0, 0, 0, 0, 1, 0],
      [0, 3, 1, 1, 0, 0, 1, 1, 1, 1, 1, 1, 1, 2, 2, 1, 1, 1, 1, 1, 1, 1, 0, 0, 1, 1, 3, 0],
      [0, 0, 0, 1, 0, 0, 1, 0, 0, 1, 0, 0, 0, 0, 0, 0, 0, 0, 1, 0, 0, 1, 0, 0, 1, 0, 0, 0],
      [0, 0, 0, 1, 0, 0, 1, 0, 0, 1, 0, 0, 0, 0, 0, 0, 0, 0, 1, 0, 0, 1, 0, 0, 1, 0, 0, 0],
      [0, 1, 1, 1, 1, 1, 1, 0, 0, 1, 1, 1, 1, 0, 0, 1, 1, 1, 1, 0, 0, 1, 1, 1, 1, 1, 1, 0],
      [0, 1, 0, 0, 0, 0, 0, 0, 0, 0, 0, 0, 1, 0, 0, 1, 0, 0, 0, 0, 0, 0, 0, 0, 0, 0, 1, 0],
      [0, 1, 0, 0, 0, 0, 0, 0, 0, 0, 0, 0, 1, 0, 0, 1, 0, 0, 0, 0, 0, 0, 0, 0, 0, 0, 1, 0],
      [0, 1, 1, 1, 1, 1, 1, 1, 1, 1, 1, 1, 1, 1, 1, 1, 1, 1, 1, 1, 1, 1, 1, 1, 1, 1, 1, 0],
      [0, 0, 0, 0, 0, 0, 0, 0, 0, 0, 0, 0, 0, 0, 0, 0, 0, 0, 0, 0, 0, 0, 0, 0, 0, 0, 0, 0] ]
  }

  /** `Math.floor(v / CELL_SIZE)`: the index of the cell band holding v. */
  function Cell(v: real): (c: int)
    ensures c as real * CellSize <= v < (c + 1) as real * CellSize
  {
    (v / CellSize).Floor
  }

  /** The wall test of update and moveGhosts: the row `maze[gridY]` must
      exist, and the value at gridX must not be 0. A column outside the row
      reads `undefined`, which is not 0, so it lets the sprite through. */
  predicate Passable(g: seq<seq<int>>, nx: real, ny: real)
  {
    var r := Cell(ny);
    var c := Cell(nx);
    0 <= r < |g| && !(0 <= c < |g[r]| && g[r][c] == Wall)
  }

  /** The tunnel: a sprite more than its own width off the left edge comes
      back at the right edge, one past the right edge comes back at the
      left. */
  function Wrap(x: real, width: real, size: real): (w: real)
    requires width >= 0.0 && size >= 0.0
    ensures -size <= w <= width
    ensures -size <= x <= width ==> w == x
  {
    var x1 := if x < -size then width else x;
    if x1 > width then -size else x1
  }

  // ---------------------------------------------------------------------
  // The key-state mapping and Pac-Man's step.

  /** Which arrow keys are held down. */
  datatype Keys = Keys(left: bool, right: bool, up: bool, down: bool)

  datatype Key = ArrowLeft | ArrowRight | ArrowUp | ArrowDown | OtherKey

  /** The candidate position and the facing that update computes from the
      held keys, in the order left, right, up, down. */
  datatype Steering = Steering(nx: real, ny: real, direction: int)

  function Steer(x: real, y: real, direction: int, k: Keys): (s: Steering)
    ensures s.nx == x - (if k.left then PacmanSpeed else 0.0) + (if k.right then PacmanSpeed else 0.0)
    ensures s.ny == y - (if k.up then PacmanSpeed else 0.0) + (if k.down then PacmanSpeed else 0.0)
    ensures s.direction ==
      if k.down then 1 else if k.up then 3 else if k.right then 0 else if k.left then 2 else direction
  {
    var s1 := if k.left then Steering(x - PacmanSpeed, y, 2) else Steering(x, y, direction);
    var s2 := if k.right then Steering(s1.nx + PacmanSpeed, s1.ny, 0) else s1;
    var s3 := if k.up then Steering(s2.nx, s2.ny - PacmanSpeed, 3) else s2;
    if k.down then Steering(s3.nx, s3.ny + PacmanSpeed, 1) else s3
  }

  /** Holding both keys of an axis cancels the motion on that axis; the
      later key in the order still sets the facing. */
  lemma OppositeKeysCancel(x: real, y: real, direction: int)
    ensures var s := Steer(x, y, direction, Keys(true, true, false, false));
      s.nx == x && s.ny == y && s.direction == 0
    ensures var s := Steer(x, y, direction, Keys(false, false, true, true));
      s.nx == x && s.ny == y && s.direction == 1
  {
  }

  // ---------------------------------------------------------------------
  // What is left to eat.

  /** Points a cell is still worth. */
  function Value(v: int): nat
  {
    if v == Dot then 10 else if v == Pellet then 50 else 0
  }

  function RowWorth(row: seq<int>): nat
  {
    if row == [] then 0 else RowWorth(row[..|row| - 1]) + Value(row[|row| - 1])
  }

  /** Points still on the board: 10 per dot, 50 per pellet. */
  function Worth(g: seq<seq<int>>): nat
  {
    if g == [] then 0 else Worth(g[..|g| - 1]) + RowWorth(g[|g| - 1])
  }

  /** Writing one cell changes a row's worth by the change in that cell. */
  lemma {:induction false} RowWorthUpdate(row: seq<int>, c: int, v: int)
    requires 0 <= c < |row|
    ensures RowWorth(row[c := v]) + Value(row[c]) == RowWorth(row) + Value(v)
  {
    var n := |row| - 1;
    if c < n {
      assert row[c := v][..n] == row[..n][c := v];
      RowWorthUpdate(row[..n], c, v);
    } else {
      assert row[c := v][..n] == row[..n];
    }
  }

  /** Replacing one row changes the worth by the change in that row. */
  lemma {:induction false} WorthReplaceRow(g: seq<seq<int>>, r: int, row: seq<int>)
    requires 0 <= r < |g|
    ensures Worth(g[r := row]) + RowWorth(g[r]) == Worth(g) + RowWorth(row)
  {
    var n := |g| - 1;
    if r < n {
      assert g[r := row][..n] == g[..n][r := row];
      WorthReplaceRow(g[..n], r, row);
    } else {
      assert g[r := row][..n] == g[..n];
    }
  }

  /** Two mazes of the same shape with the walls in the same cells. */
  predicate SameWalls(g: seq<seq<int>>, h: seq<seq<int>>)
  {
    |g| == |h| &&
    (forall r :: 0 <= r < |g| ==> |g[r]| == |h[r]|) &&
    forall r, c :: 0 <= r < |g| && 0 <= c < |g[r]| ==> (g[r][c] == Wall <==> h[r][c] == Wall)
  }

  /** The wall test only sees walls, so mazes with the same walls pass the
      same moves. */
  lemma SameWallsSamePassage(g: seq<seq<int>>, h: seq<seq<int>>, nx: real, ny: real)
    requires SameWalls(g, h)
    ensures Passable(g, nx, ny) <==> Passable(h, nx, ny)
  {
  }

  /** The eating part of checkCollisions at the cell under Pac-Man's centre:
      a dot or a pellet becomes empty and scores 10 or 50; anything else,
      or a cell off the board, gives nothing. */
  datatype Meal = Meal(maze: seq<seq<int>>, points: int)

  function Eat(g: seq<seq<int>>, x: real, y: real): (m: Meal)
    ensures SameWalls(g, m.maze)
    ensures m.points == 0 || m.points == 10 || m.points == 50
  {
    var r := Cell(y + PacmanSize / 2.0);
    var c := Cell(x + PacmanSize / 2.0);
    if 0 <= r < |g| && 0 <= c < |g[r]| && g[r][c] == Dot then Meal(g[r := g[r][c := Empty]], 10)
    else if 0 <= r < |g| && 0 <= c < |g[r]| && g[r][c] == Pellet then Meal(g[r := g[r][c := Empty]], 50)
    else Meal(g, 0)
  }

  /** Every point scored leaves the board: score plus what is left to eat
      never changes. */
  lemma EatKeepsTotal(g: seq<seq<int>>, x: real, y: real)
    ensures Worth(Eat(g, x, y).maze) + Eat(g, x, y).points == Worth(g)
  {
    var r := Cell(y + PacmanSize / 2.0);
    var c := Cell(x + PacmanSize / 2.0);
    if 0 <= r < |g| && 0 <= c < |g[r]| && (g[r][c] == Dot || g[r][c] == Pellet) {
      RowWorthUpdate(g[r], c, Empty);
      WorthReplaceRow(g, r, g[r][c := Empty]);
    }
  }

  /** Eating changes at most the centre cell, and leaves no food there. */
  lemma EatTouchesCentreOnly(g: seq<seq<int>>, x: real, y: real)
    ensures var m := Eat(g, x, y);
      var r := Cell(y + PacmanSize / 2.0);
      var c := Cell(x + PacmanSize / 2.0);
      && (forall i, j :: 0 <= i < |g| && 0 <= j < |g[i]| && (i, j) != (r, c) ==> m.maze[i][j] == g[i][j])
      && (0 <= r < |g| && 0 <= c < |g[r]| ==> Value(m.maze[r][c]) == 0 && m.points == Value(g[r][c]))
  {
  }

  // ---------------------------------------------------------------------
  // Ghosts.

  /** The three Math.random() values one ghost may draw in a frame: whether
      to turn, the new direction, and the direction after hitting a wall. */
  datatype Rolls = Rolls(turn: real, pick: real, repick: real)

  predicate RollsInRange(r: Rolls)
  {
    0.0 <= r.turn < 1.0 && 0.0 <= r.pick < 1.0 && 0.0 <= r.repick < 1.0
  }

  /** `Math.floor(Math.random() * 4)`: one of the four direction codes. */
  function Direction(roll: real): (d: int)
    requires 0.0 <= roll < 1.0
    ensures 0 <= d < 4
    ensures d as real <= roll * 4.0 < d as real + 1.0
  {
    (roll * 4.0).Floor
  }

  /** The point a ghost aims at: code 0 is up, 1 right, 2 down, 3 left; any
      other code stands still. */
  function Ahead(x: real, y: real, direction: int, speed: real): (p: (real, real))
    ensures direction == 0 ==> p == (x, y - speed)
    ensures direction == 1 ==> p == (x + speed, y)
    ensures direction == 2 ==> p == (x, y + speed)
    ensures direction == 3 ==> p == (x - speed, y)
    ensures !(0 <= direction < 4) ==> p == (x, y)
  {
    (x + (if direction == 1 then speed else if direction == 3 then -speed else 0.0),
     y + (if direction == 2 then speed else if direction == 0 then -speed else 0.0))
  }

  /** One ghost's turn in moveGhosts, from (x0, y0) facing d0 to (x1, y1)
      facing d1: with chance 0.05 a new direction is drawn; the ghost steps
      if the wall test lets it and otherwise stays and draws again; then the
      tunnel wraps x. */
  predicate GhostMoved(maze: seq<seq<int>>, x0: real, y0: real, d0: int, speed: real, r: Rolls, width: real,
                       x1: real, y1: real, d1: int)
    requires RollsInRange(r) && width >= 0.0
  {
    var d := if r.turn < TurnChance then Direction(r.pick) else d0;
    var (nx, ny) := Ahead(x0, y0, d, speed);
    if Passable(maze, nx, ny) then x1 == Wrap(nx, width, GhostSize) && y1 == ny && d1 == d
    else x1 == Wrap(x0, width, GhostSize) && y1 == y0 && d1 == Direction(r.repick)
  }

  class Ghost {
    var x: real
    var y: real
    var direction: int
    const speed: real

    constructor (x0: real, y0: real)
      ensures x == x0 && y == y0 && direction == 0 && speed == GhostSpeed
    {
      x, y := x0, y0;
      direction := 0;
      speed := GhostSpeed;
    }

    /** One ghost's turn in moveGhosts: maybe pick a new direction, step if
        the wall test lets it, otherwise stay and pick again; then wrap. */
    method Move(maze: seq<seq<int>>, r: Rolls, width: real)
      requires RollsInRange(r) && width >= 0.0
      modifies this
      ensures -GhostSize <= x <= width
      ensures 0 <= old(direction) < 4 ==> 0 <= direction < 4
      ensures GhostMoved(maze, old(x), old(y), old(direction), speed, r, width, x, y, direction)
    {
      if r.turn < TurnChance {
        direction := Direction(r.pick);
      }
      var (nx, ny) := Ahead(x, y, direction, speed);
      if Passable(maze, nx, ny) {
        x, y := nx, ny;
      } else {
        direction := Direction(r.repick);
      }
      x := Wrap(x, width, GhostSize);
    }
  }

  // ---------------------------------------------------------------------
  // Contact.

  /** The test of checkCollisions without the square root: the centres are
      closer than the sum of the two radii, 24. */
  predicate Touches(px: real, py: real, gx: real, gy: real)
  {
    var dx := (px + PacmanSize / 2.0) - (gx + GhostSize / 2.0);
    var dy := (py + PacmanSize / 2.0) - (gy + GhostSize / 2.0);
    dx * dx + dy * dy < (PacmanSize / 2.0 + GhostSize / 2.0) * (PacmanSize / 2.0 + GhostSize / 2.0)
  }

  /** For the distance d that Math.sqrt returns (the non-negative root of
      dx*dx + dy*dy), `d < 24` holds exactly when Touches does. */
  lemma DistanceTestIsSquaredTest(px: real, py: real, gx: real, gy: real, d: real)
    requires d >= 0.0
    requires var dx := (px + PacmanSize / 2.0) - (gx + GhostSize / 2.0);
      var dy := (py + PacmanSize / 2.0) - (gy + GhostSize / 2.0);
      d * d == dx * dx + dy * dy
    ensures d < PacmanSize / 2.0 + GhostSize / 2.0 <==> Touches(px, py, gx, gy)
  {
    var dx := (px + PacmanSize / 2.0) - (gx + GhostSize / 2.0);
    var dy := (py + PacmanSize / 2.0) - (gy + GhostSize / 2.0);
    assert Touches(px, py, gx, gy) <==> dx * dx + dy * dy < 24.0 * 24.0;
    if d < 24.0 {
      assert d * d <= d * 24.0;
      assert d * 24.0 < 24.0 * 24.0;
    } else {
      assert d * d >= d * 24.0;
      assert d * 24.0 >= 24.0 * 24.0;
    }
  }

  /** The ghost half of checkCollisions: every ghost is checked, none stops
      the walk. */
  method AnyTouch(px: real, py: real, ghosts: seq<Ghost>) returns (hit: bool)
    ensures hit == exists k :: 0 <= k < |ghosts| && Touches(px, py, ghosts[k].x, ghosts[k].y)
  {
    hit := false;
    var i := 0;
    while i < |ghosts|
      invariant 0 <= i <= |ghosts|
      invariant hit == exists k :: 0 <= k < i && Touches(px, py, ghosts[k].x, ghosts[k].y)
    {
      var dx := (px + PacmanSize / 2.0) - (ghosts[i].x + GhostSize / 2.0);
      var dy := (py + PacmanSize / 2.0) - (ghosts[i].y + GhostSize / 2.0);
      if dx * dx + dy * dy < (PacmanSize / 2.0 + GhostSize / 2.0) * (PacmanSize / 2.0 + GhostSize / 2.0) {
        hit := true;
      }
      i := i + 1;
    }
  }

  // ---------------------------------------------------------------------
  // The game state.

  /** Pac-Man's start, cell (14, 23). */
  const StartX: real := 224.0
  const StartY: real := 368.0

  /** Pac-Man's turn in update, from (x0, y0) facing d0 to (x1, y1) facing
      d1: the held keys give a candidate and a facing, the candidate is
      taken if the wall test lets it, and the tunnel wraps x. */
  predicate PacmanStepped(maze: seq<seq<int>>, k: Keys, width: real, x0: real, y0: real, d0: int,
                          x1: real, y1: real, d1: int)
    requires width >= 0.0
  {
    var s := Steer(x0, y0, d0, k);
    d1 == s.direction &&
    if Passable(maze, s.nx, s.ny) then x1 == Wrap(s.nx, width, PacmanSize) && y1 == s.ny
    else x1 == Wrap(x0, width, PacmanSize) && y1 == y0
  }

  /** The `keys` object after a keydown (down) or keyup (not down) event. */
  function Press(k: Keys, key: Key, down: bool): (k1: Keys)
    ensures key == OtherKey ==> k1 == k
    ensures k1.left == (if key == ArrowLeft then down else k.left)
    ensures k1.right == (if key == ArrowRight then down else k.right)
    ensures k1.up == (if key == ArrowUp then down else k.up)
    ensures k1.down == (if key == ArrowDown then down else k.down)
  {
    match key
    case ArrowLeft => k.(left := down)
    case ArrowRight => k.(right := down)
    case ArrowUp => k.(up := down)
    case ArrowDown => k.(down := down)
    case OtherKey => k
  }

  class Pacman {
    var x: real
    var y: real
    /** The facing: 0 right, 1 down, 2 left, 3 up. */
    var direction: int

    constructor ()
      ensures x == StartX && y == StartY && direction == 0
    {
      x, y := StartX, StartY;
      direction := 0;
    }
  }

  /** The tunnel never wraps a sprite into a wall: both re-entry points
      lie outside every column of a maze no wider than the canvas. */
  lemma WrapKeepsPassage(maze: seq<seq<int>>, x: real, y: real, width: real)
    requires forall r :: 0 <= r < |maze| ==> |maze[r]| <= Cols
    requires width >= Cols as real * CellSize
    requires Passable(maze, x, y)
    ensures Passable(maze, Wrap(x, width, PacmanSize), y)
  {
    var w := Wrap(x, width, PacmanSize);
    if w != x {
      assert w == width || w == -PacmanSize;
      assert Cell(w) < 0 || Cell(w) >= Cols;
    }
  }

  /** Pac-Man's start (224, 368) puts its top-left point on a wall cell,
      (14, 23). Of the four single-key steps only the one upwards passes the
      wall test, so until the player presses up Pac-Man stays put. */
  lemma StartCellIsWall()
    ensures Layout()[Cell(StartY)][Cell(StartX)] == Wall
    ensures !Passable(Layout(), StartX, StartY)
    ensures Passable(Layout(), StartX, StartY - PacmanSpeed)
    ensures !Passable(Layout(), StartX - PacmanSpeed, StartY)
    ensures !Passable(Layout(), StartX + PacmanSpeed, StartY)
    ensures !Passable(Layout(), StartX, StartY + PacmanSpeed)
  {
    var g := Layout();
    assert Cell(StartX) == 14 && Cell(StartY) == 23;
    assert Cell(StartX - PacmanSpeed) == 13 && Cell(StartX + PacmanSpeed) == 14;
    assert Cell(StartY - PacmanSpeed) == 22 && Cell(StartY + PacmanSpeed) == 23;
    assert g[23][13] == Wall && g[23][14] == Wall && g[22][14] == Empty;
  }

  /** The fourth ghost also starts on a wall cell, (14, 12); a step up
      takes it out. */
  lemma OrangeGhostStartsInWall()
    ensures !Passable(Layout(), 14.0 * CellSize, 12.0 * CellSize)
    ensures Passable(Layout(), 14.0 * CellSize, 12.0 * CellSize - GhostSpeed)
  {
    var g := Layout();
    assert Cell(14.0 * CellSize) == 14 && Cell(12.0 * CellSize) == 12;
    assert Cell(12.0 * CellSize - GhostSpeed) == 11;
    assert g[12][14] == Wall && g[11][14] == Empty;
  }

  /** The module globals of game.js: the maze, Pac-Man, the four ghosts,
      the score, the game-over flag and the held keys; `width` is the
      canvas width the page sets. */
  class Game {
    var maze: seq<seq<int>>
    const pacman: Pacman
    const ghosts: seq<Ghost>
    var score: int
    var gameOver: bool
    var keys: Keys
    const width: real
    /** The maze as it was loaded, and the points it held. */
    ghost const start: seq<seq<int>>
    ghost const total: int

    /** The walls never change, every point scored has left the board, and
        Pac-Man's top-left point is on a cell the wall test accepts unless
        it has not yet left its start. */
    ghost predicate Valid()
      reads this, pacman, ghosts
    {
      BoardOk() && PacmanOk() && GhostsOk()
    }

    /** The walls are those of the loaded maze, and every point scored has
        left the board. */
    ghost predicate BoardOk()
      reads this
    {
      && width >= Cols as real * CellSize
      && |start| == Rows && (forall r :: 0 <= r < Rows ==> |start[r]| == Cols)
      && SameWalls(start, maze)
      && score + Worth(maze) == total
    }

    ghost predicate PacmanOk()
      reads this, pacman
    {
      && (Passable(maze, pacman.x, pacman.y) || (pacman.x == StartX && pacman.y == StartY))
      && 0 <= pacman.direction < 4
    }

    /** Four distinct ghost objects, each with a proper direction code. */
    ghost predicate GhostsOk()
      reads ghosts
    {
      && (forall i, j :: 0 <= i < j < |ghosts| ==> ghosts[i] != ghosts[j])
      && forall g <- ghosts :: 0 <= g.direction < 4 && g.speed == GhostSpeed
    }

    /** The page load: the maze, Pac-Man at (224, 368) facing right, and
        the red, pink, cyan and orange ghosts at (224, 176), (208, 176),
        (240, 176) and (224, 192), all with direction code 0 (up). */
    constructor (width: real)
      requires width >= Cols as real * CellSize
      ensures Valid()
      ensures maze == Layout() && score == 0 && !gameOver && keys == Keys(false, false, false, false)
      ensures pacman.x == StartX && pacman.y == StartY && pacman.direction == 0 && |ghosts| == 4
      ensures ghosts[0].x == 14.0 * CellSize && ghosts[0].y == 11.0 * CellSize
      ensures ghosts[1].x == 13.0 * CellSize && ghosts[1].y == 11.0 * CellSize
      ensures ghosts[2].x == 15.0 * CellSize && ghosts[2].y == 11.0 * CellSize
      ensures ghosts[3].x == 14.0 * CellSize && ghosts[3].y == 12.0 * CellSize
      ensures ghosts[0].direction == ghosts[1].direction == ghosts[2].direction == ghosts[3].direction == 0
      ensures this.width == width
    {
      pacman := new Pacman();
      var red := new Ghost(14.0 * CellSize, 11.0 * CellSize);
      var pink := new Ghost(13.0 * CellSize, 11.0 * CellSize);
      var cyan := new Ghost(15.0 * CellSize, 11.0 * CellSize);
      var orange := new Ghost(14.0 * CellSize, 12.0 * CellSize);
      ghosts := [red, pink, cyan, orange];
      var g := Layout();
      maze, start, total := g, g, Worth(g);
      score := 0;
      gameOver := false;
      keys := Keys(false, false, false, false);
      this.width := width;
    }

    /** The keydown listener; it works in every state. */
    method KeyDown(key: Key)
      requires Valid()
      modifies this
      ensures Valid()
      ensures keys == Press(old(keys), key, true)
      ensures maze == old(maze) && score == old(score) && gameOver == old(gameOver)
    {
      match key
      case ArrowLeft => keys := keys.(left := true);
      case ArrowRight => keys := keys.(right := true);
      case ArrowUp => keys := keys.(up := true);
      case ArrowDown => keys := keys.(down := true);
      case OtherKey =>
    }

    /** The keyup listener. */
    method KeyUp(key: Key)
      requires Valid()
      modifies this
      ensures Valid()
      ensures keys == Press(old(keys), key, false)
      ensures maze == old(maze) && score == old(score) && gameOver == old(gameOver)
    {
      match key
      case ArrowLeft => keys := keys.(left := false);
      case ArrowRight => keys := keys.(right := false);
      case ArrowUp => keys := keys.(up := false);
      case ArrowDown => keys := keys.(down := false);
      case OtherKey =>
    }

    /** The Pac-Man part of update. */
    method MovePacman()
      requires Valid()
      modifies pacman
      ensures Valid()
      ensures PacmanStepped(maze, keys, width, old(pacman.x), old(pacman.y), old(pacman.direction),
                            pacman.x, pacman.y, pacman.direction)
    {
      var s := Steer(pacman.x, pacman.y, pacman.direction, keys);
      pacman.direction := s.direction;
      if Passable(maze, s.nx, s.ny) {
        pacman.x, pacman.y := s.nx, s.ny;
      }
      if Passable(maze, pacman.x, pacman.y) {
        WrapKeepsPassage(maze, pacman.x, pacman.y, width);
      }
      pacman.x := Wrap(pacman.x, width, PacmanSize);
    }

    /** moveGhosts: every ghost takes its turn, with its own rolls. */
    method MoveGhosts(rolls: seq<Rolls>)
      requires Valid()
      requires |rolls| == |ghosts| && forall r <- rolls :: RollsInRange(r)
      modifies set g | g in ghosts
      ensures Valid()
      ensures forall k :: 0 <= k < |ghosts| ==>
        GhostMoved(maze, old(ghosts[k].x), old(ghosts[k].y), old(ghosts[k].direction), GhostSpeed, rolls[k], width,
                   ghosts[k].x, ghosts[k].y, ghosts[k].direction)
    {
      for i := 0 to |ghosts|
        invariant Valid()
        invariant forall k :: 0 <= k < i ==>
          GhostMoved(maze, old(ghosts[k].x), old(ghosts[k].y), old(ghosts[k].direction), GhostSpeed, rolls[k], width,
                     ghosts[k].x, ghosts[k].y, ghosts[k].direction)
        invariant forall k :: i <= k < |ghosts| ==>
          ghosts[k].x == old(ghosts[k].x) && ghosts[k].y == old(ghosts[k].y) && ghosts[k].direction == old(ghosts[k].direction)
      {
        assert rolls[i] in rolls;
        assert forall k :: 0 <= k < |ghosts| && k != i ==> ghosts[k] != ghosts[i];
        ghosts[i].Move(maze, rolls[i], width);
      }
    }

    /** checkCollisions: any touching ghost ends the game, and the cell
        under Pac-Man's centre is eaten in the same frame. */
    method CheckCollisions()
      requires Valid()
      modifies this
      ensures Valid()
      ensures gameOver == (old(gameOver) || exists k :: 0 <= k < |ghosts| && Touches(pacman.x, pacman.y, ghosts[k].x, ghosts[k].y))
      ensures Eat(old(maze), pacman.x, pacman.y) == Meal(maze, score - old(score))
      ensures keys == old(keys)
    {
      var hit := AnyTouch(pacman.x, pacman.y, ghosts);
      if hit {
        gameOver := true;
      }
      EatKeepsTotal(maze, pacman.x, pacman.y);
      var m := Eat(maze, pacman.x, pacman.y);
      SameWallsSamePassage(maze, m.maze, pacman.x, pacman.y);
      maze := m.maze;
      score := score + m.points;
    }

    /** One animation frame. Nothing changes once the game is over;
        otherwise Pac-Man moves, then the ghosts, then contact and eating
        are checked. `rolls` stands for the ghosts' Math.random() values. */
    method Update(rolls: seq<Rolls>)
      requires Valid()
      requires |rolls| == |ghosts| && forall r <- rolls :: RollsInRange(r)
      modifies this, pacman, set g | g in ghosts
      ensures Valid()
      ensures old(gameOver) ==> unchanged(this, pacman) && forall g <- ghosts :: unchanged(g)
      ensures !old(gameOver) ==>
        && PacmanStepped(old(maze), keys, width, old(pacman.x), old(pacman.y), old(pacman.direction),
                         pacman.x, pacman.y, pacman.direction)
        && (forall k :: 0 <= k < |ghosts| ==>
              GhostMoved(old(maze), old(ghosts[k].x), old(ghosts[k].y), old(ghosts[k].direction), GhostSpeed, rolls[k],
                         width, ghosts[k].x, ghosts[k].y, ghosts[k].direction))
        && (gameOver <==> exists k :: 0 <= k < |ghosts| && Touches(pacman.x, pacman.y, ghosts[k].x, ghosts[k].y))
        && Eat(old(maze), pacman.x, pacman.y) == Meal(maze, score - old(score))
      ensures keys == old(keys)
    {
      if gameOver {
        return;
      }
      MovePacman();
      MoveGhosts(rolls);
      CheckCollisions();
    }
  }
}
