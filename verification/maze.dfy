/** The recursive-backtracker maze carver (`make_maze` and its nested
    `carve_path` in Maze.py). The grid starts as all walls; carving opens
    cells at odd coordinates two steps apart, together with the wall between
    them; the start is marked at (1, 1) and one exit is cut in the last
    column. The shuffle of the four moves is a parameter: for every cell it
    gives the order in which the carver tries the moves. */
module Maze {

  /** A grid of rows, indexed `g[y][x]`. */
  type Grid = seq<seq<char>>

  const Wall: char := '#'
  const Open: char := ' '
  const Start: char := 'S'
  const Exit: char := 'E'

  /** `g` has `h` rows of `w` cells each. */
  predicate IsGrid(g: Grid, w: int, h: int) {
    |g| == h && forall j :: 0 <= j < |g| ==> |g[j]| == w
  }

  predicate InGrid(w: int, h: int, i: int, j: int) {
    0 <= i < w && 0 <= j < h
  }

  /** Strictly inside the border: the bounds the carver tests before moving. */
  predicate Inside(w: int, h: int, i: int, j: int) {
    0 < i < w - 1 && 0 < j < h - 1
  }

  /** A cell the carver can stand on: inside, at odd coordinates. */
  predicate IsCell(w: int, h: int, i: int, j: int) {
    Inside(w, h, i, j) && i % 2 == 1 && j % 2 == 1
  }

  /** A position carving can open: a cell, or the wall midway between two
      horizontally or vertically adjacent cells. An even coordinate has a
      cell on both sides of it, so it is below `w - 2` (or `h - 2`). */
  predicate OnLattice(w: int, h: int, i: int, j: int) {
    && Inside(w, h, i, j)
    && (i % 2 == 1 || j % 2 == 1)
    && (i % 2 == 0 ==> i + 1 < w - 1)
    && (j % 2 == 0 ==> j + 1 < h - 1)
  }

  /** The all-wall grid the carver starts from. */
  function Filled(w: nat, h: nat): (g: Grid)
    ensures IsGrid(g, w, h)
    ensures forall j, i :: InGrid(w, h, i, j) ==> g[j][i] == Wall
  {
    seq(h, _ => seq(w, _ => Wall))
  }

  /** `g` with cell `(i, j)` set to `c`. */
  function SetCell(g: Grid, i: int, j: int, c: char): (g': Grid)
    requires 0 <= j < |g| && 0 <= i < |g[j]|
    ensures |g'| == |g| && forall k :: 0 <= k < |g| ==> |g'[k]| == |g[k]|
    ensures g'[j][i] == c
    ensures forall l, k :: 0 <= l < |g| && 0 <= k < |g[l]| && (l != j || k != i) ==> g'[l][k] == g[l][k]
  {
    g[j := g[j][i := c]]
  }

  /** Number of walls in a row. */
  function CountRow(row: seq<char>): nat {
    if |row| == 0 then 0 else (if row[0] == Wall then 1 else 0) + CountRow(row[1..])
  }

  /** Number of walls in a grid: what every call of the carver decreases. */
  function CountWalls(g: Grid): nat {
    if |g| == 0 then 0 else CountRow(g[0]) + CountWalls(g[1..])
  }

  /** Overwriting one entry of a row changes its wall count by the walls
      written minus the walls overwritten. */
  lemma {:induction false} CountRowSet(row: seq<char>, i: int, c: char)
    requires 0 <= i < |row|
    ensures CountRow(row[i := c]) + (if row[i] == Wall then 1 else 0) == CountRow(row) + (if c == Wall then 1 else 0)
    decreases |row|
  {
    if i == 0 {
      assert row[i := c][1..] == row[1..];
    } else {
      assert row[i := c][1..] == row[1..][i - 1 := c];
      CountRowSet(row[1..], i - 1, c);
    }
  }

  /** Replacing one row changes the grid's wall count by the difference of
      the two rows' counts. */
  lemma {:induction false} CountWallsSet(g: Grid, j: int, row: seq<char>)
    requires 0 <= j < |g|
    ensures CountWalls(g[j := row]) + CountRow(g[j]) == CountWalls(g) + CountRow(row)
    decreases |g|
  {
    if j == 0 {
      assert g[j := row][1..] == g[1..];
    } else {
      assert g[j := row][1..] == g[1..][j - 1 := row];
      CountWallsSet(g[1..], j - 1, row);
    }
  }

  /** Opening a cell removes exactly one wall if it was a wall, and none
      otherwise. */
  lemma OpenCount(g: Grid, i: int, j: int)
    requires 0 <= j < |g| && 0 <= i < |g[j]|
    ensures CountWalls(SetCell(g, i, j, Open)) + (if g[j][i] == Wall then 1 else 0) == CountWalls(g)
  {
    CountRowSet(g[j], i, Open);
    CountWallsSet(g, j, g[j][i := Open]);
  }

  /** The four moves of the carver, in the order `make_maze` lists them. */
  datatype Move = South | East | North | West

  function DX(m: Move): int {
    match m
    case South => 0
    case East => 2
    case North => 0
    case West => -2
  }

  function DY(m: Move): int {
    match m
    case South => 2
    case East => 0
    case North => -2
    case West => 0
  }

  /** `s` is an ordering of the four moves, each exactly once. */
  predicate IsShuffle(s: seq<Move>) {
    multiset(s) == multiset{South, East, North, West}
  }

  /** Every cell gets some ordering of the four moves. */
  ghost predicate Shuffles(order: (int, int) -> seq<Move>) {
    forall x, y :: IsShuffle(order(x, y))
  }

  /** A shuffle has four moves and contains each of them. */
  lemma ShuffleHasAll(s: seq<Move>)
    requires IsShuffle(s)
    ensures |s| == 4
    ensures South in s && East in s && North in s && West in s
  {
    assert |multiset(s)| == 4;
    assert South in multiset(s) && East in multiset(s) && North in multiset(s) && West in multiset(s);
  }

  /** `r` differs from `g` only in positions carving can open, and only by
      holding an open space there. In particular no wall is ever put back. */
  ghost predicate Carved(g: Grid, r: Grid, w: int, h: int) {
    && IsGrid(g, w, h) && IsGrid(r, w, h)
    && forall j, i :: InGrid(w, h, i, j) ==> r[j][i] == g[j][i] || (r[j][i] == Open && OnLattice(w, h, i, j))
  }

  /** Position `(i, j)` is outside the carver's bounds or is not a wall. */
  predicate OpenOrOutside(g: Grid, w: int, h: int, i: int, j: int)
    requires IsGrid(g, w, h)
  {
    Inside(w, h, i, j) ==> g[j][i] != Wall
  }

  /** None of the four neighbouring cells of `(x, y)` is a wall. */
  predicate NeighboursOpen(g: Grid, w: int, h: int, x: int, y: int)
    requires IsGrid(g, w, h)
  {
    && OpenOrOutside(g, w, h, x, y + 2)
    && OpenOrOutside(g, w, h, x + 2, y)
    && OpenOrOutside(g, w, h, x, y - 2)
    && OpenOrOutside(g, w, h, x - 2, y)
  }

  /** Every cell opened between `g` and `r`, except possibly `(x, y)`, has no
      wall left among its neighbouring cells: the carver tried every move
      from it. */
  ghost predicate SettledBut(g: Grid, r: Grid, w: int, h: int, x: int, y: int)
    requires IsGrid(g, w, h) && IsGrid(r, w, h)
  {
    forall j, i :: IsCell(w, h, i, j) && (i != x || j != y) && g[j][i] == Wall && r[j][i] != Wall ==>
      NeighboursOpen(r, w, h, i, j)
  }

  /** Every cell opened between `g` and `r` has no wall left among its
      neighbouring cells. */
  ghost predicate Settled(g: Grid, r: Grid, w: int, h: int)
    requires IsGrid(g, w, h) && IsGrid(r, w, h)
  {
    forall j, i :: IsCell(w, h, i, j) && g[j][i] == Wall && r[j][i] != Wall ==> NeighboursOpen(r, w, h, i, j)
  }

  /** The first `t` moves of `moves` from `(x, y)` lead outside or to a
      position that is not a wall. */
  predicate Tried(g: Grid, w: int, h: int, x: int, y: int, moves: seq<Move>, t: int)
    requires IsGrid(g, w, h) && 0 <= t <= |moves|
  {
    forall s :: 0 <= s < t ==> OpenOrOutside(g, w, h, x + DX(moves[s]), y + DY(moves[s]))
  }

  lemma CarvedTrans(a: Grid, b: Grid, c: Grid, w: int, h: int)
    requires Carved(a, b, w, h) && Carved(b, c, w, h)
    ensures Carved(a, c, w, h)
  {
  }

  /** Carving keeps every open position open, so it keeps neighbours open. */
  lemma CarvedKeepsNeighbours(a: Grid, b: Grid, w: int, h: int, x: int, y: int)
    requires Carved(a, b, w, h)
    requires NeighboursOpen(a, w, h, x, y)
    ensures NeighboursOpen(b, w, h, x, y)
  {
  }

  /** `mid` is `cur` with the wall between cell `(x, y)` and the cell two
      steps away in direction `m` opened: that wall is not a cell, the far
      cell is still a wall, nothing else changed, and the walls counted from
      `g` went down. */
  ghost predicate OpenedToward(g: Grid, cur: Grid, mid: Grid, w: int, h: int, x: int, y: int, m: Move) {
    var nx, ny := x + DX(m), y + DY(m);
    var mx, my := nx - DX(m) / 2, ny - DY(m) / 2;
    && OnLattice(w, h, mx, my) && !IsCell(w, h, mx, my)
    && IsCell(w, h, nx, ny) && IsGrid(mid, w, h)
    && Carved(cur, mid, w, h)
    && (forall j, i :: InGrid(w, h, i, j) && (i != mx || j != my) ==> mid[j][i] == cur[j][i])
    && mid[ny][nx] == Wall && mid[y][x] == Open
    && CountWalls(mid) < CountWalls(g)
  }

  /** The position midway between cell `(x, y)` and the position two steps
      away in direction `m`, when that position is inside, is a wall position
      between two cells: on the lattice, not a cell, and distinct from both. */
  lemma WallBetween(w: int, h: int, x: int, y: int, m: Move)
    requires IsCell(w, h, x, y) && Inside(w, h, x + DX(m), y + DY(m))
    ensures var nx, ny := x + DX(m), y + DY(m);
            var mx, my := nx - DX(m) / 2, ny - DY(m) / 2;
            && IsCell(w, h, nx, ny)
            && OnLattice(w, h, mx, my) && !IsCell(w, h, mx, my)
            && (mx, my) != (nx, ny) && (mx, my) != (x, y)
  {
    match m
    case South =>
    case East =>
    case North =>
    case West =>
  }

  /** Opening the wall between cell `(x, y)` and the cell two steps away in
      direction `m`, when that cell is inside and a wall, is a step of carving
      that removes a wall or none and leaves both cells as they were. */
  lemma OpenBetween(g: Grid, cur: Grid, w: int, h: int, x: int, y: int, m: Move)
    requires IsCell(w, h, x, y) && Carved(g, cur, w, h)
    requires cur[y][x] == Open && CountWalls(cur) < CountWalls(g)
    requires Inside(w, h, x + DX(m), y + DY(m)) && cur[y + DY(m)][x + DX(m)] == Wall
    ensures var mx, my := x + DX(m) - DX(m) / 2, y + DY(m) - DY(m) / 2;
            && InGrid(w, h, mx, my)
            && OpenedToward(g, cur, SetCell(cur, mx, my, Open), w, h, x, y, m)
  {
    var nx, ny := x + DX(m), y + DY(m);
    var mx, my := nx - DX(m) / 2, ny - DY(m) / 2;
    WallBetween(w, h, x, y, m);
    var mid := SetCell(cur, mx, my, Open);
    OpenCount(cur, mx, my);
    assert Carved(cur, mid, w, h);
  }

  /** What a recursive carve from cell `(nx, ny)` promises its caller: it
      opened that cell, carved `next` from `mid` with fewer walls, and
      settled every cell it opened. */
  ghost predicate CarvedFrom(mid: Grid, next: Grid, w: int, h: int, nx: int, ny: int) {
    && IsGrid(mid, w, h) && IsGrid(next, w, h) && InGrid(w, h, nx, ny)
    && next[ny][nx] == Open
    && Carved(mid, next, w, h) && CountWalls(next) < CountWalls(mid)
    && Settled(mid, next, w, h)
  }

  /** One recursive call of the carver, seen from the caller at `(x, y)`:
      `mid` is `cur` with a non-cell position opened, `next` is carved from
      `mid` and settled. Then `next` is carved from `g`, and every cell it
      opened other than `(x, y)` is settled. */
  lemma CallKeeps(g: Grid, cur: Grid, mid: Grid, next: Grid, w: int, h: int, x: int, y: int, mx: int, my: int)
    requires Carved(g, cur, w, h) && Carved(cur, mid, w, h) && Carved(mid, next, w, h)
    requires forall j, i :: InGrid(w, h, i, j) && (i != mx || j != my) ==> mid[j][i] == cur[j][i]
    requires !IsCell(w, h, mx, my)
    requires SettledBut(g, cur, w, h, x, y)
    requires Settled(mid, next, w, h)
    requires InGrid(w, h, x, y) && mid[y][x] == Open
    ensures Carved(cur, next, w, h) && Carved(g, next, w, h)
    ensures SettledBut(g, next, w, h, x, y)
    ensures next[y][x] == Open
  {
    CarvedTrans(cur, mid, next, w, h);
    CarvedTrans(g, cur, next, w, h);
    forall j, i | IsCell(w, h, i, j) && (i != x || j != y) && g[j][i] == Wall && next[j][i] != Wall
      ensures NeighboursOpen(next, w, h, i, j)
    {
      if cur[j][i] != Wall {
        CarvedKeepsNeighbours(cur, next, w, h, i, j);
      } else {
        assert mid[j][i] == Wall;
      }
    }
  }

  /** What the carver at cell `(x, y)` keeps while trying its moves: its
      cell is open, everything it changed since `g` was carved, at least one
      wall is gone, the first `t` moves are tried, and every other cell it
      opened is settled. */
  ghost predicate Progress(g: Grid, cur: Grid, w: int, h: int, x: int, y: int, moves: seq<Move>, t: int) {
    && IsGrid(g, w, h) && IsGrid(cur, w, h) && IsCell(w, h, x, y) && 0 <= t <= |moves|
    && cur[y][x] == Open
    && Carved(g, cur, w, h)
    && CountWalls(cur) < CountWalls(g)
    && Tried(cur, w, h, x, y, moves, t)
    && SettledBut(g, cur, w, h, x, y)
  }

  /** Opening the cell the carver stands on starts the carve: it removes a
      wall, and no other cell is opened yet. */
  lemma CarveStart(g: Grid, w: int, h: int, x: int, y: int, moves: seq<Move>)
    requires IsGrid(g, w, h) && IsCell(w, h, x, y) && g[y][x] == Wall
    ensures Progress(g, SetCell(g, x, y, Open), w, h, x, y, moves, 0)
  {
    OpenCount(g, x, y);
  }

  /** Trying move `t` keeps the earlier moves tried. */
  lemma TriedNext(cur: Grid, next: Grid, w: int, h: int, x: int, y: int, moves: seq<Move>, t: int)
    requires Carved(cur, next, w, h) && 0 <= t < |moves|
    requires Tried(cur, w, h, x, y, moves, t)
    requires OpenOrOutside(next, w, h, x + DX(moves[t]), y + DY(moves[t]))
    ensures Tried(next, w, h, x, y, moves, t + 1)
  {
  }

  /** A move that leads outside or to an open cell is tried without carving. */
  lemma SkipMove(g: Grid, cur: Grid, w: int, h: int, x: int, y: int, moves: seq<Move>, t: int)
    requires Progress(g, cur, w, h, x, y, moves, t) && t < |moves|
    requires OpenOrOutside(cur, w, h, x + DX(moves[t]), y + DY(moves[t]))
    ensures Progress(g, cur, w, h, x, y, moves, t + 1)
  {
    TriedNext(cur, cur, w, h, x, y, moves, t);
  }

  /** A move carved through: `mid` opens the wall towards the cell of move
      `t`, and `next` is what the recursive call returns for that cell. */
  lemma CarveMove(g: Grid, cur: Grid, mid: Grid, next: Grid, w: int, h: int, x: int, y: int, moves: seq<Move>, t: int)
    requires Progress(g, cur, w, h, x, y, moves, t) && t < |moves|
    requires OpenedToward(g, cur, mid, w, h, x, y, moves[t])
    requires CarvedFrom(mid, next, w, h, x + DX(moves[t]), y + DY(moves[t]))
    ensures Progress(g, next, w, h, x, y, moves, t + 1)
  {
    var m := moves[t];
    CallKeeps(g, cur, mid, next, w, h, x, y, x + DX(m) - DX(m) / 2, y + DY(m) - DY(m) / 2);
    TriedNext(cur, next, w, h, x, y, moves, t);
  }

  /** Once every move of a shuffle is tried, no neighbouring cell is a wall. */
  lemma TriedAll(g: Grid, w: int, h: int, x: int, y: int, moves: seq<Move>)
    requires IsGrid(g, w, h) && IsShuffle(moves) && |moves| == 4
    requires Tried(g, w, h, x, y, moves, 4)
    ensures NeighboursOpen(g, w, h, x, y)
  {
    ShuffleHasAll(moves);
    var south :| 0 <= south < |moves| && moves[south] == South;
    var east :| 0 <= east < |moves| && moves[east] == East;
    var north :| 0 <= north < |moves| && moves[north] == North;
    var west :| 0 <= west < |moves| && moves[west] == West;
  }

  /** Carves from cell `(x, y)`: opens it, then for each move in the order the
      shuffle gives, if the cell two steps away is inside and still a wall,
      opens the wall between and carves from there.

      The cell must be a wall on entry; both call sites test this, and it is
      why the number of walls falls with every call. Every cell the carver is
      called on has odd coordinates, which the call sites establish by
      starting at (1, 1) and moving in steps of two. */
  method CarvePath(g: Grid, w: int, h: int, x: int, y: int, order: (int, int) -> seq<Move>) returns (r: Grid)
    requires IsGrid(g, w, h)
    requires IsCell(w, h, x, y)
    requires g[y][x] == Wall
    requires Shuffles(order)
    ensures IsGrid(r, w, h)
    ensures r[y][x] == Open
    ensures Carved(g, r, w, h)
    ensures CountWalls(r) < CountWalls(g)
    ensures NeighboursOpen(r, w, h, x, y)
    ensures Settled(g, r, w, h)
    decreases CountWalls(g), 1
  {
    var moves := order(x, y);
    ShuffleHasAll(moves);
    var cur := SetCell(g, x, y, Open);
    CarveStart(g, w, h, x, y, moves);
    for t := 0 to |moves|
      invariant Progress(g, cur, w, h, x, y, moves, t)
    {
      cur := CarveToward(g, cur, w, h, x, y, moves, t, order);
    }
    CarveDone(g, cur, w, h, x, y, moves);
    r := cur;
  }

  /** Move `t` of the carver at cell `(x, y)`: if the cell two steps away is
      inside and still a wall, opens the wall between and carves from there;
      otherwise leaves the grid as it is. Either way the carver has now tried
      move `t` too. */
  method CarveToward(g: Grid, cur: Grid, w: int, h: int, x: int, y: int, moves: seq<Move>, t: int, order: (int, int) -> seq<Move>)
    returns (next: Grid)
    requires Progress(g, cur, w, h, x, y, moves, t) && t < |moves|
    requires Shuffles(order)
    ensures Progress(g, next, w, h, x, y, moves, t + 1)
    decreases CountWalls(g), 0
  {
    var m := moves[t];
    var nx, ny := x + DX(m), y + DY(m);
    if 0 < nx < w - 1 && 0 < ny < h - 1 && cur[ny][nx] == Wall {
      var mx, my := nx - DX(m) / 2, ny - DY(m) / 2;
      OpenBetween(g, cur, w, h, x, y, m);
      var mid := SetCell(cur, mx, my, Open);
      next := CarvePath(mid, w, h, nx, ny, order);
      assert CarvedFrom(mid, next, w, h, nx, ny);
      CarveMove(g, cur, mid, next, w, h, x, y, moves, t);
    } else {
      SkipMove(g, cur, w, h, x, y, moves, t);
      next := cur;
    }
  }

  /** When every move is tried, the carve from `(x, y)` is complete: every
      cell it opened, its own included, is settled. */
  lemma CarveDone(g: Grid, cur: Grid, w: int, h: int, x: int, y: int, moves: seq<Move>)
    requires IsShuffle(moves) && |moves| == 4
    requires Progress(g, cur, w, h, x, y, moves, |moves|)
    ensures NeighboursOpen(cur, w, h, x, y)
    ensures Settled(g, cur, w, h)
  {
    TriedAll(cur, w, h, x, y, moves);
  }

  /** Every cell is reached: if the start cell is open and every open cell
      has open neighbours, then every cell is open, by induction on the
      distance from the start. */
  lemma {:induction false} AllCellsOpen(g: Grid, w: int, h: int, i: int, j: int)
    requires IsGrid(g, w, h)
    requires IsCell(w, h, 1, 1) && g[1][1] != Wall
    requires forall l, k :: IsCell(w, h, k, l) && g[l][k] != Wall ==> NeighboursOpen(g, w, h, k, l)
    requires IsCell(w, h, i, j)
    ensures g[j][i] != Wall
    decreases i + j
  {
    if i > 1 {
      AllCellsOpen(g, w, h, i - 2, j);
      assert NeighboursOpen(g, w, h, i - 2, j);
    } else if j > 1 {
      AllCellsOpen(g, w, h, i, j - 2);
      assert NeighboursOpen(g, w, h, i, j - 2);
    }
  }

  /** A full carve from (1, 1) of the all-wall grid opens every cell. */
  lemma AllCellsCarved(walls: Grid, g: Grid, w: int, h: int)
    requires IsGrid(walls, w, h) && IsGrid(g, w, h)
    requires forall j, i :: InGrid(w, h, i, j) ==> walls[j][i] == Wall
    requires IsCell(w, h, 1, 1) && g[1][1] == Open
    requires Carved(walls, g, w, h) && Settled(walls, g, w, h)
    ensures forall j, i :: IsCell(w, h, i, j) ==> g[j][i] == Open
  {
    forall j, i | IsCell(w, h, i, j)
      ensures g[j][i] == Open
    {
      AllCellsOpen(g, w, h, i, j);
    }
  }

  /** The grid between carving and cutting the exit: the start at (1, 1),
      every other position a wall or, on the lattice, open, and every cell
      other than the start open. */
  ghost predicate Marked(g: Grid, w: int, h: int) {
    && IsGrid(g, w, h) && w >= 2 && h >= 2
    && g[1][1] == Start
    && (forall j, i :: InGrid(w, h, i, j) && (i != 1 || j != 1) ==>
          g[j][i] == Wall || (g[j][i] == Open && OnLattice(w, h, i, j)))
    && (forall j, i :: IsCell(w, h, i, j) && (i != 1 || j != 1) ==> g[j][i] == Open)
  }

  /** Row `j` is the first row whose column `w - 2` is open. */
  predicate FirstOpenRow(g: Grid, w: int, h: int, j: int)
    requires IsGrid(g, w, h) && w >= 2
  {
    0 <= j < h && g[j][w - 2] == Open && forall k :: 0 <= k < j ==> g[k][w - 2] != Open
  }

  /** Cuts the exit: scans the rows from the top and, in the first one whose
      column `w - 2` is open, writes the exit into column `w - 1`. If no row
      qualifies, the grid is returned unchanged. */
  method PlaceExit(g: Grid, w: int, h: int) returns (r: Grid)
    requires IsGrid(g, w, h) && w >= 2
    ensures IsGrid(r, w, h)
    ensures forall j, i :: InGrid(w, h, i, j) && i != w - 1 ==> r[j][i] == g[j][i]
    ensures forall j :: 0 <= j < h ==> r[j][w - 1] == if FirstOpenRow(g, w, h, j) then Exit else g[j][w - 1]
  {
    r := g;
    for j := 0 to h
      invariant r == g
      invariant forall k :: 0 <= k < j ==> g[k][w - 2] != Open
    {
      if g[j][w - 2] == Open {
        r := SetCell(g, w - 1, j, Exit);
        break;
      }
    }
  }

  /** What the marked grid looks like once the exit is cut: its alphabet, its
      border, its pillars, and its open cells. */
  lemma ExitKeepsShape(g: Grid, maze: Grid, w: int, h: int)
    requires Marked(g, w, h) && IsGrid(maze, w, h)
    requires forall j, i :: InGrid(w, h, i, j) && i != w - 1 ==> maze[j][i] == g[j][i]
    requires forall j :: 0 <= j < h ==> maze[j][w - 1] == if FirstOpenRow(g, w, h, j) then Exit else g[j][w - 1]
    ensures maze[1][1] == Start
    ensures forall j, i :: InGrid(w, h, i, j) ==> maze[j][i] in {Wall, Open, Start, Exit}
    ensures forall j, i :: InGrid(w, h, i, j) && (i == 0 || j == 0 || j == h - 1 || i == w - 1) && (i != 1 || j != 1) ==>
              maze[j][i] == Wall || (i == w - 1 && maze[j][i] == Exit)
    ensures forall j, i :: InGrid(w, h, i, j) && i < w - 1 && i % 2 == 0 && j % 2 == 0 ==> maze[j][i] == Wall
    ensures forall j, i :: IsCell(w, h, i, j) && (i != 1 || j != 1) ==> maze[j][i] == Open
  {
    forall j, i | InGrid(w, h, i, j)
      ensures maze[j][i] in {Wall, Open, Start, Exit}
    {
      if i == w - 1 && FirstOpenRow(g, w, h, j) {
        assert maze[j][i] == Exit;
      } else {
        assert maze[j][i] == g[j][i];
      }
    }
  }

  /** Where the exit goes: only in the last column, in exactly the first row
      whose column `w - 2` is open; never for an even width; in row 1 for an
      odd width of at least 5. */
  lemma ExitPlacement(g: Grid, maze: Grid, w: int, h: int)
    requires Marked(g, w, h) && IsGrid(maze, w, h)
    requires forall j, i :: InGrid(w, h, i, j) && i != w - 1 ==> maze[j][i] == g[j][i]
    requires forall j :: 0 <= j < h ==> maze[j][w - 1] == if FirstOpenRow(g, w, h, j) then Exit else g[j][w - 1]
    ensures forall j, i :: InGrid(w, h, i, j) && maze[j][i] == Exit ==> i == w - 1
    ensures forall j :: 0 <= j < h ==> (maze[j][w - 1] == Exit <==> FirstOpenRow(maze, w, h, j))
    ensures w % 2 == 0 ==> forall j :: 0 <= j < h ==> maze[j][w - 1] != Exit
    ensures w % 2 == 1 && w >= 5 && h >= 3 ==> maze[1][w - 1] == Exit
  {
    forall j | 0 <= j < h
      ensures FirstOpenRow(maze, w, h, j) <==> FirstOpenRow(g, w, h, j)
    {
      assert forall k :: 0 <= k < h ==> maze[k][w - 2] == g[k][w - 2];
    }
    if w % 2 == 1 && w >= 5 && h >= 3 {
      assert IsCell(w, h, w - 2, 1);
      assert FirstOpenRow(g, w, h, 1);
    }
  }

  /** Builds a `w` by `h` maze: all walls, carved from (1, 1), the start marked
      at (1, 1), and the exit cut. When the width or the height is 2 no move
      from (1, 1) passes the carver's bounds test, so carving opens (1, 1)
      and nothing else. */
  method MakeMaze(w: int, h: int, order: (int, int) -> seq<Move>) returns (maze: Grid)
    requires w >= 2 && h >= 2
    requires Shuffles(order)
    ensures IsGrid(maze, w, h)
    ensures maze[1][1] == Start
    ensures forall j, i :: InGrid(w, h, i, j) ==> maze[j][i] in {Wall, Open, Start, Exit}
    ensures forall j, i :: InGrid(w, h, i, j) && (i == 0 || j == 0 || j == h - 1 || i == w - 1) && (i != 1 || j != 1) ==>
              maze[j][i] == Wall || (i == w - 1 && maze[j][i] == Exit)
    ensures forall j, i :: InGrid(w, h, i, j) && i < w - 1 && i % 2 == 0 && j % 2 == 0 ==> maze[j][i] == Wall
    ensures forall j, i :: IsCell(w, h, i, j) && (i != 1 || j != 1) ==> maze[j][i] == Open
    ensures forall j, i :: InGrid(w, h, i, j) && maze[j][i] == Exit ==> i == w - 1
    ensures forall j :: 0 <= j < h ==> (maze[j][w - 1] == Exit <==> FirstOpenRow(maze, w, h, j))
    ensures w % 2 == 0 ==> forall j :: 0 <= j < h ==> maze[j][w - 1] != Exit
    ensures w % 2 == 1 && w >= 5 && h >= 3 ==> maze[1][w - 1] == Exit
  {
    var walls := Filled(w, h);
    var grid: Grid;
    if w >= 3 && h >= 3 {
      grid := CarvePath(walls, w, h, 1, 1, order);
      AllCellsCarved(walls, grid, w, h);
    } else {
      grid := SetCell(walls, 1, 1, Open);
    }
    grid := SetCell(grid, 1, 1, Start);
    assert Marked(grid, w, h);
    maze := PlaceExit(grid, w, h);
    ExitKeepsShape(grid, maze, w, h);
    ExitPlacement(grid, maze, w, h);
  }
}
