/**
 * The 4x4 experiment board (class TestBoard): a grid of cells linked to
 * their orthogonal neighbours, and the exact-step backtracking search that
 * fills `targets`, using `visited` for the cells on the current path.
 */
module ExperimentBoard {
  import opened ExperimentCell
  import opened ExperimentSearch

  const ROWS: int := 4
  const COLS: int := 4

  predicate InBounds(r: int, c: int) {
    0 <= r < ROWS && 0 <= c < COLS
  }

  /** The number of orthogonal steps between two positions (Manhattan distance). */
  function Distance(r: int, c: int, r': int, c': int): nat {
    (if r < r' then r' - r else r - r') + (if c < c' then c' - c else c - c')
  }

  /** Positions one orthogonal step apart (no diagonals). */
  predicate Orthogonal(r: int, c: int, r': int, c': int) {
    Distance(r, c, r', c') == 1
  }

  class TestBoard {
    const grid: array2<TestBoardCell?>
    var targets: set<TestBoardCell>
    var visited: set<TestBoardCell>
    /** The cells of the grid. */
    ghost const Cells: set<TestBoardCell>

    /**
     * The grid is ROWS x COLS, holds a distinct cell at every position, and
     * each cell's neighbours are exactly the in-bounds cells one orthogonal
     * step away.
     */
    ghost predicate Valid()
      reads grid, Cells
    {
      && grid.Length0 == ROWS && grid.Length1 == COLS
      && (forall r, c :: InBounds(r, c) ==>
            grid[r, c] != null && grid[r, c] in Cells && grid[r, c].row == r && grid[r, c].column == c)
      && (forall x :: x in Cells ==> InBounds(x.row, x.column) && grid[x.row, x.column] == x)
      && (forall x :: x in Cells ==> x.adjList <= Cells)
      && (forall x, y :: x in Cells && y in Cells ==>
            (y in x.adjList <==> Orthogonal(x.row, x.column, y.row, y.column)))
    }

    /** The board's cells are closed under adjacency, so the search stays on the board. */
    lemma ValidIsClosed()
      requires Valid()
      ensures Closed(SnapshotOf(Cells))
    {
    }

    /** The neighbours of (r, c) are the cells above, below, left and right of it that exist. */
    lemma NeighbourCells(r: int, c: int)
      requires Valid() && InBounds(r, c)
      ensures grid[r, c].adjList
              == (if r > 0 then {grid[r - 1, c]} else {}) + (if r < ROWS - 1 then {grid[r + 1, c]} else {})
                 + (if c > 0 then {grid[r, c - 1]} else {}) + (if c < COLS - 1 then {grid[r, c + 1]} else {})
    {
      var x := grid[r, c];
      forall y | y in x.adjList
        ensures y == grid[y.row, y.column] && Orthogonal(r, c, y.row, y.column)
      {
      }
    }

    /** A corner cell has two neighbours, an edge cell three and an inner cell four. */
    lemma NeighbourCount(r: int, c: int)
      requires Valid() && InBounds(r, c)
      ensures (r == 0 || r == ROWS - 1) && (c == 0 || c == COLS - 1) ==> |grid[r, c].adjList| == 2
      ensures (0 < r < ROWS - 1) != (0 < c < COLS - 1) ==> |grid[r, c].adjList| == 3
      ensures 0 < r < ROWS - 1 && 0 < c < COLS - 1 ==> |grid[r, c].adjList| == 4
    {
      NeighbourCells(r, c);
      var up: set<TestBoardCell?> := if r > 0 then {grid[r - 1, c]} else {};
      var down: set<TestBoardCell?> := if r < ROWS - 1 then {grid[r + 1, c]} else {};
      var left: set<TestBoardCell?> := if c > 0 then {grid[r, c - 1]} else {};
      var right: set<TestBoardCell?> := if c < COLS - 1 then {grid[r, c + 1]} else {};
      if r > 0 { CellAt(r - 1, c); }
      if r < ROWS - 1 { CellAt(r + 1, c); }
      if c > 0 { CellAt(r, c - 1); }
      if c < COLS - 1 { CellAt(r, c + 1); }
      SidesSize(r, c, up, down, left, right);
    }

    /** The cell stored at (r, c) is a cell of the board and knows its own position. */
    lemma CellAt(r: int, c: int)
      requires Valid() && InBounds(r, c)
      ensures grid[r, c] != null && grid[r, c].row == r && grid[r, c].column == c
    {
    }

    /** Adjacency on the board is symmetric. */
    lemma NeighbourSymmetric(x: TestBoardCell, y: TestBoardCell)
      requires Valid() && x in Cells && y in Cells
      ensures y in x.adjList <==> x in y.adjList
    {
    }

    /** No cell is its own neighbour. */
    lemma NotOwnNeighbour(x: TestBoardCell)
      requires Valid() && x in Cells
      ensures x !in x.adjList
    {
    }

    /**
     * The i-th cell of a walk from `start` along neighbour links is at most
     * i + 1 steps from the start, and an even number of steps short of that.
     */
    lemma {:induction false} WalkDistance(start: TestBoardCell, p: seq<TestBoardCell>, i: int)
      requires Valid() && start in Cells && 0 <= i < |p|
      requires forall k :: 0 <= k < |p| ==> p[k] in Cells
      requires p[0] in start.adjList && forall k :: 0 <= k < |p| - 1 ==> p[k + 1] in p[k].adjList
      ensures Distance(start.row, start.column, p[i].row, p[i].column) <= i + 1
      ensures (i + 1 - Distance(start.row, start.column, p[i].row, p[i].column)) % 2 == 0
    {
      if i > 0 {
        WalkDistance(start, p, i - 1);
        var x, y := p[i - 1], p[i];
        assert y in x.adjList;
        assert Orthogonal(x.row, x.column, y.row, y.column);
        StepDistance(start.row, start.column, x.row, x.column, y.row, y.column);
      } else {
        assert Orthogonal(start.row, start.column, p[0].row, p[0].column);
      }
    }

    /**
     * A target is never further from the start than the roll, and a target
     * that is not a room is an even number of steps short of it (a path of
     * exactly the rolled length ends there).
     */
    lemma TargetDistance(start: TestBoardCell, n: int, t: TestBoardCell)
      requires Valid() && start in Cells
      requires t in Found(SnapshotOf(Cells), start.adjList, n, {start})
      ensures n >= 1 ==> Distance(start.row, start.column, t.row, t.column) <= n
      ensures t.room || (n >= 1 && (n - Distance(start.row, start.column, t.row, t.column)) % 2 == 0)
    {
      ValidIsClosed();
      var b := SnapshotOf(Cells);
      FoundHasPath(b, start.adjList, n, {start}, t);
      var p: seq<TestBoardCell> :| IsSearchPath(b, start.adjList, n, {start}, p) && p[|p| - 1] == t;
      assert forall k :: 0 <= k < |p| ==> p[k] in Cells;
      forall k | 0 <= k < |p| - 1 ensures p[k + 1] in p[k].adjList {
        assert p[k + 1] in b[p[k]].adj;
      }
      WalkDistance(start, p, |p| - 1);
      assert b[t].room == t.room;
    }

    /** The start is never a target, and neither is an occupied cell. */
    lemma TargetsAreFreeCells(start: TestBoardCell, n: int, t: TestBoardCell)
      requires Valid() && start in Cells
      requires t in Found(SnapshotOf(Cells), start.adjList, n, {start})
      ensures t in Cells && t != start && !t.occupied
    {
      ValidIsClosed();
      FoundIsEnterable(SnapshotOf(Cells), start.adjList, n, {start}, t);
    }

    /** With a roll of one the targets are exactly the unoccupied neighbours of the start. */
    lemma OneStepTargets(start: TestBoardCell)
      requires Valid() && start in Cells
      ensures Found(SnapshotOf(Cells), start.adjList, 1, {start}) == set a | a in start.adjList && !a.occupied
    {
      ValidIsClosed();
      OneStepFound(SnapshotOf(Cells), start.adjList, {start});
      NotOwnNeighbour(start);
    }

    /** Cells one orthogonal step apart are linked. */
    lemma Linked(r: int, c: int, r': int, c': int)
      requires Valid() && InBounds(r, c) && InBounds(r', c') && Orthogonal(r, c, r', c')
      ensures grid[r', c'] in grid[r, c].adjList
    {
      CellAt(r, c);
      CellAt(r', c');
    }

    /** A free room next to the start is a target, whatever the roll. */
    lemma AdjacentRoomTarget(start: TestBoardCell, room: TestBoardCell, n: int)
      requires Valid() && start in Cells && room in start.adjList && room.room && !room.occupied
      ensures room in Found(SnapshotOf(Cells), start.adjList, n, {start})
    {
      ValidIsClosed();
      NotOwnNeighbour(start);
      EnterableRoomIsFound(SnapshotOf(Cells), start.adjList, n, {start}, room);
    }

    /**
     * A cell two links from the start is a target of a roll of two when the
     * cell between is free and not a room and the far cell is free and is
     * not the start.
     */
    lemma TwoStepTarget(start: TestBoardCell, mid: TestBoardCell, t: TestBoardCell)
      requires Valid() && start in Cells && mid in Cells && t in Cells
      requires mid in start.adjList && t in mid.adjList && t != start
      requires !mid.occupied && !mid.room && !t.occupied
      ensures t in Found(SnapshotOf(Cells), start.adjList, 2, {start})
    {
      ValidIsClosed();
      NotOwnNeighbour(mid);
      NotOwnNeighbour(start);
      PathEndIsFound(SnapshotOf(Cells), start.adjList, 2, {start}, [mid, t]);
    }

    /** The cells at a sequence of in-bounds positions. */
    ghost function CellsAt(ps: seq<(int, int)>): (p: seq<TestBoardCell>)
      requires Valid() && forall i :: 0 <= i < |ps| ==> InBounds(ps[i].0, ps[i].1)
      reads grid, Cells
      ensures |p| == |ps|
      ensures forall i :: 0 <= i < |ps| ==> p[i] in Cells && p[i].row == ps[i].0 && p[i].column == ps[i].1
    {
      if ps == [] then [] else [GetCell(ps[0].0, ps[0].1)] + CellsAt(ps[1..])
    }

    /**
     * A walk given by its positions: it starts next to (sr, sc), each step is
     * orthogonal, no position repeats or is the start, no cell on it is
     * occupied and none before the last is a room. Its last cell is a target
     * of a roll of its length.
     */
    lemma WalkTarget(sr: int, sc: int, ps: seq<(int, int)>)
      requires Valid() && InBounds(sr, sc) && |ps| >= 1
      requires forall i :: 0 <= i < |ps| ==> InBounds(ps[i].0, ps[i].1)
      requires Orthogonal(sr, sc, ps[0].0, ps[0].1)
      requires forall i :: 0 <= i < |ps| - 1 ==> Orthogonal(ps[i].0, ps[i].1, ps[i + 1].0, ps[i + 1].1)
      requires forall i, j :: 0 <= i < j < |ps| ==> ps[i] != ps[j]
      requires forall i :: 0 <= i < |ps| ==> ps[i] != (sr, sc)
      requires forall i :: 0 <= i < |ps| ==> !GetCell(ps[i].0, ps[i].1).occupied
      requires forall i :: 0 <= i < |ps| - 1 ==> !GetCell(ps[i].0, ps[i].1).room
      ensures GetCell(ps[|ps| - 1].0, ps[|ps| - 1].1)
              in Found(SnapshotOf(Cells), GetCell(sr, sc).adjList, |ps|, {GetCell(sr, sc)})
    {
      ValidIsClosed();
      WalkIsSearchPath(sr, sc, ps);
      var p := CellsAt(ps);
      assert p[|p| - 1] == GetCell(ps[|ps| - 1].0, ps[|ps| - 1].1);
      PathEndIsFound(SnapshotOf(Cells), GetCell(sr, sc).adjList, |ps|, {GetCell(sr, sc)}, p);
    }

    /**
     * On a board with no occupied cell and no room, the last cell of a
     * route from (sr, sc) that never comes back to a position is a target
     * of a roll of the route's length.
     */
    lemma FreeRouteTarget(sr: int, sc: int, w: Route, n: int, tr: int, tc: int)
      requires Valid() && forall x :: x in Cells ==> !x.occupied && !x.room
      requires InBounds(sr, sc) && w.Go? && IsRoute(sr, sc, w) && Avoids(sr, sc, w) && NoRevisit(w)
      requires n == Length(w) && (tr, tc) == Last(w)
      ensures InBounds(tr, tc)
      ensures GetCell(tr, tc) in Found(SnapshotOf(Cells), GetCell(sr, sc).adjList, n, {GetCell(sr, sc)})
    {
      RouteSteps(sr, sc, w);
      AvoidsNotListed(sr, sc, w);
      NoRevisitDistinct(w);
      WalkTarget(sr, sc, Positions(w));
    }

    /** The cells of such a walk form a search path from (sr, sc). */
    lemma WalkIsSearchPath(sr: int, sc: int, ps: seq<(int, int)>)
      requires Valid() && InBounds(sr, sc) && |ps| >= 1
      requires forall i :: 0 <= i < |ps| ==> InBounds(ps[i].0, ps[i].1)
      requires Orthogonal(sr, sc, ps[0].0, ps[0].1)
      requires forall i :: 0 <= i < |ps| - 1 ==> Orthogonal(ps[i].0, ps[i].1, ps[i + 1].0, ps[i + 1].1)
      requires forall i, j :: 0 <= i < j < |ps| ==> ps[i] != ps[j]
      requires forall i :: 0 <= i < |ps| ==> ps[i] != (sr, sc)
      requires forall i :: 0 <= i < |ps| ==> !GetCell(ps[i].0, ps[i].1).occupied
      requires forall i :: 0 <= i < |ps| - 1 ==> !GetCell(ps[i].0, ps[i].1).room
      ensures IsSearchPath(SnapshotOf(Cells), GetCell(sr, sc).adjList, |ps|, {GetCell(sr, sc)}, CellsAt(ps))
    {
      Linked(sr, sc, ps[0].0, ps[0].1);
      WalkLinks(ps);
      WalkCells(sr, sc, ps);
    }

    /** The cells of a walk with distinct positions are distinct, free and not the start. */
    lemma WalkCells(sr: int, sc: int, ps: seq<(int, int)>)
      requires Valid() && InBounds(sr, sc)
      requires forall i :: 0 <= i < |ps| ==> InBounds(ps[i].0, ps[i].1)
      requires forall i, j :: 0 <= i < j < |ps| ==> ps[i] != ps[j]
      requires forall i :: 0 <= i < |ps| ==> ps[i] != (sr, sc)
      requires forall i :: 0 <= i < |ps| ==> !GetCell(ps[i].0, ps[i].1).occupied
      ensures forall i, j :: 0 <= i < j < |ps| ==> CellsAt(ps)[i] != CellsAt(ps)[j]
      ensures forall i :: 0 <= i < |ps| ==> CellsAt(ps)[i] != GetCell(sr, sc) && !CellsAt(ps)[i].occupied
    {
      var p := CellsAt(ps);
      forall i, j | 0 <= i < j < |ps| ensures p[i] != p[j] {
        assert ps[i] == (p[i].row, p[i].column) && ps[j] == (p[j].row, p[j].column);
      }
      forall i | 0 <= i < |ps| ensures p[i] != GetCell(sr, sc) && !p[i].occupied {
        assert p[i] == GetCell(ps[i].0, ps[i].1);
      }
    }

    /** Consecutive positions of a walk are linked cells. */
    lemma WalkLinks(ps: seq<(int, int)>)
      requires Valid() && forall i :: 0 <= i < |ps| ==> InBounds(ps[i].0, ps[i].1)
      requires forall i :: 0 <= i < |ps| - 1 ==> Orthogonal(ps[i].0, ps[i].1, ps[i + 1].0, ps[i + 1].1)
      ensures forall i :: 0 <= i < |ps| - 1 ==> CellsAt(ps)[i + 1] in CellsAt(ps)[i].adjList
    {
      var p := CellsAt(ps);
      forall i | 0 <= i < |ps| - 1 ensures p[i + 1] in p[i].adjList {
        Linked(ps[i].0, ps[i].1, ps[i + 1].0, ps[i + 1].1);
      }
    }

    /** Builds the grid and links every cell to its orthogonal neighbours. */
    constructor ()
      ensures Valid() && fresh(grid) && fresh(Cells)
      ensures forall x :: x in Cells ==> !x.room && !x.occupied
      ensures targets == {} && visited == {}
    {
      var g := NewCells();
      for row := 0 to ROWS
        invariant forall r, c :: InBounds(r, c) ==>
                    g[r, c] != null && fresh(g[r, c]) && g[r, c].row == r && g[r, c].column == c
                    && !g[r, c].room && !g[r, c].occupied
        invariant forall r, c :: InBounds(r, c) ==>
                    (r < row ==> g[r, c].adjList == Neighbours(g, r, c))
                    && (r >= row ==> g[r, c].adjList == {})
      {
        for col := 0 to COLS
          invariant forall r, c :: InBounds(r, c) ==>
                      g[r, c] != null && fresh(g[r, c]) && g[r, c].row == r && g[r, c].column == c
                      && !g[r, c].room && !g[r, c].occupied
          invariant forall r, c :: InBounds(r, c) ==>
                      ((r < row || (r == row && c < col)) ==> g[r, c].adjList == Neighbours(g, r, c))
                      && ((r > row || (r == row && c >= col)) ==> g[r, c].adjList == {})
        {
          LinkNeighbours(g, row, col);
        }
      }
      ghost var cells: set<TestBoardCell> := set r, c | InBounds(r, c) :: g[r, c] as TestBoardCell;
      LinkedGridIsValid(g, cells);
      grid := g;
      Cells := cells;
      targets := {};
      visited := {};
    }

    /** The cell at (row, col); positions outside the grid are an index error in TestBoard.java. */
    function GetCell(row: int, col: int): (cell: TestBoardCell)
      requires Valid() && InBounds(row, col)
      reads grid, Cells
      ensures cell in Cells && cell.row == row && cell.column == col
    {
      grid[row, col]
    }

    function GetTargets(): set<TestBoardCell>
      reads this
    {
      targets
    }

    /**
     * Tries every neighbour of `cell` with `stepsRemaining` left: adds to
     * `targets` what the search specification Found gives for the current
     * path, and leaves `visited` as it found it. `b` is the state of the
     * board's cells, which the search only reads.
     */
    method FindAllTargets(cell: TestBoardCell, stepsRemaining: int, ghost b: Snapshot)
      requires Mirrors(b, Cells) && Closed(b) && cell in Cells
      modifies this`targets, this`visited
      ensures visited == old(visited)
      ensures targets == old(targets) + Found(b, cell.adjList, stepsRemaining, old(visited))
      decreases Cells - visited, 1
    {
      var todo := cell.adjList;
      while todo != {}
        invariant todo <= cell.adjList
        invariant visited == old(visited)
        invariant targets == old(targets) + Found(b, cell.adjList - todo, stepsRemaining, visited)
        decreases todo
      {
        var adjCell :| adjCell in todo;
        ghost var done := cell.adjList - todo;
        FoundAddCandidate(b, done, adjCell, stepsRemaining, visited);
        todo := todo - {adjCell};
        assert cell.adjList - todo == done + {adjCell};
        TryNeighbour(adjCell, stepsRemaining, b);
      }
    }

    /**
     * One pass of the loop in findAllTargets: a neighbour not on the path
     * and not occupied is put on the path, recorded or searched from, and
     * taken off the path again.
     */
    method TryNeighbour(adjCell: TestBoardCell, stepsRemaining: int, ghost b: Snapshot)
      requires Mirrors(b, Cells) && Closed(b) && adjCell in Cells
      modifies this`targets, this`visited
      ensures visited == old(visited)
      ensures targets == old(targets)
                         + (if Enterable(b, adjCell, old(visited)) then Via(b, adjCell, stepsRemaining, old(visited)) else {})
      decreases Cells - visited, 0
    {
      if adjCell !in visited && !adjCell.occupied {
        ghost var path := visited;
        visited := visited + {adjCell};
        if adjCell.room || stepsRemaining == 1 {
          targets := targets + {adjCell};
        } else {
          FindAllTargets(adjCell, stepsRemaining - 1, b);
        }
        visited := visited - {adjCell};
        AddThenRemove(path, adjCell);
      }
    }

    /**
     * Starts a fresh search from `startCell`: the old targets are dropped,
     * the path holds only the start, and the targets become exactly what
     * Found gives for the start's neighbours.
     */
    method CalcTargets(startCell: TestBoardCell, pathlength: int)
      requires Valid() && startCell in Cells
      modifies this`targets, this`visited
      ensures visited == {startCell}
      ensures targets == Found(SnapshotOf(Cells), startCell.adjList, pathlength, {startCell})
    {
      ValidIsClosed();
      ghost var b := SnapshotOf(Cells);
      targets := {};
      visited := {};
      visited := visited + {startCell};
      FindAllTargets(startCell, pathlength, b);
      assert SnapshotOf(Cells) == b;
    }
  }

  /** A walk over the grid written out step by step: the positions entered, in order. */
  datatype Route = Stop | Go(r: int, c: int, rest: Route)

  /** The number of steps of a route. */
  function Length(w: Route): nat {
    match w
    case Stop => 0
    case Go(_, _, rest) => 1 + Length(rest)
  }

  /** The position a route ends on. */
  function Last(w: Route): (int, int)
    requires w.Go?
  {
    if w.rest.Stop? then (w.r, w.c) else Last(w.rest)
  }

  /** The positions a route enters, in order: as many as its steps, the last one where it ends. */
  function Positions(w: Route): (ps: seq<(int, int)>)
    ensures |ps| == Length(w)
    ensures w.Go? ==> ps[0] == (w.r, w.c) && ps[1..] == Positions(w.rest) && ps[|ps| - 1] == Last(w)
  {
    match w
    case Stop => []
    case Go(r, c, rest) => [(r, c)] + Positions(rest)
  }

  /** Each position entered is in bounds and one orthogonal step from the one before, starting from (r, c). */
  predicate IsRoute(r: int, c: int, w: Route)
    decreases w
  {
    match w
    case Stop => true
    case Go(r', c', rest) => InBounds(r', c') && Orthogonal(r, c, r', c') && IsRoute(r', c', rest)
  }

  /** The route never enters (r, c). */
  predicate Avoids(r: int, c: int, w: Route) {
    match w
    case Stop => true
    case Go(r', c', rest) => (r', c') != (r, c) && Avoids(r, c, rest)
  }

  /** The route enters no position twice. */
  predicate NoRevisit(w: Route) {
    match w
    case Stop => true
    case Go(r, c, rest) => Avoids(r, c, rest) && NoRevisit(rest)
  }

  /** A route, read as a sequence of positions, is a walk of orthogonal in-bounds steps. */
  lemma {:induction false} RouteSteps(r: int, c: int, w: Route)
    requires IsRoute(r, c, w) && w.Go?
    ensures Orthogonal(r, c, w.r, w.c)
    ensures forall i :: 0 <= i < |Positions(w)| ==> InBounds(Positions(w)[i].0, Positions(w)[i].1)
    ensures forall i :: 0 <= i < |Positions(w)| - 1 ==>
              Orthogonal(Positions(w)[i].0, Positions(w)[i].1, Positions(w)[i + 1].0, Positions(w)[i + 1].1)
    decreases w
  {
    var ps, qs := Positions(w), Positions(w.rest);
    if w.rest.Go? {
      RouteSteps(w.r, w.c, w.rest);
      forall i | 0 <= i < |ps| ensures InBounds(ps[i].0, ps[i].1) {
        if i > 0 { assert ps[i] == qs[i - 1]; }
      }
      forall i | 0 <= i < |ps| - 1 ensures Orthogonal(ps[i].0, ps[i].1, ps[i + 1].0, ps[i + 1].1) {
        assert ps[i + 1] == qs[i];
        if i > 0 { assert ps[i] == qs[i - 1]; }
      }
    }
  }

  /** A route that avoids a position never lists it. */
  lemma {:induction false} AvoidsNotListed(r: int, c: int, w: Route)
    requires Avoids(r, c, w)
    ensures forall i :: 0 <= i < |Positions(w)| ==> Positions(w)[i] != (r, c)
  {
    if w.Go? {
      AvoidsNotListed(r, c, w.rest);
      assert forall i :: 1 <= i < |Positions(w)| ==> Positions(w)[i] == Positions(w.rest)[i - 1];
    }
  }

  /** A route that revisits nothing lists each position once. */
  lemma {:induction false} NoRevisitDistinct(w: Route)
    requires NoRevisit(w)
    ensures forall i, j :: 0 <= i < j < |Positions(w)| ==> Positions(w)[i] != Positions(w)[j]
  {
    if w.Go? {
      var ps, qs := Positions(w), Positions(w.rest);
      NoRevisitDistinct(w.rest);
      AvoidsNotListed(w.r, w.c, w.rest);
      forall i, j | 0 <= i < j < |ps| ensures ps[i] != ps[j] {
        assert ps[j] == qs[j - 1];
        if i > 0 {
          assert ps[i] == qs[i - 1];
        }
      }
    }
  }

  /** One orthogonal step changes the distance from a fixed position by exactly one. */
  lemma StepDistance(r: int, c: int, x: int, y: int, x': int, y': int)
    requires Orthogonal(x, y, x', y')
    ensures Distance(r, c, x', y') == Distance(r, c, x, y) + 1
            || Distance(r, c, x', y') == Distance(r, c, x, y) - 1
  {
  }

  /**
   * Cells at different positions are different cells, so the cells on the
   * four sides of (r, c) are as many as the sides that hold one.
   */
  lemma SidesSize(r: int, c: int, up: set<TestBoardCell?>, down: set<TestBoardCell?>,
                  left: set<TestBoardCell?>, right: set<TestBoardCell?>)
    requires forall x :: x in up ==> x != null && x.row == r - 1
    requires forall x :: x in down ==> x != null && x.row == r + 1
    requires forall x :: x in left ==> x != null && x.row == r && x.column == c - 1
    requires forall x :: x in right ==> x != null && x.row == r && x.column == c + 1
    ensures |up + down + left + right| == |up| + |down| + |left| + |right|
  {
    DisjointUnionSize(up, down, left, right);
  }

  /** Adding a new element and removing it again gives back the set. */
  lemma AddThenRemove<T>(s: set<T>, x: T)
    requires x !in s
    ensures s + {x} - {x} == s
  {
  }

  /** Four pairwise disjoint sets have as many elements together as apart. */
  lemma DisjointUnionSize<T>(a: set<T>, b: set<T>, c: set<T>, d: set<T>)
    requires a * b == {} && a * c == {} && a * d == {} && b * c == {} && b * d == {} && c * d == {}
    ensures |a + b + c + d| == |a| + |b| + |c| + |d|
  {
    assert (a + b) * c == {};
    assert (a + b + c) * d == {};
  }

  /** A fresh ROWS x COLS grid with a new cell at every position. */
  method NewCells() returns (g: array2<TestBoardCell?>)
    ensures fresh(g) && g.Length0 == ROWS && g.Length1 == COLS
    ensures forall r, c :: InBounds(r, c) ==>
              g[r, c] != null && fresh(g[r, c]) && g[r, c].row == r && g[r, c].column == c
              && !g[r, c].room && !g[r, c].occupied && g[r, c].adjList == {}
  {
    g := new TestBoardCell?[ROWS, COLS];
    for row := 0 to ROWS
      invariant forall r, c :: 0 <= r < row && 0 <= c < COLS ==>
                  g[r, c] != null && fresh(g[r, c]) && g[r, c].row == r && g[r, c].column == c
                  && !g[r, c].room && !g[r, c].occupied && g[r, c].adjList == {}
    {
      for col := 0 to COLS
        invariant forall r, c :: 0 <= r < row && 0 <= c < COLS ==>
                    g[r, c] != null && fresh(g[r, c]) && g[r, c].row == r && g[r, c].column == c
                    && !g[r, c].room && !g[r, c].occupied && g[r, c].adjList == {}
        invariant forall c :: 0 <= c < col ==>
                    g[row, c] != null && fresh(g[row, c]) && g[row, c].row == row && g[row, c].column == c
                    && !g[row, c].room && !g[row, c].occupied && g[row, c].adjList == {}
      {
        g[row, col] := new TestBoardCell(row, col);
      }
    }
  }

  /** Adds the in-bounds up, down, left and right neighbours of (row, col). */
  method LinkNeighbours(g: array2<TestBoardCell?>, row: int, col: int)
    requires g.Length0 == ROWS && g.Length1 == COLS && InBounds(row, col)
    requires forall r, c :: InBounds(r, c) ==> g[r, c] != null
    requires g[row, col].adjList == {}
    modifies g[row, col]`adjList
    ensures g[row, col].adjList == Neighbours(g, row, col)
  {
    var cell := g[row, col];
    if row > 0 {
      cell.AddAdjacency(g[row - 1, col]);
    }
    if row < ROWS - 1 {
      cell.AddAdjacency(g[row + 1, col]);
    }
    if col > 0 {
      cell.AddAdjacency(g[row, col - 1]);
    }
    if col < COLS - 1 {
      cell.AddAdjacency(g[row, col + 1]);
    }
    NeighboursOf(g, row, col);
  }

  /** A grid whose cells hold their own positions and their orthogonal neighbours is Valid. */
  lemma LinkedGridIsValid(g: array2<TestBoardCell?>, cells: set<TestBoardCell>)
    requires g.Length0 == ROWS && g.Length1 == COLS
    requires forall r, c :: InBounds(r, c) ==>
               g[r, c] != null && g[r, c].row == r && g[r, c].column == c
               && g[r, c].adjList == Neighbours(g, r, c)
    requires cells == set r, c | InBounds(r, c) :: g[r, c] as TestBoardCell
    ensures forall x :: x in cells ==> InBounds(x.row, x.column) && g[x.row, x.column] == x
    ensures forall x :: x in cells ==> x.adjList <= cells
    ensures forall x, y :: x in cells && y in cells ==>
              (y in x.adjList <==> Orthogonal(x.row, x.column, y.row, y.column))
  {
  }

  /** `b` records the current flags and neighbours of exactly the cells `cells`. */
  ghost predicate Mirrors(b: Snapshot, cells: set<TestBoardCell>)
    reads cells
  {
    && b.Keys == cells
    && forall c :: c in cells ==> b[c] == CellState(c.room, c.occupied, c.adjList)
  }

  /** The in-bounds cells of `g` one orthogonal step from (r, c). */
  ghost function Neighbours(g: array2<TestBoardCell?>, r: int, c: int): set<TestBoardCell?>
    reads g
    requires g.Length0 == ROWS && g.Length1 == COLS
  {
    set r', c' | InBounds(r', c') && Orthogonal(r, c, r', c') :: g[r', c']
  }

  /** The four bounds-checked links the constructor adds are the orthogonal neighbours. */
  lemma NeighboursOf(g: array2<TestBoardCell?>, r: int, c: int)
    requires g.Length0 == ROWS && g.Length1 == COLS && InBounds(r, c)
    ensures Neighbours(g, r, c)
            == (if r > 0 then {g[r - 1, c]} else {}) + (if r < ROWS - 1 then {g[r + 1, c]} else {})
               + (if c > 0 then {g[r, c - 1]} else {}) + (if c < COLS - 1 then {g[r, c + 1]} else {})
  {
  }

}
