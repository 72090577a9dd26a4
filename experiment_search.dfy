/**
 * What the backtracking search of TestBoard.findAllTargets computes, stated
 * twice over a snapshot of the board: once by recursion, the way the search
 * explores (Found), and once as the set of last cells of admissible paths
 * (IsSearchPath). The lemma FoundIsPathEnds proves the two agree.
 *
 * Throughout, `b` maps each board cell to its flags and neighbours, `steps`
 * is the budget TestBoard.java calls stepsRemaining, and `path` holds the cells
 * already on the current path (the Java field `visited`).
 */
module ExperimentSearch {
  import opened ExperimentCell

  /** The fields of one cell that the search consults. */
  datatype CellState = CellState(room: bool, occupied: bool, adj: set<TestBoardCell>)

  type Snapshot = map<TestBoardCell, CellState>

  /** The current flags and neighbours of `cells`. */
  ghost function SnapshotOf(cells: set<TestBoardCell>): (b: Snapshot)
    reads cells
    ensures b.Keys == cells
    ensures forall c :: c in cells ==>
              b[c].room == c.room && b[c].occupied == c.occupied && b[c].adj == c.adjList
  {
    map c | c in cells :: CellState(c.room, c.occupied, c.adjList)
  }

  /** Every neighbour of a cell of `b` is a cell of `b`. */
  ghost predicate Closed(b: Snapshot) {
    forall c :: c in b ==> b[c].adj <= b.Keys
  }

  /** A neighbour the search may step onto: not on the current path, not occupied. */
  ghost predicate Enterable(b: Snapshot, a: TestBoardCell, path: set<TestBoardCell>)
    requires a in b
  {
    a !in path && !b[a].occupied
  }

  /** Stepping onto `a` with `steps` left ends the move there: a room, or the last step. */
  ghost predicate Stops(b: Snapshot, a: TestBoardCell, steps: int)
    requires a in b
  {
    b[a].room || steps == 1
  }

  /**
   * The cells the search adds to its targets when it tries each candidate of
   * `next` with `steps` left and `path` on the current path.
   */
  ghost function Found(b: Snapshot, next: set<TestBoardCell>, steps: int, path: set<TestBoardCell>)
    : set<TestBoardCell>
    requires Closed(b) && next <= b.Keys
    decreases b.Keys - path, 1
  {
    set a, t | a in next && Enterable(b, a, path) && t in Via(b, a, steps, path) :: t
  }

  /**
   * What entering `a` with `steps` left contributes: `a` itself when the move
   * ends there, otherwise what the search finds from `a` with one step fewer
   * and `a` added to the path.
   */
  ghost function Via(b: Snapshot, a: TestBoardCell, steps: int, path: set<TestBoardCell>)
    : set<TestBoardCell>
    requires Closed(b) && a in b && a !in path
    decreases b.Keys - path, 0
  {
    if Stops(b, a, steps) then {a} else Found(b, b[a].adj, steps - 1, path + {a})
  }

  /**
   * `p` is a path the search walks from a cell whose neighbours are `next`:
   * it starts at one of them, each cell is a neighbour of the one before,
   * no cell repeats or lies on `path`, none is occupied, the cells before
   * the last are not rooms, a positive budget is never overrun (no cell but
   * the last is entered with one step left), and the last cell is a room or
   * uses up the budget exactly.
   */
  ghost predicate IsSearchPath(b: Snapshot, next: set<TestBoardCell>, steps: int,
                               path: set<TestBoardCell>, p: seq<TestBoardCell>)
  {
    && |p| >= 1
    && (forall i :: 0 <= i < |p| ==> p[i] in b)
    && p[0] in next
    && (forall i :: 0 <= i < |p| - 1 ==> p[i + 1] in b[p[i]].adj)
    && (forall i :: 0 <= i < |p| ==> p[i] !in path && !b[p[i]].occupied)
    && (forall i, j :: 0 <= i < j < |p| ==> p[i] != p[j])
    && (forall i :: 0 <= i < |p| - 1 ==> !b[p[i]].room)
    && (steps < 1 || |p| <= steps)
    && (b[p[|p| - 1]].room || |p| == steps)
  }

  /** Every cell the search finds ends a search path. */
  lemma {:induction false} FoundHasPath(b: Snapshot, next: set<TestBoardCell>, steps: int,
                                        path: set<TestBoardCell>, t: TestBoardCell)
    requires Closed(b) && next <= b.Keys
    requires t in Found(b, next, steps, path)
    ensures exists p :: IsSearchPath(b, next, steps, path, p) && p[|p| - 1] == t
    decreases b.Keys - path
  {
    var a :| a in next && Enterable(b, a, path) && t in Via(b, a, steps, path);
    if Stops(b, a, steps) {
      assert IsSearchPath(b, next, steps, path, [t]);
    } else {
      FoundHasPath(b, b[a].adj, steps - 1, path + {a}, t);
      var q: seq<TestBoardCell> :| IsSearchPath(b, b[a].adj, steps - 1, path + {a}, q) && q[|q| - 1] == t;
      var p := [a] + q;
      forall i | 0 <= i < |p| - 1 ensures p[i + 1] in b[p[i]].adj {
        if i > 0 { assert p[i] == q[i - 1] && p[i + 1] == q[i]; }
      }
      forall i, j | 0 <= i < j < |p| ensures p[i] != p[j] {
        if i > 0 { assert p[i] == q[i - 1] && p[j] == q[j - 1]; }
        else { assert p[j] == q[j - 1] && q[j - 1] !in path + {a}; }
      }
      forall i | 0 <= i < |p| - 1 ensures !b[p[i]].room {
        if i > 0 { assert p[i] == q[i - 1]; }
      }
      assert IsSearchPath(b, next, steps, path, p);
    }
  }

  /** The last cell of every search path is found by the search. */
  lemma {:induction false} PathEndIsFound(b: Snapshot, next: set<TestBoardCell>, steps: int,
                                          path: set<TestBoardCell>, p: seq<TestBoardCell>)
    requires Closed(b) && next <= b.Keys
    requires IsSearchPath(b, next, steps, path, p)
    ensures p[|p| - 1] in Found(b, next, steps, path)
    decreases b.Keys - path
  {
    var a := p[0];
    if |p| == 1 {
      assert p[0] in Via(b, a, steps, path);
    } else {
      assert !Stops(b, a, steps);
      var q := p[1..];
      forall i | 0 <= i < |q| ensures q[i] !in path + {a} {
        assert q[i] == p[i + 1];
      }
      assert IsSearchPath(b, b[a].adj, steps - 1, path + {a}, q);
      PathEndIsFound(b, b[a].adj, steps - 1, path + {a}, q);
      assert q[|q| - 1] == p[|p| - 1];
      assert p[|p| - 1] in Via(b, a, steps, path);
    }
  }

  /** The search finds exactly the ends of search paths. */
  lemma FoundIsPathEnds(b: Snapshot, next: set<TestBoardCell>, steps: int,
                        path: set<TestBoardCell>, t: TestBoardCell)
    requires Closed(b) && next <= b.Keys
    ensures t in Found(b, next, steps, path)
            <==> exists p :: IsSearchPath(b, next, steps, path, p) && p[|p| - 1] == t
  {
    if t in Found(b, next, steps, path) {
      FoundHasPath(b, next, steps, path, t);
    } else {
      forall p | IsSearchPath(b, next, steps, path, p) ensures p[|p| - 1] != t {
        PathEndIsFound(b, next, steps, path, p);
      }
    }
  }

  /** A found cell is a cell of the board, never on the current path and never occupied. */
  lemma FoundIsEnterable(b: Snapshot, next: set<TestBoardCell>, steps: int,
                         path: set<TestBoardCell>, t: TestBoardCell)
    requires Closed(b) && next <= b.Keys
    requires t in Found(b, next, steps, path)
    ensures t in b && t !in path && !b[t].occupied
  {
    FoundHasPath(b, next, steps, path, t);
    var p: seq<TestBoardCell> :| IsSearchPath(b, next, steps, path, p) && p[|p| - 1] == t;
  }

  /** With one step left the search finds exactly the enterable candidates. */
  lemma OneStepFound(b: Snapshot, next: set<TestBoardCell>, path: set<TestBoardCell>)
    requires Closed(b) && next <= b.Keys
    ensures Found(b, next, 1, path) == set a | a in next && a !in path && !b[a].occupied
  {
    forall t | t in Found(b, next, 1, path) ensures t in next && Enterable(b, t, path) {
      var a :| a in next && Enterable(b, a, path) && t in Via(b, a, 1, path);
    }
    forall a | a in next && Enterable(b, a, path) ensures a in Found(b, next, 1, path) {
      assert a in Via(b, a, 1, path);
    }
  }

  /** An enterable room among the candidates is found, whatever the budget. */
  lemma EnterableRoomIsFound(b: Snapshot, next: set<TestBoardCell>, steps: int,
                             path: set<TestBoardCell>, r: TestBoardCell)
    requires Closed(b) && next <= b.Keys
    requires r in next && r !in path && !b[r].occupied && b[r].room
    ensures r in Found(b, next, steps, path)
  {
    assert r in Via(b, r, steps, path);
  }

  /**
   * With a positive budget every found cell ends a search path of exactly
   * `steps` cells, or is a room ending a shorter one.
   */
  lemma FoundPathLength(b: Snapshot, next: set<TestBoardCell>, steps: int,
                        path: set<TestBoardCell>, t: TestBoardCell)
    requires Closed(b) && next <= b.Keys && steps >= 1
    requires t in Found(b, next, steps, path)
    ensures exists p :: IsSearchPath(b, next, steps, path, p) && p[|p| - 1] == t
                        && (|p| == steps || (b[t].room && |p| < steps))
  {
    FoundHasPath(b, next, steps, path, t);
    var p: seq<TestBoardCell> :| IsSearchPath(b, next, steps, path, p) && p[|p| - 1] == t;
  }

  /** With a budget below one the last-step test never fires: only rooms are found. */
  lemma NonPositiveBudgetFindsOnlyRooms(b: Snapshot, next: set<TestBoardCell>, steps: int,
                                        path: set<TestBoardCell>, t: TestBoardCell)
    requires Closed(b) && next <= b.Keys && steps <= 0
    requires t in Found(b, next, steps, path)
    ensures t in b && b[t].room
  {
    FoundHasPath(b, next, steps, path, t);
    var p: seq<TestBoardCell> :| IsSearchPath(b, next, steps, path, p) && p[|p| - 1] == t;
  }

  /** Trying one more candidate adds what entering it contributes, if it may be entered. */
  lemma FoundAddCandidate(b: Snapshot, next: set<TestBoardCell>, a: TestBoardCell,
                          steps: int, path: set<TestBoardCell>)
    requires Closed(b) && next <= b.Keys && a in b
    ensures Found(b, next + {a}, steps, path)
            == Found(b, next, steps, path) + (if Enterable(b, a, path) then Via(b, a, steps, path) else {})
  {
  }
}
