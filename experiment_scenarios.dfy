/**
 * The experiment board's scenarios (BoardTestsExp), each a fresh board, a
 * few flag changes and one search, with the targets the scenario expects.
 * Each scenario is a method that replays the test, and a lemma that works
 * out the targets on any valid board whose flags are set that way.
 */
module ExperimentScenarios {
  import opened ExperimentCell
  import opened ExperimentSearch
  import opened ExperimentBoard

  /** From (1,1) with a roll of one on an empty board: its four neighbours. */
  method EmptyBoardOneStep() returns (board: TestBoard, targets: set<TestBoardCell>)
    ensures board.Valid()
    ensures targets == {board.GetCell(1, 0), board.GetCell(2, 1), board.GetCell(1, 2), board.GetCell(0, 1)}
    ensures |targets| == 4
  {
    board := new TestBoard();
    var cell := board.GetCell(1, 1);
    board.CalcTargets(cell, 1);
    targets := board.GetTargets();
    EmptyBoardOneStepTargets(board);
  }

  lemma EmptyBoardOneStepTargets(board: TestBoard)
    requires board.Valid() && forall x :: x in board.Cells ==> !x.occupied
    ensures Found(SnapshotOf(board.Cells), board.GetCell(1, 1).adjList, 1, {board.GetCell(1, 1)})
            == {board.GetCell(1, 0), board.GetCell(2, 1), board.GetCell(1, 2), board.GetCell(0, 1)}
    ensures |{board.GetCell(1, 0), board.GetCell(2, 1), board.GetCell(1, 2), board.GetCell(0, 1)}| == 4
  {
    CentreNeighbours(board);
    board.OneStepTargets(board.GetCell(1, 1));
  }

  /** The neighbours of (1,1) are the four cells around it. */
  lemma CentreNeighbours(board: TestBoard)
    requires board.Valid()
    ensures board.GetCell(1, 1).adjList
            == {board.GetCell(1, 0), board.GetCell(2, 1), board.GetCell(1, 2), board.GetCell(0, 1)}
    ensures |{board.GetCell(1, 0), board.GetCell(2, 1), board.GetCell(1, 2), board.GetCell(0, 1)}| == 4
  {
    board.NeighbourCells(1, 1);
    board.NeighbourCount(1, 1);
  }

  /** From (1,1) with a roll of one when (1,2) is occupied: the other three neighbours. */
  method OneCellOccupied() returns (board: TestBoard, targets: set<TestBoardCell>)
    ensures board.Valid()
    ensures targets == {board.GetCell(1, 0), board.GetCell(2, 1), board.GetCell(0, 1)}
  {
    board := BoardWithOccupied(1, 2);
    var cell := board.GetCell(1, 1);
    board.CalcTargets(cell, 1);
    targets := board.GetTargets();
    OneCellOccupiedTargets(board);
  }

  lemma OneCellOccupiedTargets(board: TestBoard)
    requires board.Valid() && board.GetCell(1, 2).occupied
    requires forall x :: x in board.Cells && x != board.GetCell(1, 2) ==> !x.occupied
    ensures Found(SnapshotOf(board.Cells), board.GetCell(1, 1).adjList, 1, {board.GetCell(1, 1)})
            == {board.GetCell(1, 0), board.GetCell(2, 1), board.GetCell(0, 1)}
    ensures board.GetCell(1, 2) !in {board.GetCell(1, 0), board.GetCell(2, 1), board.GetCell(0, 1)}
  {
    CentreNeighbours(board);
    board.OneStepTargets(board.GetCell(1, 1));
  }

  /**
   * From (1,1) with a roll of two when (2,1) is a room: the room is a
   * target, and (3,1), two steps away through the room, is not.
   */
  method OneCellRoom() returns (board: TestBoard, targets: set<TestBoardCell>)
    ensures board.Valid()
    ensures targets == RoomBelowCells(board)
    ensures board.GetCell(2, 1) in targets && board.GetCell(3, 1) !in targets
  {
    board := BoardWithRoom(2, 1);
    var cell := board.GetCell(1, 1);
    board.CalcTargets(cell, 2);
    targets := board.GetTargets();
    RoomBelowTargets(board);
  }

  lemma OneCellRoomTargets(board: TestBoard)
    requires board.Valid() && board.GetCell(2, 1).room && !board.GetCell(2, 1).occupied
    ensures board.GetCell(2, 1) in Found(SnapshotOf(board.Cells), board.GetCell(1, 1).adjList, 2, {board.GetCell(1, 1)})
    ensures board.GetCell(3, 1) !in Found(SnapshotOf(board.Cells), board.GetCell(1, 1).adjList, 2, {board.GetCell(1, 1)})
  {
    var start, below := board.GetCell(1, 1), board.GetCell(3, 1);
    board.Linked(1, 1, 2, 1);
    board.AdjacentRoomTarget(start, board.GetCell(2, 1), 2);
    board.ValidIsClosed();
    var b := SnapshotOf(board.Cells);
    forall p | IsSearchPath(b, start.adjList, 2, {start}, p) ensures p[|p| - 1] != below {
      NoPathPastRoom(board, b, p);
    }
    FoundIsPathEnds(b, start.adjList, 2, {start}, below);
  }

  /**
   * The targets of a roll of two from (1,1) when (2,1) is the only room:
   * the room, and the free cells two steps away save (3,1), which lies
   * beyond the room.
   */
  ghost function RoomBelowCells(board: TestBoard): (s: set<TestBoardCell>)
    requires board.Valid()
    reads board.grid, board.Cells
    ensures |s| == 6 && board.GetCell(2, 1) in s && board.GetCell(3, 1) !in s
  {
    {board.GetCell(0, 0), board.GetCell(0, 2), board.GetCell(2, 0),
     board.GetCell(2, 2), board.GetCell(1, 3), board.GetCell(2, 1)}
  }

  /** On any valid free board where only (2,1) is a room, a roll of two from (1,1) finds exactly those six cells. */
  lemma RoomBelowTargets(board: TestBoard)
    requires board.Valid() && forall x :: x in board.Cells ==> !x.occupied
    requires forall x :: x in board.Cells ==> (x.room <==> x == board.GetCell(2, 1))
    ensures Found(SnapshotOf(board.Cells), board.GetCell(1, 1).adjList, 2, {board.GetCell(1, 1)})
            == RoomBelowCells(board)
  {
    RoomBelowReached(board);
    RoomBelowBound(board);
  }

  /** The six cells are reached. */
  lemma RoomBelowReached(board: TestBoard)
    requires board.Valid() && forall x :: x in board.Cells ==> !x.occupied
    requires forall x :: x in board.Cells ==> (x.room <==> x == board.GetCell(2, 1))
    ensures RoomBelowCells(board)
            <= Found(SnapshotOf(board.Cells), board.GetCell(1, 1).adjList, 2, {board.GetCell(1, 1)})
  {
    var start := board.GetCell(1, 1);
    var up, left, right := board.GetCell(0, 1), board.GetCell(1, 0), board.GetCell(1, 2);
    OneCellRoomTargets(board);
    board.TwoStepTarget(start, up, board.GetCell(0, 0));
    board.TwoStepTarget(start, up, board.GetCell(0, 2));
    board.TwoStepTarget(start, left, board.GetCell(2, 0));
    board.TwoStepTarget(start, right, board.GetCell(2, 2));
    board.TwoStepTarget(start, right, board.GetCell(1, 3));
  }

  /** Nothing else is reached. */
  lemma RoomBelowBound(board: TestBoard)
    requires board.Valid() && !board.GetCell(2, 1).occupied
    requires forall x :: x in board.Cells ==> (x.room <==> x == board.GetCell(2, 1))
    ensures Found(SnapshotOf(board.Cells), board.GetCell(1, 1).adjList, 2, {board.GetCell(1, 1)})
            <= RoomBelowCells(board)
  {
    var start := board.GetCell(1, 1);
    OneCellRoomTargets(board);
    forall t | t in Found(SnapshotOf(board.Cells), start.adjList, 2, {start})
      ensures t in RoomBelowCells(board)
    {
      board.TargetDistance(start, 2, t);
      board.TargetsAreFreeCells(start, 2, t);
      assert t == board.GetCell(t.row, t.column);
      if !t.room {
        TwoStepsFromCentre(t.row, t.column);
      }
    }
  }

  /** The in-bounds positions two orthogonal steps from (1,1), save (1,1) itself. */
  lemma TwoStepsFromCentre(r: int, c: int)
    requires InBounds(r, c) && (r, c) != (1, 1) && Distance(1, 1, r, c) <= 2
    requires (2 - Distance(1, 1, r, c)) % 2 == 0
    ensures (r, c) in {(0, 0), (0, 2), (2, 0), (2, 2), (1, 3), (3, 1)}
  {
  }

  /** A search path of a roll of two from (1,1) cannot reach (3,1) without passing the room at (2,1). */
  lemma NoPathPastRoom(board: TestBoard, b: Snapshot, p: seq<TestBoardCell>)
    requires board.Valid() && board.GetCell(2, 1).room && b == SnapshotOf(board.Cells)
    requires IsSearchPath(b, board.GetCell(1, 1).adjList, 2, {board.GetCell(1, 1)}, p)
    ensures p[|p| - 1] != board.GetCell(3, 1)
  {
    var start, first := board.GetCell(1, 1), p[0];
    assert first in start.adjList;
    assert first == board.GetCell(first.row, first.column);
    if |p| == 2 {
      assert p[1] in first.adjList;
    }
  }

  /** A new board with the one cell at (r, c) marked occupied. */
  method BoardWithOccupied(r: int, c: int) returns (board: TestBoard)
    requires InBounds(r, c)
    ensures fresh(board) && board.Valid() && board.GetCell(r, c).occupied
    ensures forall x :: x in board.Cells && x != board.GetCell(r, c) ==> !x.occupied
    ensures forall x :: x in board.Cells ==> !x.room
  {
    board := new TestBoard();
    board.GetCell(r, c).SetOccupied(true);
  }

  /**
   * From (2,2) with a roll of two, when no cell is occupied and none of
   * its neighbours (1,2), (2,1), (3,2) is a room, the six cells two steps
   * away are targets.
   */
  lemma TwoStepsFromInnerCell(board: TestBoard)
    requires board.Valid() && forall x :: x in board.Cells ==> !x.occupied
    requires !board.GetCell(1, 2).room && !board.GetCell(2, 1).room && !board.GetCell(3, 2).room
    ensures InnerTwoStepCells(board) <= Found(SnapshotOf(board.Cells), board.GetCell(2, 2).adjList, 2, {board.GetCell(2, 2)})
  {
    var start := board.GetCell(2, 2);
    var up, left, down := board.GetCell(1, 2), board.GetCell(2, 1), board.GetCell(3, 2);
    board.TwoStepTarget(start, up, board.GetCell(0, 2));
    board.TwoStepTarget(start, up, board.GetCell(1, 1));
    board.TwoStepTarget(start, up, board.GetCell(1, 3));
    board.TwoStepTarget(start, left, board.GetCell(2, 0));
    board.TwoStepTarget(start, down, board.GetCell(3, 1));
    board.TwoStepTarget(start, down, board.GetCell(3, 3));
  }

  /**
   * From (2,2) with a roll of two, when no cell is occupied and no cell but
   * (2,3) is a room, every target is one of the six cells two steps away,
   * or (2,3) itself when it is a room.
   */
  lemma TwoStepsFromInnerCellBound(board: TestBoard)
    requires board.Valid() && forall x :: x in board.Cells ==> !x.occupied
    requires forall x :: x in board.Cells && x.room ==> x == board.GetCell(2, 3)
    ensures Found(SnapshotOf(board.Cells), board.GetCell(2, 2).adjList, 2, {board.GetCell(2, 2)})
            <= InnerTwoStepCells(board) + (if board.GetCell(2, 3).room then {board.GetCell(2, 3)} else {})
  {
    var start := board.GetCell(2, 2);
    forall t | t in Found(SnapshotOf(board.Cells), start.adjList, 2, {start})
      ensures t in InnerTwoStepCells(board) || (t.room && t == board.GetCell(2, 3))
    {
      board.TargetDistance(start, 2, t);
      board.TargetsAreFreeCells(start, 2, t);
      assert t == board.GetCell(t.row, t.column);
      if !t.room {
        TwoStepsAway(t.row, t.column);
      }
    }
  }

  /** The six cells two steps from (2,2): distinct, and none of them is (2,3). */
  ghost function InnerTwoStepCells(board: TestBoard): (s: set<TestBoardCell>)
    requires board.Valid()
    reads board.grid, board.Cells
    ensures |s| == 6 && board.GetCell(2, 3) !in s
  {
    {board.GetCell(0, 2), board.GetCell(1, 1), board.GetCell(1, 3),
     board.GetCell(2, 0), board.GetCell(3, 1), board.GetCell(3, 3)}
  }

  /** The in-bounds positions two orthogonal steps from (2,2), save (2,2) itself. */
  lemma TwoStepsAway(r: int, c: int)
    requires InBounds(r, c) && (r, c) != (2, 2) && Distance(2, 2, r, c) <= 2
    requires (2 - Distance(2, 2, r, c)) % 2 == 0
    ensures (r, c) in {(0, 2), (1, 1), (1, 3), (2, 0), (3, 1), (3, 3)}
  {
  }

  /** From (2,2) with a roll of two on an empty board: the six cells two steps away. */
  method TwoSteps() returns (board: TestBoard, targets: set<TestBoardCell>)
    ensures board.Valid()
    ensures targets == InnerTwoStepCells(board)
    ensures {board.GetCell(0, 2), board.GetCell(1, 1), board.GetCell(2, 0), board.GetCell(3, 1)} <= targets
    ensures |targets| == 6
  {
    board := new TestBoard();
    board.CalcTargets(board.GetCell(2, 2), 2);
    targets := board.GetTargets();
    TwoStepsTargets(board);
  }

  lemma TwoStepsTargets(board: TestBoard)
    requires board.Valid() && forall x :: x in board.Cells ==> !x.occupied && !x.room
    ensures Found(SnapshotOf(board.Cells), board.GetCell(2, 2).adjList, 2, {board.GetCell(2, 2)})
            == InnerTwoStepCells(board)
    ensures {board.GetCell(0, 2), board.GetCell(1, 1), board.GetCell(2, 0), board.GetCell(3, 1)}
            <= InnerTwoStepCells(board)
  {
    TwoStepsFromInnerCell(board);
    TwoStepsFromInnerCellBound(board);
  }

  /** From (2,2) with a roll of two when (2,3) is a room: the room and the six cells two steps away. */
  method TwoStepsAndOneRoom() returns (board: TestBoard, targets: set<TestBoardCell>)
    ensures board.Valid()
    ensures targets == InnerTwoStepCells(board) + {board.GetCell(2, 3)}
    ensures |targets| == 7
  {
    board := BoardWithRoom(2, 3);
    board.CalcTargets(board.GetCell(2, 2), 2);
    targets := board.GetTargets();
    TwoStepsWithRoomTargets(board);
  }

  lemma TwoStepsWithRoomTargets(board: TestBoard)
    requires board.Valid() && forall x :: x in board.Cells ==> !x.occupied
    requires forall x :: x in board.Cells ==> (x.room <==> x == board.GetCell(2, 3))
    ensures Found(SnapshotOf(board.Cells), board.GetCell(2, 2).adjList, 2, {board.GetCell(2, 2)})
            == InnerTwoStepCells(board) + {board.GetCell(2, 3)}
    ensures |InnerTwoStepCells(board) + {board.GetCell(2, 3)}| == 7
  {
    TwoStepsFromInnerCell(board);
    TwoStepsFromInnerCellBound(board);
    board.Linked(2, 2, 2, 3);
    board.AdjacentRoomTarget(board.GetCell(2, 2), board.GetCell(2, 3), 2);
  }

  /** From (0,0) with a roll of six on an empty board: the seven cells an even number of steps away. */
  method SixSteps() returns (board: TestBoard, targets: set<TestBoardCell>)
    ensures board.Valid()
    ensures targets == SixStepCells(board)
    ensures |targets| == 7
  {
    board := new TestBoard();
    board.CalcTargets(board.GetCell(0, 0), 6);
    targets := board.GetTargets();
    SixStepsTargets(board);
  }

  /** The cells other than (0,0) whose row and column add up to an even number. */
  ghost function SixStepCells(board: TestBoard): (s: set<TestBoardCell>)
    requires board.Valid()
    reads board.grid, board.Cells
    ensures |s| == 7 && board.GetCell(0, 0) !in s
  {
    {board.GetCell(0, 2), board.GetCell(1, 1), board.GetCell(2, 0), board.GetCell(1, 3),
     board.GetCell(2, 2), board.GetCell(3, 1), board.GetCell(3, 3)}
  }

  /** On any valid board with no occupied cell and no room, a roll of six from (0,0) finds exactly those seven cells. */
  lemma SixStepsTargets(board: TestBoard)
    requires board.Valid() && forall x :: x in board.Cells ==> !x.occupied && !x.room
    ensures Found(SnapshotOf(board.Cells), board.GetCell(0, 0).adjList, 6, {board.GetCell(0, 0)})
            == SixStepCells(board)
  {
    SixStepsReachedLeft(board);
    SixStepsReachedRight(board);
    SixStepsBound(board);
  }

  /** A six-step route from (0,0) to (r, c) that never comes back to a position or to (0,0). */
  ghost predicate SixStepRoute(w: Route, r: int, c: int) {
    w.Go? && IsRoute(0, 0, w) && Avoids(0, 0, w) && NoRevisit(w) && Length(w) == 6 && Last(w) == (r, c)
  }

  lemma RouteTo11() returns (w: Route)
    ensures SixStepRoute(w, 1, 1)
  {
    w := Go(0, 1, Go(0, 2, Go(0, 3, Go(1, 3, Go(1, 2, Go(1, 1, Stop))))));
  }

  lemma RouteTo20() returns (w: Route)
    ensures SixStepRoute(w, 2, 0)
  {
    w := Go(0, 1, Go(0, 2, Go(1, 2, Go(1, 1, Go(1, 0, Go(2, 0, Stop))))));
  }

  lemma RouteTo02() returns (w: Route)
    ensures SixStepRoute(w, 0, 2)
  {
    w := Go(1, 0, Go(2, 0, Go(2, 1, Go(1, 1, Go(0, 1, Go(0, 2, Stop))))));
  }

  lemma RouteTo31() returns (w: Route)
    ensures SixStepRoute(w, 3, 1)
  {
    w := Go(1, 0, Go(1, 1, Go(2, 1, Go(2, 0, Go(3, 0, Go(3, 1, Stop))))));
  }

  lemma RouteTo22() returns (w: Route)
    ensures SixStepRoute(w, 2, 2)
  {
    w := Go(0, 1, Go(0, 2, Go(0, 3, Go(1, 3, Go(2, 3, Go(2, 2, Stop))))));
  }

  lemma RouteTo13() returns (w: Route)
    ensures SixStepRoute(w, 1, 3)
  {
    w := Go(0, 1, Go(0, 2, Go(1, 2, Go(2, 2, Go(2, 3, Go(1, 3, Stop))))));
  }

  lemma RouteTo33() returns (w: Route)
    ensures SixStepRoute(w, 3, 3)
  {
    w := Go(0, 1, Go(0, 2, Go(0, 3, Go(1, 3, Go(2, 3, Go(3, 3, Stop))))));
  }

  /** Six-step walks from (0,0) reach (1,1), (2,0), (0,2) and (3,1). */
  lemma SixStepsReachedLeft(board: TestBoard)
    requires board.Valid() && forall x :: x in board.Cells ==> !x.occupied && !x.room
    ensures {board.GetCell(1, 1), board.GetCell(2, 0), board.GetCell(0, 2), board.GetCell(3, 1)}
            <= Found(SnapshotOf(board.Cells), board.GetCell(0, 0).adjList, 6, {board.GetCell(0, 0)})
  {
    var w0 := RouteTo11();
    var w1 := RouteTo20();
    var w2 := RouteTo02();
    var w3 := RouteTo31();
    board.FreeRouteTarget(0, 0, w0, 6, 1, 1);
    board.FreeRouteTarget(0, 0, w1, 6, 2, 0);
    board.FreeRouteTarget(0, 0, w2, 6, 0, 2);
    board.FreeRouteTarget(0, 0, w3, 6, 3, 1);
  }

  /** Six-step walks from (0,0) reach (2,2), (1,3) and (3,3). */
  lemma SixStepsReachedRight(board: TestBoard)
    requires board.Valid() && forall x :: x in board.Cells ==> !x.occupied && !x.room
    ensures {board.GetCell(2, 2), board.GetCell(1, 3), board.GetCell(3, 3)}
            <= Found(SnapshotOf(board.Cells), board.GetCell(0, 0).adjList, 6, {board.GetCell(0, 0)})
  {
    var w0 := RouteTo22();
    var w1 := RouteTo13();
    var w2 := RouteTo33();
    board.FreeRouteTarget(0, 0, w0, 6, 2, 2);
    board.FreeRouteTarget(0, 0, w1, 6, 1, 3);
    board.FreeRouteTarget(0, 0, w2, 6, 3, 3);
  }

  /** Nothing else is reached: every target is an even number of steps from (0,0). */
  lemma SixStepsBound(board: TestBoard)
    requires board.Valid() && forall x :: x in board.Cells ==> !x.room
    ensures Found(SnapshotOf(board.Cells), board.GetCell(0, 0).adjList, 6, {board.GetCell(0, 0)})
            <= SixStepCells(board)
  {
    var start := board.GetCell(0, 0);
    forall t | t in Found(SnapshotOf(board.Cells), start.adjList, 6, {start})
      ensures t in SixStepCells(board)
    {
      board.TargetDistance(start, 6, t);
      board.TargetsAreFreeCells(start, 6, t);
      assert t == board.GetCell(t.row, t.column);
      EvenFromCorner(t.row, t.column);
    }
  }

  /** The in-bounds positions other than (0,0) an even number of steps from it. */
  lemma EvenFromCorner(r: int, c: int)
    requires InBounds(r, c) && (r, c) != (0, 0) && (6 - Distance(0, 0, r, c)) % 2 == 0
    ensures (r, c) in {(0, 2), (1, 1), (2, 0), (1, 3), (2, 2), (3, 1), (3, 3)}
  {
  }

  /** A new board with the one cell at (r, c) marked a room. */
  method BoardWithRoom(r: int, c: int) returns (board: TestBoard)
    requires InBounds(r, c)
    ensures fresh(board) && board.Valid()
    ensures forall x :: x in board.Cells ==> !x.occupied
    ensures forall x :: x in board.Cells ==> (x.room <==> x == board.GetCell(r, c))
  {
    board := new TestBoard();
    board.GetCell(r, c).SetRoom(true);
  }
}
