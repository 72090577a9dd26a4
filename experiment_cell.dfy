/**
 * One square of the 4x4 experiment board (class TestBoardCell): a fixed
 * position, two mutable flags and the set of cells a token can step to.
 * Cells are compared by identity, as the Java HashSet of cells does
 * (TestBoardCell does not override equals).
 */
module ExperimentCell {

  class TestBoardCell {
    const row: int
    const column: int
    var room: bool
    var occupied: bool
    var adjList: set<TestBoardCell>

    /** A new cell sits at (row, col), is neither a room nor occupied, and has no neighbours yet. */
    constructor (row: int, col: int)
      ensures this.row == row && this.column == col
      ensures !room && !occupied && adjList == {}
    {
      this.row := row;
      this.column := col;
      adjList := {};
      room := false;
      occupied := false;
    }

    /** Set insertion: adding a cell that is already a neighbour changes nothing. */
    method AddAdjacency(cell: TestBoardCell)
      modifies this`adjList
      ensures adjList == old(adjList) + {cell}
      ensures cell in old(adjList) ==> adjList == old(adjList)
    {
      adjList := adjList + {cell};
    }

    /** The live neighbour set. */
    function GetAdjList(): set<TestBoardCell>
      reads this
    {
      adjList
    }

    /** Only the room flag changes (the frame names that one field). */
    method SetRoom(isRoom: bool)
      modifies this`room
      ensures room == isRoom
    {
      room := isRoom;
    }

    function IsRoom(): bool
      reads this
    {
      room
    }

    /** Only the occupied flag changes (the frame names that one field). */
    method SetOccupied(isOccupied: bool)
      modifies this`occupied
      ensures occupied == isOccupied
    {
      occupied := isOccupied;
    }

    function GetOccupied(): bool
      reads this
    {
      occupied
    }
  }
}
