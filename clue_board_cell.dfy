/**
 * A square of the game board (class BoardCell): a fixed position, the
 * room initial and door markings read from the layout, the neighbour set,
 * and the occupied and highlighted flags. Cells are compared by identity,
 * as BoardCell does not override equals.
 */
module ClueBoardCell {
  import opened ClueTypes

  /** The initial a Java char field holds before it is set, '\0'. */
  const NUL: char := 0 as char

  class BoardCell {
    const row: int
    const column: int
    var initial: char
    var doorDirection: DoorDirection
    var roomLabel: bool
    var roomCenter: bool
    var secretPassage: char
    var adjList: set<BoardCell>
    var occupied: bool
    var highlighted: bool

    /** The field defaults every new cell starts with. */
    ghost predicate HasDefaults()
      reads this
    {
      && initial == NUL && doorDirection == None && !roomLabel && !roomCenter
      && secretPassage == ' ' && adjList == {} && !occupied && !highlighted
    }

    /** BoardCell(): position (0, 0), the Java defaults. */
    constructor ()
      ensures row == 0 && column == 0 && HasDefaults()
      ensures !IsDoorway() && IsRoom()
    {
      row := 0;
      column := 0;
      initial := NUL;
      doorDirection := None;
      roomLabel := false;
      roomCenter := false;
      secretPassage := ' ';
      adjList := {};
      occupied := false;
      highlighted := false;
    }

    /** BoardCell(row, col): the given position, the Java defaults. */
    constructor At(row: int, col: int)
      ensures this.row == row && this.column == col && HasDefaults()
      ensures !IsDoorway() && IsRoom()
    {
      this.row := row;
      this.column := col;
      initial := NUL;
      doorDirection := None;
      roomLabel := false;
      roomCenter := false;
      secretPassage := ' ';
      adjList := {};
      occupied := false;
      highlighted := false;
    }

    method SetInitial(initial: char)
      modifies this`initial
      ensures this.initial == initial
      ensures IsRoom() <==> initial != 'W' && initial != 'X'
    {
      this.initial := initial;
    }

    /** A doorway is a cell whose door direction is not None. */
    predicate IsDoorway()
      reads this
    {
      doorDirection != None
    }

    method SetDoorDirection(doorDirection: DoorDirection)
      modifies this`doorDirection
      ensures this.doorDirection == doorDirection
      ensures IsDoorway() <==> doorDirection != None
    {
      this.doorDirection := doorDirection;
    }

    method SetLabel(roomLabel: bool)
      modifies this`roomLabel
      ensures this.roomLabel == roomLabel
    {
      this.roomLabel := roomLabel;
    }

    method SetRoomCenter(roomCenter: bool)
      modifies this`roomCenter
      ensures this.roomCenter == roomCenter
    {
      this.roomCenter := roomCenter;
    }

    method SetSecretPassage(secretPassage: char)
      modifies this`secretPassage
      ensures this.secretPassage == secretPassage
    {
      this.secretPassage := secretPassage;
    }

    /** Set insertion: adding a cell that is already a neighbour changes nothing. */
    method AddAdj(adj: BoardCell)
      modifies this`adjList
      ensures adjList == old(adjList) + {adj}
      ensures adj in old(adjList) ==> adjList == old(adjList)
    {
      adjList := adjList + {adj};
    }

    method SetOccupied(occupied: bool)
      modifies this`occupied
      ensures this.occupied == occupied
    {
      this.occupied := occupied;
    }

    /** A room cell is any cell whose initial is neither the walkway 'W' nor the unused 'X'. */
    predicate IsRoom()
      reads this
    {
      IsRoomInitial(initial)
    }

    method SetHighlighted(highlight: bool)
      modifies this`highlighted
      ensures highlighted == highlight
    {
      highlighted := highlight;
    }
  }

  predicate IsRoomInitial(c: char) {
    c != 'W' && c != 'X'
  }

  /** Exactly the two walkway-like initials are not rooms; the unset initial '\0' counts as a room. */
  lemma RoomInitials(c: char)
    ensures !IsRoomInitial(c) <==> c in {'W', 'X'}
    ensures IsRoomInitial(NUL)
  {
  }
}
