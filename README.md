# ClueGame board search and game data, in Dafny

This project models two parts of the ClueGame Java repository.

The first is the **experiment board** (`src/experiment`). It is a 4x4 grid of `TestBoardCell`s, each linked to the in-bounds cells above, below, left and right of it. On this grid, `TestBoard.calcTargets` runs a backtracking search for the cells a token can end on after a roll. An occupied cell cannot be entered, and no cell may appear twice on a path. A move ends on entering a room or when the last step is used.

The second is the **game's data classes** (`src/clueGame`):
- `BoardCell`: a board square with its flags, neighbours and room/doorway predicates;
- `Card`: a value with (name, type) equality, a hash code and a text form;
- `Solution`: the (person, weapon, room) answer;
- `Room`: a name plus a centre cell and a label cell;
- `Player`: a position, a hand that only grows, and a text form.

Modules, one per source class:
- `ExperimentCell`: the `TestBoardCell` class.
- `ExperimentSearch`: a pure specification of the search over a snapshot of the cells' flags and neighbours. It gives the search twice:
  - as the recursion `Found`/`Via`, which follows the shape of `findAllTargets`;
  - as the set of last cells of admissible paths (`IsSearchPath`).

  The lemma `FoundIsPathEnds` proves the two agree.
- `ExperimentBoard`: the `TestBoard` class. It holds an `array2` grid, and its `targets` and `visited` sets are updated in place. Its methods are proved against `Found`. Its lemmas cover the grid shape (neighbour count and symmetry) and what the targets are (distance, parity, free cells).
- `ExperimentScenarios`: the search scenarios of the experiment tests. Each is replayed as a method, and a lemma gives the exact set of targets on any valid board with the scenario's flags. The tests on adjacency lists are stated for every cell by the `TestBoard` lemmas NeighbourCells and NeighbourCount, not replayed one by one.
- `ClueTypes`: `CardType` and `DoorDirection`. `Optional` holds `Option`, which stands for a Java argument that may be null or of another class.
- `JavaLang`: the Java library behaviour the data classes rely on:
  - 32-bit wrap-around;
  - `String.hashCode`, proved equal to its documented polynomial;
  - `Objects.hash`;
  - `Integer.toString`, proved to round-trip.
- `ClueCard`, `ClueSolution`, `ClueBoardCell`, `ClueRoom`, `CluePlayer`: the data classes. `Card` is an immutable value, so it is a datatype. Solution's fields are public and mutable in Java (Solution.java:13-15), but nothing in this snapshot assigns them after the constructor, so the model treats a Solution as a value and makes it a datatype too. `BoardCell`, `Room` and `Player` are updated through setters, so they are classes whose methods each modify only their own field.

Notes on `findAllTargets` as written:
- `findAllTargets` rejects every occupied cell, including room cells.
- It stops on any cell flagged as a room, not only on room centres.
- It does not check what kind of cell the start is.
- Cells are compared by identity, because neither cell class overrides `equals`.

## Model

| member | source | states |
|---|---|---|
| ExperimentCell.TestBoardCell.constructor | src/experiment/TestBoardCell.java:26-33 | a new cell sits at the given row and column, is not a room, is not occupied and has no neighbours |
| ExperimentCell.TestBoardCell.AddAdjacency | src/experiment/TestBoardCell.java:35-37 | the neighbour set gains the cell; adding a cell already present leaves the set unchanged; no other field changes |
| ExperimentCell.TestBoardCell.SetRoom | src/experiment/TestBoardCell.java:43-49 | the room flag becomes the argument and nothing else changes; row and column are constants |
| ExperimentCell.TestBoardCell.SetOccupied | src/experiment/TestBoardCell.java:51-57 | the occupied flag becomes the argument and nothing else changes |
| ExperimentSearch.FoundHasPath | src/experiment/TestBoard.java:60-76 | every cell the recursive search finds is the last cell of a search path: a walk along neighbour links that starts at a candidate; repeats no cell; avoids the current path and occupied cells; passes through no room; never overruns the budget; and ends in a room or after exactly the budget |
| ExperimentSearch.PathEndIsFound | src/experiment/TestBoard.java:60-76 | conversely, the last cell of every search path is found by the search |
| ExperimentSearch.FoundIsPathEnds | src/experiment/TestBoard.java:60-76 | the search finds a cell if and only if some search path ends there |
| ExperimentSearch.FoundIsEnterable | src/experiment/TestBoard.java:62-63 | a found cell is a board cell that is neither on the current path nor occupied |
| ExperimentSearch.OneStepFound | src/experiment/TestBoard.java:62-67 | with one step left exactly the candidates not on the path and not occupied are found |
| ExperimentSearch.EnterableRoomIsFound | src/experiment/TestBoard.java:66-67 | an enterable room among the candidates is found whatever the remaining budget |
| ExperimentSearch.FoundPathLength | src/experiment/TestBoard.java:60-76 | with a positive budget each found cell ends a search path of exactly the budget, or is a room ending a shorter one |
| ExperimentSearch.NonPositiveBudgetFindsOnlyRooms | src/experiment/TestBoard.java:66-70 | with a budget below one the last-step test never fires, so only rooms are found |
| ExperimentSearch.FoundAddCandidate | src/experiment/TestBoard.java:61-73 | trying one more neighbour adds what entering it contributes, and adds nothing when it is visited or occupied |
| ExperimentBoard.TestBoard.constructor | src/experiment/TestBoard.java:27-58 | the board is a 4x4 grid with a distinct cell at every position, each knowing its position and linked to exactly the in-bounds cells one orthogonal step away; no cell is a room or occupied; both sets start empty |
| ExperimentBoard.NewCells | src/experiment/TestBoard.java:29-36 | a fresh grid holds a new cell at every position, carrying that position and the cell defaults |
| ExperimentBoard.LinkNeighbours | src/experiment/TestBoard.java:38-56 | the four bounds-checked links give a cell exactly its orthogonal in-bounds neighbours |
| ExperimentBoard.TestBoard.ValidIsClosed | src/experiment/TestBoard.java:38-56 | every neighbour of a board cell is a board cell |
| ExperimentBoard.TestBoard.NeighbourCells | src/experiment/TestBoard.java:38-56 | a cell's neighbours are the existing cells above, below, left and right of it, and no diagonal |
| ExperimentBoard.TestBoard.NeighbourCount | src/experiment/TestBoard.java:38-56 | a corner cell has 2 neighbours, an edge cell 3 and an inner cell 4 |
| ExperimentBoard.TestBoard.NeighbourSymmetric | src/experiment/TestBoard.java:40-54 | b is a neighbour of a if and only if a is a neighbour of b |
| ExperimentBoard.TestBoard.NotOwnNeighbour | src/experiment/TestBoard.java:38-56 | no cell is linked to itself |
| ExperimentBoard.TestBoard.GetCell | src/experiment/TestBoard.java:85-87 | the cell returned for an in-bounds position is a board cell at that position |
| ExperimentBoard.TestBoard.FindAllTargets | src/experiment/TestBoard.java:60-76 | targets grow by exactly what the search specification finds from the cell's neighbours with the current path, and visited is restored to what it was (each add is paired with a remove) |
| ExperimentBoard.TestBoard.TryNeighbour | src/experiment/TestBoard.java:62-73 | one pass of the loop: it adds exactly what entering the neighbour contributes when the neighbour is off the path and unoccupied, and nothing otherwise; visited ends as it began |
| ExperimentBoard.TestBoard.CalcTargets | src/experiment/TestBoard.java:78-83 | targets become exactly the specification's result for the start, with a path holding only the start, whatever they were before; visited ends as just the start |
| ExperimentBoard.TestBoard.WalkDistance | src/experiment/TestBoard.java:60-76 | the i-th cell of a walk from the start is at most i+1 orthogonal steps away, and an even number of steps short of i+1 |
| ExperimentBoard.TestBoard.TargetDistance | src/experiment/TestBoard.java:60-83 | a target is at most the roll away from the start; one that is not a room is an even number of steps short of the roll |
| ExperimentBoard.TestBoard.TargetsAreFreeCells | src/experiment/TestBoard.java:60-83 | the start is never a target, and no occupied cell is a target |
| ExperimentBoard.TestBoard.OneStepTargets | src/experiment/TestBoard.java:60-83 | with a roll of one the targets are exactly the unoccupied neighbours of the start |
| ExperimentBoard.TestBoard.TwoStepTarget | src/experiment/TestBoard.java:60-76 | a cell two links away is a target of a roll of two when the cell between is free and not a room, and the far cell is free and is not the start |
| ExperimentBoard.TestBoard.Linked | src/experiment/TestBoard.java:38-56 | on a valid board, each in-bounds cell lists every orthogonal in-bounds neighbour as adjacent |
| ExperimentBoard.TestBoard.AdjacentRoomTarget | src/experiment/TestBoard.java:60-76 | a free room next to the start is a target for any roll, since the move ends on entering it |
| ExperimentBoard.TestBoard.WalkTarget | src/experiment/TestBoard.java:60-76 | the last cell of a walk of orthogonal steps from the start, with no position repeated or equal to the start, no cell occupied and no room before the last, is a target of a roll of the walk's length |
| ExperimentBoard.TestBoard.FreeRouteTarget | src/experiment/TestBoard.java:60-76 | on a board with no occupied cell and no room, the end of any route that never comes back to a position is a target of a roll of the route's length |
| ExperimentScenarios.EmptyBoardOneStep | src/tests/BoardTestsExp.java:93-103 | from (1,1) on an empty board with a roll of one, the targets are exactly (1,0), (2,1), (1,2) and (0,1) |
| ExperimentScenarios.EmptyBoardOneStepTargets | src/tests/BoardTestsExp.java:93-103 | on any valid board with nothing occupied, the specification gives those four cells for (1,1) and a roll of one |
| ExperimentScenarios.CentreNeighbours | src/experiment/TestBoard.java:38-56 | cell (1,1) has the four distinct neighbours (1,0), (2,1), (1,2) and (0,1) |
| ExperimentScenarios.OneCellOccupied | src/tests/BoardTestsExp.java:105-117 | with (1,2) occupied, the targets of (1,1) and a roll of one are exactly (1,0), (2,1) and (0,1) |
| ExperimentScenarios.OneCellOccupiedTargets | src/tests/BoardTestsExp.java:105-117 | on any valid board where only (1,2) is occupied, the specification gives those three cells, and (1,2) is not among them |
| ExperimentScenarios.OneCellRoom | src/tests/BoardTestsExp.java:119-138 | with (2,1) a room, a roll of two from (1,1) gives exactly the six cells of RoomBelowCells: the room is one, and (3,1), beyond the room, is not |
| ExperimentScenarios.OneCellRoomTargets | src/tests/BoardTestsExp.java:119-138 | on any valid board where (2,1) is a free room, the room is found and (3,1) is not, because every path to (3,1) passes through the room |
| ExperimentScenarios.NoPathPastRoom | src/experiment/TestBoard.java:66-70 | when (2,1) is a room, no search path of two steps from (1,1) can end at (3,1): the only way there is through the room, where the move stops |
| ExperimentScenarios.RoomBelowCells | src/tests/BoardTestsExp.java:119-138 | (0,0), (0,2), (2,0), (2,2), which the test's comment lists, (1,3), which the comment misses (its line for (1,2) names only (0,2) and (2,2)), and the room (2,1): six distinct cells, not (3,1) |
| ExperimentScenarios.RoomBelowTargets | src/tests/BoardTestsExp.java:119-138 | on any valid free board where (2,1) is the only room, the search from (1,1) with a roll of two finds exactly RoomBelowCells |
| ExperimentScenarios.RoomBelowReached | src/tests/BoardTestsExp.java:119-138 | each of those six cells is found |
| ExperimentScenarios.RoomBelowBound | src/tests/BoardTestsExp.java:119-138 | nothing else is found: a non-room target is two steps away, and (3,1) lies past the room |
| ExperimentScenarios.TwoStepsFromInnerCell | src/tests/BoardTestsExp.java:150-165 | from (2,2) with a roll of two, the six cells two steps away are targets when nothing is occupied and the cells between are not rooms |
| ExperimentScenarios.TwoStepsFromInnerCellBound | src/tests/BoardTestsExp.java:150-183 | from (2,2) with a roll of two, when at most (2,3) is a room, no cell outside those six and that room is a target |
| ExperimentScenarios.InnerTwoStepCells | src/tests/BoardTestsExp.java:150-165 | the six cells two steps from (2,2) are distinct, and none of them is (2,3) |
| ExperimentScenarios.TwoSteps | src/tests/BoardTestsExp.java:150-165 | on an empty board the targets of (2,2) with a roll of two are exactly those six cells, so they include (0,2), (1,1), (2,0) and (3,1), and number six |
| ExperimentScenarios.TwoStepsTargets | src/tests/BoardTestsExp.java:150-165 | on any valid board with no rooms and nothing occupied, the specification gives exactly those six cells |
| ExperimentScenarios.TwoStepsAndOneRoom | src/tests/BoardTestsExp.java:166-183 | with (2,3) a room, the targets of (2,2) with a roll of two are the six cells and the room, seven in all |
| ExperimentScenarios.TwoStepsWithRoomTargets | src/tests/BoardTestsExp.java:166-183 | on any valid board where (2,3) is the only room and nothing is occupied, the specification gives exactly those seven cells |
| ExperimentScenarios.SixSteps | src/tests/BoardTestsExp.java:140-148 | on an empty board the targets of (0,0) with a roll of six are exactly the seven cells of SixStepCells, more than the five the test asks for |
| ExperimentScenarios.SixStepCells | src/tests/BoardTestsExp.java:140-148 | the seven cells other than (0,0) an even number of steps from it are distinct, and (0,0) is not one of them |
| ExperimentScenarios.SixStepsTargets | src/tests/BoardTestsExp.java:140-148 | on any valid board with no rooms and nothing occupied, the search from (0,0) with a roll of six finds exactly SixStepCells |
| ExperimentScenarios.SixStepsReachedLeft | src/tests/BoardTestsExp.java:140-148 | (1,1), (2,0), (0,2) and (3,1) are found, each at the end of a six-step route |
| ExperimentScenarios.SixStepsReachedRight | src/tests/BoardTestsExp.java:140-148 | (2,2), (1,3) and (3,3) are found, each at the end of a six-step route |
| ExperimentScenarios.SixStepsBound | src/tests/BoardTestsExp.java:140-148 | nothing else is found: a target is an even number of steps from (0,0) and is not (0,0) |
| ClueBoardCell.BoardCell.constructor | src/clueGame/BoardCell.java:17-30 | the no-argument cell is at (0, 0) with every field default: initial '\0', no door, not a label or centre, secret passage ' ', no neighbours, not occupied or highlighted; it is not a doorway and, since '\0' is neither 'W' nor 'X', it counts as a room |
| ClueBoardCell.BoardCell.At | src/clueGame/BoardCell.java:17-35 | a cell built with a position holds that position and the same defaults |
| ClueBoardCell.BoardCell.SetInitial | src/clueGame/BoardCell.java:37-39 | only the initial changes; afterwards the cell is a room exactly when the initial is neither 'W' nor 'X' |
| ClueBoardCell.BoardCell.SetDoorDirection | src/clueGame/BoardCell.java:45-55 | only the door direction changes; afterwards the cell is a doorway exactly when the direction is not None |
| ClueBoardCell.BoardCell.SetLabel | src/clueGame/BoardCell.java:57-63 | only the label flag changes, to the argument |
| ClueBoardCell.BoardCell.SetRoomCenter | src/clueGame/BoardCell.java:65-71 | only the centre flag changes, to the argument |
| ClueBoardCell.BoardCell.SetSecretPassage | src/clueGame/BoardCell.java:73-79 | only the secret passage changes, to the argument |
| ClueBoardCell.BoardCell.AddAdj | src/clueGame/BoardCell.java:81-87 | the neighbour set gains the cell, and adding it twice changes nothing |
| ClueBoardCell.BoardCell.SetOccupied | src/clueGame/BoardCell.java:97-103 | only the occupied flag changes, to the argument |
| ClueBoardCell.BoardCell.SetHighlighted | src/clueGame/BoardCell.java:109-115 | only the highlighted flag changes, to the argument |
| ClueBoardCell.RoomInitials | src/clueGame/BoardCell.java:105-107 | exactly the initials 'W' and 'X' are not rooms, and the unset initial is a room |
| ClueCard.Card.Equals | src/clueGame/Card.java:34-40 | a card equals an object exactly when that object is a card with the same name and type; it is false for null and for other classes |
| ClueCard.Card.HashCode | src/clueGame/Card.java:42-45 | the hash is a 32-bit int equal to 31 * (31 + the name's polynomial hash) + the type's hash, wrapped to 32 bits |
| ClueCard.Card.ToString | src/clueGame/Card.java:47-50 | the text is the name followed by " (", the type's constant name and ")" |
| ClueCard.EqualsReflexive | src/clueGame/Card.java:35-40 | every card equals itself |
| ClueCard.EqualsSymmetric | src/clueGame/Card.java:35-40 | card equality is symmetric |
| ClueCard.EqualsTransitive | src/clueGame/Card.java:35-40 | card equality is transitive |
| ClueCard.EqualsFieldwise | src/clueGame/Card.java:35-40 | two cards are equal if and only if their names are equal and their types are equal |
| ClueCard.EqualCardsHashEqually | src/clueGame/Card.java:35-45 | equal cards have equal hash codes, whatever the enum constants hash to |
| ClueCard.ParseCard | src/clueGame/Card.java:47-50 | a card read back from a text prints as that text |
| ClueCard.ParseToString | src/clueGame/Card.java:47-50 | reading back a card's text gives the card |
| ClueCard.ToStringInjective | src/clueGame/Card.java:47-50 | different cards print differently |
| ClueCard.ContainsEqualCard | src/tests/GameSetupTests.java:101-103 | a list contains a card by equality exactly when it holds that card value, so a newly built equal card is found |
| ClueSolution.NewSolution | src/clueGame/Solution.java:17-21 | the second argument becomes the room and the third the weapon |
| ClueSolution.Solution.Equals | src/clueGame/Solution.java:23-31 | a solution equals an object exactly when that object is a solution with person, room and weapon equal by null-safe comparison; it is false for null and for other classes |
| ClueSolution.ObjectsEquals | src/clueGame/Solution.java:28-30 | null-safe card comparison: true exactly when both are null or both are equal cards |
| ClueSolution.EqualsReflexive | src/clueGame/Solution.java:25 | every solution equals itself |
| ClueSolution.NotEqualToOtherClass | src/clueGame/Solution.java:26 | a solution never equals null or another class |
| ClueSolution.SameCardsEqual | src/clueGame/Solution.java:17-31 | two solutions built from the same cards are equal |
| ClueSolution.EqualsComponentwise | src/clueGame/Solution.java:28-30 | two solutions are equal if and only if person, room and weapon each are |
| ClueSolution.WrongPersonNotEqual | src/tests/GameSolutionTest.java:72-75 | a different person makes the solutions unequal |
| ClueSolution.WrongRoomNotEqual | src/tests/GameSolutionTest.java:82-85 | a different room makes the solutions unequal |
| ClueSolution.WrongWeaponNotEqual | src/tests/GameSolutionTest.java:77-80 | a different weapon makes the solutions unequal |
| ClueSolution.ArgumentOrderMatters | src/clueGame/Solution.java:17-21 | swapping the room and weapon arguments gives a different solution when those cards differ |
| ClueRoom.Room.constructor | src/clueGame/Room.java:12-18 | a new room has the given name, which is constant, and neither a centre nor a label cell |
| ClueRoom.Room.SetCenterCell | src/clueGame/Room.java:24-30 | the centre cell becomes the argument; the label cell is unchanged |
| ClueRoom.Room.SetLabelCell | src/clueGame/Room.java:32-38 | the label cell becomes the argument; the centre cell is unchanged |
| CluePlayer.Player.constructor | src/clueGame/Player.java:23-29 | a new player has the given name, colour, row and column, and an empty hand; name and colour are constants |
| CluePlayer.Player.AddCard | src/clueGame/Player.java:31-33 | the card is appended: the hand grows by one, earlier cards are unchanged, and an equal card already held is not refused |
| CluePlayer.Player.SetLocation | src/clueGame/Player.java:55-58 | row and column become the arguments; name, colour and hand are unchanged |
| CluePlayer.Player.ToString | src/clueGame/Player.java:60-63 | the text starts with the name and " @ (", and the row and column can be read back from the rest; since only canonical numerals are read back, this fixes the text (ToStringText) |
| CluePlayer.ToStringText | src/clueGame/Player.java:60-63 | the text is exactly the name, " @ (", the row's Integer.toString text, ", ", the column's and ")" |
| CluePlayer.LocationTextUnique | src/clueGame/Player.java:62 | the only text read back as a given position is the one LocationText writes for it |
| CluePlayer.LocationRoundTrip | src/clueGame/Player.java:62 | the "row, column)" text of any position is read back as that position |
| CluePlayer.ToStringReportsPosition | src/clueGame/Player.java:60-63 | two players with the same name print the same text exactly when they stand at the same position |
| JavaLang.Wrap | src/clueGame/Card.java:44 | the Java int a value overflows to is the one in the 32-bit range congruent to it modulo 2^32 |
| JavaLang.StringHashIsPolynomial | src/clueGame/Card.java:44 | String.hashCode, folding 31 * h + c over the characters, equals the polynomial s[0]*31^(n-1) + ... + s[n-1] wrapped to 32 bits |
| JavaLang.ObjectsHashPair | src/clueGame/Card.java:44 | Objects.hash of two values is 31 * (31 + h1) + h2 wrapped to 32 bits |
| JavaLang.IntToStringRoundTrip | src/clueGame/Player.java:62 | the decimal text of any int, with a minus sign for negatives, reads back as that int |
| JavaLang.IntToStringInjective | src/clueGame/Player.java:62 | different ints have different texts |
| JavaLang.NumeralCanonical | src/clueGame/Player.java:62 | every numeral (no bare minus sign, no leading zero, no "-0") is the Integer.toString text of the int it denotes |

## Left out

- The `getCell` position check: Java throws an index error outside the grid, and GetCell requires an in-bounds position instead.
- CalcTargets requires the start to be a cell of the board. The Java method accepts any cell, but every caller passes a board cell.
- Before the first `calcTargets`, Java's `targets` and `visited` are null; the model starts them empty.
- FindAllTargets takes a ghost argument, a snapshot of the cells' flags and neighbours. The search only reads these, so the specification is stated over the snapshot rather than the heap.
- TryNeighbour is the body of the loop in `findAllTargets`, written as its own method that is mutually recursive with FindAllTargets. The statements and their order are those of `findAllTargets`.
- The order in which `findAllTargets` visits neighbours is not modelled. Java iterates a HashSet in an unspecified order; the model picks any remaining neighbour, and the result does not depend on the order.
- Aliasing of the live sets and lists returned by `getAdjList`, `getTargets` and `getHand` is not modelled. A caller mutating them, as the tests' `clearAllHands` does, is outside the model.
- Getters are not separate members: `getRow`, `getColumn`, `getInitial`, `getDoorDirection`, `isLabel`, `isRoomCenter`, `getSecretPassage`, `isOccupied`, `isHighlighted`, `getName`, `getType`, `getColor`, `getCenterCell`, `getLabelCell` and the Solution getters are the fields (or datatype destructors) themselves. In ExperimentCell, `GetAdjList`, `IsRoom` and `GetOccupied` are kept as plain reads, and so are `TestBoard.GetTargets`, whose value CalcTargets states, and `BoardCell.IsDoorway` and `BoardCell.IsRoom`, whose meaning SetDoorDirection, SetInitial and RoomInitials state.
- `BoardCell.draw` is rendering.
- Swing panels, dialogs and the `main` entry points are not part of this model.
- `src/clueGame/Board.java` is not part of this model. In this snapshot it is a stub whose loaders only open a file. Door, room-centre and secret-passage adjacency, dealing, `handleSuggestion` and `checkAccusation` are not implemented anywhere in this repository snapshot, so they are not modelled. The accusation tests appear only as the Solution equality lemmas.
- `HumanPlayer`, `ComputerPlayer` and `BadConfigFormatException` are thin subclasses, so they are left out. `Player` is abstract in Java and a plain class here.
- java.awt.Color is an opaque type.
- Names and card types are never null here: `string` and the enums have no null value. In Java, a `Card`, `Room` or `Player` may be built with a null name. A card with a null name throws NullPointerException at Card.java:39 when compared with a different Card object. Against itself it answers true (line 36), and against null or a non-Card it answers false (line 37). Its `toString` writes "null", and `Objects.hash` counts a null field as 0. A door direction and a hand card cannot be null here either. In Java, `setDoorDirection(null)` makes `isDoorway()` true (BoardCell.java:46, since null is not NONE), and `addCard(null)` appends a null to the hand (Player.java:32). No code in this snapshot passes null to either.
- `ParseLocation` and `JavaLang.ParseInt` read back only the numerals Integer.toString writes. They are not Java operations: they exist so that the text of `Player.toString` can be read back and pinned down. Integer.parseInt also accepts a leading "+", leading zeros and "-0", and throws on values outside the 32-bit range; those cases are not modelled.
- An enum constant's identity hash is a parameter of HashCode.
- Card.HashCode: characters are Unicode scalar values, not UTF-16 code units. The hash of a name outside the Basic Multilingual Plane therefore differs from Java's.
- Accusation and suggestion randomness, the deck and dealing are only asserted by tests, so they are not modelled.
