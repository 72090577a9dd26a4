/** A room of the game (class Room): a fixed name and the cells that hold its centre and its label. */
module ClueRoom {
  import opened ClueBoardCell

  class Room {
    const name: string
    var centerCell: BoardCell?
    var labelCell: BoardCell?

    /** Room(name): neither cell is known yet. */
    constructor (name: string)
      ensures this.name == name && centerCell == null && labelCell == null
    {
      this.name := name;
      centerCell := null;
      labelCell := null;
    }

    /** Only the centre changes; the label cell is left as it was. */
    method SetCenterCell(centerCell: BoardCell?)
      modifies this`centerCell
      ensures this.centerCell == centerCell
    {
      this.centerCell := centerCell;
    }

    /** Only the label changes; the centre cell is left as it was. */
    method SetLabelCell(labelCell: BoardCell?)
      modifies this`labelCell
      ensures this.labelCell == labelCell
    {
      this.labelCell := labelCell;
    }
  }
}
