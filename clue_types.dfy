/** The game's enumerations, and Option, for a reference that Java code may pass as null. */
module ClueTypes {

  /** The three kinds of card (CardType). */
  datatype CardType = Person | Weapon | Room

  /** The side of a doorway cell its door opens to, or None for a cell that is not a doorway (DoorDirection). */
  datatype DoorDirection = Up | Down | Left | Right | None

  /** The name an enumeration constant prints as. */
  function CardTypeName(t: CardType): string {
    match t
    case Person => "PERSON"
    case Weapon => "WEAPON"
    case Room => "ROOM"
  }
}

/**
 * An argument that Java may pass as null, or as an object of another
 * class: None stands for both, since the equality methods modelled here
 * answer the same for them.
 */
module Optional {
  datatype Option<T> = None | Some(value: T)
}
