/**
 * The answer to the game (class Solution): one person, one weapon and one
 * room card. Each component may be null in Java; None stands for that.
 */
module ClueSolution {
  import opened Optional
  import opened ClueCard

  /** The fields as declared: person, weapon, room. The getters are the field reads. */
  datatype Solution = Solution(person: Option<Card>, weapon: Option<Card>, room: Option<Card>) {

    /**
     * Solution.equals: false for null or another class, otherwise each
     * component compared with Objects.equals. On values this is exactly
     * equality.
     */
    predicate Equals(o: Option<Solution>)
      ensures Equals(o) <==> o == Some(this)
    {
      match o
      case None => false
      case Some(other) =>
        ObjectsEquals(person, other.person) && ObjectsEquals(room, other.room)
        && ObjectsEquals(weapon, other.weapon)
    }
  }

  /**
   * The constructor Solution(person, room, weapon): the arguments come in
   * the order person, room, weapon, unlike the fields.
   */
  function NewSolution(person: Option<Card>, room: Option<Card>, weapon: Option<Card>): (s: Solution)
    ensures s.person == person && s.room == room && s.weapon == weapon
  {
    Solution(person, weapon, room)
  }

  /** Objects.equals on cards: both null, or the first non-null and equal to the second. */
  predicate ObjectsEquals(a: Option<Card>, b: Option<Card>)
    ensures ObjectsEquals(a, b) <==> a == b
  {
    match a
    case None => b.None?
    case Some(x) => x.Equals(b)
  }

  /** A solution equals itself. */
  lemma EqualsReflexive(s: Solution)
    ensures s.Equals(Some(s))
  {
  }

  /** A solution is never equal to null or to another class. */
  lemma NotEqualToOtherClass(s: Solution)
    ensures !s.Equals(Option.None)
  {
  }

  /** Two solutions built from the same three cards are equal, whatever objects hold them. */
  lemma SameCardsEqual(p: Option<Card>, r: Option<Card>, w: Option<Card>)
    ensures NewSolution(p, r, w).Equals(Some(NewSolution(p, r, w)))
  {
  }

  /** Two solutions are equal exactly when person, room and weapon each are. */
  lemma EqualsComponentwise(s: Solution, t: Solution)
    ensures s.Equals(Some(t)) <==> s.person == t.person && s.room == t.room && s.weapon == t.weapon
  {
  }

  /** An accusation with a different person is not the solution. */
  lemma WrongPersonNotEqual(s: Solution, p: Option<Card>)
    requires p != s.person
    ensures !s.Equals(Some(NewSolution(p, s.room, s.weapon)))
  {
  }

  /** An accusation with a different room is not the solution. */
  lemma WrongRoomNotEqual(s: Solution, r: Option<Card>)
    requires r != s.room
    ensures !s.Equals(Some(NewSolution(s.person, r, s.weapon)))
  {
  }

  /** An accusation with a different weapon is not the solution. */
  lemma WrongWeaponNotEqual(s: Solution, w: Option<Card>)
    requires w != s.weapon
    ensures !s.Equals(Some(NewSolution(s.person, s.room, w)))
  {
  }

  /** Arguments passed as (person, weapon, room) by mistake give a different solution when weapon and room differ. */
  lemma ArgumentOrderMatters(p: Option<Card>, r: Option<Card>, w: Option<Card>)
    requires r != w
    ensures !NewSolution(p, r, w).Equals(Some(NewSolution(p, w, r)))
  {
  }
}
