/**
 * A card of the game (class Card): an immutable pair of a name and a card
 * type, with value equality on both, a hash consistent with it, and the
 * text `name (TYPE)`.
 */
module ClueCard {
  import opened ClueTypes
  import opened Optional
  import JavaLang

  /** The constructor Card(name, type); `name` and `cardType` are what getName and getType return. */
  datatype Card = Card(name: string, cardType: CardType) {

    /**
     * Card.equals: true for an equal name and the same type, false for null
     * or an object that is not a Card. On values this is exactly equality.
     */
    predicate Equals(obj: Option<Card>)
      ensures Equals(obj) <==> obj == Some(this)
    {
      match obj
      case None => false
      case Some(other) => name == other.name && cardType == other.cardType
    }

    /**
     * Card.hashCode, Objects.hash(name, type): 31 * (31 + name's hash) +
     * type's hash in int arithmetic. An enum constant's hash is its
     * identity hash, which the caller supplies as `typeHash`.
     */
    function HashCode(typeHash: CardType -> int): (h: int)
      ensures JavaLang.IsInt32(h)
      ensures h == JavaLang.Wrap(31 * (31 + JavaLang.Wrap(JavaLang.PolyHash(name))) + typeHash(cardType))
    {
      JavaLang.StringHashIsPolynomial(name);
      JavaLang.ObjectsHashPair(JavaLang.StringHash(name), typeHash(cardType));
      JavaLang.ObjectsHash([JavaLang.StringHash(name), typeHash(cardType)])
    }

    /** Card.toString: the name, a space and the type's name in parentheses. */
    function ToString(): (s: string)
      ensures s == name + TypeSuffix(cardType)
    {
      name + " (" + CardTypeName(cardType) + ")"
    }
  }

  /** The text after the name in a card's string. */
  function TypeSuffix(t: CardType): string {
    " (" + CardTypeName(t) + ")"
  }

  /** Equality of cards is reflexive. */
  lemma EqualsReflexive(a: Card)
    ensures a.Equals(Some(a))
  {
  }

  /** Equality of cards is symmetric. */
  lemma EqualsSymmetric(a: Card, b: Card)
    ensures a.Equals(Some(b)) <==> b.Equals(Some(a))
  {
  }

  /** Equality of cards is transitive. */
  lemma EqualsTransitive(a: Card, b: Card, c: Card)
    requires a.Equals(Some(b)) && b.Equals(Some(c))
    ensures a.Equals(Some(c))
  {
  }

  /** Two cards are equal exactly when their names and their types are. */
  lemma EqualsFieldwise(a: Card, b: Card)
    ensures a.Equals(Some(b)) <==> a.name == b.name && a.cardType == b.cardType
  {
  }

  /** Equal cards have equal hash codes, whatever the enum constants hash to. */
  lemma EqualCardsHashEqually(a: Card, b: Card, typeHash: CardType -> int)
    requires a.Equals(Some(b))
    ensures a.HashCode(typeHash) == b.HashCode(typeHash)
  {
  }

  /** Reads a card back from its string, when the string ends in one of the three type suffixes. */
  function ParseCard(s: string): (r: Option<Card>)
    ensures r.Some? ==> r.value.ToString() == s
  {
    if HasSuffix(s, TypeSuffix(Person)) then Some(Card(s[..|s| - |TypeSuffix(Person)|], Person))
    else if HasSuffix(s, TypeSuffix(Weapon)) then Some(Card(s[..|s| - |TypeSuffix(Weapon)|], Weapon))
    else if HasSuffix(s, TypeSuffix(Room)) then Some(Card(s[..|s| - |TypeSuffix(Room)|], Room))
    else Option.None
  }

  predicate HasSuffix(s: string, suffix: string) {
    |suffix| <= |s| && s[|s| - |suffix|..] == suffix
  }

  /** A card's string gives the card back: the string determines name and type. */
  lemma ParseToString(c: Card)
    ensures ParseCard(c.ToString()) == Some(c)
  {
    var s := c.ToString();
    assert s[..|s| - |TypeSuffix(c.cardType)|] == c.name;
    assert HasSuffix(s, TypeSuffix(c.cardType));
    match c.cardType
    case Person =>
    case Weapon =>
      assert s[|s| - 2] == 'N' && s[|s| - 4] == 'P';
    case Room =>
      assert s[|s| - 2] == 'M';
  }

  /** Different cards print differently. */
  lemma ToStringInjective(a: Card, b: Card)
    requires a.ToString() == b.ToString()
    ensures a == b
  {
    ParseToString(a);
    ParseToString(b);
  }

  /** List.contains: the card, as the receiver of equals, equals some element. */
  predicate Contains(cards: seq<Card>, c: Card) {
    exists i :: 0 <= i < |cards| && c.Equals(Some(cards[i]))
  }

  /** A new card is found in a list holding an equal card, not only the same object. */
  lemma ContainsEqualCard(cards: seq<Card>, c: Card)
    ensures Contains(cards, c) <==> c in cards
  {
    if c in cards {
      var i :| 0 <= i < |cards| && cards[i] == c;
      assert c.Equals(Some(cards[i]));
    }
  }
}
