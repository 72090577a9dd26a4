/**
 * A player of the game (class Player): a fixed name and colour, a
 * position that moves, and a hand of cards that only grows.
 */
module CluePlayer {
  import opened Optional
  import opened ClueCard
  import JavaLang

  /** java.awt.Color, which the model only stores and hands back. */
  type Color

  class Player {
    const name: string
    const color: Color
    var row: int
    var column: int
    var hand: seq<Card>

    /** Player(name, color, row, column): an empty hand at the given position. */
    constructor (name: string, color: Color, row: int, column: int)
      ensures this.name == name && this.color == color
      ensures this.row == row && this.column == column && hand == []
    {
      this.name := name;
      this.color := color;
      this.row := row;
      this.column := column;
      hand := [];
    }

    /** List.add: the card goes at the end, even when an equal card is already held. */
    method AddCard(card: Card)
      modifies this`hand
      ensures hand == old(hand) + [card]
      ensures |hand| == |old(hand)| + 1 && hand[..|old(hand)|] == old(hand) && hand[|hand| - 1] == card
    {
      hand := hand + [card];
    }

    /** Moves the player; name, colour and hand are untouched. */
    method SetLocation(row: int, column: int)
      modifies this`row, this`column
      ensures this.row == row && this.column == column
    {
      this.row := row;
      this.column := column;
    }

    /**
     * Player.toString: the name, " @ (", then the row and column as
     * decimals separated by ", ", then ")". The position can be read back
     * from what follows the name, and only that text reads back as it
     * (ToStringText).
     */
    function ToString(): (s: string)
      reads this
      ensures |s| >= |name| + 4 && s[..|name| + 4] == name + " @ ("
      ensures ParseLocation(s[|name| + 4..]) == Some((row, column))
    {
      LocationRoundTrip(row, column);
      var s := name + " @ (" + LocationText(row, column);
      assert s[|name| + 4..] == LocationText(row, column);
      s
    }
  }

  /** The text of a position as toString writes it after the opening parenthesis. */
  function LocationText(row: int, column: int): string {
    JavaLang.IntToString(row) + ", " + JavaLang.IntToString(column) + ")"
  }

  /** The index of the first `c` in `s`, or |s| when there is none. */
  function IndexOf(s: string, c: char): (k: int)
    ensures 0 <= k <= |s|
    ensures forall i :: 0 <= i < k ==> s[i] != c
    ensures k < |s| ==> s[k] == c
  {
    if s == [] then 0 else if s[0] == c then 0 else 1 + IndexOf(s[1..], c)
  }

  /** Reads "row, column)" back into the pair, or None when the text is not of that shape. */
  function ParseLocation(t: string): Option<(int, int)> {
    var k := IndexOf(t, ',');
    if k + 2 < |t| && t[k + 1] == ' ' && t[|t| - 1] == ')'
       && JavaLang.IsNumeral(t[..k]) && JavaLang.IsNumeral(t[k + 2..|t| - 1])
    then Some((JavaLang.ParseInt(t[..k]), JavaLang.ParseInt(t[k + 2..|t| - 1])))
    else Option.None
  }

  /** Writing a position and reading it back gives the position. */
  lemma LocationRoundTrip(row: int, column: int)
    ensures ParseLocation(LocationText(row, column)) == Some((row, column))
  {
    var r, c := JavaLang.IntToString(row), JavaLang.IntToString(column);
    var t := LocationText(row, column);
    assert t[|r|] == ',';
    assert forall i :: 0 <= i < |r| ==> t[i] == r[i];
    assert IndexOf(t, ',') == |r|;
    assert t[..|r|] == r;
    assert t[|r| + 2..|t| - 1] == c;
    JavaLang.IntToStringRoundTrip(row);
    JavaLang.IntToStringRoundTrip(column);
  }

  /** Only the text LocationText writes reads back as a given position. */
  lemma LocationTextUnique(t: string, row: int, column: int)
    requires ParseLocation(t) == Some((row, column))
    ensures t == LocationText(row, column)
  {
    var k := IndexOf(t, ',');
    JavaLang.NumeralCanonical(t[..k]);
    JavaLang.NumeralCanonical(t[k + 2..|t| - 1]);
    assert t == t[..k] + ", " + t[k + 2..|t| - 1] + ")";
  }

  /** The contract of ToString fixes its text: exactly what Player.toString concatenates. */
  lemma ToStringText(p: Player)
    ensures p.ToString() == p.name + " @ (" + LocationText(p.row, p.column)
  {
    var s := p.ToString();
    LocationTextUnique(s[|p.name| + 4..], p.row, p.column);
    assert s == s[..|p.name| + 4] + s[|p.name| + 4..];
  }

  /** Moving a player changes the text only in the position it reports. */
  lemma ToStringReportsPosition(p: Player, q: Player)
    requires p.name == q.name
    ensures p.ToString() == q.ToString() <==> p.row == q.row && p.column == q.column
  {
    var s, t := p.ToString(), q.ToString();
    if s == t {
      assert s[|p.name| + 4..] == t[|q.name| + 4..];
    }
  }
}
