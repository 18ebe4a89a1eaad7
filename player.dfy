/**
 * What every agent has in common: a mark, set from outside, and equality
 * of players by mark alone.
 */
module Players {
  import opened Boards

  class Player {
    /** The mark this player plays with; None until the game assigns one. */
    var symbol: Option<Symbol>

    constructor ()
      ensures symbol == None
    {
      symbol := None;
    }

    method SetSymbol(s: Option<Symbol>)
      modifies this
      ensures GetSymbol() == s
    {
      symbol := s;
    }

    function GetSymbol(): Option<Symbol>
      reads this
    {
      symbol
    }

    /** Players are equal when their marks are; anything that is not a player differs. */
    predicate Equals(o: object?)
      reads this, o
    {
      if o is Player then symbol == (o as Player).symbol else false
    }
  }

  lemma EqualsReflexive(p: Player)
    ensures p.Equals(p)
  {
  }

  /** A player equals exactly the players holding the same mark, and nothing else. */
  lemma EqualsBySymbol(p: Player, o: object?)
    ensures p.Equals(o) <==> o is Player && p.GetSymbol() == (o as Player).GetSymbol()
  {
  }

  lemma EqualsSymmetric(p: Player, q: Player)
    ensures p.Equals(q) <==> q.Equals(p)
    ensures p.Equals(q) <==> p.GetSymbol() == q.GetSymbol()
  {
  }
}
