/** The two players, their markers, and how a single cell is displayed. */
module Players {

  /** An optional value; a board cell is `None` when empty. */
  datatype Option<T> = None | Some(value: T)

  /** The two players; `X` always moves first. */
  datatype Player = X | O {

    /** The other player. */
    function Opponent(): (q: Player)
      ensures q != this
    {
      match this
      case X => O
      case O => X
    }

    /** The single-character marker drawn for this player. */
    function ToChar(): (c: char)
      ensures c != ' '
      ensures c == 'X' || c == 'O'
    {
      match this
      case X => 'X'
      case O => 'O'
    }
  }

  /** Taking the opponent twice gives back the same player. */
  lemma OpponentInvolution(p: Player)
    ensures p.Opponent().Opponent() == p
    ensures p.Opponent() != p
  {
  }

  /** Different players are drawn with different markers. */
  lemma ToCharInjective(p: Player, q: Player)
    ensures p.ToChar() == q.ToChar() <==> p == q
  {
  }

  /** The character shown for a cell: a blank for an empty cell, the owner's marker otherwise. */
  function ShowCell(cell: Option<Player>): (c: char)
    ensures c == ' ' <==> cell.None?
    ensures cell.Some? ==> c == cell.value.ToChar()
  {
    if cell.Some? then cell.value.ToChar() else ' '
  }

  /** The display tells every cell content apart: empty, `X` and `O` are all shown differently. */
  lemma ShowCellInjective(a: Option<Player>, b: Option<Player>)
    ensures ShowCell(a) == ShowCell(b) <==> a == b
  {
  }
}
