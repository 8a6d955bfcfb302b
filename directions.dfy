/** The horizontal direction shared by the starship's moves and the enemy
    formation's sweep (src/game.rs:17-29). It sits in a module of its own
    because the starship imports it from the game, which imports the starship. */
module Directions {
  datatype Direction = Left | Right {
    /** `Direction::opposite`: never the direction it is asked about. */
    function Opposite(): (d: Direction)
      ensures d != this
    {
      match this
      case Left => Right
      case Right => Left
    }
  }

  /** Flipping twice gives the direction back. */
  lemma OppositeIsInvolution(d: Direction)
    ensures d.Opposite().Opposite() == d
    ensures d.Opposite() != d
  {
  }
}
