/**
 * The display backend (the `WumpusDisplay` calls the game makes): the
 * notifications it can show and the backend itself, modelled as a log of
 * the notifications it was asked to show, in order.
 */
module Displays {
  import opened Caves

  /** The cave paired with the arrows left, as passed to `ShowGameState`. */
  datatype GameState = GameState(cave: Cave, arrows: int)

  /** One call on the display backend. */
  datatype Notification =
    | ShowGameState(state: GameState)
    | ShowPlayerHitWall
    | ShowPlayerSurvivedPit
    | ShowPlayerFellInPit
    | ShowPlayerMovedByBats
    | ShowPlayerMovedByBatsAgain
    | ShowPlayerEatenByWumpus
    | ShowArrowWentNowhere
    | ShowArrowEnteredRandomRoom(fromRoom: int, toRoom: int, enteredRoom: int)
    | ShowPlayerOutOfArrows
    | ShowPlayerShotWumpus
    | ShowPlayerShotSelf

  /** The display backend: every call it receives is appended to `log`. */
  class Display {
    var log: seq<Notification>

    constructor ()
      ensures log == []
    {
      log := [];
    }

    method Show(n: Notification)
      modifies this
      ensures log == old(log) + [n]
    {
      log := log + [n];
    }
  }
}
