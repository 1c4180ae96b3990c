/** The game events: what happened in a turn, as shown to the player. */
module GameEvents {

  datatype Event =
    | PlayerHitWall
    | PlayerSurvivedPit
    | PlayerFellInPit
    | MovedByBats
    | PlayerEatenByWumpus
    | PlayerIdle
    | ArrowWentNowhere
    | ArrowEnteredRandomRoom(fromRoom: int, toRoom: int, enteredRoom: int)
    | PlayerOutOfArrows
    | PlayerShotWumpus
    | PlayerShotSelf
    | PlayerEnteredRoom
    | GameOver
}
