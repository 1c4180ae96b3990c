/**
 * Player actions (src/playerAction.ts): a move resolves in one step (hit the
 * wall, or move and then evaluate the entered room's hazards, pit before
 * bats), is shown on the display and reports whether the game goes on;
 * quitting always ends the game; a factory turns commands into actions.
 */
module PlayerActions {
  import opened Wrappers
  import opened Rooms
  import opened Caves
  import opened GameEvents
  import opened Displays
  import GameEventDisplays

  /** The kinds of command the action translator produces. */
  datatype CommandType = Move | Quit | Shoot

  datatype Command = Command(kind: CommandType, args: seq<int>)

  /**
   * A move carries the target room number, None standing for the `undefined`
   * that a move command without arguments yields.
   */
  datatype PlayerAction = MovePlayer(roomNumber: Option<int>) | QuitGame

  /** Move commands become moves to their first argument, quit commands quit, any other command gives no action. */
  function CreatePlayerAction(command: Command): (a: Option<PlayerAction>)
    ensures a.None? <==> !command.kind.Move? && !command.kind.Quit?
    ensures command.kind.Move? && |command.args| > 0 ==> a == Some(MovePlayer(Some(command.args[0])))
    ensures command.kind.Move? && |command.args| == 0 ==> a == Some(MovePlayer(None))
    ensures command.kind.Quit? ==> a == Some(QuitGame)
  {
    match command.kind
    case Move => Some(MovePlayer(if |command.args| > 0 then Some(command.args[0]) else None))
    case Quit => Some(QuitGame)
    case Shoot => None
  }

  /** The target is a neighbour of the current room (an undefined target never is). */
  ghost predicate Adjacent(cave: Cave, roomNumber: Option<int>)
    reads cave, cave.current
  {
    roomNumber.Some? && HasNumber(cave.current.neighbors, roomNumber.value)
  }

  /** The room `cave.move(n)` puts the player in. */
  function Entered(cave: Cave, n: int): (r: Room)
    reads cave
    ensures r == cave.current || r in cave.rooms
  {
    MoveTarget(cave.rooms, cave.current, n)
  }

  /** The event resolving a move to `roomNumber` yields, read off the cave before the move. */
  ghost function MoveEvent(cave: Cave, roomNumber: Option<int>): Event
    reads cave, cave.current, set r | r in cave.rooms
  {
    if !Adjacent(cave, roomNumber) then PlayerHitWall
    else
      var entered := Entered(cave, roomNumber.value);
      if entered.pit then PlayerFellInPit
      else if entered.bats then MovedByBats
      else PlayerEnteredRoom
  }

  /** The room the player stands in once a move to `roomNumber` is resolved, with `draw` the bats' random room number. */
  ghost function Landing(cave: Cave, roomNumber: Option<int>, draw: int): Room
    reads cave, cave.current, set r | r in cave.rooms
  {
    if !Adjacent(cave, roomNumber) then cave.current
    else
      var entered := Entered(cave, roomNumber.value);
      if !entered.pit && entered.bats then MoveTarget(cave.rooms, entered, draw)
      else entered
  }

  /** A target that is not adjacent gives the hit-wall event and leaves the player where they were. */
  lemma NotAdjacentHitsWall(cave: Cave, roomNumber: Option<int>, draw: int)
    ensures MoveEvent(cave, roomNumber) == PlayerHitWall <==> !Adjacent(cave, roomNumber)
    ensures !Adjacent(cave, roomNumber) ==> Landing(cave, roomNumber, draw) == cave.current
  {
  }

  /** A pit in the entered room ends the move in the pit, whether or not the room also has bats. */
  lemma PitBeforeBats(cave: Cave, n: int, draw: int)
    requires Adjacent(cave, Some(n)) && Entered(cave, n).pit
    ensures MoveEvent(cave, Some(n)) == PlayerFellInPit
    ensures Landing(cave, Some(n), draw) == Entered(cave, n)
  {
  }

  /** Bats without a pit relocate the player once, to the room numbered `draw`, and nothing is re-evaluated. */
  lemma BatsRelocateOnce(cave: Cave, n: int, draw: int)
    requires Adjacent(cave, Some(n)) && !Entered(cave, n).pit && Entered(cave, n).bats
    ensures MoveEvent(cave, Some(n)) == MovedByBats
    ensures Landing(cave, Some(n), draw) == MoveTarget(cave.rooms, Entered(cave, n), draw)
  {
  }

  /** A room without pit and bats is simply entered. */
  lemma QuietRoomEntered(cave: Cave, n: int, draw: int)
    requires Adjacent(cave, Some(n)) && !Entered(cave, n).pit && !Entered(cave, n).bats
    ensures MoveEvent(cave, Some(n)) == PlayerEnteredRoom
    ensures Landing(cave, Some(n), draw) == Entered(cave, n)
  {
  }

  /** Unless bats intervene, a move to an adjacent room that exists in the cave lands in a room with the target number. */
  lemma MoveReachesTarget(cave: Cave, n: int, draw: int)
    requires cave.Valid()
    requires Adjacent(cave, Some(n)) && HasNumber(cave.rooms, n)
    requires MoveEvent(cave, Some(n)) != MovedByBats
    ensures Landing(cave, Some(n), draw) in cave.rooms
    ensures Landing(cave, Some(n), draw).number == n
  {
  }

  method HandleHittingWall(cave: Cave) returns (e: Event)
    ensures e == PlayerHitWall
  {
    e := PlayerHitWall;
  }

  method HandlePit(cave: Cave) returns (e: Event)
    ensures e == PlayerFellInPit
  {
    e := PlayerFellInPit;
  }

  /** Bats carry the player to the room numbered `draw`. */
  method HandleBats(cave: Cave, draw: int) returns (e: Event)
    requires cave.Valid()
    modifies cave
    ensures cave.Valid()
    ensures cave.current == MoveTarget(cave.rooms, old(cave.current), draw)
    ensures e == MovedByBats
  {
    cave.MovePlayerToRandomRoom(draw);
    e := MovedByBats;
  }

  /** Evaluates the hazards of the current room: a pit first, then bats, else the room is simply entered. */
  method HandleHazards(cave: Cave, draw: int) returns (e: Event)
    requires cave.Valid()
    modifies cave
    ensures cave.Valid()
    ensures old(cave.current.pit) ==> e == PlayerFellInPit && cave.current == old(cave.current)
    ensures !old(cave.current.pit) && old(cave.current.bats) ==>
      e == MovedByBats && cave.current == MoveTarget(cave.rooms, old(cave.current), draw)
    ensures !old(cave.current.pit) && !old(cave.current.bats) ==>
      e == PlayerEnteredRoom && cave.current == old(cave.current)
  {
    var currentRoom := cave.CurrentRoom();
    if currentRoom.pit {
      e := HandlePit(cave);
    } else if currentRoom.bats {
      e := HandleBats(cave, draw);
    } else {
      e := PlayerEnteredRoom;
    }
  }

  /** `movePlayer`: moves to an adjacent target and evaluates its hazards, or hits the wall. */
  method ResolveMove(cave: Cave, roomNumber: Option<int>, draw: int) returns (e: Event)
    requires cave.Valid()
    modifies cave
    ensures cave.Valid()
    ensures e == old(MoveEvent(cave, roomNumber))
    ensures cave.current == old(Landing(cave, roomNumber, draw))
  {
    var adjacent := false;
    if roomNumber.Some? {
      adjacent := cave.AdjacentRoom(roomNumber.value);
    }
    if adjacent {
      cave.Move(roomNumber.value);
      e := HandleHazards(cave, draw);
    } else {
      e := HandleHittingWall(cave);
    }
  }

  /** The notifications `MovePlayer.displayGameEvent` shows for the event of a move. */
  function MoveNotifications(e: Event): seq<Notification> {
    match e
    case PlayerHitWall => [ShowPlayerHitWall]
    case PlayerFellInPit => [ShowPlayerFellInPit]
    case MovedByBats => [ShowPlayerMovedByBats]
    case _ => []
  }

  /**
   * For every event a move can yield, the move's own display shows what the
   * event display shows when bats have not moved the player before: one
   * notification for hitting the wall, falling in the pit or bats, none for
   * entering the room.
   */
  lemma MoveNotificationsMatchEventDisplay(cave: Cave, roomNumber: Option<int>)
    ensures var e := MoveEvent(cave, roomNumber);
      && MoveNotifications(e) == GameEventDisplays.Step(false, e).1
      && |MoveNotifications(e)| == (if e.PlayerEnteredRoom? then 0 else 1)
  {
  }

  method DisplayMoveEvent(e: Event, display: Display)
    modifies display
    ensures display.log == old(display.log) + MoveNotifications(e)
  {
    if e.PlayerHitWall? {
      display.Show(ShowPlayerHitWall);
    } else if e.PlayerFellInPit? {
      display.Show(ShowPlayerFellInPit);
    } else if e.MovedByBats? {
      display.Show(ShowPlayerMovedByBats);
    } else {
      assert display.log == old(display.log) + [];
    }
  }

  /** `isGameOver`, which answers whether the game is still running: only falling in a pit ends it. */
  function StillRunning(e: Event): (running: bool)
    ensures running <==> e != PlayerFellInPit
  {
    !e.PlayerFellInPit?
  }

  /** `MovePlayer.perform`: resolve the move, show its event, and report whether the game goes on. */
  method PerformMove(cave: Cave, display: Display, roomNumber: Option<int>, draw: int) returns (running: bool)
    requires cave.Valid()
    modifies cave, display
    ensures cave.Valid()
    ensures cave.current == old(Landing(cave, roomNumber, draw))
    ensures display.log == old(display.log) + MoveNotifications(old(MoveEvent(cave, roomNumber)))
    ensures running <==> old(MoveEvent(cave, roomNumber)) != PlayerFellInPit
  {
    var e := ResolveMove(cave, roomNumber, draw);
    DisplayMoveEvent(e, display);
    running := StillRunning(e);
  }

  /** `QuitGame.perform`: the game ends, and neither the cave nor the display is touched. */
  method PerformQuit(cave: Cave, display: Display) returns (running: bool)
    ensures !running
  {
    running := false;
  }

  /** `perform` of either kind of action. */
  method Perform(action: PlayerAction, cave: Cave, display: Display, draw: int) returns (running: bool)
    requires cave.Valid()
    modifies cave, display
    ensures cave.Valid()
    ensures action.QuitGame? ==> !running && cave.current == old(cave.current) && display.log == old(display.log)
    ensures action.MovePlayer? ==>
      && cave.current == old(Landing(cave, action.roomNumber, draw))
      && display.log == old(display.log) + MoveNotifications(old(MoveEvent(cave, action.roomNumber)))
      && (running <==> old(MoveEvent(cave, action.roomNumber)) != PlayerFellInPit)
  {
    match action
    case MovePlayer(roomNumber) =>
      running := PerformMove(cave, display, roomNumber, draw);
    case QuitGame =>
      running := PerformQuit(cave, display);
  }
}
