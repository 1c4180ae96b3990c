# Hunt the Wumpus: rooms, cave, event display and player actions

This project models the sequential core of a TypeScript "Hunt the Wumpus" game:

- the rooms of the cave graph, with their hazard flags and a neighbour list kept sorted by room number;
- the cave, which holds a fixed list of rooms and the room the player is in;
- the event display, which turns game events into display notifications and remembers whether bats have moved the player since the last idle event;
- the player actions: a move resolves in one step, gets shown, and reports whether the game goes on; a quit always ends the game; a factory turns commands into actions;
- the room-entry text of the console display.

Rooms, the cave and the two displays are classes whose methods change their fields in place; each method is proved against spec functions, and lemmas prove the properties of those functions. Display backends are modelled as logs. `Displays.Display.log` lists the notification calls in order. `ConsoleDisplays.ConsoleDisplay.writes` lists the console writes in order.

Modelling choices:

- A room's number is a `const`, since nothing reassigns it. So functions over neighbour lists that only look at numbers need no `reads` clause.
- The cave's room list is a `const seq<Room>`. The source field is `readonly`, and none of the cave's own methods changes the list.
- The random draw behind bat relocation is a parameter `draw`. The cave moves to the room with that number, exactly as `move(draw)` does.
- A move command without arguments gives the action `MovePlayer(undefined)` in the source. The model keeps this case as `MovePlayer(None)`: no neighbour has that number, so the move always hits the wall.
- `getRoom` returns `undefined` for an unknown number; here it returns `None`.
- The getters `getRoomNumber`, `getNeighbors`, `hasPit`, `hasBats` and `hasWumpus` are reads of the public fields `number`, `neighbors`, `pit`, `bats` and `wumpus`. `numNeighbors` is `Room.NumNeighbors()`.

The tests of `src/gameEvent.test.ts` describe a different design from the code in `src/playerAction.ts`. The model follows the code:

- In those tests, events form a cascade. A pit room leads to a survival draw over 0 to 5, where 0 survives (src/gameEvent.test.ts:99-139). Bats lead back to entering the new room (src/gameEvent.test.ts:82-97). `playerAction.ts` resolves a move in one step. A pit ends the move at once with `PlayerFellInPit`. Bats relocate the player once and yield `MovedByBats`, and the new room is not looked at.
- In those tests, falling in a pit leads to a game-over event (src/gameEvent.test.ts:141-149). In the code, `MovePlayer.perform` returns false exactly when the event is `PlayerFellInPit`. The method that decides this is named `isGameOver`, but it returns true while the game is still running. Here it is `StillRunning`.
- `MovePlayer.displayGameEvent` always shows "moved by bats", never "moved by bats again". For every event a move can yield, it agrees, event kind by event kind, with the event display started with the bat flag clear (`MoveNotificationsMatchEventDisplay`).

## Model

| member | source | states |
|---|---|---|
| `Rooms.Room.constructor` | src/wumpusRoom.ts:82-88 | a fresh room has the given number, no neighbours, and no pit, bats or Wumpus |
| `Rooms.Room.NumNeighbors` | src/wumpusRoom.ts:94 | the number of neighbours, the length of the neighbour list |
| `Rooms.Room.AddNeighbor` | src/wumpusRoom.ts:96-113 | the new neighbour list is the old one with the room inserted at `FirstAtLeast`; the count goes up by one; the multiset gains exactly that room; a sorted list stays sorted; afterwards the list holds the room's number |
| `Rooms.FirstAtLeast` | src/wumpusRoom.ts:100-108 | the insertion point: every earlier neighbour has a smaller number, and the neighbour at that point (if any) has a number at least the new one |
| `Rooms.InsertShape` | src/wumpusRoom.ts:100-112 | insertion adds one element; the new room sits at the insertion point; removing it gives back the old list in its old order; the multiset is the old one plus the new room |
| `Rooms.InsertSorted` | src/wumpusRoom.ts:96-113 | inserting into a list sorted ascending by room number gives a sorted list |
| `Rooms.InsertHasNumber` | src/wumpusRoom.ts:96-122 | after insertion the list holds the new room's number and every number it held before |
| `Rooms.Room.HasNeighbor` | src/wumpusRoom.ts:115-122 | true iff some neighbour has the given room's number; changes nothing |
| `Rooms.Room.SetPit` | src/wumpusRoom.ts:124 | sets the pit flag and, by its frame, nothing else |
| `Rooms.Room.SetBats` | src/wumpusRoom.ts:137-140 | sets the bats flag and, by its frame, nothing else |
| `Rooms.Room.SetWumpus` | src/wumpusRoom.ts:157-160 | sets the Wumpus flag and, by its frame, nothing else |
| `Rooms.Room.PitNearby` | src/wumpusRoom.ts:128-135 | true iff some neighbour has a pit |
| `Rooms.Room.BatsNearby` | src/wumpusRoom.ts:147-155 | true iff some neighbour has bats |
| `Rooms.Room.WumpusNearby` | src/wumpusRoom.ts:167-175 | true iff some neighbour holds the Wumpus |
| `Caves.IndexOfNumber` | src/wumpusCave.ts:45-53 | the position of the first room with the number, or the list length: no earlier room has it, and the room found has it |
| `Caves.Lookup` | src/wumpusCave.ts:72-79 | None iff no room has the number; otherwise a room of the list with that number, with no earlier room carrying it |
| `Caves.MoveTarget` | src/wumpusCave.ts:45-53 | a move lands in a room of the list with the requested number when one exists, and otherwise stays in the current room |
| `Caves.Cave.constructor` | src/wumpusCave.ts:38-41 | a cave over a non-empty room list starts in the first room, and the current room is one of the rooms |
| `Caves.Cave.CurrentRoom` | src/wumpusCave.ts:43 | the current room is one of the cave's rooms |
| `Caves.Cave.Move` | src/wumpusCave.ts:45-53 | the current room becomes the first room with the number, or stays the same when there is none; it remains one of the rooms |
| `Caves.Cave.MovePlayerToRandomRoom` | src/wumpusCave.ts:55-59 | the same as a move to the drawn number; the player stays put when no room has that number |
| `Caves.Cave.AdjacentRoom` | src/wumpusCave.ts:61-70 | true iff a neighbour of the current room has the number; changes nothing |
| `Caves.Cave.GetRoom` | src/wumpusCave.ts:72-79 | returns the first room with the number, or None; changes nothing |
| `GameEventDisplays.GameEventDisplay.constructor` | src/gameEventDisplay.ts:42-45 | a new event display starts with the bat flag clear |
| `GameEventDisplays.GameEventDisplay.DisplayGameState` | src/gameEventDisplay.ts:47-49 | forwards the game state to the backend exactly once; the bat flag is untouched |
| `GameEventDisplays.GameEventDisplay.DisplayGameEvent` | src/gameEventDisplay.ts:51-84 | the new bat flag and the notifications appended to the backend are those of `Step` on the old flag |
| `GameEventDisplays.StepFlag` | src/gameEventDisplay.ts:51-84 | a bat event sets the flag; an idle event clears it; every other event leaves it alone; the idle, entered-room and game-over events show nothing, and every other event shows one notification |
| `GameEventDisplays.RunAppend` | src/gameEventDisplay.ts:58-68 | displaying two event sequences one after the other is displaying the second from the flag the first left behind |
| `GameEventDisplays.RunFlag` | src/gameEventDisplay.ts:58-68 | after any event sequence the flag is set iff bats moved the player with no idle event since, or it was already set and no idle event came |
| `GameEventDisplays.RunBatNotifications` | src/gameEventDisplay.ts:58-64 | "moved by bats" and "moved by bats again" together are shown exactly as often as bat events occur |
| `GameEventDisplays.RunLength` | src/gameEventDisplay.ts:51-84 | the number of notifications is the number of events minus the idle, entered-room and game-over events |
| `GameEventDisplays.BatsOnce` | src/gameEventDisplay.test.ts:49-54 | a single bat event shows "moved by bats" and no "again" |
| `GameEventDisplays.BatsTwice` | src/gameEventDisplay.test.ts:56-62 | two bat events show "moved by bats", then "moved by bats again" |
| `GameEventDisplays.BatsIdleBats` | src/gameEventDisplay.test.ts:64-71 | bats, idle, bats shows "moved by bats" twice and no "again" |
| `PlayerActions.CreatePlayerAction` | src/playerAction.ts:205-217 | a move command gives a move to its first argument (undefined when it has none); a quit command gives the quit action; any other command gives no action |
| `PlayerActions.Entered` | src/playerAction.ts:110 | the room a move enters is the current room or one of the cave's rooms |
| `PlayerActions.NotAdjacentHitsWall` | src/playerAction.ts:109-122 | a move hits the wall iff its target is not adjacent, and then the player does not move |
| `PlayerActions.PitBeforeBats` | src/playerAction.ts:128-144 | a pit in the entered room makes the move end in `PlayerFellInPit` in that room, whether or not it also has bats |
| `PlayerActions.BatsRelocateOnce` | src/playerAction.ts:128-149 | bats without a pit give `MovedByBats` and one relocation to the drawn room number, with no further evaluation |
| `PlayerActions.QuietRoomEntered` | src/playerAction.ts:128-138 | a room with neither pit nor bats gives `PlayerEnteredRoom`, and the player stays in that room |
| `PlayerActions.MoveReachesTarget` | src/playerAction.ts:109-111 | without bats, a move to an adjacent number that some room of the cave carries lands in a cave room with that number |
| `PlayerActions.HandleHittingWall` | src/playerAction.ts:119-122 | hitting the wall yields `PlayerHitWall` and changes nothing |
| `PlayerActions.HandlePit` | src/playerAction.ts:141-144 | a pit yields `PlayerFellInPit` and changes nothing |
| `PlayerActions.HandleBats` | src/playerAction.ts:146-149 | bats move the player as a move to the drawn number does, and yield `MovedByBats` |
| `PlayerActions.HandleHazards` | src/playerAction.ts:128-139 | a pit gives `PlayerFellInPit` and no move; otherwise bats give `MovedByBats` and one relocation; otherwise `PlayerEnteredRoom` and no move |
| `PlayerActions.ResolveMove` | src/playerAction.ts:106-117 | the event and the final room are those of `MoveEvent` and `Landing` on the cave before the move; the current room stays one of the rooms |
| `PlayerActions.MoveNotificationsMatchEventDisplay` | src/playerAction.ts:173-181 | for every event a move can yield, the move's display shows, event kind by event kind, what the event display shows with the bat flag clear: one notification for hitting the wall, falling in the pit or bats, and none for entering the room |
| `PlayerActions.DisplayMoveEvent` | src/playerAction.ts:173-181 | appends exactly the notifications `MoveNotifications` gives for the event |
| `PlayerActions.StillRunning` | src/playerAction.ts:183-189 | the game goes on unless the event is `PlayerFellInPit` |
| `PlayerActions.PerformMove` | src/playerAction.ts:167-171 | resolves the move, appends its notifications, and returns false iff the player fell in a pit |
| `PlayerActions.PerformQuit` | src/playerAction.ts:83-89 | quitting always returns false and changes nothing |
| `PlayerActions.Perform` | src/playerAction.ts:70-78 | quit ends the game and touches neither the cave nor the display; a move behaves as `PerformMove` |
| `ConsoleDisplays.NatToString` | src/wumpusConsoleDisplay.ts:42-44 | a number renders as a non-empty string of decimal digits, with no leading zero |
| `ConsoleDisplays.IntToString` | src/wumpusConsoleDisplay.ts:32 | a room number renders as decimal digits, with a leading minus sign for negative numbers |
| `ConsoleDisplays.ParseNatToString` | src/wumpusConsoleDisplay.ts:42-44 | reading the decimal rendering of a natural number gives the number back |
| `ConsoleDisplays.ParseIntToString` | src/wumpusConsoleDisplay.ts:32 | reading the rendering of a room number gives the number back |
| `ConsoleDisplays.ParseJoinNumbers` | src/wumpusConsoleDisplay.ts:41-47 | the ", "-joined list has no trailing separator and splits back into exactly the numbers, in order |
| `ConsoleDisplays.RoomEntryWritesShape` | src/wumpusConsoleDisplay.ts:31-47 | one write without neighbours and two with; the first is "You are in room N of the cave"; the second is the tunnels prefix followed by a list that reads back as the neighbour numbers in list order |
| `ConsoleDisplays.ConsoleDisplay.constructor` | src/wumpusConsoleDisplay.ts:15-17 | a new console display has written nothing |
| `ConsoleDisplays.ConsoleDisplay.ShowRoomEntry` | src/wumpusConsoleDisplay.ts:27-29 | writes exactly what `printRoom` writes |
| `ConsoleDisplays.ConsoleDisplay.PrintRoom` | src/wumpusConsoleDisplay.ts:31-37 | appends the room line, then the tunnels line when the room has neighbours |
| `ConsoleDisplays.ConsoleDisplay.PrintNeighbors` | src/wumpusConsoleDisplay.ts:39-48 | appends nothing for no neighbours; otherwise one line: the tunnels prefix followed by the numbers joined by ", " |

## Left out

- The event-chain classes of `src/gameEvent.ts`, with their `perform` cascade, pit-survival draw and re-entry after bats: that file is not part of this model; only its tests exist here. The one-step resolution in `src/playerAction.ts` is modelled instead.
- The `perform` methods of the event classes at src/playerAction.ts:8-64 return null or the event itself and are never called, so they are not modelled. The class `GameOverEvent` is never created; `GameOver` is only a tag of `Event`. The other four classes are the results of a move and are modelled as `Event` tags.
- `src/playerAction.ts` declares its own event classes (lines 8-64), separate from the ones `GameEventDisplayImpl` imports from `./gameEvent` and tests with `instanceof` (src/gameEventDisplay.ts:2-15). In the source, a move's event object handed to `GameEventDisplayImpl` would match none of its tests and show nothing. The model merges both class sets into the one `Event` datatype, so the two displays are compared by event kind only.
- The cave stores the caller's room array by reference (src/wumpusCave.ts:39). A caller that keeps the array can still change the cave's rooms, because `readonly` only freezes the field. The model's `const seq<Room>` is a copy and loses this sharing. The same goes for the neighbour array that `getNeighbors` hands out (src/wumpusRoom.ts:92): callers can change it in place, which the model does not capture.
- The random source (`getRandomIntBetween`) and its range convention: the draw is a parameter. `MovePlayerEx.randInt` and `setRandIntFunction` are stored but never used, so they are not modelled.
- The game loop (`src/game.ts`, asynchronous), `getUserAction` and the `WumpusDisplay` interface beyond the calls the model logs.
- `showIntroduction` and the other console message templates: they are constant text.
- `GameState` (from `gameState.ts`, which is not part of this model) is only the pair of cave and arrow count that the tests construct.
- Real console and display output: both are logs of calls.
- JavaScript numbers are modelled as unbounded integers. Fractions, `NaN` and the exponent notation `${n}` uses from 1e21 upwards are not modelled.
- `Caves.Cave.constructor`: requires a non-empty room list. With an empty list the source sets the current room to `undefined`, and the cave invariant cannot hold.
