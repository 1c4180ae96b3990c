/**
 * The cave (src/wumpusCave.ts): a fixed list of rooms and the player's
 * current room, which is always one of them.
 */
module Caves {
  import opened Wrappers
  import opened Rooms

  /** The position of the first room of `rs` numbered `n`, or `|rs|` if there is none. */
  function IndexOfNumber(rs: seq<Room>, n: int): (k: nat)
    ensures k <= |rs|
    ensures forall j :: 0 <= j < k ==> rs[j].number != n
    ensures k < |rs| ==> rs[k].number == n
  {
    if rs == [] then 0
    else if rs[0].number == n then 0
    else 1 + IndexOfNumber(rs[1..], n)
  }

  /** The first room of `rs` numbered `n`, or None if no room carries that number. */
  function Lookup(rs: seq<Room>, n: int): (r: Option<Room>)
    ensures r.None? <==> !HasNumber(rs, n)
    ensures r.Some? ==> exists k :: 0 <= k < |rs| && rs[k] == r.value && r.value.number == n
                                      && forall j :: 0 <= j < k ==> rs[j].number != n
  {
    var k := IndexOfNumber(rs, n);
    if k < |rs| then Some(rs[k]) else None
  }

  /** Where a move to room `n` leaves a player standing in `current`: the first room numbered `n`, else `current`. */
  function MoveTarget(rs: seq<Room>, current: Room, n: int): (r: Room)
    ensures r == current || r in rs
    ensures HasNumber(rs, n) ==> r in rs && r.number == n
    ensures !HasNumber(rs, n) ==> r == current
  {
    match Lookup(rs, n)
    case Some(room) => room
    case None => current
  }

  class Cave {
    const rooms: seq<Room>
    var current: Room

    /** The current room is one of the cave's rooms. */
    ghost predicate Valid()
      reads this
    {
      current in rooms
    }

    /** The player starts in the first room. */
    constructor (rooms: seq<Room>)
      requires |rooms| > 0
      ensures Valid()
      ensures this.rooms == rooms && current == rooms[0]
    {
      this.rooms := rooms;
      current := rooms[0];
    }

    function CurrentRoom(): (r: Room)
      reads this
      requires Valid()
      ensures r in rooms
    {
      current
    }

    /** Moves to the first room numbered `n`; silently stays put when no room has that number. */
    method Move(n: int)
      requires Valid()
      modifies this`current
      ensures Valid()
      ensures current == MoveTarget(rooms, old(current), n)
    {
      for i := 0 to |rooms|
        invariant forall j :: 0 <= j < i ==> rooms[j].number != n
        invariant current == old(current)
      {
        if rooms[i].number == n {
          assert IndexOfNumber(rooms, n) == i;
          current := rooms[i];
          break;
        }
      }
    }

    /** A bat relocation: a move to the room numbered `draw`, where `draw` is the random number drawn by the caller. */
    method MovePlayerToRandomRoom(draw: int)
      requires Valid()
      modifies this`current
      ensures Valid()
      ensures current == MoveTarget(rooms, old(current), draw)
      ensures !HasNumber(rooms, draw) ==> current == old(current)
    {
      Move(draw);
    }

    /** True iff a neighbour of the current room is numbered `n`; changes nothing. */
    method AdjacentRoom(n: int) returns (b: bool)
      ensures b <==> HasNumber(current.neighbors, n)
    {
      var neighbors := current.neighbors;
      for i := 0 to |neighbors|
        invariant forall j :: 0 <= j < i ==> neighbors[j].number != n
      {
        if neighbors[i].number == n {
          return true;
        }
      }
      return false;
    }

    /** The first room numbered `n`, or None; changes nothing. */
    method GetRoom(n: int) returns (r: Option<Room>)
      ensures r == Lookup(rooms, n)
    {
      for i := 0 to |rooms|
        invariant forall j :: 0 <= j < i ==> rooms[j].number != n
      {
        if rooms[i].number == n {
          assert IndexOfNumber(rooms, n) == i;
          return Some(rooms[i]);
        }
      }
      return None;
    }
  }
}
