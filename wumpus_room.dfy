/**
 * A room of the Wumpus cave (src/wumpusRoom.ts): a room number fixed at
 * construction, three hazard flags, and a neighbour list that `AddNeighbor`
 * keeps sorted ascending by room number.
 */
module Rooms {

  /** The room numbers of `rs` are in ascending order. */
  ghost predicate Sorted(rs: seq<Room>) {
    forall i, j :: 0 <= i < j < |rs| ==> rs[i].number <= rs[j].number
  }

  /** Some room of `rs` carries room number `n` (rooms are compared by number, not identity). */
  ghost predicate HasNumber(rs: seq<Room>, n: int) {
    exists k :: 0 <= k < |rs| && rs[k].number == n
  }

  /** The position `AddNeighbor` inserts at: the first room numbered at least `n`, or `|rs|` if none is. */
  function FirstAtLeast(rs: seq<Room>, n: int): (k: nat)
    ensures k <= |rs|
    ensures forall j :: 0 <= j < k ==> rs[j].number < n
    ensures k < |rs| ==> n <= rs[k].number
  {
    if rs == [] then 0
    else if n <= rs[0].number then 0
    else 1 + FirstAtLeast(rs[1..], n)
  }

  /** The neighbour list after inserting `r`: just before the first room numbered at least `r.number`, or at the end. */
  function Insert(rs: seq<Room>, r: Room): seq<Room> {
    var k := FirstAtLeast(rs, r.number);
    rs[..k] + [r] + rs[k..]
  }

  /** Inserting adds exactly `r`, at position `FirstAtLeast`, and keeps the existing rooms in their order. */
  lemma InsertShape(rs: seq<Room>, r: Room)
    ensures var s, k := Insert(rs, r), FirstAtLeast(rs, r.number);
      && |s| == |rs| + 1
      && s[k] == r
      && s[..k] + s[k + 1..] == rs
      && multiset(s) == multiset(rs) + multiset{r}
  {
    var s, k := Insert(rs, r), FirstAtLeast(rs, r.number);
    assert s[..k] == rs[..k];
    assert s[k + 1..] == rs[k..];
    assert rs == rs[..k] + rs[k..];
  }

  /** Inserting into a sorted list gives a sorted list. */
  lemma InsertSorted(rs: seq<Room>, r: Room)
    requires Sorted(rs)
    ensures Sorted(Insert(rs, r))
  {
  }

  /** After inserting `r` the list holds a room with `r`'s number, and still holds every number it held before. */
  lemma {:induction false} InsertHasNumber(rs: seq<Room>, r: Room, n: int)
    ensures HasNumber(Insert(rs, r), r.number)
    ensures HasNumber(rs, n) ==> HasNumber(Insert(rs, r), n)
  {
    var s, k := Insert(rs, r), FirstAtLeast(rs, r.number);
    assert s[k] == r;
    if HasNumber(rs, n) {
      var m :| 0 <= m < |rs| && rs[m].number == n;
      if m < k {
        assert s[m] == rs[m];
      } else {
        assert s[m + 1] == rs[m];
      }
    }
  }

  class Room {
    const number: int
    var neighbors: seq<Room>
    var pit: bool
    var bats: bool
    var wumpus: bool

    /** A fresh room has the given number, no neighbours and no hazards. */
    constructor (roomNumber: int)
      ensures number == roomNumber
      ensures neighbors == [] && !pit && !bats && !wumpus
    {
      number := roomNumber;
      neighbors := [];
      pit, bats, wumpus := false, false, false;
    }

    /** The number of neighbours: the length of the neighbour list. */
    function NumNeighbors(): (n: nat)
      reads this
      ensures n == |neighbors|
    {
      |neighbors|
    }

    /** Sorted insertion: scans for the first neighbour numbered at least `neighbor`'s and splices before it, else appends. */
    method AddNeighbor(neighbor: Room)
      modifies this`neighbors
      ensures neighbors == Insert(old(neighbors), neighbor)
      ensures NumNeighbors() == old(NumNeighbors()) + 1
      ensures multiset(neighbors) == multiset(old(neighbors)) + multiset{neighbor}
      ensures Sorted(old(neighbors)) ==> Sorted(neighbors)
      ensures HasNumber(neighbors, neighbor.number)
    {
      var inserted := false;
      var i := 0;
      while !inserted && i < |neighbors|
        invariant 0 <= i <= |neighbors|
        invariant !inserted ==> neighbors == old(neighbors)
        invariant !inserted ==> forall j :: 0 <= j < i ==> neighbors[j].number < neighbor.number
        invariant inserted ==> neighbors == Insert(old(neighbors), neighbor)
      {
        if neighbor.number <= neighbors[i].number {
          assert FirstAtLeast(neighbors, neighbor.number) == i;
          neighbors := neighbors[..i] + [neighbor] + neighbors[i..];
          inserted := true;
        }
        i := i + 1;
      }
      if !inserted {
        assert FirstAtLeast(neighbors, neighbor.number) == |neighbors|;
        neighbors := neighbors + [neighbor];
      }
      InsertShape(old(neighbors), neighbor);
      if Sorted(old(neighbors)) {
        InsertSorted(old(neighbors), neighbor);
      }
      InsertHasNumber(old(neighbors), neighbor, neighbor.number);
    }

    /** True iff some neighbour has `room`'s number; changes nothing. */
    method HasNeighbor(room: Room) returns (b: bool)
      ensures b <==> HasNumber(neighbors, room.number)
    {
      for i := 0 to |neighbors|
        invariant forall j :: 0 <= j < i ==> neighbors[j].number != room.number
      {
        if neighbors[i].number == room.number {
          return true;
        }
      }
      return false;
    }

    method SetPit(hasPit: bool)
      modifies this`pit
      ensures pit == hasPit
    {
      pit := hasPit;
    }

    method SetBats(hasBats: bool)
      modifies this`bats
      ensures bats == hasBats
    {
      bats := hasBats;
    }

    method SetWumpus(hasWumpus: bool)
      modifies this`wumpus
      ensures wumpus == hasWumpus
    {
      wumpus := hasWumpus;
    }

    /** True iff some neighbour has a pit. */
    method PitNearby() returns (b: bool)
      ensures b <==> exists k :: 0 <= k < |neighbors| && neighbors[k].pit
    {
      for i := 0 to |neighbors|
        invariant forall j :: 0 <= j < i ==> !neighbors[j].pit
      {
        if neighbors[i].pit {
          return true;
        }
      }
      return false;
    }

    /** True iff some neighbour has bats. */
    method BatsNearby() returns (b: bool)
      ensures b <==> exists k :: 0 <= k < |neighbors| && neighbors[k].bats
    {
      for i := 0 to |neighbors|
        invariant forall j :: 0 <= j < i ==> !neighbors[j].bats
      {
        if neighbors[i].bats {
          return true;
        }
      }
      return false;
    }

    /** True iff some neighbour holds the Wumpus. */
    method WumpusNearby() returns (b: bool)
      ensures b <==> exists k :: 0 <= k < |neighbors| && neighbors[k].wumpus
    {
      for i := 0 to |neighbors|
        invariant forall j :: 0 <= j < i ==> !neighbors[j].wumpus
      {
        if neighbors[i].wumpus {
          return true;
        }
      }
      return false;
    }
  }
}
