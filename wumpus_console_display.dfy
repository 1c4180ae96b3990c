/**
 * The room-entry text of the console display (src/wumpusConsoleDisplay.ts):
 * the "You are in room N" line, then, when the room has neighbours, one
 * line listing their numbers joined by ", ". The console writer is
 * modelled as the list of strings written to it.
 */
module ConsoleDisplays {
  import opened Rooms

  function DigitChar(d: nat): char
    requires d < 10
  {
    ('0' as int + d) as char
  }

  predicate IsDigit(c: char) {
    '0' <= c <= '9'
  }

  /** The decimal rendering of a natural number: digits only, no leading zero except for 0 itself. */
  function NatToString(n: nat): (s: string)
    ensures |s| > 0
    ensures forall i :: 0 <= i < |s| ==> IsDigit(s[i])
    ensures |s| > 1 ==> s[0] != '0'
  {
    if n < 10 then [DigitChar(n)] else NatToString(n / 10) + [DigitChar(n % 10)]
  }

  /** The decimal rendering of a room number, as `${n}` gives it for an integer. */
  function IntToString(n: int): (s: string)
    ensures |s| > 0
    ensures forall i :: 0 <= i < |s| ==> IsDigit(s[i]) || (i == 0 && s[i] == '-')
  {
    if n < 0 then "-" + NatToString(-n) else NatToString(n)
  }

  /** Reads a string of decimal digits back as a number. */
  function ParseDigits(s: string): int {
    if s == [] then 0 else 10 * ParseDigits(s[..|s| - 1]) + (s[|s| - 1] as int - '0' as int)
  }

  /** Reads an optionally negative decimal number. */
  function ParseInt(s: string): int {
    if |s| > 0 && s[0] == '-' then -ParseDigits(s[1..]) else ParseDigits(s)
  }

  lemma {:induction false} ParseNatToString(n: nat)
    ensures ParseDigits(NatToString(n)) == n
  {
    if n >= 10 {
      var s := NatToString(n);
      assert s[..|s| - 1] == NatToString(n / 10);
      ParseNatToString(n / 10);
    }
  }

  /** Reading a rendered number gives the number back. */
  lemma ParseIntToString(n: int)
    ensures ParseInt(IntToString(n)) == n
  {
    if n < 0 {
      assert IntToString(n)[1..] == NatToString(-n);
      ParseNatToString(-n);
    } else {
      ParseNatToString(n);
    }
  }

  /** The numbers `ns` rendered in order and separated by ", ", built up the way `printNeighbors` builds it. */
  function JoinNumbers(ns: seq<int>): string {
    if |ns| == 0 then ""
    else if |ns| == 1 then IntToString(ns[0])
    else JoinNumbers(ns[..|ns| - 1]) + ", " + IntToString(ns[|ns| - 1])
  }

  /** The position of the last `c` in `s`, or -1. */
  function LastIndexOf(s: string, c: char): (k: int)
    ensures -1 <= k < |s|
    ensures k >= 0 ==> s[k] == c
    ensures forall j :: k < j < |s| ==> s[j] != c
  {
    if s == [] then -1
    else if s[|s| - 1] == c then |s| - 1
    else LastIndexOf(s[..|s| - 1], c)
  }

  /** Splits a ", "-separated list of numbers back into the numbers. */
  function ParseNumbers(s: string): seq<int>
    decreases |s|
  {
    var k := LastIndexOf(s, ',');
    if k < 0 then [ParseInt(s)]
    else ParseNumbers(s[..k]) + [ParseInt(if k + 2 <= |s| then s[k + 2..] else [])]
  }

  /** A string without commas is read as one number. */
  lemma ParseNumbersSingle(t: string)
    requires forall i :: 0 <= i < |t| ==> t[i] != ','
    ensures ParseNumbers(t) == [ParseInt(t)]
  {
    assert LastIndexOf(t, ',') < 0;
  }

  /** Appending ", " and a comma-free `t` appends the one number `t` reads as. */
  lemma ParseNumbersSnoc(j: string, t: string)
    requires forall i :: 0 <= i < |t| ==> t[i] != ','
    ensures ParseNumbers(j + ", " + t) == ParseNumbers(j) + [ParseInt(t)]
  {
    var s := j + ", " + t;
    var k := LastIndexOf(s, ',');
    assert s[|j|] == ',';
    assert k == |j| by {
      assert s[|j| + 1] == ' ';
      assert forall i :: |j| + 2 <= i < |s| ==> s[i] == t[i - |j| - 2];
    }
    assert s[..k] == j;
    assert s[k + 2..] == t;
  }

  /** The joined list has no trailing separator and splits back into exactly the numbers it was built from. */
  lemma {:induction false} ParseJoinNumbers(ns: seq<int>)
    requires |ns| > 0
    ensures ParseNumbers(JoinNumbers(ns)) == ns
  {
    if |ns| == 1 {
      ParseNumbersSingle(IntToString(ns[0]));
      ParseIntToString(ns[0]);
    } else {
      var front, last := ns[..|ns| - 1], ns[|ns| - 1];
      ParseNumbersSnoc(JoinNumbers(front), IntToString(last));
      ParseJoinNumbers(front);
      ParseIntToString(last);
      assert ns == front + [last];
    }
  }

  /** The room numbers of `rs`, in list order. */
  function Numbers(rs: seq<Room>): (ns: seq<int>)
    ensures |ns| == |rs| && forall i :: 0 <= i < |rs| ==> ns[i] == rs[i].number
  {
    seq(|rs|, i requires 0 <= i < |rs| => rs[i].number)
  }

  const TunnelsPrefix: string := "There are tunnels leading to rooms "

  function RoomLine(n: int): string {
    "You are in room " + IntToString(n) + " of the cave"
  }

  /** What entering a room writes: its room line, then the tunnels line unless it has no neighbours. */
  function RoomEntryWrites(n: int, neighbors: seq<Room>): seq<string> {
    [RoomLine(n)] + if |neighbors| > 0 then [TunnelsPrefix + JoinNumbers(Numbers(neighbors))] else []
  }

  /**
   * One write without neighbours, two with; the first names the room, the
   * second is the tunnels prefix followed by a list that reads back as
   * exactly the neighbours' numbers, in order.
   */
  lemma RoomEntryWritesShape(n: int, neighbors: seq<Room>)
    ensures var w := RoomEntryWrites(n, neighbors);
      && |w| == (if |neighbors| == 0 then 1 else 2)
      && w[0] == RoomLine(n)
      && (|neighbors| > 0 ==>
            && w[1][..|TunnelsPrefix|] == TunnelsPrefix
            && ParseNumbers(w[1][|TunnelsPrefix|..]) == Numbers(neighbors))
  {
    if |neighbors| > 0 {
      var joined := JoinNumbers(Numbers(neighbors));
      assert (TunnelsPrefix + joined)[|TunnelsPrefix|..] == joined;
      ParseJoinNumbers(Numbers(neighbors));
    }
  }

  class ConsoleDisplay {
    var writes: seq<string>

    constructor ()
      ensures writes == []
    {
      writes := [];
    }

    method ShowRoomEntry(room: Room)
      modifies this
      ensures writes == old(writes) + RoomEntryWrites(room.number, room.neighbors)
    {
      PrintRoom(room);
    }

    method PrintRoom(room: Room)
      modifies this
      ensures writes == old(writes) + RoomEntryWrites(room.number, room.neighbors)
    {
      writes := writes + [RoomLine(room.number)];
      var neighbors := room.neighbors;
      PrintNeighbors(neighbors);
    }

    method PrintNeighbors(neighbors: seq<Room>)
      modifies this
      ensures writes == old(writes) + if |neighbors| > 0 then [TunnelsPrefix + JoinNumbers(Numbers(neighbors))] else []
    {
      if |neighbors| > 0 {
        var output := TunnelsPrefix + IntToString(neighbors[0].number);
        ghost var ns := Numbers(neighbors);
        assert ns[..1] == [ns[0]];
        for i := 1 to |neighbors|
          invariant output == TunnelsPrefix + JoinNumbers(ns[..i])
        {
          assert ns[..i + 1][..i] == ns[..i];
          output := output + ", " + IntToString(neighbors[i].number);
        }
        assert ns[..|neighbors|] == ns;
        writes := writes + [output];
      }
    }
  }
}
