/**
 * The event display (src/gameEventDisplay.ts): translates each game event
 * into at most one notification, remembering in `movedByBats` whether bats
 * have moved the player since the last idle event.
 */
module GameEventDisplays {
  import opened GameEvents
  import opened Displays

  /** What displaying `e` does when the bat flag is `batsFlag`: the new flag and the notifications shown. */
  function Step(batsFlag: bool, e: Event): (bool, seq<Notification>) {
    match e
    case PlayerHitWall => (batsFlag, [ShowPlayerHitWall])
    case PlayerSurvivedPit => (batsFlag, [ShowPlayerSurvivedPit])
    case PlayerFellInPit => (batsFlag, [ShowPlayerFellInPit])
    case MovedByBats => (true, [if batsFlag then ShowPlayerMovedByBatsAgain else ShowPlayerMovedByBats])
    case PlayerEatenByWumpus => (batsFlag, [ShowPlayerEatenByWumpus])
    case PlayerIdle => (false, [])
    case ArrowWentNowhere => (batsFlag, [ShowArrowWentNowhere])
    case ArrowEnteredRandomRoom(from, to, entered) => (batsFlag, [ShowArrowEnteredRandomRoom(from, to, entered)])
    case PlayerOutOfArrows => (batsFlag, [ShowPlayerOutOfArrows])
    case PlayerShotWumpus => (batsFlag, [ShowPlayerShotWumpus])
    case PlayerShotSelf => (batsFlag, [ShowPlayerShotSelf])
    case PlayerEnteredRoom => (batsFlag, [])
    case GameOver => (batsFlag, [])
  }

  /** Displaying the events `es` in order, starting from flag `batsFlag`: the final flag and all notifications shown. */
  function Run(batsFlag: bool, es: seq<Event>): (bool, seq<Notification>)
    decreases es
  {
    if es == [] then (batsFlag, [])
    else
      var (flag, shown) := Step(batsFlag, es[0]);
      var (last, rest) := Run(flag, es[1..]);
      (last, shown + rest)
  }

  /** The events without a dedicated notification. */
  predicate Silent(e: Event) {
    e.PlayerIdle? || e.PlayerEnteredRoom? || e.GameOver?
  }

  /**
   * The flag after displaying `es` from `batsFlag`: bats moved the player at
   * some point with no idle event after it, or the flag was already set and
   * no idle event came at all.
   */
  ghost predicate BatsSinceIdle(batsFlag: bool, es: seq<Event>) {
    || (exists i :: 0 <= i < |es| && es[i].MovedByBats? && forall j :: i < j < |es| ==> !es[j].PlayerIdle?)
    || (batsFlag && forall j :: 0 <= j < |es| ==> !es[j].PlayerIdle?)
  }

  /** A single event: the bat event sets the flag, the idle event clears it, the rest leave it alone. */
  lemma StepFlag(batsFlag: bool, e: Event)
    ensures Step(batsFlag, e).0 == (if e.MovedByBats? then true else if e.PlayerIdle? then false else batsFlag)
    ensures |Step(batsFlag, e).1| == (if Silent(e) then 0 else 1)
  {
  }

  /** Displaying `a + b` is displaying `a`, then `b` from the flag `a` left behind. */
  lemma {:induction false} RunAppend(batsFlag: bool, a: seq<Event>, b: seq<Event>)
    decreases a
    ensures Run(batsFlag, a + b) == (Run(Run(batsFlag, a).0, b).0, Run(batsFlag, a).1 + Run(Run(batsFlag, a).0, b).1)
  {
    if a == [] {
      assert a + b == b;
      assert Run(batsFlag, a).1 + Run(batsFlag, b).1 == Run(batsFlag, b).1;
    } else {
      var flag := Step(batsFlag, a[0]).0;
      assert (a + b)[0] == a[0];
      assert (a + b)[1..] == a[1..] + b;
      RunAppend(flag, a[1..], b);
      var shown := Step(batsFlag, a[0]).1;
      assert Run(batsFlag, a).1 == shown + Run(flag, a[1..]).1;
      assert shown + (Run(flag, a[1..]).1 + Run(Run(flag, a[1..]).0, b).1)
          == (shown + Run(flag, a[1..]).1) + Run(Run(flag, a[1..]).0, b).1;
    }
  }

  /** The flag after any sequence of events is exactly "moved by bats since the last idle event". */
  lemma {:induction false} RunFlag(batsFlag: bool, es: seq<Event>)
    decreases es
    ensures Run(batsFlag, es).0 == BatsSinceIdle(batsFlag, es)
  {
    if es != [] {
      var flag := Step(batsFlag, es[0]).0;
      RunFlag(flag, es[1..]);
      if BatsSinceIdle(flag, es[1..]) {
        BatsSinceIdleFromRest(batsFlag, es);
      }
      if BatsSinceIdle(batsFlag, es) {
        BatsSinceIdleToRest(batsFlag, es);
      }
    }
  }

  /** Displaying the first event moves a witness of `BatsSinceIdle` on the rest back to the whole sequence. */
  lemma BatsSinceIdleFromRest(batsFlag: bool, es: seq<Event>)
    requires es != [] && BatsSinceIdle(Step(batsFlag, es[0]).0, es[1..])
    ensures BatsSinceIdle(batsFlag, es)
  {
    var e, rest := es[0], es[1..];
    if exists i :: 0 <= i < |rest| && rest[i].MovedByBats? && forall j :: i < j < |rest| ==> !rest[j].PlayerIdle? {
      var i :| 0 <= i < |rest| && rest[i].MovedByBats? && forall j :: i < j < |rest| ==> !rest[j].PlayerIdle?;
      assert es[i + 1].MovedByBats? && forall j :: i + 1 < j < |es| ==> !es[j].PlayerIdle?;
    } else if e.MovedByBats? {
      assert forall j :: 0 < j < |es| ==> !es[j].PlayerIdle?;
    } else {
      assert forall j :: 0 <= j < |es| ==> !es[j].PlayerIdle?;
    }
  }

  /** A witness of `BatsSinceIdle` on the whole sequence gives one on the rest, from the flag the first event leaves. */
  lemma BatsSinceIdleToRest(batsFlag: bool, es: seq<Event>)
    requires es != [] && BatsSinceIdle(batsFlag, es)
    ensures BatsSinceIdle(Step(batsFlag, es[0]).0, es[1..])
  {
    var e, rest := es[0], es[1..];
    if exists i :: 0 <= i < |es| && es[i].MovedByBats? && forall j :: i < j < |es| ==> !es[j].PlayerIdle? {
      var i :| 0 <= i < |es| && es[i].MovedByBats? && forall j :: i < j < |es| ==> !es[j].PlayerIdle?;
      if i == 0 {
        assert forall j :: 0 <= j < |rest| ==> !rest[j].PlayerIdle?;
      } else {
        assert rest[i - 1].MovedByBats? && forall j :: i - 1 < j < |rest| ==> !rest[j].PlayerIdle?;
      }
    } else {
      assert !e.PlayerIdle?;
      assert forall j :: 0 <= j < |rest| ==> !rest[j].PlayerIdle?;
    }
  }

  /** Every bat event yields exactly one of the two bat notifications, and nothing else yields either. */
  lemma {:induction false} RunBatNotifications(batsFlag: bool, es: seq<Event>)
    decreases es
    ensures var shown := multiset(Run(batsFlag, es).1);
      shown[ShowPlayerMovedByBats] + shown[ShowPlayerMovedByBatsAgain] == multiset(es)[MovedByBats]
  {
    if es != [] {
      var e, rest := es[0], es[1..];
      var (flag, shown) := Step(batsFlag, e);
      assert es == [e] + rest;
      assert multiset(es)[MovedByBats] == multiset([e])[MovedByBats] + multiset(rest)[MovedByBats];
      RunBatNotifications(flag, rest);
      var out := Run(flag, rest).1;
      assert Run(batsFlag, es).1 == shown + out;
      assert multiset(shown + out) == multiset(shown) + multiset(out);
      StepBatNotifications(batsFlag, e);
    }
  }

  lemma StepBatNotifications(batsFlag: bool, e: Event)
    ensures var shown := multiset(Step(batsFlag, e).1);
      shown[ShowPlayerMovedByBats] + shown[ShowPlayerMovedByBatsAgain] == multiset([e])[MovedByBats]
  {
  }

  /** Every event shows exactly one notification except the idle, entered-room and game-over events, which show none. */
  lemma {:induction false} RunLength(batsFlag: bool, es: seq<Event>)
    decreases es
    ensures |Run(batsFlag, es).1| == |es| - multiset(es)[PlayerIdle] - multiset(es)[PlayerEnteredRoom] - multiset(es)[GameOver]
  {
    if es != [] {
      assert es == [es[0]] + es[1..];
      RunLength(Step(batsFlag, es[0]).0, es[1..]);
    }
  }

  /** A first bat event shows "moved by bats" and no "again". */
  lemma BatsOnce()
    ensures Run(false, [MovedByBats]).1 == [ShowPlayerMovedByBats]
  {
  }

  /** Two bat events in a row show "moved by bats", then "moved by bats again". */
  lemma BatsTwice()
    ensures Run(false, [MovedByBats, MovedByBats]).1 == [ShowPlayerMovedByBats, ShowPlayerMovedByBatsAgain]
  {
  }

  /** An idle event between two bat events makes both show "moved by bats". */
  lemma BatsIdleBats()
    ensures Run(false, [MovedByBats, PlayerIdle, MovedByBats]).1 == [ShowPlayerMovedByBats, ShowPlayerMovedByBats]
  {
  }

  class GameEventDisplay {
    const display: Display
    var movedByBats: bool

    constructor (display: Display)
      ensures this.display == display && !movedByBats
    {
      this.display := display;
      movedByBats := false;
    }

    /** Forwards the game state to the backend once; the bat flag is untouched. */
    method DisplayGameState(state: GameState)
      modifies display
      ensures display.log == old(display.log) + [ShowGameState(state)]
    {
      display.Show(ShowGameState(state));
    }

    /** Shows the notification for `e` and updates the bat flag, as `Step` describes. */
    method DisplayGameEvent(e: Event)
      modifies this`movedByBats, display
      ensures movedByBats == Step(old(movedByBats), e).0
      ensures display.log == old(display.log) + Step(old(movedByBats), e).1
    {
      if e.PlayerHitWall? {
        display.Show(ShowPlayerHitWall);
      } else if e.PlayerSurvivedPit? {
        display.Show(ShowPlayerSurvivedPit);
      } else if e.PlayerFellInPit? {
        display.Show(ShowPlayerFellInPit);
      } else if e.MovedByBats? {
        if movedByBats {
          display.Show(ShowPlayerMovedByBatsAgain);
        } else {
          movedByBats := true;
          display.Show(ShowPlayerMovedByBats);
        }
      } else if e.PlayerEatenByWumpus? {
        display.Show(ShowPlayerEatenByWumpus);
      } else if e.PlayerIdle? {
        movedByBats := false;
        assert display.log == old(display.log) + [];
      } else if e.ArrowWentNowhere? {
        display.Show(ShowArrowWentNowhere);
      } else if e.ArrowEnteredRandomRoom? {
        display.Show(ShowArrowEnteredRandomRoom(e.fromRoom, e.toRoom, e.enteredRoom));
      } else if e.PlayerOutOfArrows? {
        display.Show(ShowPlayerOutOfArrows);
      } else if e.PlayerShotWumpus? {
        display.Show(ShowPlayerShotWumpus);
      } else if e.PlayerShotSelf? {
        display.Show(ShowPlayerShotSelf);
      }
    }
  }
}
