/**
 * The append-only event log and the queries that derive each character's position and
 * turn counts from it (EventLog.kt).
 */
module EngineEventLog {
  import opened EngineTypes

  /** The log object: its event list is the only field, and `Add` the only way to change it. */
  class EventLog {
    var events: seq<Event>

    constructor ()
      ensures events == []
    {
      events := [];
    }

    /** The companion `fromList`: a log holding exactly the given events. */
    constructor FromList(initialEvents: seq<Event>)
      ensures events == initialEvents
    {
      events := initialEvents;
    }

    /** A copy of the events, oldest first; reading the log changes nothing. */
    method Log() returns (r: seq<Event>)
      ensures r == events
    {
      r := events;
    }

    /** Appends one event at the end and returns the new list. */
    method Add(event: Event) returns (r: seq<Event>)
      modifies this
      ensures events == old(events) + [event]
      ensures r == events
    {
      events := events + [event];
      r := events;
    }
  }

  /** Whether `e` is a room event of character `c`. */
  predicate DefinesPosition(e: Event, c: Character)
  {
    IsRoomEvent(e) && e.character == c
  }

  ghost predicate HasPosition(log: seq<Event>, c: Character)
  {
    exists i :: 0 <= i < |log| && DefinesPosition(log[i], c)
  }

  /** `log[i]` is the last room event of `c`. */
  ghost predicate IsLastPositionEvent(log: seq<Event>, c: Character, i: int)
  {
    0 <= i < |log| && DefinesPosition(log[i], c) &&
    forall j :: i < j < |log| ==> !DefinesPosition(log[j], c)
  }

  /**
   * The room and state of the last room event of `c`; fails when there is none.
   * Item events and generic events never count.
   */
  function CurrentRoomAndState(log: seq<Event>, c: Character): (r: Result<(RoomId, RoomState)>)
    ensures r.Failure? <==> !HasPosition(log, c)
    ensures r.Failure? ==> r.error == NoCurrentRoom
    ensures r.Success? ==> exists i :: IsLastPositionEvent(log, c, i) && r.value == (log[i].room, log[i].state)
  {
    if |log| == 0 then Failure(NoCurrentRoom)
    else
      var last := log[|log| - 1];
      if DefinesPosition(last, c) then
        assert IsLastPositionEvent(log, c, |log| - 1);
        Success((last.room, last.state))
      else
        FrontKeepsPositions(log, c);
        CurrentRoomAndState(log[..|log| - 1], c)
  }

  /** When the last event is not a room event of `c`, the rest of the log decides where `c` is. */
  lemma FrontKeepsPositions(log: seq<Event>, c: Character)
    requires |log| > 0 && !DefinesPosition(log[|log| - 1], c)
    ensures HasPosition(log, c) <==> HasPosition(log[..|log| - 1], c)
    ensures forall i :: IsLastPositionEvent(log[..|log| - 1], c, i) ==>
      IsLastPositionEvent(log, c, i) && log[..|log| - 1][i] == log[i]
  {
    var front := log[..|log| - 1];
    if HasPosition(log, c) {
      var i :| 0 <= i < |log| && DefinesPosition(log[i], c);
      assert i < |front| && front[i] == log[i];
    }
    if HasPosition(front, c) {
      var i :| 0 <= i < |front| && DefinesPosition(front[i], c);
      assert front[i] == log[i];
    }
    forall i | IsLastPositionEvent(front, c, i) ensures IsLastPositionEvent(log, c, i) && front[i] == log[i] {
      assert front[i] == log[i];
      forall j | i < j < |log| ensures !DefinesPosition(log[j], c) {
        if j < |front| {
          assert front[j] == log[j];
        }
      }
    }
  }

  function CurrentRoom(log: seq<Event>, c: Character): (r: Result<RoomId>)
    ensures r.Failure? <==> !HasPosition(log, c)
    ensures r.Success? ==> exists i :: IsLastPositionEvent(log, c, i) && r.value == log[i].room
  {
    match CurrentRoomAndState(log, c)
    case Failure(e) => Failure(e)
    case Success(pos) => Success(pos.0)
  }

  function CurrentRoomState(log: seq<Event>, c: Character): (r: Result<RoomState>)
    ensures r.Failure? <==> !HasPosition(log, c)
    ensures r.Success? ==> exists i :: IsLastPositionEvent(log, c, i) && r.value == log[i].state
  {
    match CurrentRoomAndState(log, c)
    case Failure(e) => Failure(e)
    case Success(pos) => Success(pos.1)
  }

  /** Appending a room event of `c` moves `c` to that event's room and state. */
  lemma AppendRoomEventMoves(log: seq<Event>, e: Event)
    requires IsRoomEvent(e)
    ensures CurrentRoomAndState(log + [e], e.character) == Success((e.room, e.state))
  {
  }

  /**
   * Appending events that are not room events of `c` (other characters' events, item events,
   * generic events) never changes where `c` is.
   */
  lemma {:induction false} AppendOthersKeepsPosition(log: seq<Event>, es: seq<Event>, c: Character)
    requires forall i :: 0 <= i < |es| ==> !DefinesPosition(es[i], c)
    ensures CurrentRoomAndState(log + es, c) == CurrentRoomAndState(log, c)
    decreases |es|
  {
    if |es| > 0 {
      var front := es[..|es| - 1];
      assert (log + es)[..|log + es| - 1] == log + front;
      assert (log + es)[|log + es| - 1] == es[|es| - 1];
      AppendOthersKeepsPosition(log, front, c);
    } else {
      assert log + es == log;
    }
  }

  /** The events of character `c`, in log order (`filter { it.character == c }`). */
  function OwnEvents(log: seq<Event>, c: Character): (r: seq<Event>)
    ensures |r| <= |log|
    ensures forall e :: e in r <==> e in log && e.character == c
  {
    if |log| == 0 then []
    else if log[|log| - 1].character == c then OwnEvents(log[..|log| - 1], c) + [log[|log| - 1]]
    else OwnEvents(log[..|log| - 1], c)
  }

  /** The longest suffix of `s` holding no NewRoom event (`takeLastWhile { it !is NewRoomEvent }`). */
  function SinceLastEntry(s: seq<Event>): (r: seq<Event>)
    ensures |r| <= |s| && r == s[|s| - |r|..]
    ensures forall k :: 0 <= k < |r| ==> !r[k].kind.NewRoom?
    ensures |r| == |s| || s[|s| - |r| - 1].kind.NewRoom?
  {
    if |s| == 0 || s[|s| - 1].kind.NewRoom? then []
    else SinceLastEntry(s[..|s| - 1]) + [s[|s| - 1]]
  }

  /** getNumberOfTurnsSinceEnteredCurrentRoom. */
  function TurnsSinceEntered(log: seq<Event>, c: Character): (r: nat)
    ensures r >= 1
    ensures r <= |OwnEvents(log, c)| + 1
  {
    |SinceLastEntry(OwnEvents(log, c))| + 1
  }

  ghost predicate EntersRoom(e: Event, c: Character)
  {
    e.kind.NewRoom? && e.character == c
  }

  /**
   * The turn count is 1 plus the number of `c`'s events after `c`'s last NewRoom event
   * (after the start of the log when there is none).
   */
  lemma {:induction false} TurnsCountEventsSinceEntry(log: seq<Event>, c: Character, k: nat)
    requires k <= |log|
    requires k == 0 || EntersRoom(log[k - 1], c)
    requires forall j :: k <= j < |log| ==> !EntersRoom(log[j], c)
    ensures TurnsSinceEntered(log, c) == |OwnEvents(log[k..], c)| + 1
    decreases |log|
  {
    if |log| == k {
      if k > 0 {
        assert log == log[..k - 1] + [log[k - 1]];
        TurnsAfterAppend(log[..k - 1], log[k - 1], c);
      }
      assert log[k..] == [];
    } else {
      var front := log[..|log| - 1];
      var last := log[|log| - 1];
      assert log == front + [last];
      TurnsCountEventsSinceEntry(front, c, k);
      TurnsAfterAppend(front, last, c);
      assert log[k..] == front[k..] + [last];
      assert log[k..][..|log[k..]| - 1] == front[k..];
    }
  }

  /** How appending one event changes `c`'s count: reset by entering a room, +1 for any other own event. */
  lemma TurnsAfterAppend(log: seq<Event>, e: Event, c: Character)
    ensures TurnsSinceEntered(log + [e], c) ==
      if e.character != c then TurnsSinceEntered(log, c)
      else if e.kind.NewRoom? then 1
      else TurnsSinceEntered(log, c) + 1
  {
    assert (log + [e])[..|log|] == log;
  }

  /** isInSameRoom: both characters must have a position; fails otherwise. */
  function IsInSameRoom(log: seq<Event>, a: Character, b: Character): (r: Result<bool>)
    ensures r.Success? <==> HasPosition(log, a) && HasPosition(log, b)
    ensures r.Success? ==> (r.value <==> CurrentRoom(log, a).value == CurrentRoom(log, b).value)
  {
    match CurrentRoom(log, a)
    case Failure(e) => Failure(e)
    case Success(ra) =>
      match CurrentRoom(log, b)
      case Failure(e) => Failure(e)
      case Success(rb) => Success(ra == rb)
  }

  /** getNumberOfOfTurnsStillInSameRoom: 0 apart, otherwise the smaller of the two turn counts. */
  function TurnsStillInSameRoom(log: seq<Event>, a: Character, b: Character): (r: Result<nat>)
    ensures r.Success? <==> HasPosition(log, a) && HasPosition(log, b)
    ensures r.Success? ==> (r.value == 0 <==> CurrentRoom(log, a).value != CurrentRoom(log, b).value)
    ensures r.Success? && r.value != 0 ==>
      r.value <= TurnsSinceEntered(log, a) && r.value <= TurnsSinceEntered(log, b) &&
      (r.value == TurnsSinceEntered(log, a) || r.value == TurnsSinceEntered(log, b))
  {
    match IsInSameRoom(log, a, b)
    case Failure(e) => Failure(e)
    case Success(same) =>
      if same then
        var ta, tb := TurnsSinceEntered(log, a), TurnsSinceEntered(log, b);
        Success(if ta <= tb then ta else tb)
      else Success(0)
  }

  /** Both co-location queries are symmetric in the two characters. */
  lemma CoLocationSymmetric(log: seq<Event>, a: Character, b: Character)
    ensures IsInSameRoom(log, a, b) == IsInSameRoom(log, b, a)
    ensures TurnsStillInSameRoom(log, a, b) == TurnsStillInSameRoom(log, b, a)
  {
  }
}
