/**
 * The older "go" handler of the engine (engine/Utils.kt): its connection guards also see the
 * room being left, and its direction guards ignore that room.
 */
module EngineUtils {
  import opened EngineTypes
  import opened EngineEventLog
  import opened EngineRoom
  import Lists

  /** A connection guard of this variant: a predicate of the input and the current room. */
  type Guard = (Input, RoomId) -> bool

  datatype GuardedExit = GuardedExit(guard: Guard, to: RoomId)

  type GuardedConnectionsMap = map<RoomId, seq<GuardedExit>>

  /** `north`, `east`, `south`, `west`: hold exactly for their GoCommand, whatever the room. */
  function DirectionGuard(d: Direction): (g: Guard)
    ensures forall i, r :: g(i, r) <==> i.command == Go(d)
  {
    (i: Input, r: RoomId) => i.command == Go(d)
  }

  ghost predicate NoOpenGuardedExit(exits: seq<GuardedExit>, input: Input, cur: RoomId)
  {
    forall k :: 0 <= k < |exits| ==> !exits[k].guard(input, cur)
  }

  ghost predicate FirstOpenGuardedExit(exits: seq<GuardedExit>, input: Input, cur: RoomId, k: int)
  {
    0 <= k < |exits| && exits[k].guard(input, cur) && forall j :: 0 <= j < k ==> !exits[j].guard(input, cur)
  }

  /** The index of the first exit whose guard holds for (input, current room), or -1. */
  function OpenGuardedExitIndex(exits: seq<GuardedExit>, input: Input, cur: RoomId): (k: int)
    ensures k == -1 <==> NoOpenGuardedExit(exits, input, cur)
    ensures k != -1 ==> FirstOpenGuardedExit(exits, input, cur, k)
    ensures forall j :: FirstOpenGuardedExit(exits, input, cur, j) ==> j == k
  {
    Lists.IndexOfFirst(exits, (x: GuardedExit) => x.guard(input, cur))
  }

  /**
   * actionForGo, older variant: the Player stays (SameRoom at the current room and state) when
   * the room has no connections, no guard holds for (input, current room), or the destination
   * has no matching state; otherwise a NewRoom event into the first matching state of the
   * destination of the first open exit.
   */
  function ActionForGo(conns: GuardedConnectionsMap, rooms: RoomTable, sameRoomText: string, input: Input, log: seq<Event>)
    : (r: Result<Event>)
    ensures CurrentRoomAndState(log, Player).Failure? ==> r == Failure(NoCurrentRoom)
    ensures CurrentRoomAndState(log, Player).Success? ==>
      var (cur, st) := CurrentRoomAndState(log, Player).value;
      var stay := Event(SameRoom, sameRoomText, cur, st, Player);
      && r.Success?
      && (cur !in conns || NoOpenGuardedExit(conns[cur], input, cur) ==> r.value == stay)
      && (cur in conns ==> forall k :: FirstOpenGuardedExit(conns[cur], input, cur, k) ==>
            var dest := conns[cur][k].to;
            && (NoMatchingState(rooms(dest), input, cur) ==> r.value == stay)
            && (forall m :: FirstMatchingState(rooms(dest), input, cur, m) ==>
                  r.value == Event(NewRoom, "", dest, rooms(dest)[m].state, Player)))
  {
    match CurrentRoomAndState(log, Player)
    case Failure(e) => Failure(e)
    case Success(pos) =>
      var (cur, st) := pos;
      var stay := Event(SameRoom, sameRoomText, cur, st, Player);
      if cur !in conns then Success(stay)
      else
        var exits := conns[cur];
        var roomIndex := OpenGuardedExitIndex(exits, input, cur);
        if roomIndex == -1 then Success(stay)
        else
          var dest := exits[roomIndex].to;
          var stateIndex := FirstStateIndex(rooms(dest), input, cur);
          if stateIndex == -1 then Success(stay)
          else Success(Event(NewRoom, "", dest, rooms(dest)[stateIndex].state, Player))
  }

  /**
   * When each guard of this variant agrees, at the room it guards, with the input-only guard of
   * Room.kt, both handlers return the same event.
   */
  lemma {:induction false} AgreesWithRoomActionForGo(conns: GuardedConnectionsMap, roomConns: ConnectionsMap,
                                                     rooms: RoomTable, text: string, input: Input, log: seq<Event>)
    requires conns.Keys == roomConns.Keys
    requires forall r :: r in conns ==>
      |conns[r]| == |roomConns[r]| &&
      forall k :: 0 <= k < |conns[r]| ==>
        conns[r][k].to == roomConns[r][k].to && conns[r][k].guard(input, r) == roomConns[r][k].guard(input)
    ensures ActionForGo(conns, rooms, text, input, log) == EngineRoom.ActionForGo(roomConns, rooms, text, input, log)
  {
    var pos := CurrentRoomAndState(log, Player);
    if pos.Success? && pos.value.0 in conns {
      var cur := pos.value.0;
      Lists.IndexOfFirstCongruent(conns[cur], (x: GuardedExit) => x.guard(input, cur),
                                  roomConns[cur], (x: Exit) => x.guard(input));
    }
  }
}
