/**
 * Rooms, guards and traversal (Room.kt): the Player's "go" handler, which follows the first
 * open exit into the first matching state of the destination, and the NPC walker.
 */
module EngineRoom {
  import opened EngineTypes
  import opened EngineEventLog
  import Lists

  /** A guard on a connection: a predicate of the input. */
  type RoomGuard = Input -> bool

  /** A guard on a room state: a predicate of the input and the room being left. */
  type StateGuard = (Input, RoomId) -> bool

  /** One (guard, destination) pair of a room's connection list. */
  datatype Exit = Exit(guard: RoomGuard, to: RoomId)

  /** One (guard, state) pair of a room's state list. */
  datatype StateEntry = StateEntry(guard: StateGuard, state: RoomState)

  /** Each room's ordered state list (the `states` of a Kotlin Room). */
  type RoomTable = RoomId -> seq<StateEntry>

  type ConnectionsMap = map<RoomId, seq<Exit>>

  /** `north`, `east`, `south`, `west`: hold exactly for their own GoCommand. */
  function DirectionGuard(d: Direction): (g: RoomGuard)
    ensures forall i :: g(i) <==> i.command == Go(d)
  {
    (i: Input) => i.command == Go(d)
  }

  /** No input opens two different directions. */
  lemma DirectionGuardsExclusive(d1: Direction, d2: Direction, i: Input)
    requires d1 != d2
    ensures !(DirectionGuard(d1)(i) && DirectionGuard(d2)(i))
  {
  }

  function And(g1: RoomGuard, g2: RoomGuard): (g: RoomGuard)
    ensures forall i :: g(i) == (g1(i) && g2(i))
  {
    (i: Input) => g1(i) && g2(i)
  }

  function Or(g1: RoomGuard, g2: RoomGuard): (g: RoomGuard)
    ensures forall i :: g(i) == (g1(i) || g2(i))
  {
    (i: Input) => g1(i) || g2(i)
  }

  function StateAnd(g1: StateGuard, g2: StateGuard): (g: StateGuard)
    ensures forall i, r :: g(i, r) == (g1(i, r) && g2(i, r))
  {
    (i: Input, r: RoomId) => g1(i, r) && g2(i, r)
  }

  function StateOr(g1: StateGuard, g2: StateGuard): (g: StateGuard)
    ensures forall i, r :: g(i, r) == (g1(i, r) || g2(i, r))
  {
    (i: Input, r: RoomId) => g1(i, r) || g2(i, r)
  }

  /** Both combinators are commutative and associative on every input. */
  lemma CombinatorsCommuteAndAssociate(g1: RoomGuard, g2: RoomGuard, g3: RoomGuard, i: Input)
    ensures And(g1, g2)(i) == And(g2, g1)(i) && Or(g1, g2)(i) == Or(g2, g1)(i)
    ensures And(And(g1, g2), g3)(i) == And(g1, And(g2, g3))(i)
    ensures Or(Or(g1, g2), g3)(i) == Or(g1, Or(g2, g3))(i)
  {
  }

  /** The (input, room) combinators are commutative and associative on every input and room. */
  lemma StateCombinatorsCommuteAndAssociate(g1: StateGuard, g2: StateGuard, g3: StateGuard, i: Input, r: RoomId)
    ensures StateAnd(g1, g2)(i, r) == StateAnd(g2, g1)(i, r) && StateOr(g1, g2)(i, r) == StateOr(g2, g1)(i, r)
    ensures StateAnd(StateAnd(g1, g2), g3)(i, r) == StateAnd(g1, StateAnd(g2, g3))(i, r)
    ensures StateOr(StateOr(g1, g2), g3)(i, r) == StateOr(g1, StateOr(g2, g3))(i, r)
  {
  }

  ghost predicate NoOpenExit(exits: seq<Exit>, input: Input)
  {
    forall k :: 0 <= k < |exits| ==> !exits[k].guard(input)
  }

  ghost predicate FirstOpenExit(exits: seq<Exit>, input: Input, k: int)
  {
    0 <= k < |exits| && exits[k].guard(input) && forall j :: 0 <= j < k ==> !exits[j].guard(input)
  }

  ghost predicate NoMatchingState(states: seq<StateEntry>, input: Input, from: RoomId)
  {
    forall m :: 0 <= m < |states| ==> !states[m].guard(input, from)
  }

  ghost predicate FirstMatchingState(states: seq<StateEntry>, input: Input, from: RoomId, m: int)
  {
    0 <= m < |states| && states[m].guard(input, from) && forall j :: 0 <= j < m ==> !states[j].guard(input, from)
  }

  /** The index of the first state of `states` whose guard holds for (input, from), or -1. */
  function FirstStateIndex(states: seq<StateEntry>, input: Input, from: RoomId): (m: int)
    ensures m == -1 <==> NoMatchingState(states, input, from)
    ensures m != -1 ==> FirstMatchingState(states, input, from, m)
    ensures forall j :: FirstMatchingState(states, input, from, j) ==> j == m
  {
    Lists.IndexOfFirst(states, (s: StateEntry) => s.guard(input, from))
  }

  /** The index of the first exit of `exits` whose guard holds for the input, or -1. */
  function OpenExitIndex(exits: seq<Exit>, input: Input): (k: int)
    ensures k == -1 <==> NoOpenExit(exits, input)
    ensures k != -1 ==> FirstOpenExit(exits, input, k)
    ensures forall j :: FirstOpenExit(exits, input, j) ==> j == k
  {
    Lists.IndexOfFirst(exits, (x: Exit) => x.guard(input))
  }

  /**
   * What "go" does from room `cur` in state `st`: stay (a SameRoom event with the given text at
   * `cur`/`st`) when the room has no connections, no exit is open, or the first open exit's
   * destination has no matching state; otherwise a NewRoom event with empty text into the
   * destination of the first open exit, in its first matching state. The Player always acts.
   */
  ghost predicate GoOutcome(conns: ConnectionsMap, rooms: RoomTable, sameRoomText: string,
                            input: Input, cur: RoomId, st: RoomState, e: Event)
  {
    var stay := Event(SameRoom, sameRoomText, cur, st, Player);
    if cur !in conns || NoOpenExit(conns[cur], input) then e == stay
    else forall k :: FirstOpenExit(conns[cur], input, k) ==>
      var dest := conns[cur][k].to;
      && (NoMatchingState(rooms(dest), input, cur) ==> e == stay)
      && (forall m :: FirstMatchingState(rooms(dest), input, cur, m) ==>
            e == Event(NewRoom, "", dest, rooms(dest)[m].state, Player))
  }

  /** actionForGo: the Player's "go" handler. It returns an event and does not append it. */
  function ActionForGo(conns: ConnectionsMap, rooms: RoomTable, sameRoomText: string, input: Input, log: seq<Event>)
    : (r: Result<Event>)
    ensures CurrentRoomAndState(log, Player).Failure? ==> r == Failure(NoCurrentRoom)
    ensures CurrentRoomAndState(log, Player).Success? ==>
      var (cur, st) := CurrentRoomAndState(log, Player).value;
      r.Success? && GoOutcome(conns, rooms, sameRoomText, input, cur, st, r.value)
  {
    match CurrentRoomAndState(log, Player)
    case Failure(e) => Failure(e)
    case Success(pos) =>
      var (cur, st) := pos;
      var stay := Event(SameRoom, sameRoomText, cur, st, Player);
      if cur !in conns then Success(stay)
      else
        var exits := conns[cur];
        var roomIndex := OpenExitIndex(exits, input);
        if roomIndex == -1 then Success(stay)
        else
          var dest := exits[roomIndex].to;
          var stateIndex := FirstStateIndex(rooms(dest), input, cur);
          if stateIndex == -1 then Success(stay)
          else Success(Event(NewRoom, "", dest, rooms(dest)[stateIndex].state, Player))
  }

  /** Two connection lists agree on `input` when they lead to the same places and their guards agree. */
  ghost predicate ExitsAgreeOn(exits1: seq<Exit>, exits2: seq<Exit>, input: Input)
  {
    |exits1| == |exits2| &&
    forall k :: 0 <= k < |exits1| ==> exits1[k].to == exits2[k].to && exits1[k].guard(input) == exits2[k].guard(input)
  }

  /**
   * Guard evaluation is side-effect free, so connection maps whose guards agree on the input
   * (for instance `west or south` against `south or west`) produce the same event.
   */
  lemma {:induction false} AgreeingExitsGoAlike(conns1: ConnectionsMap, conns2: ConnectionsMap, rooms: RoomTable,
                                                text: string, input: Input, log: seq<Event>)
    requires conns1.Keys == conns2.Keys
    requires forall r :: r in conns1 ==> ExitsAgreeOn(conns1[r], conns2[r], input)
    ensures ActionForGo(conns1, rooms, text, input, log) == ActionForGo(conns2, rooms, text, input, log)
  {
    var pos := CurrentRoomAndState(log, Player);
    if pos.Success? && pos.value.0 in conns1 {
      var cur := pos.value.0;
      Lists.IndexOfFirstCongruent(conns1[cur], (x: Exit) => x.guard(input), conns2[cur], (x: Exit) => x.guard(input));
    }
  }

  /** The shuffle of the NPC walker: any reordering of the candidate rooms. */
  ghost predicate IsShuffle(shuffle: seq<RoomId> -> seq<RoomId>)
  {
    forall s: seq<RoomId> :: multiset(shuffle(s)) == multiset(s)
  }

  /**
   * `candidates[i]` is the first candidate, in order, that has a state whose guard holds for
   * the NPC input when coming from `from`.
   */
  ghost predicate FirstEnterableAt(rooms: RoomTable, candidates: seq<RoomId>, from: RoomId, i: int)
  {
    && 0 <= i < |candidates|
    && !NoMatchingState(rooms(candidates[i]), Input(NPCinput), from)
    && forall j :: 0 <= j < i ==> NoMatchingState(rooms(candidates[j]), Input(NPCinput), from)
  }

  /** The `for` search of goWherePossible: the first candidate that has a matching state for the NPC input. */
  function FirstEnterable(rooms: RoomTable, candidates: seq<RoomId>, from: RoomId): (r: Option<(RoomId, RoomState)>)
    ensures r.None? <==> forall i :: 0 <= i < |candidates| ==> NoMatchingState(rooms(candidates[i]), Input(NPCinput), from)
    ensures r.Some? ==>
      var (room, state) := r.value;
      && room in candidates
      && exists m :: FirstMatchingState(rooms(room), Input(NPCinput), from, m) && state == rooms(room)[m].state
    ensures r.Some? ==> exists i :: FirstEnterableAt(rooms, candidates, from, i) && candidates[i] == r.value.0
    decreases |candidates|
  {
    if |candidates| == 0 then None
    else
      var m := FirstStateIndex(rooms(candidates[0]), Input(NPCinput), from);
      if m != -1 then
        assert FirstEnterableAt(rooms, candidates, from, 0);
        Some((candidates[0], rooms(candidates[0])[m].state))
      else
        var r := FirstEnterable(rooms, candidates[1..], from);
        assert forall i :: 1 <= i < |candidates| ==> candidates[i] == candidates[1..][i - 1];
        assert forall i :: FirstEnterableAt(rooms, candidates[1..], from, i) ==> FirstEnterableAt(rooms, candidates, from, i + 1);
        r
  }

  const NoRoomsText := "No possible rooms to enter"
  const NoStateText := "No possible state to enter"

  /**
   * goWherePossible: the NPC walker. From `c`'s room it tries the candidate rooms in shuffled
   * order and enters the first that has a state whose guard holds for the NPC input.
   */
  function GoWherePossible(conns: map<RoomId, seq<RoomId>>, rooms: RoomTable, log: seq<Event>, c: Character,
                           enterRoomText: string, shuffle: seq<RoomId> -> seq<RoomId>): (r: Result<Event>)
    requires IsShuffle(shuffle)
    ensures CurrentRoomAndState(log, c).Failure? ==> r == Failure(NoCurrentRoom)
    ensures CurrentRoomAndState(log, c).Success? ==>
      var (cur, st) := CurrentRoomAndState(log, c).value;
      && r.Success?
      && r.value.character == c
      && (r.value.kind.NewRoom? || r.value == Event(SameRoom, NoRoomsText, cur, st, c) || r.value == Event(SameRoom, NoStateText, cur, st, c))
      && (r.value == Event(SameRoom, NoRoomsText, cur, st, c) <==> cur !in conns)
      && (r.value == Event(SameRoom, NoStateText, cur, st, c) <==>
            cur in conns && forall room :: room in conns[cur] ==> NoMatchingState(rooms(room), Input(NPCinput), cur))
      && (r.value.kind.NewRoom? ==>
            && cur in conns && r.value.room in conns[cur] && r.value.text == enterRoomText
            && exists m :: FirstMatchingState(rooms(r.value.room), Input(NPCinput), cur, m) && r.value.state == rooms(r.value.room)[m].state)
      && (r.value.kind.NewRoom? ==>
            exists i :: FirstEnterableAt(rooms, shuffle(conns[cur]), cur, i) && shuffle(conns[cur])[i] == r.value.room)
  {
    match CurrentRoomAndState(log, c)
    case Failure(e) => Failure(e)
    case Success(pos) =>
      var (cur, st) := pos;
      if cur !in conns then Success(Event(SameRoom, NoRoomsText, cur, st, c))
      else
        var candidates := shuffle(conns[cur]);
        assert forall room :: room in candidates <==> room in conns[cur] by {
          assert multiset(candidates) == multiset(conns[cur]);
          forall room ensures room in candidates <==> room in multiset(candidates) { }
        }
        match FirstEnterable(rooms, candidates, cur)
        case Some(found) => Success(Event(NewRoom, enterRoomText, found.0, found.1, c))
        case None => Success(Event(SameRoom, NoStateText, cur, st, c))
  }
}
