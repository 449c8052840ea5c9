/**
 * The earlier iteration in package se.sbit (se/sbit/Game.kt): commands, inputs, rooms named by
 * a string, and guards on (input, current room) with their combinators.
 */
module SbitTypes {
  datatype Command = GoNorth | GoEast | GoSouth | GoWest

  datatype Input = Input(command: Command)

  /** A room is identified by its name. */
  datatype Room = Room(name: string)

  /** A guard on a connection: a predicate of the input and the room being left. */
  type Guard = (Input, Room) -> bool

  /** One (guard, destination) pair of a room's connection list. */
  datatype Exit = Exit(guard: Guard, to: Room)

  type RoomConnectionsMap = map<Room, seq<Exit>>

  /** `northGuard`, `eastGuard`, `southGuard`, `westGuard`: hold exactly for their command, whatever the room. */
  function DirectionGuard(c: Command): (g: Guard)
    ensures forall i, r :: g(i, r) <==> i.command == c
  {
    (i: Input, r: Room) => i.command == c
  }

  function And(g1: Guard, g2: Guard): (g: Guard)
    ensures forall i, r :: g(i, r) == (g1(i, r) && g2(i, r))
  {
    (i: Input, r: Room) => g1(i, r) && g2(i, r)
  }

  function Or(g1: Guard, g2: Guard): (g: Guard)
    ensures forall i, r :: g(i, r) == (g1(i, r) || g2(i, r))
  {
    (i: Input, r: Room) => g1(i, r) || g2(i, r)
  }

  /** `and` and `or` are commutative and associative on every (input, room). */
  lemma CombinatorsCommuteAndAssociate(g1: Guard, g2: Guard, g3: Guard, i: Input, r: Room)
    ensures And(g1, g2)(i, r) == And(g2, g1)(i, r) && Or(g1, g2)(i, r) == Or(g2, g1)(i, r)
    ensures And(And(g1, g2), g3)(i, r) == And(g1, And(g2, g3))(i, r)
    ensures Or(Or(g1, g2), g3)(i, r) == Or(g1, Or(g2, g3))(i, r)
  {
  }

  ghost predicate NoOpenExit(exits: seq<Exit>, input: Input, current: Room)
  {
    forall k :: 0 <= k < |exits| ==> !exits[k].guard(input, current)
  }

  ghost predicate FirstOpenExit(exits: seq<Exit>, input: Input, current: Room, k: int)
  {
    0 <= k < |exits| && exits[k].guard(input, current) &&
    forall j :: 0 <= j < k ==> !exits[j].guard(input, current)
  }
}
