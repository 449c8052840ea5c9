/**
 * Game construction and command dispatch of the engine (engine/Game.kt): construction seeds
 * the log with one pick-up per carried item, one drop per item placed in a room and one
 * NewRoom event per NPC; `PlayerDo` hands an input to the handler mapped to its command.
 */
module EngineGame {
  import opened EngineTypes
  import opened EngineEventLog
  import opened EngineItems
  import opened EngineRoom

  /** Where an item starts: carried by the Player, or lying in a room. */
  datatype Placement = Carried | InRoom(room: RoomId)

  /** The placement map in its iteration order (Kotlin's `mapOf` keeps insertion order). */
  type PlacementList = seq<(ItemId, Placement)>

  /** An NPC with its start room and state. */
  type NpcStart = (Npc, (RoomId, RoomState))

  /** An action handler: it reads the log's events and returns one event, or fails. */
  type Handler = (Input, seq<Event>) -> Result<Event>

  const CarriedFromStartText := "Carried from start"
  const DroppedFromStartText := "Dropped from start"
  /** The state recorded with a seeded drop: the drop happens before any room is resolved. */
  const PlaceholderState := RoomState("No real State as droped from start")

  predicate HasCarried(placements: PlacementList)
  {
    exists i | 0 <= i < |placements| :: placements[i].1.Carried?
  }

  /** The items placed `Carried`. */
  function CarriedPlaced(placements: PlacementList): (r: set<ItemId>)
    ensures forall x :: x in r <==> exists i :: 0 <= i < |placements| && placements[i] == (x, Carried)
  {
    if |placements| == 0 then {}
    else
      var front := placements[..|placements| - 1];
      var (x, p) := placements[|placements| - 1];
      assert forall i :: 0 <= i < |front| ==> front[i] == placements[i];
      CarriedPlaced(front) + if p.Carried? then {x} else {}
  }

  /** The items placed in some room. */
  function RoomPlaced(placements: PlacementList): (r: set<ItemId>)
    ensures forall x :: x in r <==> exists i :: 0 <= i < |placements| && placements[i].0 == x && placements[i].1.InRoom?
  {
    if |placements| == 0 then {}
    else
      var front := placements[..|placements| - 1];
      var (x, p) := placements[|placements| - 1];
      assert forall i :: 0 <= i < |front| ==> front[i] == placements[i];
      RoomPlaced(front) + if p.InRoom? then {x} else {}
  }

  /** The items placed in `room`. */
  function RoomPlacedIn(placements: PlacementList, room: RoomId): (r: set<ItemId>)
    ensures forall x :: x in r <==> exists i :: 0 <= i < |placements| && placements[i] == (x, InRoom(room))
  {
    if |placements| == 0 then {}
    else
      var front := placements[..|placements| - 1];
      var (x, p) := placements[|placements| - 1];
      assert forall i :: 0 <= i < |front| ==> front[i] == placements[i];
      RoomPlacedIn(front, room) + if p == InRoom(room) then {x} else {}
  }

  /** One pick-up event per `Carried` entry, in map order, at the Player's room and state. */
  function PickUpSeeds(placements: PlacementList, room: RoomId, state: RoomState): (r: seq<Event>)
    ensures forall k :: 0 <= k < |r| ==>
      r[k].kind.PickedUp? && r[k].room == room && r[k].state == state && r[k].character == Player
    ensures !HasCarried(placements) ==> r == []
  {
    if |placements| == 0 then []
    else
      var front := placements[..|placements| - 1];
      var (x, p) := placements[|placements| - 1];
      assert forall i :: 0 <= i < |front| ==> front[i] == placements[i];
      PickUpSeeds(front, room, state) +
        if p.Carried? then [Event(PickedUp(x), CarriedFromStartText, room, state, Player)] else []
  }

  /** One drop event per `InRoom(r)` entry, in map order, in room `r` with the placeholder state. */
  function DropSeeds(placements: PlacementList): (r: seq<Event>)
    ensures forall k :: 0 <= k < |r| ==>
      r[k].kind.Dropped? && (r[k].kind.item, InRoom(r[k].room)) in placements &&
      r[k].state == PlaceholderState && r[k].character == Player
  {
    if |placements| == 0 then []
    else
      var front := placements[..|placements| - 1];
      var (x, p) := placements[|placements| - 1];
      FrontEntriesOccur(placements);
      DropSeeds(front) +
        if p.InRoom? then [Event(Dropped(x), DroppedFromStartText, p.room, PlaceholderState, Player)] else []
  }

  lemma FrontEntriesOccur(placements: PlacementList)
    requires |placements| > 0
    ensures forall e :: e in placements[..|placements| - 1] ==> e in placements
  {
  }

  /** The NewRoom event that puts an NPC at its start. */
  function NpcSeed(start: NpcStart): (e: Event)
    ensures forall log :: CurrentRoomAndState(log + [e], NPC(start.0)) == Success(start.1)
    ensures forall log :: CarriedSet(log + [e]) == CarriedSet(log)
  {
    var e := Event(NewRoom, "NPC: " + start.0.description, start.1.0, start.1.1, NPC(start.0));
    assert forall log :: CurrentRoomAndState(log + [e], NPC(start.0)) == Success(start.1) by {
      forall log ensures CurrentRoomAndState(log + [e], NPC(start.0)) == Success(start.1) {
        AppendRoomEventMoves(log, e);
      }
    }
    assert forall log :: CarriedSet(log + [e]) == CarriedSet(log) by {
      forall log ensures CarriedSet(log + [e]) == CarriedSet(log) {
        LedgerIgnoresOtherEvents(log, e);
      }
    }
    e
  }

  /** One NewRoom event per NPC, in list order. */
  function NpcSeeds(npcs: seq<NpcStart>): (r: seq<Event>)
    ensures |r| == |npcs| && forall k :: 0 <= k < |npcs| ==> r[k] == NpcSeed(npcs[k])
  {
    seq(|npcs|, k requires 0 <= k < |npcs| => NpcSeed(npcs[k]))
  }

  /**
   * The pick-ups construction builds first: one per `Carried` entry at the Player's room and
   * state. Building them fails when there is such an entry and the Player has no room yet.
   */
  function SeedPickUps(log: seq<Event>, placements: PlacementList): (r: Result<seq<Event>>)
    ensures r.Failure? <==> HasCarried(placements) && !HasPosition(log, Player)
    ensures r.Failure? ==> r.error == NoCurrentRoom
    ensures r.Success? && !HasPosition(log, Player) ==> r.value == []
  {
    match CurrentRoomAndState(log, Player)
    case Success(pos) => Success(PickUpSeeds(placements, pos.0, pos.1))
    case Failure(e) => if HasCarried(placements) then Failure(e) else Success([])
  }

  /** The events construction appends, in order: pick-ups, drops, NPC entries. */
  function SeedEvents(log: seq<Event>, placements: PlacementList, npcs: seq<NpcStart>): (r: Result<seq<Event>>)
    ensures r.Failure? <==> HasCarried(placements) && !HasPosition(log, Player)
    ensures r.Failure? ==> r.error == NoCurrentRoom
    ensures r.Success? ==> |r.value| >= |npcs| && r.value[|r.value| - |npcs|..] == NpcSeeds(npcs)
  {
    match SeedPickUps(log, placements)
    case Failure(e) => Failure(e)
    case Success(picks) =>
      var r := picks + DropSeeds(placements) + NpcSeeds(npcs);
      assert r == (picks + DropSeeds(placements)) + NpcSeeds(npcs);
      Success(r)
  }

  /** The seeds, whichever way they were built, are pick-ups, then drops, then NPC entries. */
  lemma SeedEventsShape(log: seq<Event>, placements: PlacementList, npcs: seq<NpcStart>)
    returns (room: RoomId, state: RoomState)
    requires SeedEvents(log, placements, npcs).Success?
    ensures SeedEvents(log, placements, npcs).value ==
      PickUpSeeds(placements, room, state) + DropSeeds(placements) + NpcSeeds(npcs)
    ensures HasPosition(log, Player) ==> (room, state) == CurrentRoomAndState(log, Player).value
  {
    match CurrentRoomAndState(log, Player)
    case Success(pos) => room, state := pos.0, pos.1;
    case Failure(_) => room, state := 0, PlaceholderState;
  }

  lemma {:induction false} CarriedAfterPickUpSeeds(log: seq<Event>, placements: PlacementList, room: RoomId, state: RoomState)
    ensures CarriedSet(log + PickUpSeeds(placements, room, state)) == CarriedSet(log) + CarriedPlaced(placements)
    ensures ItemsInSet(room, log + PickUpSeeds(placements, room, state)) == ItemsInSet(room, log) - CarriedPlaced(placements)
    ensures forall r :: r != room ==> ItemsInSet(r, log + PickUpSeeds(placements, room, state)) == ItemsInSet(r, log)
    decreases |placements|
  {
    if |placements| == 0 {
      assert log + [] == log;
    } else {
      var front := placements[..|placements| - 1];
      var (x, p) := placements[|placements| - 1];
      CarriedAfterPickUpSeeds(log, front, room, state);
      var base := log + PickUpSeeds(front, room, state);
      if p.Carried? {
        var e := Event(PickedUp(x), CarriedFromStartText, room, state, Player);
        assert log + PickUpSeeds(placements, room, state) == base + [e];
        assert (base + [e])[..|base|] == base;
      } else {
        assert log + PickUpSeeds(placements, room, state) == base;
      }
    }
  }

  lemma {:induction false} CarriedAfterDropSeeds(log: seq<Event>, placements: PlacementList)
    ensures CarriedSet(log + DropSeeds(placements)) == CarriedSet(log) - RoomPlaced(placements)
    decreases |placements|
  {
    if |placements| == 0 {
      assert log + [] == log;
    } else {
      var front := placements[..|placements| - 1];
      var (x, p) := placements[|placements| - 1];
      CarriedAfterDropSeeds(log, front);
      var base := log + DropSeeds(front);
      if p.InRoom? {
        var e := Event(Dropped(x), DroppedFromStartText, p.room, PlaceholderState, Player);
        assert log + DropSeeds(placements) == base + [e];
        assert (base + [e])[..|base|] == base;
      } else {
        assert log + DropSeeds(placements) == base;
      }
    }
  }

  lemma {:induction false} ItemsInAfterDropSeeds(log: seq<Event>, placements: PlacementList, room: RoomId)
    ensures ItemsInSet(room, log + DropSeeds(placements)) == ItemsInSet(room, log) + RoomPlacedIn(placements, room)
    decreases |placements|
  {
    if |placements| == 0 {
      assert log + [] == log;
    } else {
      var front := placements[..|placements| - 1];
      var (x, p) := placements[|placements| - 1];
      ItemsInAfterDropSeeds(log, front, room);
      var base := log + DropSeeds(front);
      if p.InRoom? {
        var e := Event(Dropped(x), DroppedFromStartText, p.room, PlaceholderState, Player);
        assert log + DropSeeds(placements) == base + [e];
        assert (base + [e])[..|base|] == base;
      } else {
        assert log + DropSeeds(placements) == base;
      }
    }
  }

  lemma {:induction false} LedgerIgnoresNpcSeeds(log: seq<Event>, npcs: seq<NpcStart>)
    ensures CarriedSet(log + NpcSeeds(npcs)) == CarriedSet(log)
    ensures forall r :: ItemsInSet(r, log + NpcSeeds(npcs)) == ItemsInSet(r, log)
    decreases |npcs|
  {
    if |npcs| == 0 {
      assert log + NpcSeeds(npcs) == log;
    } else {
      var front := npcs[..|npcs| - 1];
      LedgerIgnoresNpcSeeds(log, front);
      assert log + NpcSeeds(npcs) == (log + NpcSeeds(front)) + [NpcSeed(npcs[|npcs| - 1])];
      LedgerIgnoresOtherEvents(log + NpcSeeds(front), NpcSeed(npcs[|npcs| - 1]));
    }
  }

  /**
   * After construction the carried items are those carried before, plus the `Carried`
   * placements, minus the items placed in a room (their drop comes after every pick-up).
   */
  lemma SeededCarried(log: seq<Event>, placements: PlacementList, npcs: seq<NpcStart>)
    requires SeedEvents(log, placements, npcs).Success?
    ensures CarriedSet(log + SeedEvents(log, placements, npcs).value) ==
      (CarriedSet(log) + CarriedPlaced(placements)) - RoomPlaced(placements)
  {
    var room, state := SeedEventsShape(log, placements, npcs);
    var picks, drops, entries := PickUpSeeds(placements, room, state), DropSeeds(placements), NpcSeeds(npcs);
    AppendInOrder(log, picks, drops, entries);
    CarriedAfterPickUpSeeds(log, placements, room, state);
    CarriedAfterDropSeeds(log + picks, placements);
    LedgerIgnoresNpcSeeds((log + picks) + drops, npcs);
  }

  /** A Kotlin map has each key once. */
  ghost predicate DistinctKeys(placements: PlacementList)
  {
    forall i, j :: 0 <= i < j < |placements| ==> placements[i].0 != placements[j].0
  }

  /** Starting from a log without pick-ups or drops, the carried items are exactly the `Carried` placements. */
  lemma SeededCarriedExactly(log: seq<Event>, placements: PlacementList, npcs: seq<NpcStart>)
    requires SeedEvents(log, placements, npcs).Success?
    requires DistinctKeys(placements)
    requires CarriedSet(log) == {}
    ensures CarriedSet(log + SeedEvents(log, placements, npcs).value) == CarriedPlaced(placements)
  {
    SeededCarried(log, placements, npcs);
    forall x | x in CarriedPlaced(placements) ensures x !in RoomPlaced(placements) {
      if x in RoomPlaced(placements) {
        assert false;
      }
    }
  }

  /**
   * After construction, room `r` holds what it held before, less the carried placements when
   * `r` is the Player's room (the seeded pick-ups happen there), plus every item placed in `r`.
   */
  lemma SeededItemsIn(log: seq<Event>, placements: PlacementList, npcs: seq<NpcStart>, r: RoomId)
    requires SeedEvents(log, placements, npcs).Success?
    ensures var log' := log + SeedEvents(log, placements, npcs).value;
      && RoomPlacedIn(placements, r) <= ItemsInSet(r, log')
      && (HasPosition(log, Player) && r == CurrentRoomAndState(log, Player).value.0 ==>
            ItemsInSet(r, log') == (ItemsInSet(r, log) - CarriedPlaced(placements)) + RoomPlacedIn(placements, r))
      && (!(HasPosition(log, Player) && r == CurrentRoomAndState(log, Player).value.0) ==>
            ItemsInSet(r, log') == ItemsInSet(r, log) + RoomPlacedIn(placements, r))
  {
    var room, state := SeedEventsShape(log, placements, npcs);
    var picks, drops, entries := PickUpSeeds(placements, room, state), DropSeeds(placements), NpcSeeds(npcs);
    AppendInOrder(log, picks, drops, entries);
    CarriedAfterPickUpSeeds(log, placements, room, state);
    ItemsInAfterDropSeeds(log + picks, placements, r);
    LedgerIgnoresNpcSeeds((log + picks) + drops, npcs);
    if !HasPosition(log, Player) {
      assert picks == [];
      assert log + picks == log;
    }
  }

  /** Appending the NPC entries to any log puts each NPC at its start (the last listing wins). */
  lemma NpcSeedsPlace(base: seq<Event>, npcs: seq<NpcStart>, i: nat)
    requires i < |npcs|
    requires forall j :: i < j < |npcs| ==> npcs[j].0 != npcs[i].0
    ensures CurrentRoomAndState(base + NpcSeeds(npcs), NPC(npcs[i].0)) == Success(npcs[i].1)
  {
    var entries := NpcSeeds(npcs);
    var c := NPC(npcs[i].0);
    var before, later := entries[..i], entries[i + 1..];
    assert entries == before + [NpcSeed(npcs[i])] + later;
    var upTo := (base + before) + [NpcSeed(npcs[i])];
    assert base + entries == upTo + later;
    AppendRoomEventMoves(base + before, NpcSeed(npcs[i]));
    forall j | 0 <= j < |later| ensures !DefinesPosition(later[j], c) {
      assert later[j] == NpcSeed(npcs[i + 1 + j]);
    }
    AppendOthersKeepsPosition(upTo, later, c);
  }

  /** After construction each NPC stands at its start room and state (the last listing wins). */
  lemma SeededNpcPosition(log: seq<Event>, placements: PlacementList, npcs: seq<NpcStart>, i: nat)
    requires SeedEvents(log, placements, npcs).Success?
    requires i < |npcs|
    requires forall j :: i < j < |npcs| ==> npcs[j].0 != npcs[i].0
    ensures CurrentRoomAndState(log + SeedEvents(log, placements, npcs).value, NPC(npcs[i].0)) == Success(npcs[i].1)
  {
    var room, state := SeedEventsShape(log, placements, npcs);
    var base := log + PickUpSeeds(placements, room, state) + DropSeeds(placements);
    assert log + SeedEvents(log, placements, npcs).value == base + NpcSeeds(npcs);
    NpcSeedsPlace(base, npcs, i);
  }

  /** Appending three batches one after the other appends their concatenation. */
  lemma AppendInOrder<T>(a: seq<T>, b: seq<T>, c: seq<T>, d: seq<T>)
    ensures a + b + c + d == a + (b + c + d)
  {
  }

  /** `forEach { eventlog.add(it) }`. */
  method AddAll(eventlog: EventLog, es: seq<Event>)
    modifies eventlog
    ensures eventlog.events == old(eventlog.events) + es
  {
    var i := 0;
    while i < |es|
      invariant 0 <= i <= |es|
      invariant eventlog.events == old(eventlog.events) + es[..i]
    {
      var _ := eventlog.Add(es[i]);
      assert es[..i + 1] == es[..i] + [es[i]];
      i := i + 1;
    }
    assert es[..i] == es;
  }

  /** A game: its connections, its command table, its log and its NPCs. */
  class Game {
    const connections: ConnectionsMap
    const actionMap: map<Command, Handler>
    const eventlog: EventLog
    const nonPlayerCharacters: seq<Npc>

    constructor (connections: ConnectionsMap, actionMap: map<Command, Handler>, eventlog: EventLog, nonPlayerCharacters: seq<Npc>)
      ensures this.connections == connections && this.actionMap == actionMap
      ensures this.eventlog == eventlog && this.nonPlayerCharacters == nonPlayerCharacters
    {
      this.connections := connections;
      this.actionMap := actionMap;
      this.eventlog := eventlog;
      this.nonPlayerCharacters := nonPlayerCharacters;
    }

    /**
     * playerDo: the event of the handler mapped to the input's command, on the given log's
     * events; the event is returned, not appended. An unmapped command fails.
     */
    function PlayerDo(input: Input, eventLog: EventLog): (r: Result<Event>)
      reads eventLog
      ensures input.command !in actionMap ==> r == Failure(UndefinedCommand)
      ensures input.command in actionMap ==> r == actionMap[input.command](input, eventLog.events)
    {
      if input.command in actionMap then actionMap[input.command](input, eventLog.events)
      else Failure(UndefinedCommand)
    }
  }

  function NpcsOf(npcs: seq<NpcStart>): (r: seq<Npc>)
    ensures |r| == |npcs| && forall k :: 0 <= k < |npcs| ==> r[k] == npcs[k].0
  {
    seq(|npcs|, k requires 0 <= k < |npcs| => npcs[k].0)
  }

  /** `placements.filter { Carried }.map { pick-up at the Player's room }`. */
  method MapCarried(log: seq<Event>, placements: PlacementList) returns (r: Result<seq<Event>>)
    ensures r == SeedPickUps(log, placements)
  {
    var pos := CurrentRoomAndState(log, Player);
    var pickUps: seq<Event> := [];
    var i := 0;
    while i < |placements|
      invariant 0 <= i <= |placements|
      invariant pos.Success? ==> pickUps == PickUpSeeds(placements[..i], pos.value.0, pos.value.1)
      invariant pos.Failure? ==> pickUps == [] && !HasCarried(placements[..i])
    {
      assert placements[..i + 1][..i] == placements[..i];
      var (x, p) := placements[i];
      if p.Carried? {
        // each pick-up asks the log for the Player's room and state
        match CurrentRoomAndState(log, Player)
        case Failure(e) =>
          assert HasCarried(placements);
          return Failure(e);
        case Success(at) =>
          pickUps := pickUps + [Event(PickedUp(x), CarriedFromStartText, at.0, at.1, Player)];
      } else {
        assert pos.Failure? ==> !HasCarried(placements[..i + 1]);
      }
      i := i + 1;
    }
    assert placements[..i] == placements;
    r := Success(pickUps);
  }

  /** `placements.filter { InRoom }.map { drop in that room }`. */
  method MapInRoom(placements: PlacementList) returns (drops: seq<Event>)
    ensures drops == DropSeeds(placements)
  {
    drops := [];
    var i := 0;
    while i < |placements|
      invariant 0 <= i <= |placements|
      invariant drops == DropSeeds(placements[..i])
    {
      assert placements[..i + 1][..i] == placements[..i];
      var (x, p) := placements[i];
      if p.InRoom? {
        drops := drops + [Event(Dropped(x), DroppedFromStartText, p.room, PlaceholderState, Player)];
      }
      i := i + 1;
    }
    assert placements[..i] == placements;
  }

  /** `nonPlayerCharacters.forEach { eventlog.add(NewRoom event at its start) }`. */
  method AddNpcs(eventlog: EventLog, npcs: seq<NpcStart>)
    modifies eventlog
    ensures eventlog.events == old(eventlog.events) + NpcSeeds(npcs)
  {
    var i := 0;
    while i < |npcs|
      invariant 0 <= i <= |npcs|
      invariant eventlog.events == old(eventlog.events) + NpcSeeds(npcs[..i])
    {
      var _ := eventlog.Add(NpcSeed(npcs[i]));
      assert NpcSeeds(npcs[..i + 1]) == NpcSeeds(npcs[..i]) + [NpcSeed(npcs[i])];
      i := i + 1;
    }
    assert npcs[..i] == npcs;
  }

  /**
   * The Game constructor with its `init` block: seeds the given log and builds the game, or
   * fails, leaving the log untouched, when a `Carried` placement needs the Player's room and
   * the log has none.
   */
  method NewGame(connections: ConnectionsMap, placements: PlacementList, actionMap: map<Command, Handler>,
                 eventlog: EventLog, npcs: seq<NpcStart>) returns (r: Result<Game>)
    modifies eventlog
    ensures var seeds := SeedEvents(old(eventlog.events), placements, npcs);
      && (seeds.Failure? ==> r == Failure(NoCurrentRoom) && eventlog.events == old(eventlog.events))
      && (seeds.Success? ==>
            && r.Success? && fresh(r.value)
            && r.value.connections == connections && r.value.actionMap == actionMap
            && r.value.eventlog == eventlog && r.value.nonPlayerCharacters == NpcsOf(npcs)
            && eventlog.events == old(eventlog.events) + seeds.value)
  {
    var log := eventlog.events;
    var pickUps := MapCarried(log, placements);
    if pickUps.Failure? {
      assert SeedEvents(log, placements, npcs) == Failure(NoCurrentRoom);
      return Failure(pickUps.error);
    }
    AddAll(eventlog, pickUps.value);
    ghost var afterPickUps := eventlog.events;
    var drops := MapInRoom(placements);
    AddAll(eventlog, drops);
    ghost var afterDrops := eventlog.events;
    AddNpcs(eventlog, npcs);
    ghost var seeds := pickUps.value + drops + NpcSeeds(npcs);
    assert SeedEvents(log, placements, npcs) == Success(seeds);
    AppendInOrder(log, pickUps.value, drops, NpcSeeds(npcs));
    var game := new Game(connections, actionMap, eventlog, NpcsOf(npcs));
    r := Success(game);
  }
}
