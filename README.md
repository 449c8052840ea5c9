# Adventure: an event-sourced text-adventure engine, modelled in Dafny

The engine of jonsweimarck/Adventure keeps one piece of state: an append-only event log.
Every turn, a handler reads the log and returns one event, and the game loop appends that event.
Everything else is recomputed from the log by scanning it:

- where each character (the Player or an NPC) is, and in which room state;
- how many turns a character has spent in its room;
- whether two characters share a room;
- which items are carried, and which items lie in which room.

Rooms have ordered lists of guarded states. Connections are ordered lists of guarded exits.
Items are either fixed or resolve their state from the log through guards.
The package `se.sbit` holds an earlier iteration with different semantics:

- the item ledger is a mutable map that `pickUp` and `drop` update in place after sanity checks;
- movement goes room to room, with no log.

The model follows the source file by file:

| file | module | form |
|---|---|---|
| engine/EventLog.kt | `EngineEventLog` | class `EventLog` over a `seq<Event>` field; the position and turn queries are functions over the sequence |
| engine/Items.kt | `EngineItems` | the ledger folds as functions, with the `forEach` loops as methods proved against them; handlers as functions |
| engine/Room.kt | `EngineRoom` | guards as Dafny functions (arrows); `actionForGo` and `goWherePossible` as functions |
| engine/Game.kt | `EngineGame` | the seeding as functions; the `init` loops as methods that append through `EventLog.Add`; class `Game` with `PlayerDo` |
| engine/Utils.kt | `EngineUtils` | the older `actionForGo` variant as a function |
| se/sbit/Game.kt | `SbitTypes`, `SbitGame` | the types, guards and combinators; class `Game` with `PlayerGo` |
| se/sbit/Items.kt | `SbitItems` | class `Items` whose `itemMap` field `PickUp`/`Drop` reassign, specified by the functions `PickedUp`/`Dropped` |
| se/sbit/Utils.kt | `SbitUtils` | `goActionFromRoomConnectionsMap` as a function |

`Lists.IndexOfFirst` is Kotlin's `indexOfFirst` (-1 when nothing matches). Every "first matching guard" search goes through it.

Modelling choices:

- **Rooms.** A room is an identifier (`RoomId`). A `RoomTable` gives each room its ordered (guard, state) list.
- **Guards.** A guard is a total Dafny function.
- **Events.** The event classes are one `Event` datatype: a kind, a text, a room, a state and a character.
  - The room-event family (NewRoom, SameRoom, LookAround) is the only kind that defines a position.
  - `RoomEvent` is an open class (engine/Room.kt:7). A game's own subclasses, such as an unlocked door or a light switched on, are modelled as SameRoom events: they set a position and do not reset the turn count.
  - `PickedUpItemEvent`/`PickedUpItemEvent2` are one kind, and so are `DroppedItemEvent`/`DroppedItemEvent2`.
- **Handlers.** A handler receives the log's events, because Dafny functions cannot read the heap.
- **Exceptions.** A Kotlin exception is a `Failure` value of `Result`:
  - `NoCurrentRoom`: `last` finds no room event;
  - `NoMatchingItemState`: a multi-state item has no matching guard;
  - `UndefinedCommand`: the command has no handler.
- **se.sbit exceptions.** The `se.sbit` ledger's exceptions are the `Err` values of `Outcome`.
- **Placement map.** The engine's placement map is a sequence of (item, placement) pairs in the map's iteration order. Kotlin's `mapOf` keeps insertion order, and the seeding appends events in that order.

The item ledger has no consistency check:

- The carried and in-room sets are plain folds that never fail.
- `itemsIn(r)` replays only the pick-ups and drops that happened in room `r`.

## Model

| member | source | states |
|---|---|---|
| Lists.IndexOfFirst | src/main/kotlin/se/sbit/adventure/engine/Room.kt:50 | -1 exactly when no element satisfies the predicate; otherwise the index of an element that does, with none before it |
| Lists.IndexOfFirstCongruent | src/main/kotlin/se/sbit/adventure/engine/Room.kt:50 | two sequences whose predicates agree position by position give the same first index |
| EngineEventLog.EventLog.constructor | src/main/kotlin/se/sbit/adventure/engine/EventLog.kt:7-8 | a new log is empty |
| EngineEventLog.EventLog.FromList | src/main/kotlin/se/sbit/adventure/engine/EventLog.kt:42-48 | `fromList(l)` holds exactly `l` |
| EngineEventLog.EventLog.Log | src/main/kotlin/se/sbit/adventure/engine/EventLog.kt:10 | returns the events and changes nothing |
| EngineEventLog.EventLog.Add | src/main/kotlin/se/sbit/adventure/engine/EventLog.kt:12-15 | the new list is the old list with the event appended at the end; that list is returned |
| EngineEventLog.CurrentRoomAndState | src/main/kotlin/se/sbit/adventure/engine/EventLog.kt:19-22 | fails with NoCurrentRoom exactly when the character has no room event; otherwise the room and state of its last room event |
| EngineEventLog.CurrentRoom | src/main/kotlin/se/sbit/adventure/engine/EventLog.kt:23 | the room of the last room event of the character; fails exactly when there is none |
| EngineEventLog.CurrentRoomState | src/main/kotlin/se/sbit/adventure/engine/EventLog.kt:24 | the state of the last room event of the character; fails exactly when there is none |
| EngineEventLog.AppendRoomEventMoves | src/main/kotlin/se/sbit/adventure/engine/EventLog.kt:19-22 | appending a room event moves its character to that event's room and state |
| EngineEventLog.AppendOthersKeepsPosition | src/main/kotlin/se/sbit/adventure/engine/EventLog.kt:19-22 | appending events that are not room events of `c` (other characters', item and generic events) leaves `c`'s room and state unchanged |
| EngineEventLog.OwnEvents | src/main/kotlin/se/sbit/adventure/engine/EventLog.kt:27 | the `filter`: exactly the log's events of the character, and no more of them than the log holds |
| EngineEventLog.SinceLastEntry | src/main/kotlin/se/sbit/adventure/engine/EventLog.kt:27 | the `takeLastWhile`: a suffix holding no NewRoom event that is the whole sequence or is preceded by a NewRoom event |
| EngineEventLog.TurnsSinceEntered | src/main/kotlin/se/sbit/adventure/engine/EventLog.kt:26-27 | the turn count is at least 1 and at most 1 plus the number of the character's events |
| EngineEventLog.TurnsCountEventsSinceEntry | src/main/kotlin/se/sbit/adventure/engine/EventLog.kt:26-27 | the turn count is 1 plus the number of the character's events after its last NewRoom event (after the log's start if it has none) |
| EngineEventLog.TurnsAfterAppend | src/main/kotlin/se/sbit/adventure/engine/EventLog.kt:26-27 | appending the character's NewRoom event resets its count to 1; any other own event adds 1; other characters' events leave it unchanged |
| EngineEventLog.IsInSameRoom | src/main/kotlin/se/sbit/adventure/engine/EventLog.kt:38-39 | succeeds exactly when both characters have a position, and is true exactly when their current rooms are equal |
| EngineEventLog.TurnsStillInSameRoom | src/main/kotlin/se/sbit/adventure/engine/EventLog.kt:30-34 | 0 exactly when the two are in different rooms; otherwise the smaller of the two turn counts |
| EngineEventLog.CoLocationSymmetric | src/main/kotlin/se/sbit/adventure/engine/EventLog.kt:30-39 | both co-location queries give the same answer with the characters swapped |
| EngineItems.ItemState | src/main/kotlin/se/sbit/adventure/engine/Items.kt:15-29 | a single-state item always has its fixed state; a multi-state item has the state of the first entry whose guard holds on the log, and fails with NoMatchingItemState exactly when none holds |
| EngineItems.Description | src/main/kotlin/se/sbit/adventure/engine/Items.kt:17-23 | the description of the item's current state; fails exactly when the state does |
| EngineItems.CarriedSet | src/main/kotlin/se/sbit/adventure/engine/Items.kt:106-117 | the carried-items replay: every carried item has a pick-up event in the log |
| EngineItems.ItemsInSet | src/main/kotlin/se/sbit/adventure/engine/Items.kt:90-102 | the room replay: every item in room `r` has a drop event in `r` in the log |
| EngineItems.CarriedIffLastTouchIsPickUp | src/main/kotlin/se/sbit/adventure/engine/Items.kt:106-117 | an item is carried exactly when its last pick-up or drop event is a pick-up |
| EngineItems.ItemsInIffLastTouchIsDrop | src/main/kotlin/se/sbit/adventure/engine/Items.kt:90-102 | an item lies in room `r` exactly when the last pick-up or drop of it that happened in `r` is a drop |
| EngineItems.CarriedItems | src/main/kotlin/se/sbit/adventure/engine/Items.kt:106-117 | the loop over the log computes the carried-items fold |
| EngineItems.ItemsIn | src/main/kotlin/se/sbit/adventure/engine/Items.kt:90-102 | the loop over the log computes the items-in-room fold |
| EngineItems.LedgerIgnoresOtherEvents | src/main/kotlin/se/sbit/adventure/engine/Items.kt:90-117 | appending an event that is neither a pick-up nor a drop changes neither the carried items nor any room's items |
| EngineItems.ActionForPickUpItem | src/main/kotlin/se/sbit/adventure/engine/Items.kt:47-57 | fails without a Player position; a NoSuchItemHere event at the Player's room and state exactly when the item is not in that room; otherwise a PickedUp event of that item for the Player at that room and state, with text `"<text> <description>."` |
| EngineItems.ActionForDropItem | src/main/kotlin/se/sbit/adventure/engine/Items.kt:68-77 | a NoSuchItemToDrop event exactly when the item is not carried; otherwise a Dropped event of that item at the Player's room and state; without a Player position, NoMatchingItemState when the item is carried and its state does not resolve (the description is built first), else NoCurrentRoom |
| EngineItems.ActionForExamineItem | src/main/kotlin/se/sbit/adventure/engine/Items.kt:60-65 | an event at the Player's room and state whose text is the success text exactly when the item is carried |
| EngineItems.ActionForInventory | src/main/kotlin/se/sbit/adventure/engine/Items.kt:79-87 | an inventory event at the Player's room and state whose text is the "not carrying" text exactly when nothing is carried |
| EngineItems.ExamineAndInventoryKeepLedger | src/main/kotlin/se/sbit/adventure/engine/Items.kt:60-87 | appending the examine or inventory event leaves the carried items and every room's items unchanged |
| EngineItems.PickUpTakesItem | src/main/kotlin/se/sbit/adventure/engine/Items.kt:47-57 | appending a successful pick-up makes the item carried, removes it from the Player's room and leaves the Player where it was |
| EngineItems.DropPlacesItem | src/main/kotlin/se/sbit/adventure/engine/Items.kt:68-77 | appending a successful drop makes the item not carried and places it in the Player's room |
| EngineItems.PickUpThenDropRestores | src/main/kotlin/se/sbit/adventure/engine/Items.kt:47-77 | a pick-up followed by a drop in the same room restores every room's items, and the carried items up to that item |
| EngineRoom.DirectionGuard | src/main/kotlin/se/sbit/adventure/engine/Room.kt:15-18 | `north`/`east`/`south`/`west` hold exactly for their own GoCommand |
| EngineRoom.DirectionGuardsExclusive | src/main/kotlin/se/sbit/adventure/engine/Room.kt:15-18 | no input satisfies two different direction guards |
| EngineRoom.And | src/main/kotlin/se/sbit/adventure/engine/Room.kt:20-22 | pointwise conjunction of two input guards |
| EngineRoom.Or | src/main/kotlin/se/sbit/adventure/engine/Room.kt:24-26 | pointwise disjunction of two input guards |
| EngineRoom.StateAnd | src/main/kotlin/se/sbit/adventure/engine/Room.kt:29-31 | pointwise conjunction of two (input, room) guards |
| EngineRoom.StateOr | src/main/kotlin/se/sbit/adventure/engine/Room.kt:33-35 | pointwise disjunction of two (input, room) guards |
| EngineRoom.CombinatorsCommuteAndAssociate | src/main/kotlin/se/sbit/adventure/engine/Room.kt:20-26 | `and` and `or` are commutative and associative on every input |
| EngineRoom.StateCombinatorsCommuteAndAssociate | src/main/kotlin/se/sbit/adventure/engine/Room.kt:29-35 | the (input, room) `and` and `or` are commutative and associative on every input and room |
| EngineRoom.FirstStateIndex | src/main/kotlin/se/sbit/adventure/engine/Room.kt:57 | -1 exactly when no state guard holds for (input, room left); otherwise the first state whose guard holds |
| EngineRoom.OpenExitIndex | src/main/kotlin/se/sbit/adventure/engine/Room.kt:50 | -1 exactly when no exit guard holds for the input; otherwise the first, and only first, open exit |
| EngineRoom.ActionForGo | src/main/kotlin/se/sbit/adventure/engine/Room.kt:37-66 | fails without a Player position; a SameRoom event at the current room and state when the room has no connections, no exit guard holds, or the first open exit's destination has no matching state; otherwise a NewRoom event for the Player into that destination, in its first state whose guard holds for (input, current room) |
| EngineRoom.AgreeingExitsGoAlike | src/main/kotlin/se/sbit/adventure/engine/Room.kt:50 | connection maps whose guards agree on the input (such as `west or south` and `south or west`) give the same event |
| EngineRoom.FirstEnterable | src/main/kotlin/se/sbit/adventure/engine/Room.kt:78-83 | none exactly when no candidate has a state whose guard holds for the NPC input; otherwise the first candidate in order that has one, with its first such state |
| EngineRoom.GoWherePossible | src/main/kotlin/se/sbit/adventure/engine/Room.kt:68-85 | the event is the given character's; "No possible rooms to enter" exactly when the room has no entry; "No possible state to enter" exactly when no candidate has a matching state; otherwise a NewRoom event into the first room of the shuffled candidates that has a state matching the NPC input, in its first such state |
| EngineUtils.DirectionGuard | src/main/kotlin/se/sbit/adventure/engine/Utils.kt:6-9 | the direction guards hold exactly for their GoCommand, whatever the room |
| EngineUtils.OpenGuardedExitIndex | src/main/kotlin/se/sbit/adventure/engine/Utils.kt:33 | -1 exactly when no guard holds for (input, current room); otherwise the first open exit |
| EngineUtils.ActionForGo | src/main/kotlin/se/sbit/adventure/engine/Utils.kt:20-49 | a SameRoom event at the current room and state when the room has no connections, no guard holds on (input, current room), or the destination has no matching state; otherwise a NewRoom event for the Player into the destination's first matching state |
| EngineUtils.AgreesWithRoomActionForGo | src/main/kotlin/se/sbit/adventure/engine/Utils.kt:33-47 | when each guard agrees, at the room it guards, with an input-only guard, this variant returns the same event as Room.kt's `actionForGo` |
| EngineGame.CarriedPlaced | src/main/kotlin/se/sbit/adventure/engine/Game.kt:41 | exactly the items placed `Carried` |
| EngineGame.RoomPlaced | src/main/kotlin/se/sbit/adventure/engine/Game.kt:45 | exactly the items placed in some room |
| EngineGame.RoomPlacedIn | src/main/kotlin/se/sbit/adventure/engine/Game.kt:45 | exactly the items placed in the given room |
| EngineGame.PickUpSeeds | src/main/kotlin/se/sbit/adventure/engine/Game.kt:41-42 | every seeded pick-up is the Player's PickedUp event at the given room and state; there are none without a `Carried` placement |
| EngineGame.DropSeeds | src/main/kotlin/se/sbit/adventure/engine/Game.kt:45-46 | every seeded drop is the Player's Dropped event of an item placed in that event's room, with the placeholder state |
| EngineGame.NpcSeed | src/main/kotlin/se/sbit/adventure/engine/Game.kt:50 | appended to any log, the entry event puts the NPC at its start room and state and leaves the carried items unchanged |
| EngineGame.NpcSeeds | src/main/kotlin/se/sbit/adventure/engine/Game.kt:50 | one entry event per NPC, in list order |
| EngineGame.SeedPickUps | src/main/kotlin/se/sbit/adventure/engine/Game.kt:41-42 | fails with NoCurrentRoom exactly when some item is placed `Carried` and the Player has no position |
| EngineGame.SeedEvents | src/main/kotlin/se/sbit/adventure/engine/Game.kt:40-51 | fails exactly when some item is placed `Carried` and the Player has no position; otherwise the NPC entry events come last |
| EngineGame.SeedEventsShape | src/main/kotlin/se/sbit/adventure/engine/Game.kt:40-51 | the seeds are the pick-ups (at the Player's room and state), then the drops, then the NPC entries |
| EngineGame.CarriedAfterPickUpSeeds | src/main/kotlin/se/sbit/adventure/engine/Game.kt:41-43 | the seeded pick-ups add the `Carried` items to the carried items and remove them from the Player's room only |
| EngineGame.CarriedAfterDropSeeds | src/main/kotlin/se/sbit/adventure/engine/Game.kt:45-47 | the seeded drops remove the room-placed items from the carried items |
| EngineGame.ItemsInAfterDropSeeds | src/main/kotlin/se/sbit/adventure/engine/Game.kt:45-47 | the seeded drops add to each room exactly the items placed there |
| EngineGame.LedgerIgnoresNpcSeeds | src/main/kotlin/se/sbit/adventure/engine/Game.kt:50 | the NPC entry events leave the item ledger unchanged |
| EngineGame.SeededCarried | src/main/kotlin/se/sbit/adventure/engine/Game.kt:40-51 | after construction the carried items are those carried before, plus the `Carried` placements, minus the room placements |
| EngineGame.SeededCarriedExactly | src/main/kotlin/se/sbit/adventure/engine/Game.kt:41-47 | from a log without pick-ups or drops, the carried items after construction are exactly the `Carried` placements |
| EngineGame.SeededItemsIn | src/main/kotlin/se/sbit/adventure/engine/Game.kt:41-47 | after construction each room holds every item placed there, plus what it held before (less the `Carried` items in the Player's room) |
| EngineGame.NpcSeedsPlace | src/main/kotlin/se/sbit/adventure/engine/Game.kt:50 | after the NPC entry events each NPC stands at its start room and state (the last listing wins) |
| EngineGame.SeededNpcPosition | src/main/kotlin/se/sbit/adventure/engine/Game.kt:50 | after construction each listed NPC's room and state is its start pair |
| EngineGame.AddAll | src/main/kotlin/se/sbit/adventure/engine/Game.kt:43 | the log afterwards is the old log followed by the given events in order |
| EngineGame.MapCarried | src/main/kotlin/se/sbit/adventure/engine/Game.kt:41-42 | the loop builds the seeded pick-ups, or fails when a `Carried` item finds no Player position |
| EngineGame.MapInRoom | src/main/kotlin/se/sbit/adventure/engine/Game.kt:45-46 | the loop builds the seeded drops |
| EngineGame.AddNpcs | src/main/kotlin/se/sbit/adventure/engine/Game.kt:50 | the log afterwards is the old log followed by one entry event per NPC |
| EngineGame.NpcsOf | src/main/kotlin/se/sbit/adventure/engine/Game.kt:38 | the NPCs of the start list, in order |
| EngineGame.Game.constructor | src/main/kotlin/se/sbit/adventure/engine/Game.kt:32-38 | the game holds the given connections, action map, log and NPCs |
| EngineGame.NewGame | src/main/kotlin/se/sbit/adventure/engine/Game.kt:32-51 | on failure the log is untouched; on success the old events stay a prefix, followed by the pick-ups, the drops and the NPC entries |
| EngineGame.Game.PlayerDo | src/main/kotlin/se/sbit/adventure/engine/Game.kt:62-66 | fails with UndefinedCommand when the command has no handler; otherwise exactly the mapped handler's event on the log, without appending it |
| SbitTypes.DirectionGuard | src/main/kotlin/se/sbit/Game.kt:33-36 | the direction guards hold exactly for their command, whatever the room |
| SbitTypes.And | src/main/kotlin/se/sbit/Game.kt:39-41 | pointwise conjunction of two guards |
| SbitTypes.Or | src/main/kotlin/se/sbit/Game.kt:43-45 | pointwise disjunction of two guards |
| SbitTypes.CombinatorsCommuteAndAssociate | src/main/kotlin/se/sbit/Game.kt:39-45 | `and` and `or` are commutative and associative on every input and room |
| SbitGame.OpenExitIndex | src/main/kotlin/se/sbit/Game.kt:20 | -1 exactly when no exit guard holds; otherwise the first open exit |
| SbitGame.Game.constructor | src/main/kotlin/se/sbit/Game.kt:11-13 | the game holds the connections and start room, and a fresh ledger over the given placements |
| SbitGame.Game.PlayerGo | src/main/kotlin/se/sbit/Game.kt:15-25 | the current room when it has no entry or no guard holds; otherwise the destination of the first open exit |
| SbitGame.Game.PlayerGoStaysConnected | src/main/kotlin/se/sbit/Game.kt:15-25 | the result is the current room or one of its listed destinations |
| SbitItems.CarriedIn | src/main/kotlin/se/sbit/Items.kt:19-22 | exactly the items of the `Carried` placements |
| SbitItems.PlacedIn | src/main/kotlin/se/sbit/Items.kt:24-28 | exactly the items of the `InRoom` placements with that room |
| SbitItems.PickedUp | src/main/kotlin/se/sbit/Items.kt:31-44 | AlreadyCarried when the item is carried; InAnotherRoom when it lies in a different room; otherwise (also for an unknown item) the item becomes carried and every other entry is unchanged |
| SbitItems.Dropped | src/main/kotlin/se/sbit/Items.kt:46-54 | NotCarried exactly when the item is present and lies in a room; otherwise it is placed in the room and every other entry is unchanged |
| SbitItems.NeverCarriedAndPlaced | src/main/kotlin/se/sbit/Items.kt:16 | in a ledger whose placements name their own item, no item is both carried and in a room |
| SbitItems.PickUpKeepsValid | src/main/kotlin/se/sbit/Items.kt:42 | a pick-up keeps every placement naming its own item |
| SbitItems.DropKeepsValid | src/main/kotlin/se/sbit/Items.kt:52 | a drop keeps every placement naming its own item |
| SbitItems.PickUpEffect | src/main/kotlin/se/sbit/Items.kt:31-44 | a pick-up adds the item to the carried items and removes it from every room |
| SbitItems.DropEffect | src/main/kotlin/se/sbit/Items.kt:46-54 | a drop removes the item from the carried items and adds it to that room only |
| SbitItems.PickUpThenDropRestores | src/main/kotlin/se/sbit/Items.kt:31-54 | picking an item up from its room and dropping it back there restores the ledger exactly |
| SbitItems.DropThenPickUpRestores | src/main/kotlin/se/sbit/Items.kt:31-54 | dropping a carried item and picking it up again in the same room restores the ledger exactly |
| SbitItems.NoDoubleMoves | src/main/kotlin/se/sbit/Items.kt:31-54 | a second pick-up fails with AlreadyCarried and a second drop with NotCarried |
| SbitItems.Items.constructor | src/main/kotlin/se/sbit/Items.kt:14-16 | the ledger starts as the given placement map |
| SbitItems.Items.CarriedItems | src/main/kotlin/se/sbit/Items.kt:19-22 | the carried items of the current map |
| SbitItems.Items.ItemsIn | src/main/kotlin/se/sbit/Items.kt:24-28 | the items placed in the room in the current map |
| SbitItems.Items.PickUp | src/main/kotlin/se/sbit/Items.kt:31-44 | on a failed check the map is unchanged and the error returned; otherwise the map becomes the picked-up ledger and the item is returned |
| SbitItems.Items.Drop | src/main/kotlin/se/sbit/Items.kt:46-54 | on a failed check the map is unchanged and NotCarried returned; otherwise the map becomes the dropped ledger and the item is returned |
| SbitUtils.GoAction | src/main/kotlin/se/sbit/Utils.kt:20-33 | `SameRoomEvent(current)` when the room has no entry or no guard holds; otherwise `NewRoomEvent` to the first open exit's destination |
| SbitUtils.GoActionAgreesWithPlayerGo | src/main/kotlin/se/sbit/Utils.kt:20-33 | the action lands where `playerGo` does, and reports a new room exactly when an exit was open |

## Left out

- Interpreter (`Input.kt`, `Interpreter.kt`): the regular-expression matching of typed text to commands. It lives in the regex library.
- Presentation: console input and output, and text formatting (`StandardInOut`, the `joinToString` of item descriptions).
- The sample adventure `samples/SimpleAdventure.kt`: world content, puzzle handlers and the read/print loop.
- The NPCs' `doAction`/`getGameText`: the engine's `NPC` class (engine/Character.kt:5) does not declare them. They exist only as overrides in a game's own NPC objects, such as the sample's old man. An NPC is modelled as an identity with a description.
- The `main` function of `se/sbit/Game.kt`: it only prints.
- EngineRoom.GoWherePossible: `shuffled()` is a caller-supplied reordering (`IsShuffle`). The random distribution of rooms is not modelled.
- EngineItems.ActionForInventory: the "carrying" text is modelled without the list of item descriptions appended to it. The failure that a multi-state item's description could raise while building that list is not modelled either.
- EngineItems.CarriedItems: returns a set. The order of the Kotlin list (the insertion order of a hash set) is not modelled. The same holds for EngineItems.ItemsIn.
- SbitItems.Items.CarriedItems: returns a set. The order and repetitions of the Kotlin list of map values are not modelled. The same holds for SbitItems.Items.ItemsIn.
- SbitItems: an item is a number. The `description` of `ItemType` is not modelled, because no operation of the ledger reads it.
- EngineUtils.ActionForGo: `engine/Utils.kt` calls `getCurrentRoom()`/`getCurrentState()` without a character. No such methods exist in `EventLog.kt`. The model reads the Player's position, and the unused `items` argument is dropped.
- The Kotlin exception messages: an error is modelled by its kind only.
- Duplicated declarations:
  - `engine/Utils.kt`'s `and`/`or` on `(Input, Room)` guards are the same combinators as Room.kt's `RoomStateGuard` ones, modelled once as `EngineRoom.StateAnd`/`StateOr`.
  - `se/sbit/Utils.kt` re-declares `Guard`, the four direction guards and `and`/`or` of `se/sbit/Game.kt`. They are modelled once in `SbitTypes`. The copies in Utils.kt compare against the engine's `GoCommand`, which is read as the se.sbit `Command`.
- SbitUtils.GoAction: `goActionFromRoomConnectionsMap` returns a closure that also takes the `Items` ledger. The closure never reads it, so the model applies the closure directly and drops the argument.
