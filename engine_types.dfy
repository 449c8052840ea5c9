/**
 * The value types shared by the event-sourced engine (package se.sbit.adventure.engine):
 * characters, commands, rooms and states, and the one Event type whose log is the
 * only stored state of a game.
 */
module EngineTypes {

  /** Rooms are identified; their ordered state lists live in a RoomTable (see EngineRoom). */
  type RoomId = nat

  /** The description payload of a room state. */
  datatype RoomState = RoomState(description: string)

  /** Items are identified; their state lists live in an ItemDef (see EngineItems). */
  type ItemId = nat

  /** A non-player character: an identity (NPC objects are compared by reference) and its description. */
  datatype Npc = Npc(id: nat, description: string)

  /** The singleton Player or one of the NPCs. */
  datatype Character = Player | NPC(npc: Npc)

  datatype Direction = North | East | South | West

  /** GoCommand values, the NPC marker input, and any game-defined command. */
  datatype Command = Go(direction: Direction) | NPCinput | Custom(name: string)

  datatype Input = Input(command: Command)

  /**
   * The event variants. NewRoom, SameRoom and LookAround form the RoomEvent family, the only
   * events that define where a character is. A game's own RoomEvent subclasses (a door unlocked,
   * a light switched) set a position without counting as an entry, and are SameRoom events here.
   * PickedUp and Dropped are the only events the item ledger replays.
   */
  datatype EventKind =
    | NewRoom
    | SameRoom
    | LookAround
    | PickedUp(item: ItemId)
    | Dropped(item: ItemId)
    | NoSuchItemHere
    | NoSuchItemToDrop
    | Inventory
    | End
    | Generic

  /** An immutable fact: its text, the room and state in effect, and the acting character. */
  datatype Event = Event(kind: EventKind, text: string, room: RoomId, state: RoomState, character: Character)

  predicate IsRoomEvent(e: Event)
  {
    e.kind.NewRoom? || e.kind.SameRoom? || e.kind.LookAround?
  }

  /** The exceptions the engine throws: content or programming errors, never player mistakes. */
  datatype Error =
    | NoCurrentRoom        // the log holds no room event for the character
    | NoMatchingItemState  // no guard of a multi-state item holds
    | UndefinedCommand     // the command has no handler

  datatype Result<T> = Success(value: T) | Failure(error: Error)

  datatype Option<T> = None | Some(value: T)
}
