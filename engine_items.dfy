/**
 * The item ledger of the engine (Items.kt): which items are carried and which lie in which
 * room are folds over the pick-up and drop events of the log, and the pick-up, drop, examine
 * and inventory handlers consult those folds and return one event without appending it.
 */
module EngineItems {
  import opened EngineTypes
  import opened EngineEventLog
  import Lists

  datatype Itemstate = Itemstate(description: string)

  /** One (guard over the log, state) pair of a multi-state item. */
  datatype ItemStateEntry = ItemStateEntry(guard: seq<Event> -> bool, state: Itemstate)

  /** An item: a fixed state, or an ordered list of guarded states resolved against the log. */
  datatype ItemDef =
    | SinglestateItem(id: ItemId, fixed: Itemstate)
    | MultistateItem(id: ItemId, states: seq<ItemStateEntry>)

  /** `state(eventLog)`: the fixed state, or the state of the first entry whose guard holds. */
  function ItemState(item: ItemDef, log: seq<Event>): (r: Result<Itemstate>)
    ensures item.SinglestateItem? ==> r == Success(item.fixed)
    ensures item.MultistateItem? ==>
      (r.Failure? <==> forall i :: 0 <= i < |item.states| ==> !item.states[i].guard(log))
    ensures r.Failure? ==> r.error == NoMatchingItemState
    ensures item.MultistateItem? && r.Success? ==>
      exists k :: 0 <= k < |item.states| && item.states[k].guard(log) && r.value == item.states[k].state &&
        forall j :: 0 <= j < k ==> !item.states[j].guard(log)
  {
    match item
    case SinglestateItem(_, fixed) => Success(fixed)
    case MultistateItem(_, states) =>
      var index := Lists.IndexOfFirst(states, (s: ItemStateEntry) => s.guard(log));
      if index == -1 then Failure(NoMatchingItemState) else Success(states[index].state)
  }

  function Description(item: ItemDef, log: seq<Event>): (r: Result<string>)
    ensures r.Success? <==> ItemState(item, log).Success?
    ensures r.Success? ==> r.value == ItemState(item, log).value.description
  {
    match ItemState(item, log)
    case Failure(e) => Failure(e)
    case Success(s) => Success(s.description)
  }

  /** `e` is a pick-up or drop event of item `x`. */
  predicate Touches(e: Event, x: ItemId)
  {
    (e.kind.PickedUp? || e.kind.Dropped?) && e.kind.item == x
  }

  /** `log[i]` is the last pick-up or drop of `x`. */
  ghost predicate LastTouchAt(log: seq<Event>, x: ItemId, i: int)
  {
    0 <= i < |log| && Touches(log[i], x) &&
    forall j :: i < j < |log| ==> !Touches(log[j], x)
  }

  /** `log[i]` is the last pick-up or drop of `x` that happened in `room`. */
  ghost predicate LastTouchInRoomAt(log: seq<Event>, x: ItemId, room: RoomId, i: int)
  {
    0 <= i < |log| && Touches(log[i], x) && log[i].room == room &&
    forall j :: i < j < |log| ==> !(Touches(log[j], x) && log[j].room == room)
  }

  /** The ledger of carried items: replay the log, adding on pick-up and removing on drop. */
  function CarriedSet(log: seq<Event>): (r: set<ItemId>)
    ensures forall x :: x in r ==> exists i :: 0 <= i < |log| && log[i].kind == PickedUp(x)
  {
    if |log| == 0 then {}
    else
      var prior := CarriedSet(log[..|log| - 1]);
      match log[|log| - 1].kind
      case PickedUp(x) => prior + {x}
      case Dropped(x) => prior - {x}
      case _ => prior
  }

  /** The ledger of one room: replay only the events that happened in `room`, adding on drop and removing on pick-up. */
  function ItemsInSet(room: RoomId, log: seq<Event>): (r: set<ItemId>)
    ensures forall x :: x in r ==> exists i :: 0 <= i < |log| && log[i].kind == Dropped(x) && log[i].room == room
  {
    if |log| == 0 then {}
    else
      var prior := ItemsInSet(room, log[..|log| - 1]);
      var e := log[|log| - 1];
      if e.room != room then prior
      else match e.kind
        case Dropped(x) => prior + {x}
        case PickedUp(x) => prior - {x}
        case _ => prior
  }

  /** An item is carried exactly when its last pick-up or drop event is a pick-up. */
  lemma {:induction false} CarriedIffLastTouchIsPickUp(log: seq<Event>, x: ItemId)
    ensures x in CarriedSet(log) <==> exists i :: LastTouchAt(log, x, i) && log[i].kind.PickedUp?
    decreases |log|
  {
    if |log| > 0 {
      var front := log[..|log| - 1];
      var last := log[|log| - 1];
      CarriedIffLastTouchIsPickUp(front, x);
      assert forall j :: 0 <= j < |front| ==> front[j] == log[j];
      if Touches(last, x) {
        assert LastTouchAt(log, x, |log| - 1);
        forall i | LastTouchAt(log, x, i) ensures i == |log| - 1 { }
      } else {
        forall i | LastTouchAt(front, x, i) ensures LastTouchAt(log, x, i) { }
        forall i | LastTouchAt(log, x, i) ensures LastTouchAt(front, x, i) { }
      }
    }
  }

  /** An item lies in `room` exactly when, among the pick-ups and drops of it in `room`, the last is a drop. */
  lemma {:induction false} ItemsInIffLastTouchIsDrop(log: seq<Event>, x: ItemId, room: RoomId)
    ensures x in ItemsInSet(room, log) <==> exists i :: LastTouchInRoomAt(log, x, room, i) && log[i].kind.Dropped?
    decreases |log|
  {
    if |log| > 0 {
      var front := log[..|log| - 1];
      var last := log[|log| - 1];
      ItemsInIffLastTouchIsDrop(front, x, room);
      assert forall j :: 0 <= j < |front| ==> front[j] == log[j];
      if Touches(last, x) && last.room == room {
        assert LastTouchInRoomAt(log, x, room, |log| - 1);
        forall i | LastTouchInRoomAt(log, x, room, i) ensures i == |log| - 1 { }
      } else {
        forall i | LastTouchInRoomAt(front, x, room, i) ensures LastTouchInRoomAt(log, x, room, i) { }
        forall i | LastTouchInRoomAt(log, x, room, i) ensures LastTouchInRoomAt(front, x, room, i) { }
      }
    }
  }

  /** carriedItems: the loop over the log that builds the set of carried items. */
  method CarriedItems(eventLog: EventLog) returns (items: set<ItemId>)
    ensures items == CarriedSet(eventLog.events)
  {
    var log := eventLog.Log();
    items := {};
    var i := 0;
    while i < |log|
      invariant 0 <= i <= |log|
      invariant items == CarriedSet(log[..i])
    {
      assert log[..i + 1][..i] == log[..i];
      match log[i].kind {
        case PickedUp(x) => items := items + {x};
        case Dropped(x) => items := items - {x};
        case _ =>
      }
      i := i + 1;
    }
    assert log[..i] == log;
  }

  /** itemsIn: the loop over the log that builds the set of items lying in `room`. */
  method ItemsIn(room: RoomId, eventLog: EventLog) returns (items: set<ItemId>)
    ensures items == ItemsInSet(room, eventLog.events)
  {
    var log := eventLog.Log();
    items := {};
    var i := 0;
    while i < |log|
      invariant 0 <= i <= |log|
      invariant items == ItemsInSet(room, log[..i])
    {
      assert log[..i + 1][..i] == log[..i];
      if log[i].room == room {
        match log[i].kind {
          case Dropped(x) => items := items + {x};
          case PickedUp(x) => items := items - {x};
          case _ =>
        }
      }
      i := i + 1;
    }
    assert log[..i] == log;
  }

  /** The ledger changes only through pick-up and drop events. */
  lemma LedgerIgnoresOtherEvents(log: seq<Event>, e: Event)
    requires !e.kind.PickedUp? && !e.kind.Dropped?
    ensures CarriedSet(log + [e]) == CarriedSet(log)
    ensures forall room :: ItemsInSet(room, log + [e]) == ItemsInSet(room, log)
  {
    assert (log + [e])[..|log|] == log;
  }

  /**
   * actionForPickUpItem: a NoSuchItemHere event when the item is not in the Player's room,
   * otherwise a PickedUp event at the Player's room and state.
   */
  function ActionForPickUpItem(item: ItemDef, noSuchItemHereText: string, pickedUpText: string, log: seq<Event>)
    : (r: Result<Event>)
    ensures CurrentRoomAndState(log, Player).Failure? ==> r == Failure(NoCurrentRoom)
    ensures CurrentRoomAndState(log, Player).Success? ==>
      var (room, state) := CurrentRoomAndState(log, Player).value;
      && (r.Success? && r.value.kind.NoSuchItemHere? <==> item.id !in ItemsInSet(room, log))
      && (item.id !in ItemsInSet(room, log) ==> r == Success(Event(NoSuchItemHere, noSuchItemHereText, room, state, Player)))
      && (item.id in ItemsInSet(room, log) ==>
            && (r.Failure? <==> ItemState(item, log).Failure?)
            && (r.Success? ==> r.value == Event(PickedUp(item.id), pickedUpText + " " + Description(item, log).value + ".", room, state, Player)))
  {
    match CurrentRoomAndState(log, Player)
    case Failure(e) => Failure(e)
    case Success(pos) =>
      if item.id !in ItemsInSet(pos.0, log) then
        Success(Event(NoSuchItemHere, noSuchItemHereText, pos.0, pos.1, Player))
      else
        match Description(item, log)
        case Failure(e) => Failure(e)
        case Success(d) => Success(Event(PickedUp(item.id), pickedUpText + " " + d + ".", pos.0, pos.1, Player))
  }

  /**
   * actionForDropItem: a NoSuchItemToDrop event when the item is not carried, otherwise a
   * Dropped event at the Player's room and state.
   */
  function ActionForDropItem(item: ItemDef, noSuchItemToDropText: string, droppedText: string, log: seq<Event>)
    : (r: Result<Event>)
    ensures CurrentRoomAndState(log, Player).Failure? ==>
      r == Failure(if item.id in CarriedSet(log) && ItemState(item, log).Failure? then NoMatchingItemState else NoCurrentRoom)
    ensures CurrentRoomAndState(log, Player).Success? ==>
      var (room, state) := CurrentRoomAndState(log, Player).value;
      && (r.Success? && r.value.kind.NoSuchItemToDrop? <==> item.id !in CarriedSet(log))
      && (item.id !in CarriedSet(log) ==> r == Success(Event(NoSuchItemToDrop, noSuchItemToDropText, room, state, Player)))
      && (item.id in CarriedSet(log) ==>
            && (r.Failure? <==> ItemState(item, log).Failure?)
            && (r.Success? ==> r.value == Event(Dropped(item.id), droppedText + " " + Description(item, log).value + ".", room, state, Player)))
  {
    if item.id !in CarriedSet(log) then
      match CurrentRoomAndState(log, Player)
      case Failure(e) => Failure(e)
      case Success(pos) => Success(Event(NoSuchItemToDrop, noSuchItemToDropText, pos.0, pos.1, Player))
    else
      // the text, and with it the description, is evaluated before the position
      match Description(item, log)
      case Failure(e) => Failure(e)
      case Success(d) =>
        match CurrentRoomAndState(log, Player)
        case Failure(e) => Failure(e)
        case Success(pos) => Success(Event(Dropped(item.id), droppedText + " " + d + ".", pos.0, pos.1, Player))
  }

  /** actionForExamineItem: success text exactly when the item is carried; a generic event either way. */
  function ActionForExamineItem(item: ItemDef, successText: string, failureText: string, log: seq<Event>)
    : (r: Result<Event>)
    ensures r.Failure? <==> CurrentRoomAndState(log, Player).Failure?
    ensures r.Success? ==>
      && r.value.kind == Generic
      && (r.value.room, r.value.state) == CurrentRoomAndState(log, Player).value
      && r.value.character == Player
      && r.value.text == if item.id in CarriedSet(log) then successText else failureText
  {
    match CurrentRoomAndState(log, Player)
    case Failure(e) => Failure(e)
    case Success(pos) =>
      if item.id in CarriedSet(log) then Success(Event(Generic, successText, pos.0, pos.1, Player))
      else Success(Event(Generic, failureText, pos.0, pos.1, Player))
  }

  /** goActionForInventory: the "not carrying" text exactly when nothing is carried. */
  function ActionForInventory(notCarryingText: string, carryingText: string, log: seq<Event>)
    : (r: Result<Event>)
    ensures r.Failure? <==> CurrentRoomAndState(log, Player).Failure?
    ensures r.Success? ==>
      && r.value.kind == Inventory
      && (r.value.room, r.value.state) == CurrentRoomAndState(log, Player).value
      && r.value.character == Player
      && r.value.text == if CarriedSet(log) == {} then notCarryingText else carryingText
  {
    match CurrentRoomAndState(log, Player)
    case Failure(e) => Failure(e)
    case Success(pos) =>
      if CarriedSet(log) == {} then Success(Event(Inventory, notCarryingText, pos.0, pos.1, Player))
      else Success(Event(Inventory, carryingText, pos.0, pos.1, Player))
  }

  /** Examine and inventory emit no pick-up or drop, so appending their event leaves the ledger as it was. */
  lemma ExamineAndInventoryKeepLedger(item: ItemDef, t1: string, t2: string, log: seq<Event>)
    ensures ActionForExamineItem(item, t1, t2, log).Success? ==>
      var log' := log + [ActionForExamineItem(item, t1, t2, log).value];
      CarriedSet(log') == CarriedSet(log) && forall room :: ItemsInSet(room, log') == ItemsInSet(room, log)
    ensures ActionForInventory(t1, t2, log).Success? ==>
      var log' := log + [ActionForInventory(t1, t2, log).value];
      CarriedSet(log') == CarriedSet(log) && forall room :: ItemsInSet(room, log') == ItemsInSet(room, log)
  {
    if ActionForExamineItem(item, t1, t2, log).Success? {
      LedgerIgnoresOtherEvents(log, ActionForExamineItem(item, t1, t2, log).value);
    }
    if ActionForInventory(t1, t2, log).Success? {
      LedgerIgnoresOtherEvents(log, ActionForInventory(t1, t2, log).value);
    }
  }

  /** Appending a successful pick-up makes the item carried, takes it out of the room, and leaves the Player where it was. */
  lemma PickUpTakesItem(item: ItemDef, t1: string, t2: string, log: seq<Event>)
    requires ActionForPickUpItem(item, t1, t2, log).Success?
    requires ActionForPickUpItem(item, t1, t2, log).value.kind.PickedUp?
    ensures var log' := log + [ActionForPickUpItem(item, t1, t2, log).value];
      var room := CurrentRoomAndState(log, Player).value.0;
      && item.id in CarriedSet(log')
      && item.id !in ItemsInSet(room, log')
      && CurrentRoomAndState(log', Player) == CurrentRoomAndState(log, Player)
  {
    var e := ActionForPickUpItem(item, t1, t2, log).value;
    assert (log + [e])[..|log|] == log;
    AppendOthersKeepsPosition(log, [e], Player);
  }

  /** Appending a successful drop makes the item not carried and places it in the Player's room. */
  lemma DropPlacesItem(item: ItemDef, t1: string, t2: string, log: seq<Event>)
    requires ActionForDropItem(item, t1, t2, log).Success?
    requires ActionForDropItem(item, t1, t2, log).value.kind.Dropped?
    ensures var log' := log + [ActionForDropItem(item, t1, t2, log).value];
      var room := CurrentRoomAndState(log, Player).value.0;
      && item.id !in CarriedSet(log')
      && item.id in ItemsInSet(room, log')
  {
    var e := ActionForDropItem(item, t1, t2, log).value;
    assert (log + [e])[..|log|] == log;
  }

  /**
   * Picking an item up and dropping it again in the same room restores every room's items,
   * and the carried set up to that item (so exactly, when it was not carried before).
   */
  lemma {:induction false} PickUpThenDropRestores(item: ItemDef, t1: string, t2: string, t3: string, t4: string, log: seq<Event>)
    requires ActionForPickUpItem(item, t1, t2, log).Success?
    requires ActionForPickUpItem(item, t1, t2, log).value.kind.PickedUp?
    requires ActionForDropItem(item, t3, t4, log + [ActionForPickUpItem(item, t1, t2, log).value]).Success?
    ensures var log1 := log + [ActionForPickUpItem(item, t1, t2, log).value];
      var drop := ActionForDropItem(item, t3, t4, log1).value;
      var log2 := log1 + [drop];
      && drop.kind == Dropped(item.id)
      && (forall room :: ItemsInSet(room, log2) == ItemsInSet(room, log))
      && CarriedSet(log2) == CarriedSet(log) - {item.id}
  {
    var pick := ActionForPickUpItem(item, t1, t2, log).value;
    var log1 := log + [pick];
    PickUpTakesItem(item, t1, t2, log);
    var drop := ActionForDropItem(item, t3, t4, log1).value;
    var log2 := log1 + [drop];
    assert log1[..|log|] == log;
    assert log2[..|log1|] == log1;
    assert drop.room == pick.room;
    forall room ensures ItemsInSet(room, log2) == ItemsInSet(room, log) {
      if room == pick.room {
        assert item.id in ItemsInSet(room, log);
      }
    }
  }
}
