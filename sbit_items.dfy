/**
 * The mutable item ledger of package se.sbit (se/sbit/Items.kt): a map from each item to its
 * placement, updated in place by `pickUp` and `drop` after sanity checks that throw.
 */
module SbitItems {
  import opened SbitTypes

  type ItemType = nat

  /** Where an item is: carried, or lying in a room. Each placement names its item. */
  datatype Placement = Carried(item: ItemType) | InRoom(item: ItemType, room: Room)

  type ItemMap = map<ItemType, Placement>

  /** The exceptions thrown by `pickUp` and `drop`. */
  datatype ItemError = AlreadyCarried | InAnotherRoom | NotCarried

  datatype Outcome<T> = Ok(value: T) | Err(error: ItemError)

  /** Every entry's placement names the entry's own item. */
  ghost predicate Valid(m: ItemMap)
  {
    forall x :: x in m ==> m[x].item == x
  }

  /** The items of the `Carried` placements. */
  function CarriedIn(m: ItemMap): (r: set<ItemType>)
    ensures forall x :: x in r <==> exists k :: k in m && m[k] == Carried(x)
  {
    set k | k in m && m[k].Carried? :: m[k].item
  }

  /** The items of the `InRoom` placements with room `room`. */
  function PlacedIn(m: ItemMap, room: Room): (r: set<ItemType>)
    ensures forall x :: x in r <==> exists k :: k in m && m[k] == InRoom(x, room)
  {
    set k | k in m && m[k].InRoom? && m[k].room == room :: m[k].item
  }

  /**
   * The ledger `pickUp` leaves: it throws when the item is carried already or lies in another
   * room; otherwise (also for an item the map does not hold) the item becomes carried.
   */
  function PickedUp(m: ItemMap, item: ItemType, currentRoom: Room): (r: Outcome<ItemMap>)
    ensures r.Err? <==> item in m && (m[item].Carried? || m[item].room != currentRoom)
    ensures r.Err? && m[item].Carried? ==> r.error == AlreadyCarried
    ensures r.Err? && m[item].InRoom? ==> r.error == InAnotherRoom
    ensures r.Ok? ==>
      && r.value.Keys == m.Keys + {item} && r.value[item] == Carried(item)
      && forall x :: x in m && x != item ==> r.value[x] == m[x]
  {
    if item in m && m[item].Carried? then Err(AlreadyCarried)
    else if item in m && m[item].room != currentRoom then Err(InAnotherRoom)
    else Ok(m[item := Carried(item)])
  }

  /**
   * The ledger `drop` leaves: it throws when the item lies in a room; otherwise (also for an
   * item the map does not hold) the item is placed in `room`.
   */
  function Dropped(m: ItemMap, item: ItemType, room: Room): (r: Outcome<ItemMap>)
    ensures r.Err? <==> item in m && m[item].InRoom?
    ensures r.Err? ==> r.error == NotCarried
    ensures r.Ok? ==>
      && r.value.Keys == m.Keys + {item} && r.value[item] == InRoom(item, room)
      && forall x :: x in m && x != item ==> r.value[x] == m[x]
  {
    if item in m && m[item].InRoom? then Err(NotCarried)
    else Ok(m[item := InRoom(item, room)])
  }

  /** One placement per item: in a valid ledger no item is both carried and in a room. */
  lemma NeverCarriedAndPlaced(m: ItemMap, x: ItemType, room: Room)
    requires Valid(m)
    ensures !(x in CarriedIn(m) && x in PlacedIn(m, room))
  {
  }

  lemma PickUpKeepsValid(m: ItemMap, item: ItemType, currentRoom: Room)
    requires Valid(m) && PickedUp(m, item, currentRoom).Ok?
    ensures Valid(PickedUp(m, item, currentRoom).value)
  {
  }

  lemma DropKeepsValid(m: ItemMap, item: ItemType, room: Room)
    requires Valid(m) && Dropped(m, item, room).Ok?
    ensures Valid(Dropped(m, item, room).value)
  {
  }

  /** A successful pick-up adds the item to the carried items and takes it out of every room. */
  lemma PickUpEffect(m: ItemMap, item: ItemType, currentRoom: Room, room: Room)
    requires Valid(m) && PickedUp(m, item, currentRoom).Ok?
    ensures CarriedIn(PickedUp(m, item, currentRoom).value) == CarriedIn(m) + {item}
    ensures PlacedIn(PickedUp(m, item, currentRoom).value, room) == PlacedIn(m, room) - {item}
  {
    var m' := PickedUp(m, item, currentRoom).value;
    assert m'[item] == Carried(item);
    forall x | x in CarriedIn(m') ensures x in CarriedIn(m) + {item} {
      var k :| k in m' && m'[k] == Carried(x);
      if k != item { assert m[k] == Carried(x); }
    }
    forall x | x in PlacedIn(m, room) - {item} ensures x in PlacedIn(m', room) {
      var k :| k in m && m[k] == InRoom(x, room);
      assert k == x;
      assert m'[k] == InRoom(x, room);
    }
  }

  /** A successful drop takes the item out of the carried items and puts it in that room only. */
  lemma DropEffect(m: ItemMap, item: ItemType, room: Room, other: Room)
    requires Valid(m) && Dropped(m, item, room).Ok?
    ensures CarriedIn(Dropped(m, item, room).value) == CarriedIn(m) - {item}
    ensures PlacedIn(Dropped(m, item, room).value, room) == PlacedIn(m, room) + {item}
    ensures other != room ==> PlacedIn(Dropped(m, item, room).value, other) == PlacedIn(m, other) - {item}
  {
    var m' := Dropped(m, item, room).value;
    assert m'[item] == InRoom(item, room);
    forall x | x in CarriedIn(m) - {item} ensures x in CarriedIn(m') {
      var k :| k in m && m[k] == Carried(x);
      assert k == x;
      assert m'[k] == Carried(x);
    }
    forall x | x in PlacedIn(m', room) ensures x in PlacedIn(m, room) + {item} {
      var k :| k in m' && m'[k] == InRoom(x, room);
      if k != item { assert m[k] == InRoom(x, room); }
    }
  }

  /** Picking an item up from its room and dropping it back there restores the ledger. */
  lemma PickUpThenDropRestores(m: ItemMap, item: ItemType, room: Room)
    requires Valid(m) && item in m && m[item] == InRoom(item, room)
    ensures PickedUp(m, item, room).Ok?
    ensures Dropped(PickedUp(m, item, room).value, item, room) == Ok(m)
  {
    var m' := Dropped(PickedUp(m, item, room).value, item, room).value;
    assert m'.Keys == m.Keys;
    assert forall x :: x in m ==> m'[x] == m[x];
    assert m' == m;
  }

  /** Dropping a carried item and picking it up again in the same room restores the ledger. */
  lemma DropThenPickUpRestores(m: ItemMap, item: ItemType, room: Room)
    requires item in m && m[item] == Carried(item)
    ensures Dropped(m, item, room).Ok?
    ensures PickedUp(Dropped(m, item, room).value, item, room) == Ok(m)
  {
    var m' := PickedUp(Dropped(m, item, room).value, item, room).value;
    assert m'.Keys == m.Keys;
    assert forall x :: x in m ==> m'[x] == m[x];
    assert m' == m;
  }

  /** An item cannot be picked up twice, nor dropped twice. */
  lemma NoDoubleMoves(m: ItemMap, item: ItemType, room: Room, other: Room)
    ensures PickedUp(m, item, room).Ok? ==> PickedUp(PickedUp(m, item, room).value, item, other) == Err(AlreadyCarried)
    ensures Dropped(m, item, room).Ok? ==> Dropped(Dropped(m, item, room).value, item, other) == Err(NotCarried)
  {
  }

  /** The ledger `Items`, holding `itemMap` as its mutable state. */
  class Items {
    var itemMap: ItemMap

    constructor (initialItemMap: ItemMap)
      ensures itemMap == initialItemMap
    {
      itemMap := initialItemMap;
    }

    /** carriedItems: the items of the `Carried` placements. */
    function CarriedItems(): (r: set<ItemType>)
      reads this
      ensures r == CarriedIn(itemMap)
    {
      CarriedIn(itemMap)
    }

    /** itemsIn: the items placed `InRoom` with that room. */
    function ItemsIn(room: Room): (r: set<ItemType>)
      reads this
      ensures r == PlacedIn(itemMap, room)
    {
      PlacedIn(itemMap, room)
    }

    /** pickUp: throws on the sanity checks, otherwise makes the item carried and returns it. */
    method PickUp(item: ItemType, currentRoom: Room) returns (r: Outcome<ItemType>)
      modifies this
      ensures match PickedUp(old(itemMap), item, currentRoom)
        case Err(e) => r == Err(e) && itemMap == old(itemMap)
        case Ok(m) => r == Ok(item) && itemMap == m
    {
      if item in itemMap {
        if itemMap[item].Carried? {
          return Err(AlreadyCarried);
        }
        if itemMap[item].room != currentRoom {
          return Err(InAnotherRoom);
        }
      }
      itemMap := itemMap[item := Carried(item)];
      return Ok(item);
    }

    /** drop: throws when the item lies in a room, otherwise places it in `room` and returns it. */
    method Drop(item: ItemType, room: Room) returns (r: Outcome<ItemType>)
      modifies this
      ensures match Dropped(old(itemMap), item, room)
        case Err(e) => r == Err(e) && itemMap == old(itemMap)
        case Ok(m) => r == Ok(item) && itemMap == m
    {
      if item in itemMap && itemMap[item].InRoom? {
        return Err(NotCarried);
      }
      itemMap := itemMap[item := InRoom(item, room)];
      return Ok(item);
    }
  }
}
