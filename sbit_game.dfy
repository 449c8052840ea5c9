/** The se.sbit game (se/sbit/Game.kt): a connection map, an item ledger and room-to-room movement. */
module SbitGame {
  import opened SbitTypes
  import SbitItems
  import Lists

  /** The index of the first exit whose guard holds on (input, current room), or -1. */
  function OpenExitIndex(exits: seq<Exit>, input: Input, current: Room): (k: int)
    ensures k == -1 <==> NoOpenExit(exits, input, current)
    ensures k != -1 ==> FirstOpenExit(exits, input, current, k)
  {
    Lists.IndexOfFirst(exits, (e: Exit) => e.guard(input, current))
  }

  class Game {
    const connections: RoomConnectionsMap
    const allItems: SbitItems.Items
    const startRoom: Room

    constructor (connections: RoomConnectionsMap, itemsMap: map<SbitItems.ItemType, SbitItems.Placement>, startRoom: Room)
      ensures this.connections == connections && this.startRoom == startRoom
      ensures fresh(allItems) && allItems.itemMap == itemsMap
    {
      this.connections := connections;
      this.startRoom := startRoom;
      this.allItems := new SbitItems.Items(itemsMap);
    }

    /**
     * playerGo: the destination of the first exit of the current room whose guard holds;
     * the current room itself when the room has no entry or no guard holds.
     */
    function PlayerGo(input: Input, currentRoom: Room): (r: Room)
      ensures currentRoom !in connections ==> r == currentRoom
      ensures currentRoom in connections && NoOpenExit(connections[currentRoom], input, currentRoom) ==> r == currentRoom
      ensures currentRoom in connections ==> forall k :: FirstOpenExit(connections[currentRoom], input, currentRoom, k) ==>
        r == connections[currentRoom][k].to
    {
      if currentRoom !in connections then currentRoom
      else
        var exits := connections[currentRoom];
        var index := OpenExitIndex(exits, input, currentRoom);
        if index == -1 then currentRoom else exits[index].to
    }

    /** Movement never leaves the map: the result is the current room or one of its listed destinations. */
    lemma PlayerGoStaysConnected(input: Input, currentRoom: Room)
      ensures var r := PlayerGo(input, currentRoom);
        r == currentRoom ||
        (currentRoom in connections && exists k :: 0 <= k < |connections[currentRoom]| && connections[currentRoom][k].to == r)
    {
      if currentRoom in connections {
        var exits := connections[currentRoom];
        var index := OpenExitIndex(exits, input, currentRoom);
        if index != -1 {
          assert exits[index].to == PlayerGo(input, currentRoom);
        }
      }
    }
  }
}
