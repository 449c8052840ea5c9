/**
 * The se.sbit "go" action (se/sbit/Utils.kt): the same traversal as `playerGo`, reported as
 * an event that says whether the player moved.
 */
module SbitUtils {
  import opened SbitTypes
  import SbitGame

  datatype MoveEvent = SameRoomEvent(room: Room) | NewRoomEvent(room: Room)

  /**
   * goActionFromRoomConnectionsMap, applied: `SameRoomEvent(current)` when the room has no entry
   * or no guard holds, otherwise `NewRoomEvent` to the first open exit's destination. The item
   * ledger the Kotlin action also receives is never consulted, so it is not a parameter.
   */
  function GoAction(connectionsMap: RoomConnectionsMap, input: Input, currentRoom: Room): (r: MoveEvent)
    ensures currentRoom !in connectionsMap ==> r == SameRoomEvent(currentRoom)
    ensures currentRoom in connectionsMap && NoOpenExit(connectionsMap[currentRoom], input, currentRoom) ==>
      r == SameRoomEvent(currentRoom)
    ensures currentRoom in connectionsMap ==> forall k :: FirstOpenExit(connectionsMap[currentRoom], input, currentRoom, k) ==>
      r == NewRoomEvent(connectionsMap[currentRoom][k].to)
  {
    if currentRoom !in connectionsMap then SameRoomEvent(currentRoom)
    else
      var roomConnections := connectionsMap[currentRoom];
      var index := SbitGame.OpenExitIndex(roomConnections, input, currentRoom);
      if index == -1 then SameRoomEvent(currentRoom) else NewRoomEvent(roomConnections[index].to)
  }

  /**
   * The action built from a game's connections lands where that game's `playerGo` does, and
   * reports `NewRoomEvent` exactly when an exit was taken.
   */
  lemma {:induction false} GoActionAgreesWithPlayerGo(game: SbitGame.Game, input: Input, currentRoom: Room)
    ensures GoAction(game.connections, input, currentRoom).room == game.PlayerGo(input, currentRoom)
    ensures GoAction(game.connections, input, currentRoom).NewRoomEvent? <==>
      currentRoom in game.connections && !NoOpenExit(game.connections[currentRoom], input, currentRoom)
  {
    if currentRoom in game.connections {
      var exits := game.connections[currentRoom];
      var index := SbitGame.OpenExitIndex(exits, input, currentRoom);
      if index != -1 {
        assert GoAction(game.connections, input, currentRoom) == NewRoomEvent(exits[index].to);
      }
    }
  }
}
