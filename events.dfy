/**
 * The events the manager emits (the `RCEEvent` names and payload shapes of
 * src/types.ts). Every payload also carries the server it concerns; the model
 * records that as the server identifier next to the event (`Emitted`).
 */
module Events {
  import opened Text
  import opened KillInfo
  import opened Numbers

  datatype ChatKind = TeamChat | ServerChat | LocalChat   // "team", "server", "local"

  datatype Platform = XBL | PS

  /** RF coordinates are kept as the matched text (`parseFloat` is not modelled). */
  datatype Coordinates = Coordinates(x: string, y: string, z: string)

  /** Why an `Error` event was emitted. */
  datatype Failure =
    | NoServerForCommand(identifier: string)   // sendCommand on an unknown identifier
    | NoAccessToken                            // sending or authenticating the socket without a token
    | NoWebsocket                              // sending or authenticating without a socket
    | SendFailed                               // the send request answered "not ok" or threw
    | SocketError                              // the socket's "error" event
    | TooManyAttempts                          // no reconnect after the fifth attempt
    | SocketClosed                             // a close with code 1000
    | ErrorFrame                               // a frame of type "error"
    | BadFrame                                 // a frame that is not JSON, or whose handling threw
    | NoRequestForId(id: string)               // a data frame with an unknown id
    | NoServerForId(identifier: string)        // a data frame for a removed server
    | ServerUnavailable                        // the AioRpc "StatusCode.UNAVAILABLE" error
    | PayloadError(message: string)            // the first error of a data frame
    | AddFailed                                // a failed subscription send
    | NoServerId(identifier: string)           // addServer found no server id
    | NoCurrentState(identifier: string)       // addServer found no service state

  datatype Event =
    | Message(message: string)
    | PlayerListUpdate(players: seq<string>, joined: seq<string>, left: seq<string>)
    | QuickChat(kind: ChatKind, ign: string, message: string)
    | PlayerJoined(ign: string)
    | PlayerLeft(ign: string)
    | PlayerKill(victim: KillPlayer, killer: KillPlayer)
    | PlayerSuicide(ign: string)
    | PlayerRespawned(ign: string, platform: Platform)
    | PlayerRoleAdd(ign: string, role: string)
    | NoteEdit(ign: string, oldContent: string, newContent: string)
    | EventStart(event: string, special: bool)
    | ItemSpawn(ign: string, item: string, quantity: Number)
    | VendingMachineName(ign: string, oldName: string, newName: string)
    | TeamCreate(owner: string, id: nat)
    | TeamJoin(ign: string, owner: string, id: nat)
    | TeamLeave(ign: string, owner: string, id: nat)
    | KitSpawn(ign: string, kit: string)
    | KitGive(admin: string, ign: string, kit: string)
    | SpecialEventStart(event: string)
    | SpecialEventEnd
    | ExecutingCommand(command: string)
    | FrequencyReceived(frequency: nat, coordinates: Coordinates, range: nat)
    | FrequencyLost(frequency: nat)
    | CustomZoneAdded(name: string)
    | ServiceState(state: string)
    | Error(failure: Failure)

  /** An event together with the identifier of the server it was emitted for, if any. */
  datatype Emitted = Emitted(server: Option<string>, event: Event)

  /** One entry of the `EVENTS` table: a key looked for in `[event]` lines. */
  datatype EventInfo = EventInfo(key: string, name: string, special: bool)
}
