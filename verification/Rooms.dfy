/** Names shared by all models.

    Room, peer and session ids are UUIDs in the program; only equality is ever used on
    them, so they are numbers here. A room id is the id of the session it belongs to.
 */
module Rooms {
  type RoomId = nat
  type PeerId = nat

  /** The two roles that the WebSocket endpoint admits. */
  datatype Role = Agent | Phone

  datatype Option<+T> = None | Some(value: T)

  datatype Result<+T, +E> = Ok(value: T) | Err(error: E)

  type Time = real

  /** How a request to a store ends: it may fail, and a failed one may or may not have been applied. */
  datatype Outcome = Done | Failed(applied: bool)

  /** Token times are whole seconds, rounded down. */
  function Seconds(t: Time): Time {
    t.Floor as real
  }

  function Opposite(r: Role): Role {
    if r == Agent then Phone else Agent
  }
}
