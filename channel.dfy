/** The message shapes that cross the simulated link. Timestamps are abstract
    clock values (`nat`); the link itself (loss, delay, queueing) is modelled
    in PathLoss and otherwise left out. */
module Channel {

  datatype Option<+T> = None | Some(value: T)

  /** A packet: its id, the time the transmitter created it, and the time the
      base station processed it (absent until then). */
  datatype Packet = Packet(id: nat, transmitted: nat, processed: Option<nat>)

  /** What the base station sends back. Only ACK is ever produced. */
  datatype Response = ACK(id: nat) | NACK(id: nat)
}
