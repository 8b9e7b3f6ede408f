/** The records the bridge passes around: pin commands and statuses, the
    status history entries, and the serial devices it has found. */
module Messages {

  /** One byte on the serial link. */
  newtype byte = b: int | 0 <= b < 256

  /** The frame terminator the device sends after each JSON status. */
  const Newline: byte := 10

  /** A pin command as posted by a caller, and a pin status as decoded from
      the device (the same record serves both directions). The integer fields
      are Go `int`s; nothing bounds them until validation. */
  datatype PinMessage = PinMessage(
    device: string,
    active: int,
    number: int,
    isAnalog: int,
    isOutput: int,
    current: int,
    target: int,
    velocity: int,
    error: string)

  /** Go's zero value of PinMessage: what a freshly declared variable holds. */
  const ZeroPin := PinMessage("", 0, 0, 0, 0, 0, 0, 0, "")

  /** The error text of the status synthesised when no device is attached. */
  const ParseFailure := "Failed to parse serial stream."

  /** One entry of the status history: a decoded status and the Unix time at
      which it was recorded. */
  datatype StatusMessage = StatusMessage(data: PinMessage, time: int)

  /** A serial device as the bridge keeps it. The open port handle is not a
      value here: every exchange with the port is supplied as an input. */
  datatype Device = Device(
    name: string,
    baud: int,
    connected: bool,
    readBuffer: seq<byte>)
}
