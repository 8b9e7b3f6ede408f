/** The bridge's shared state and the operations that change it or talk to a
    device: the serial read loop, one write-then-read exchange, and the POST
    handler that validates a command, sends it to every device and records
    the replies in the status history. */
module Bridge {
  import opened Messages
  import opened Validation
  import opened Serial

  /** What the port does during one exchange: whether writing the command
      succeeded, and the results of the read calls that follow. */
  datatype Exchange = Exchange(written: bool, readResults: seq<ReadResult>)

  /** The bytes one exchange yields: nothing when the write fails, otherwise
      the buffer the read loop collects, starting from the device's own
      buffer. */
  function Reply(device: Device, ex: Exchange): seq<byte> {
    if ex.written then ReadSerial(device.readBuffer, ex.readResults) else []
  }

  /** The status entries a POST records, one per device in device order.
      `link` says how each device's port answers the command it is sent;
      `decode` is JSON decoding of a reply INTO an existing status, so fields
      the reply does not set keep their previous values: the decoding target
      is shared by all devices of one POST and starts as the zero status.
      `clock` holds the successive readings of the clock. */
  function Dispatch(
    devices: seq<Device>,
    command: PinMessage,
    link: (Device, PinMessage) -> Exchange,
    decode: (PinMessage, seq<byte>) -> PinMessage,
    clock: seq<int>): (r: seq<StatusMessage>)
    requires |clock| >= |devices|
    ensures |r| == |devices|
    ensures forall i :: 0 <= i < |r| ==> r[i].time == clock[i]
  {
    if devices == [] then []
    else
      var n := |devices| - 1;
      var prior := Dispatch(devices[..n], command, link, decode, clock);
      var previous := if n == 0 then ZeroPin else prior[n - 1].data;
      var device := devices[n];
      prior + [StatusMessage(decode(previous, Reply(device, link(device, command))), clock[n])]
  }

  /** Dispatching to the first `m` devices records the first `m` entries of
      dispatching to all of them. */
  lemma {:induction false} DispatchPrefix(
    devices: seq<Device>, command: PinMessage, link: (Device, PinMessage) -> Exchange,
    decode: (PinMessage, seq<byte>) -> PinMessage, clock: seq<int>, m: nat)
    requires |clock| >= |devices| && m <= |devices|
    ensures Dispatch(devices[..m], command, link, decode, clock)
         == Dispatch(devices, command, link, decode, clock)[..m]
    decreases |devices|
  {
    if m < |devices| {
      var n := |devices| - 1;
      DispatchPrefix(devices[..n], command, link, decode, clock, m);
      assert devices[..n][..m] == devices[..m];
    } else {
      assert devices[..m] == devices;
    }
  }

  /** Entry `i` of a dispatch is the reply of device `i`, decoded over the
      status decoded for device `i - 1` (the zero status for the first
      device), stamped with the `i`-th clock reading. */
  lemma DispatchAt(
    devices: seq<Device>, command: PinMessage, link: (Device, PinMessage) -> Exchange,
    decode: (PinMessage, seq<byte>) -> PinMessage, clock: seq<int>, i: nat)
    requires |clock| >= |devices| && i < |devices|
    ensures var r := Dispatch(devices, command, link, decode, clock);
      var previous := if i == 0 then ZeroPin else r[i - 1].data;
      r[i] == StatusMessage(decode(previous, Reply(devices[i], link(devices[i], command))), clock[i])
  {
    DispatchPrefix(devices, command, link, decode, clock, i + 1);
    var r := Dispatch(devices, command, link, decode, clock);
    var prefix := Dispatch(devices[..i + 1], command, link, decode, clock);
    assert devices[..i + 1][..i] == devices[..i];
    if i > 0 {
      DispatchPrefix(devices, command, link, decode, clock, i);
      assert prefix[i - 1] == r[i - 1];
    }
  }

  /** When a device's write fails its reply is empty, and decoding an empty
      reply fails without touching the target; the entry recorded for that
      device then repeats the previous device's status. */
  lemma FailedWriteRepeatsPreviousStatus(
    devices: seq<Device>, command: PinMessage, link: (Device, PinMessage) -> Exchange,
    decode: (PinMessage, seq<byte>) -> PinMessage, clock: seq<int>, i: nat)
    requires |clock| >= |devices| && 0 < i < |devices|
    requires !link(devices[i], command).written
    requires forall p :: decode(p, []) == p
    ensures Dispatch(devices, command, link, decode, clock)[i].data
         == Dispatch(devices, command, link, decode, clock)[i - 1].data
  {
    DispatchAt(devices, command, link, decode, clock, i);
  }

  /** The process-wide state of the bridge. */
  class State {
    /** The devices the handlers iterate over, given at construction. */
    var devices: seq<Device>
    /** Every status recorded so far, oldest first; nothing is ever evicted. */
    var messageHistory: seq<StatusMessage>

    constructor (devices: seq<Device>)
      ensures this.devices == devices && messageHistory == []
    {
      this.devices := devices;
      messageHistory := [];
    }

    /** Reads from the port in chunks of at most eight bytes, appending each
        chunk to a copy of the device's buffer, until a read fails, a chunk
        holds a newline, or sixteen chunks have been read; returns the
        buffer. The device is a copy, so nothing persists. */
    method ReadFromSerial(device: Device, port: seq<ReadResult>) returns (readBuffer: seq<byte>)
      ensures readBuffer == ReadSerial(device.readBuffer, port)
    {
      var readCount := 0;
      readBuffer := device.readBuffer;
      while true
        invariant readCount < MaxReads && readCount <= |port|
        invariant ScanFrom(port, readCount) == ReadCount(port)
        invariant readBuffer == device.readBuffer + Flatten(port[..readCount])
        decreases MaxReads - readCount
      {
        // Every earlier read of this loop succeeded, so this is the port's
        // read call number readCount.
        var result := ReadAt(port, readCount);
        if result.ReadError? {
          break;
        }
        assert port[..readCount + 1] == port[..readCount] + [port[readCount]];
        FlattenSnoc(port[..readCount], port[readCount]);
        readCount := readCount + 1;
        readBuffer := readBuffer + result.data;
        if Newline in result.data {
          break;
        } else if readCount > 15 {
          break;
        }
      }
    }

    /** Writes the command to the device's port and reads its reply; an
        empty reply when the write fails. */
    method PassToSerial(device: Device, message: PinMessage, link: (Device, PinMessage) -> Exchange)
      returns (reply: seq<byte>)
      ensures reply == Reply(device, link(device, message))
    {
      var exchange := link(device, message);
      if !exchange.written {
        return [];
      }
      reply := ReadFromSerial(device, exchange.readResults);
    }

    /** The POST handler: validates the command, then sends it to every
        device in order, decodes each reply and appends one status per
        device to the history, answering with those statuses. With no
        device it answers with a single status carrying the parse-failure
        error and leaves the history alone. */
    method Post(
      message: PinMessage,
      link: (Device, PinMessage) -> Exchange,
      decode: (PinMessage, seq<byte>) -> PinMessage,
      clock: seq<int>) returns (responses: seq<StatusMessage>)
      requires |clock| == if |devices| == 0 then 1 else |devices|
      modifies this
      ensures devices == old(devices)
      ensures |devices| > 0 ==>
        && responses == Dispatch(devices, Validate(message), link, decode, clock)
        && messageHistory == old(messageHistory) + responses
      ensures |devices| == 0 ==>
        && responses == [StatusMessage(ZeroPin.(error := ParseFailure), clock[0])]
        && messageHistory == old(messageHistory)
    {
      var command := Validate(message);
      var pinMessage := ZeroPin;
      if |devices| > 0 {
        responses := [];
        for i := 0 to |devices|
          invariant devices == old(devices)
          invariant responses == Dispatch(devices[..i], command, link, decode, clock)
          invariant pinMessage == if i == 0 then ZeroPin else responses[i - 1].data
          invariant messageHistory == old(messageHistory) + responses
        {
          var device := devices[i];
          var reply := PassToSerial(device, command, link);
          pinMessage := decode(pinMessage, reply);
          var response := StatusMessage(pinMessage, clock[i]);
          messageHistory := messageHistory + [response];
          assert devices[..i + 1][..i] == devices[..i];
          responses := responses + [response];
        }
        assert devices[..|devices|] == devices;
      } else {
        pinMessage := pinMessage.(error := ParseFailure);
        responses := [StatusMessage(pinMessage, clock[0])];
      }
    }
  }
}
