# arduino-interface: a Dafny model of the serial bridge core

The Go program `interface.go` bridges a microcontroller on a USB serial port to
an HTTP API. This project models the part of it that does not depend on the
operating system, the HTTP library or the terminal UI:

- **Command validation** (`Validation`): `checkLimits` clamps an integer into
  [0, 255]. The POST handler's validation block raises the velocity to at least 1
  and then clamps the seven numeric fields of a `PinMessage`. That block is
  lifted into the function `Validate`.
- **Device discovery** (`Discovery`): `findMicrocontroller` scans the entry
  names of `/dev` in listing order. It returns `"/dev/" + name` for the first
  name containing `tty.usbserial`, `ttyUSB` or `ttyACM`, and `""` when there is
  none. The directory listing is an input sequence of names.
- **The serial read loop** (`Serial`, `Bridge.State.ReadFromSerial`): reads of
  at most eight bytes are appended to a copy of the device's buffer. The loop
  stops after a failed read (nothing is appended), after the first chunk that
  itself holds a newline, or after sixteen chunks. The port is an input
  sequence of read results. `Serial` holds the specification the loop is proved
  against and its properties.
- **The POST handler** (`Bridge.State.Post`, `Bridge.Dispatch`): it validates
  the command and sends it to every device in order. Each reply is decoded into
  one `pinMessage` variable that all devices of the request share, and one
  `StatusMessage` per device is appended to `MessageHistory`. With no device it
  answers with one status whose error is `"Failed to parse serial stream."` and
  leaves the history alone.

Inputs stand in for the environment:
- `link` says how a device's port answers a command: whether the write
  succeeded, and the read results that follow.
- `decode` is JSON decoding into an existing status.
- `clock` holds the successive readings of `time.Now().Unix()`.

`Device` is a value type, because Go passes `Device` by value. The buffer that
`readFromSerial` fills therefore starts from the caller's `ReadBuffer` and is
returned, never stored.

The code is simpler than a bounded, synchronised bridge would be; the model follows the code:
- The history is never trimmed. `MaxStatusHistory` is configured but not
  enforced.
- With no device the history is not touched.
- A read loop that reaches its sixteen-read limit returns what it has. It does
  not discard the buffer or report a framing error.
- There is no per-device mutual exclusion and no lifecycle state machine in the
  code, so neither is modelled.

## Model

| member | source | states |
|---|---|---|
| Validation.CheckLimits | interface.go:270-278 | the result lies in [0, 255]; inputs below 0 give 0, above 255 give 255, and inputs in range are returned unchanged |
| Validation.CheckLimitsIsNearest | interface.go:270-278 | the clamped value is the point of [0, 255] closest to the input |
| Validation.CheckLimitsMonotonic | interface.go:270-278 | clamping preserves the order of its inputs |
| Validation.CheckLimitsIdempotent | interface.go:270-278 | clamping a clamped value changes nothing |
| Validation.Validate | interface.go:211-221 | after validation active, number, isAnalog, isOutput, current and target are in [0, 255] and velocity is in [1, 255]; device and error are unchanged; in-range fields keep their values and every out-of-range field goes to the nearest bound (velocity below 1 to 1) |
| Validation.ValidateFixesExactlyInRange | interface.go:211-221 | validation leaves a command unchanged if and only if all its fields are already in range |
| Validation.ValidateIdempotent | interface.go:211-221 | validating twice equals validating once |
| Validation.ValidateClampsExample | interface.go:211-221 | {pin 5, active 1, current 300, target -10, velocity 0} becomes {pin 5, active 1, current 255, target 0, velocity 1} |
| Discovery.ContainsIffOccurs | interface.go:340-342 | the recursive substring test holds exactly when the pattern occurs at some position of the name |
| Discovery.FindsAcmDevice | interface.go:340-342 | a CDC-ACM name such as ttyACM0 matches the patterns; an unrelated name does not |
| Discovery.FindMicrocontroller | interface.go:336-349 | the result is "" if and only if no entry matches a pattern; otherwise it is "/dev/" followed by a matching entry, and no earlier entry matches |
| Serial.ScanFrom | interface.go:302-327 | after i newline-free reads the loop performs between i and 16 reads in all, and never more than the port delivers |
| Serial.ReadCount | interface.go:302-327 | the loop performs at most 16 successful reads, and no more than the port delivers |
| Serial.ReadCountIsFirstStop | interface.go:302-327 | the read count is k exactly when: the first k reads all delivered bytes; none but the last held a newline; and then the next read fails, or the last chunk held a newline, or 16 reads were made. The newline test looks only at the latest chunk |
| Serial.ReadSerialContents | interface.go:303-309 | the returned buffer starts with the initial buffer and ends with the last chunk read; every counted read succeeded and there are at most 16; a stop before the limit and before any newline means the next read failed, and that read appends nothing |
| Serial.ReadSerialGrowthBounded | interface.go:301-309 | with reads of at most eight bytes, one run adds at most 128 bytes to the buffer |
| Serial.SplitFrameAssembled | interface.go:308-325 | a reply split over two reads, with the newline only in the second, is assembled whole; a newline already in the buffer does not end the loop |
| Serial.FailedReadAddsNothing | interface.go:303-307 | when the first read fails the buffer is returned unchanged |
| Bridge.Dispatch | interface.go:229-239 | a POST to k devices records exactly k entries, the i-th stamped with the i-th clock reading |
| Bridge.DispatchAt | interface.go:229-239 | entry i is device i's reply to the validated command, decoded over the status decoded for device i-1 (the zero status for the first device) |
| Bridge.FailedWriteRepeatsPreviousStatus | interface.go:223-236 | when a device's write fails, its empty reply does not decode, and the entry recorded for it repeats the previous device's status |
| Bridge.State.constructor | interface.go:151-163 | the bridge starts with the given devices and an empty history |
| Bridge.State.ReadFromSerial | interface.go:296-329 | the loop returns exactly the buffer the read specification ReadSerial gives for the device's buffer and the port |
| Bridge.State.PassToSerial | interface.go:280-290 | the reply is empty when the write fails, and otherwise is what the read loop collects |
| Bridge.State.Post | interface.go:202-248 | with devices, the answers are Dispatch of the validated command and the history grows by exactly those entries; with none, the answer is one status with the parse-failure error and the history is unchanged; the device list never changes |

## Left out

- Serial I/O (opening, writing, reading and closing the port) is not modelled. Each exchange is the input `link`: a write-succeeded flag and the sequence of read results. A read call past the end of that sequence is taken as a failed read (end of stream). A port that blocks forever is not modelled.
- Device scanning and connection (`scanForDevices`) are left out: they are operating-system calls. The `err != nil` test inside it can never be true.
- Bridge.State.constructor: the device list it takes generalises the program, in which that list is always empty. `main` never calls `scanForDevices`, so every POST takes the zero-device branch and no read goroutine starts. Even if it were called, its deferred `Close` would shut each port on return, so every later write would fail.
- Bridge.Dispatch: the `Device` record has no port handle, so two equal device records in one POST get the same reply from `link`. Equal records are the realistic multi-device case, since `scanForDevices` always stores the first matching name with the same fields. The model does not capture two equal records whose ports answer differently.
- JSON encoding and decoding are library code. The bytes written for a command are not modelled, and decoding is the input `decode`. The decode inside the read loop targets a copy of its variable, so it has no effect, and it is left out too.
- The HTTP server, the GET handler, request binding, flag parsing and the help text are left out as input/output shell. `Post` takes the already-bound command.
- The terminal UI, the chat history and the status-string formatting are left out as presentation.
- Bridge.State.ReadFromSerial: the append to the terminal UI's history box before the newline `break` is left out, and it is not harmless. Nothing ever assigns that box, so the program as written would crash on the newline path instead of returning. This assumes the UI library's `Append` writes through its receiver; that library is not part of this model. The model returns the buffer, as the loop evidently intends.
- The goroutines that run the server and a read loop per device are left out: concurrency is not modelled.
- Sensor, category and tag data (including the float current bounds) are left out: they are unused.
- History eviction is left out because the code never evicts. The history grows without bound.
- Go's 64-bit `int` is modelled as an unbounded integer. Clamping cannot overflow, and out-of-range JSON numbers fail during request binding, which is not modelled.
