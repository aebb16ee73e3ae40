/** Packet headers of the framing protocol, shared by both ends. */
module Protocol {
  import opened Bytes

  const CONTROL: Byte := 0x00
  const STREAM: Byte := 0x40
  const CLOSE: Byte := 0x80
  const COMPLETED: Byte := 0xc0

  const HEADER_MAX_DATA := 0x3f
  const STREAM_MAX_LENGTH := 0x1fff
  const INITIAL_MAX_DATA := 0x07ff

  const CONTROL_ECHO := 0
  const CONTROL_PAUSE := 1
  const CONTROL_RESUME := 2

  type SlotId = i: int | 0 <= i <= HEADER_MAX_DATA
  type Command = c: int | 0 <= c <= 0x0f
  type Marker = m: int | 0 <= m <= 0x07
  type InitialData = d: int | 0 <= d <= INITIAL_MAX_DATA

  /** Number of stream slots, on both ends. */
  const SLOTS := HEADER_MAX_DATA + 1

  /** A frame either leaves the unread rest of the input, or ends the connection. */
  datatype Outcome<S> = Next(st: S, rest: seq<Byte>) | Halt(st: S)

  /** The two high bits of a header byte. */
  function TypeOf(h: Byte): Byte { h / 64 * 64 }

  /** The six low bits: a slot number, or the length of a control message. */
  function DataOf(h: Byte): SlotId { h % 64 }

  /** The header byte of type `t` carrying `d`. */
  function HeaderByte(t: Byte, d: SlotId): Byte
    requires t % 64 == 0
  {
    t + d
  }

  /** Sub-header of a data frame: three bits of marker, thirteen of length. */
  function StreamHeader(marker: Marker, length: nat): (b: seq<Byte>)
    requires length <= STREAM_MAX_LENGTH
  {
    [marker * 32 + length / 256, length % 256]
  }

  function StreamMarker(b0: Byte): Marker { b0 / 32 }

  function StreamLength(b0: Byte, b1: Byte): (n: nat)
    ensures n <= STREAM_MAX_LENGTH
  {
    b0 % 32 * 256 + b1
  }

  /** Sub-header of an opening frame: four bits of command, a success bit, eleven of data. */
  function InitialHeader(command: Command, data: InitialData, success: bool): seq<Byte> {
    [command * 16 + (if success then 8 else 0) + data / 256, data % 256]
  }

  function InitialCommand(b0: Byte): Command { b0 / 16 }

  function InitialSuccess(b0: Byte): bool { b0 / 8 % 2 == 1 }

  function InitialDataOf(b0: Byte, b1: Byte): InitialData { b0 % 8 * 256 + b1 }

  lemma {:induction false} TypeByteRoundTrip(t: Byte, d: SlotId)
    requires t % 64 == 0
    ensures TypeOf(HeaderByte(t, d)) == t && DataOf(HeaderByte(t, d)) == d
  {
    assert t == t / 64 * 64 && (t + d) / 64 == t / 64;
  }

  lemma {:induction false} StreamHeaderRoundTrip(marker: Marker, length: nat)
    requires length <= STREAM_MAX_LENGTH
    ensures var b := StreamHeader(marker, length);
            StreamMarker(b[0]) == marker && StreamLength(b[0], b[1]) == length
  {
    var high := length / 256;
    assert high < 32 && (marker * 32 + high) / 32 == marker && (marker * 32 + high) % 32 == high;
  }

  lemma {:induction false} InitialHeaderRoundTrip(command: Command, data: InitialData, success: bool)
    ensures var b := InitialHeader(command, data, success);
            InitialCommand(b[0]) == command && InitialDataOf(b[0], b[1]) == data
            && InitialSuccess(b[0]) == success
  {
    var high, bit := data / 256, if success then 1 else 0;
    var b0 := command * 16 + bit * 8 + high;
    assert high < 8 && b0 / 8 == command * 2 + bit && b0 % 8 == high;
    assert (command * 2 + bit) / 2 == command && (command * 2 + bit) % 2 == bit;
  }

  /** Every header that can be written is read back as it was written. */
  lemma {:induction false} HeadersRoundTrip(t: Byte, d: SlotId, marker: Marker, length: nat, command: Command,
                                            data: InitialData, success: bool)
    requires t % 64 == 0 && length <= STREAM_MAX_LENGTH
    ensures TypeOf(HeaderByte(t, d)) == t && DataOf(HeaderByte(t, d)) == d
    ensures var b := StreamHeader(marker, length);
            StreamMarker(b[0]) == marker && StreamLength(b[0], b[1]) == length
    ensures var b := InitialHeader(command, data, success);
            InitialCommand(b[0]) == command && InitialDataOf(b[0], b[1]) == data
            && InitialSuccess(b[0]) == success
  {
    TypeByteRoundTrip(t, d);
    StreamHeaderRoundTrip(marker, length);
    InitialHeaderRoundTrip(command, data, success);
  }
}
