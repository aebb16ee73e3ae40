/** Frames on the wire, in both directions, and what they carry. */
module Frames {
  import opened Bytes
  import opened Protocol

  /** Clients send opening frames, servers send answers; all else goes both ways. */
  datatype Frame =
    | ControlFrame(message: seq<Byte>)
    | OpenFrame(slot: SlotId, command: Command, request: seq<Byte>)
    | AnswerFrame(slot: SlotId, command: Command, success: bool, data: InitialData)
    | DataFrame(slot: SlotId, marker: Marker, payload: seq<Byte>)
    | CloseFrame(slot: SlotId)
    | CompletedFrame(slot: SlotId)
  {
    /** The lengths its headers can express. */
    predicate Legal() {
      match this
      case ControlFrame(message) => 1 <= |message| <= HEADER_MAX_DATA
      case OpenFrame(_, _, request) => |request| <= INITIAL_MAX_DATA
      case DataFrame(_, _, payload) => |payload| <= STREAM_MAX_LENGTH
      case _ => true
    }

    function Head(): Byte
      requires Legal()
    {
      match this
      case ControlFrame(message) => HeaderByte(CONTROL, |message|)
      case OpenFrame(i, _, _) => HeaderByte(STREAM, i)
      case AnswerFrame(i, _, _, _) => HeaderByte(STREAM, i)
      case DataFrame(i, _, _) => HeaderByte(STREAM, i)
      case CloseFrame(i) => HeaderByte(CLOSE, i)
      case CompletedFrame(i) => HeaderByte(COMPLETED, i)
    }

    /** The bytes after the header byte. */
    function Tail(): seq<Byte>
      requires Legal()
    {
      match this
      case ControlFrame(message) => message
      case OpenFrame(_, command, request) => InitialHeader(command, |request|, true) + request
      case AnswerFrame(_, command, success, data) => InitialHeader(command, data, success)
      case DataFrame(_, marker, payload) => StreamHeader(marker, |payload|) + payload
      case _ => []
    }

    function Encode(): seq<Byte>
      requires Legal()
    {
      [Head()] + Tail()
    }

    /** What the frame carries for slot `i`. */
    function Carried(i: SlotId): seq<Byte> {
      if DataFrame? && slot == i then payload else []
    }
  }

  lemma {:induction false} EncodeThen(f: Frame, rest: seq<Byte>)
    requires f.Legal()
    ensures f.Encode() + rest == [f.Head()] + (f.Tail() + rest)
  {
  }

  /** The frames in bytes: one of header, two of sub-header where there is one, then what they carry. */
  lemma {:induction false} OnTheWire(f: Frame)
    requires f.Legal()
    ensures f.Encode()
            == match f
               case ControlFrame(message) => [|message|] + message
               case OpenFrame(i, command, request) =>
                 [64 + i, command * 16 + 8 + |request| / 256, |request| % 256] + request
               case AnswerFrame(i, command, success, data) =>
                 [64 + i, command * 16 + (if success then 8 else 0) + data / 256, data % 256]
               case DataFrame(i, marker, payload) => [64 + i, marker * 32 + |payload| / 256, |payload| % 256] + payload
               case CloseFrame(i) => [128 + i]
               case CompletedFrame(i) => [192 + i]
  {
    assert f.Encode() == [f.Head()] + f.Tail();
  }

  function EncodeAll(fs: seq<Frame>): seq<Byte>
    requires forall f <- fs :: f.Legal()
  {
    if fs == [] then [] else fs[0].Encode() + EncodeAll(fs[1..])
  }

  lemma {:induction false} EncodeFirst(fs: seq<Frame>, more: seq<Byte>)
    requires fs != [] && forall f <- fs :: f.Legal()
    ensures EncodeAll(fs) + more == fs[0].Encode() + (EncodeAll(fs[1..]) + more)
  {
  }

  /** The payload bytes of the data frames of slot `i`, in order. */
  function SentOn(fs: seq<Frame>, i: SlotId): seq<Byte> {
    if fs == [] then [] else fs[0].Carried(i) + SentOn(fs[1..], i)
  }

  /** The type and slot that the header byte of a frame is read as. */
  lemma {:induction false} HeadOf(f: Frame)
    requires f.Legal()
    ensures TypeOf(f.Head()) == match f case ControlFrame(_) => CONTROL
                                        case CloseFrame(_) => CLOSE
                                        case CompletedFrame(_) => COMPLETED
                                        case _ => STREAM
    ensures DataOf(f.Head()) == if f.ControlFrame? then |f.message| else f.slot
  {
  }

  lemma {:induction false} OpenHeader(f: Frame)
    requires f.OpenFrame? && f.Legal()
    ensures var hd := InitialHeader(f.command, |f.request|, true);
            |hd| == 2 && InitialCommand(hd[0]) == f.command && InitialDataOf(hd[0], hd[1]) == |f.request|
  {
    HeadersRoundTrip(STREAM, f.slot, 0, 0, f.command, |f.request|, true);
  }

  lemma {:induction false} AnswerHeader(f: Frame)
    requires f.AnswerFrame?
    ensures var hd := InitialHeader(f.command, f.data, f.success);
            |hd| == 2 && InitialSuccess(hd[0]) == f.success && InitialDataOf(hd[0], hd[1]) == f.data
  {
    HeadersRoundTrip(STREAM, f.slot, 0, 0, f.command, f.data, f.success);
  }

  lemma {:induction false} DataHeader(f: Frame)
    requires f.DataFrame? && f.Legal()
    ensures var hd := StreamHeader(f.marker, |f.payload|);
            |hd| == 2 && StreamMarker(hd[0]) == f.marker && StreamLength(hd[0], hd[1]) == |f.payload|
  {
    HeadersRoundTrip(STREAM, f.slot, f.marker, |f.payload|, 0, 0, true);
  }

  /** `o` is `p`, with the input going on at `rest`. */
  predicate Same<S(==)>(o: Outcome<S>, p: Outcome<S>, rest: seq<Byte>) {
    o.st == p.st && o.Next? == p.Next? && (o.Next? ==> o.rest == rest)
  }

  // ---------- What a log of events delivered ----------

  /** What `of` finds in each event of the log, joined. */
  function Collected<E>(log: seq<E>, of: E -> seq<Byte>): seq<Byte> {
    if log == [] then [] else Collected(log[..|log| - 1], of) + of(log[|log| - 1])
  }

  lemma {:induction false} CollectedSnoc<E>(log: seq<E>, e: E, of: E -> seq<Byte>)
    ensures Collected(log + [e], of) == Collected(log, of) + of(e)
  {
    assert (log + [e])[..|log|] == log;
  }

  lemma {:induction false} CollectedQuiet<E>(log: seq<E>, more: seq<E>, of: E -> seq<Byte>)
    requires forall e <- more :: of(e) == []
    ensures Collected(log + more, of) == Collected(log, of)
    decreases |more|
  {
    if more == [] {
      assert log + more == log;
    } else {
      var most, last := more[..|more| - 1], more[|more| - 1];
      assert log + more == log + most + [last];
      CollectedSnoc(log + most, last, of);
      CollectedQuiet(log, most, of);
      assert Collected(log, of) + [] == Collected(log, of);
    }
  }

  // ---------- Pieces of byte strings ----------

  lemma {:induction false} Joined(a: seq<Byte>, b: seq<Byte>, c: seq<Byte>)
    ensures a + b + c == a + (b + c)
  {
  }

  /** What one frame brought comes before anything later. */
  lemma {:induction false} PrefixGoesOn(all: seq<Byte>, a: seq<Byte>, b: seq<Byte>, c: seq<Byte>)
    requires all <= a + b + c
    ensures all <= a + (b + c)
  {
    Joined(a, b, c);
  }

  lemma {:induction false} PrefixStops(a: seq<Byte>, part: seq<Byte>, b: seq<Byte>, c: seq<Byte>)
    requires part <= b
    ensures a + part <= a + (b + c)
  {
  }
}
