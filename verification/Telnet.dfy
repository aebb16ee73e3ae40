/**
 * The Telnet parser and the escaping sender in the form of the source: ui/control/telnet.js on
 * the readers of ui/stream/reader.js, proved against the byte automaton of TelnetSpec.
 */
module Telnet {
  import opened Bytes
  import opened Spec = TelnetSpec

  /**
   * What happens around a waiting parser: a buffer becomes available to read, or the user's
   * terminal changes size. Both happen only while the parser waits for bytes.
   */
  datatype Input = Feed(bytes: seq<Byte>) | UserResize(cols: Word16, rows: Word16)

  function Brings(input: Input): seq<Item> {
    match input
    case Feed(bytes) => Octets(bytes)
    case UserResize(cols, rows) => [Resize(cols, rows)]
  }

  function ItemsOf(inputs: seq<Input>): seq<Item> {
    if inputs == [] then [] else Brings(inputs[0]) + ItemsOf(inputs[1..])
  }

  lemma {:induction false} NextInput(seen: seq<Item>, inputs: seq<Input>)
    requires inputs != []
    ensures seen + ([] + ItemsOf(inputs)) == seen + (Brings(inputs[0]) + ItemsOf(inputs[1..]))
    ensures seen + ([] + ItemsOf(inputs)) == seen + Brings(inputs[0]) + ([] + ItemsOf(inputs[1..]))
  {
    assert [] + ItemsOf(inputs) == ItemsOf(inputs) && [] + ItemsOf(inputs[1..]) == ItemsOf(inputs[1..]);
    Assoc(seen, Brings(inputs[0]), ItemsOf(inputs[1..]));
  }

  function Feeds(chunks: seq<seq<Byte>>): seq<Input> {
    if chunks == [] then [] else [Feed(chunks[0])] + Feeds(chunks[1..])
  }

  /** Without resizes only the concatenation of the chunks counts. */
  lemma {:induction false} ChunksDoNotMatter(chunks: seq<seq<Byte>>)
    ensures ItemsOf(Feeds(chunks)) == Octets(Flatten(chunks))
  {
    if chunks == [] {
    } else {
      OctetsAppend(chunks[0], Flatten(chunks[1..]));
      ChunksDoNotMatter(chunks[1..]);
    }
  }

  /** Escaped text fed in any pieces is shown as it was, with no reply and nothing negotiated. */
  lemma {:induction false} EscapedTextSurvivesChunking(x: seq<Byte>, chunks: seq<seq<Byte>>)
    requires Flatten(chunks) == Escape(x)
    ensures Spec.Run(ItemsOf(Feeds(chunks))) == START.(out := ShownAll(x))
  {
    ChunksDoNotMatter(chunks);
    EscapedTextIsShown(x);
  }

  lemma {:induction false} OctetsOneByOne(seen: seq<Item>, x: seq<Byte>)
    requires x != []
    ensures seen + Octets(x) == seen + [Octet(x[0])] + Octets(x[1..])
  {
  }

  /** Text up to an IAC, item by item. */
  lemma {:induction false} TextThenIac(seen: seq<Item>, text: seq<Byte>, rest: seq<Item>)
    ensures seen + Octets(text + [IAC]) + rest == seen + Octets(text) + [Octet(IAC)] + rest
  {
    OctetsAppend(text, [IAC]);
    assert Octets([IAC]) == [Octet(IAC)];
  }

  /** Reading `n` bytes of a buffer, item by item. */
  lemma {:induction false} TakeApart(seen: seq<Item>, buffer: seq<Byte>, n: nat, later: seq<Item>)
    requires n <= |buffer|
    ensures seen + Octets(buffer[..n]) + (Octets(buffer[n..]) + later) == seen + (Octets(buffer) + later)
    ensures buffer[..n] + buffer[n..] == buffer
  {
    OctetsAppend(buffer[..n], buffer[n..]);
    assert buffer == buffer[..n] + buffer[n..];
  }

  lemma {:induction false} PlainStep(seen: seq<Item>, b: Byte)
    requires Spec.Run(seen).mode == Data && b != IAC
    ensures Spec.Run(seen + [Octet(b)]) == Spec.Run(seen).Emit(Shown(b))
  {
    RunSnoc(seen, Octet(b));
  }

  /** Bytes without IAC, in data mode, are shown as they are. */
  lemma {:induction false} PlainRun(seen: seq<Item>, x: seq<Byte>)
    requires Spec.Run(seen).mode == Data && IAC !in x
    ensures Spec.Run(seen + Octets(x)) == Spec.Run(seen).(out := Spec.Run(seen).out + ShownAll(x))
    decreases |x|
  {
    if x == [] {
      assert seen + Octets(x) == seen;
    } else {
      PlainStep(seen, x[0]);
      OctetsOneByOne(seen, x);
      assert x[0] != IAC && IAC !in x[1..];
      PlainRun(seen + [Octet(x[0])], x[1..]);
      ShownThen(Spec.Run(seen), x);
    }
  }

  /** A stopped parser answers resizes and nothing else. */
  lemma {:induction false} HaltedRun(seen: seq<Item>, x: seq<Byte>)
    requires Spec.Run(seen).mode == Halted
    ensures Spec.Run(seen + Octets(x)) == Spec.Run(seen)
    decreases |x|
  {
    if x == [] {
      assert seen + Octets(x) == seen;
    } else {
      RunSnoc(seen, Octet(x[0]));
      assert seen + Octets(x) == seen + [Octet(x[0])] + Octets(x[1..]);
      HaltedRun(seen + [Octet(x[0])], x[1..]);
    }
  }

  class Parser {
    var inputs: seq<Input>
    /** What the reader fed last still holds. */
    var current: seq<Byte>
    var echoEnabled: bool
    var suppressGoAhead: bool
    var nawsAccepted: bool
    var cols: Word16
    var rows: Word16
    var out: seq<Output>

    /** What was acted on so far, and where that leaves the automaton. */
    ghost var seen: seq<Item>
    ghost var mode: Mode

    ghost function Abs(): Spec.State
      reads this
    {
      Spec.State(mode, echoEnabled, suppressGoAhead, nawsAccepted, cols, rows, out)
    }

    /** Fed buffers are never empty, and all that was seen has had its effect. */
    ghost predicate Valid()
      reads this
    {
      (forall k :: 0 <= k < |inputs| && inputs[k].Feed? ==> inputs[k].bytes != [])
      && Spec.Run(seen) == Abs()
    }

    ghost function Rest(): seq<Item>
      reads this
    {
      Octets(current) + ItemsOf(inputs)
    }

    /** What was acted on and what is still to come: never changes. */
    ghost function All(): seq<Item>
      reads this
    {
      seen + Rest()
    }

    constructor (inputs: seq<Input>)
      requires forall k :: 0 <= k < |inputs| && inputs[k].Feed? ==> inputs[k].bytes != []
      ensures Valid() && Abs() == START && seen == [] && Rest() == ItemsOf(inputs)
    {
      this.inputs, current := inputs, [];
      echoEnabled, suppressGoAhead, nawsAccepted := false, false, false;
      cols, rows, out := 65535, 65535, [];
      seen, mode := [], Data;
    }

    /** The effect of `item` is in the fields now. */
    ghost method Saw(item: Item, m: Mode)
      requires forall k :: 0 <= k < |inputs| && inputs[k].Feed? ==> inputs[k].bytes != []
      requires Spec.Step(Spec.Run(seen), item) == Abs().(mode := m)
      modifies this`seen, this`mode
      ensures Valid() && mode == m && seen == old(seen) + [item]
    {
      RunSnoc(seen, item);
      seen, mode := seen + [item], m;
    }

    ghost method Consume(b: Byte, m: Mode)
      requires forall k :: 0 <= k < |inputs| && inputs[k].Feed? ==> inputs[k].bytes != []
      requires Spec.Step(Spec.Run(seen), Octet(b)) == Abs().(mode := m)
      modifies this`seen, this`mode
      ensures Valid() && mode == m && seen == old(seen) + [Octet(b)]
    {
      Saw(Octet(b), m);
    }

    /** Control.resize and requestWindowResize. */
    method TakeResize(cols: Word16, rows: Word16)
      requires Valid()
      modifies this
      ensures Valid() && seen == old(seen) + [Resize(cols, rows)] && mode == old(mode)
      ensures inputs == old(inputs) && current == old(current)
    {
      ghost var st := Abs();
      this.cols, this.rows := cols, rows;
      nawsAccepted := true;
      SendNego(WILL, OPT_NAWS);
      assert Abs() == Spec.Step(st, Resize(cols, rows));
      Saw(Resize(cols, rows), mode);
    }

    method SendNego(command: Byte, option: Byte)
      modifies this`out
      ensures out == old(out) + [Nego(command, option)]
    {
      out := out + [Sent([IAC, command, option])];
    }

    /** Waits until a buffer is there to read; false when the reader is closed instead. */
    method AwaitBuffer() returns (open: bool)
      requires Valid()
      modifies this
      ensures Valid() && mode == old(mode) && All() == old(All()) && |old(seen)| <= |seen|
      ensures if open then current != [] else Rest() == [] && seen == old(All())
      ensures old(current) != [] ==> open && current == old(current) && seen == old(seen) && inputs == old(inputs)
    {
      ghost var all := All();
      while current == []
        invariant Valid() && mode == old(mode) && All() == all && |old(seen)| <= |seen|
        invariant old(current) != [] ==> current == old(current) && seen == old(seen) && inputs == old(inputs)
        decreases |inputs|
      {
        if inputs == [] {
          return false;
        }
        NextInput(seen, inputs);
        var next := inputs[0];
        inputs := inputs[1..];
        match next
        case Feed(bytes) => current := bytes;
        case UserResize(cols, rows) => TakeResize(cols, rows);
      }
      open := true;
    }

    /** What may come while the parser goes through an await without waiting: the next buffer. */
    method Meanwhile()
      requires Valid()
      modifies this
      ensures Valid() && mode == old(mode) && seen == old(seen) && Rest() == old(Rest())
      ensures old(current) != [] ==> current == old(current) && inputs == old(inputs)
    {
      if * {
        if current == [] && inputs != [] && inputs[0].Feed? {
          current, inputs := inputs[0].bytes, inputs[1..];
        }
      }
    }

    /** Multiple.export: waits for a buffer when there is none, and takes at most `n` bytes of it. */
    method Export(n: nat) returns (d: Option<seq<Byte>>)
      requires Valid() && n > 0
      modifies this
      ensures |old(seen)| <= |seen|
      ensures Valid() && mode == old(mode)
      ensures d.None? ==> Rest() == [] && seen == old(All())
      ensures d.Some? ==> 1 <= |d.value| <= n && seen + Octets(d.value) + Rest() == old(All())
      ensures old(current) != [] ==>
                d.Some? && |d.value| == Min(n, old(|current|)) && seen == old(seen)
                && d.value + current == old(current) && inputs == old(inputs)
    {
      var open := AwaitBuffer();
      if !open {
        return None;
      }
      var take := Min(n, |current|);
      d := Some(current[..take]);
      TakeApart(seen, current, take, ItemsOf(inputs));
      current := current[take..];
    }

    /** readOne */
    method ReadOne() returns (d: Option<Byte>)
      requires Valid()
      modifies this
      ensures |old(seen)| <= |seen|
      ensures Valid() && mode == old(mode)
      ensures d.None? ==> Rest() == [] && seen == old(All())
      ensures d.Some? ==> seen + [Octet(d.value)] + Rest() == old(All())
    {
      var e := Export(1);
      if e.None? {
        return None;
      }
      assert Octets(e.value) == [Octet(e.value[0])];
      d := Some(e.value[0]);
    }

    /** readN, for bytes that are buffered already */
    method ReadBuffered(n: nat) returns (d: seq<Byte>)
      requires Valid() && 0 < n <= |current|
      modifies this
      ensures Valid() && mode == old(mode) && seen == old(seen)
      ensures d == old(current)[..n] && seen + Octets(d) + Rest() == old(All())
    {
      var e := Export(n);
      d := e.value;
    }

    /** Multiple.indexOf */
    method IndexOf(b: Byte) returns (pos: int)
      ensures -1 <= pos < |current|
      ensures pos >= 0 ==> current[pos] == b && b !in current[..pos]
      ensures pos == -1 ==> b !in current
    {
      pos := 0;
      while pos < |current|
        invariant 0 <= pos <= |current| && b !in current[..pos]
      {
        if current[pos] == b {
          return;
        }
        pos := pos + 1;
      }
      pos := -1;
    }

    /** readN up to the first IAC, which a search found in the current buffer. */
    method ReadThrough(pos: nat) returns (d: seq<Byte>)
      requires Valid() && pos < |current| && current[pos] == IAC && IAC !in current[..pos]
      modifies this
      ensures Valid() && mode == old(mode) && seen == old(seen)
      ensures seen + Octets(d) + Rest() == old(All())
      ensures d != [] && d[|d| - 1] == IAC && IAC !in d[..|d| - 1]
    {
      ghost var before := current;
      d := ReadBuffered(pos + 1);
      assert d[..|d| - 1] == before[..pos];
    }

    /** readUntil, for IAC: the first search may have met no buffer where the count of bytes finds one. */
    method ReadUntilIac() returns (d: Option<seq<Byte>>, found: bool)
      requires Valid()
      modifies this
      ensures |old(seen)| <= |seen|
      ensures Valid() && mode == old(mode)
      ensures d.None? ==> Rest() == [] && seen == old(All())
      ensures d.Some? ==> d.value != [] && seen + Octets(d.value) + Rest() == old(All())
      ensures d.Some? && !found ==> IAC !in d.value
      ensures d.Some? && found ==> d.value[|d.value| - 1] == IAC && IAC !in d.value[..|d.value| - 1]
    {
      var pos := IndexOf(IAC);
      Meanwhile();
      var buffered := |current|;
      if pos >= 0 {
        var e := ReadThrough(pos);
        return Some(e), true;
      }
      if buffered <= 0 {
        var e := ReadOne();
        if e.None? {
          return None, false;
        }
        assert Octets([e.value]) == [Octet(e.value)];
        return Some([e.value]), e.value == IAC;
      }
      pos := IndexOf(IAC);
      if pos >= 0 {
        var e := ReadThrough(pos);
        return Some(e), true;
      }
      assert current[..buffered] == current;
      var e := ReadBuffered(buffered);
      return Some(e), false;
    }

    /** flusher */
    method Flush(data: seq<Byte>)
      requires Valid() && mode == Data && IAC !in data
      modifies this`out, this`seen
      ensures Valid() && seen == old(seen) + Octets(data)
    {
      PlainRun(seen, data);
      out := out + ShownAll(data);
      seen := seen + Octets(data);
    }

    method SendDeny(command: Byte, option: Byte)
      modifies this`out
      ensures Abs() == Deny(old(Abs()), command, option)
    {
      if command == DO {
        SendNego(WONT, option);
      } else if command == WILL || command == WONT {
        SendNego(DONT, option);
      }
    }

    method SendSubNego(data: seq<Byte>, option: Byte)
      modifies this`out
      ensures out == old(out) + [SubNego(data, option)]
    {
      out := out + [Sent([IAC, SB, option] + data + [IAC, SE])];
    }

    /** The replying half of handleOption. */
    method HandleOption(command: Byte, option: Byte, known: bool)
      modifies this`out
      ensures Abs() == Acknowledge(old(Abs()), command, option, known)
    {
      if command == WILL {
        if !known { SendNego(DO, option); }
      } else if command == WONT {
        if known { SendNego(DONT, option); }
      } else if command == DO {
        if !known { SendNego(WILL, option); }
      } else if command == DONT {
        if known { SendNego(WONT, option); }
      }
    }

    /** The part of handleCmd after the option byte. */
    method HandleNegotiation(command: Byte, option: Byte)
      requires IsNegotiation(command)
      modifies this`out, this`echoEnabled, this`suppressGoAhead, this`nawsAccepted
      ensures Abs() == Negotiate(old(Abs()), command, option)
    {
      if option == OPT_ECHO {
        HandleOption(command, option, echoEnabled);
        echoEnabled := command == WILL || command == DO;
        out := out + [LocalEcho(command == WONT || command == DO)];
      } else if option == OPT_SUPPRESS_GO_AHEAD {
        HandleOption(command, option, suppressGoAhead);
        suppressGoAhead := command == WILL || command == DO;
      } else if option == OPT_NAWS {
        if command != DO {
          SendDeny(command, option);
        } else if nawsAccepted {
          SendSubNego(WindowSize(cols, rows), OPT_NAWS);
        } else {
          nawsAccepted := true;
          out := out + [Sent([IAC, WILL, OPT_NAWS, IAC, SB, OPT_NAWS] + WindowSize(cols, rows) + [IAC, SE])];
        }
      } else if option == OPT_TERMINAL_TYPE {
        if command != DO {
          SendDeny(command, option);
        } else {
          SendNego(WILL, option);
        }
      } else {
        SendDeny(command, option);
      }
    }

    /** The byte after the terminal type option: `asked` when it asks for the type. */
    method SubNegoAction(reply: bool) returns (open: bool, asked: bool)
      requires Valid() && mode == SubAction
      modifies this
      ensures Valid() && All() == old(All()) && |old(seen)| <= |seen|
      ensures if open then mode == Sub(asked) else Rest() == []
    {
      var action := ReadOne();
      if action.None? { return false, reply; }
      asked := action.value == TERMINAL_TYPE_SEND;
      Consume(action.value, Sub(asked));
      open := true;
    }

    /** The byte after an IAC: `done` at SE, with the reply that is due. */
    method SubNegoCommand(reply: bool) returns (open: bool, done: bool)
      requires Valid() && mode == SubCommand(reply)
      modifies this
      ensures Valid() && All() == old(All()) && |old(seen)| <= |seen|
      ensures if open then mode == if done then Data else Sub(reply) else Rest() == []
    {
      var e := ReadOne();
      if e.None? { return false, false; }
      if e.value != SE {
        Consume(e.value, Sub(reply));
        return true, false;
      }
      if reply {
        SendSubNego(TERMINAL_TYPE_REPLY, OPT_TERMINAL_TYPE);
      }
      Consume(e.value, Data);
      return true, true;
    }

    /**
     * One round of handleSubNego: `open` is false when the reader closes first, `done` is true
     * at IAC SE, and `asked` says whether a reply is due at the end.
     */
    method SubNegoRound(reply: bool) returns (open: bool, done: bool, asked: bool)
      requires Valid() && mode == Sub(reply)
      modifies this
      ensures Valid() && All() == old(All())
      ensures !open ==> Rest() == []
      ensures open ==> |old(seen)| < |seen| && mode == if done then Data else Sub(asked)
    {
      done, asked := false, reply;
      var d := ReadOne();
      if d.None? { return false, false, reply; }
      if d.value == OPT_TERMINAL_TYPE {
        Consume(d.value, SubAction);
        open, asked := SubNegoAction(reply);
      } else if d.value != IAC {
        Consume(d.value, Sub(reply));
        open := true;
      } else {
        Consume(d.value, SubCommand(reply));
        open, done := SubNegoCommand(reply);
      }
    }

    /** Reads up to IAC SE; false when the reader closes first. */
    method HandleSubNego() returns (open: bool)
      requires Valid() && mode == Sub(false)
      modifies this
      ensures Valid() && All() == old(All()) && |old(seen)| <= |seen|
      ensures if open then mode == Data else Rest() == []
    {
      open := true;
      var done, reply := false, false;
      while open && !done
        invariant Valid() && All() == old(All()) && |old(seen)| <= |seen|
        invariant if open then mode == (if done then Data else Sub(reply)) else Rest() == []
        decreases |old(All())| - |seen|, open && !done
      {
        open, done, reply := SubNegoRound(reply);
      }
    }

    /** The option byte of a negotiation, and the answer to it. */
    method NegotiateOption(command: Byte) returns (ok: bool)
      requires Valid() && IsNegotiation(command) && mode == Option(command)
      modifies this
      ensures |old(seen)| <= |seen|
      ensures Valid() && All() == old(All())
      ensures if ok then mode == Data else Rest() == []
    {
      var o := ReadOne();
      if o.None? { return false; }
      HandleNegotiation(command, o.value);
      Consume(o.value, Data);
      ok := true;
    }

    /** A doubled IAC stands for one. */
    method ShowIac()
      requires Valid() && mode == Command
      modifies this`out, this`seen, this`mode
      ensures Valid() && mode == Data && seen == old(seen) + [Octet(IAC)]
    {
      assert ShownAll([IAC]) == [Shown(IAC)];
      out := out + ShownAll([IAC]);
      Consume(IAC, Data);
    }

    /** One command after IAC; false when the reader closes or the command is unknown. */
    method HandleCmd() returns (ok: bool)
      requires Valid() && mode == Command
      modifies this
      ensures |old(seen)| <= |seen|
      ensures Valid() && All() == old(All())
      ensures if ok then mode == Data else mode == Halted || Rest() == []
    {
      var d := ReadOne();
      if d.None? { return false; }
      if d.value == IAC {
        ShowIac();
        return true;
      }
      if d.value == GO_AHEAD {
        Consume(d.value, Data);
        return true;
      }
      if d.value == SB {
        Consume(d.value, Sub(false));
        ok := HandleSubNego();
        return;
      }
      if !IsNegotiation(d.value) {
        Consume(d.value, Halted);
        return false;
      }
      Consume(d.value, Option(d.value));
      ok := NegotiateOption(d.value);
    }

    /** Text up to an IAC, and the command after it. */
    method TextThenCommand(read: seq<Byte>) returns (ok: bool)
      requires Valid() && mode == Data && |read| > 0 && read[|read| - 1] == IAC && IAC !in read[..|read| - 1]
      modifies this
      ensures Valid() && All() == old(seen + Octets(read) + Rest())
      ensures if ok then mode == Data && |old(seen)| < |seen| else mode == Halted || Rest() == []
    {
      var text := read[..|read| - 1];
      assert read == text + [IAC];
      TextThenIac(seen, text, Rest());
      if |read| > 1 {
        Flush(text);
      } else {
        assert text == [] && seen + Octets(text) == seen;
      }
      assert seen == old(seen) + Octets(text);
      Consume(IAC, Command);
      ok := HandleCmd();
    }

    /** One round of the parsing loop; false when the reader closes or a command is unknown. */
    method ParseRound() returns (ok: bool)
      requires Valid() && mode == Data
      modifies this
      ensures Valid() && All() == old(All())
      ensures if ok then mode == Data && |old(seen)| < |seen| else mode == Halted || Rest() == []
    {
      var d, found := ReadUntilIac();
      if d.None? { return false; }
      if found {
        ok := TextThenCommand(d.value);
      } else {
        Flush(d.value);
        ok := true;
      }
    }

    /** The parsing loop: reads everything, unless an unknown command stops it. */
    method Run()
      requires Valid() && mode == Data
      modifies this
      ensures Valid() && All() == old(All())
      ensures mode == Halted || Rest() == []
    {
      var ok := true;
      while ok
        invariant Valid() && All() == old(All())
        invariant if ok then mode == Data else mode == Halted || Rest() == []
        decreases ok, |old(All())| - |seen|
      {
        ok := ParseRound();
      }
    }

    /**
     * A whole session: the parsing loop, and, should it stop early, what goes on without it:
     * the terminal still announces its size, and nobody reads what is fed. It stops early exactly
     * at an unknown command, and what is fed after that is neither shown nor answered.
     */
    method Session()
      requires Valid() && mode == Data && seen == []
      modifies this
      ensures Valid() && Abs() == Spec.Run(old(Rest()))
      ensures mode == Halted <==> Stops(old(Rest()))
      ensures forall k: nat :: StopsAt(old(Rest()), k) ==>
                out == Spec.Run(old(Rest())[..k]).out + Announced(old(Rest())[k + 1..])
    {
      ghost var items := Rest();
      assert seen + Rest() == Rest();
      Run();
      assert mode != Halted ==> seen + [] == seen;
      AfterRun();
      HaltedIff(items);
      forall k: nat | StopsAt(items, k) ensures out == Spec.Run(items[..k]).out + Announced(items[k + 1..]) {
        StoppedBy(items, k);
      }
    }

    /** What the reader still holds is never read. */
    method DropCurrent()
      requires Valid() && (mode == Halted || Rest() == [])
      modifies this
      ensures Valid() && current == [] && inputs == old(inputs) && mode == old(mode) && All() == old(All())
    {
      Assoc(seen, Octets(current), ItemsOf(inputs));
      HaltedOrNothing(current);
      current := [];
      assert [] + ItemsOf(inputs) == ItemsOf(inputs);
    }

    /** What still happens around a parsing loop that has ended. */
    method AfterRun()
      requires Valid() && (mode == Halted || Rest() == [])
      modifies this
      ensures Valid() && seen == old(All())
    {
      DropCurrent();
      while inputs != []
        invariant Valid() && current == [] && All() == old(All())
        invariant mode == Halted || inputs == []
      {
        NextInput(seen, inputs);
        var next := inputs[0];
        inputs := inputs[1..];
        match next
        case Feed(bytes) => HaltedOrNothing(bytes);
        case UserResize(cols, rows) => TakeResize(cols, rows);
      }
      assert seen + ([] + []) == seen;
    }

    /** Bytes nobody reads. */
    ghost method HaltedOrNothing(bytes: seq<Byte>)
      requires Valid() && (mode == Halted || bytes == [])
      modifies this`seen
      ensures Valid() && seen == old(seen) + Octets(bytes)
    {
      if bytes == [] {
        assert seen + Octets(bytes) == seen;
      } else {
        HaltedRun(seen, bytes);
      }
      seen := seen + Octets(bytes);
    }
  }

  /** searchNextIAC */
  method SearchNextIac(start: nat, data: seq<Byte>) returns (pos: int)
    requires start <= |data|
    ensures pos == -1 || start <= pos < |data|
    ensures pos >= 0 ==> data[pos] == IAC && IAC !in data[start..pos]
    ensures pos == -1 ==> IAC !in data[start..]
  {
    pos := start;
    while pos < |data|
      invariant start <= pos <= |data| && IAC !in data[start..pos]
    {
      if data[pos] == IAC {
        return;
      }
      pos := pos + 1;
    }
    pos := -1;
  }

  lemma {:induction false} EscapePlain(x: seq<Byte>, y: seq<Byte>)
    requires IAC !in x
    ensures Escape(x + y) == x + Escape(y)
  {
    if x == [] {
      assert x + y == y;
    } else {
      assert (x + y)[1..] == x[1..] + y;
      EscapePlain(x[1..], y);
    }
  }

  lemma {:induction false} EscapeIac(y: seq<Byte>)
    ensures Escape([IAC] + y) == [IAC, IAC] + Escape(y)
  {
    assert ([IAC] + y)[1..] == y;
  }

  /** From `start` through the first IAC at `pos`, which goes out a second time. */
  lemma {:induction false} EscapeThroughIac(x: seq<Byte>, start: nat, pos: nat)
    requires start <= pos < |x| && x[pos] == IAC && IAC !in x[start..pos]
    ensures Escape(x[start..]) == x[start..pos + 1] + x[pos..pos + 1] + Escape(x[pos + 1..])
  {
    var plain, rest := x[start..pos], x[pos + 1..];
    assert x[start..] == plain + ([IAC] + rest);
    EscapePlain(plain, [IAC] + rest);
    EscapeIac(rest);
    assert x[start..pos + 1] == plain + [IAC] && x[pos..pos + 1] == [IAC];
    assert plain + ([IAC, IAC] + Escape(rest)) == plain + [IAC] + [IAC] + Escape(rest);
  }

  lemma {:induction false} AppendTwo(sent: seq<seq<Byte>>, a: seq<Byte>, b: seq<Byte>, e: seq<Byte>)
    ensures Flatten(sent + [a] + [b]) + e == Flatten(sent) + (a + b + e)
  {
    FlattenSnoc(sent, a);
    FlattenSnoc(sent + [a], b);
  }

  /** sendSeg: each call of the sender, in order; together they are the escaped bytes. */
  method SendSeg(enc: seq<Byte>) returns (sent: seq<seq<Byte>>)
    ensures Flatten(sent) == Escape(enc)
  {
    sent := [];
    var currentLen := 0;
    while currentLen < |enc|
      invariant 0 <= currentLen <= |enc|
      invariant Flatten(sent) + Escape(enc[currentLen..]) == Escape(enc)
    {
      var iacPos := SearchNextIac(currentLen, enc);
      if iacPos < 0 {
        EscapePlain(enc[currentLen..], []);
        assert enc[currentLen..] + [] == enc[currentLen..];
        FlattenSnoc(sent, enc[currentLen..]);
        sent := sent + [enc[currentLen..]];
        return;
      }
      EscapeThroughIac(enc, currentLen, iacPos);
      AppendTwo(sent, enc[currentLen..iacPos + 1], enc[iacPos..iacPos + 1], Escape(enc[iacPos + 1..]));
      sent := sent + [enc[currentLen..iacPos + 1]];
      sent := sent + [enc[iacPos..iacPos + 1]];
      currentLen := iacPos + 1;
    }
  }
}
