/**
 * The Telnet parser of ui/control/telnet.js as an automaton over single bytes: what it shows,
 * replies and remembers, whatever the pieces its input arrives in. Commands and options are
 * those of RFC 854, section "TELNET COMMAND STRUCTURE".
 */
module TelnetSpec {
  import opened Bytes

  const SE: Byte := 240
  const GO_AHEAD: Byte := 249
  const SB: Byte := 250
  const WILL: Byte := 251
  const WONT: Byte := 252
  const DO: Byte := 253
  const DONT: Byte := 254
  const IAC: Byte := 255

  const OPT_ECHO: Byte := 1
  const OPT_SUPPRESS_GO_AHEAD: Byte := 3
  const OPT_TERMINAL_TYPE: Byte := 24
  const OPT_NAWS: Byte := 31

  const TERMINAL_TYPE_SEND: Byte := 1

  /** IS, then XTERM. */
  const TERMINAL_TYPE_REPLY: seq<Byte> := [0, 88, 84, 69, 82, 77]

  type Word16 = w: int | 0 <= w < 0x1_0000

  /**
   * Where the parser stands: in data, after IAC, before the option of a negotiation, inside a
   * subnegotiation (`reply`: the terminal type was asked for), at the action byte of a terminal
   * type request, after an IAC inside a subnegotiation, or stopped by an unknown command.
   */
  datatype Mode =
    | Data
    | Command
    | Option(command: Byte)
    | Sub(reply: bool)
    | SubAction
    | SubCommand(reply: bool)
    | Halted

  /** One effect of the parser: a byte shown, bytes sent back, or local echo switched. */
  datatype Output = Shown(b: Byte) | Sent(bytes: seq<Byte>) | LocalEcho(on: bool)

  /** One step of input: a byte from the server, or the user's terminal taking a new size. */
  datatype Item = Octet(b: Byte) | Resize(cols: Word16, rows: Word16)

  datatype State = State(
    mode: Mode,
    echoEnabled: bool,
    suppressGoAhead: bool,
    nawsAccepted: bool,
    cols: Word16,
    rows: Word16,
    out: seq<Output>)
  {
    function Go(m: Mode): State { this.(mode := m) }

    function Emit(o: Output): State { this.(out := out + [o]) }
  }

  /** A new parser in a new control: data mode, nothing negotiated, the largest window. */
  const START := State(Data, false, false, false, 65535, 65535, [])

  function Nego(command: Byte, option: Byte): Output { Sent([IAC, command, option]) }

  function SubNego(data: seq<Byte>, option: Byte): Output {
    Sent([IAC, SB, option] + data + [IAC, SE])
  }

  function WindowSize(cols: Word16, rows: Word16): seq<Byte> {
    [cols / 256, cols % 256, rows / 256, rows % 256]
  }

  /** sendDeny */
  function Deny(st: State, command: Byte, option: Byte): State {
    if command == DO then st.Emit(Nego(WONT, option))
    else if command == WILL || command == WONT then st.Emit(Nego(DONT, option))
    else st
  }

  /** The reply of handleOption: only when the option's known value changes. */
  function Acknowledge(st: State, command: Byte, option: Byte, known: bool): State {
    if command == WILL && !known then st.Emit(Nego(DO, option))
    else if command == WONT && known then st.Emit(Nego(DONT, option))
    else if command == DO && !known then st.Emit(Nego(WILL, option))
    else if command == DONT && known then st.Emit(Nego(WONT, option))
    else st
  }

  predicate IsNegotiation(command: Byte) {
    command in {WILL, WONT, DO, DONT}
  }

  /** A whole negotiation: command and option. */
  function Negotiate(st: State, command: Byte, option: Byte): State {
    if option == OPT_ECHO then
      Acknowledge(st, command, option, st.echoEnabled)
        .(echoEnabled := command == WILL || command == DO)
        .Emit(LocalEcho(command == WONT || command == DO))
    else if option == OPT_SUPPRESS_GO_AHEAD then
      Acknowledge(st, command, option, st.suppressGoAhead)
        .(suppressGoAhead := command == WILL || command == DO)
    else if option == OPT_NAWS && command == DO then
      if st.nawsAccepted then st.Emit(SubNego(WindowSize(st.cols, st.rows), OPT_NAWS))
      else
        st.(nawsAccepted := true)
          .Emit(Sent([IAC, WILL, OPT_NAWS, IAC, SB, OPT_NAWS] + WindowSize(st.cols, st.rows) + [IAC, SE]))
    else if option == OPT_TERMINAL_TYPE && command == DO then
      st.Emit(Nego(WILL, option))
    else
      Deny(st, command, option)
  }

  function Step(st: State, item: Item): State {
    match item
    case Resize(cols, rows) =>
      st.(cols := cols, rows := rows, nawsAccepted := true).Emit(Nego(WILL, OPT_NAWS))
    case Octet(b) =>
      match st.mode
      case Data => if b == IAC then st.Go(Command) else st.Emit(Shown(b))
      case Command =>
        if IsNegotiation(b) then st.Go(Option(b))
        else if b == IAC then st.Emit(Shown(b)).Go(Data)
        else if b == GO_AHEAD then st.Go(Data)
        else if b == SB then st.Go(Sub(false))
        else st.Go(Halted)
      case Option(command) => Negotiate(st, command, b).Go(Data)
      case Sub(reply) =>
        if b == OPT_TERMINAL_TYPE then st.Go(SubAction)
        else if b == IAC then st.Go(SubCommand(reply))
        else st
      case SubAction => st.Go(Sub(b == TERMINAL_TYPE_SEND))
      case SubCommand(reply) =>
        if b != SE then st.Go(Sub(reply))
        else if reply then st.Emit(SubNego(TERMINAL_TYPE_REPLY, OPT_TERMINAL_TYPE)).Go(Data)
        else st.Go(Data)
      case Halted => st
  }

  /** The automaton, from its start, over a whole input. */
  function Run(items: seq<Item>): State {
    if items == [] then START else Step(Run(items[..|items| - 1]), items[|items| - 1])
  }

  lemma {:induction false} RunSnoc(items: seq<Item>, item: Item)
    ensures Run(items + [item]) == Step(Run(items), item)
  {
    assert (items + [item])[..|items|] == items;
  }

  // ---------- When the parser stops reading ----------

  /** A byte that the parser knows no command for. */
  predicate Unknown(command: Byte) {
    !IsNegotiation(command) && command !in {IAC, GO_AHEAD, SB}
  }

  /** At `k` stands an unknown command: a byte the parser does not know, where it expects a command. */
  predicate StopsAt(items: seq<Item>, k: nat) {
    k < |items| && items[k].Octet? && Unknown(items[k].b) && Run(items[..k]).mode == Command
  }

  ghost predicate Stops(items: seq<Item>) {
    exists k: nat :: StopsAt(items, k)
  }

  /** What resizes are answered, whether anybody reads or not. */
  function Announced(items: seq<Item>): seq<Output> {
    if items == [] then []
    else Announced(items[..|items| - 1]) + if items[|items| - 1].Resize? then [Nego(WILL, OPT_NAWS)] else []
  }

  lemma {:induction false} StopStep(st: State, item: Item)
    ensures Step(st, item).mode == Halted
            <==> st.mode == Halted || (st.mode == Command && item.Octet? && Unknown(item.b))
  {
  }

  lemma {:induction false} StopsIn(items: seq<Item>, n: nat)
    requires |items| == n + 1
    ensures Stops(items) <==> StopsAt(items, n) || Stops(items[..n])
  {
    forall k: nat | k < n ensures StopsAt(items, k) <==> StopsAt(items[..n], k) {
      assert items[..n][..k] == items[..k] && items[..n][k] == items[k];
    }
    if k: nat :| StopsAt(items, k) {
      assert k == n || StopsAt(items[..n], k);
    }
    if k: nat :| StopsAt(items[..n], k) {
      assert StopsAt(items, k);
    }
  }

  /** The parser has stopped if and only if an unknown command stands somewhere in its input. */
  lemma {:induction false} HaltedIff(items: seq<Item>)
    ensures Run(items).mode == Halted <==> Stops(items)
  {
    if items == [] {
    } else {
      var n := |items| - 1;
      HaltedIff(items[..n]);
      StopStep(Run(items[..n]), items[n]);
      StopsIn(items, n);
    }
  }

  /** What comes after an unknown command is neither shown nor answered; only resizes still are. */
  lemma {:induction false} HaltedForGood(seen: seq<Item>, later: seq<Item>)
    requires Run(seen).mode == Halted
    ensures Run(seen + later).mode == Halted
    ensures Run(seen + later).out == Run(seen).out + Announced(later)
    decreases |later|
  {
    if later == [] {
      assert seen + later == seen;
    } else {
      var n := |later| - 1;
      HaltedForGood(seen, later[..n]);
      assert seen + later == (seen + later[..n]) + [later[n]];
      RunSnoc(seen + later[..n], later[n]);
    }
  }

  lemma {:induction false} StoppedBy(items: seq<Item>, k: nat)
    requires StopsAt(items, k)
    ensures Run(items[..k + 1]).mode == Halted && Run(items[..k + 1]).out == Run(items[..k]).out
    ensures Run(items).mode == Halted && Run(items).out == Run(items[..k]).out + Announced(items[k + 1..])
  {
    assert items[..k + 1] == items[..k] + [items[k]] && items == items[..k + 1] + items[k + 1..];
    RunSnoc(items[..k], items[k]);
    HaltedForGood(items[..k + 1], items[k + 1..]);
  }

  function Octets(bytes: seq<Byte>): (items: seq<Item>)
    ensures |items| == |bytes|
  {
    if bytes == [] then [] else [Octet(bytes[0])] + Octets(bytes[1..])
  }

  lemma {:induction false} OctetsAppend(a: seq<Byte>, b: seq<Byte>)
    ensures Octets(a + b) == Octets(a) + Octets(b)
  {
    if a == [] {
      assert a + b == b;
    } else {
      assert (a + b)[1..] == a[1..] + b;
      OctetsAppend(a[1..], b);
    }
  }

  lemma {:induction false} OctetsAt(bytes: seq<Byte>, k: nat)
    requires k < |bytes|
    ensures Octets(bytes)[k] == Octet(bytes[k])
  {
    if k == 0 {
    } else {
      OctetsAt(bytes[1..], k - 1);
    }
  }

  lemma {:induction false} NothingAnnounced(items: seq<Item>)
    requires forall k :: 0 <= k < |items| ==> items[k].Octet?
    ensures Announced(items) == []
  {
    if items == [] {
    } else {
      NothingAnnounced(items[..|items| - 1]);
    }
  }

  /** For instance: 255 and a byte that is no known command, at the start; no text after it is shown. */
  lemma {:induction false} UnknownCommandStops(b: Byte, text: seq<Byte>)
    requires Unknown(b)
    ensures Run(Octets([IAC, b] + text)).mode == Halted && Run(Octets([IAC, b] + text)).out == []
  {
    var items := Octets([IAC, b] + text);
    OctetsAt([IAC, b] + text, 0);
    OctetsAt([IAC, b] + text, 1);
    assert items[..1] == [] + [Octet(IAC)] && Run([]) == START;
    RunSnoc([], Octet(IAC));
    StoppedBy(items, 1);
    forall k | 0 <= k < |items[2..]| ensures items[2..][k].Octet? {
      OctetsAt([IAC, b] + text, k + 2);
    }
    NothingAnnounced(items[2..]);
  }

  // ---------- Escaping ----------

  /** What sendSeg sends for `x`: every IAC doubled. */
  function Escape(x: seq<Byte>): seq<Byte> {
    if x == [] then [] else EscapeByte(x[0]) + Escape(x[1..])
  }

  function CountIac(x: seq<Byte>): nat {
    if x == [] then 0 else (if x[0] == IAC then 1 else 0) + CountIac(x[1..])
  }

  function ShownAll(x: seq<Byte>): seq<Output> {
    if x == [] then [] else [Shown(x[0])] + ShownAll(x[1..])
  }

  lemma {:induction false} EscapeLength(x: seq<Byte>)
    ensures |Escape(x)| == |x| + CountIac(x)
  {
    if x == [] {
    } else {
      EscapeLength(x[1..]);
    }
  }

  lemma {:induction false} EscapedByte(before: seq<Item>, b: Byte)
    requires Run(before).mode == Data
    ensures Run(before + Octets(EscapeByte(b))) == Run(before).Emit(Shown(b))
  {
    if b == IAC {
      OctetsAppend([IAC], [IAC]);
      assert [IAC, IAC] == [IAC] + [IAC];
      assert before + Octets([IAC, IAC]) == before + [Octet(IAC)] + [Octet(IAC)];
      RunSnoc(before, Octet(IAC));
      RunSnoc(before + [Octet(IAC)], Octet(IAC));
    } else {
      assert before + Octets([b]) == before + [Octet(b)];
      RunSnoc(before, Octet(b));
    }
  }

  function EscapeByte(b: Byte): seq<Byte> {
    if b == IAC then [IAC, IAC] else [b]
  }

  lemma {:induction false} EscapeSplit(before: seq<Item>, x: seq<Byte>)
    requires x != []
    ensures before + Octets(Escape(x)) == before + Octets(EscapeByte(x[0])) + Octets(Escape(x[1..]))
  {
    OctetsAppend(EscapeByte(x[0]), Escape(x[1..]));
  }

  /**
   * Escaping and parsing undo each other: in data mode, whatever came before, the escaped bytes
   * show exactly `x`, send no reply, change no option and leave the parser in data mode.
   */
  lemma {:induction false} ParseUndoesEscape(before: seq<Item>, x: seq<Byte>)
    requires Run(before).mode == Data
    ensures Run(before + Octets(Escape(x))) == Run(before).(out := Run(before).out + ShownAll(x))
    decreases |x|
  {
    if x == [] {
      assert before + Octets(Escape(x)) == before;
    } else {
      var next := before + Octets(EscapeByte(x[0]));
      EscapedByte(before, x[0]);
      EscapeSplit(before, x);
      ParseUndoesEscape(next, x[1..]);
      ShownThen(Run(before), x);
    }
  }

  /** The first byte shown, then the rest. */
  lemma {:induction false} ShownThen(st: State, x: seq<Byte>)
    requires x != []
    ensures var one := st.Emit(Shown(x[0]));
            one.(out := one.out + ShownAll(x[1..])) == st.(out := st.out + ShownAll(x))
  {
    assert st.out + ([Shown(x[0])] + ShownAll(x[1..])) == st.out + [Shown(x[0])] + ShownAll(x[1..]);
  }

  /** From the start, the escaped bytes of `x` show exactly `x`. */
  lemma {:induction false} EscapedTextIsShown(x: seq<Byte>)
    ensures Run(Octets(Escape(x))) == START.(out := ShownAll(x))
  {
    ParseUndoesEscape([], x);
    assert [] + Octets(Escape(x)) == Octets(Escape(x));
    assert START.out + ShownAll(x) == ShownAll(x);
  }
}
