/**
 * What the Telnet parser of ui/control/telnet.js answers, in bytes: option negotiation and
 * subnegotiation from data mode, whatever came before.
 */
module TelnetReplies {
  import opened Bytes
  import opened TelnetSpec

  /** The verb that agrees to 251 WILL, 252 WONT, 253 DO or 254 DONT. */
  function Agreeing(command: Byte): Byte {
    if command == 251 then 253 else if command == 252 then 254 else if command == 253 then 251 else 252
  }

  /** What a refused option is answered: 253 DO with 252 WONT, 251 and 252 with 254 DONT, 254 not at all. */
  function Refusal(command: Byte, option: Byte): seq<Output> {
    if command == 253 then [Sent([255, 252, option])]
    else if command == 251 || command == 252 then [Sent([255, 254, option])]
    else []
  }

  lemma {:induction false} RunTwo(before: seq<Item>, a: Byte, b: Byte)
    ensures Run(before + Octets([a, b])) == Step(Step(Run(before), Octet(a)), Octet(b))
  {
    assert Octets([a, b]) == [Octet(a)] + Octets([b]) && Octets([b]) == [Octet(b)] + Octets([]);
    assert before + Octets([a, b]) == before + [Octet(a)] + [Octet(b)];
    RunSnoc(before, Octet(a));
    RunSnoc(before + [Octet(a)], Octet(b));
  }

  lemma {:induction false} RunThree(before: seq<Item>, a: Byte, b: Byte, d: Byte)
    ensures Run(before + Octets([a, b, d])) == Step(Step(Step(Run(before), Octet(a)), Octet(b)), Octet(d))
  {
    assert [a, b, d] == [a, b] + [d];
    OctetsAppend([a, b], [d]);
    assert Octets([d]) == [Octet(d)] + Octets([]);
    assert before + Octets([a, b, d]) == before + Octets([a, b]) + [Octet(d)];
    RunTwo(before, a, b);
    RunSnoc(before + Octets([a, b]), Octet(d));
  }

  lemma {:induction false} Negotiated(before: seq<Item>, command: Byte, option: Byte)
    requires Run(before).mode == Data && 251 <= command <= 254
    ensures Run(before + Octets([255, command, option]))
            == Negotiate(Run(before).Go(Mode.Option(command)), command, option).Go(Data)
  {
    RunThree(before, 255, command, option);
    assert Step(Run(before), Octet(255)) == Run(before).Go(Command);
    assert Step(Run(before).Go(Command), Octet(command)) == Run(before).Go(Mode.Option(command));
  }

  /**
   * ECHO (1): a command that changes the option's value is agreed to, any other is not answered;
   * local echo is on after WONT and DO.
   */
  lemma {:induction false} EchoIsNegotiated(before: seq<Item>, command: Byte)
    requires Run(before).mode == Data && 251 <= command <= 254
    ensures var st, on := Run(before), command == 251 || command == 253;
            Run(before + Octets([255, command, 1]))
            == st.(echoEnabled := on,
                   out := st.out + (if on == st.echoEnabled then [] else [Sent([255, Agreeing(command), 1])])
                          + [LocalEcho(command == 252 || command == 253)])
  {
    Negotiated(before, command, 1);
    assert Run(before).out + [] == Run(before).out;
  }

  /** SUPPRESS-GO-AHEAD (3): the same, but for local echo. */
  lemma {:induction false} GoAheadIsNegotiated(before: seq<Item>, command: Byte)
    requires Run(before).mode == Data && 251 <= command <= 254
    ensures var st, on := Run(before), command == 251 || command == 253;
            Run(before + Octets([255, command, 3]))
            == st.(suppressGoAhead := on,
                   out := st.out + if on == st.suppressGoAhead then [] else [Sent([255, Agreeing(command), 3])])
  {
    Negotiated(before, command, 3);
    assert Run(before).out + [] == Run(before).out;
  }

  /** No negotiation loop: a command of either option, repeated, is not answered again. */
  lemma {:induction false} NoNegotiationLoop(before: seq<Item>, command: Byte, option: Byte)
    requires Run(before).mode == Data && 251 <= command <= 254 && (option == 1 || option == 3)
    ensures var once := before + Octets([255, command, option]);
            var twice := once + Octets([255, command, option]);
            Run(twice) == Run(once).(out := Run(once).out
                                            + if option == 1 then [LocalEcho(command == 252 || command == 253)] else [])
  {
    var once := before + Octets([255, command, option]);
    if option == 1 {
      EchoIsNegotiated(before, command);
      EchoIsNegotiated(once, command);
    } else {
      GoAheadIsNegotiated(before, command);
      GoAheadIsNegotiated(once, command);
    }
    assert Run(once).out + [] == Run(once).out;
  }

  /** TERMINAL-TYPE (24) and NAWS (31) but for DO, and every option the parser does not know, are refused. */
  lemma {:induction false} OthersAreRefused(before: seq<Item>, command: Byte, option: Byte)
    requires Run(before).mode == Data && 251 <= command <= 254
    requires option != 1 && option != 3 && ((option == 24 || option == 31) ==> command != 253)
    ensures var st := Run(before);
            Run(before + Octets([255, command, option])) == st.(out := st.out + Refusal(command, option))
  {
    Negotiated(before, command, option);
    assert Run(before).out + [] == Run(before).out;
  }

  /** DO TERMINAL-TYPE is answered with WILL. */
  lemma {:induction false} TerminalTypeIsOffered(before: seq<Item>)
    requires Run(before).mode == Data
    ensures var st := Run(before);
            Run(before + Octets([255, 253, 24])) == st.(out := st.out + [Sent([255, 251, 24])])
  {
    Negotiated(before, 253, 24);
  }

  /**
   * DO NAWS is answered with the window size, most significant bytes first: behind WILL the first time,
   * unless a resize offered it before, and alone from then on.
   */
  lemma {:induction false} WindowSizeIsSent(before: seq<Item>)
    requires Run(before).mode == Data
    ensures var st := Run(before);
            var size := [st.cols / 256, st.cols % 256, st.rows / 256, st.rows % 256];
            Run(before + Octets([255, 253, 31]))
            == st.(nawsAccepted := true,
                   out := st.out + [Sent((if st.nawsAccepted then [] else [255, 251, 31])
                                         + [255, 250, 31] + size + [255, 240])])
  {
    Negotiated(before, 253, 31);
    var st := Run(before);
    var size := [st.cols / 256, st.cols % 256, st.rows / 256, st.rows % 256];
    assert [255, 251, 31, 255, 250, 31] + size + [255, 240] == [255, 251, 31] + [255, 250, 31] + size + [255, 240];
    assert [] + [255, 250, 31] + size + [255, 240] == [255, 250, 31] + size + [255, 240];
  }

  /** A resize, wherever the parser stands, is remembered, and announced with WILL NAWS. */
  lemma {:induction false} ResizeIsAnnounced(before: seq<Item>, cols: Word16, rows: Word16)
    ensures var st := Run(before);
            Run(before + [Resize(cols, rows)])
            == st.(cols := cols, rows := rows, nawsAccepted := true, out := st.out + [Sent([255, 251, 31])])
  {
    RunSnoc(before, Resize(cols, rows));
  }

  /** GO-AHEAD (249) is passed over. */
  lemma {:induction false} GoAheadIsPassedOver(before: seq<Item>)
    requires Run(before).mode == Data
    ensures Run(before + Octets([255, 249])) == Run(before)
  {
    RunTwo(before, 255, 249);
  }

  // ---------- Subnegotiation ----------

  /**
   * The body of a subnegotiation, up to its 255 240: bytes passed over, the option 24 with the action
   * byte behind it, and 255 before a byte other than 240.
   */
  datatype Part = Passed(b: Byte) | TerminalType(action: Byte) | Escaped(b: Byte)
  {
    predicate Proper() {
      match this
      case Passed(b) => b != 24 && b != 255
      case TerminalType(_) => true
      case Escaped(b) => b != 240
    }

    function Encode(): seq<Byte> {
      match this
      case Passed(b) => [b]
      case TerminalType(action) => [24, action]
      case Escaped(b) => [255, b]
    }
  }

  function EncodeAll(body: seq<Part>): seq<Byte> {
    if body == [] then [] else EncodeAll(body[..|body| - 1]) + body[|body| - 1].Encode()
  }

  /** The last terminal type in the body is with action 1, SEND. */
  predicate AsksForType(body: seq<Part>) {
    body != [] && if body[|body| - 1].TerminalType? then body[|body| - 1].action == 1
                  else AsksForType(body[..|body| - 1])
  }

  lemma {:induction false} PassedRead(before: seq<Item>, b: Byte, reply: bool)
    requires Run(before).mode == Sub(reply) && b != 24 && b != 255
    ensures Run(before + Octets([b])) == Run(before)
  {
    assert Octets([b]) == [Octet(b)] + Octets([]);
    assert before + Octets([b]) == before + [Octet(b)];
    RunSnoc(before, Octet(b));
  }

  lemma {:induction false} TypeRead(before: seq<Item>, action: Byte, reply: bool)
    requires Run(before).mode == Sub(reply)
    ensures Run(before + Octets([24, action])) == Run(before).Go(Sub(action == 1))
  {
    RunTwo(before, 24, action);
  }

  lemma {:induction false} EscapedRead(before: seq<Item>, b: Byte, reply: bool)
    requires Run(before).mode == Sub(reply) && b != 240
    ensures Run(before + Octets([255, b])) == Run(before)
  {
    RunTwo(before, 255, b);
  }

  lemma {:induction false} PartRead(before: seq<Item>, p: Part, reply: bool)
    requires Run(before).mode == Sub(reply) && p.Proper()
    ensures Run(before + Octets(p.Encode()))
            == Run(before).Go(Sub(if p.TerminalType? then p.action == 1 else reply))
  {
    match p
    case Passed(b) => PassedRead(before, b, reply);
    case TerminalType(action) => TypeRead(before, action, reply);
    case Escaped(b) => EscapedRead(before, b, reply);
  }

  lemma {:induction false} BodyRead(before: seq<Item>, body: seq<Part>)
    requires Run(before).mode == Sub(false) && forall k :: 0 <= k < |body| ==> body[k].Proper()
    ensures Run(before + Octets(EncodeAll(body))) == Run(before).Go(Sub(AsksForType(body)))
  {
    if body == [] {
      assert before + Octets([]) == before;
    } else {
      var n := |body| - 1;
      var read := before + Octets(EncodeAll(body[..n]));
      BodyRead(before, body[..n]);
      OctetsAppend(EncodeAll(body[..n]), body[n].Encode());
      Assoc(before, Octets(EncodeAll(body[..n])), Octets(body[n].Encode()));
      PartRead(read, body[n], AsksForType(body[..n]));
    }
  }

  lemma {:induction false} BodySplit(before: seq<Item>, x: seq<Byte>)
    ensures before + Octets([255, 250] + x + [255, 240])
            == before + Octets([255, 250]) + Octets(x) + Octets([255, 240])
  {
    OctetsAppend([255, 250] + x, [255, 240]);
    OctetsAppend([255, 250], x);
  }

  lemma {:induction false} BodyBegins(before: seq<Item>)
    requires Run(before).mode == Data
    ensures Run(before + Octets([255, 250])) == Run(before).Go(Sub(false))
  {
    RunTwo(before, 255, 250);
  }

  lemma {:induction false} BodyEnds(before: seq<Item>, reply: bool)
    requires Run(before).mode == Sub(reply)
    ensures Run(before + Octets([255, 240]))
            == Run(before).(mode := Data, out := Run(before).out + Answered(reply))
  {
    RunTwo(before, 255, 240);
    assert [255, 250, 24] + [0, 88, 84, 69, 82, 77] + [255, 240] == [255, 250, 24, 0, 88, 84, 69, 82, 77, 255, 240];
    assert Run(before).out + [] == Run(before).out;
  }

  /** IS XTERM, or nothing. */
  function Answered(asked: bool): seq<Output> {
    if asked then [Sent([255, 250, 24, 0, 88, 84, 69, 82, 77, 255, 240])] else []
  }

  /**
   * A subnegotiation is answered at its end if and only if its last terminal type asked for it; it
   * changes nothing else and shows nothing.
   */
  lemma {:induction false} TypeIsSentWhenAsked(before: seq<Item>, body: seq<Part>)
    requires Run(before).mode == Data && forall k :: 0 <= k < |body| ==> body[k].Proper()
    ensures var st := Run(before);
            Run(before + Octets([255, 250] + EncodeAll(body) + [255, 240]))
            == st.(out := st.out + Answered(AsksForType(body)))
  {
    BodySplit(before, EncodeAll(body));
    BodyBegins(before);
    BodyRead(before + Octets([255, 250]), body);
    BodyEnds(before + Octets([255, 250]) + Octets(EncodeAll(body)), AsksForType(body));
  }

  /** Every byte string that ends in its first 255 240 behind such parts is such a body: none is left out. */
  lemma {:induction false} EveryBodyIsRead(x: seq<Byte>) returns (body: seq<Part>, cut: seq<Byte>, rest: seq<Byte>)
    ensures x == EncodeAll(body) + cut + rest && forall k :: 0 <= k < |body| ==> body[k].Proper()
    ensures cut == [255, 240] || (rest == [] && cut in [[], [24], [255]])
  {
    body, cut, rest := ReadOn([], x);
    assert [] + x == x;
  }

  lemma {:induction false} ReadOn(read: seq<Part>, x: seq<Byte>)
    returns (body: seq<Part>, cut: seq<Byte>, rest: seq<Byte>)
    requires forall k :: 0 <= k < |read| ==> read[k].Proper()
    ensures EncodeAll(read) + x == EncodeAll(body) + cut + rest && forall k :: 0 <= k < |body| ==> body[k].Proper()
    ensures cut == [255, 240] || (rest == [] && cut in [[], [24], [255]])
    decreases |x|
  {
    if |x| == 0 || x == [24] || x == [255] {
      body, cut, rest := read, x, [];
      assert EncodeAll(read) + x + [] == EncodeAll(read) + x;
    } else if x[0] == 255 && x[1] == 240 {
      body, cut, rest := read, [255, 240], x[2..];
      assert x == [255, 240] + x[2..];
      Assoc(EncodeAll(read), [255, 240], x[2..]);
    } else {
      var p := if x[0] == 24 then TerminalType(x[1]) else if x[0] == 255 then Escaped(x[1]) else Passed(x[0]);
      var n := |p.Encode()|;
      assert x == p.Encode() + x[n..] && (read + [p])[..|read|] == read;
      Assoc(EncodeAll(read), p.Encode(), x[n..]);
      body, cut, rest := ReadOn(read + [p], x[n..]);
    }
  }
}
