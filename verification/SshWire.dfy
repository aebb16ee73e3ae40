/**
 * The opening request of an SSH command on the wire. Printing is the client's: ui/commands/ssh.js,
 * string.js, integer.js, address.js. Parsing is the server's: Bootup of application/commands/ssh.go,
 * with string.go, integer.go, address.go and preset_credential.go.
 */
module SshWire {
  import opened Bytes
  import opened Protocol

  const MAX_INTEGER := 0x3fff
  const MAX_USER := 127
  const MAX_HOST := 255
  const MAX_PRESET_ID := 255

  const LOOPBACK: Byte := 0
  const IPV4: Byte := 1
  const IPV6: Byte := 2
  const HOSTNAME: Byte := 3

  type Port = p: int | 0 <= p < 0x1_0000

  datatype Address = Address(port: Port, kind: Byte, data: seq<Byte>)

  datatype Request = Request(user: seq<Byte>, address: Address, auth: Byte, presetID: seq<Byte>)

  // ---------- Printing ----------

  /** Integer.marshal: seven bits a byte, a high bit on all but the last. */
  function IntegerBytes(n: nat): seq<Byte>
    requires n <= MAX_INTEGER
  {
    if n < 128 then [n] else [128 + n / 128, n % 128]
  }

  function StringBytes(s: seq<Byte>): seq<Byte>
    requires |s| <= MAX_INTEGER
  {
    IntegerBytes(|s|) + s
  }

  /** What Address.buffer does not refuse. */
  predicate Printable(a: Address) {
    if a.kind == LOOPBACK then a.data == []
    else if a.kind == IPV4 then |a.data| == 4
    else if a.kind == IPV6 then |a.data| == 16
    else a.kind == HOSTNAME && |a.data| <= MAX_HOST
  }

  function AddressBytes(a: Address): seq<Byte>
    requires Printable(a)
  {
    [a.port / 256, a.port % 256, a.kind] + (if a.kind == HOSTNAME then [|a.data|] else []) + a.data
  }

  /**
   * The fields in bytes. A length below 128 is one byte, a longer one two of seven bits; an address is
   * its port, its kind and what the kind asks for: nothing, 4 bytes, 16 bytes, or a length and a name.
   */
  lemma {:induction false} FieldsOnTheWire(s: seq<Byte>, a: Address)
    requires |s| < 0x4000
    ensures StringBytes(s) == (if |s| < 128 then [|s|] else [128 + |s| / 128, |s| % 128]) + s
    ensures Printable(a) <==> (a.kind == 0 && a.data == []) || (a.kind == 1 && |a.data| == 4)
                              || (a.kind == 2 && |a.data| == 16) || (a.kind == 3 && |a.data| <= 255)
    ensures Printable(a) ==>
              AddressBytes(a)
              == [a.port / 256, a.port % 256, a.kind] + (if a.kind == 3 then [|a.data|] else []) + a.data
  {
  }

  predicate PrintableRequest(r: Request) {
    |r.user| <= MAX_INTEGER && Printable(r.address) && |r.presetID| <= MAX_INTEGER
  }

  function RequestBytes(r: Request): seq<Byte>
    requires PrintableRequest(r)
  {
    StringBytes(r.user) + AddressBytes(r.address) + [r.auth] + StringBytes(r.presetID)
  }

  // ---------- Parsing ----------

  datatype Parsed<T> = Parsed(value: T, rest: seq<Byte>) | Bad

  function FourteenBits(b0: Byte, b1: Byte): nat {
    b0 % 128 * 128 + b1 % 128
  }

  function PortOf(b0: Byte, b1: Byte): Port {
    b0 * 256 + b1
  }

  /** Integer.Unmarshal: at most two bytes; the second byte's own high bit shifts once more, in 16 bits. */
  function ParseInteger(v: seq<Byte>): Parsed<nat> {
    if v == [] then Bad
    else if v[0] < 128 then Parsed(v[0], v[1..])
    else if |v| < 2 then Bad
    else
      var n := FourteenBits(v[0], v[1]);
      Parsed(if v[1] < 128 then n else n * 128 % 0x1_0000, v[2..])
  }

  /**
   * Why the reader of a request has no more bytes to give: it reached the announced length, or the
   * stream was cut short; then an empty chunk may stand before the end.
   */
  datatype End = Limit | Cut(emptyChunk: bool)

  /**
   * ReadFull asks its reader even for no bytes at all. One that has none left fails, unless an empty
   * chunk answers.
   */
  function ParseBytes(v: seq<Byte>, end: End, n: nat): Parsed<seq<Byte>> {
    if |v| < n || (v == [] && end != Cut(true)) then Bad else Parsed(v[..n], v[n..])
  }

  function ParseString(v: seq<Byte>, end: End, max: nat): Parsed<seq<Byte>> {
    match ParseInteger(v)
    case Bad => Bad
    case Parsed(n, rest) => if n > max then Bad else ParseBytes(rest, end, n)
  }

  predicate HostChar(b: Byte) {
    48 <= b <= 57 || 65 <= b <= 90 || 97 <= b <= 122 || b == 95 || b == 46 || b == 45
  }

  /** Latin letters, digits, and the three signs "_", "." and "-". */
  lemma {:induction false} HostCharacters(c: char)
    requires c < '\U{0100}'
    ensures HostChar(c as int)
            <==> '0' <= c <= '9' || 'A' <= c <= 'Z' || 'a' <= c <= 'z' || c == '_' || c == '.' || c == '-'
  {
  }

  /** hostNameVerifier */
  predicate HostName(data: seq<Byte>) {
    data != [] && forall b <- data :: HostChar(b)
  }

  function ParseAddressData(v: seq<Byte>, end: End, kind: Byte, max: nat): Parsed<seq<Byte>> {
    if kind == LOOPBACK then Parsed([], v)
    else if kind == IPV4 then if max < 4 then Bad else ParseBytes(v, end, 4)
    else if kind == IPV6 then if max < 16 then Bad else ParseBytes(v, end, 16)
    else if kind == HOSTNAME then
      match ParseBytes(v, end, 1)
      case Bad => Bad
      case Parsed(length, rest) =>
        if max < length[0] then Bad else
        match ParseBytes(rest, end, length[0])
        case Bad => Bad
        case Parsed(data, left) => if HostName(data) then Parsed(data, left) else Bad
    else Bad
  }

  function ParseAddress(v: seq<Byte>, end: End, max: nat): Parsed<Address> {
    if max < 3 then Bad else
    match ParseBytes(v, end, 3)
    case Bad => Bad
    case Parsed(head, rest) =>
      match ParseAddressData(rest, end, head[2], max)
      case Bad => Bad
      case Parsed(data, left) => Parsed(Address(PortOf(head[0], head[1]), head[2], data), left)
  }

  /** parseOptionalPresetID: only at its limit is a reader complete. */
  function ParsePresetID(v: seq<Byte>, end: End): Parsed<seq<Byte>> {
    if v == [] && end.Limit? then Parsed([], []) else ParseString(v, end, MAX_PRESET_ID)
  }

  const BAD_USER_NAME: InitialData := 1
  const BAD_REMOTE_ADDRESS: InitialData := 2
  const BAD_AUTH_METHOD: InitialData := 3
  /** Methods None, Passphrase and PrivateKey are 0, 1 and 2. */
  const AUTH_METHODS := 3

  datatype Booted = Booted(request: Request, rest: seq<Byte>) | Refused(code: InitialData)

  /** Bootup, up to the point where the remote side is started. */
  function Bootup(v: seq<Byte>, end: End): Booted {
    match ParseString(v, end, MAX_USER)
    case Bad => Refused(BAD_USER_NAME)
    case Parsed(user, rest) => BootupAddress(user, rest, end)
  }

  function BootupAddress(user: seq<Byte>, v: seq<Byte>, end: End): Booted {
    match ParseAddress(v, end, MAX_HOST)
    case Bad => Refused(BAD_REMOTE_ADDRESS)
    case Parsed(address, rest) => BootupAuth(user, address, rest, end)
  }

  function BootupAuth(user: seq<Byte>, address: Address, v: seq<Byte>, end: End): Booted {
    if v == [] then Refused(BAD_AUTH_METHOD) else
    match ParsePresetID(v[1..], end)
    case Bad => Refused(BAD_AUTH_METHOD)
    case Parsed(presetID, rest) =>
      if v[0] >= AUTH_METHODS then Refused(BAD_AUTH_METHOD) else Booted(Request(user, address, v[0], presetID), rest)
  }

  // ---------- They fit each other ----------

  lemma {:induction false} IntegerRoundTrip(n: nat, rest: seq<Byte>)
    requires n <= MAX_INTEGER
    ensures ParseInteger(IntegerBytes(n) + rest) == Parsed(n, rest)
  {
    var v := IntegerBytes(n) + rest;
    if n < 128 {
      assert v[0] == n && v[1..] == rest;
    } else {
      assert v[0] == 128 + n / 128 && v[1] == n % 128 && v[2..] == rest;
    }
  }

  lemma {:induction false} LowBits(n: nat)
    requires n < 128
    ensures (128 + n) % 128 == n
  {
  }

  /** A second byte with its high bit set, which no client prints: the value is shifted once more, in 16 bits. */
  lemma {:induction false} ThirdShift(high: nat, low: nat, rest: seq<Byte>)
    requires high < 128 && low < 128
    ensures ParseInteger([128 + high, 128 + low] + rest) == Parsed((high * 128 + low) * 128 % 65536, rest)
    ensures ParseInteger([128 + high]) == Bad && ParseInteger([]) == Bad
  {
    var v := [128 + high, 128 + low] + rest;
    LowBits(high);
    LowBits(low);
    assert FourteenBits(v[0], v[1]) == high * 128 + low;
    assert v[2..] == rest;
  }

  /** A string is read back exactly, except an empty one with nothing after it, not even an empty chunk. */
  lemma {:induction false} StringRoundTrip(s: seq<Byte>, end: End, max: nat, rest: seq<Byte>)
    requires |s| <= MAX_INTEGER
    ensures ParseString(StringBytes(s) + rest, end, max)
            == if |s| > max || (s == [] && rest == [] && end != Cut(true)) then Bad else Parsed(s, rest)
  {
    IntegerRoundTrip(|s|, s + rest);
    assert StringBytes(s) + rest == IntegerBytes(|s|) + (s + rest);
    assert (s + rest)[..|s|] == s && (s + rest)[|s|..] == rest;
  }

  lemma {:induction false} BytesRoundTrip(data: seq<Byte>, end: End, rest: seq<Byte>)
    requires data != []
    ensures ParseBytes(data + rest, end, |data|) == Parsed(data, rest)
  {
    assert (data + rest)[..|data|] == data && (data + rest)[|data|..] == rest;
  }

  lemma {:induction false} HostRoundTrip(data: seq<Byte>, end: End, rest: seq<Byte>)
    requires |data| <= MAX_HOST
    ensures ParseAddressData([|data|] + data + rest, end, HOSTNAME, MAX_HOST)
            == if HostName(data) then Parsed(data, rest) else Bad
  {
    BytesRoundTrip([|data|], end, data + rest);
    assert [|data|] + data + rest == [|data|] + (data + rest);
    if data != [] {
      BytesRoundTrip(data, end, rest);
    }
  }

  lemma {:induction false} DataRoundTrip(a: Address, end: End, rest: seq<Byte>)
    requires Printable(a)
    ensures var v := (if a.kind == HOSTNAME then [|a.data|] else []) + a.data + rest;
            ParseAddressData(v, end, a.kind, MAX_HOST)
            == if a.kind == HOSTNAME && !HostName(a.data) then Bad else Parsed(a.data, rest)
  {
    if a.kind == HOSTNAME {
      HostRoundTrip(a.data, end, rest);
    } else {
      assert [] + a.data + rest == a.data + rest;
      if a.data != [] {
        BytesRoundTrip(a.data, end, rest);
      }
    }
  }

  lemma {:induction false} AddressRoundTrip(a: Address, end: End, rest: seq<Byte>)
    requires Printable(a)
    ensures ParseAddress(AddressBytes(a) + rest, end, MAX_HOST)
            == if a.kind == HOSTNAME && !HostName(a.data) then Bad else Parsed(a, rest)
  {
    var head := [a.port / 256, a.port % 256, a.kind];
    var data := (if a.kind == HOSTNAME then [|a.data|] else []) + a.data + rest;
    assert AddressBytes(a) + rest == head + data;
    BytesRoundTrip(head, end, data);
    assert PortOf(head[0], head[1]) == a.port;
    DataRoundTrip(a, end, rest);
  }

  lemma {:induction false} AuthRoundTrip(user: seq<Byte>, address: Address, auth: Byte, presetID: seq<Byte>)
    requires |presetID| <= MAX_INTEGER
    ensures BootupAuth(user, address, [auth] + StringBytes(presetID), Limit)
            == if auth >= AUTH_METHODS || presetID == [] || |presetID| > MAX_PRESET_ID then Refused(BAD_AUTH_METHOD)
               else Booted(Request(user, address, auth, presetID), [])
  {
    StringRoundTrip(presetID, Limit, MAX_PRESET_ID, []);
    assert StringBytes(presetID) + [] == StringBytes(presetID);
    assert ([auth] + StringBytes(presetID))[1..] == StringBytes(presetID);
  }

  lemma {:induction false} UserStage(user: seq<Byte>, rest: seq<Byte>)
    requires |user| <= MAX_INTEGER && rest != []
    ensures Bootup(StringBytes(user) + rest, Limit)
            == if |user| > MAX_USER then Refused(BAD_USER_NAME) else BootupAddress(user, rest, Limit)
  {
    StringRoundTrip(user, Limit, MAX_USER, rest);
  }

  lemma {:induction false} AddressStage(user: seq<Byte>, a: Address, rest: seq<Byte>)
    requires Printable(a)
    ensures BootupAddress(user, AddressBytes(a) + rest, Limit)
            == if a.kind == HOSTNAME && !HostName(a.data) then Refused(BAD_REMOTE_ADDRESS)
               else BootupAuth(user, a, rest, Limit)
  {
    AddressRoundTrip(a, Limit, rest);
  }

  lemma {:induction false} FourParts(a: seq<Byte>, b: seq<Byte>, c: seq<Byte>, d: seq<Byte>)
    ensures a + b + c + d == a + (b + (c + d))
  {
  }

  /**
   * For every request the client can print, this is what the server makes of it. All fields come
   * back and every byte is used exactly when the user name has up to 127 bytes, a host name holds
   * only host name characters, the method is known, and the preset ID has 1 to 255 bytes. An empty
   * preset ID is refused: its string ends where the reader does.
   */
  lemma {:induction false} RequestRoundTrip(r: Request)
    requires PrintableRequest(r)
    ensures Bootup(RequestBytes(r), Limit)
            == if |r.user| > 127 then Refused(1)
               else if r.address.kind == 3 && !HostName(r.address.data) then Refused(2)
               else if r.auth > 2 || r.presetID == [] || |r.presetID| > 255 then Refused(3)
               else Booted(r, [])
  {
    var tail := [r.auth] + StringBytes(r.presetID);
    FourParts(StringBytes(r.user), AddressBytes(r.address), [r.auth], StringBytes(r.presetID));
    UserStage(r.user, AddressBytes(r.address) + tail);
    AddressStage(r.user, r.address, tail);
    AuthRoundTrip(r.user, r.address, r.auth, r.presetID);
  }

  /** Every request the server accepts fits the eleven bits of its length. */
  lemma {:induction false} RequestFits(r: Request)
    requires PrintableRequest(r) && Bootup(RequestBytes(r), Limit).Booted?
    ensures |RequestBytes(r)| <= 645 <= INITIAL_MAX_DATA
  {
    RequestRoundTrip(r);
  }

  // ---------- A request cut short ----------

  /** What a parser made of the bytes before the cut it also makes of them when more follow. */
  predicate Extends<T(==)>(short: Parsed<T>, long: Parsed<T>, more: seq<Byte>) {
    short.Parsed? ==> long == Parsed(short.value, short.rest + more)
  }

  lemma {:induction false} BytesExtend(v: seq<Byte>, end: End, n: nat, more: seq<Byte>)
    requires more != []
    ensures Extends(ParseBytes(v, end, n), ParseBytes(v + more, Limit, n), more)
  {
    if n <= |v| {
      assert (v + more)[..n] == v[..n] && (v + more)[n..] == v[n..] + more;
    }
  }

  lemma {:induction false} IntegerExtends(v: seq<Byte>, more: seq<Byte>)
    ensures Extends(ParseInteger(v), ParseInteger(v + more), more)
  {
    if v != [] {
      assert (v + more)[1..] == v[1..] + more;
      if |v| > 1 {
        assert (v + more)[2..] == v[2..] + more;
      }
    }
  }

  lemma {:induction false} StringExtends(v: seq<Byte>, end: End, max: nat, more: seq<Byte>)
    requires more != []
    ensures Extends(ParseString(v, end, max), ParseString(v + more, Limit, max), more)
  {
    IntegerExtends(v, more);
    var n := ParseInteger(v);
    if n.Parsed? {
      BytesExtend(n.rest, end, n.value, more);
    }
  }

  lemma {:induction false} HostExtends(v: seq<Byte>, end: End, max: nat, more: seq<Byte>)
    requires more != []
    ensures Extends(ParseAddressData(v, end, HOSTNAME, max), ParseAddressData(v + more, Limit, HOSTNAME, max), more)
  {
    BytesExtend(v, end, 1, more);
    var length := ParseBytes(v, end, 1);
    if length.Parsed? {
      BytesExtend(length.rest, end, length.value[0], more);
    }
  }

  lemma {:induction false} AddressDataExtends(v: seq<Byte>, end: End, kind: Byte, max: nat, more: seq<Byte>)
    requires more != []
    ensures Extends(ParseAddressData(v, end, kind, max), ParseAddressData(v + more, Limit, kind, max), more)
  {
    if kind == HOSTNAME {
      HostExtends(v, end, max, more);
    } else if kind == IPV4 {
      BytesExtend(v, end, 4, more);
    } else if kind == IPV6 {
      BytesExtend(v, end, 16, more);
    }
  }

  lemma {:induction false} AddressExtends(v: seq<Byte>, end: End, max: nat, more: seq<Byte>)
    requires more != []
    ensures Extends(ParseAddress(v, end, max), ParseAddress(v + more, Limit, max), more)
  {
    BytesExtend(v, end, 3, more);
    var head := ParseBytes(v, end, 3);
    if head.Parsed? {
      AddressDataExtends(head.rest, end, head.value[2], max, more);
    }
  }

  lemma {:induction false} AuthExtends(user: seq<Byte>, address: Address, v: seq<Byte>, end: End, more: seq<Byte>)
    requires more != [] && end.Cut? && BootupAuth(user, address, v, end).Booted?
    ensures var o := BootupAuth(user, address, v, end);
            BootupAuth(user, address, v + more, Limit) == Booted(o.request, o.rest + more)
  {
    assert (v + more)[1..] == v[1..] + more;
    StringExtends(v[1..], end, MAX_PRESET_ID, more);
  }

  lemma {:induction false} AddressStageExtends(user: seq<Byte>, v: seq<Byte>, end: End, more: seq<Byte>)
    requires more != [] && end.Cut? && BootupAddress(user, v, end).Booted?
    ensures var o := BootupAddress(user, v, end);
            BootupAddress(user, v + more, Limit) == Booted(o.request, o.rest + more)
  {
    AddressExtends(v, end, MAX_HOST, more);
    var address := ParseAddress(v, end, MAX_HOST);
    AuthExtends(user, address.value, address.rest, end, more);
  }

  /** A request that boots although its stream was cut boots with more bytes too, and leaves them over. */
  lemma {:induction false} BootupExtends(v: seq<Byte>, emptyChunk: bool, more: seq<Byte>)
    requires more != [] && Bootup(v, Cut(emptyChunk)).Booted?
    ensures var o := Bootup(v, Cut(emptyChunk));
            Bootup(v + more, Limit) == Booted(o.request, o.rest + more)
  {
    StringExtends(v, Cut(emptyChunk), MAX_USER, more);
    var user := ParseString(v, Cut(emptyChunk), MAX_USER);
    AddressStageExtends(user.value, user.rest, Cut(emptyChunk), more);
  }

  /** A stream that ends anywhere within a request the client prints opens nothing. */
  lemma {:induction false} CutRequestIsRefused(r: Request, n: nat, emptyChunk: bool)
    requires PrintableRequest(r) && n < |RequestBytes(r)|
    ensures Bootup(RequestBytes(r)[..n], Cut(emptyChunk)).Refused?
  {
    var v, more := RequestBytes(r)[..n], RequestBytes(r)[n..];
    assert v + more == RequestBytes(r);
    RequestRoundTrip(r);
    if Bootup(v, Cut(emptyChunk)).Booted? {
      BootupExtends(v, emptyChunk, more);
      assert false;
    }
  }
}
