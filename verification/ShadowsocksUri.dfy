/** The SIP002 `ss://` printer, and the client-side parser that inverts it. */
module ShadowsocksUri {
  import opened Bytes
  import Base64

  /** What a client imports from the URI. */
  datatype Endpoint = Endpoint(cipher: Text, password: Text, host: Text, port: int, name: Text)

  const SCHEME: Text := [115, 115, COLON, SLASH, SLASH]

  // Percent-encoding, section 2.1 of RFC 3986, with the escape sets of Go's net/url.

  predicate IsUnreserved(b: byte) {
    IsAlphanumeric(b) || b in {45, 95, 46, 126}  // - _ . ~
  }

  predicate PlainInUser(b: byte) {
    IsUnreserved(b) || b in {36, 38, 43, 44, 59, 61}  // $ & + , ; =
  }

  predicate PlainInHost(b: byte) {
    IsUnreserved(b) || b in {33, 36, 38, 39, 40, 41, 42, 43, 44, 59, 61, 58, 91, 93, 60, 62, 34}
  }

  predicate PlainInFragment(b: byte) {
    IsUnreserved(b) || b in {36, 38, 43, 44, 47, 58, 59, 61, 63, 64, 33, 40, 41, 42}
  }

  type hexit = d: int | 0 <= d < 16

  function HexDigit(d: hexit): byte { if d < 10 then 48 + d else 55 + d }

  function HexValue(b: byte): Option<hexit> {
    if IsDigit(b) then Some(b - 48)
    else if 65 <= b <= 70 then Some(b - 55)
    else if 97 <= b <= 102 then Some(b - 87)
    else None
  }

  function Escape(plain: byte -> bool, s: Text): Text {
    if s == [] then []
    else if plain(s[0]) then [s[0]] + Escape(plain, s[1..])
    else [PERCENT, HexDigit(s[0] / 16), HexDigit(s[0] % 16)] + Escape(plain, s[1..])
  }

  function Unescape(t: Text): Option<Text> {
    if t == [] then Some([])
    else if t[0] != PERCENT then
      var rest := Unescape(t[1..]);
      if rest.None? then None else Some([t[0]] + rest.value)
    else if |t| < 3 || HexValue(t[1]).None? || HexValue(t[2]).None? then None
    else
      var rest := Unescape(t[3..]);
      if rest.None? then None
      else Some([HexValue(t[1]).value * 16 + HexValue(t[2]).value] + rest.value)
  }

  lemma HexRoundTrip(d: hexit)
    ensures HexValue(HexDigit(d)) == Some(d)
  {}

  lemma UnescapeOne(b: byte, rest: Text)
    ensures b != PERCENT ==>
              Unescape([b] + rest) == if Unescape(rest).None? then None else Some([b] + Unescape(rest).value)
    ensures Unescape([PERCENT, HexDigit(b / 16), HexDigit(b % 16)] + rest)
            == if Unescape(rest).None? then None else Some([b] + Unescape(rest).value)
  {
    hide HexDigit, HexValue;
    HexRoundTrip(b / 16);
    HexRoundTrip(b % 16);
    assert ([b] + rest)[1..] == rest;
    assert ([PERCENT, HexDigit(b / 16), HexDigit(b % 16)] + rest)[3..] == rest;
  }

  lemma {:induction false} UnescapeEscape(plain: byte -> bool, s: Text)
    requires !plain(PERCENT)
    ensures Unescape(Escape(plain, s)) == Some(s)
  {
    hide HexDigit, HexValue, Unescape;
    if s == [] {
      assert Unescape([]) == Some([]) by { UnescapeNothing(); }
    } else {
      UnescapeEscape(plain, s[1..]);
      UnescapeOne(s[0], Escape(plain, s[1..]));
      assert s == [s[0]] + s[1..];
    }
  }

  lemma UnescapeNothing()
    ensures Unescape([]) == Some([])
  {
  }

  /** A separator that is escaped, and is neither `%` nor a hex digit, does not occur in escaped text. */
  lemma {:induction false} EscapeHides(plain: byte -> bool, s: Text, b: byte)
    requires !plain(b) && b != PERCENT && !IsAlphanumeric(b)
    ensures b !in Escape(plain, s)
  {
    if s != [] {
      EscapeHides(plain, s[1..], b);
    }
  }

  // Decimal port numbers, as fmt's %d prints them.

  function Digits(n: nat): Text {
    if n < 10 then [48 + n] else Digits(n / 10) + [48 + n % 10]
  }

  function Decimal(n: int): Text { if n < 0 then [MINUS] + Digits(-n) else Digits(n) }

  function DigitsValue(t: Text): Option<nat>
    decreases |t|
  {
    if t == [] || !IsDigit(t[|t| - 1]) then None
    else if |t| == 1 then Some(t[0] - 48)
    else
      var high := DigitsValue(t[..|t| - 1]);
      if high.None? then None else Some(high.value * 10 + (t[|t| - 1] - 48))
  }

  function DecimalValue(t: Text): Option<int> {
    if t != [] && t[0] == MINUS then
      var n := DigitsValue(t[1..]);
      if n.None? then None else Some(0 - n.value as int)
    else
      var n := DigitsValue(t);
      if n.None? then None else Some(n.value as int)
  }

  lemma {:induction false} DigitsRoundTrip(n: nat)
    ensures DigitsValue(Digits(n)) == Some(n)
    ensures forall b :: b in Digits(n) ==> IsDigit(b)
    ensures Digits(n) != []
    decreases n
  {
    if n >= 10 {
      DigitsRoundTrip(n / 10);
      assert Digits(n)[..|Digits(n)| - 1] == Digits(n / 10);
    }
  }

  lemma DecimalRoundTrip(n: int)
    ensures DecimalValue(Decimal(n)) == Some(n)
    ensures COLON !in Decimal(n)
  {
    var m: nat := if n < 0 then -n else n;
    DigitsRoundTrip(m);
    var t := Digits(m);
    assert IsDigit(t[0]) by { assert t[0] in t; }
    assert COLON !in t;
    assert ([MINUS] + t)[1..] == t;
  }

  function UserInfo(e: Endpoint): Text {
    Base64.Encode(Base64.UrlSafe, e.cipher + [COLON] + e.password)
  }

  function HostPort(e: Endpoint): Text { e.host + [COLON] + Decimal(e.port) }

  function Fragment(name: Text): Text {
    if name == [] then [] else [HASH] + Escape(PlainInFragment, name)
  }

  function Print(e: Endpoint): Text {
    SCHEME + (Escape(PlainInUser, UserInfo(e)) + [AT] +
              (Escape(PlainInHost, HostPort(e)) + Fragment(e.name)))
  }

  function SplitUser(info: Text): Option<(Text, Text)> {
    var i := IndexOf(info, COLON);
    if i == |info| then None else Some((info[..i], info[i + 1..]))
  }

  function SplitHost(hostport: Text): Option<(Text, int)> {
    var i := LastIndexOf(hostport, COLON);
    if i.None? then None
    else
      var port := DecimalValue(hostport[i.value + 1..]);
      if port.None? then None else Some((hostport[..i.value], port.value))
  }

  /** The user information: percent-decoded, base64-decoded, split at its first colon. */
  function ParseUser(t: Text): Option<(Text, Text)> {
    var encoded := Unescape(t);
    if encoded.None? then None
    else
      var info := Base64.Decode(Base64.UrlSafe, encoded.value);
      if info.None? then None else SplitUser(info.value)
  }

  /** The authority after `@`: percent-decoded and split at its last colon. */
  function ParseHost(t: Text): Option<(Text, int)> {
    var hostport := Unescape(t);
    if hostport.None? then None else SplitHost(hostport.value)
  }

  lemma ParsePrintedUser(e: Endpoint)
    ensures ParseUser(Escape(PlainInUser, UserInfo(e))) == SplitUser(e.cipher + [COLON] + e.password)
  {
    UnescapeEscape(PlainInUser, UserInfo(e));
    Base64.DecodeEncode(Base64.UrlSafe, e.cipher + [COLON] + e.password);
  }

  lemma ParsePrintedHost(e: Endpoint)
    ensures ParseHost(Escape(PlainInHost, HostPort(e))) == Some((e.host, e.port))
  {
    UnescapeEscape(PlainInHost, HostPort(e));
    DecimalRoundTrip(e.port);
    LastSeparator(e.host, COLON, Decimal(e.port));
    assert HostPort(e)[|e.host| + 1..] == Decimal(e.port) && HostPort(e)[..|e.host|] == e.host;
  }

  /** The text after `@`: host and port, then an optional `#` and the name. */
  function ParseTail(tail: Text): Option<((Text, int), Text)> {
    var hash := IndexOf(tail, HASH);
    var host := ParseHost(tail[..hash]);
    var name := if hash == |tail| then Some([]) else Unescape(tail[hash + 1..]);
    if host.None? || name.None? then None else Some((host.value, name.value))
  }

  function Parse(uri: Text): Option<Endpoint> {
    if !(SCHEME <= uri) then None
    else
      var body := uri[|SCHEME|..];
      var at := IndexOf(body, AT);
      if at == |body| then None
      else
        var user, tail := ParseUser(body[..at]), ParseTail(body[at + 1..]);
        if user.None? || tail.None? then None
        else Some(Endpoint(user.value.0, user.value.1, tail.value.0.0, tail.value.0.1, tail.value.1))
  }

  lemma {:induction false} SplitTail(hostText: Text, name: Text)
    requires HASH !in hostText
    ensures IndexOf(hostText, HASH) == |hostText|
    ensures var tail, i := hostText + [HASH] + name, |hostText|;
            IndexOf(tail, HASH) == i && tail[..i] == hostText && tail[i + 1..] == name
  {
    FirstSeparator(hostText, HASH, name);
  }

  lemma ParsePrintedTail(e: Endpoint)
    ensures ParseTail(Escape(PlainInHost, HostPort(e)) + Fragment(e.name)) == Some(((e.host, e.port), e.name))
  {
    hide Escape, Unescape, ParseHost, IndexOf, HostPort;
    var hostText, name := Escape(PlainInHost, HostPort(e)), Escape(PlainInFragment, e.name);
    EscapeHides(PlainInHost, HostPort(e), HASH);
    SplitTail(hostText, name);
    ParsePrintedHost(e);
    UnescapeEscape(PlainInFragment, e.name);
    if e.name == [] {
      assert hostText + [] == hostText == hostText[..|hostText|];
    } else {
      assert hostText + Fragment(e.name) == hostText + [HASH] + name;
    }
  }

  /** Whatever the five parts are, parsing the printed URI splits it where the printer joined it. */
  lemma ParsePrinted(e: Endpoint)
    ensures var user := SplitUser(e.cipher + [COLON] + e.password);
            user.Some? && Parse(Print(e)) == Some(Endpoint(user.value.0, user.value.1, e.host, e.port, e.name))
  {
    var uri, userText := Print(e), Escape(PlainInUser, UserInfo(e));
    var tail := Escape(PlainInHost, HostPort(e)) + Fragment(e.name);
    var body := userText + [AT] + tail;
    assert uri == SCHEME + body;
    assert uri[..|SCHEME|] == SCHEME && uri[|SCHEME|..] == body;
    EscapeHides(PlainInUser, UserInfo(e), AT);
    FirstSeparator(userText, AT, tail);
    assert body[..|userText|] == userText && body[|userText| + 1..] == tail;
    ParsePrintedUser(e);
    ParsePrintedTail(e);
    assert (e.cipher + [COLON] + e.password)[|e.cipher|] == COLON;
  }

  /**
   The printer has an inverse exactly on the methods without a colon: all five parts come
   back for every password, host, port and name.
   */
  lemma RoundTrip(e: Endpoint)
    ensures Parse(Print(e)) == Some(e) <==> COLON !in e.cipher
  {
    ParsePrinted(e);
    var info := e.cipher + [COLON] + e.password;
    if COLON !in e.cipher {
      FirstSeparator(e.cipher, COLON, e.password);
      assert info[..|e.cipher|] == e.cipher && info[|e.cipher| + 1..] == e.password;
    } else {
      var i := IndexOf(info, COLON);
      var k :| 0 <= k < |e.cipher| && e.cipher[k] == COLON;
      assert info[k] == COLON;
      assert i <= k;
      assert |info[..i]| < |e.cipher|;
    }
  }

  /** So two different endpoints never share a URI unless a cipher name holds a colon. */
  lemma PrintIsInjective(e: Endpoint, f: Endpoint)
    requires COLON !in e.cipher && COLON !in f.cipher
    requires Print(e) == Print(f)
    ensures e == f
  {
    RoundTrip(e);
    RoundTrip(f);
  }

  /** With a colon in the cipher name the printer is ambiguous. */
  lemma ColonIsAmbiguous(host: Text, port: int, name: Text)
    ensures Print(Endpoint([97, COLON, 98], [99], host, port, name))
            == Print(Endpoint([97], [98, COLON, 99], host, port, name))
  {
    assert [97, COLON, 98] + [COLON] + [99] == [97] + [COLON] + [98, COLON, 99];
  }

  lemma {:induction false} PlainStays(plain: byte -> bool, s: Text)
    requires forall b :: b in s ==> plain(b)
    ensures Escape(plain, s) == s
  {
    if s != [] {
      PlainStays(plain, s[1..]);
      assert s == [s[0]] + s[1..];
    }
  }

  /** Any other byte becomes a percent sign and two upper-case hexadecimal digits. */
  lemma {:induction false} OthersAreEscaped(plain: byte -> bool, b: byte)
    requires !plain(b)
    ensures var t := Escape(plain, [b]);
            && |t| == 3 && t[0] == '%' as int
            && t[1] == (if b / 16 < 10 then '0' as int + b / 16 else 'A' as int + b / 16 - 10)
            && t[2] == (if b % 16 < 10 then '0' as int + b % 16 else 'A' as int + b % 16 - 10)
  {
    assert Escape(plain, [b][1..]) == [];
  }

  lemma PlainAuthority(e: Endpoint)
    requires forall b :: b in e.host ==> IsAlphanumeric(b) || b in {45, 46}
    ensures Escape(PlainInUser, UserInfo(e)) == UserInfo(e) && Escape(PlainInHost, HostPort(e)) == HostPort(e)
  {
    Base64.DecodeEncode(Base64.UrlSafe, e.cipher + [COLON] + e.password);
    assert forall b :: Base64.InAlphabet(Base64.UrlSafe, b) ==> PlainInUser(b);
    PlainStays(PlainInUser, UserInfo(e));
    DigitsRoundTrip(if e.port < 0 then -e.port else e.port);
    assert forall b :: b in Decimal(e.port) ==> PlainInHost(b);
    PlainStays(PlainInHost, HostPort(e));
  }

  lemma Regroup(scheme: Text, user: Text, at: Text, host: Text, port: Text, name: Text)
    ensures scheme + (user + at + (host + port + name)) == scheme + user + at + host + port + name
  {
  }

  /** For a host name of letters, digits, dots and hyphens: ss://base64(cipher:password)@host:port#name. */
  lemma PrintedForm(e: Endpoint)
    requires forall b :: b in e.host ==> IsAlphanumeric(b) || b in {45, 46}
    ensures Print(e) == [115, 115, 58, 47, 47] + Base64.Encode(Base64.UrlSafe, e.cipher + [58] + e.password)
                        + [64] + e.host + ([58] + Decimal(e.port))
                        + if e.name == [] then [] else [35] + Escape(PlainInFragment, e.name)
  {
    PlainAuthority(e);
    hide Escape, Decimal;
    assert e.host + [COLON] + Decimal(e.port) == e.host + ([COLON] + Decimal(e.port));
    Regroup(SCHEME, UserInfo(e), [AT], e.host, [COLON] + Decimal(e.port), Fragment(e.name));
  }

  /** One way for a client to connect; `Wss` carries a URL, `Shadowsocks` a host and port. */
  datatype Transport =
    | Wss(url: Text, cipher: Text, password: Text)
    | Shadowsocks(host: Text, port: int, cipher: Text, password: Text)

  datatype CrossPlatform = CrossPlatform(firstSupported: seq<Transport>, udp: Option<Transport>)

  const WSS_SCHEME: Text := [119, 115, 115, COLON, SLASH, SLASH]
  const TCP_SUFFIX: Text := [SLASH, 116, 99, 112]
  const UDP_SUFFIX: Text := [SLASH, 117, 100, 112]

  /** The WSS-first configuration with its plain fallback, and a UDP route when one exists. */
  function BuildCrossPlatform(domain: Text, cipher: Text, password: Text, fallbackPort: int,
                              wsPath: Text, wsUdpPath: Text, supportsUdp: bool): CrossPlatform
  {
    CrossPlatform(
      [Wss(WSS_SCHEME + domain + [SLASH] + wsPath + TCP_SUFFIX, cipher, password),
       Shadowsocks(domain, fallbackPort, cipher, password)],
      if supportsUdp && wsUdpPath != []
      then Some(Wss(WSS_SCHEME + domain + [SLASH] + wsUdpPath + UDP_SUFFIX, cipher, password))
      else None)
  }
}
