/**
 Proxy addresses (src/proxy/upstream.rs).  Text is its UTF-8 bytes, as Rust's `str` holds it; which
 byte strings are valid UTF-8 is the parameter `utf8`, so the results hold for every such predicate.
 */
module Upstream {
  import opened Prelude
  import Socks

  // ---------------------------------------------------------------- bytes

  const PERCENT: Byte := 37
  const PLUS: Byte := 43
  const SLASH: Byte := 47
  const COLON: Byte := 58
  const AT: Byte := 64
  const OPEN: Byte := 91
  const CLOSE: Byte := 93

  predicate IsDigit(b: Byte) { 48 <= b <= 57 }

  predicate IsLower(b: Byte) { 97 <= b <= 122 }

  predicate IsUpper(b: Byte) { 65 <= b <= 90 }

  function Lower(b: Byte): Byte {
    if IsUpper(b) then b + 32 else b
  }

  function LowerAll(s: Bytes): (r: Bytes)
    ensures |r| == |s| && forall i :: 0 <= i < |s| ==> r[i] == Lower(s[i])
  {
    seq(|s|, i requires 0 <= i < |s| => Lower(s[i]))
  }

  /** The index of the first `x`, or the length. */
  function Find(s: Bytes, x: Byte): (r: nat)
    ensures r <= |s| && x !in s[..r] && (r < |s| ==> s[r] == x)
    ensures r == |s| ==> x !in s
  {
    if s == [] || s[0] == x then 0
    else
      var r := Find(s[1..], x) + 1;
      assert s[..r] == [s[0]] + s[1..][..r - 1];
      r
  }

  /** One past the last `x`, or zero. */
  function FindLast(s: Bytes, x: Byte): (r: nat)
    ensures r <= |s| && x !in s[r..] && (r > 0 ==> s[r - 1] == x)
    ensures r == 0 ==> x !in s
  {
    if s == [] then 0
    else
      var n := |s| - 1;
      if s[n] == x then |s|
      else
        var r := FindLast(s[..n], x);
        assert s[r..] == s[..n][r..] + [s[n]];
        r
  }

  lemma {:induction false} FindIs(a: Bytes, x: Byte, b: Bytes)
    requires x !in a
    ensures Find(a + [x] + b, x) == |a|
  {
    if a != [] {
      assert (a + [x] + b)[1..] == a[1..] + [x] + b;
      FindIs(a[1..], x, b);
    }
  }

  lemma {:induction false} FindLastIs(a: Bytes, x: Byte, b: Bytes)
    requires x !in b
    ensures FindLast(a + [x] + b, x) == |a| + 1
  {
    var s := a + [x] + b;
    if b == [] {
      assert s[|s| - 1] == x;
    } else {
      var n := |b| - 1;
      assert s[..|s| - 1] == a + [x] + b[..n];
      FindLastIs(a, x, b[..n]);
    }
  }

  // ---------------------------------------------------------------- white space

  /** The length of the white-space character at the start, zero when there is none. */
  function LeadingSpace(s: Bytes): (n: nat)
    ensures n <= |s|
  {
    if |s| >= 1 && (9 <= s[0] <= 13 || s[0] == 32) then 1
    else if |s| >= 2 && IsSpace2(s[0], s[1]) then 2
    else if |s| >= 3 && IsSpace3(s[0], s[1], s[2]) then 3
    else 0
  }

  function TrailingSpace(s: Bytes): (n: nat)
    ensures n <= |s|
  {
    var k := |s|;
    if k >= 1 && (9 <= s[k - 1] <= 13 || s[k - 1] == 32) then 1
    else if k >= 2 && IsSpace2(s[k - 2], s[k - 1]) then 2
    else if k >= 3 && IsSpace3(s[k - 3], s[k - 2], s[k - 1]) then 3
    else 0
  }

  // U+0085 and U+00A0.
  predicate IsSpace2(a: Byte, b: Byte) {
    a == 0xC2 && (b == 0x85 || b == 0xA0)
  }

  // U+1680, U+2000..U+200A, U+2028, U+2029, U+202F, U+205F and U+3000.
  predicate IsSpace3(a: Byte, b: Byte, c: Byte) {
    || (a == 0xE1 && b == 0x9A && c == 0x80)
    || (a == 0xE2 && b == 0x80 && (0x80 <= c <= 0x8A || c == 0xA8 || c == 0xA9 || c == 0xAF))
    || (a == 0xE2 && b == 0x81 && c == 0x9F)
    || (a == 0xE3 && b == 0x80 && c == 0x80)
  }

  function TrimStart(s: Bytes): Bytes
    decreases |s|
  {
    if LeadingSpace(s) == 0 then s else TrimStart(s[LeadingSpace(s)..])
  }

  function TrimEnd(s: Bytes): Bytes
    decreases |s|
  {
    if TrailingSpace(s) == 0 then s else TrimEnd(s[..|s| - TrailingSpace(s)])
  }

  function Trim(s: Bytes): Bytes {
    TrimEnd(TrimStart(s))
  }

  // ---------------------------------------------------------------- the address

  datatype Scheme = Http | Https | Socks5

  // "http", "https", "socks5"
  function SchemeText(s: Scheme): Bytes {
    match s
    case Http => [104, 116, 116, 112]
    case Https => [104, 116, 116, 112, 115]
    case Socks5 => [115, 111, 99, 107, 115, 53]
  }

  // "://"
  const SEPARATOR: Bytes := [58, 47, 47]

  // "socks5h://"
  const SOCKS5H: Bytes := [115, 111, 99, 107, 115, 53, 104, 58, 47, 47]

  function DefaultPort(s: Scheme): Socks.Port {
    match s
    case Http => 80
    case Https => 443
    case Socks5 => 1080
  }

  datatype LoginProblem = BadEscape | EmptyUser | ControlCharacter | ColonInUser | TooLong

  datatype ParseError = BadScheme | HostPort | HasPath | BadLogin(problem: LoginProblem)

  datatype ProxyUpstream = ProxyUpstream(
    scheme: Scheme, host: Bytes, port: Socks.Port, username: Option<Bytes>, password: Option<Bytes>)

  function StripPrefixCi(s: Bytes, prefix: Bytes): Option<Bytes> {
    if |s| >= |prefix| && LowerAll(s[..|prefix|]) == LowerAll(prefix) then Some(s[|prefix|..]) else None
  }

  function SplitScheme(s: Bytes): Option<(Scheme, Bytes)> {
    match StripPrefixCi(s, SchemeText(Http) + SEPARATOR)
    case Some(r) => Some((Http, r))
    case None =>
      match StripPrefixCi(s, SchemeText(Https) + SEPARATOR)
      case Some(r) => Some((Https, r))
      case None =>
        match StripPrefixCi(s, SchemeText(Socks5) + SEPARATOR)
        case Some(r) => Some((Socks5, r))
        case None =>
          match StripPrefixCi(s, SOCKS5H)
          case Some(r) => Some((Socks5, r))
          case None => None
  }

  // '.', '-', ':' and '_'
  predicate HostByte(b: Byte) {
    IsDigit(b) || IsLower(b) || IsUpper(b) || b == 46 || b == 45 || b == COLON || b == 95
  }

  predicate HostOk(host: Bytes) {
    host != [] && forall i :: 0 <= i < |host| ==> HostByte(host[i])
  }

  /** `u16::from_str` without zero: an optional plus sign, then digits, below 65536. */
  function ParsePort(p: Bytes): Option<Socks.Port> {
    var digits := if p != [] && p[0] == PLUS then p[1..] else p;
    if digits == [] || !AllDigits(digits) || Decimal(digits) >= 65536 || Decimal(digits) == 0 then None
    else Some(Decimal(digits))
  }

  predicate AllDigits(s: Bytes) {
    forall i :: 0 <= i < |s| ==> IsDigit(s[i])
  }

  function Decimal(s: Bytes): nat
    requires AllDigits(s)
  {
    if s == [] then 0 else 10 * Decimal(s[..|s| - 1]) + (s[|s| - 1] as int - 48)
  }

  /** Host text and port text of an address, before either is checked. */
  function CutHostPort(s: Bytes): Option<(Bytes, Option<Bytes>)> {
    if s != [] && s[0] == OPEN then
      var inner := s[1..];
      var at := Find(inner, CLOSE);
      if at == |inner| then None
      else
        var after := inner[at + 1..];
        if after == [] then Some((inner[..at], None))
        else if after[0] == COLON then Some((inner[..at], Some(after[1..])))
        else None
    else
      var at := FindLast(s, COLON);
      if at == 0 then Some((s, None)) else Some((s[..at - 1], Some(s[at..])))
  }

  function SplitHostPort(s: Bytes, defaultPort: Socks.Port): Result<(Bytes, Socks.Port), ParseError> {
    match CutHostPort(s)
    case None => Err(HostPort)
    case Some((host, port)) =>
      if !HostOk(host) then Err(HostPort)
      else
        match port
        case None => Ok((LowerAll(host), defaultPort))
        case Some(p) =>
          match ParsePort(p)
          case None => Err(HostPort)
          case Some(n) => Ok((LowerAll(host), n))
  }

  // ---------------------------------------------------------------- percent-decoding

  function HexDigit(b: Byte): Option<Byte> {
    if IsDigit(b) then Some(b - 48)
    else if 97 <= b <= 102 then Some(b - 87)
    else if 65 <= b <= 70 then Some(b - 55)
    else None
  }

  /** `u8::from_str_radix(_, 16)` on two bytes, which also takes a plus sign and one digit. */
  function FromHex(a: Byte, b: Byte): Option<Byte> {
    match HexDigit(b)
    case None => None
    case Some(low) =>
      if a == PLUS then Some(low)
      else
        match HexDigit(a)
        case None => None
        case Some(high) => Some(16 * high as int + low as int)
  }

  function Unescape(s: Bytes): Option<Bytes> {
    if s == [] then Some([])
    else if s[0] != PERCENT then
      (match Unescape(s[1..])
       case None => None
       case Some(r) => Some([s[0]] + r))
    else if |s| < 3 || FromHex(s[1], s[2]).None? then None
    else
      match Unescape(s[3..])
      case None => None
      case Some(r) => Some([FromHex(s[1], s[2]).value] + r)
  }

  function PercentDecode(s: Bytes, utf8: Bytes -> bool): Option<Bytes> {
    match Unescape(s)
    case None => None
    case Some(r) => if utf8(r) then Some(r) else None
  }

  /** The index loop of `percent_decode`. */
  method PercentDecodeLoop(s: Bytes, utf8: Bytes -> bool) returns (r: Option<Bytes>)
    ensures r == PercentDecode(s, utf8)
  {
    var out: Bytes := [];
    var i := 0;
    assert s[0..] == s && (Unescape(s).Some? ==> [] + Unescape(s).value == Unescape(s).value);
    while i < |s|
      invariant 0 <= i <= |s|
      invariant Unescape(s) == match Unescape(s[i..]) case None => None case Some(r) => Some(out + r)
    {
      ghost var tail := s[i..];
      if s[i] == PERCENT {
        if i + 3 > |s| {
          return None;
        }
        var byte := FromHex(s[i + 1], s[i + 2]);
        if byte.None? {
          return None;
        }
        assert tail[3..] == s[i + 3..];
        Regroup(out, byte.value, Unescape(s[i + 3..]));
        out := out + [byte.value];
        i := i + 3;
      } else {
        assert tail[1..] == s[i + 1..];
        Regroup(out, s[i], Unescape(s[i + 1..]));
        out := out + [s[i]];
        i := i + 1;
      }
    }
    assert out + [] == out;
    r := if utf8(out) then Some(out) else None;
  }

  lemma Regroup(out: Bytes, b: Byte, more: Option<Bytes>)
    ensures more.Some? ==> out + ([b] + more.value) == out + [b] + more.value
  {
  }

  // ---------------------------------------------------------------- logins

  /** A control character in UTF-8 text: C0, DEL or C1. */
  predicate HasControl(s: Bytes) {
    exists i :: 0 <= i < |s| && (s[i] < 32 || s[i] == 127 || (s[i] == 0xC2 && i + 1 < |s| && 0x80 <= s[i + 1] <= 0x9F))
  }

  function ValidateLogin(scheme: Scheme, user: Option<Bytes>, pass: Option<Bytes>): Option<LoginProblem> {
    if user.None? then None
    else if user.value == [] then Some(EmptyUser)
    else if HasControl(user.value) || (pass.Some? && HasControl(pass.value)) then Some(ControlCharacter)
    else
      match scheme
      case Socks5 =>
        if |user.value| > 255 || (pass.Some? && |pass.value| > 255) then Some(TooLong) else None
      case _ => if COLON in user.value then Some(ColonInUser) else None
  }

  function ParseLogin(login: Option<Bytes>, utf8: Bytes -> bool): Option<(Option<Bytes>, Option<Bytes>)> {
    match login
    case None => Some((None, None))
    case Some(text) =>
      var at := Find(text, COLON);
      match PercentDecode(text[..at], utf8)
      case None => None
      case Some(user) =>
        if at == |text| then Some((Some(user), None))
        else
          match PercentDecode(text[at + 1..], utf8)
          case None => None
          case Some(pass) => Some((Some(user), Some(pass)))
  }

  // '/', '?' and '#'
  predicate HasPathByte(s: Bytes) {
    SLASH in s || 63 in s || 35 in s
  }

  function ParseAuthority(scheme: Scheme, rest: Bytes, utf8: Bytes -> bool): Result<ProxyUpstream, ParseError> {
    var at := FindLast(rest, AT);
    var login := if at == 0 then None else Some(rest[..at - 1]);
    match SplitHostPort(rest[at..], DefaultPort(scheme))
    case Err(e) => Err(e)
    case Ok((host, port)) =>
      match ParseLogin(login, utf8)
      case None => Err(BadLogin(BadEscape))
      case Some((user, pass)) =>
        match ValidateLogin(scheme, user, pass)
        case Some(problem) => Err(BadLogin(problem))
        case None => Ok(ProxyUpstream(scheme, host, port, user, pass))
  }

  function Parse(raw: Bytes, utf8: Bytes -> bool): Result<ProxyUpstream, ParseError> {
    match SplitScheme(Trim(raw))
    case None => Err(BadScheme)
    case Some((scheme, r)) =>
      var rest := if r != [] && r[|r| - 1] == SLASH then r[..|r| - 1] else r;
      if HasPathByte(rest) then Err(HasPath) else ParseAuthority(scheme, rest, utf8)
  }

  // ---------------------------------------------------------------- printing

  function DecimalText(n: nat): (r: Bytes)
    ensures r != [] && AllDigits(r)
  {
    if n < 10 then [48 + n] else DecimalText(n / 10) + [48 + n % 10]
  }

  function HostPortText(host: Bytes, port: Socks.Port): Bytes {
    (if COLON in host then [OPEN] + host + [CLOSE] else host) + [COLON] + DecimalText(port)
  }

  function Display(u: ProxyUpstream): Bytes {
    SchemeText(u.scheme) + SEPARATOR + HostPortText(u.host, u.port)
  }

  // ---------------------------------------------------------------- numbers

  lemma {:induction false} DecimalRoundTrip(n: nat)
    ensures Decimal(DecimalText(n)) == n
  {
    var text := DecimalText(n);
    if n >= 10 {
      DecimalRoundTrip(n / 10);
      assert text[..|text| - 1] == DecimalText(n / 10);
    } else {
      assert text[..0] == [];
    }
  }

  lemma PortRoundTrip(p: Socks.Port)
    requires p != 0
    ensures ParsePort(DecimalText(p)) == Some(p)
  {
    DecimalRoundTrip(p);
    assert IsDigit(DecimalText(p)[0]);
  }

  // ---------------------------------------------------------------- host and port

  /** A host as `parse` stores it. */
  predicate StoredHost(host: Bytes) {
    HostOk(host) && LowerAll(host) == host
  }

  lemma SplitStores(s: Bytes, defaultPort: Socks.Port)
    requires SplitHostPort(s, defaultPort).Ok? && defaultPort != 0
    ensures var (host, port) := SplitHostPort(s, defaultPort).value; StoredHost(host) && port != 0
  {
    var host := CutHostPort(s).value.0;
    assert LowerAll(LowerAll(host)) == LowerAll(host);
  }

  /** The bytes an accepted host-and-port text can have. */
  predicate UrlByte(b: Byte) {
    HostByte(b) || b == OPEN || b == CLOSE || b == PLUS
  }

  predicate AllUrl(s: Bytes) {
    forall i :: 0 <= i < |s| ==> UrlByte(s[i])
  }

  lemma AllUrlConcat(a: Bytes, b: Bytes)
    requires AllUrl(a) && AllUrl(b)
    ensures AllUrl(a + b)
  {
  }

  lemma UrlHasNoMarks(s: Bytes)
    requires AllUrl(s)
    ensures AT !in s && !HasPathByte(s)
  {
  }

  lemma PortIsUrl(p: Bytes)
    requires ParsePort(p).Some?
    ensures AllUrl(p)
  {
    if p[0] == PLUS {
      assert p == [PLUS] + p[1..];
    }
  }

  function PortTail(port: Option<Bytes>): Bytes {
    if port.Some? then [COLON] + port.value else []
  }

  lemma CutAt(s: Bytes, at: nat)
    requires at < |s|
    ensures s == s[..at] + ([s[at]] + s[at + 1..])
  {
  }

  lemma BracketShape(s: Bytes)
    requires s != [] && s[0] == OPEN && CutHostPort(s).Some?
    ensures var (host, port) := CutHostPort(s).value; s == [OPEN] + (host + ([CLOSE] + PortTail(port)))
  {
    var inner := s[1..];
    var at := Find(inner, CLOSE);
    var after := inner[at + 1..];
    assert s == [OPEN] + inner;
    CutAt(inner, at);
    if after != [] {
      CutAt(after, 0);
      assert after[..0] + ([COLON] + after[1..]) == [COLON] + after[1..];
    }
  }

  lemma PlainShape(s: Bytes)
    requires s == [] || s[0] != OPEN
    ensures CutHostPort(s).Some?
    ensures var (host, port) := CutHostPort(s).value; s == host + PortTail(port)
  {
    var at := FindLast(s, COLON);
    if at > 0 {
      assert s == s[..at - 1] + ([COLON] + s[at..]);
    } else {
      assert s == s + [];
    }
  }

  lemma AcceptedBytes(s: Bytes, defaultPort: Socks.Port)
    requires SplitHostPort(s, defaultPort).Ok?
    ensures s != [] && AllUrl(s)
  {
    var (host, port) := CutHostPort(s).value;
    assert AllUrl(PortTail(port)) by {
      if port.Some? {
        PortIsUrl(port.value);
        AllUrlConcat([COLON], port.value);
      }
    }
    if s != [] && s[0] == OPEN {
      BracketShape(s);
      AllUrlConcat([CLOSE], PortTail(port));
      AllUrlConcat(host, [CLOSE] + PortTail(port));
      AllUrlConcat([OPEN], host + ([CLOSE] + PortTail(port)));
    } else {
      PlainShape(s);
      AllUrlConcat(host, PortTail(port));
    }
  }

  lemma CutBracketed(host: Bytes, digits: Bytes)
    requires CLOSE !in host
    ensures CutHostPort([OPEN] + host + [CLOSE] + [COLON] + digits) == Some((host, Some(digits)))
  {
    var s := [OPEN] + host + [CLOSE] + [COLON] + digits;
    var inner := s[1..];
    assert inner == host + [CLOSE] + ([COLON] + digits);
    FindIs(host, CLOSE, [COLON] + digits);
    assert inner[..|host|] == host && inner[|host| + 1..] == [COLON] + digits;
    assert ([COLON] + digits)[1..] == digits;
  }

  lemma CutPlain(host: Bytes, digits: Bytes)
    requires host != [] && host[0] != OPEN && COLON !in digits
    ensures CutHostPort(host + [COLON] + digits) == Some((host, Some(digits)))
  {
    var s := host + [COLON] + digits;
    FindLastIs(host, COLON, digits);
    assert s[..|host|] == host && s[|host| + 1..] == digits;
  }

  lemma PrintedHostPort(host: Bytes, port: Socks.Port, defaultPort: Socks.Port)
    requires StoredHost(host) && port != 0
    ensures SplitHostPort(HostPortText(host, port), defaultPort) == Ok((host, port))
  {
    PortRoundTrip(port);
    if COLON in host {
      CutBracketed(host, DecimalText(port));
    } else {
      CutPlain(host, DecimalText(port));
    }
  }

  // ---------------------------------------------------------------- the whole address

  lemma NothingToTrim(s: Bytes)
    requires s != [] && 33 <= s[0] <= 126 && 33 <= s[|s| - 1] <= 126
    ensures Trim(s) == s
  {
  }

  lemma SchemeFound(scheme: Scheme, rest: Bytes)
    ensures SplitScheme(SchemeText(scheme) + SEPARATOR + rest) == Some((scheme, rest))
  {
    var own := SchemeText(scheme) + SEPARATOR;
    var s := own + rest;
    assert s[..|own|] == own && s[|own|..] == rest;
    var http := SchemeText(Http) + SEPARATOR;
    var https := SchemeText(Https) + SEPARATOR;
    if scheme == Https {
      assert LowerAll(s[..|http|])[4] != LowerAll(http)[4];
    }
    if scheme == Socks5 {
      assert LowerAll(s[..|http|])[0] != LowerAll(http)[0];
      assert |s| >= |https| ==> LowerAll(s[..|https|])[0] != LowerAll(https)[0];
    }
  }

  lemma NoPathConcat(a: Bytes, b: Bytes)
    requires !HasPathByte(a) && !HasPathByte(b)
    ensures !HasPathByte(a + b)
  {
  }

  /** Parsing of a scheme, then text that ends in an accepted host and port. */
  lemma ParsedAfterScheme(scheme: Scheme, before: Bytes, hostport: Bytes, utf8: Bytes -> bool)
    requires SplitHostPort(hostport, DefaultPort(scheme)).Ok? && !HasPathByte(before)
    ensures Parse(SchemeText(scheme) + SEPARATOR + (before + hostport), utf8)
         == ParseAuthority(scheme, before + hostport, utf8)
  {
    var rest := before + hostport;
    var s := SchemeText(scheme) + SEPARATOR + rest;
    assert !HasPathByte(rest) && UrlByte(rest[|rest| - 1]) by {
      AcceptedBytes(hostport, DefaultPort(scheme));
      UrlHasNoMarks(hostport);
      NoPathConcat(before, hostport);
    }
    assert s[0] == SchemeText(scheme)[0];
    assert s[|s| - 1] == rest[|rest| - 1];
    NothingToTrim(s);
    SchemeFound(scheme, rest);
  }

  lemma NoLogin(scheme: Scheme, hostport: Bytes, utf8: Bytes -> bool)
    requires SplitHostPort(hostport, DefaultPort(scheme)).Ok?
    ensures var (host, port) := SplitHostPort(hostport, DefaultPort(scheme)).value;
            ParseAuthority(scheme, hostport, utf8) == Ok(ProxyUpstream(scheme, host, port, None, None))
  {
    AcceptedBytes(hostport, DefaultPort(scheme));
    UrlHasNoMarks(hostport);
    assert FindLast(hostport, AT) == 0;
    assert hostport[0..] == hostport;
  }

  /**
   Parsing the printed form of any parsed address gives back its scheme, host and port, and no login;
   brackets and colons in the host included.
   */
  lemma DisplayRoundTrip(raw: Bytes, utf8: Bytes -> bool)
    requires Parse(raw, utf8).Ok?
    ensures var u := Parse(raw, utf8).value;
            Parse(Display(u), utf8) == Ok(ProxyUpstream(u.scheme, u.host, u.port, None, None))
  {
    var u := Parse(raw, utf8).value;
    ParsedIsStored(raw, utf8);
    PrintedParses(u.scheme, u.host, u.port, utf8);
  }

  lemma PrintedParses(scheme: Scheme, host: Bytes, port: Socks.Port, utf8: Bytes -> bool)
    requires StoredHost(host) && port != 0
    ensures Parse(SchemeText(scheme) + SEPARATOR + HostPortText(host, port), utf8)
         == Ok(ProxyUpstream(scheme, host, port, None, None))
  {
    var text := HostPortText(host, port);
    PrintedHostPort(host, port, DefaultPort(scheme));
    ParsedAfterScheme(scheme, [], text, utf8);
    assert [] + text == text;
    NoLogin(scheme, text, utf8);
  }

  lemma AuthorityIsStored(scheme: Scheme, rest: Bytes, utf8: Bytes -> bool)
    requires ParseAuthority(scheme, rest, utf8).Ok?
    ensures var u := ParseAuthority(scheme, rest, utf8).value;
            StoredHost(u.host) && u.port != 0 && ValidateLogin(u.scheme, u.username, u.password).None?
  {
    SplitStores(rest[FindLast(rest, AT)..], DefaultPort(scheme));
  }

  lemma ParsedIsStored(raw: Bytes, utf8: Bytes -> bool)
    requires Parse(raw, utf8).Ok?
    ensures var u := Parse(raw, utf8).value;
            StoredHost(u.host) && u.port != 0 && ValidateLogin(u.scheme, u.username, u.password).None?
  {
    var (scheme, r) := SplitScheme(Trim(raw)).value;
    var rest := if r != [] && r[|r| - 1] == SLASH then r[..|r| - 1] else r;
    AuthorityIsStored(scheme, rest, utf8);
  }

  // ---------------------------------------------------------------- logins

  /**
   `text` is `raw` with some bytes written as themselves and some as `%hh` in either case; a percent
   sign and the bytes that end an authority must be escaped (section 2.1 of RFC 3986).
   */
  predicate Escapes(text: Bytes, raw: Bytes)
    decreases |raw|
  {
    if raw == [] then text == []
    else
      || (text != [] && text[0] == raw[0] && raw[0] != PERCENT && !HasPathByte([raw[0]])
          && Escapes(text[1..], raw[1..]))
      || (|text| >= 3 && text[0] == PERCENT && text[1] != PLUS
          && FromHex(text[1], text[2]) == Some(raw[0]) && Escapes(text[3..], raw[1..]))
  }

  lemma {:induction false} EscapedDecodes(text: Bytes, raw: Bytes)
    requires Escapes(text, raw)
    ensures Unescape(text) == Some(raw) && !HasPathByte(text)
    decreases |raw|
  {
    if raw != [] {
      assert raw == [raw[0]] + raw[1..];
      if text[0] == PERCENT {
        EscapedDecodes(text[3..], raw[1..]);
        assert text == [text[0], text[1], text[2]] + text[3..];
      } else {
        EscapedDecodes(text[1..], raw[1..]);
        assert text == [text[0]] + text[1..];
      }
    }
  }

  /** The text of a login: escaped user, and escaped password after a colon if there is one. */
  function LoginText(user: Bytes, pass: Option<Bytes>): Bytes {
    if pass.Some? then user + [COLON] + pass.value else user
  }

  lemma LoginTextParses(user: Bytes, pass: Option<Bytes>, userText: Bytes, passText: Option<Bytes>, utf8: Bytes -> bool)
    requires Escapes(userText, user) && COLON !in userText && utf8(user)
    requires pass.Some? == passText.Some?
    requires pass.Some? ==> Escapes(passText.value, pass.value) && utf8(pass.value)
    ensures ParseLogin(Some(LoginText(userText, passText)), utf8) == Some((Some(user), pass))
    ensures !HasPathByte(LoginText(userText, passText))
  {
    EscapedDecodes(userText, user);
    var text := LoginText(userText, passText);
    if pass.Some? {
      EscapedDecodes(passText.value, pass.value);
      FindIs(userText, COLON, passText.value);
      assert text[..|userText|] == userText && text[|userText| + 1..] == passText.value;
    } else {
      assert Find(text, COLON) == |text|;
      assert text[..|text|] == text;
    }
  }

  /**
   Any acceptable login, escaped in any way, put in front of any accepted host and port, is recovered
   exactly by parsing; at-signs in the login and colons in the password need no escaping.
   */
  lemma LoginRoundTrip(scheme: Scheme, hostport: Bytes, user: Bytes, pass: Option<Bytes>,
                       userText: Bytes, passText: Option<Bytes>, utf8: Bytes -> bool)
    requires SplitHostPort(hostport, DefaultPort(scheme)).Ok?
    requires ValidateLogin(scheme, Some(user), pass).None? && utf8(user) && (pass.Some? ==> utf8(pass.value))
    requires Escapes(userText, user) && COLON !in userText
    requires pass.Some? == passText.Some? && (pass.Some? ==> Escapes(passText.value, pass.value))
    ensures var (host, port) := SplitHostPort(hostport, DefaultPort(scheme)).value;
            Parse(SchemeText(scheme) + SEPARATOR + (LoginText(userText, passText) + [AT] + hostport), utf8)
            == Ok(ProxyUpstream(scheme, host, port, Some(user), pass))
  {
    var login := LoginText(userText, passText);
    LoginTextParses(user, pass, userText, passText, utf8);
    WithLogin(scheme, login, hostport, user, pass, utf8);
  }

  function HexText(n: Byte): Byte
    requires n < 16
  {
    if n < 10 then 48 + n else 55 + n
  }

  /** Every byte written as `%HH`. */
  function PercentEscape(raw: Bytes): Bytes {
    if raw == [] then []
    else [PERCENT, HexText(raw[0] as int / 16), HexText(raw[0] as int % 16)] + PercentEscape(raw[1..])
  }

  lemma HexRoundTrip(b: Byte)
    ensures FromHex(HexText(b as int / 16), HexText(b as int % 16)) == Some(b)
    ensures HexText(b as int / 16) !in [PLUS, COLON] && HexText(b as int % 16) != COLON
  {
  }

  lemma {:induction false} PercentEscapeEscapes(raw: Bytes)
    ensures Escapes(PercentEscape(raw), raw) && COLON !in PercentEscape(raw)
  {
    if raw != [] {
      PercentEscapeEscapes(raw[1..]);
      HexRoundTrip(raw[0]);
      assert PercentEscape(raw)[3..] == PercentEscape(raw[1..]);
    }
  }

  /** In particular every acceptable login has a spelling that parses back to it. */
  lemma EscapedLoginParses(scheme: Scheme, hostport: Bytes, user: Bytes, pass: Option<Bytes>, utf8: Bytes -> bool)
    requires SplitHostPort(hostport, DefaultPort(scheme)).Ok?
    requires ValidateLogin(scheme, Some(user), pass).None? && utf8(user) && (pass.Some? ==> utf8(pass.value))
    ensures var (host, port) := SplitHostPort(hostport, DefaultPort(scheme)).value;
            var passText := if pass.Some? then Some(PercentEscape(pass.value)) else None;
            Parse(SchemeText(scheme) + SEPARATOR + (LoginText(PercentEscape(user), passText) + [AT] + hostport), utf8)
            == Ok(ProxyUpstream(scheme, host, port, Some(user), pass))
  {
    var passText := if pass.Some? then Some(PercentEscape(pass.value)) else None;
    PercentEscapeEscapes(user);
    if pass.Some? {
      PercentEscapeEscapes(pass.value);
    }
    LoginRoundTrip(scheme, hostport, user, pass, PercentEscape(user), passText, utf8);
  }

  lemma CutAtSign(scheme: Scheme, login: Bytes, hostport: Bytes)
    requires SplitHostPort(hostport, DefaultPort(scheme)).Ok?
    ensures var rest := login + [AT] + hostport;
            FindLast(rest, AT) == |login| + 1 && rest[..|login|] == login && rest[|login| + 1..] == hostport
  {
    AcceptedBytes(hostport, DefaultPort(scheme));
    UrlHasNoMarks(hostport);
    FindLastIs(login, AT, hostport);
  }

  lemma WithLogin(scheme: Scheme, login: Bytes, hostport: Bytes, user: Bytes, pass: Option<Bytes>, utf8: Bytes -> bool)
    requires SplitHostPort(hostport, DefaultPort(scheme)).Ok? && !HasPathByte(login)
    requires ParseLogin(Some(login), utf8) == Some((Some(user), pass))
    requires ValidateLogin(scheme, Some(user), pass).None?
    ensures var (host, port) := SplitHostPort(hostport, DefaultPort(scheme)).value;
            Parse(SchemeText(scheme) + SEPARATOR + (login + [AT] + hostport), utf8)
            == Ok(ProxyUpstream(scheme, host, port, Some(user), pass))
  {
    NoPathConcat(login, [AT]);
    ParsedAfterScheme(scheme, login + [AT], hostport, utf8);
    AuthorityWithLogin(scheme, login, hostport, user, pass, utf8);
  }

  lemma AuthorityWithLogin(scheme: Scheme, login: Bytes, hostport: Bytes,
                           user: Bytes, pass: Option<Bytes>, utf8: Bytes -> bool)
    requires SplitHostPort(hostport, DefaultPort(scheme)).Ok?
    requires ParseLogin(Some(login), utf8) == Some((Some(user), pass))
    requires ValidateLogin(scheme, Some(user), pass).None?
    ensures var (host, port) := SplitHostPort(hostport, DefaultPort(scheme)).value;
            ParseAuthority(scheme, login + [AT] + hostport, utf8)
            == Ok(ProxyUpstream(scheme, host, port, Some(user), pass))
  {
    CutAtSign(scheme, login, hostport);
  }

  // ---------------------------------------------------------------- using the login

  /** The text `basic_auth` encodes. */
  function BasicText(user: Bytes, pass: Option<Bytes>): Bytes {
    user + [COLON] + (if pass.Some? then pass.value else [])
  }

  /** Section 2 of RFC 7617: a server splits at the first colon. */
  function SplitBasic(text: Bytes): (Bytes, Bytes) {
    var at := Find(text, COLON);
    if at == |text| then (text, []) else (text[..at], text[at + 1..])
  }

  /** Splitting gives the login back exactly when the user has no colon. */
  lemma BasicSplitsIff(user: Bytes, pass: Option<Bytes>)
    ensures SplitBasic(BasicText(user, pass)) == (user, if pass.Some? then pass.value else [])
            <==> COLON !in user
  {
    var p := if pass.Some? then pass.value else [];
    var text := BasicText(user, pass);
    if COLON !in user {
      FindIs(user, COLON, p);
      assert text[..|user|] == user && text[|user| + 1..] == p;
    } else {
      var k := Find(user, COLON);
      assert text == user[..k] + [COLON] + (user[k + 1..] + [COLON] + p);
      FindIs(user[..k], COLON, user[k + 1..] + [COLON] + p);
      assert |SplitBasic(text).0| == k < |user|;
    }
  }

  /**
   Every login `parse` accepts can be used: over HTTP a server's split recovers it, and over SOCKS5 the
   handshake's length checks never fail.
   */
  lemma ParsedLoginIsUsable(raw: Bytes, utf8: Bytes -> bool)
    requires Parse(raw, utf8).Ok? && Parse(raw, utf8).value.username.Some?
    ensures var u := Parse(raw, utf8).value;
            var pass := if u.password.Some? then u.password.value else [];
            && (u.scheme != Socks5 ==>
                  SplitBasic(BasicText(u.username.value, u.password)) == (u.username.value, pass))
            && (u.scheme == Socks5 ==> Socks.FitsLogin(Socks.Login(u.username.value, pass)))
  {
    ParsedIsStored(raw, utf8);
    var u := Parse(raw, utf8).value;
    BasicSplitsIff(u.username.value, u.password);
  }
}
