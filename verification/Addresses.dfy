/**
 What proxy addresses mean, by their bytes (src/proxy/upstream.rs): which texts name which scheme and
 port, what around and inside an address is ignored, and what is refused.
 */
module Addresses {
  import opened Prelude
  import opened Upstream
  import Socks

  // "http://", "https://", "socks5://" and "socks5h://"
  const HTTP: Bytes := [104, 116, 116, 112, 58, 47, 47]
  const HTTPS: Bytes := [104, 116, 116, 112, 115, 58, 47, 47]
  const SOCKS: Bytes := [115, 111, 99, 107, 115, 53, 58, 47, 47]
  const SOCKS_H: Bytes := [115, 111, 99, 107, 115, 53, 104, 58, 47, 47]

  // ---------------------------------------------------------------- letters

  /** The letters A to Z become a to z, and nothing else changes. */
  lemma LowerIs(b: Byte)
    ensures Lower(b) == if 65 <= b <= 90 then b + 32 else b
  {
  }

  /** The bytes of a host: digits, letters, full stop, hyphen, colon, underscore. */
  lemma HostByteIs(b: Byte)
    ensures HostByte(b) <==> 48 <= b <= 57 || 65 <= b <= 90 || 97 <= b <= 122 || b in [46, 45, 58, 95]
  {
  }

  /** Hexadecimal digits in either case, and the sign that the standard library lets stand for the first one. */
  lemma HexDigits(b: Byte, n: Byte)
    ensures n < 10 ==> HexDigit(48 + n) == Some(n)
    ensures n < 6 ==> HexDigit(97 + n) == Some(10 + n) && HexDigit(65 + n) == Some(10 + n)
    ensures !(48 <= b <= 57) && !(65 <= b <= 70) && !(97 <= b <= 102) ==> HexDigit(b) == None
    ensures FromHex(43, b) == HexDigit(b)
  {
  }

  // ---------------------------------------------------------------- schemes

  /** `p` is the start of an address of the scheme, in any case. */
  predicate Names(p: Bytes, scheme: Scheme) {
    || (scheme == Http && LowerAll(p) == HTTP)
    || (scheme == Https && LowerAll(p) == HTTPS)
    || (scheme == Socks5 && (LowerAll(p) == SOCKS || LowerAll(p) == SOCKS_H))
  }

  function PortOf(scheme: Scheme): Socks.Port {
    match scheme
    case Http => 80
    case Https => 443
    case Socks5 => 1080
  }

  lemma StripIs(p: Bytes, rest: Bytes, prefix: Bytes)
    requires LowerAll(prefix) == prefix
    ensures LowerAll(p) == prefix ==> StripPrefixCi(p + rest, prefix) == Some(rest)
    ensures (exists i :: 0 <= i < |p| && i < |prefix| && LowerAll(p)[i] != prefix[i]) ==>
              StripPrefixCi(p + rest, prefix) == None
  {
    var s := p + rest;
    if |s| >= |prefix| {
      assert forall i :: 0 <= i < |p| && i < |prefix| ==> LowerAll(s[..|prefix|])[i] == LowerAll(p)[i];
    }
    if LowerAll(p) == prefix {
      assert s[..|prefix|] == p && s[|prefix|..] == rest;
    }
  }

  lemma SchemeBytes()
    ensures SchemeText(Http) + SEPARATOR == HTTP && LowerAll(HTTP) == HTTP
    ensures SchemeText(Https) + SEPARATOR == HTTPS && LowerAll(HTTPS) == HTTPS
    ensures SchemeText(Socks5) + SEPARATOR == SOCKS && LowerAll(SOCKS) == SOCKS
    ensures SOCKS5H == SOCKS_H && LowerAll(SOCKS_H) == SOCKS_H
  {
  }

  lemma NamedIsFound(p: Bytes, scheme: Scheme, rest: Bytes)
    requires Names(p, scheme)
    ensures SplitScheme(p + rest) == Some((scheme, rest))
  {
    SchemeBytes();
    StripIs(p, rest, HTTP);
    StripIs(p, rest, HTTPS);
    StripIs(p, rest, SOCKS);
    StripIs(p, rest, SOCKS_H);
    match scheme
    case Http =>
    case Https => assert LowerAll(p)[4] != HTTP[4];
    case Socks5 =>
      assert LowerAll(p)[0] != HTTP[0] && LowerAll(p)[0] != HTTPS[0];
      if LowerAll(p) == SOCKS_H {
        assert LowerAll(p)[6] != SOCKS[6];
      }
  }

  /** An address that starts with none of the four is refused. */
  lemma OtherSchemesRefused(raw: Bytes, utf8: Bytes -> bool)
    requires var s := Trim(raw);
             forall p :: p in [HTTP, HTTPS, SOCKS, SOCKS_H] ==> |s| < |p| || LowerAll(s[..|p|]) != p
    ensures Parse(raw, utf8) == Err(BadScheme)
  {
    SchemeBytes();
    assert HTTP in [HTTP, HTTPS, SOCKS, SOCKS_H] && HTTPS in [HTTP, HTTPS, SOCKS, SOCKS_H];
    assert SOCKS in [HTTP, HTTPS, SOCKS, SOCKS_H] && SOCKS_H in [HTTP, HTTPS, SOCKS, SOCKS_H];
  }

  // ---------------------------------------------------------------- what is around an address

  /** White space of one byte: tab, line feed, vertical tab, form feed, carriage return, space. */
  ghost predicate Blank(s: Bytes) {
    forall i :: 0 <= i < |s| ==> s[i] in [9, 10, 11, 12, 13, 32]
  }

  predicate Visible(b: Byte) {
    33 <= b <= 126
  }

  lemma {:induction false} BlankStart(a: Bytes, s: Bytes)
    requires Blank(a) && s != [] && Visible(s[0])
    ensures TrimStart(a + s) == s
  {
    if a == [] {
      assert a + s == s;
    } else {
      assert (a + s)[0] == a[0] && (a + s)[1..] == a[1..] + s;
      BlankStart(a[1..], s);
    }
  }

  lemma {:induction false} BlankEnd(s: Bytes, b: Bytes)
    requires Blank(b) && s != [] && Visible(s[|s| - 1])
    ensures TrimEnd(s + b) == s
  {
    if b == [] {
      assert s + b == s;
    } else {
      var n := |b| - 1;
      assert (s + b)[|s + b| - 1] == b[n] && (s + b)[..|s + b| - 1] == s + b[..n];
      BlankEnd(s, b[..n]);
    }
  }

  /** Blanks around an address are ignored. */
  lemma BlanksIgnored(a: Bytes, s: Bytes, b: Bytes)
    requires Blank(a) && Blank(b) && s != [] && Visible(s[0]) && Visible(s[|s| - 1])
    ensures Trim(a + s + b) == s
  {
    assert a + s + b == a + (s + b);
    assert (s + b)[0] == s[0];
    BlankStart(a, s + b);
    BlankEnd(s, b);
  }

  function Slash(present: bool): Bytes {
    if present then [47] else []
  }

  /** The visible text after a scheme's start, with or without one slash at its end. */
  lemma AfterScheme(a: Bytes, p: Bytes, scheme: Scheme, rest: Bytes, slash: bool, b: Bytes, utf8: Bytes -> bool)
    requires Blank(a) && Blank(b) && Names(p, scheme)
    requires rest != [] && Visible(rest[|rest| - 1]) && rest[|rest| - 1] != 47
    ensures Parse(a + (p + (rest + Slash(slash))) + b, utf8)
         == if 47 in rest || 63 in rest || 35 in rest then Err(HasPath) else ParseAuthority(scheme, rest, utf8)
  {
    var tail := rest + Slash(slash);
    var s := p + tail;
    StartIsVisible(p, scheme);
    assert s[0] == p[0] && s[|s| - 1] == tail[|tail| - 1];
    BlanksIgnored(a, s, b);
    NamedIsFound(p, scheme, tail);
    if slash {
      assert tail[..|tail| - 1] == rest;
    } else {
      assert tail == rest;
    }
  }

  lemma StartIsVisible(p: Bytes, scheme: Scheme)
    requires Names(p, scheme)
    ensures p != [] && Visible(p[0])
  {
    assert LowerAll(p)[0] == Lower(p[0]);
  }

  // ---------------------------------------------------------------- default ports

  /** A host as it may be written without brackets. */
  ghost predicate PlainHost(host: Bytes) {
    HostOk(host) && 58 !in host
  }

  lemma PlainHostCut(host: Bytes, defaultPort: Socks.Port)
    requires PlainHost(host)
    ensures SplitHostPort(host, defaultPort) == Ok((LowerAll(host), defaultPort))
  {
    assert FindLast(host, COLON) == 0;
  }

  lemma BracketedHostCut(host: Bytes, defaultPort: Socks.Port)
    requires HostOk(host)
    ensures SplitHostPort([91] + host + [93], defaultPort) == Ok((LowerAll(host), defaultPort))
  {
    var s := [91] + host + [93];
    var inner := s[1..];
    assert inner == host + [93] + [];
    FindIs(host, 93, []);
    assert inner[..|host|] == host && inner[|host| + 1..] == [];
  }

  /**
   An address without a port has its scheme's: 80 for http, 443 for https, 1080 for socks5 and socks5h;
   with or without brackets, a final slash, blanks around it, and in any case of letters.
   */
  lemma DefaultPorts(a: Bytes, p: Bytes, scheme: Scheme, host: Bytes, brackets: bool, slash: bool, b: Bytes,
                     utf8: Bytes -> bool)
    requires Blank(a) && Blank(b) && Names(p, scheme) && (if brackets then HostOk(host) else PlainHost(host))
    ensures var text := if brackets then [91] + host + [93] else host;
            Parse(a + (p + (text + Slash(slash))) + b, utf8)
            == Ok(ProxyUpstream(scheme, LowerAll(host), PortOf(scheme), None, None))
  {
    var text := if brackets then [91] + host + [93] else host;
    if brackets {
      BracketedHostCut(host, DefaultPort(scheme));
    } else {
      PlainHostCut(host, DefaultPort(scheme));
    }
    HostPortParses(a, p, scheme, text, slash, b, utf8);
  }

  /** And with a port, that port: any from 1 to 65535 in decimal, with or without a plus sign. */
  lemma GivenPorts(a: Bytes, p: Bytes, scheme: Scheme, host: Bytes, port: Socks.Port, plus: bool, slash: bool,
                   b: Bytes, utf8: Bytes -> bool)
    requires Blank(a) && Blank(b) && Names(p, scheme) && HostOk(host) && port != 0
    ensures var digits := (if plus then [43] else []) + DecimalText(port);
            var text := if 58 in host then [91] + host + [93] + [58] + digits else host + [58] + digits;
            Parse(a + (p + (text + Slash(slash))) + b, utf8)
            == Ok(ProxyUpstream(scheme, LowerAll(host), port, None, None))
  {
    var digits := (if plus then [43] else []) + DecimalText(port);
    var text := if 58 in host then [91] + host + [93] + [58] + digits else host + [58] + digits;
    PortText(port, plus);
    if 58 in host {
      CutBracketed(host, digits);
    } else {
      CutPlain(host, digits);
    }
    HostPortParses(a, p, scheme, text, slash, b, utf8);
  }

  lemma PortText(port: Socks.Port, plus: bool)
    requires port != 0
    ensures var digits := (if plus then [43] else []) + DecimalText(port);
            ParsePort(digits) == Some(port) && 58 !in digits
  {
    PortRoundTrip(port);
    var digits := (if plus then [43] else []) + DecimalText(port);
    DecimalRoundTrip(port);
    if plus {
      assert digits[1..] == DecimalText(port);
    } else {
      assert digits == DecimalText(port);
    }
  }

  lemma HostPortParses(a: Bytes, p: Bytes, scheme: Scheme, text: Bytes, slash: bool, b: Bytes, utf8: Bytes -> bool)
    requires Blank(a) && Blank(b) && Names(p, scheme) && SplitHostPort(text, DefaultPort(scheme)).Ok?
    ensures var (host, port) := SplitHostPort(text, DefaultPort(scheme)).value;
            Parse(a + (p + (text + Slash(slash))) + b, utf8) == Ok(ProxyUpstream(scheme, host, port, None, None))
  {
    AcceptedBytes(text, DefaultPort(scheme));
    UrlHasNoMarks(text);
    assert UrlByte(text[|text| - 1]);
    AfterScheme(a, p, scheme, text, slash, b, utf8);
    NoLogin(scheme, text, utf8);
  }

  // ---------------------------------------------------------------- what is refused

  /** A port is refused exactly if it is not an optional plus sign and decimal digits for 1 to 65535. */
  lemma PortIff(p: Bytes)
    ensures var digits := if p != [] && p[0] == 43 then p[1..] else p;
            ParsePort(p) == if digits != [] && AllDigits(digits) && 1 <= Decimal(digits) <= 65535
                            then Some(Decimal(digits)) else None
  {
  }

  /** The value of decimal digits. */
  lemma DecimalIs(front: Bytes, d: Byte)
    requires AllDigits(front) && 48 <= d <= 57
    ensures Decimal([]) == 0 && Decimal(front + [d]) == 10 * Decimal(front) + d as int - 48
  {
    assert (front + [d])[..|front|] == front;
  }

  /** The text after the last at-sign that is no host and port is refused before the login is looked at. */
  lemma HostBeforeLogin(scheme: Scheme, login: Bytes, text: Bytes, utf8: Bytes -> bool)
    requires 64 !in text && SplitHostPort(text, PortOf(scheme)).Err?
    ensures ParseAuthority(scheme, login + [64] + text, utf8) == Err(HostPort)
  {
    FindLastIs(login, 64, text);
    var rest := login + [64] + text;
    assert rest[|login| + 1..] == text;
  }

  /** Which logins are refused, and why, in the order of the tests. */
  lemma LoginRefused(scheme: Scheme, user: Bytes, pass: Option<Bytes>)
    ensures ValidateLogin(scheme, None, pass) == None
    ensures ValidateLogin(scheme, Some(user), pass)
         == if user == [] then Some(EmptyUser)
            else if Controls(user) || (pass.Some? && Controls(pass.value)) then Some(ControlCharacter)
            else if scheme == Socks5 then
              if |user| > 255 || (pass.Some? && |pass.value| > 255) then Some(TooLong) else None
            else if 58 in user then Some(ColonInUser) else None
  {
  }

  /** A control character in UTF-8: below a space, DEL, or the two bytes of U+0080 to U+009F. */
  predicate Controls(s: Bytes) {
    || (exists i :: 0 <= i < |s| && (s[i] < 32 || s[i] == 127))
    || (exists i :: 0 <= i < |s| - 1 && s[i] == 0xC2 && 128 <= s[i + 1] <= 159)
  }

  // ---------------------------------------------------------------- escapes

  /** Reading text with escapes, from the front: `%` takes two hexadecimal digits, or the text is refused. */
  lemma EscapesRead(b: Byte, a: Byte, c: Byte, s: Bytes)
    ensures Unescape([]) == Some([])
    ensures b != 37 ==> Unescape([b] + s) == match Unescape(s) case None => None case Some(r) => Some([b] + r)
    ensures Unescape([37]) == None && Unescape([37, a]) == None
    ensures FromHex(a, c) == None ==> Unescape([37, a, c] + s) == None
    ensures FromHex(a, c).Some? ==>
              Unescape([37, a, c] + s)
              == match Unescape(s) case None => None case Some(r) => Some([FromHex(a, c).value] + r)
  {
    assert ([b] + s)[1..] == s && ([37, a, c] + s)[3..] == s;
  }

  /** A login with a bad escape, or that is not text once read, is refused; a colon starts the password. */
  lemma LoginTextIs(user: Bytes, pass: Bytes, utf8: Bytes -> bool)
    requires 58 !in user
    ensures ParseLogin(None, utf8) == Some((None, None))
    ensures var u := Unescape(user);
            ParseLogin(Some(user), utf8) == if u.Some? && utf8(u.value) then Some((Some(u.value), None)) else None
    ensures var u, p := Unescape(user), Unescape(pass);
            ParseLogin(Some(user + [58] + pass), utf8)
            == if u.Some? && utf8(u.value) && p.Some? && utf8(p.value) then Some((Some(u.value), Some(p.value)))
               else None
  {
    assert Find(user, COLON) == |user| && user[..|user|] == user;
    FindIs(user, 58, pass);
    var text := user + [58] + pass;
    assert text[..|user|] == user && text[|user| + 1..] == pass;
  }
}
