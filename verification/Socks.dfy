/**
 The SOCKS5 client handshake (src/proxy/socks.rs; RFC 1928, RFC 1929).  `Connect` is the client.  A
 server's view is written from the RFCs: `ServerParse` reads what a client sent, `ServerAnswers`
 builds what a server may answer, for every bound-address form.
 */
module Socks {
  import opened Prelude

  const VERSION: Byte := 0x05
  const NO_AUTH: Byte := 0x00
  const USER_PASS: Byte := 0x02
  const NO_ACCEPTABLE: Byte := 0xff

  /** An address as section 5 of RFC 1928 gives it; names are the host's bytes. */
  datatype Address = V4(octets: Bytes) | V6(octets: Bytes) | Name(bytes: Bytes) {
    predicate Valid() {
      match this
      case V4(o) => |o| == 4
      case V6(o) => |o| == 16
      case Name(b) => |b| <= 255
    }
  }

  datatype Login = Login(user: Bytes, pass: Bytes)

  datatype ProxyError = LoginFailed | Refused | Unreachable

  type Port = x: int | 0 <= x < 65536

  function PortBytes(p: Port): Bytes {
    [p / 256, p % 256]
  }

  /** Sections 4 and 5 of RFC 1928: address type, address. */
  function AddressBytes(a: Address): Bytes
    requires a.Valid()
  {
    match a
    case V4(o) => [0x01] + o
    case V6(o) => [0x04] + o
    case Name(b) => [0x03, |b|] + b
  }

  // ---------------------------------------------------------------- the stream and the client

  class Stream {
    var input: Bytes       // what the server will have sent
    var output: Bytes      // what the client has written
    var writesLeft: nat    // writes that will succeed

    constructor (input: Bytes, writesLeft: nat)
      ensures this.input == input && output == [] && this.writesLeft == writesLeft
    {
      this.input, output, this.writesLeft := input, [], writesLeft;
    }

    method WriteAll(b: Bytes) returns (ok: bool)
      modifies this`output, this`writesLeft
      ensures ok <==> old(writesLeft) > 0
      ensures ok ==> output == old(output) + b && writesLeft == old(writesLeft) - 1
      ensures !ok ==> output == old(output) && writesLeft == 0
    {
      ok := writesLeft > 0;
      if ok {
        output := output + b;
        writesLeft := writesLeft - 1;
      }
    }

    /** Reads exactly `n` bytes, or fails having used up what there was. */
    method ReadExact(n: nat) returns (r: Option<Bytes>)
      modifies this`input
      ensures r.Some? <==> |old(input)| >= n
      ensures r.Some? ==> r.value == old(input)[..n] && input == old(input)[n..]
    {
      if |input| >= n {
        r := Some(input[..n]);
        input := input[n..];
      } else {
        input := [];
        r := None;
      }
    }
  }

  // ---------------------------------------------------------------- what a server answers

  /** A complete, accepting set of answers, and the bytes after it. */
  datatype Answers = Answers(authed: bool, rest: Bytes)

  /** The length of address and port after the fixed part of a reply (section 6 of RFC 1928). */
  function BoundLength(b: Bytes): Option<nat>
    requires |b| >= 1
  {
    if b[0] == 0x01 then Some(1 + 4 + 2)
    else if b[0] == 0x04 then Some(1 + 16 + 2)
    else if b[0] == 0x03 && |b| >= 2 then Some(2 + b[1] as int + 2)
    else None
  }

  function ParseReply(b: Bytes, authed: bool): Option<Answers> {
    if |b| < 4 || b[0] != VERSION || b[1] != 0 then None
    else
      match BoundLength(b[3..])
      case None => None
      case Some(n) => if |b| < 3 + n then None else Some(Answers(authed, b[3 + n..]))
  }

  function ParseAnswers(b: Bytes): Option<Answers> {
    if |b| < 2 || b[0] != VERSION then None
    else if b[1] == NO_AUTH then ParseReply(b[2..], false)
    else if b[1] == USER_PASS && |b| >= 4 && b[3] == 0 then ParseReply(b[4..], true)
    else None
  }

  /** The answers of a server that accepts, with the given bound address and port. */
  function ServerAnswers(authed: bool, reserved: Byte, bound: Address, port: Port): Bytes
    requires bound.Valid()
  {
    (if authed then [VERSION, USER_PASS, 0x01, 0x00] else [VERSION, NO_AUTH]) + ReplyBytes(reserved, bound, port)
  }

  /** Section 6 of RFC 1928, for a request that succeeded. */
  function ReplyBytes(reserved: Byte, bound: Address, port: Port): Bytes
    requires bound.Valid()
  {
    [VERSION, 0x00, reserved] + (AddressBytes(bound) + PortBytes(port))
  }

  lemma ReplyRoundTrip(reserved: Byte, bound: Address, port: Port, tunnel: Bytes, authed: bool)
    requires bound.Valid()
    ensures ParseReply(ReplyBytes(reserved, bound, port) + tunnel, authed) == Some(Answers(authed, tunnel))
  {
    var tail := AddressBytes(bound) + PortBytes(port);
    var b := ReplyBytes(reserved, bound, port) + tunnel;
    assert b[3..] == tail + tunnel;
    var n := |tail|;
    assert (tail + tunnel)[0] == AddressBytes(bound)[0];
    assert bound.Name? ==> (tail + tunnel)[1] == |bound.bytes|;
    assert BoundLength(tail + tunnel) == Some(n);
    assert b[3 + n..] == tunnel;
  }

  lemma AfterPrefix(prefix: Bytes, reply: Bytes, tunnel: Bytes)
    ensures (prefix + reply + tunnel)[|prefix|..] == reply + tunnel
    ensures forall i :: 0 <= i < |prefix| ==> (prefix + reply + tunnel)[i] == prefix[i]
  {
  }

  /** Whatever address form a server binds, the client's reading of it ends where the tunnel begins. */
  lemma AnswersRoundTrip(authed: bool, reserved: Byte, bound: Address, port: Port, tunnel: Bytes)
    requires bound.Valid()
    ensures ParseAnswers(ServerAnswers(authed, reserved, bound, port) + tunnel) == Some(Answers(authed, tunnel))
  {
    var reply := ReplyBytes(reserved, bound, port);
    ReplyRoundTrip(reserved, bound, port, tunnel, authed);
    if authed {
      AfterPrefix([VERSION, USER_PASS, 0x01, 0x00], reply, tunnel);
    } else {
      AfterPrefix([VERSION, NO_AUTH], reply, tunnel);
    }
  }

  // ---------------------------------------------------------------- what a server reads

  datatype Request = Request(methods: Bytes, login: Option<Login>, target: Address, port: Port, rest: Bytes)

  function ParseAddress(b: Bytes): Option<(Address, Bytes)> {
    if |b| < 1 then None
    else if b[0] == 0x01 then if |b| < 5 then None else Some((V4(b[1..5]), b[5..]))
    else if b[0] == 0x04 then if |b| < 17 then None else Some((V6(b[1..17]), b[17..]))
    else if b[0] == 0x03 && |b| >= 2 then
      var end := 2 + b[1] as int;
      if |b| < end then None else Some((Name(b[2..end]), b[end..]))
    else None
  }

  /** Section 4 of RFC 1928. */
  function ParseConnect(b: Bytes, methods: Bytes, login: Option<Login>): Option<Request> {
    if |b| < 3 || b[..3] != [VERSION, 0x01, 0x00] then None
    else
      match ParseAddress(b[3..])
      case None => None
      case Some((target, rest)) =>
        if |rest| < 2 then None
        else Some(Request(methods, login, target, 256 * rest[0] as int + rest[1] as int, rest[2..]))
  }

  /** Section 2 of RFC 1929. */
  function ParseLogin(b: Bytes): Option<(Login, Bytes)> {
    if |b| < 2 || b[0] != 0x01 || |b| < 3 + b[1] as int then None
    else
      var u := b[1] as int;
      var p := b[2 + u] as int;
      if |b| < 3 + u + p then None
      else Some((Login(b[2..2 + u], b[3 + u..3 + u + p]), b[3 + u + p..]))
  }

  /** Section 3 of RFC 1928, then the login if the server asked for one, then the request. */
  function ServerParse(b: Bytes, authed: bool): Option<Request> {
    if |b| < 2 || b[0] != VERSION || |b| < 2 + b[1] as int then None
    else
      var end := 2 + b[1] as int;
      var methods := b[2..end];
      var after := b[end..];
      if !authed then ParseConnect(after, methods, None)
      else
        match ParseLogin(after)
        case None => None
        case Some((login, rest)) => ParseConnect(rest, methods, Some(login))
  }

  function Greeting(login: Option<Login>): Bytes {
    if login.Some? then [VERSION, 2, NO_AUTH, USER_PASS] else [VERSION, 1, NO_AUTH]
  }

  predicate FitsLogin(l: Login) {
    |l.user| <= 255 && |l.pass| <= 255
  }

  function LoginBytes(l: Login): Bytes
    requires FitsLogin(l)
  {
    [0x01, |l.user|] + l.user + [|l.pass|] + l.pass
  }

  function ConnectBytes(target: Address, port: Port): Bytes
    requires target.Valid()
  {
    [VERSION, 0x01, 0x00] + AddressBytes(target) + PortBytes(port)
  }

  lemma AddressRead(a: Address, rest: Bytes)
    requires a.Valid()
    ensures ParseAddress(AddressBytes(a) + rest) == Some((a, rest))
  {
    var b := AddressBytes(a) + rest;
    match a
    case V4(o) => assert b[1..5] == o && b[5..] == rest;
    case V6(o) => assert b[1..17] == o && b[17..] == rest;
    case Name(n) => assert b[2..2 + |n|] == n && b[2 + |n|..] == rest;
  }

  lemma ConnectRead(target: Address, port: Port, methods: Bytes, login: Option<Login>)
    requires target.Valid()
    ensures ParseConnect(ConnectBytes(target, port), methods, login)
         == Some(Request(methods, login, target, port, []))
  {
    var b := ConnectBytes(target, port);
    assert b[3..] == AddressBytes(target) + PortBytes(port);
    AddressRead(target, PortBytes(port));
    assert PortBytes(port)[2..] == [];
  }

  lemma LoginRead(l: Login, rest: Bytes)
    requires FitsLogin(l)
    ensures ParseLogin(LoginBytes(l) + rest) == Some((l, rest))
  {
    var b := LoginBytes(l) + rest;
    var u, p := |l.user|, |l.pass|;
    assert b[1] == u && b[2 + u] == p;
    assert b[2..2 + u] == l.user && b[3 + u..3 + u + p] == l.pass && b[3 + u + p..] == rest;
  }

  function Offered(login: Option<Login>): Bytes {
    if login.Some? then [NO_AUTH, USER_PASS] else [NO_AUTH]
  }

  lemma GreetingRead(login: Option<Login>, tail: Bytes, authed: bool)
    ensures ServerParse(Greeting(login) + tail, authed)
         == if !authed then ParseConnect(tail, Offered(login), None)
            else match ParseLogin(tail)
                 case None => None
                 case Some((l, rest)) => ParseConnect(rest, Offered(login), Some(l))
  {
    var b := Greeting(login) + tail;
    var end := 2 + |Offered(login)|;
    assert b[1] == |Offered(login)| && b[2..end] == Offered(login) && b[end..] == tail;
  }

  /** A server reading the client's bytes recovers the offered methods, the login, the host and the port. */
  lemma ServerRecovers(login: Option<Login>, authed: bool, target: Address, port: Port)
    requires target.Valid() && (authed ==> login.Some? && FitsLogin(login.value))
    ensures var sent := Greeting(login) + (if authed then LoginBytes(login.value) else []) + ConnectBytes(target, port);
            ServerParse(sent, authed)
            == Some(Request(Offered(login),
                            if authed then login else None, target, port, []))
  {
    var connect := ConnectBytes(target, port);
    var auth := if authed then LoginBytes(login.value) else [];
    assert Greeting(login) + auth + connect == Greeting(login) + (auth + connect);
    GreetingRead(login, auth + connect, authed);
    if authed {
      LoginRead(login.value, connect);
    } else {
      assert auth + connect == connect;
    }
    ConnectRead(target, port, Offered(login), if authed then login else None);
  }

  // ---------------------------------------------------------------- the bytes themselves

  /** What the client first puts on the wire, byte for byte: section 3 of RFC 1928, section 2 of RFC 1929. */
  lemma GreetingBytes(l: Login)
    requires FitsLogin(l)
    ensures Greeting(None) == [5, 1, 0] && Greeting(Some(l)) == [5, 2, 0, 2]
    ensures LoginBytes(l) == [1, |l.user|] + l.user + [|l.pass|] + l.pass
  {
  }

  /** And its request: sections 4 and 5 of RFC 1928. */
  lemma RequestBytes(target: Address, port: Port)
    requires target.Valid()
    ensures var end := [port / 256, port % 256];
            ConnectBytes(target, port)
            == match target
               case V4(o) => [5, 1, 0, 1] + o + end
               case V6(o) => [5, 1, 0, 4] + o + end
               case Name(n) => [5, 1, 0, 3, |n|] + n + end
  {
    match target
    case V4(o) => Regroup([5, 1, 0], [1], o);
    case V6(o) => Regroup([5, 1, 0], [4], o);
    case Name(n) => Regroup([5, 1, 0], [3, |n|], n);
  }

  /** What it takes for an accepting answer, byte for byte: a method it offered, status zero, reply zero. */
  lemma ServerBytes(octets: Bytes, name: Bytes, port: Port, reserved: Byte, tunnel: Bytes)
    requires |name| <= 255
    ensures |octets| == 4 ==>
              ParseAnswers([5, 0] + ([5, 0, reserved, 1] + octets + [port / 256, port % 256]) + tunnel)
              == Some(Answers(false, tunnel))
    ensures |octets| == 16 ==>
              ParseAnswers([5, 2, 1, 0] + ([5, 0, reserved, 4] + octets + [port / 256, port % 256]) + tunnel)
              == Some(Answers(true, tunnel))
    ensures ParseAnswers([5, 2, 1, 0] + ([5, 0, reserved, 3, |name|] + name + [port / 256, port % 256]) + tunnel)
         == Some(Answers(true, tunnel))
  {
    if |octets| == 4 {
      AnswersRoundTrip(false, reserved, V4(octets), port, tunnel);
      ReplyIs(reserved, V4(octets), port, [5, 0, reserved, 1], octets);
    }
    if |octets| == 16 {
      AnswersRoundTrip(true, reserved, V6(octets), port, tunnel);
      ReplyIs(reserved, V6(octets), port, [5, 0, reserved, 4], octets);
    }
    AnswersRoundTrip(true, reserved, Name(name), port, tunnel);
    ReplyIs(reserved, Name(name), port, [5, 0, reserved, 3, |name|], name);
  }

  lemma ReplyIs(reserved: Byte, bound: Address, port: Port, front: Bytes, bytes: Bytes)
    requires bound.Valid() && front + bytes == [VERSION, 0x00, reserved] + AddressBytes(bound)
    ensures ReplyBytes(reserved, bound, port) == front + bytes + [port / 256, port % 256]
  {
    Regroup([VERSION, 0x00, reserved], AddressBytes(bound), PortBytes(port));
  }

  // ---------------------------------------------------------------- the handshake

  /** The server's first answers ask for a login this client cannot give, or reject the one it gave. */
  predicate LoginRefused(b: Bytes, login: Option<Login>) {
    |b| >= 2 && b[0] == VERSION &&
    (b[1] == NO_ACCEPTABLE ||
     (b[1] == USER_PASS && (login.None? || !FitsLogin(login.value) || (|b| >= 4 && b[3] != 0))))
  }

  /** The method choice is one the client goes on from, and what it has then read. */
  predicate Negotiated(b: Bytes, login: Option<Login>, authed: bool) {
    && |b| >= 2 && b[0] == VERSION
    && (if authed then b[1] == USER_PASS && login.Some? && FitsLogin(login.value) && |b| >= 4 && b[3] == 0
        else b[1] == NO_AUTH)
  }

  /** The first half of `connect`: greeting, method choice and, when asked, the login. */
  method Negotiate(stream: Stream, login: Option<Login>) returns (r: Result<bool, ProxyError>)
    requires stream.output == []
    modifies stream
    ensures old(stream.writesLeft) >= 2 ==>
              && (r == Ok(true) <==> Negotiated(old(stream.input), login, true))
              && (r == Ok(false) <==> Negotiated(old(stream.input), login, false))
              && (r == Err(LoginFailed) <==> LoginRefused(old(stream.input), login))
    ensures r == Err(LoginFailed) ==> LoginRefused(old(stream.input), login)
    ensures !(r == Err(Refused))
    ensures r.Ok? ==>
              && Negotiated(old(stream.input), login, r.value)
              && stream.input == old(stream.input)[if r.value then 4 else 2..]
              && stream.output == Greeting(login) + (if r.value then LoginBytes(login.value) else [])
              && old(stream.writesLeft) == stream.writesLeft + (if r.value then 2 else 1)
  {
    var ok := stream.WriteAll(if login.Some? then [VERSION, 2, NO_AUTH, USER_PASS] else [VERSION, 1, NO_AUTH]);
    if !ok {
      return Err(Unreachable);
    }
    var choice := stream.ReadExact(2);
    if choice.None? {
      return Err(Unreachable);
    }
    if choice.value[0] != VERSION {
      return Err(Unreachable);
    }
    if choice.value[1] == NO_AUTH {
      return Ok(false);
    }
    if choice.value[1] == USER_PASS && login.Some? {
      var user, pass := login.value.user, login.value.pass;
      if |user| > 255 || |pass| > 255 {
        return Err(LoginFailed);
      }
      var msg: Bytes := [0x01, |user|];
      msg := msg + user;
      msg := msg + [|pass|];
      msg := msg + pass;
      ok := stream.WriteAll(msg);
      if !ok {
        return Err(Unreachable);
      }
      var status := stream.ReadExact(2);
      if status.None? {
        return Err(Unreachable);
      }
      if status.value[1] != 0 {
        return Err(LoginFailed);
      }
      return Ok(true);
    }
    if choice.value[1] == USER_PASS || choice.value[1] == NO_ACCEPTABLE {
      return Err(LoginFailed);
    }
    r := Err(Unreachable);
  }

  /** The reply after a request: its fixed part, then as many bytes as its address form says. */
  method ReadReply(stream: Stream, ghost authed: bool) returns (r: Result<(), ProxyError>)
    modifies stream`input
    ensures r.Ok? <==> ParseReply(old(stream.input), authed).Some?
    ensures r.Ok? ==> stream.input == ParseReply(old(stream.input), authed).value.rest
    ensures r == Err(Refused) <==>
              |old(stream.input)| >= 4 && old(stream.input)[0] == VERSION && old(stream.input)[1] != 0
    ensures !(r == Err(LoginFailed))
  {
    ghost var all := stream.input;
    var reply := stream.ReadExact(4);
    if reply.None? {
      return Err(Unreachable);
    }
    if reply.value[0] != VERSION {
      return Err(Unreachable);
    }
    if reply.value[1] != 0 {
      return Err(Refused);
    }
    assert all[3..][0] == reply.value[3];
    var skip;
    if reply.value[3] == 0x01 {
      skip := 4 + 2;
    } else if reply.value[3] == 0x04 {
      skip := 16 + 2;
    } else if reply.value[3] == 0x03 {
      var len := stream.ReadExact(1);
      if len.None? {
        return Err(Unreachable);
      }
      assert all[3..][1] == len.value[0];
      skip := len.value[0] as int + 2;
    } else {
      return Err(Unreachable);
    }
    var bound := stream.ReadExact(skip);
    r := if bound.Some? then Ok(()) else Err(Unreachable);
  }

  method BuildRequest(target: Address, port: Port) returns (req: Bytes)
    requires target.Valid()
    ensures req == ConnectBytes(target, port)
  {
    req := [VERSION, 0x01, 0x00];
    ghost var start := req;
    match target {
      case V4(o) => req := req + [0x01]; req := req + o; Regroup(start, [0x01], o);
      case V6(o) => req := req + [0x04]; req := req + o; Regroup(start, [0x04], o);
      case Name(b) => req := req + [0x03, |b|]; req := req + b; Regroup(start, [0x03, |b|], b);
    }
    req := req + PortBytes(port);
  }

  lemma Regroup(a: Bytes, b: Bytes, c: Bytes)
    ensures a + b + c == a + (b + c)
  {
  }

  /** The reply has its fixed part, and a status other than success. */
  predicate RefusingReply(b: Bytes) {
    |b| >= 4 && b[0] == VERSION && b[1] != 0
  }

  /** The writes a handshake makes. */
  function WritesNeeded(authed: bool): nat {
    if authed then 3 else 2
  }

  /** The target of a host text: the address it parses to, and otherwise the text as a name. */
  function TargetOf(host: Bytes, parseIp: Bytes -> Option<Address>): Address {
    if parseIp(host).Some? then parseIp(host).value else Name(host)
  }

  /** What `IpAddr::from_str` may give: nothing, four octets or sixteen. */
  ghost predicate ParsesAddresses(parseIp: Bytes -> Option<Address>) {
    forall host :: parseIp(host).Some? ==> !parseIp(host).value.Name? && parseIp(host).value.Valid()
  }

  /**
   `connect`.  It succeeds exactly when the writes go through, the server's bytes are a complete
   accepting set of answers to a login it could give, and the host fits the request; then it has consumed
   precisely those answers, every later byte is left for the tunnel, and a server reads back exactly the
   host, the port and the login.  A login failure is reported exactly for a refused login.
   */
  method Connect(stream: Stream, host: Bytes, port: Port, login: Option<Login>, parseIp: Bytes -> Option<Address>)
    returns (r: Result<(), ProxyError>)
    requires ParsesAddresses(parseIp)
    requires stream.output == []
    modifies stream
    ensures var answers := ParseAnswers(old(stream.input));
            && (r.Ok? <==> answers.Some? && (parseIp(host).Some? || |host| <= 255)
                           && (answers.value.authed ==> login.Some? && FitsLogin(login.value))
                           && old(stream.writesLeft) >= WritesNeeded(answers.value.authed))
            && (r.Ok? ==>
                  && stream.input == answers.value.rest
                  && ServerParse(stream.output, answers.value.authed)
                     == Some(Request(Offered(login), if answers.value.authed then login else None,
                                     TargetOf(host, parseIp), port, [])))
    ensures r == Err(LoginFailed) ==> LoginRefused(old(stream.input), login)
    ensures LoginRefused(old(stream.input), login) && old(stream.writesLeft) >= 2 ==> r == Err(LoginFailed)
    ensures forall authed :: Negotiated(old(stream.input), login, authed)
                             && old(stream.writesLeft) >= WritesNeeded(authed) ==>
              (r == Err(Refused) <==> (parseIp(host).None? && |host| > 255)
                                      || RefusingReply(old(stream.input)[if authed then 4 else 2..]))
  {
    ghost var all := stream.input;
    var negotiated := Negotiate(stream, login);
    if negotiated.Err? {
      return Err(negotiated.error);
    }
    var authed := negotiated.value;
    assert ParseAnswers(all) == ParseReply(stream.input, authed);
    var ip := parseIp(host);
    if ip.None? && |host| > 255 {
      return Err(Refused);
    }
    var target := if ip.Some? then ip.value else Name(host);
    var req := BuildRequest(target, port);
    var ok := stream.WriteAll(req);
    if !ok {
      return Err(Unreachable);
    }
    ServerRecovers(login, authed, target, port);
    r := ReadReply(stream, authed);
  }
}
