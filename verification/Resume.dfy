/**
 Parking and resuming (src/server/resume.rs, `resume_session` in src/server/ws.rs).

 `ResumeRegistry` is the token map.  Around it, any number of sessions run `serve` while any number
 of reconnecting clients look up tokens and deliver sockets.  Every locked section, every channel
 operation and every choice of `select!` is an event of its own; in particular leaving the wait and
 removing the token are two events, and a client may come between them.
 */
module Resume {
  import opened Prelude

  type Token = nat
  type Chan = nat
  type Socket = nat

  // ---------------------------------------------------------------- the registry

  type Registry = map<Token, Chan>

  function Parked(reg: Registry, token: Token, handoff: Chan): Registry {
    reg[token := handoff]
  }

  /** What a lookup of a token finds and leaves behind; also how a token is taken out for good. */
  function Taken(reg: Registry, token: Token): (r: (Option<Chan>, Registry))
    ensures token !in r.1 && forall t :: t != token ==>
              (t in r.1 <==> t in reg) && (t in r.1 ==> r.1[t] == reg[t])
  {
    (if token in reg then Some(reg[token]) else None, reg - {token})
  }

  /** The token map under its lock; the protocol below changes the map by the same two functions. */
  class ResumeRegistry {
    var parked: Registry

    constructor ()
      ensures parked == map[]
    {
      parked := map[];
    }

    method Park(token: Token, handoff: Chan)
      modifies this
      ensures parked == Parked(old(parked), token, handoff)
    {
      parked := parked[token := handoff];
    }

    /** A parked session is found once: the second lookup of the same token finds nothing. */
    method Claim(token: Token) returns (handoff: Option<Chan>)
      modifies this
      ensures (handoff, parked) == Taken(old(parked), token)
      ensures token !in parked && forall t :: t != token ==>
                (t in parked <==> t in old(parked)) && (t in parked ==> parked[t] == old(parked)[t])
    {
      handoff := if token in parked then Some(parked[token]) else None;
      parked := parked - {token};
    }

    method Unpark(token: Token)
      modifies this
      ensures parked == Taken(old(parked), token).1
    {
      parked := parked - {token};
    }

    method Count() returns (n: nat)
      ensures n == |parked|
    {
      n := |parked|;
    }
  }

  // ---------------------------------------------------------------- the protocol

  datatype Waited = Resumed(socket: Socket) | Expired | Gone

  datatype Phase =
    | Bridging(socket: Socket)
    | Waiting(chan: Chan)                    // parked, in the select loop
    | Leaving(chan: Chan, waited: Waited)    // out of the loop, token not yet removed
    | Cleaning(socket: Socket)
    | Over

  /** The one sender of a hand-off channel. */
  datatype Sender = InRegistry | WithClient(socket: Socket) | Dropped

  /** A hand-off channel of capacity one; `open` while `serve` keeps the receiver. */
  datatype Channel = Channel(token: Token, sender: Sender, buffer: Option<Socket>, open: bool)

  datatype Delivery = Delivery(token: Token, chan: Chan, socket: Socket)

  datatype State = State(
    registry: map<Token, Chan>,
    sessions: map<Token, Phase>,
    chans: seq<Channel>,            // every channel ever made, by number
    sockets: nat,                   // every connection ever accepted, by number
    deliveries: seq<Delivery>)      // sockets received by sessions, in order

  datatype Event =
    | Start(token: Token)                        // a new session with a fresh token
    | Break(token: Token)                        // the client's connection breaks: park
    | End(token: Token)                          // finished, idle, browser gone or shutdown
    | Lookup(token: Token)                       // a reconnecting client presents the token
    | Send(chan: Chan)                           // its upgrade completed
    | GiveUp(chan: Chan)                         // its upgrade failed
    | Receive(token: Token)                      // the session takes the socket
    | HangUp(token: Token)                       // the session sees its sender dropped
    | Deadline(token: Token)
    | Lost(token: Token)                         // browser gone or shutdown while parked
    | Unpark(token: Token)
    | Cleaned(token: Token)

  function Init(): State {
    State(map[], map[], [], 0, [])
  }

  predicate IsWaiting(s: State, t: Token) {
    t in s.sessions && s.sessions[t].Waiting? && s.sessions[t].chan < |s.chans|
  }

  predicate Enabled(s: State, e: Event) {
    match e
    case Start(t) => t !in s.sessions
    case Break(t) => t in s.sessions && s.sessions[t].Bridging?
    case End(t) => t in s.sessions && s.sessions[t].Bridging?
    case Lookup(t) => t in s.registry ==> s.registry[t] < |s.chans|
    case Send(ch) => ch < |s.chans| && s.chans[ch].sender.WithClient?
    case GiveUp(ch) => ch < |s.chans| && s.chans[ch].sender.WithClient?
    case Receive(t) => IsWaiting(s, t) && s.chans[s.sessions[t].chan].buffer.Some?
    case HangUp(t) =>
      IsWaiting(s, t) && s.chans[s.sessions[t].chan].sender.Dropped? && s.chans[s.sessions[t].chan].buffer.None?
    case Deadline(t) => IsWaiting(s, t)
    case Lost(t) => IsWaiting(s, t)
    case Unpark(t) => t in s.sessions && s.sessions[t].Leaving? && s.sessions[t].chan < |s.chans|
    case Cleaned(t) => t in s.sessions && s.sessions[t].Cleaning?
  }

  function Leave(s: State, t: Token, w: Waited): State
    requires IsWaiting(s, t)
  {
    s.(sessions := s.sessions[t := Leaving(s.sessions[t].chan, w)])
  }

  function Step(s: State, e: Event): State
    requires Enabled(s, e)
  {
    match e
    case Start(t) => s.(sessions := s.sessions[t := Bridging(s.sockets)], sockets := s.sockets + 1)
    case Break(t) =>
      var ch := |s.chans|;
      s.(chans := s.chans + [Channel(t, InRegistry, None, true)],
         registry := Parked(s.registry, t, ch),
         sessions := s.sessions[t := Waiting(ch)])
    case End(t) => s.(sessions := s.sessions[t := Over])
    case Lookup(t) =>
      var (found, registry) := Taken(s.registry, t);
      var s1 := s.(sockets := s.sockets + 1, registry := registry);
      (match found
       case None => s1
       case Some(ch) => s1.(chans := s.chans[ch := s.chans[ch].(sender := WithClient(s.sockets))]))
    case Send(ch) =>
      var c := s.chans[ch];
      var buffer := if c.open then Some(c.sender.socket) else c.buffer;
      s.(chans := s.chans[ch := c.(sender := Dropped, buffer := buffer)])
    case GiveUp(ch) => s.(chans := s.chans[ch := s.chans[ch].(sender := Dropped)])
    case Receive(t) =>
      var ch := s.sessions[t].chan;
      var socket := s.chans[ch].buffer.value;
      Leave(s, t, Resumed(socket)).(
        chans := s.chans[ch := s.chans[ch].(buffer := None)],
        deliveries := s.deliveries + [Delivery(t, ch, socket)])
    case HangUp(t) => Leave(s, t, Expired)
    case Deadline(t) => Leave(s, t, Expired)
    case Lost(t) => Leave(s, t, Gone)
    case Unpark(t) =>
      var ch := s.sessions[t].chan;
      var c := s.chans[ch];
      // Removing the token drops a sender that is still in the map.
      var (inMap, registry) := Taken(s.registry, t);
      var sender := if inMap == Some(ch) then Dropped else c.sender;
      var s1 := s.(registry := registry);
      (match s.sessions[t].waited
       case Resumed(socket) =>
         s1.(sessions := s.sessions[t := Cleaning(socket)], chans := s.chans[ch := c.(sender := sender)])
       case _ =>
         s1.(sessions := s.sessions[t := Over], chans := s.chans[ch := c.(sender := sender, open := false)]))
    case Cleaned(t) => s.(sessions := s.sessions[t := Bridging(s.sessions[t].socket)])
  }

  ghost predicate Feasible(run: seq<Event>)
    decreases |run|, 0
  {
    run == [] || (Feasible(run[..|run| - 1]) && Enabled(After(run[..|run| - 1]), run[|run| - 1]))
  }

  ghost function After(run: seq<Event>): State
    requires Feasible(run)
    decreases |run|, 1
  {
    if run == [] then Init() else Step(After(run[..|run| - 1]), run[|run| - 1])
  }

  // ---------------------------------------------------------------- what holds in every state

  /** The channel on which session `t` still waits for its next client. */
  ghost predicate Unclaimed(s: State, t: Token, ch: Chan) {
    && t in s.sessions && ch < |s.chans|
    && (s.sessions[t] == Waiting(ch) ||
        (s.sessions[t].Leaving? && s.sessions[t].chan == ch && !s.sessions[t].waited.Resumed?))
    && s.chans[ch].sender.InRegistry?
  }

  /** A token is in the registry exactly while its session is parked and nobody has claimed it. */
  ghost predicate RegistryExact(s: State) {
    forall t, ch :: (t in s.registry && s.registry[t] == ch) <==> Unclaimed(s, t, ch)
  }

  ghost predicate PhasesOwnChannels(s: State) {
    forall t :: t in s.sessions && (s.sessions[t].Waiting? || s.sessions[t].Leaving?) ==>
      && s.sessions[t].chan < |s.chans| && s.chans[s.sessions[t].chan].token == t
      && (s.sessions[t].Leaving? && s.sessions[t].waited.Resumed? ==>
            s.chans[s.sessions[t].chan].sender.Dropped?)
  }

  /** Whether a socket may still come through channel `ch`. */
  ghost predicate MayDeliver(s: State, ch: Chan)
    requires ch < |s.chans|
  {
    !s.chans[ch].sender.Dropped? || s.chans[ch].buffer.Some?
  }

  /** A channel has delivered, or may still deliver, but not both; and it buffers only what was sent. */
  ghost predicate OneDelivery(s: State) {
    && (forall ch :: 0 <= ch < |s.chans| && s.chans[ch].buffer.Some? ==> s.chans[ch].sender.Dropped?)
    && (forall i :: 0 <= i < |s.deliveries| ==>
          s.deliveries[i].chan < |s.chans| && !MayDeliver(s, s.deliveries[i].chan))
    && (forall i, j :: 0 <= i < j < |s.deliveries| ==> s.deliveries[i].chan != s.deliveries[j].chan)
  }

  ghost predicate Inv(s: State) {
    RegistryExact(s) && PhasesOwnChannels(s) && OneDelivery(s)
  }

  lemma StepRegistry(s: State, e: Event)
    requires Inv(s) && Enabled(s, e)
    ensures RegistryExact(Step(s, e))
  {
    var r := Step(s, e);
    if e.Lookup? && e.token in s.registry {
      assert Unclaimed(s, e.token, s.registry[e.token]);
    }
    forall t: Token, ch: Chan ensures (t in r.registry && r.registry[t] == ch) <==> Unclaimed(r, t, ch) {
      assert (t in s.registry && s.registry[t] == ch) <==> Unclaimed(s, t, ch);
      assert t in s.registry ==> Unclaimed(s, t, s.registry[t]);
      assert Unclaimed(s, t, ch) ==> s.chans[ch].token == t;
    }
  }

  lemma StepPhases(s: State, e: Event)
    requires Inv(s) && Enabled(s, e)
    ensures PhasesOwnChannels(Step(s, e))
  {
    if e.Lookup? && e.token in s.registry {
      assert Unclaimed(s, e.token, s.registry[e.token]);
    }
  }

  lemma StepDelivery(s: State, e: Event)
    requires Inv(s) && Enabled(s, e)
    ensures OneDelivery(Step(s, e))
  {
    if e.Lookup? && e.token in s.registry {
      assert Unclaimed(s, e.token, s.registry[e.token]);
    }
  }

  lemma {:induction false} Always(run: seq<Event>)
    requires Feasible(run)
    ensures Inv(After(run))
    decreases |run|
  {
    if run != [] {
      var n := |run| - 1;
      Always(run[..n]);
      StepRegistry(After(run[..n]), run[n]);
      StepPhases(After(run[..n]), run[n]);
      StepDelivery(After(run[..n]), run[n]);
    }
  }

  // ---------------------------------------------------------------- sockets

  datatype Holder = OfSession(token: Token) | OfChannel(chan: Chan)

  /** The socket a session is attached to or about to attach to, or a channel has in hand. */
  ghost function SocketAt(s: State, h: Holder): Option<Socket> {
    match h
    case OfSession(t) =>
      if t !in s.sessions then None
      else
        (match s.sessions[t]
         case Bridging(socket) => Some(socket)
         case Cleaning(socket) => Some(socket)
         case Leaving(_, Resumed(socket)) => Some(socket)
         case _ => None)
    case OfChannel(ch) =>
      if ch >= |s.chans| then None
      else if s.chans[ch].sender.WithClient? then Some(s.chans[ch].sender.socket)
      else s.chans[ch].buffer
  }

  ghost predicate SocketsDistinct(s: State) {
    && (forall h :: SocketAt(s, h).Some? ==> SocketAt(s, h).value < s.sockets)
    && (forall h, g :: h != g && SocketAt(s, h).Some? && SocketAt(s, g).Some? ==>
          SocketAt(s, h).value != SocketAt(s, g).value)
  }

  /** A delivered socket never shows up in a channel again and is delivered once. */
  ghost predicate DeliveredOnce(s: State) {
    && (forall i :: 0 <= i < |s.deliveries| ==> s.deliveries[i].socket < s.sockets)
    && (forall i, ch :: 0 <= i < |s.deliveries| ==> SocketAt(s, OfChannel(ch)) != Some(s.deliveries[i].socket))
    && (forall i, j :: 0 <= i < j < |s.deliveries| ==> s.deliveries[i].socket != s.deliveries[j].socket)
  }

  /** The holder that gets the newly accepted socket, if there is one. */
  ghost function Fresh(s: State, e: Event): Holder {
    if e.Lookup? && e.token in s.registry then OfChannel(s.registry[e.token])
    else if e.Start? then OfSession(e.token)
    else OfSession(0)
  }

  /** The holder before the event of the socket that `h` holds after it. */
  ghost function Source(s: State, e: Event, h: Holder): Holder {
    if e.Receive? && h == OfSession(e.token) && e.token in s.sessions && s.sessions[e.token].Waiting?
    then OfChannel(s.sessions[e.token].chan)
    else h
  }

  lemma HolderAfter(s: State, e: Event, h: Holder)
    requires Inv(s) && Enabled(s, e) && SocketAt(Step(s, e), h).Some?
    ensures var r := Step(s, e);
            || (SocketAt(r, h) == Some(s.sockets) && r.sockets == s.sockets + 1 && h == Fresh(s, e))
            || (SocketAt(r, h) == SocketAt(s, Source(s, e, h)) &&
                (e.Receive? ==> h != OfChannel(s.sessions[e.token].chan)))
  {
    if e.Lookup? && e.token in s.registry {
      assert Unclaimed(s, e.token, s.registry[e.token]);
    }
  }

  lemma StepSockets(s: State, e: Event)
    requires Inv(s) && SocketsDistinct(s) && Enabled(s, e)
    ensures SocketsDistinct(Step(s, e))
  {
    var r := Step(s, e);
    forall h | SocketAt(r, h).Some? ensures SocketAt(r, h).value < r.sockets {
      HolderAfter(s, e, h);
    }
    forall h, g | h != g && SocketAt(r, h).Some? && SocketAt(r, g).Some?
      ensures SocketAt(r, h).value != SocketAt(r, g).value
    {
      HolderAfter(s, e, h);
      HolderAfter(s, e, g);
    }
  }

  lemma StepDelivered(s: State, e: Event)
    requires Inv(s) && SocketsDistinct(s) && DeliveredOnce(s) && Enabled(s, e)
    ensures DeliveredOnce(Step(s, e))
  {
    var r := Step(s, e);
    if e.Receive? {
      var from := OfChannel(s.sessions[e.token].chan);
      assert SocketAt(s, from) == Some(r.deliveries[|s.deliveries|].socket);
    }
    forall i, ch | 0 <= i < |r.deliveries|
      ensures SocketAt(r, OfChannel(ch)) != Some(r.deliveries[i].socket)
    {
      if SocketAt(r, OfChannel(ch)).Some? {
        HolderAfter(s, e, OfChannel(ch));
      }
    }
  }

  lemma {:induction false} AlwaysDistinct(run: seq<Event>)
    requires Feasible(run)
    ensures SocketsDistinct(After(run)) && DeliveredOnce(After(run))
    decreases |run|
  {
    if run != [] {
      var n := |run| - 1;
      AlwaysDistinct(run[..n]);
      Always(run[..n]);
      StepSockets(After(run[..n]), run[n]);
      StepDelivered(After(run[..n]), run[n]);
    }
  }

  // ---------------------------------------------------------------- the guarantees

  /** A lookup of `t` would find its session. */
  predicate Claimable(s: State, t: Token) {
    t in s.registry
  }

  /** The session is parked on a channel nobody has claimed: between `park` and `unpark`. */
  ghost predicate ParkedUnclaimed(s: State, t: Token) {
    && t in s.sessions && (s.sessions[t].Waiting? || s.sessions[t].Leaving?)
    && s.sessions[t].chan < |s.chans| && s.chans[s.sessions[t].chan].sender.InRegistry?
  }

  /**
   In every interleaving of breaks, reconnects, expiry, shutdown and browser death: a token is
   claimable exactly while its session is parked and unclaimed; a park delivers at most one socket; no
   socket is delivered twice or held by two sessions.
   */
  lemma ResumeSafety(run: seq<Event>, t: Token, u: Token, i: nat, j: nat)
    requires Feasible(run)
    ensures var s := After(run);
            && (Claimable(s, t) <==> ParkedUnclaimed(s, t))
            && (i < j < |s.deliveries| ==>
                  s.deliveries[i].chan != s.deliveries[j].chan && s.deliveries[i].socket != s.deliveries[j].socket)
            && (t != u && SocketAt(s, OfSession(t)).Some? ==> SocketAt(s, OfSession(t)) != SocketAt(s, OfSession(u)))
  {
    Always(run);
    AlwaysDistinct(run);
    var s := After(run);
    if Claimable(s, t) {
      assert Unclaimed(s, t, s.registry[t]);
    }
    if ParkedUnclaimed(s, t) {
      assert Unclaimed(s, t, s.sessions[t].chan);
    }
  }

  /** Once `serve` has returned, no later event makes the token claimable again. */
  lemma {:induction false} OverForGood(run: seq<Event>, more: seq<Event>, t: Token)
    requires Feasible(run + more) && Feasible(run)
    requires t in After(run).sessions && After(run).sessions[t].Over?
    ensures var s := After(run + more);
            t in s.sessions && s.sessions[t].Over? && !Claimable(s, t)
    decreases |more|
  {
    if more == [] {
      assert run + more == run;
    } else {
      var n := |more| - 1;
      var shorter := run + more[..n];
      assert (run + more)[..|run + more| - 1] == shorter && (run + more)[|run + more| - 1] == more[n];
      OverForGood(run, more[..n], t);
      OverStays(After(shorter), more[n], t);
    }
    Always(run + more);
    ClaimableIsParked(After(run + more), t);
  }

  lemma OverStays(s: State, e: Event, t: Token)
    requires Enabled(s, e) && t in s.sessions && s.sessions[t].Over?
    ensures t in Step(s, e).sessions && Step(s, e).sessions[t].Over?
  {
  }

  lemma ClaimableIsParked(s: State, t: Token)
    requires RegistryExact(s)
    ensures Claimable(s, t) ==> ParkedUnclaimed(s, t)
  {
    if Claimable(s, t) {
      assert Unclaimed(s, t, s.registry[t]);
    }
  }
}
