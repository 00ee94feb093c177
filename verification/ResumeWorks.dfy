/**
 That resuming works (src/server/resume.rs, `resume_session` in src/server/ws.rs): a reconnecting client is
 handed to the parked session and stays its client, and a session is over only for the reasons it has.
 Module `Resume` says what never happens; this one says what does.
 */
module ResumeWorks {
  import opened Prelude
  import opened Resume

  // ---------------------------------------------------------------- what each event does

  /** A break parks the session: a fresh open channel whose sender is found under the session's token. */
  lemma BreakParks(s: State, t: Token)
    requires t in s.sessions && s.sessions[t].Bridging?
    ensures Enabled(s, Break(t))
    ensures var r := Step(s, Break(t)); var ch := |s.chans|;
            && r.sessions == s.sessions[t := Waiting(ch)] && r.registry == s.registry[t := ch]
            && r.chans == s.chans + [Channel(t, InRegistry, None, true)]
            && r.sockets == s.sockets && r.deliveries == s.deliveries
  {
  }

  /** A client that presents a claimable token gets its sender and takes the token; one that does not gets nothing. */
  lemma LookupClaims(run: seq<Event>, t: Token)
    requires Feasible(run)
    ensures var s := After(run);
            && Enabled(s, Lookup(t))
            && var r := Step(s, Lookup(t));
            && r.sockets == s.sockets + 1 && r.sessions == s.sessions && r.deliveries == s.deliveries
            && (Claimable(s, t) ==>
                  var ch := s.registry[t];
                  && ParkedUnclaimed(s, t) && s.sessions[t].chan == ch && r.registry == s.registry - {t}
                  && r.chans == s.chans[ch := s.chans[ch].(sender := WithClient(s.sockets))])
            && (!Claimable(s, t) ==> r.registry == s.registry && r.chans == s.chans)
  {
    Always(run);
    var s := After(run);
    if Claimable(s, t) {
      assert Unclaimed(s, t, s.registry[t]);
    } else {
      assert s.registry - {t} == s.registry;
    }
  }

  /** A socket sent while the session still listens is in the channel's hands; afterwards it is dropped. */
  lemma SendDelivers(s: State, ch: Chan, k: Socket)
    requires ch < |s.chans| && s.chans[ch].sender == WithClient(k)
    ensures Enabled(s, Send(ch)) && Enabled(s, GiveUp(ch))
    ensures var c := s.chans[ch];
            Step(s, Send(ch)) == s.(chans := s.chans[ch := Channel(c.token, Dropped,
                                                                   if c.open then Some(k) else c.buffer, c.open)])
    ensures Step(s, GiveUp(ch)) == s.(chans := s.chans[ch := s.chans[ch].(sender := Dropped)])
  {
  }

  /** A parked session with a socket in its channel can take it, and then has exactly that one. */
  lemma ReceiveTakes(s: State, t: Token, ch: Chan, k: Socket)
    requires t in s.sessions && s.sessions[t] == Waiting(ch) && ch < |s.chans| && s.chans[ch].buffer == Some(k)
    ensures Enabled(s, Receive(t))
    ensures var r := Step(s, Receive(t));
            && r.sessions == s.sessions[t := Leaving(ch, Waited.Resumed(k))]
            && r.deliveries == s.deliveries + [Delivery(t, ch, k)]
            && r.chans == s.chans[ch := s.chans[ch].(buffer := None)]
            && r.registry == s.registry && r.sockets == s.sockets
  {
  }

  /** The other ways out of the wait, each possible when it is due. */
  lemma WaitEnds(s: State, t: Token, ch: Chan)
    requires t in s.sessions && s.sessions[t] == Waiting(ch) && ch < |s.chans|
    ensures Enabled(s, Deadline(t)) && Enabled(s, Lost(t))
    ensures Step(s, Deadline(t)) == s.(sessions := s.sessions[t := Leaving(ch, Waited.Expired)])
    ensures Step(s, Lost(t)) == s.(sessions := s.sessions[t := Leaving(ch, Waited.Gone)])
    ensures s.chans[ch].sender == Dropped && s.chans[ch].buffer == None ==>
              && Enabled(s, HangUp(t))
              && Step(s, HangUp(t)) == s.(sessions := s.sessions[t := Leaving(ch, Waited.Expired)])
  {
  }

  /**
   Leaving takes the token out of the registry.  A session that was handed a client cleans up for it and
   keeps its channel; any other is over, and what is still sent to it is dropped.
   */
  lemma LeavingEnds(s: State, t: Token, ch: Chan, w: Waited)
    requires t in s.sessions && s.sessions[t] == Leaving(ch, w) && ch < |s.chans|
    ensures Enabled(s, Unpark(t))
    ensures var r := Step(s, Unpark(t));
            && r.registry == s.registry - {t}
            && r.sessions == s.sessions[t := if w.Resumed? then Cleaning(w.socket) else Over]
            && r.chans[ch].open == (w.Resumed? && s.chans[ch].open) && r.chans[ch].buffer == s.chans[ch].buffer
            && r.sockets == s.sockets && r.deliveries == s.deliveries
  {
  }

  /** After the clean-up the new client is bridged. */
  lemma CleanedBridges(s: State, t: Token, k: Socket)
    requires t in s.sessions && s.sessions[t] == Cleaning(k)
    ensures Enabled(s, Cleaned(t)) && Step(s, Cleaned(t)) == s.(sessions := s.sessions[t := Bridging(k)])
  {
  }

  // ---------------------------------------------------------------- a client stays

  /** Nothing but its own break or end takes a session's client away. */
  lemma ClientStays(s: State, e: Event, t: Token, k: Socket)
    requires Enabled(s, e) && SocketAt(s, OfSession(t)) == Some(k)
    requires e != Break(t) && e != End(t)
    ensures SocketAt(Step(s, e), OfSession(t)) == Some(k)
  {
  }

  lemma FeasibleFront(run: seq<Event>, more: seq<Event>)
    requires Feasible(run + more) && more != []
    ensures var n := |more| - 1;
            && Feasible(run + more[..n]) && Enabled(After(run + more[..n]), more[n])
            && After(run + more) == Step(After(run + more[..n]), more[n])
  {
    var n := |more| - 1;
    assert (run + more)[..|run + more| - 1] == run + more[..n] && (run + more)[|run + more| - 1] == more[n];
  }

  lemma {:induction false} ClientStaysOn(run: seq<Event>, more: seq<Event>, t: Token, k: Socket)
    requires Feasible(run) && Feasible(run + more) && SocketAt(After(run), OfSession(t)) == Some(k)
    requires Break(t) !in more && End(t) !in more
    ensures SocketAt(After(run + more), OfSession(t)) == Some(k)
    decreases |more|
  {
    if more == [] {
      assert run + more == run;
    } else {
      var n := |more| - 1;
      assert more == more[..n] + [more[n]];
      FeasibleFront(run, more);
      ClientStaysOn(run, more[..n], t, k);
      ClientStays(After(run + more[..n]), more[n], t, k);
    }
  }

  /**
   The socket a session receives is its client from then on, whatever else happens, until that client's
   connection breaks or the session ends.
   */
  lemma DeliveredIsTheClient(run: seq<Event>, more: seq<Event>, t: Token)
    requires Feasible(run + [Receive(t)] + more) && Feasible(run + [Receive(t)])
    requires Break(t) !in more && End(t) !in more
    ensures var d := After(run + [Receive(t)]).deliveries;
            && d != [] && d[|d| - 1].token == t
            && SocketAt(After(run + [Receive(t)] + more), OfSession(t)) == Some(d[|d| - 1].socket)
  {
    FeasibleFront(run, [Receive(t)]);
    assert run + [Receive(t)][..0] == run;
    ClientStaysOn(run + [Receive(t)], more, t, After(run).chans[After(run).sessions[t].chan].buffer.value);
  }

  // ---------------------------------------------------------------- a sent socket arrives

  /** A socket in a channel's hands stays there until that channel's own session receives it. */
  lemma BufferStays(s: State, e: Event, ch: Chan, k: Socket)
    requires Inv(s) && Enabled(s, e) && ch < |s.chans| && s.chans[ch].buffer == Some(k)
    requires e != Receive(s.chans[ch].token)
    ensures var r := Step(s, e);
            ch < |r.chans| && r.chans[ch].buffer == Some(k) && r.chans[ch].token == s.chans[ch].token
  {
    assert s.chans[ch].sender.Dropped?;
    if e.Lookup? && e.token in s.registry {
      assert Unclaimed(s, e.token, s.registry[e.token]);
    }
  }

  lemma {:induction false} BufferStaysOn(run: seq<Event>, more: seq<Event>, ch: Chan, t: Token, k: Socket)
    requires Feasible(run) && Feasible(run + more) && ch < |After(run).chans|
    requires After(run).chans[ch].buffer == Some(k) && After(run).chans[ch].token == t && Receive(t) !in more
    ensures var s := After(run + more); ch < |s.chans| && s.chans[ch].buffer == Some(k) && s.chans[ch].token == t
    decreases |more|
  {
    if more == [] {
      assert run + more == run;
    } else {
      var n := |more| - 1;
      assert more == more[..n] + [more[n]];
      FeasibleFront(run, more);
      BufferStaysOn(run, more[..n], ch, t, k);
      Always(run + more[..n]);
      BufferStays(After(run + more[..n]), more[n], ch, k);
    }
  }

  /** A socket sent to a listening session is what that session receives next, if it still waits there. */
  lemma SentIsReceived(run: seq<Event>, more: seq<Event>, ch: Chan, k: Socket, t: Token)
    requires Feasible(run) && ch < |After(run).chans| && After(run).chans[ch].sender == WithClient(k)
    requires After(run).chans[ch].open && After(run).chans[ch].token == t
    requires Feasible(run + [Send(ch)]) && Feasible(run + [Send(ch)] + more) && Receive(t) !in more
    requires var s := After(run + [Send(ch)] + more); t in s.sessions && s.sessions[t] == Waiting(ch)
    ensures var s := After(run + [Send(ch)] + more);
            && Enabled(s, Receive(t))
            && Step(s, Receive(t)).deliveries == s.deliveries + [Delivery(t, ch, k)]
  {
    FeasibleFront(run, [Send(ch)]);
    assert run + [Send(ch)][..0] == run;
    BufferStaysOn(run + [Send(ch)], more, ch, t, k);
    ReceiveTakes(After(run + [Send(ch)] + more), t, ch, k);
  }

  // ---------------------------------------------------------------- how a session comes to its end

  /** A session is over only by its own end, or by leaving a wait that brought no client. */
  lemma OverOnlyFrom(s: State, e: Event, t: Token)
    requires Enabled(s, e) && t in s.sessions && !s.sessions[t].Over?
    ensures var r := Step(s, e);
            && t in r.sessions
            && (r.sessions[t].Over? <==>
                  || (e == End(t) && s.sessions[t].Bridging?)
                  || (e == Unpark(t) && s.sessions[t].Leaving? && !s.sessions[t].waited.Resumed?))
  {
  }

  /** And a wait ends without a client only by a deadline, a dropped sender, or a loss. */
  lemma NoClientOnlyFrom(s: State, e: Event, t: Token)
    requires Enabled(s, e) && t in s.sessions && s.sessions[t].Waiting?
    ensures var r := Step(s, e);
            && t in r.sessions
            && (r.sessions[t] == Leaving(s.sessions[t].chan, Waited.Expired) <==> e == Deadline(t) || e == HangUp(t))
            && (r.sessions[t] == Leaving(s.sessions[t].chan, Waited.Gone) <==> e == Lost(t))
            && (r.sessions[t].Leaving? && r.sessions[t].waited.Resumed? <==> e == Receive(t))
            && (r.sessions[t] == s.sessions[t] <==>
                  e != Deadline(t) && e != HangUp(t) && e != Lost(t) && e != Receive(t))
  {
  }

  // ---------------------------------------------------------------- a whole reconnect

  /** `s` is reached by some run. */
  ghost predicate Reached(s: State) {
    exists run: seq<Event> :: Feasible(run) && After(run) == s
  }

  lemma ReachedStep(s: State, e: Event)
    requires Reached(s) && Enabled(s, e)
    ensures Reached(Step(s, e))
  {
    var run: seq<Event> :| Feasible(run) && After(run) == s;
    var longer := run + [e];
    assert longer[..|run|] == run;
    assert Feasible(longer) && After(longer) == Step(s, e);
  }

  lemma BridgedIsNotClaimable(s: State, t: Token)
    requires Reached(s) && t in s.sessions && s.sessions[t].Bridging?
    ensures t !in s.registry
  {
    var run: seq<Event> :| Feasible(run) && After(run) == s;
    Always(run);
    ClaimableIsParked(s, t);
  }

  /**
   In every reachable state a session whose connection breaks can be taken up again: break, lookup, send,
   receive, unpark and clean-up follow one another, the reconnected client is then the session's client, and
   every other session and the registry are as before.
   */
  lemma ReconnectWorks(s: State, t: Token) returns (r: State)
    requires Reached(s) && t in s.sessions && s.sessions[t].Bridging?
    ensures Reached(r) && r.sessions == s.sessions[t := Bridging(s.sockets)]
    ensures r.registry == s.registry && r.sockets == s.sockets + 1
    ensures r.deliveries == s.deliveries + [Delivery(t, |s.chans|, s.sockets)]
  {
    BridgedIsNotClaimable(s, t);
    var sent := HandedOver(s, t);
    var ch := |s.chans|;
    ReachedStep(sent, Receive(t));
    var received := Step(sent, Receive(t));
    ReachedStep(received, Unpark(t));
    var left := Step(received, Unpark(t));
    assert left.registry == s.registry && left.sessions == s.sessions[t := Cleaning(s.sockets)];
    ReachedStep(left, Cleaned(t));
    r := Step(left, Cleaned(t));
  }

  /** The first half: a client with the token has sent its socket to the parked session. */
  lemma HandedOver(s: State, t: Token) returns (r: State)
    requires Reached(s) && t in s.sessions && s.sessions[t].Bridging? && t !in s.registry
    ensures Reached(r) && r.sessions == s.sessions[t := Waiting(|s.chans|)]
    ensures r.registry == s.registry && r.sockets == s.sockets + 1 && r.deliveries == s.deliveries
    ensures r.chans == s.chans + [Channel(t, Dropped, Some(s.sockets), true)]
  {
    var ch := |s.chans|;
    ReachedStep(s, Break(t));
    var parked := Step(s, Break(t));
    ReachedStep(parked, Lookup(t));
    var claimed := Step(parked, Lookup(t));
    assert claimed.registry == s.registry;
    assert claimed.chans == s.chans + [Channel(t, WithClient(s.sockets), None, true)];
    ReachedStep(claimed, Send(ch));
    r := Step(claimed, Send(ch));
  }

  /** New sessions start with their own client, under a token nobody has used. */
  lemma StartBridges(s: State, t: Token)
    requires t !in s.sessions
    ensures Enabled(s, Start(t))
    ensures Step(s, Start(t)) == s.(sessions := s.sessions[t := Bridging(s.sockets)], sockets := s.sockets + 1)
  {
  }
}
