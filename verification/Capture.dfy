/**
 A profile session and its hand-off entry (`serve_profile` and `profile_session` in
 src/server/ws.rs, with `serve` in src/server/resume.rs and the store in src/server/profiles.rs).

 `ProfileSession` is one session from its start to its end.  The transition system then runs any
 number of them against one store together with drop-offs, claims and pick-ups in any order.
 */
module Capture {
  import opened Prelude
  import opened ProfileStore
  import opened Pipe
  import Serve
  import BrowserStream
  import ServeTask
  import PlayedOut

  // ---------------------------------------------------------------- one session

  /** What the outside world does to a session: rounds of the resume window, or one bridge. */
  datatype Serving = Window(script: seq<Serve.Round>) | OneBridge(turns: seq<Serve.Turn>, client: Serve.ClientSide)

  /** How the serving part ended. */
  datatype Served = Resumable(outcome: Serve.Outcome) | Bridged(end: Serve.BridgeEnd)

  /** What serving comes to, from the reader's buffer and reads and the script. */
  function ServedOf(buf: Bytes, incoming: seq<Read>, serving: Serving, max: nat): Served {
    match serving
    case Window(script) => Resumable(Serve.SessionOf(buf, incoming, script, 0, max).end.outcome)
    case OneBridge(turns, client) =>
      Bridged(Serve.BridgeOutcome(Serve.PumpOf(buf, incoming, turns, Serve.Bridge(0), max).end, client))
  }

  /** The script stops while the session is still being served. */
  predicate StillServing(served: Served) {
    served == Resumable(Serve.Running) || served == Bridged(Serve.Bridging)
  }

  /** Whether `serve_profile` hands the live pipe back. */
  predicate HandsBack(served: Served) {
    match served
    case Resumable(outcome) => outcome.PipeIsBack()
    case Bridged(Ended(outcome)) => outcome.PipeIsBack()
    case Bridged(end) => end.ClientLost?
  }

  /** A session: whether it has a pipe, was seeded and saves, and all that happens while it is served. */
  datatype Inputs = Inputs(
    pipe: bool, seeded: bool, readOnly: bool, serving: Serving, buf: Bytes, incoming: seq<Read>, max: nat)

  function ServedIn(in_: Inputs): Served {
    ServedOf(in_.buf, in_.incoming, in_.serving, in_.max)
  }

  predicate IsOver(in_: Inputs) {
    in_.pipe && in_.seeded ==> !StillServing(ServedIn(in_))
  }

  predicate Saves(in_: Inputs) {
    in_.pipe && in_.seeded && !in_.readOnly && HandsBack(ServedIn(in_))
  }

  /** The one store call of a session. */
  function FinalCall(token: Token, in_: Inputs, captured: Payload): Op {
    if Saves(in_) then Deposit(token, captured) else Finish(token)
  }

  /**
   When the pipe comes back through the window: if and only if no wait was fatal and the round that was
   reached ended, by the script's own word, with a deliberate close, an idle timeout or an expired window.
   A failed read of a bridge is fatal unless another branch was chosen while its farewell was being sent.
   */
  lemma WindowHandsBackIff(buf: Bytes, incoming: seq<Read>, script: seq<Serve.Round>, max: nat)
    ensures var r := Serve.SessionOf(buf, incoming, script, 0, max);
            HandsBack(ServedOf(buf, incoming, Window(script), max))
            <==> && r.end.round < |script| && BrowserStream.NoneFatal(r.log)
                 && BrowserStream.OutcomeIn(script[r.end.round], r.end.parked).PipeIsBack()
  {
    BrowserStream.OutcomeIsDetermined(buf, incoming, script, max);
    BrowserStream.FatalOrNot(Serve.SessionOf(buf, incoming, script, 0, max).log);
  }

  /** Without the window it comes back if and only if no wait was fatal and the shutdown was not chosen. */
  lemma BridgeHandsBackIff(buf: Bytes, incoming: seq<Read>, turns: seq<Serve.Turn>, client: Serve.ClientSide, max: nat)
    ensures var b := Serve.PumpOf(buf, incoming, turns, Serve.Bridge(0), max);
            var served := ServedOf(buf, incoming, OneBridge(turns, client), max);
            !StillServing(served) ==>
              (HandsBack(served) <==>
                 BrowserStream.NoneFatal(b.log) && !(b.end.OtherBranch? && client == Serve.ClientSide.Cancelled))
  {
    BrowserStream.PumpFatal(buf, incoming, turns, Serve.Bridge(0), max);
    BrowserStream.FatalOrNot(Serve.PumpOf(buf, incoming, turns, Serve.Bridge(0), max).log);
  }

  /**
   The end of a script hands the pipe back: no wait of a bridge or park was fatal, and the last thing that
   happened was a deliberate close, an idle timeout, an expired window or, without the window, any other loss
   of the client.
   */
  predicate ScriptHandsBack(in_: Inputs) {
    match in_.serving
    case Window(script) =>
      var r := Serve.SessionOf(in_.buf, in_.incoming, script, 0, in_.max);
      && r.end.round < |script|
      && (forall i :: 0 <= i < |r.log| ==> !BrowserStream.Fatal(r.log[i]))
      && (if r.end.parked then script[r.end.round].parkEnd == Serve.Expired
          else || PlayedOut.ClientIs(script[r.end.round], Serve.ClientFinished)
               || PlayedOut.ClientIs(script[r.end.round], Serve.IdleTimeout))
    case OneBridge(turns, client) =>
      var b := Serve.PumpOf(in_.buf, in_.incoming, turns, Serve.Bridge(0), in_.max);
      && (forall i :: 0 <= i < |b.log| ==> !BrowserStream.Fatal(b.log[i]))
      && (PlayedOut.PumpEnd(b.log, turns) == Serve.OtherBranch ==>
            client.Client? && Serve.ExitOf(client.events) != Serve.Cut)
  }

  lemma HandsBackIff(in_: Inputs)
    ensures HandsBack(ServedIn(in_)) <==> ScriptHandsBack(in_)
  {
    match in_.serving
    case Window(script) =>
      WindowHandsBackIff(in_.buf, in_.incoming, script, in_.max);
    case OneBridge(turns, client) =>
      PlayedOut.PumpGoesOn(in_.buf, in_.incoming, turns, Serve.Bridge(0), in_.max);
      BrowserStream.PumpFatal(in_.buf, in_.incoming, turns, Serve.Bridge(0), in_.max);
      BrowserStream.FatalOrNot(Serve.PumpOf(in_.buf, in_.incoming, turns, Serve.Bridge(0), in_.max).log);
  }

  /** A session is still being served while its script's rounds have all been resumed or the last is left open. */
  lemma StillServingIff(in_: Inputs)
    ensures StillServing(ServedIn(in_))
       <==> match in_.serving
            case Window(script) =>
              var r := Serve.SessionOf(in_.buf, in_.incoming, script, 0, in_.max);
              r.end.round == |script| ||
              (r.end.round < |script|
               && PlayedOut.PlayedAt(r.log, script, r.end.round,
                                     Serve.Reached(Serve.Running, r.end.round, r.end.parked)))
            case OneBridge(turns, client) =>
              var b := Serve.PumpOf(in_.buf, in_.incoming, turns, Serve.Bridge(0), in_.max);
              PlayedOut.PumpEnd(b.log, turns) == Serve.OtherBranch
              && client.Client? && Serve.ExitOf(client.events) == Serve.Cut
  {
    match in_.serving
    case Window(script) =>
      var r := Serve.SessionOf(in_.buf, in_.incoming, script, 0, in_.max);
      BrowserStream.OutcomeIsReached(in_.buf, in_.incoming, script, 0, in_.max);
      if r.end.round < |script| {
        PlayedOut.SessionIsPlayedOut(in_.buf, in_.incoming, script, 0, in_.max, r.end.round);
        EndsInOneWay(r, script);
      }
    case OneBridge(turns, client) =>
      PlayedOut.PumpGoesOn(in_.buf, in_.incoming, turns, Serve.Bridge(0), in_.max);
  }

  lemma EndsInOneWay(r: Serve.Run<Serve.Reached>, script: seq<Serve.Round>)
    requires r.end.round < |script| && PlayedOut.PlayedAt(r.log, script, r.end.round, r.end)
    ensures PlayedOut.PlayedAt(r.log, script, r.end.round, Serve.Reached(Serve.Running, r.end.round, r.end.parked))
       <==> r.end.outcome.Running?
  {
  }

  /**
   The one store call of a session, for every input: a deposit of what was captured if and only if it had a
   pipe, was seeded, is not read-only and the script's own end hands the pipe back; a release otherwise.
   */
  lemma FinalCallIs(token: Token, in_: Inputs, captured: Payload)
    ensures FinalCall(token, in_, captured)
         == if in_.pipe && in_.seeded && !in_.readOnly && ScriptHandsBack(in_)
            then Deposit(token, captured) else Finish(token)
  {
    HandsBackIff(in_);
  }

  /** The browser closes its pipe while the client reads nothing; the client then closes on purpose. */
  function FarewellCut(cut: bool): Serve.Round {
    Serve.Round(
      [Serve.Turn([Data([])], if cut then Serve.SendCut else Serve.Sent)],
      Serve.Client([Serve.CloseFrame(None)]), [], Serve.StillParked, [])
  }

  /**
   So a browser that has died can still be captured from: with its farewell cut off by the client's close
   the session deposits, and with the farewell sent it does not.
   */
  lemma DeadBrowserIsCaptured(token: Token, captured: Payload, cut: bool, window: bool, max: nat)
    ensures var round := FarewellCut(cut);
            var serving := if window then Window([round]) else OneBridge(round.turns, round.client);
            var in_ := Inputs(true, true, false, serving, [], [], max);
            && IsOver(in_)
            && Serve.PumpOf([], [], round.turns, Serve.Bridge(0), max).log[0].recv == Error(Closed)
            && (FinalCall(token, in_, captured) == Deposit(token, captured) <==> cut)
  {
    var turn := FarewellCut(cut).turns[0];
    assert [] + turn.arrived == turn.arrived;
    assert FarewellCut(cut).turns[1..] == [];
    FarewellBridge(cut, max);
  }

  lemma FarewellBridge(cut: bool, max: nat)
    ensures var b := Serve.PumpOf([], [], FarewellCut(cut).turns, Serve.Bridge(0), max);
            b.log[0].recv == Error(Closed) && b.end == if cut then Serve.OtherBranch else Serve.BrowserGone
  {
    var turn := FarewellCut(cut).turns[0];
    assert [] + turn.arrived == turn.arrived;
  }

  /** `serve_profile`: the script decides how serving ends, and with it whether the pipe comes back. */
  method ServeProfile(reader: CdpReader, serving: Serving) returns (served: Served)
    requires reader.Valid()
    modifies reader
    ensures reader.Valid()
    ensures served == ServedOf(old(reader.buf), old(reader.incoming), serving, reader.maxFrame)
  {
    match serving {
      case Window(script) =>
        var end, log, used := ServeTask.ServeSession(reader, script);
        served := Resumable(end.outcome);
      case OneBridge(turns, client) =>
        var end, log := ServeTask.BridgeSession(reader, turns, client, Serve.Bridge(0));
        served := Bridged(end);
    }
  }

  /**
   `profile_session` up to whatever its script says has happened so far.  While the session is still
   being served, through any number of breaks and resumes, the store is untouched; once it is over
   there has been exactly one store call, and it is a deposit if and only if the session had a pipe, was
   seeded, saves, and the script's own end hands the live pipe back.
   */
  method ProfileSession(store: Store, reader: CdpReader, token: Token, pipe: bool, seeded: bool, readOnly: bool,
                        serving: Serving, captured: Payload, now: nat)
    requires reader.Valid()
    modifies store, reader
    ensures var in_ := Inputs(pipe, seeded, readOnly, serving, old(reader.buf), old(reader.incoming), reader.maxFrame);
            store.entries == if IsOver(in_)
                             then LazyOp(store.cfg, old(store.entries), FinalCall(token, in_, captured), now).0
                             else old(store.entries)
  {
    if !pipe {
      store.FinishWithoutResult(token);
      return;
    }
    if !seeded {
      store.FinishWithoutResult(token);
      return;
    }
    var served := ServeProfile(reader, serving);
    if StillServing(served) {
      return;
    }
    if readOnly {
      store.FinishWithoutResult(token);
      return;
    }
    if HandsBack(served) {
      store.DepositResult(token, captured, now);
    } else {
      store.FinishWithoutResult(token);
    }
  }

  // ---------------------------------------------------------------- all sessions and one store

  /** A finished session: when, what happened to it, and what a capture of its browser would hold. */
  datatype Ended = Ended(at: nat, claimedAt: nat, inputs: Inputs, captured: Payload) {
    function Capture(): Option<Payload> {
      if Saves(inputs) then Some(captured) else None
    }
  }

  datatype Picked = Picked(token: Token, payload: Payload)

  datatype State = State(
    entries: Entries,
    now: nat,
    minted: set<Token>,
    running: map<Token, nat>,     // sessions being served, with the time of their claim
    ended: map<Token, Ended>,
    picked: seq<Picked>)

  datatype Event =
    | Offer(payload: Payload, mint: Option<Token>)
    | Start(token: Token)                 // claim, launch, session runs
    | StartFails(token: Token)            // claim, but the launch fails
    | BreakOrResume(token: Token)         // the client comes or goes while the session runs
    | EndSession(token: Token, in_: Inputs, captured: Payload)
    | Take(token: Token)

  function Init(): State {
    State(map[], 0, {}, map[], map[], [])
  }

  predicate Enabled(s: State, e: Event, now: nat) {
    && s.now <= now
    && match e
       case Offer(_, mint) => mint.Some? ==> mint.value !in s.minted
       case BreakOrResume(t) => t in s.running
       case EndSession(t, in_, _) => t in s.running && IsOver(in_)
       case _ => true
  }

  function Step(cfg: Config, s: State, e: Event, now: nat): State
    requires Enabled(s, e, now)
  {
    var s0 := s.(now := now);
    match e
    case Offer(payload, mint) =>
      s0.(entries := LazyOp(cfg, s.entries, DropOff(payload, mint), now).0,
          minted := s.minted + (if mint.Some? then {mint.value} else {}))
    case Start(t) =>
      var (m, a) := LazyOp(cfg, s.entries, Claim(t), now);
      s0.(entries := m, running := if a.payload.Some? then s.running[t := now] else s.running)
    case StartFails(t) => s0.(entries := LazyOp(cfg, s.entries, Claim(t), now).0)
    case BreakOrResume(_) => s0
    case EndSession(t, in_, captured) =>
      s0.(entries := LazyOp(cfg, s.entries, FinalCall(t, in_, captured), now).0,
          running := s.running - {t},
          ended := s.ended[t := Ended(now, s.running[t], in_, captured)])
    case Take(t) =>
      var (m, a) := LazyOp(cfg, s.entries, PickUp(t), now);
      s0.(entries := m, picked := if a.payload.Some? then s.picked + [Picked(t, a.payload.value)] else s.picked)
  }

  datatype Happening = Happening(event: Event, now: nat)

  ghost predicate Feasible(cfg: Config, run: seq<Happening>)
    decreases |run|, 0
  {
    run == [] ||
    (var n := |run| - 1;
     Feasible(cfg, run[..n]) && Enabled(After(cfg, run[..n]), run[n].event, run[n].now))
  }

  ghost function After(cfg: Config, run: seq<Happening>): State
    requires Feasible(cfg, run)
    decreases |run|, 1
  {
    if run == [] then Init()
    else
      var n := |run| - 1;
      Step(cfg, After(cfg, run[..n]), run[n].event, run[n].now)
  }

  ghost predicate WasPicked(s: State, t: Token) {
    exists i :: 0 <= i < |s.picked| && s.picked[i].token == t
  }

  /** The life of one token's entry against what its session has done. */
  ghost predicate TokenOk(cfg: Config, s: State, t: Token) {
    && (t in s.entries || t in s.running || t in s.ended || WasPicked(s, t) ==> t in s.minted)
    && (t in s.running ==> t !in s.ended)
    && (t in s.entries ==>
          && s.entries[t].at <= s.now
          && !WasPicked(s, t)
          && (s.entries[t].slot.Pending? ==> t !in s.running && t !in s.ended)
          && (s.entries[t].slot.InFlight? ==> t !in s.ended && (t in s.running ==> s.entries[t].at == s.running[t]))
          && (s.entries[t].slot.Ready? ==>
                && t in s.ended && s.entries[t].at == s.ended[t].at
                && s.ended[t].Capture() == Some(s.entries[t].slot.payload)))
    && (WasPicked(s, t) ==> t in s.ended)
    && (t in s.running ==> s.running[t] <= s.now)
    && (t in s.ended ==> s.ended[t].at <= s.now)
    // Availability: nothing but time or a pick-up takes a timely entry away.
    && (t in s.running && s.now < s.running[t] + IN_FLIGHT_MAX_AGE ==> t in s.entries && s.entries[t].slot.InFlight?)
    && (Waiting(cfg, s, t) ==> t in s.entries && s.entries[t].slot.Ready?)
  }

  /** The session ended in time with a capture that nobody has picked up and that has not expired. */
  ghost predicate Waiting(cfg: Config, s: State, t: Token) {
    && t in s.ended && s.ended[t].Capture().Some? && !WasPicked(s, t)
    && s.ended[t].at < s.ended[t].claimedAt + IN_FLIGHT_MAX_AGE
    && s.now < s.ended[t].at + cfg.ttl
  }

  ghost predicate PicksOk(s: State) {
    && (forall i :: 0 <= i < |s.picked| ==>
          s.picked[i].token in s.ended && s.ended[s.picked[i].token].Capture() == Some(s.picked[i].payload))
    && (forall i, j :: 0 <= i < j < |s.picked| ==> s.picked[i].token != s.picked[j].token)
  }

  // ---------------------------------------------------------------- every step

  /** The token an event is about, if any. */
  function About(e: Event): Option<Token> {
    match e
    case Offer(_, mint) => mint
    case Start(t) => Some(t)
    case StartFails(t) => Some(t)
    case BreakOrResume(t) => Some(t)
    case EndSession(t, _, _) => Some(t)
    case Take(t) => Some(t)
  }

  /** An entry an event is not about is untouched, unless it has expired and is swept. */
  lemma OtherEntries(cfg: Config, s: State, e: Event, now: nat, x: Token)
    requires Enabled(s, e, now) && About(e) != Some(x)
    ensures var m, m' := s.entries, Step(cfg, s, e, now).entries;
            && (x in m' ==> x in m && m'[x] == m[x])
            && (x in m && !Expired(cfg, m[x], now) ==> x in m')
  {
  }

  lemma OtherTokens(cfg: Config, s: State, e: Event, now: nat, x: Token)
    requires TokenOk(cfg, s, x) && Enabled(s, e, now) && About(e) != Some(x)
    ensures TokenOk(cfg, Step(cfg, s, e, now), x)
  {
    OtherEntries(cfg, s, e, now, x);
    var r := Step(cfg, s, e, now);
    assert WasPicked(r, x) <==> WasPicked(s, x) by {
      if WasPicked(s, x) {
        var i :| 0 <= i < |s.picked| && s.picked[i].token == x;
        assert r.picked[i].token == x;
      }
    }
    assert (x in r.running <==> x in s.running) && (x in r.ended <==> x in s.ended);
    assert Waiting(cfg, r, x) ==> Waiting(cfg, s, x);
  }

  lemma TokenStart(cfg: Config, s: State, e: Event, now: nat)
    requires (e.Start? || e.StartFails? || e.BreakOrResume?) && Enabled(s, e, now) && TokenOk(cfg, s, e.token)
    ensures TokenOk(cfg, Step(cfg, s, e, now), e.token)
  {
    var t := e.token;
    var r := Step(cfg, s, e, now);
    assert WasPicked(r, t) <==> WasPicked(s, t);
    assert Waiting(cfg, r, t) ==> Waiting(cfg, s, t);
  }

  lemma TokenOffer(cfg: Config, s: State, e: Event, now: nat)
    requires e.Offer? && e.mint.Some? && Enabled(s, e, now) && TokenOk(cfg, s, e.mint.value)
    ensures TokenOk(cfg, Step(cfg, s, e, now), e.mint.value)
  {
    var r := Step(cfg, s, e, now);
    assert WasPicked(r, e.mint.value) <==> WasPicked(s, e.mint.value);
  }

  lemma TokenEnd(cfg: Config, s: State, e: Event, now: nat)
    requires e.EndSession? && Enabled(s, e, now) && TokenOk(cfg, s, e.token)
    ensures TokenOk(cfg, Step(cfg, s, e, now), e.token)
  {
    var t := e.token;
    var r := Step(cfg, s, e, now);
    assert WasPicked(r, t) <==> WasPicked(s, t);
  }

  lemma TokenTake(cfg: Config, s: State, e: Event, now: nat)
    requires e.Take? && Enabled(s, e, now) && TokenOk(cfg, s, e.token)
    ensures TokenOk(cfg, Step(cfg, s, e, now), e.token)
  {
    var t := e.token;
    var r := Step(cfg, s, e, now);
    if |r.picked| > |s.picked| {
      assert r.picked[|s.picked|].token == t;
    } else {
      assert WasPicked(r, t) <==> WasPicked(s, t);
      assert Waiting(cfg, r, t) ==> Waiting(cfg, s, t);
    }
  }

  lemma StepToken(cfg: Config, s: State, e: Event, now: nat, x: Token)
    requires TokenOk(cfg, s, x) && Enabled(s, e, now)
    ensures TokenOk(cfg, Step(cfg, s, e, now), x)
  {
    if About(e) != Some(x) {
      OtherTokens(cfg, s, e, now, x);
    } else {
      match e
      case Offer(_, _) => TokenOffer(cfg, s, e, now);
      case EndSession(_, _, _) => TokenEnd(cfg, s, e, now);
      case Take(_) => TokenTake(cfg, s, e, now);
      case _ => TokenStart(cfg, s, e, now);
    }
  }

  lemma StepPicks(cfg: Config, s: State, e: Event, now: nat)
    requires PicksOk(s) && (forall x :: TokenOk(cfg, s, x)) && Enabled(s, e, now)
    ensures PicksOk(Step(cfg, s, e, now))
  {
    var r := Step(cfg, s, e, now);
    if (e.Take? && |r.picked| > |s.picked|) || e.EndSession? {
      assert TokenOk(cfg, s, e.token);
      assert !WasPicked(s, e.token);
    }
  }

  lemma {:induction false} Always(cfg: Config, run: seq<Happening>)
    requires Feasible(cfg, run)
    ensures PicksOk(After(cfg, run)) && forall x :: TokenOk(cfg, After(cfg, run), x)
    decreases |run|
  {
    if run != [] {
      var n := |run| - 1;
      Always(cfg, run[..n]);
      var s := After(cfg, run[..n]);
      StepPicks(cfg, s, run[n].event, run[n].now);
      forall x ensures TokenOk(cfg, After(cfg, run), x) {
        StepToken(cfg, s, run[n].event, run[n].now, x);
      }
    }
  }

  // ---------------------------------------------------------------- the guarantees

  /**
   In every run: a pick-up yields something only for a session that has ended, and then exactly the
   capture that session deposited, and at most once per token; a session that is still running, broken
   and resumed any number of times, or that ended without saving, is never picked up.
   */
  lemma CapturedOnce(cfg: Config, run: seq<Happening>, t: Token)
    requires Feasible(cfg, run)
    ensures var s := After(cfg, run);
            && (forall i :: 0 <= i < |s.picked| && s.picked[i].token == t ==>
                  && t in s.ended && t !in s.running
                  && s.picked[i].payload == s.ended[t].captured
                  && s.ended[t].inputs.pipe && s.ended[t].inputs.seeded && !s.ended[t].inputs.readOnly
                  && ScriptHandsBack(s.ended[t].inputs))
            && (forall i, j :: 0 <= i < j < |s.picked| ==> s.picked[i].token != s.picked[j].token)
            && (t in s.running ==> !WasPicked(s, t))
  {
    Always(cfg, run);
    assert TokenOk(cfg, After(cfg, run), t);
    if t in After(cfg, run).ended {
      HandsBackIff(After(cfg, run).ended[t].inputs);
    }
  }

  /**
   A session under a day that ends with a capture leaves it to be found: until someone picks it up or
   it expires, a pick-up returns exactly that capture, whatever else the store was used for.
   */
  lemma CaptureIsFound(cfg: Config, run: seq<Happening>, t: Token, now: nat)
    requires Feasible(cfg, run) && After(cfg, run).now <= now
    requires var s := After(cfg, run);
             && t in s.ended && s.ended[t].Capture().Some? && !WasPicked(s, t)
             && s.ended[t].at < s.ended[t].claimedAt + IN_FLIGHT_MAX_AGE
             && now < s.ended[t].at + cfg.ttl
    ensures var s := After(cfg, run);
            LazyOp(cfg, s.entries, PickUp(t), now).1 == Profile(s.ended[t].Capture())
  {
    Always(cfg, run);
    FoundWhileWaiting(cfg, After(cfg, run), t, now);
  }

  lemma FoundWhileWaiting(cfg: Config, s: State, t: Token, now: nat)
    requires TokenOk(cfg, s, t) && Waiting(cfg, s, t) && s.now <= now < s.ended[t].at + cfg.ttl
    ensures LazyOp(cfg, s.entries, PickUp(t), now).1 == Profile(s.ended[t].Capture())
  {
    assert t in Sweep(cfg, s.entries, now);
  }

  /** The same token never starts a second session. */
  lemma StartsOnce(cfg: Config, run: seq<Happening>, t: Token, now: nat)
    requires Feasible(cfg, run)
    requires var s := After(cfg, run); t in s.running || t in s.ended
    ensures LazyOp(cfg, After(cfg, run).entries, Claim(t), now).1 == Profile(None)
  {
    Always(cfg, run);
    assert TokenOk(cfg, After(cfg, run), t);
  }

  // ---------------------------------------------------------------- what each event does

  /** A start runs a session exactly when the profile is there, pending and not expired. */
  lemma StartRuns(cfg: Config, s: State, t: Token, now: nat)
    requires s.now <= now
    ensures Enabled(s, Start(t), now) && Enabled(s, StartFails(t), now)
    ensures var r := Step(cfg, s, Start(t), now);
            var there := t in s.entries && s.entries[t].slot.Pending? && SaturatingSub(now, s.entries[t].at) < cfg.ttl;
            && r.running == (if there then s.running[t := now] else s.running)
            && (there ==> t in r.entries && r.entries[t] == Entry(InFlight, now))
            && r.ended == s.ended && r.picked == s.picked
            && Step(cfg, s, StartFails(t), now) == r.(running := s.running)
  {
  }

  /** The end of a session, through its one store call. */
  lemma EndIsRecorded(cfg: Config, s: State, t: Token, in_: Inputs, captured: Payload, now: nat)
    requires Enabled(s, EndSession(t, in_, captured), now)
    requires t in s.entries && s.entries[t].slot.InFlight?
    ensures var r := Step(cfg, s, EndSession(t, in_, captured), now);
            var saves := in_.pipe && in_.seeded && !in_.readOnly && ScriptHandsBack(in_);
            && r.running == s.running - {t} && r.picked == s.picked
            && r.ended == s.ended[t := Ended(now, s.running[t], in_, captured)]
            && r.entries == if saves then s.entries[t := Entry(Ready(captured), now)] else s.entries - {t}
  {
    FinalCallIs(t, in_, captured);
  }

  /** A session that has come to its end may end, at any time from now on. */
  lemma EndIsPossible(s: State, t: Token, in_: Inputs, captured: Payload, now: nat)
    requires s.now <= now && t in s.running && IsOver(in_)
    ensures Enabled(s, EndSession(t, in_, captured), now)
  {
  }

  /** A pick-up takes a ready capture that has not expired, once, and nothing else. */
  lemma TakeYields(cfg: Config, s: State, t: Token, now: nat)
    requires s.now <= now
    ensures Enabled(s, Take(t), now)
    ensures var r := Step(cfg, s, Take(t), now);
            var there := t in s.entries && s.entries[t].slot.Ready? && SaturatingSub(now, s.entries[t].at) < cfg.ttl;
            && r.picked == s.picked + (if there then [Picked(t, s.entries[t].slot.payload)] else [])
            && (there ==> t !in r.entries)
            && r.running == s.running && r.ended == s.ended
  {
  }

  /**
   The whole way of a profile: dropped off under a fresh token while there is room, claimed, served, captured
   and picked up, each in time, it comes back as the session left it.
   */
  lemma FullCycle(cfg: Config, s: State, t: Token, payload: Payload, in_: Inputs, captured: Payload, now: nat,
                  started: nat, ended: nat, taken: nat)
    returns (r: State)
    requires t !in s.minted && |Sweep(cfg, s.entries, now)| < cfg.maxPending
    requires s.now <= now <= started < now + cfg.ttl && started <= ended && ended <= taken < ended + cfg.ttl
    requires in_.pipe && in_.seeded && !in_.readOnly && ScriptHandsBack(in_)
    ensures r.picked == s.picked + [Picked(t, captured)] && t in r.ended && t !in r.entries
  {
    HandsBackIff(in_);
    assert IsOver(in_);
    var s1 := Step(cfg, s, Offer(payload, Some(t)), now);
    assert s1.entries[t] == Entry(Pending(payload), now);
    StartRuns(cfg, s1, t, started);
    var s2 := Step(cfg, s1, Start(t), started);
    EndIsRecorded(cfg, s2, t, in_, captured, ended);
    var s3 := Step(cfg, s2, EndSession(t, in_, captured), ended);
    TakeYields(cfg, s3, t, taken);
    r := Step(cfg, s3, Take(t), taken);
  }
}
