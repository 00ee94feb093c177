/**
 One resumable session as the browser's output sees it (src/bridge.rs, and `serve` in
 src/server/resume.rs): successive bridges, the discarding while parked and the clean-up all read
 from the same pipe half.  What the outside world does is a script; every wait in it may be cut
 short at any point, and so may every send to a client.  `SessionOf` says what a session makes of a
 script; module `BrowserStream` proves what that means, and module `ServeTask` that the loops do it.
 */
module Serve {
  import opened Prelude
  import opened Pipe

  // ---------------------------------------------------------------- client to browser

  datatype ClientEvent =
    | Message(bytes: Bytes, accepted: bool)  // text or binary; whether the pipe took it
    | PingPong
    | CloseFrame(code: Option<nat>)
    | Broken                                 // no close frame, or an error
    | Idle                                   // nothing within the idle timeout

  datatype PumpExit = ClientClosed | ClientFinished | IdleTimeout | Cut

  const CLOSE_NORMAL: nat := 1000

  function CloseExit(code: Option<nat>): (r: PumpExit)
    ensures r == ClientFinished <==> code.None? || code.value == CLOSE_NORMAL
    ensures r == ClientFinished || r == ClientClosed
  {
    match code
    case None => ClientFinished
    case Some(c) => if c == CLOSE_NORMAL then ClientFinished else ClientClosed
  }

  /** The messages a client sends before the event that ends its pump. */
  function Forwarded(events: seq<ClientEvent>): seq<Bytes> {
    if events == [] then []
    else
      match events[0]
      case Message(bytes, accepted) => if accepted then [bytes] + Forwarded(events[1..]) else []
      case PingPong => Forwarded(events[1..])
      case _ => []
  }

  function ExitOf(events: seq<ClientEvent>): PumpExit {
    if events == [] then Cut
    else
      match events[0]
      case Message(_, accepted) => if accepted then ExitOf(events[1..]) else ClientClosed
      case PingPong => ExitOf(events[1..])
      case CloseFrame(code) => CloseExit(code)
      case Broken => ClientClosed
      case Idle => IdleTimeout
  }

  /**
   `pump_client_to_browser`: each message up to the ending event goes out once, in order, as one
   frame; a write the pipe refuses ends the pump like a broken client.
   */
  method PumpClientToBrowser(events: seq<ClientEvent>) returns (exit: PumpExit, written: Bytes)
    ensures exit == ExitOf(events)
    ensures written == Encode(Forwarded(events))
  {
    written := [];
    ghost var sent: seq<Bytes> := [];
    var i := 0;
    while i < |events|
      invariant 0 <= i <= |events|
      invariant written == Encode(sent) && sent + Forwarded(events[i..]) == Forwarded(events)
      invariant ExitOf(events[i..]) == ExitOf(events)
    {
      var event := events[i];
      assert events[i..][1..] == events[i + 1..];
      i := i + 1;
      match event
      case Message(bytes, accepted) =>
        if !accepted {
          assert sent + [] == sent;
          return ClientClosed, written;
        }
        written := written + bytes;
        written := written + [NUL];
        EncodeSnoc(sent, bytes);
        sent := sent + [bytes];
      case PingPong =>
      case CloseFrame(code) =>
        assert sent + [] == sent;
        return CloseExit(code), written;
      case Broken =>
        assert sent + [] == sent;
        return ClientClosed, written;
      case Idle =>
        assert sent + [] == sent;
        return IdleTimeout, written;
    }
    assert sent + [] == sent;
    exit := Cut;
  }

  /**
   A browser that reads the frames back gets the client's messages, however its reads are cut, exactly
   when each message is free of NUL bytes and within the cap.
   */
  lemma ClientMessagesArriveIff(events: seq<ClientEvent>, incoming: seq<Read>, max: nat)
    requires Delivered(incoming) == Encode(Forwarded(events))
    ensures RecvAll([], incoming, max) == All(Forwarded(events), Ending(incoming))
       <==> forall i :: 0 <= i < |Forwarded(events)| ==> IsFrame(Forwarded(events)[i], max)
  {
    var sent := Forwarded(events);
    if forall i :: 0 <= i < |sent| ==> IsFrame(sent[i], max) {
      FramesRoundTrip(sent, incoming, max);
    } else {
      CutsDoNotMatter([], incoming, max);
      DecodeIsDecoding([] + Delivered(incoming), max);
    }
  }

  /** The shortest failing input: one message that is a NUL byte arrives as two empty frames. */
  lemma NulSplitsAMessage(max: nat)
    ensures var events := [Message([NUL], true)];
            RecvAll([], [Data(Encode(Forwarded(events)))], max).frames == [[], []]
  {
    var events := [Message([NUL], true)];
    var incoming := [Data(Encode(Forwarded(events)))];
    var two: seq<Bytes> := [[], []];
    assert Forwarded(events) == [[NUL]] && two[1..] == [[]];
    assert Encode([[NUL]]) == [NUL] + [NUL] + Encode([]);
    assert Encode(two) == [] + [NUL] + ([] + [NUL] + Encode([]));
    assert Delivered(incoming) == Encode(two);
    FramesRoundTrip(two, incoming, max);
  }

  // ---------------------------------------------------------------- browser to clients

  /** Who waits for a frame; rounds are counted from zero. */
  datatype Owner = Bridge(round: nat) | Discard(round: nat) | Cleanup(round: nat) {
    function Rank(): nat {
      3 * round + (if Bridge? then 0 else if Discard? then 1 else 2)
    }
  }

  /**
   One `recv_raw`: for whom, which reads completed meanwhile, what it came to, and whether another branch
   was chosen while what it came to was being sent to the client.
   */
  datatype Wait = Wait(owner: Owner, arrived: seq<Read>, recv: Recv, cut: bool)

  /** What becomes of a send to the client; `SendCut` is one that is pending when another branch is chosen. */
  datatype Sending = Sent | SendFailed | SendCut

  /**
   One turn of the browser pump: the reads that complete while it waits for a frame, and what becomes of
   the send that follows, which carries the frame or, after a failed read, the farewell.
   */
  datatype Turn = Turn(arrived: seq<Read>, send: Sending)

  datatype BrowserPumpExit = BrowserGone | ClientGone | OtherBranch

  datatype ParkEnd = Resumed | Expired | Shutdown | StillParked

  /** What the other branches of a bridge's selection see: the client's events, or the shutdown. */
  datatype ClientSide = Client(events: seq<ClientEvent>) | Cancelled

  /** One turn of `serve`'s loop, as the outside world plays it. */
  datatype Round = Round(
    turns: seq<Turn>,
    client: ClientSide,
    parked: seq<seq<Read>>,
    parkEnd: ParkEnd,
    cleanup: seq<seq<Read>>)

  datatype Outcome = Finished | IdledOut | WindowOver | BrowserDied | ShutDown | Running {
    predicate PipeIsBack() { Finished? || IdledOut? || WindowOver? }
  }

  // ---------------------------------------------------------------- what a script comes to

  /** How a part of the session ended, the waits it made, and where it left the reader. */
  datatype Run<E> = Run(end: E, log: seq<Wait>, buf: Bytes, incoming: seq<Read>)

  function Before<E>(log: seq<Wait>, r: Run<E>): Run<E> {
    r.(log := log + r.log)
  }

  function WaitOf(buf: Bytes, incoming: seq<Read>, arrived: seq<Read>, cut: bool, owner: Owner, max: nat): Run<Recv> {
    var r := RecvOf(buf, incoming + arrived, max);
    Run(r.recv, [Wait(owner, arrived, r.recv, cut)], r.buf, r.incoming)
  }

  /**
   `pump_browser_to_client`, until it exits or another branch is chosen.  After a failed read it exits only
   once its farewell has been sent, or could not be; until then another branch may still be chosen.
   */
  function PumpOf(buf: Bytes, incoming: seq<Read>, turns: seq<Turn>, owner: Owner, max: nat): Run<BrowserPumpExit>
    decreases |turns|
  {
    if turns == [] then Run(OtherBranch, [], buf, incoming)
    else
      var w := WaitOf(buf, incoming, turns[0].arrived, turns[0].send.SendCut?, owner, max);
      if w.end.Cancelled? || turns[0].send.SendCut? then Run(OtherBranch, w.log, w.buf, w.incoming)
      else if w.end.Error? then Run(BrowserGone, w.log, w.buf, w.incoming)
      else if turns[0].send.SendFailed? then Run(ClientGone, w.log, w.buf, w.incoming)
      else Before(w.log, PumpOf(w.buf, w.incoming, turns[1..], owner, max))
  }

  /** The wait of a parked session: frames are thrown away, a failed read means the browser is gone. */
  function DiscardOf(buf: Bytes, incoming: seq<Read>, turns: seq<seq<Read>>, owner: Owner, max: nat): Run<bool>
    decreases |turns|
  {
    if turns == [] then Run(false, [], buf, incoming)
    else
      var w := WaitOf(buf, incoming, turns[0], false, owner, max);
      match w.end
      case Error(_) => Run(true, w.log, w.buf, w.incoming)
      case Cancelled => Run(false, w.log, w.buf, w.incoming)
      case Frame(_) => Before(w.log, DiscardOf(w.buf, w.incoming, turns[1..], owner, max))
  }

  /** `clean_slate` as a consumer of frames: best effort, so failed and timed-out calls go on. */
  function CleanOf(buf: Bytes, incoming: seq<Read>, calls: seq<seq<Read>>, owner: Owner, max: nat): Run<()>
    decreases |calls|
  {
    if calls == [] then Run((), [], buf, incoming)
    else
      var w := WaitOf(buf, incoming, calls[0], false, owner, max);
      Before(w.log, CleanOf(w.buf, w.incoming, calls[1..], owner, max))
  }

  /** How a bridge leaves `serve`; `Bridging` when the script stops before it does. */
  datatype BridgeEnd = Ended(outcome: Outcome) | ClientLost | Bridging

  function BridgeOutcome(exit: BrowserPumpExit, client: ClientSide): BridgeEnd {
    match exit
    case BrowserGone => Ended(BrowserDied)
    case ClientGone => ClientLost
    case OtherBranch =>
      match client
      case Cancelled => Ended(ShutDown)
      case Client(events) =>
        match ExitOf(events)
        case ClientFinished => Ended(Finished)
        case IdleTimeout => Ended(IdledOut)
        case ClientClosed => ClientLost
        case Cut => Bridging
  }

  /** How one turn of the loop ends, in its bridge or in its park; `Open` when the script stops inside it. */
  datatype RoundEnd = Over(outcome: Outcome, parked: bool) | Again | Open(parked: bool)

  function ParkOutcome(gone: bool, end: ParkEnd): RoundEnd {
    if gone then Over(BrowserDied, true)
    else
      match end
      case Resumed => Again
      case Expired => Over(WindowOver, true)
      case Shutdown => Over(ShutDown, true)
      case StillParked => Open(true)
  }

  /** The part of a turn that follows a lost client: the park and, after a resume, the clean-up. */
  function ParkOf(buf: Bytes, incoming: seq<Read>, round: Round, k: nat, max: nat): Run<RoundEnd> {
    var d := DiscardOf(buf, incoming, round.parked, Discard(k), max);
    var end := ParkOutcome(d.end, round.parkEnd);
    if !end.Again? then Run(end, d.log, d.buf, d.incoming)
    else
      var c := CleanOf(d.buf, d.incoming, round.cleanup, Cleanup(k), max);
      Run(end, d.log + c.log, c.buf, c.incoming)
  }

  /** One turn of the loop: a bridge and, when the client is lost, a park. */
  function RoundOf(buf: Bytes, incoming: seq<Read>, round: Round, k: nat, max: nat): Run<RoundEnd> {
    var b := PumpOf(buf, incoming, round.turns, Bridge(k), max);
    match BridgeOutcome(b.end, round.client)
    case Ended(outcome) => Run(Over(outcome, false), b.log, b.buf, b.incoming)
    case Bridging => Run(Open(false), b.log, b.buf, b.incoming)
    case ClientLost => Before(b.log, ParkOf(b.buf, b.incoming, round, k, max))
  }

  /** The outcome, the round in which the script reached it, and whether that was in the round's park. */
  datatype Reached = Reached(outcome: Outcome, round: nat, parked: bool)

  /** `serve` from round `k` of the script on. */
  function SessionOf(buf: Bytes, incoming: seq<Read>, script: seq<Round>, k: nat, max: nat): Run<Reached>
    requires k <= |script|
    decreases |script| - k
  {
    if k == |script| then Run(Reached(Running, k, false), [], buf, incoming)
    else
      var r := RoundOf(buf, incoming, script[k], k, max);
      match r.end
      case Over(outcome, parked) => Run(Reached(outcome, k, parked), r.log, r.buf, r.incoming)
      case Open(parked) => Run(Reached(Running, k, parked), r.log, r.buf, r.incoming)
      case Again => Before(r.log, SessionOf(r.buf, r.incoming, script, k + 1, max))
  }

  // ---------------------------------------------------------------- the frames of a log

  function Frames(log: seq<Wait>): seq<Bytes> {
    if log == [] then []
    else
      var n := |log| - 1;
      Frames(log[..n]) + if log[n].recv.Frame? then [log[n].recv.bytes] else []
  }

  lemma {:induction false} FramesConcat(a: seq<Wait>, b: seq<Wait>)
    ensures Frames(a + b) == Frames(a) + Frames(b)
  {
    if b == [] {
      assert a + b == a;
    } else {
      var n := |b| - 1;
      assert (a + b)[..|a + b| - 1] == a + b[..n];
      FramesConcat(a, b[..n]);
    }
  }

  lemma FramesOne(w: Wait)
    ensures Frames([w]) == if w.recv.Frame? then [w.recv.bytes] else []
  {
    assert [w][..0] == [];
  }
}
