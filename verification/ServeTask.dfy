/**
 The loops of one resumable session (src/bridge.rs, and `serve` in src/server/resume.rs), proved to do
 with a reader exactly what module `Serve` says of its buffer, its reads and the script.
 */
module ServeTask {
  import opened Prelude
  import opened Pipe
  import opened Serve
  import BrowserStream

  lemma BeforeTwice<E>(a: seq<Wait>, b: seq<Wait>, r: Run<E>)
    ensures Before(a, Before(b, r)) == Before(a + b, r)
  {
    assert a + (b + r.log) == a + b + r.log;
  }

  /** The frames returned grew from `old'` to `now` by those of `log`. */
  ghost predicate Grew(old': seq<Bytes>, now: seq<Bytes>, log: seq<Wait>) {
    now == old' + Frames(log)
  }

  lemma GrewTwice(f0: seq<Bytes>, f1: seq<Bytes>, f2: seq<Bytes>, a: seq<Wait>, b: seq<Wait>)
    requires Grew(f0, f1, a) && Grew(f1, f2, b)
    ensures Grew(f0, f2, a + b)
  {
    FramesConcat(a, b);
  }

  /** One `recv_raw` on behalf of `owner`. */
  method Receive(reader: CdpReader, arrived: seq<Read>, cut: bool, owner: Owner, log: seq<Wait>,
                 ghost start: seq<Bytes>)
    returns (recv: Recv, log': seq<Wait>)
    requires reader.Valid() && Grew(start, reader.frames, log)
    modifies reader
    ensures reader.Valid()
    ensures var w := WaitOf(old(reader.buf), old(reader.incoming), arrived, cut, owner, reader.maxFrame);
            recv == w.end && log' == log + w.log && reader.buf == w.buf && reader.incoming == w.incoming
    ensures Grew(start, reader.frames, log')
  {
    ghost var f := reader.frames;
    recv := reader.RecvRaw(arrived);
    var w := Wait(owner, arrived, recv, cut);
    log' := log + [w];
    FramesOne(w);
    GrewTwice(start, f, reader.frames, log, [w]);
  }

  method PumpBrowserToClient(reader: CdpReader, turns: seq<Turn>, owner: Owner)
    returns (exit: BrowserPumpExit, log: seq<Wait>)
    requires reader.Valid()
    modifies reader
    ensures reader.Valid() && Grew(old(reader.frames), reader.frames, log)
    ensures Run(exit, log, reader.buf, reader.incoming)
         == PumpOf(old(reader.buf), old(reader.incoming), turns, owner, reader.maxFrame)
  {
    log := [];
    for k := 0 to |turns|
      invariant reader.Valid() && Grew(old(reader.frames), reader.frames, log)
      invariant Before(log, PumpOf(reader.buf, reader.incoming, turns[k..], owner, reader.maxFrame))
             == PumpOf(old(reader.buf), old(reader.incoming), turns, owner, reader.maxFrame)
    {
      assert turns[k..][0] == turns[k] && turns[k..][1..] == turns[k + 1..];
      var turn := turns[k];
      ghost var w := WaitOf(reader.buf, reader.incoming, turn.arrived, turn.send.SendCut?, owner, reader.maxFrame);
      BeforeTwice(log, w.log, PumpOf(w.buf, w.incoming, turns[k + 1..], owner, reader.maxFrame));
      var recv;
      recv, log := Receive(reader, turn.arrived, turn.send.SendCut?, owner, log, old(reader.frames));
      if recv.Cancelled? {
        return OtherBranch, log;
      }
      match turn.send
      case SendCut => return OtherBranch, log;
      case SendFailed =>
        return if recv.Error? then BrowserGone else ClientGone, log;
      case Sent =>
        if recv.Error? {
          return BrowserGone, log;
        }
    }
    assert log + [] == log;
    exit := OtherBranch;
  }

  method DiscardWhileParked(reader: CdpReader, turns: seq<seq<Read>>, owner: Owner)
    returns (gone: bool, log: seq<Wait>)
    requires reader.Valid()
    modifies reader
    ensures reader.Valid() && Grew(old(reader.frames), reader.frames, log)
    ensures Run(gone, log, reader.buf, reader.incoming)
         == DiscardOf(old(reader.buf), old(reader.incoming), turns, owner, reader.maxFrame)
  {
    log := [];
    for k := 0 to |turns|
      invariant reader.Valid() && Grew(old(reader.frames), reader.frames, log)
      invariant Before(log, DiscardOf(reader.buf, reader.incoming, turns[k..], owner, reader.maxFrame))
             == DiscardOf(old(reader.buf), old(reader.incoming), turns, owner, reader.maxFrame)
    {
      assert turns[k..][0] == turns[k] && turns[k..][1..] == turns[k + 1..];
      ghost var w := WaitOf(reader.buf, reader.incoming, turns[k], false, owner, reader.maxFrame);
      BeforeTwice(log, w.log, DiscardOf(w.buf, w.incoming, turns[k + 1..], owner, reader.maxFrame));
      var recv;
      recv, log := Receive(reader, turns[k], false, owner, log, old(reader.frames));
      match recv
      case Error(_) => return true, log;
      case Cancelled => return false, log;
      case Frame(_) =>
    }
    assert log + [] == log;
    gone := false;
  }

  method CleanSlate(reader: CdpReader, calls: seq<seq<Read>>, owner: Owner) returns (log: seq<Wait>)
    requires reader.Valid()
    modifies reader
    ensures reader.Valid() && Grew(old(reader.frames), reader.frames, log)
    ensures Run((), log, reader.buf, reader.incoming)
         == CleanOf(old(reader.buf), old(reader.incoming), calls, owner, reader.maxFrame)
  {
    log := [];
    for k := 0 to |calls|
      invariant reader.Valid() && Grew(old(reader.frames), reader.frames, log)
      invariant Before(log, CleanOf(reader.buf, reader.incoming, calls[k..], owner, reader.maxFrame))
             == CleanOf(old(reader.buf), old(reader.incoming), calls, owner, reader.maxFrame)
    {
      assert calls[k..][0] == calls[k] && calls[k..][1..] == calls[k + 1..];
      ghost var w := WaitOf(reader.buf, reader.incoming, calls[k], false, owner, reader.maxFrame);
      BeforeTwice(log, w.log, CleanOf(w.buf, w.incoming, calls[k + 1..], owner, reader.maxFrame));
      var recv;
      recv, log := Receive(reader, calls[k], false, owner, log, old(reader.frames));
    }
    assert log + [] == log;
  }

  /** `bridge_session`: the browser pump against the client pump and the shutdown. */
  method BridgeSession(reader: CdpReader, turns: seq<Turn>, client: ClientSide, owner: Owner)
    returns (end: BridgeEnd, log: seq<Wait>)
    requires reader.Valid()
    modifies reader
    ensures reader.Valid() && Grew(old(reader.frames), reader.frames, log)
    ensures var b := PumpOf(old(reader.buf), old(reader.incoming), turns, owner, reader.maxFrame);
            Run(end, log, reader.buf, reader.incoming) == Run(BridgeOutcome(b.end, client), b.log, b.buf, b.incoming)
  {
    var exit;
    exit, log := PumpBrowserToClient(reader, turns, owner);
    match exit
    case BrowserGone => end := Ended(BrowserDied);
    case ClientGone => end := ClientLost;
    case OtherBranch =>
      match client
      case Cancelled => end := Ended(ShutDown);
      case Client(events) =>
        var why, written := PumpClientToBrowser(events);
        match why
        case ClientFinished => end := Ended(Finished);
        case IdleTimeout => end := Ended(IdledOut);
        case ClientClosed => end := ClientLost;
        case Cut => end := Bridging;
  }

  method ServePark(reader: CdpReader, round: Round, k: nat) returns (end: RoundEnd, log: seq<Wait>)
    requires reader.Valid()
    modifies reader
    ensures reader.Valid() && Grew(old(reader.frames), reader.frames, log)
    ensures Run(end, log, reader.buf, reader.incoming)
         == ParkOf(old(reader.buf), old(reader.incoming), round, k, reader.maxFrame)
  {
    var gone;
    gone, log := DiscardWhileParked(reader, round.parked, Discard(k));
    end := ParkOutcome(gone, round.parkEnd);
    if end.Again? {
      ghost var f := reader.frames;
      var cleaned := CleanSlate(reader, round.cleanup, Cleanup(k));
      GrewTwice(old(reader.frames), f, reader.frames, log, cleaned);
      log := log + cleaned;
    }
  }

  method ServeRound(reader: CdpReader, round: Round, k: nat) returns (end: RoundEnd, log: seq<Wait>)
    requires reader.Valid()
    modifies reader
    ensures reader.Valid() && Grew(old(reader.frames), reader.frames, log)
    ensures Run(end, log, reader.buf, reader.incoming)
         == RoundOf(old(reader.buf), old(reader.incoming), round, k, reader.maxFrame)
  {
    var bridged;
    bridged, log := BridgeSession(reader, round.turns, round.client, Bridge(k));
    match bridged
    case Ended(outcome) => end := Over(outcome, false);
    case Bridging => end := Open(false);
    case ClientLost =>
      ghost var f := reader.frames;
      var parked;
      end, parked := ServePark(reader, round, k);
      GrewTwice(old(reader.frames), f, reader.frames, log, parked);
      log := log + parked;
  }

  /** What one turn of the loop adds to a session, and whether there is another turn. */
  lemma SessionTurn(buf: Bytes, incoming: seq<Read>, script: seq<Round>, k: nat, max: nat, log: seq<Wait>)
    requires k < |script|
    ensures var r := RoundOf(buf, incoming, script[k], k, max);
            var s := Before(log, SessionOf(buf, incoming, script, k, max));
            match r.end
            case Over(outcome, parked) => s == Run(Reached(outcome, k, parked), log + r.log, r.buf, r.incoming)
            case Open(parked) => s == Run(Reached(Running, k, parked), log + r.log, r.buf, r.incoming)
            case Again => s == Before(log + r.log, SessionOf(r.buf, r.incoming, script, k + 1, max))
  {
    var r := RoundOf(buf, incoming, script[k], k, max);
    if r.end.Again? {
      BeforeTwice(log, r.log, SessionOf(r.buf, r.incoming, script, k + 1, max));
    }
  }

  /**
   `serve`: outcome, waits, buffer and unused reads are exactly what the script comes to, and the reader
   has received exactly the bytes of the reads used.
   */
  method ServeSession(reader: CdpReader, script: seq<Round>)
    returns (end: Reached, log: seq<Wait>, ghost used: seq<Read>)
    requires reader.Valid()
    modifies reader
    ensures reader.Valid() && Grew(old(reader.frames), reader.frames, log)
    ensures Run(end, log, reader.buf, reader.incoming)
         == SessionOf(old(reader.buf), old(reader.incoming), script, 0, reader.maxFrame)
    ensures old(reader.incoming) + BrowserStream.ArrivedOf(log) == used + reader.incoming
    ensures reader.received == old(reader.received) + BytesOf(used)
  {
    end, log := PlayScript(reader, script);
    used := BrowserStream.StreamIsPartitioned(old(reader.buf), old(reader.incoming), script, reader.maxFrame);
    ReceivedGrowsByUsed(old(reader.received), old(reader.frames), old(reader.buf), used, log,
                        reader.received, reader.frames, reader.buf);
  }

  /** The loop of `serve`. */
  method PlayScript(reader: CdpReader, script: seq<Round>) returns (end: Reached, log: seq<Wait>)
    requires reader.Valid()
    modifies reader
    ensures reader.Valid() && Grew(old(reader.frames), reader.frames, log)
    ensures Run(end, log, reader.buf, reader.incoming)
         == SessionOf(old(reader.buf), old(reader.incoming), script, 0, reader.maxFrame)
  {
    log := [];
    for k := 0 to |script|
      invariant reader.Valid() && Grew(old(reader.frames), reader.frames, log)
      invariant Before(log, SessionOf(reader.buf, reader.incoming, script, k, reader.maxFrame))
             == SessionOf(old(reader.buf), old(reader.incoming), script, 0, reader.maxFrame)
    {
      SessionTurn(reader.buf, reader.incoming, script, k, reader.maxFrame, log);
      ghost var f := reader.frames;
      var turn, more := ServeRound(reader, script[k], k);
      GrewTwice(old(reader.frames), f, reader.frames, log, more);
      log := log + more;
      match turn
      case Over(outcome, parked) => return Reached(outcome, k, parked), log;
      case Open(parked) => return Reached(Running, k, parked), log;
      case Again =>
    }
    assert log + [] == log;
    end := Reached(Running, |script|, false);
  }

  /** The reader's own history: what it has received grew by exactly the bytes used. */
  lemma ReceivedGrowsByUsed(received: Bytes, frames: seq<Bytes>, buf: Bytes, used: seq<Read>, log: seq<Wait>,
                            received': Bytes, frames': seq<Bytes>, buf': Bytes)
    requires received == Encode(frames) + buf && received' == Encode(frames') + buf'
    requires Grew(frames, frames', log) && buf + BytesOf(used) == Encode(Frames(log)) + buf'
    ensures received' == received + BytesOf(used)
  {
    EncodeConcat(frames, Frames(log));
    Regroup(Encode(frames), buf, BytesOf(used));
    Regroup(Encode(frames), Encode(Frames(log)), buf');
  }
}
