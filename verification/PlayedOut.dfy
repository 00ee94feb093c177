/**
 A session goes on as long as it can (src/bridge.rs, and `serve` in src/server/resume.rs): every round of
 a script is played out, and each part of it ends only for the reason it does.  The reasons are read off the
 waits that were made and the script's own words.
 */
module PlayedOut {
  import opened Prelude
  import opened Pipe
  import opened Serve
  import opened BrowserStream

  // ---------------------------------------------------------------- the client's side

  /** An event after which the client pump goes on. */
  predicate PassesBy(e: ClientEvent) {
    e == PingPong || (e.Message? && e.accepted)
  }

  /** `k` events pass by, and the next one, if there is one, ends the pump. */
  ghost predicate EndsAtEvent(events: seq<ClientEvent>, k: nat) {
    && k <= |events|
    && (forall i :: 0 <= i < k ==> PassesBy(events[i]))
    && (k < |events| ==> !PassesBy(events[k]))
  }

  /**
   The client pump ends at the first event that does not pass by: deliberately on a close without a code
   or with 1000, by the idle timeout, and as a break on everything else.
   */
  lemma {:induction false} ClientEndsAs(events: seq<ClientEvent>, k: nat)
    requires EndsAtEvent(events, k)
    ensures ExitOf(events)
         == if k == |events| then Cut
            else if events[k] == Idle then IdleTimeout
            else if events[k] == CloseFrame(None) || events[k] == CloseFrame(Some(1000)) then ClientFinished
            else ClientClosed
  {
    if k > 0 {
      assert forall i :: 0 <= i < k - 1 ==> PassesBy(events[i + 1]) && events[1..][i] == events[i + 1];
      ClientEndsAs(events[1..], k - 1);
    }
  }

  /** The messages before that event go out, in order, and no other. */
  lemma {:induction false} ClientSends(events: seq<ClientEvent>, k: nat)
    requires EndsAtEvent(events, k)
    ensures Forwarded(events) == Forwarded(events[..k])
    ensures k > 0 ==>
              Forwarded(events[..k])
              == Forwarded(events[..k - 1]) + if events[k - 1].Message? then [events[k - 1].bytes] else []
    ensures Forwarded([]) == []
  {
    if k > 0 {
      var tail := events[1..];
      assert forall i :: 0 <= i < k - 1 ==> PassesBy(events[i + 1]) && tail[i] == events[i + 1];
      ClientSends(tail, k - 1);
      assert events[..k][1..] == tail[..k - 1];
      if k > 1 {
        assert events[..k - 1][1..] == tail[..k - 2];
      } else {
        assert events[..k - 1] == [] && tail[..k - 1] == [];
      }
    }
  }

  // ---------------------------------------------------------------- one round, by its waits

  /** A turn after which the browser pump goes on: a frame came, and was sent. */
  predicate TurnGoesOn(w: Wait, t: Turn) {
    w.recv.Frame? && t.send == Sent
  }

  /** The pump made a wait for every turn, or stopped at the first it could not go on from. */
  ghost predicate Pumped(ws: seq<Wait>, turns: seq<Turn>) {
    var n := |ws|;
    && n <= |turns|
    && (forall i :: 0 <= i < n - 1 ==> TurnGoesOn(ws[i], turns[i]))
    && (n < |turns| ==> n > 0 && !TurnGoesOn(ws[n - 1], turns[n - 1]))
  }

  /** Why it was left, from its last wait and what became of the send after it. */
  function PumpEnd(ws: seq<Wait>, turns: seq<Turn>): BrowserPumpExit {
    var n := |ws|;
    if n == 0 || n > |turns| then OtherBranch
    else if ws[n - 1].recv.Error? && turns[n - 1].send != SendCut then BrowserGone
    else if ws[n - 1].recv.Frame? && turns[n - 1].send == SendFailed then ClientGone
    else OtherBranch
  }

  /** A park's wait took every frame there was for it, or stopped at the first wait without one. */
  ghost predicate Discarded(ws: seq<Wait>, waits: seq<seq<Read>>) {
    var n := |ws|;
    && n <= |waits|
    && (forall i :: 0 <= i < n - 1 ==> ws[i].recv.Frame?)
    && (n < |waits| ==> n > 0 && !ws[n - 1].recv.Frame?)
  }

  predicate ReadFailed(ws: seq<Wait>) {
    ws != [] && ws[|ws| - 1].recv.Error?
  }

  predicate ClientIs(round: Round, exit: PumpExit) {
    round.client.Client? && ExitOf(round.client.events) == exit
  }

  /** The bridge lost its client, and not its browser. */
  predicate LostClient(b: seq<Wait>, round: Round) {
    || PumpEnd(b, round.turns) == ClientGone
    || (PumpEnd(b, round.turns) == OtherBranch && ClientIs(round, ClientClosed))
  }

  /**
   A round with the waits `b` of its bridge, `d` of its park and `c` of its clean-up is played out and ends
   as `end`.  The park comes exactly when the client was lost, the clean-up exactly when a new one came.
   */
  ghost predicate RoundPlayed(b: seq<Wait>, d: seq<Wait>, c: seq<Wait>, round: Round, end: RoundEnd) {
    && Pumped(b, round.turns)
    && if LostClient(b, round) then ParkPlayed(d, c, round, end)
       else d == [] && c == [] && BridgeEnded(b, round, end)
  }

  ghost predicate ParkPlayed(d: seq<Wait>, c: seq<Wait>, round: Round, end: RoundEnd) {
    && Discarded(d, round.parked)
    && if !ReadFailed(d) && round.parkEnd == Resumed then |c| == |round.cleanup| && end == Again
       else c == [] && end == if ReadFailed(d) then Over(BrowserDied, true)
                              else if round.parkEnd == Expired then Over(WindowOver, true)
                              else if round.parkEnd == Shutdown then Over(ShutDown, true)
                              else Open(true)
  }

  predicate BridgeEnded(b: seq<Wait>, round: Round, end: RoundEnd) {
    end == if PumpEnd(b, round.turns) == BrowserGone then Over(BrowserDied, false)
           else if round.client == ClientSide.Cancelled then Over(ShutDown, false)
           else if ClientIs(round, ClientFinished) then Over(Finished, false)
           else if ClientIs(round, IdleTimeout) then Over(IdledOut, false)
           else Open(false)
  }

  // ---------------------------------------------------------------- each part is played out

  lemma PumpedCons(w: Wait, ws: seq<Wait>, turns: seq<Turn>)
    requires turns != [] && TurnGoesOn(w, turns[0]) && Pumped(ws, turns[1..])
    ensures Pumped([w] + ws, turns) && PumpEnd([w] + ws, turns) == PumpEnd(ws, turns[1..])
  {
    var all := [w] + ws;
    forall i | 0 <= i < |all| - 1 ensures TurnGoesOn(all[i], turns[i]) {
      if i > 0 {
        assert all[i] == ws[i - 1] && turns[i] == turns[1..][i - 1];
      }
    }
    if ws != [] {
      assert all[|all| - 1] == ws[|ws| - 1] && turns[|all| - 1] == turns[1..][|ws| - 1];
    }
  }

  lemma PumpedOnce(w: Wait, turns: seq<Turn>)
    requires turns != [] && !TurnGoesOn(w, turns[0])
    ensures Pumped([w], turns)
    ensures PumpEnd([w], turns)
         == if w.recv.Error? && turns[0].send != SendCut then BrowserGone
            else if w.recv.Frame? && turns[0].send == SendFailed then ClientGone
            else OtherBranch
  {
  }

  /** The browser pump goes on as long as frames come and are sent, and its exit is that of its last wait. */
  lemma {:induction false} PumpGoesOn(buf: Bytes, incoming: seq<Read>, turns: seq<Turn>, owner: Owner, max: nat)
    ensures var r := PumpOf(buf, incoming, turns, owner, max);
            Pumped(r.log, turns) && r.end == PumpEnd(r.log, turns)
    decreases |turns|
  {
    if turns != [] {
      var w := WaitOf(buf, incoming, turns[0].arrived, turns[0].send.SendCut?, owner, max);
      PumpGoesOn(w.buf, w.incoming, turns[1..], owner, max);
      if TurnGoesOn(w.log[0], turns[0]) {
        PumpedCons(w.log[0], PumpOf(w.buf, w.incoming, turns[1..], owner, max).log, turns);
      } else {
        PumpedOnce(w.log[0], turns);
      }
    }
  }

  lemma DiscardedCons(w: Wait, ws: seq<Wait>, waits: seq<seq<Read>>)
    requires waits != [] && w.recv.Frame? && Discarded(ws, waits[1..])
    ensures Discarded([w] + ws, waits) && (ReadFailed([w] + ws) <==> ReadFailed(ws))
  {
    var all := [w] + ws;
    forall i | 0 <= i < |all| - 1 ensures all[i].recv.Frame? {
      if i > 0 {
        assert all[i] == ws[i - 1];
      }
    }
    if ws != [] {
      assert all[|all| - 1] == ws[|ws| - 1];
    }
  }

  /** A parked session goes on discarding as long as frames come. */
  lemma {:induction false} DiscardGoesOn(buf: Bytes, incoming: seq<Read>, waits: seq<seq<Read>>, owner: Owner, max: nat)
    ensures var r := DiscardOf(buf, incoming, waits, owner, max);
            Discarded(r.log, waits) && (r.end <==> ReadFailed(r.log))
    decreases |waits|
  {
    if waits != [] {
      var w := WaitOf(buf, incoming, waits[0], false, owner, max);
      DiscardGoesOn(w.buf, w.incoming, waits[1..], owner, max);
      if w.end.Frame? {
        DiscardedCons(w.log[0], DiscardOf(w.buf, w.incoming, waits[1..], owner, max).log, waits);
      }
    }
  }

  /** The waits of one owner in a log. */
  function Own(log: seq<Wait>, owner: Owner): seq<Wait> {
    if log == [] then [] else (if log[0].owner == owner then [log[0]] else []) + Own(log[1..], owner)
  }

  lemma RegroupOwn(a: seq<Wait>, b: seq<Wait>, c: seq<Wait>)
    ensures a + b + c == a + (b + c)
  {
  }

  lemma {:induction false} OwnConcat(a: seq<Wait>, b: seq<Wait>, owner: Owner)
    ensures Own(a + b, owner) == Own(a, owner) + Own(b, owner)
  {
    if a == [] {
      assert a + b == b;
    } else {
      assert (a + b)[0] == a[0] && (a + b)[1..] == a[1..] + b;
      OwnConcat(a[1..], b, owner);
      RegroupOwn(if a[0].owner == owner then [a[0]] else [], Own(a[1..], owner), Own(b, owner));
    }
  }

  ghost predicate AllOf(log: seq<Wait>, owner: Owner) {
    forall i :: 0 <= i < |log| ==> log[i].owner == owner
  }

  ghost predicate NoneOf(log: seq<Wait>, owner: Owner) {
    forall i :: 0 <= i < |log| ==> log[i].owner != owner
  }

  lemma {:induction false} OwnAll(log: seq<Wait>, owner: Owner)
    requires AllOf(log, owner)
    ensures Own(log, owner) == log
  {
    if log != [] {
      OwnAll(log[1..], owner);
      assert log == [log[0]] + log[1..];
    }
  }

  lemma {:induction false} OwnNone(log: seq<Wait>, owner: Owner)
    requires NoneOf(log, owner)
    ensures Own(log, owner) == []
  {
    if log != [] {
      OwnNone(log[1..], owner);
    }
  }

  /** The three phases of a round are told apart in its log. */
  lemma OwnPhases(b: seq<Wait>, d: seq<Wait>, c: seq<Wait>, k: nat)
    requires AllOf(b, Bridge(k)) && AllOf(d, Discard(k)) && AllOf(c, Cleanup(k))
    ensures var log := b + (d + c);
            Own(log, Bridge(k)) == b && Own(log, Discard(k)) == d && Own(log, Cleanup(k)) == c
  {
    OneOfThree(b, d, c, Bridge(k));
    OneOfThree(b, d, c, Discard(k));
    OneOfThree(b, d, c, Cleanup(k));
    OwnAll(b, Bridge(k));
    OwnAll(d, Discard(k));
    OwnAll(c, Cleanup(k));
    OwnNone(b, Discard(k));
    OwnNone(b, Cleanup(k));
    OwnNone(d, Bridge(k));
    OwnNone(d, Cleanup(k));
    OwnNone(c, Bridge(k));
    OwnNone(c, Discard(k));
  }

  lemma OneOfThree(b: seq<Wait>, d: seq<Wait>, c: seq<Wait>, owner: Owner)
    ensures Own(b + (d + c), owner) == Own(b, owner) + (Own(d, owner) + Own(c, owner))
  {
    OwnConcat(b, d + c, owner);
    OwnConcat(d, c, owner);
  }

  lemma ParkIsPlayed(buf: Bytes, incoming: seq<Read>, round: Round, k: nat, max: nat)
    returns (d: seq<Wait>, c: seq<Wait>)
    ensures var r := ParkOf(buf, incoming, round, k, max);
            && r.log == d + c && AllOf(d, Discard(k)) && AllOf(c, Cleanup(k))
            && ParkPlayed(d, c, round, r.end)
  {
    var p := DiscardOf(buf, incoming, round.parked, Discard(k), max);
    DiscardGoesOn(buf, incoming, round.parked, Discard(k), max);
    DiscardInPhase(buf, incoming, round.parked, Discard(k), max);
    CleanInPhase(p.buf, p.incoming, round.cleanup, Cleanup(k), max);
    d, c := p.log, [];
    if !p.end && round.parkEnd == Resumed {
      c := CleanOf(p.buf, p.incoming, round.cleanup, Cleanup(k), max).log;
    } else {
      assert d + c == d;
    }
  }

  lemma RoundIsPlayed(buf: Bytes, incoming: seq<Read>, round: Round, k: nat, max: nat)
    returns (b: seq<Wait>, d: seq<Wait>, c: seq<Wait>)
    ensures var r := RoundOf(buf, incoming, round, k, max);
            && r.log == b + (d + c) && AllOf(b, Bridge(k)) && AllOf(d, Discard(k)) && AllOf(c, Cleanup(k))
            && RoundPlayed(b, d, c, round, r.end)
  {
    var p := PumpOf(buf, incoming, round.turns, Bridge(k), max);
    PumpGoesOn(buf, incoming, round.turns, Bridge(k), max);
    PumpInPhase(buf, incoming, round.turns, Bridge(k), max);
    b, d, c := p.log, [], [];
    if LostClient(b, round) {
      d, c := ParkIsPlayed(p.buf, p.incoming, round, k, max);
    } else {
      assert b + (d + c) == b;
    }
  }

  // ---------------------------------------------------------------- the whole session

  /** How round `j` ended, in a session that got to `reached`. */
  function EndOfRound(reached: Reached, j: nat): RoundEnd {
    if j < reached.round then Again
    else if reached.outcome == Running then Open(reached.parked)
    else Over(reached.outcome, reached.parked)
  }

  /** Round `j` was played out, as far as its log says. */
  ghost predicate PlayedAt(log: seq<Wait>, script: seq<Round>, j: nat, reached: Reached)
    requires j < |script|
  {
    RoundPlayed(Own(log, Bridge(j)), Own(log, Discard(j)), Own(log, Cleanup(j)), script[j], EndOfRound(reached, j))
  }

  lemma PlayedIsNotRunning(b: seq<Wait>, d: seq<Wait>, c: seq<Wait>, round: Round, end: RoundEnd)
    requires RoundPlayed(b, d, c, round, end)
    ensures !(end.Over? && end.outcome == Running)
  {
  }

  lemma PhasesOfRound(b: seq<Wait>, d: seq<Wait>, c: seq<Wait>, k: nat)
    requires AllOf(b, Bridge(k)) && AllOf(d, Discard(k)) && AllOf(c, Cleanup(k))
    ensures OfRounds(b + (d + c), k, k)
  {
  }

  lemma FirstIsPlayed(buf: Bytes, incoming: seq<Read>, round: Round, k: nat, max: nat)
    ensures var r := RoundOf(buf, incoming, round, k, max);
            && OfRounds(r.log, k, k)
            && RoundPlayed(Own(r.log, Bridge(k)), Own(r.log, Discard(k)), Own(r.log, Cleanup(k)), round, r.end)
            && !(r.end.Over? && r.end.outcome == Running)
  {
    var b, d, c := RoundIsPlayed(buf, incoming, round, k, max);
    PhasesOfRound(b, d, c, k);
    PlayedIsNotRunning(b, d, c, round, RoundOf(buf, incoming, round, k, max).end);
    OwnPhases(b, d, c, k);
  }

  /** Waits of other rounds do not change what round `j` is seen to have done. */
  lemma OtherRounds(a: seq<Wait>, b: seq<Wait>, k: nat, last: nat, j: nat, owner: Owner)
    requires OfRounds(a, k, k) && OfRounds(b, k + 1, last) && owner.round == j
    ensures j == k ==> Own(a + b, owner) == Own(a, owner)
    ensures j != k ==> Own(a + b, owner) == Own(b, owner)
  {
    OwnConcat(a, b, owner);
    if j == k {
      OwnNone(b, owner);
    } else {
      OwnNone(a, owner);
    }
  }

  lemma PlayedJoined(a: seq<Wait>, rest: Run<Reached>, script: seq<Round>, k: nat, j: nat)
    requires OfRounds(a, k, k) && OfRounds(rest.log, k + 1, rest.end.round) && k < |script| && j < |script|
    requires k <= j <= rest.end.round && k < rest.end.round
    requires if j == k
             then RoundPlayed(Own(a, Bridge(k)), Own(a, Discard(k)), Own(a, Cleanup(k)), script[k], Again)
             else PlayedAt(rest.log, script, j, rest.end)
    ensures PlayedAt(a + rest.log, script, j, rest.end)
  {
    OtherRounds(a, rest.log, k, rest.end.round, j, Bridge(j));
    OtherRounds(a, rest.log, k, rest.end.round, j, Discard(j));
    OtherRounds(a, rest.log, k, rest.end.round, j, Cleanup(j));
  }

  /**
   For every script: each round up to the one that was reached is played out to its own end, every round
   before that one having been resumed, and a session that is still running has come to the end of its
   script or is inside a round that the script leaves open.
   */
  lemma {:induction false} SessionIsPlayedOut(buf: Bytes, incoming: seq<Read>, script: seq<Round>, k: nat, max: nat,
                                              j: nat)
    requires k <= j < |script|
    ensures var r := SessionOf(buf, incoming, script, k, max);
            j <= r.end.round ==> PlayedAt(r.log, script, j, r.end)
    decreases |script| - k
  {
    var r := RoundOf(buf, incoming, script[k], k, max);
    FirstIsPlayed(buf, incoming, script[k], k, max);
    if r.end.Again? {
      var rest := SessionOf(r.buf, r.incoming, script, k + 1, max);
      SessionInOrder(r.buf, r.incoming, script, k + 1, max);
      if j > k {
        SessionIsPlayedOut(r.buf, r.incoming, script, k + 1, max, j);
      }
      if j <= rest.end.round {
        PlayedJoined(r.log, rest, script, k, j);
      }
    }
  }
}
