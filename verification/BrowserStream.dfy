/**
 What becomes of the browser's output across many clients (src/chrome/pipe.rs, src/bridge.rs and
 `serve` in src/server/resume.rs): for every script, the waits of a session's successive owners read
 like one uninterrupted reader, use every byte once, and happen in the phase that owns them.
 */
module BrowserStream {
  import opened Prelude
  import opened Pipe
  import opened Serve

  // ---------------------------------------------------------------- one reader

  /**
   The results of `log` are those of one reader that starts with `buf` and `incoming` and is asked once
   per entry, whoever asks.
   */
  ghost predicate Plays(buf: Bytes, incoming: seq<Read>, log: seq<Wait>, buf': Bytes, incoming': seq<Read>, max: nat)
    decreases |log|
  {
    if log == [] then buf' == buf && incoming' == incoming
    else
      var r := RecvOf(buf, incoming + log[0].arrived, max);
      log[0].recv == r.recv && Plays(r.buf, r.incoming, log[1..], buf', incoming', max)
  }

  lemma PlaysCons(buf: Bytes, incoming: seq<Read>, w: Wait, tail: seq<Wait>, buf': Bytes, incoming': seq<Read>,
                  max: nat)
    requires var r := RecvOf(buf, incoming + w.arrived, max);
             w.recv == r.recv && Plays(r.buf, r.incoming, tail, buf', incoming', max)
    ensures Plays(buf, incoming, [w] + tail, buf', incoming', max)
  {
    assert ([w] + tail)[1..] == tail;
  }

  lemma {:induction false} PlaysConcat(b0: Bytes, i0: seq<Read>, x: seq<Wait>, b1: Bytes, i1: seq<Read>,
                                       y: seq<Wait>, b2: Bytes, i2: seq<Read>, max: nat)
    requires Plays(b0, i0, x, b1, i1, max) && Plays(b1, i1, y, b2, i2, max)
    ensures Plays(b0, i0, x + y, b2, i2, max)
    decreases |x|
  {
    if x == [] {
      assert x + y == y;
    } else {
      var r := RecvOf(b0, i0 + x[0].arrived, max);
      PlaysConcat(r.buf, r.incoming, x[1..], b1, i1, y, b2, i2, max);
      PlaysCons(b0, i0, x[0], x[1..] + y, b2, i2, max);
      assert x + y == [x[0]] + (x[1..] + y);
    }
  }

  lemma WaitPlays(buf: Bytes, incoming: seq<Read>, arrived: seq<Read>, cut: bool, owner: Owner, max: nat)
    ensures var w := WaitOf(buf, incoming, arrived, cut, owner, max);
            Plays(buf, incoming, w.log, w.buf, w.incoming, max)
  {
    var w := WaitOf(buf, incoming, arrived, cut, owner, max);
    assert w.log[1..] == [];
  }

  lemma {:induction false} PumpPlays(buf: Bytes, incoming: seq<Read>, turns: seq<Turn>, owner: Owner, max: nat)
    ensures var r := PumpOf(buf, incoming, turns, owner, max);
            Plays(buf, incoming, r.log, r.buf, r.incoming, max)
    decreases |turns|
  {
    if turns != [] {
      var w := WaitOf(buf, incoming, turns[0].arrived, turns[0].send.SendCut?, owner, max);
      WaitPlays(buf, incoming, turns[0].arrived, turns[0].send.SendCut?, owner, max);
      PumpPlays(w.buf, w.incoming, turns[1..], owner, max);
      var r := PumpOf(w.buf, w.incoming, turns[1..], owner, max);
      PlaysConcat(buf, incoming, w.log, w.buf, w.incoming, r.log, r.buf, r.incoming, max);
    }
  }

  lemma {:induction false} DiscardPlays(buf: Bytes, incoming: seq<Read>, turns: seq<seq<Read>>, owner: Owner, max: nat)
    ensures var r := DiscardOf(buf, incoming, turns, owner, max);
            Plays(buf, incoming, r.log, r.buf, r.incoming, max)
    decreases |turns|
  {
    if turns != [] {
      var w := WaitOf(buf, incoming, turns[0], false, owner, max);
      WaitPlays(buf, incoming, turns[0], false, owner, max);
      DiscardPlays(w.buf, w.incoming, turns[1..], owner, max);
      var r := DiscardOf(w.buf, w.incoming, turns[1..], owner, max);
      PlaysConcat(buf, incoming, w.log, w.buf, w.incoming, r.log, r.buf, r.incoming, max);
    }
  }

  lemma {:induction false} CleanPlays(buf: Bytes, incoming: seq<Read>, calls: seq<seq<Read>>, owner: Owner, max: nat)
    ensures var r := CleanOf(buf, incoming, calls, owner, max);
            Plays(buf, incoming, r.log, r.buf, r.incoming, max)
    decreases |calls|
  {
    if calls != [] {
      var w := WaitOf(buf, incoming, calls[0], false, owner, max);
      WaitPlays(buf, incoming, calls[0], false, owner, max);
      CleanPlays(w.buf, w.incoming, calls[1..], owner, max);
      var r := CleanOf(w.buf, w.incoming, calls[1..], owner, max);
      PlaysConcat(buf, incoming, w.log, w.buf, w.incoming, r.log, r.buf, r.incoming, max);
    }
  }

  lemma ParkPlays(buf: Bytes, incoming: seq<Read>, round: Round, k: nat, max: nat)
    ensures var r := ParkOf(buf, incoming, round, k, max);
            Plays(buf, incoming, r.log, r.buf, r.incoming, max)
  {
    var d := DiscardOf(buf, incoming, round.parked, Discard(k), max);
    var c := CleanOf(d.buf, d.incoming, round.cleanup, Cleanup(k), max);
    DiscardPlays(buf, incoming, round.parked, Discard(k), max);
    CleanPlays(d.buf, d.incoming, round.cleanup, Cleanup(k), max);
    PlaysConcat(buf, incoming, d.log, d.buf, d.incoming, c.log, c.buf, c.incoming, max);
  }

  lemma RoundPlays(buf: Bytes, incoming: seq<Read>, round: Round, k: nat, max: nat)
    ensures var r := RoundOf(buf, incoming, round, k, max);
            Plays(buf, incoming, r.log, r.buf, r.incoming, max)
  {
    var b := PumpOf(buf, incoming, round.turns, Bridge(k), max);
    var p := ParkOf(b.buf, b.incoming, round, k, max);
    PumpPlays(buf, incoming, round.turns, Bridge(k), max);
    ParkPlays(b.buf, b.incoming, round, k, max);
    PlaysConcat(buf, incoming, b.log, b.buf, b.incoming, p.log, p.buf, p.incoming, max);
  }

  /** Bridges, parks and clean-ups of a whole session read like one uninterrupted reader. */
  lemma {:induction false} SessionPlays(buf: Bytes, incoming: seq<Read>, script: seq<Round>, k: nat, max: nat)
    requires k <= |script|
    ensures var r := SessionOf(buf, incoming, script, k, max);
            Plays(buf, incoming, r.log, r.buf, r.incoming, max)
    decreases |script| - k
  {
    if k < |script| {
      var r := RoundOf(buf, incoming, script[k], k, max);
      RoundPlays(buf, incoming, script[k], k, max);
      if r.end.Again? {
        var rest := SessionOf(r.buf, r.incoming, script, k + 1, max);
        SessionPlays(r.buf, r.incoming, script, k + 1, max);
        PlaysConcat(buf, incoming, r.log, r.buf, r.incoming, rest.log, rest.buf, rest.incoming, max);
      }
    }
  }

  // ---------------------------------------------------------------- every byte once

  /** The reads that completed during the waits of a log. */
  function ArrivedOf(log: seq<Wait>): seq<Read> {
    if log == [] then [] else log[0].arrived + ArrivedOf(log[1..])
  }

  ghost predicate AllFrames(frames: seq<Bytes>, max: nat) {
    forall i :: 0 <= i < |frames| ==> IsFrame(frames[i], max)
  }

  /** The frames of one wait: its own, or none. */
  function FrameOf(recv: Recv): seq<Bytes> {
    if recv.Frame? then [recv.bytes] else []
  }

  lemma FramesFront(log: seq<Wait>)
    requires log != []
    ensures Frames(log) == FrameOf(log[0].recv) + Frames(log[1..])
  {
    FramesConcat(log[..1], log[1..]);
    FramesOne(log[0]);
    assert log == log[..1] + log[1..] && log[..1] == [log[0]];
  }

  lemma ArrivedFront(incoming: seq<Read>, log: seq<Wait>)
    requires log != []
    ensures incoming + ArrivedOf(log) == incoming + log[0].arrived + ArrivedOf(log[1..])
  {
  }

  lemma AllFramesConcat(a: seq<Bytes>, b: seq<Bytes>, max: nat)
    requires AllFrames(a, max) && AllFrames(b, max)
    ensures AllFrames(a + b, max)
  {
  }

  lemma FirstWaitAccounts(buf: Bytes, all: seq<Read>, max: nat) returns (used: seq<Read>)
    ensures var r := RecvOf(buf, all, max);
            Accounts(buf, all, used, FrameOf(r.recv), r.buf, r.incoming) && AllFrames(FrameOf(r.recv), max)
  {
    used := RecvAccounts(buf, all, max);
  }

  /** The waits use reads from the front of what there is, each once, and keep every byte of them. */
  lemma {:induction false} PlaysAccounts(buf: Bytes, incoming: seq<Read>, log: seq<Wait>,
                                         buf': Bytes, incoming': seq<Read>, max: nat)
    returns (used: seq<Read>)
    requires Plays(buf, incoming, log, buf', incoming', max)
    ensures Accounts(buf, incoming + ArrivedOf(log), used, Frames(log), buf', incoming')
    ensures AllFrames(Frames(log), max)
    decreases |log|
  {
    if log == [] {
      used := [];
      NothingUsed(buf, incoming);
      assert incoming + [] == incoming;
    } else {
      var w, tail := log[0], log[1..];
      var r := RecvOf(buf, incoming + w.arrived, max);
      var first := FirstWaitAccounts(buf, incoming + w.arrived, max);
      var rest := PlaysAccounts(r.buf, r.incoming, tail, buf', incoming', max);
      used := first + rest;
      JoinAccounts(buf, incoming, log, first, r.buf, r.incoming, rest, buf', incoming', max);
    }
  }

  lemma JoinAccounts(buf: Bytes, incoming: seq<Read>, log: seq<Wait>, first: seq<Read>, mid: Bytes, left: seq<Read>,
                     rest: seq<Read>, buf': Bytes, incoming': seq<Read>, max: nat)
    requires log != [] && Accounts(buf, incoming + log[0].arrived, first, FrameOf(log[0].recv), mid, left)
    requires Accounts(mid, left + ArrivedOf(log[1..]), rest, Frames(log[1..]), buf', incoming')
    requires AllFrames(FrameOf(log[0].recv), max) && AllFrames(Frames(log[1..]), max)
    ensures Accounts(buf, incoming + ArrivedOf(log), first + rest, Frames(log), buf', incoming')
    ensures AllFrames(Frames(log), max)
  {
    AccountsTwice(buf, incoming + log[0].arrived, first, FrameOf(log[0].recv), mid, left,
                  ArrivedOf(log[1..]), rest, Frames(log[1..]), buf', incoming');
    FramesFront(log);
    ArrivedFront(incoming, log);
    AllFramesConcat(FrameOf(log[0].recv), Frames(log[1..]), max);
  }

  // ---------------------------------------------------------------- every wait in its phase

  /** Owners never alternate: all of one owner's waits come before all of the next one's. */
  ghost predicate InOrder(log: seq<Wait>) {
    forall i, j :: 0 <= i < j < |log| ==> log[i].owner.Rank() <= log[j].owner.Rank()
  }

  /** A wait as a script has it. */
  datatype Planned = Planned(arrived: seq<Read>, cut: bool)

  /** The waits of `owner` in a log, as the script has them. */
  function WaitsOf(log: seq<Wait>, owner: Owner): seq<Planned> {
    if log == [] then []
    else
      var own := if log[0].owner == owner then [Planned(log[0].arrived, log[0].cut)] else [];
      own + WaitsOf(log[1..], owner)
  }

  function PlannedTurns(turns: seq<Turn>): (r: seq<Planned>)
    ensures |r| == |turns|
    ensures forall i :: 0 <= i < |turns| ==> r[i] == Planned(turns[i].arrived, turns[i].send.SendCut?)
  {
    seq(|turns|, i requires 0 <= i < |turns| => Planned(turns[i].arrived, turns[i].send.SendCut?))
  }

  function Uncut(waits: seq<seq<Read>>): (r: seq<Planned>)
    ensures |r| == |waits| && forall i :: 0 <= i < |waits| ==> r[i] == Planned(waits[i], false)
  {
    seq(|waits|, i requires 0 <= i < |waits| => Planned(waits[i], false))
  }

  /** The waits the script has for `owner`: those of that phase of that round. */
  function Scripted(script: seq<Round>, owner: Owner): seq<Planned> {
    if owner.round < |script| then ScriptedIn(script[owner.round], owner) else []
  }

  function ScriptedIn(round: Round, owner: Owner): seq<Planned> {
    match owner
    case Bridge(_) => PlannedTurns(round.turns)
    case Discard(_) => Uncut(round.parked)
    case Cleanup(_) => Uncut(round.cleanup)
  }

  /** All entries of a log are `owner`'s, and they are the first of `waits`. */
  ghost predicate FirstOf(log: seq<Wait>, owner: Owner, waits: seq<Planned>) {
    && |log| <= |waits|
    && forall i :: 0 <= i < |log| ==> log[i].owner == owner && Planned(log[i].arrived, log[i].cut) == waits[i]
  }

  lemma FirstOfCons(w: Wait, log: seq<Wait>, owner: Owner, waits: seq<Planned>)
    requires waits != [] && w.owner == owner && Planned(w.arrived, w.cut) == waits[0]
    requires FirstOf(log, owner, waits[1..])
    ensures FirstOf([w] + log, owner, waits)
  {
    assert forall i :: 0 < i <= |log| ==> ([w] + log)[i] == log[i - 1] && waits[i] == waits[1..][i - 1];
  }

  lemma {:induction false} PumpInPhase(buf: Bytes, incoming: seq<Read>, turns: seq<Turn>, owner: Owner, max: nat)
    ensures FirstOf(PumpOf(buf, incoming, turns, owner, max).log, owner, PlannedTurns(turns))
    decreases |turns|
  {
    if turns != [] {
      var w := WaitOf(buf, incoming, turns[0].arrived, turns[0].send.SendCut?, owner, max);
      PumpInPhase(w.buf, w.incoming, turns[1..], owner, max);
      assert PlannedTurns(turns)[1..] == PlannedTurns(turns[1..]);
      FirstOfCons(w.log[0], PumpOf(w.buf, w.incoming, turns[1..], owner, max).log, owner, PlannedTurns(turns));
    }
  }

  lemma {:induction false} DiscardInPhase(buf: Bytes, incoming: seq<Read>, turns: seq<seq<Read>>, owner: Owner,
                                          max: nat)
    ensures FirstOf(DiscardOf(buf, incoming, turns, owner, max).log, owner, Uncut(turns))
    decreases |turns|
  {
    if turns != [] {
      var w := WaitOf(buf, incoming, turns[0], false, owner, max);
      DiscardInPhase(w.buf, w.incoming, turns[1..], owner, max);
      assert Uncut(turns)[1..] == Uncut(turns[1..]);
      FirstOfCons(w.log[0], DiscardOf(w.buf, w.incoming, turns[1..], owner, max).log, owner, Uncut(turns));
    }
  }

  /** The clean-up makes all its calls. */
  lemma {:induction false} CleanInPhase(buf: Bytes, incoming: seq<Read>, calls: seq<seq<Read>>, owner: Owner, max: nat)
    ensures FirstOf(CleanOf(buf, incoming, calls, owner, max).log, owner, Uncut(calls))
    ensures |CleanOf(buf, incoming, calls, owner, max).log| == |calls|
    decreases |calls|
  {
    if calls != [] {
      var w := WaitOf(buf, incoming, calls[0], false, owner, max);
      CleanInPhase(w.buf, w.incoming, calls[1..], owner, max);
      assert Uncut(calls)[1..] == Uncut(calls[1..]);
      FirstOfCons(w.log[0], CleanOf(w.buf, w.incoming, calls[1..], owner, max).log, owner, Uncut(calls));
    }
  }

  lemma RegroupWaits(a: seq<Planned>, b: seq<Planned>, c: seq<Planned>)
    ensures a + b + c == a + (b + c)
  {
  }

  lemma {:induction false} WaitsOfConcat(a: seq<Wait>, b: seq<Wait>, owner: Owner)
    ensures WaitsOf(a + b, owner) == WaitsOf(a, owner) + WaitsOf(b, owner)
  {
    if a == [] {
      assert a + b == b;
    } else {
      assert (a + b)[0] == a[0] && (a + b)[1..] == a[1..] + b;
      WaitsOfConcat(a[1..], b, owner);
      RegroupWaits(if a[0].owner == owner then [Planned(a[0].arrived, a[0].cut)] else [],
                   WaitsOf(a[1..], owner), WaitsOf(b, owner));
    }
  }

  lemma FirstOfTail(log: seq<Wait>, own: Owner, waits: seq<Planned>)
    requires FirstOf(log, own, waits) && log != []
    ensures FirstOf(log[1..], own, waits[1..])
  {
    forall i | 0 <= i < |log| - 1
      ensures log[1..][i].owner == own && Planned(log[1..][i].arrived, log[1..][i].cut) == waits[1..][i]
    {
      assert log[1..][i] == log[i + 1];
    }
  }

  lemma TakeCons(waits: seq<Planned>, n: nat)
    requires 0 < n <= |waits|
    ensures waits[..n] == [waits[0]] + waits[1..][..n - 1]
  {
  }

  lemma {:induction false} WaitsOfPhase(log: seq<Wait>, own: Owner, waits: seq<Planned>, owner: Owner)
    requires FirstOf(log, own, waits)
    ensures WaitsOf(log, owner) == if own == owner then waits[..|log|] else []
  {
    if log != [] {
      FirstOfTail(log, own, waits);
      WaitsOfPhase(log[1..], own, waits[1..], owner);
      TakeCons(waits, |log|);
    }
  }

  lemma InOrderConcat(a: seq<Wait>, b: seq<Wait>, rank: nat)
    requires InOrder(a) && InOrder(b)
    requires forall i :: 0 <= i < |a| ==> a[i].owner.Rank() <= rank
    requires forall i :: 0 <= i < |b| ==> rank <= b[i].owner.Rank()
    ensures InOrder(a + b)
  {
  }

  ghost predicate OfRounds(log: seq<Wait>, first: nat, last: nat) {
    forall i :: 0 <= i < |log| ==> first <= log[i].owner.round <= last
  }

  lemma OrderOfPhases(b: seq<Wait>, d: seq<Wait>, c: seq<Wait>, round: Round, k: nat)
    requires FirstOf(b, Bridge(k), PlannedTurns(round.turns))
    requires FirstOf(d, Discard(k), Uncut(round.parked)) && FirstOf(c, Cleanup(k), Uncut(round.cleanup))
    ensures InOrder(b + (d + c)) && OfRounds(b + (d + c), k, k)
  {
    InOrderConcat(d, c, Discard(k).Rank());
    InOrderConcat(b, d + c, Bridge(k).Rank());
  }

  lemma WaitsOfPhases(b: seq<Wait>, d: seq<Wait>, c: seq<Wait>, round: Round, k: nat, owner: Owner)
    requires FirstOf(b, Bridge(k), PlannedTurns(round.turns))
    requires FirstOf(d, Discard(k), Uncut(round.parked)) && FirstOf(c, Cleanup(k), Uncut(round.cleanup))
    ensures var waits := WaitsOf(b + (d + c), owner);
            && (owner.round == k ==> waits <= ScriptedIn(round, owner))
            && (owner.round != k ==> waits == [])
            && (owner == Cleanup(k) && |c| == |round.cleanup| ==> waits == Uncut(round.cleanup))
  {
    WaitsOfPhase(b, Bridge(k), PlannedTurns(round.turns), owner);
    WaitsOfPhase(d, Discard(k), Uncut(round.parked), owner);
    WaitsOfPhase(c, Cleanup(k), Uncut(round.cleanup), owner);
    WaitsOfConcat(d, c, owner);
    WaitsOfConcat(b, d + c, owner);
  }

  lemma ParkPhases(buf: Bytes, incoming: seq<Read>, round: Round, k: nat, max: nat) returns (d: seq<Wait>, c: seq<Wait>)
    ensures var r := ParkOf(buf, incoming, round, k, max);
            && r.log == d + c
            && FirstOf(d, Discard(k), Uncut(round.parked)) && FirstOf(c, Cleanup(k), Uncut(round.cleanup))
            && (r.end.Again? ==> |c| == |round.cleanup|)
  {
    var p := DiscardOf(buf, incoming, round.parked, Discard(k), max);
    DiscardInPhase(buf, incoming, round.parked, Discard(k), max);
    CleanInPhase(p.buf, p.incoming, round.cleanup, Cleanup(k), max);
    d, c := p.log, [];
    if ParkOf(buf, incoming, round, k, max).end.Again? {
      c := CleanOf(p.buf, p.incoming, round.cleanup, Cleanup(k), max).log;
    } else {
      assert d + c == d;
    }
  }

  /** The waits of one turn are its bridge's, then its park's, then its clean-up's, made in full. */
  lemma RoundPhases(buf: Bytes, incoming: seq<Read>, round: Round, k: nat, max: nat)
    returns (b: seq<Wait>, d: seq<Wait>, c: seq<Wait>)
    ensures var r := RoundOf(buf, incoming, round, k, max);
            && r.log == b + (d + c) && FirstOf(b, Bridge(k), PlannedTurns(round.turns))
            && FirstOf(d, Discard(k), Uncut(round.parked)) && FirstOf(c, Cleanup(k), Uncut(round.cleanup))
            && (r.end.Again? ==> |c| == |round.cleanup|)
  {
    var p := PumpOf(buf, incoming, round.turns, Bridge(k), max);
    PumpInPhase(buf, incoming, round.turns, Bridge(k), max);
    b, d, c := p.log, [], [];
    if BridgeOutcome(p.end, round.client).ClientLost? {
      d, c := ParkPhases(p.buf, p.incoming, round, k, max);
    } else {
      assert b + (d + c) == b;
    }
  }

  lemma {:induction false} NoneOfOthers(log: seq<Wait>, owner: Owner)
    requires forall i :: 0 <= i < |log| ==> log[i].owner != owner
    ensures WaitsOf(log, owner) == []
  {
    if log != [] {
      NoneOfOthers(log[1..], owner);
    }
  }

  lemma RoundsConcat(a: seq<Wait>, b: seq<Wait>, k: nat, last: nat)
    requires InOrder(a) && OfRounds(a, k, k) && InOrder(b) && OfRounds(b, k + 1, last) && k < last
    ensures InOrder(a + b) && OfRounds(a + b, k, last)
  {
    InOrderConcat(a, b, Cleanup(k).Rank());
  }

  /** The waits of a session are in the order of its rounds and phases. */
  lemma {:induction false} SessionInOrder(buf: Bytes, incoming: seq<Read>, script: seq<Round>, k: nat, max: nat)
    requires k <= |script|
    ensures var r := SessionOf(buf, incoming, script, k, max);
            k <= r.end.round && InOrder(r.log) && OfRounds(r.log, k, r.end.round)
    decreases |script| - k
  {
    if k < |script| {
      var r := RoundOf(buf, incoming, script[k], k, max);
      var b, d, c := RoundPhases(buf, incoming, script[k], k, max);
      OrderOfPhases(b, d, c, script[k], k);
      if r.end.Again? {
        var rest := SessionOf(r.buf, r.incoming, script, k + 1, max);
        SessionInOrder(r.buf, r.incoming, script, k + 1, max);
        RoundsConcat(r.log, rest.log, k, rest.end.round);
      }
    }
  }

  /** What `log` has of `owner`'s waits is the first of what the script has; all of it when `whole`. */
  ghost predicate Follows(log: seq<Wait>, script: seq<Round>, owner: Owner, whole: bool) {
    && WaitsOf(log, owner) <= Scripted(script, owner)
    && (whole ==> WaitsOf(log, owner) == Scripted(script, owner))
  }

  lemma RoundFollows(buf: Bytes, incoming: seq<Read>, script: seq<Round>, k: nat, max: nat, owner: Owner)
    requires k < |script|
    ensures var r := RoundOf(buf, incoming, script[k], k, max);
            OfRounds(r.log, k, k) && Follows(r.log, script, owner, owner == Cleanup(k) && r.end.Again?)
  {
    var b, d, c := RoundPhases(buf, incoming, script[k], k, max);
    OrderOfPhases(b, d, c, script[k], k);
    WaitsOfPhases(b, d, c, script[k], k, owner);
  }

  lemma FollowsJoined(a: seq<Wait>, b: seq<Wait>, script: seq<Round>, k: nat, last: nat, owner: Owner)
    requires OfRounds(a, k, k) && OfRounds(b, k + 1, last)
    requires Follows(a, script, owner, owner == Cleanup(k))
    requires Follows(b, script, owner, owner.Cleanup? && k < owner.round < last)
    ensures Follows(a + b, script, owner, owner.Cleanup? && k <= owner.round < last)
  {
    WaitsOfConcat(a, b, owner);
    if owner.round == k {
      NoneOfOthers(b, owner);
    } else {
      NoneOfOthers(a, owner);
    }
  }

  /** The waits of a stretch of a session from round `k` on are where the script has them. */
  ghost predicate InPhase(r: Run<Reached>, script: seq<Round>, k: nat, owner: Owner) {
    && k <= r.end.round && OfRounds(r.log, k, r.end.round)
    && Follows(r.log, script, owner, owner.Cleanup? && k <= owner.round < r.end.round)
  }

  lemma InPhaseJoined(r: Run<Reached>, log: seq<Wait>, rest: Run<Reached>, script: seq<Round>, k: nat, owner: Owner)
    requires r.log == log + rest.log && r.end == rest.end && InPhase(rest, script, k + 1, owner)
    requires OfRounds(log, k, k) && Follows(log, script, owner, owner == Cleanup(k))
    ensures InPhase(r, script, k, owner)
  {
    FollowsJoined(log, rest.log, script, k, rest.end.round, owner);
  }

  lemma InPhaseAlone(r: Run<Reached>, script: seq<Round>, k: nat, owner: Owner)
    requires r.end.round == k && OfRounds(r.log, k, k) && Follows(r.log, script, owner, false)
    ensures InPhase(r, script, k, owner)
  {
  }

  lemma InPhaseEmpty(r: Run<Reached>, script: seq<Round>, k: nat, owner: Owner)
    requires r.end.round == k && r.log == []
    ensures InPhase(r, script, k, owner)
  {
  }

  /** If the rest of a session is in phase, so is the session from one round earlier. */
  lemma InPhaseStep(buf: Bytes, incoming: seq<Read>, script: seq<Round>, k: nat, max: nat, owner: Owner,
                    r: Run<RoundEnd>, rest: Run<Reached>)
    requires k < |script| && r == RoundOf(buf, incoming, script[k], k, max)
    requires r.end.Again? ==> rest == SessionOf(r.buf, r.incoming, script, k + 1, max)
    requires r.end.Again? ==> InPhase(rest, script, k + 1, owner)
    ensures InPhase(SessionOf(buf, incoming, script, k, max), script, k, owner)
  {
    RoundFollows(buf, incoming, script, k, max, owner);
    if r.end.Again? {
      InPhaseJoined(Before(r.log, rest), r.log, rest, script, k, owner);
    } else {
      InPhaseAlone(SessionOf(buf, incoming, script, k, max), script, k, owner);
    }
  }

  /** Every wait was made in the phase and round that own it. */
  lemma {:induction false} SessionInPhase(buf: Bytes, incoming: seq<Read>, script: seq<Round>, k: nat, max: nat,
                                          owner: Owner)
    requires k <= |script|
    ensures InPhase(SessionOf(buf, incoming, script, k, max), script, k, owner)
    decreases |script| - k
  {
    if k == |script| {
      InPhaseEmpty(SessionOf(buf, incoming, script, k, max), script, k, owner);
    } else {
      var r := RoundOf(buf, incoming, script[k], k, max);
      if r.end.Again? {
        SessionInPhase(r.buf, r.incoming, script, k + 1, max, owner);
      }
      InPhaseStep(buf, incoming, script, k, max, owner, r, SessionOf(r.buf, r.incoming, script, k + 1, max));
    }
  }

  // ---------------------------------------------------------------- the outcome

  /** The browser was seen to be gone: a read failed, and nothing else was chosen during the farewell. */
  predicate Fatal(w: Wait) {
    w.recv.Error? && !w.owner.Cleanup? && !w.cut
  }

  ghost predicate NoneFatal(log: seq<Wait>) {
    forall i :: 0 <= i < |log| ==> !Fatal(log[i])
  }

  ghost predicate LastFatal(log: seq<Wait>) {
    var n := |log| - 1;
    n >= 0 && Fatal(log[n]) && NoneFatal(log[..n])
  }

  /** The log of a part that ended because the browser was gone, or of one that did not. */
  ghost predicate FatalIff(log: seq<Wait>, gone: bool) {
    if gone then LastFatal(log) else NoneFatal(log)
  }

  lemma FatalConcat(a: seq<Wait>, b: seq<Wait>, gone: bool)
    requires NoneFatal(a) && FatalIff(b, gone)
    ensures FatalIff(a + b, gone)
  {
    if gone {
      assert (a + b)[..|a + b| - 1] == a + b[..|b| - 1];
    }
  }

  lemma {:induction false} PumpFatal(buf: Bytes, incoming: seq<Read>, turns: seq<Turn>, owner: Owner, max: nat)
    requires !owner.Cleanup?
    ensures var r := PumpOf(buf, incoming, turns, owner, max); FatalIff(r.log, r.end.BrowserGone?)
    decreases |turns|
  {
    if turns != [] {
      var w := WaitOf(buf, incoming, turns[0].arrived, turns[0].send.SendCut?, owner, max);
      PumpFatal(w.buf, w.incoming, turns[1..], owner, max);
      if w.end.Frame? {
        var r := PumpOf(w.buf, w.incoming, turns[1..], owner, max);
        FatalConcat(w.log, r.log, r.end.BrowserGone?);
      }
    }
  }

  lemma {:induction false} DiscardFatal(buf: Bytes, incoming: seq<Read>, turns: seq<seq<Read>>, owner: Owner, max: nat)
    requires !owner.Cleanup?
    ensures var r := DiscardOf(buf, incoming, turns, owner, max); FatalIff(r.log, r.end)
    decreases |turns|
  {
    if turns != [] {
      var w := WaitOf(buf, incoming, turns[0], false, owner, max);
      DiscardFatal(w.buf, w.incoming, turns[1..], owner, max);
      if w.end.Frame? {
        var r := DiscardOf(w.buf, w.incoming, turns[1..], owner, max);
        FatalConcat(w.log, r.log, r.end);
      }
    }
  }

  predicate Died(end: RoundEnd) {
    end.Over? && end.outcome.BrowserDied?
  }

  lemma ParkFatal(buf: Bytes, incoming: seq<Read>, round: Round, k: nat, max: nat)
    ensures var r := ParkOf(buf, incoming, round, k, max); FatalIff(r.log, Died(r.end))
  {
    var d := DiscardOf(buf, incoming, round.parked, Discard(k), max);
    var c := CleanOf(d.buf, d.incoming, round.cleanup, Cleanup(k), max);
    DiscardFatal(buf, incoming, round.parked, Discard(k), max);
    CleanInPhase(d.buf, d.incoming, round.cleanup, Cleanup(k), max);
    if !d.end {
      FatalConcat(d.log, c.log, false);
    }
  }

  lemma RoundFatal(buf: Bytes, incoming: seq<Read>, round: Round, k: nat, max: nat)
    ensures var r := RoundOf(buf, incoming, round, k, max); FatalIff(r.log, Died(r.end))
  {
    var b := PumpOf(buf, incoming, round.turns, Bridge(k), max);
    var p := ParkOf(b.buf, b.incoming, round, k, max);
    PumpFatal(buf, incoming, round.turns, Bridge(k), max);
    ParkFatal(b.buf, b.incoming, round, k, max);
    if !b.end.BrowserGone? {
      FatalConcat(b.log, p.log, Died(p.end));
    }
  }

  /** The browser has died exactly when the last wait was fatal; no earlier one was. */
  lemma {:induction false} DiedIffLastFatal(buf: Bytes, incoming: seq<Read>, script: seq<Round>, k: nat, max: nat)
    requires k <= |script|
    ensures var r := SessionOf(buf, incoming, script, k, max); FatalIff(r.log, r.end.outcome.BrowserDied?)
    decreases |script| - k
  {
    if k < |script| {
      var r := RoundOf(buf, incoming, script[k], k, max);
      RoundFatal(buf, incoming, script[k], k, max);
      if r.end.Again? {
        var rest := SessionOf(r.buf, r.incoming, script, k + 1, max);
        DiedIffLastFatal(r.buf, r.incoming, script, k + 1, max);
        FatalConcat(r.log, rest.log, rest.end.outcome.BrowserDied?);
      }
    }
  }

  /**
   What the script itself says of a round in which the browser was not seen to die: of its park if it got
   that far, and otherwise of its bridge.
   */
  function OutcomeIn(round: Round, parked: bool): Outcome {
    if parked then
      match round.parkEnd
      case Expired => WindowOver
      case Shutdown => ShutDown
      case _ => Running
    else
      match round.client
      case Cancelled => ShutDown
      case Client(events) =>
        match ExitOf(events)
        case ClientFinished => Finished
        case IdleTimeout => IdledOut
        case _ => Running
  }

  /** How a session that is in round `k` or later goes on to `end`. */
  ghost predicate ReachedFrom(script: seq<Round>, k: nat, end: Reached) {
    && k <= end.round <= |script|
    && (end.round == |script| ==> end.outcome.Running?)
    && (end.round < |script| ==>
          end.outcome.BrowserDied? || end.outcome == OutcomeIn(script[end.round], end.parked))
    && (forall i :: k <= i < end.round ==> script[i].parkEnd == Resumed)
  }

  lemma RoundReached(buf: Bytes, incoming: seq<Read>, round: Round, k: nat, max: nat)
    ensures match RoundOf(buf, incoming, round, k, max).end
            case Over(outcome, parked) => outcome.BrowserDied? || outcome == OutcomeIn(round, parked)
            case Open(parked) => OutcomeIn(round, parked) == Running
            case Again => round.parkEnd == Resumed
  {
  }

  lemma {:induction false} OutcomeIsReached(buf: Bytes, incoming: seq<Read>, script: seq<Round>, k: nat, max: nat)
    requires k <= |script|
    ensures ReachedFrom(script, k, SessionOf(buf, incoming, script, k, max).end)
    decreases |script| - k
  {
    if k < |script| {
      var r := RoundOf(buf, incoming, script[k], k, max);
      RoundReached(buf, incoming, script[k], k, max);
      if r.end.Again? {
        OutcomeIsReached(r.buf, r.incoming, script, k + 1, max);
        ReachedEarlier(script, k, SessionOf(r.buf, r.incoming, script, k + 1, max).end);
      }
    }
  }

  lemma ReachedEarlier(script: seq<Round>, k: nat, end: Reached)
    requires k < |script| && script[k].parkEnd == Resumed && ReachedFrom(script, k + 1, end)
    ensures ReachedFrom(script, k, end)
  {
  }

  /**
   The outcome of a session, for every script: the browser died if and only if the last wait was fatal,
   and otherwise it is what the script says of the round that was reached, all earlier rounds having been
   resumed; a script that ran out leaves the session running.
   */
  lemma OutcomeIsDetermined(buf: Bytes, incoming: seq<Read>, script: seq<Round>, max: nat)
    ensures var r := SessionOf(buf, incoming, script, 0, max);
            && r.end.round <= |script|
            && (forall i :: 0 <= i < r.end.round ==> script[i].parkEnd == Resumed)
            && (LastFatal(r.log) || NoneFatal(r.log))
            && r.end.outcome == if LastFatal(r.log) then BrowserDied
                                else if r.end.round == |script| then Running
                                else OutcomeIn(script[r.end.round], r.end.parked)
  {
    OutcomeIsReached(buf, incoming, script, 0, max);
    DiedIffLastFatal(buf, incoming, script, 0, max);
    FatalOrNot(SessionOf(buf, incoming, script, 0, max).log);
  }

  lemma FatalOrNot(log: seq<Wait>)
    ensures !(LastFatal(log) && NoneFatal(log))
  {
  }

  // ---------------------------------------------------------------- the whole session

  /**
   For every script, with any number of breaks, resumes and cut-off waits: the reads used, then those
   left, are the reads there were and those that arrived; the frames of the buffer and the bytes used are,
   in order, the frames of the session's waits and those still in the buffer.  No frame is split, lost,
   repeated or reordered by a change of owner or a cut-off wait.
   */
  lemma StreamIsPartitioned(buf: Bytes, incoming: seq<Read>, script: seq<Round>, max: nat) returns (used: seq<Read>)
    ensures var r := SessionOf(buf, incoming, script, 0, max);
            && incoming + ArrivedOf(r.log) == used + r.incoming
            && buf + BytesOf(used) == Encode(Frames(r.log)) + r.buf
            && Decode(buf + BytesOf(used), max).frames == Frames(r.log) + Decode(r.buf, max).frames
  {
    var r := SessionOf(buf, incoming, script, 0, max);
    SessionPlays(buf, incoming, script, 0, max);
    used := PlaysAccounts(buf, incoming, r.log, r.buf, r.incoming, max);
    DecodeAfter(Frames(r.log), r.buf, max);
  }

  /** Every frame of a session was taken in the phase that owns its wait, and the phases follow the script. */
  lemma WaitsFollowTheScript(buf: Bytes, incoming: seq<Read>, script: seq<Round>, max: nat, owner: Owner)
    ensures var r := SessionOf(buf, incoming, script, 0, max);
            && InOrder(r.log)
            && WaitsOf(r.log, owner) <= Scripted(script, owner)
            && (owner.Cleanup? && owner.round < r.end.round ==> WaitsOf(r.log, owner) == Scripted(script, owner))
            && (owner.round > r.end.round ==> WaitsOf(r.log, owner) == [])
  {
    var r := SessionOf(buf, incoming, script, 0, max);
    SessionInPhase(buf, incoming, script, 0, max, owner);
    SessionInOrder(buf, incoming, script, 0, max);
    if owner.round > r.end.round {
      NoneOfOthers(r.log, owner);
    }
  }
}
