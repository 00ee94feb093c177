/**
 The bounded queue of `acquire_slot` with every access to its atomic counter as a step of its own
 (src/pool.rs): a claimer adds one and keeps the value it saw, compares that value later, and gives
 its one back whenever its guard is dropped.  Any number of claimers interleave in any order.
 */
module QueueCounter {
  import opened Prelude

  type Claimer = nat

  datatype Pc = Counted | Parked | Rejected

  /** A live guard: the value its owner's `fetch_add` produced, and how far the owner got. */
  datatype Guard = Guard(ticket: nat, pc: Pc)

  datatype State = State(counter: nat, guards: map<Claimer, Guard>)

  datatype Event =
    | FetchAdd(c: Claimer)
    | Compare(c: Claimer)
    | DropGuard(c: Claimer)  // rejected, granted, timed out, closed or cancelled

  predicate Enabled(s: State, e: Event) {
    match e
    case FetchAdd(c) => c !in s.guards
    case Compare(c) => c in s.guards && s.guards[c].pc.Counted?
    case DropGuard(c) => c in s.guards && !s.guards[c].pc.Counted? && s.counter > 0
  }

  function Step(maxQueue: nat, s: State, e: Event): State
    requires Enabled(s, e)
  {
    match e
    case FetchAdd(c) => State(s.counter + 1, s.guards[c := Guard(s.counter + 1, Counted)])
    case Compare(c) =>
      var pc := if s.guards[c].ticket > maxQueue then Rejected else Parked;
      s.(guards := s.guards[c := s.guards[c].(pc := pc)])
    case DropGuard(c) => State(s.counter - 1, s.guards - {c})
  }

  ghost predicate Feasible(maxQueue: nat, run: seq<Event>)
    decreases |run|, 0
  {
    run == [] ||
    (Feasible(maxQueue, run[..|run| - 1]) && Enabled(After(maxQueue, run[..|run| - 1]), run[|run| - 1]))
  }

  ghost function After(maxQueue: nat, run: seq<Event>): State
    requires Feasible(maxQueue, run)
    decreases |run|, 1
  {
    if run == [] then State(0, map[])
    else Step(maxQueue, After(maxQueue, run[..|run| - 1]), run[|run| - 1])
  }

  /** The claimers whose guard is live and whose ticket is at most `k`. */
  function UpTo(s: State, k: nat): set<Claimer> {
    set c | c in s.guards && s.guards[c].ticket <= k
  }

  function ParkedSet(s: State): set<Claimer> {
    set c | c in s.guards && s.guards[c].pc.Parked?
  }

  /** At most `k` live guards carry a ticket of at most `k`, for every `k`. */
  ghost predicate TicketsSpread(s: State) {
    forall k: nat :: |UpTo(s, k)| <= k
  }

  ghost predicate Inv(maxQueue: nat, s: State) {
    && s.counter == |s.guards|
    && TicketsSpread(s)
    && (forall c :: c in s.guards && s.guards[c].pc.Parked? ==> s.guards[c].ticket <= maxQueue)
    && (forall c :: c in s.guards && s.guards[c].pc.Rejected? ==> s.guards[c].ticket > maxQueue)
  }

  lemma SubsetSize(a: set<Claimer>, b: set<Claimer>)
    requires a <= b
    ensures |a| <= |b|
  {
    assert b == a + (b - a);
  }

  /** A ticket is one more than the live guards, so it never crowds the tickets below it. */
  lemma AddSpreads(s: State, c: Claimer, k: nat)
    requires s.counter == |s.guards| && |UpTo(s, k)| <= k && c !in s.guards
    ensures |UpTo(State(s.counter + 1, s.guards[c := Guard(s.counter + 1, Counted)]), k)| <= k
  {
    var r := State(s.counter + 1, s.guards[c := Guard(s.counter + 1, Counted)]);
    if s.counter + 1 <= k {
      assert UpTo(r, k) <= UpTo(s, k) + {c};
      SubsetSize(UpTo(r, k), UpTo(s, k) + {c});
      SubsetSize(UpTo(s, k), s.guards.Keys);
    } else {
      assert UpTo(r, k) <= UpTo(s, k);
      SubsetSize(UpTo(r, k), UpTo(s, k));
    }
  }

  lemma StepSpreads(maxQueue: nat, s: State, e: Event, k: nat)
    requires s.counter == |s.guards| && |UpTo(s, k)| <= k && Enabled(s, e)
    ensures |UpTo(Step(maxQueue, s, e), k)| <= k
  {
    if e.FetchAdd? {
      AddSpreads(s, e.c, k);
    } else {
      assert UpTo(Step(maxQueue, s, e), k) <= UpTo(s, k);
      SubsetSize(UpTo(Step(maxQueue, s, e), k), UpTo(s, k));
    }
  }

  lemma StepKeeps(maxQueue: nat, s: State, e: Event)
    requires Inv(maxQueue, s) && Enabled(s, e)
    ensures Inv(maxQueue, Step(maxQueue, s, e))
  {
    forall k: nat ensures |UpTo(Step(maxQueue, s, e), k)| <= k {
      assert |UpTo(s, k)| <= k;
      StepSpreads(maxQueue, s, e, k);
    }
    if e.DropGuard? {
      assert (s.guards - {e.c}).Keys == s.guards.Keys - {e.c};
    }
  }

  lemma {:induction false} Always(maxQueue: nat, run: seq<Event>)
    requires Feasible(maxQueue, run)
    ensures Inv(maxQueue, After(maxQueue, run))
    decreases |run|
  {
    if run != [] {
      var n := |run| - 1;
      Always(maxQueue, run[..n]);
      StepKeeps(maxQueue, After(maxQueue, run[..n]), run[n]);
    } else {
      forall k: nat ensures |UpTo(State(0, map[]), k)| <= k {
        assert UpTo(State(0, map[]), k) == {};
      }
    }
  }

  /**
   In every interleaving the counter is the number of live guards and the number actually parked
   never exceeds the bound, even while the counter does.
   */
  lemma QueueBound(maxQueue: nat, run: seq<Event>)
    requires Feasible(maxQueue, run)
    ensures var s := After(maxQueue, run);
            s.counter == |s.guards| && |ParkedSet(s)| <= maxQueue
  {
    Always(maxQueue, run);
    var s := After(maxQueue, run);
    SubsetSize(ParkedSet(s), UpTo(s, maxQueue));
    assert |UpTo(s, maxQueue)| <= maxQueue;
  }

  lemma Extend(maxQueue: nat, run: seq<Event>, e: Event)
    requires Feasible(maxQueue, run) && Enabled(After(maxQueue, run), e)
    ensures Feasible(maxQueue, run + [e])
    ensures After(maxQueue, run + [e]) == Step(maxQueue, After(maxQueue, run), e)
  {
    assert (run + [e])[..|run|] == run;
  }

  /** The counter is unbounded: `n` claimers may have counted themselves before any compares. */
  lemma {:induction false} CounterOvershoots(maxQueue: nat, n: nat) returns (run: seq<Event>)
    ensures Feasible(maxQueue, run) && After(maxQueue, run).counter == n
    ensures forall c :: c in After(maxQueue, run).guards ==> c < n
  {
    run := [];
    if n > 0 {
      run := CounterOvershoots(maxQueue, n - 1);
      Extend(maxQueue, run, FetchAdd(n - 1));
      run := run + [FetchAdd(n - 1)];
    }
  }

  /**
   The price of counting before comparing: with a queue of one, a claimer can be refused although
   nobody is parked, because a claimer being refused still has its guard.
   */
  lemma RefusedWithEmptyQueue()
    ensures exists run: seq<Event>, c: Claimer ::
              && Feasible(1, run) && c in After(1, run).guards
              && After(1, run).guards[c].pc == Rejected && ParkedSet(After(1, run)) == {}
  {
    var r1 := [FetchAdd(0)];
    assert [] + [FetchAdd(0)] == r1;
    Extend(1, [], FetchAdd(0));
    Extend(1, r1, Compare(0));
    var r2 := r1 + [Compare(0)];
    Extend(1, r2, FetchAdd(1));
    var r3 := r2 + [FetchAdd(1)];
    Extend(1, r3, DropGuard(0));
    var r4 := r3 + [DropGuard(0)];
    Extend(1, r4, FetchAdd(2));
    var r5 := r4 + [FetchAdd(2)];
    Extend(1, r5, Compare(2));
    var r6 := r5 + [Compare(2)];
    var s := After(1, r6);
    assert s.guards == map[1 := Guard(2, Counted), 2 := Guard(2, Rejected)];
    assert 2 in s.guards && s.guards[2].pc == Rejected && ParkedSet(s) == {};
  }

  // ---------------------------------------------------------------- the queue is used

  /** What the three steps do, each to its own claimer alone; each is possible as soon as it is due. */
  lemma StepsAre(maxQueue: nat, run: seq<Event>, c: Claimer)
    requires Feasible(maxQueue, run)
    ensures var s := After(maxQueue, run);
            && (c !in s.guards ==>
                  && Enabled(s, FetchAdd(c))
                  && Step(maxQueue, s, FetchAdd(c))
                     == State(|s.guards| + 1, s.guards[c := Guard(|s.guards| + 1, Counted)]))
            && (c in s.guards && s.guards[c].pc == Counted ==>
                  && Enabled(s, Compare(c))
                  && var ticket := s.guards[c].ticket;
                     Step(maxQueue, s, Compare(c))
                     == s.(guards := s.guards[c := Guard(ticket, if ticket <= maxQueue then Parked else Rejected)]))
            && (c in s.guards && s.guards[c].pc != Counted ==>
                  Enabled(s, DropGuard(c)) && Step(maxQueue, s, DropGuard(c)) == State(|s.guards| - 1, s.guards - {c}))
  {
    Always(maxQueue, run);
    var s := After(maxQueue, run);
    if c in s.guards {
      assert c in s.guards.Keys;
      SubsetSize({c}, s.guards.Keys);
    }
  }

  /**
   Once it has compared, a claimer is refused if its ticket, the number of live guards when it had counted
   itself, exceeds `maxQueue`, and parked otherwise.
   */
  lemma RefusedIff(maxQueue: nat, run: seq<Event>, c: Claimer)
    requires Feasible(maxQueue, run) && c in After(maxQueue, run).guards
    ensures var g := After(maxQueue, run).guards[c];
            g.pc == Counted || g.pc == if g.ticket > maxQueue then Rejected else Parked
  {
    Always(maxQueue, run);
    var g := After(maxQueue, run).guards[c];
    match g.pc
    case Counted =>
    case Parked => assert g.ticket <= maxQueue;
    case Rejected => assert g.ticket > maxQueue;
  }

  /** The bound is attained: claimers that come one after the other fill the queue. */
  lemma {:induction false} QueueFills(maxQueue: nat, n: nat) returns (run: seq<Event>)
    requires n <= maxQueue
    ensures Feasible(maxQueue, run) && After(maxQueue, run).counter == n
    ensures forall c: Claimer :: c in After(maxQueue, run).guards <==> c < n
    ensures forall c: Claimer :: c < n ==> After(maxQueue, run).guards[c].pc == Parked
  {
    run := [];
    if n > 0 {
      var before := QueueFills(maxQueue, n - 1);
      Extend(maxQueue, before, FetchAdd(n - 1));
      run := before + [FetchAdd(n - 1)];
      Extend(maxQueue, run, Compare(n - 1));
      run := run + [Compare(n - 1)];
      var s := After(maxQueue, before);
      assert s.counter + 1 == n;
      assert After(maxQueue, run).guards == s.guards[n - 1 := Guard(n, Parked)];
    }
  }
}
