/**
 The closed test and the push of a finished warm launch as the two critical sections they are
 (src/pool.rs:411 and src/pool.rs:415): a `close` may come between them.  Everything else is the pool of
 module `PoolModel`; while the session is in hand the replenisher is where a discarding one would be.
 */
module PoolGap {
  import opened Prelude
  import opened PoolModel
  import opened PoolPlaces

  /** `late` counts the pushes after the last `close`. */
  datatype Fine = Fine(s: State, inHand: bool, late: nat)

  datatype FineEvent =
    | Coarse(e: Event)
    | Test              // the launch is done and the pool was found open
    | Push(now: nat)    // whatever has happened since

  predicate OfReplenisher(e: Event) {
    e.RepTop? || e.RepDestroyOne? || e.RepDecide? || e.RepLaunched? || e.RepLaunchFailed? || e.RepDiscarded?
  }

  predicate FineEnabled(o: Options, f: Fine, e: FineEvent) {
    match e
    case Coarse(c) => Enabled(o, f.s, c) && (f.inHand ==> !OfReplenisher(c)) && (c.RepLaunched? ==> f.s.sh.closed)
    case Test => !f.inHand && f.s.rep.Creating? && f.s.sh.launching > 0 && !f.s.sh.closed
    case Push(_) => f.inHand && f.s.rep.Discarding?
  }

  function Tested(s: State): State
    requires s.sh.launching > 0
  {
    s.(created := s.created + 1,
       sh := s.sh.(launching := s.sh.launching - 1),
       rep := Discarding(s.created),
       place := s.place[s.created := AtReplenisher])
  }

  function Pushed(s: State, now: nat): State
    requires s.rep.Discarding?
  {
    var id := s.rep.session;
    s.(rep := Top, sh := s.sh.(warm := s.sh.warm + [Warm(id, now)]), place := s.place[id := InWarm])
  }

  function FineStep(o: Options, f: Fine, e: FineEvent): Fine
    requires FineEnabled(o, f, e)
  {
    match e
    case Coarse(c) => Fine(Step(o, f.s, c), f.inHand, if c.Close? then 0 else f.late)
    case Test => Fine(Tested(f.s), true, f.late)
    case Push(now) => Fine(Pushed(f.s, now), false, f.late + if f.s.sh.closed then 1 else 0)
  }

  ghost predicate FineFeasible(o: Options, max: nat, run: seq<FineEvent>)
    decreases |run|, 0
  {
    run == [] ||
    (FineFeasible(o, max, run[..|run| - 1]) &&
     FineEnabled(o, FineAfter(o, max, run[..|run| - 1]), run[|run| - 1]))
  }

  ghost function FineAfter(o: Options, max: nat, run: seq<FineEvent>): Fine
    requires FineFeasible(o, max, run)
    decreases |run|, 1
  {
    if run == [] then Fine(Init(max), false, 0)
    else FineStep(o, FineAfter(o, max, run[..|run| - 1]), run[|run| - 1])
  }

  // ---------------------------------------------------------------- what every step keeps

  /** After a `close` the deque holds exactly what was pushed since, which is one session at most. */
  ghost predicate LateOk(f: Fine) {
    && (f.inHand ==> f.s.rep.Discarding?)
    && (if f.s.sh.closed then |f.s.sh.warm| == f.late else f.late == 0)
    && f.late <= 1 && (f.late == 1 ==> !f.inHand && (f.s.rep.Top? || f.s.rep.Stopped?))
  }

  lemma LateKept(o: Options, f: Fine, e: FineEvent)
    requires LateOk(f) && FineEnabled(o, f, e)
    ensures LateOk(FineStep(o, f, e))
  {
    if e.Coarse? {
      CoarseKeeps(o, f.s, e.e);
    }
  }

  /** Of the coarse events only `close` touches a closed pool's deque, and only the replenisher moves itself. */
  lemma CoarseKeeps(o: Options, s: State, e: Event)
    requires Enabled(o, s, e)
    ensures var r := Step(o, s, e);
            && r.sh.closed == (s.sh.closed || e.Close?)
            && (s.sh.closed ==> r.sh.warm == if e.Close? then [] else s.sh.warm)
            && (e.Close? ==> r.sh.warm == [])
            && (!OfReplenisher(e) ==> r.rep == s.rep)
            && (s.sh.closed && s.rep.Top? ==> r.rep.Top? || r.rep.Stopped?)
            && (s.rep.Stopped? ==> r.rep.Stopped?)
  {
  }

  lemma TestedPlaced(s: State)
    requires Placed(s) && s.rep.Creating? && s.sh.launching > 0
    ensures Placed(Tested(s))
  {
    var r := Tested(s);
    assert s.created !in s.place;
    SameClaims(s, r);
    forall x ensures x in RepSessions(r.rep) <==> At(r, x, AtReplenisher) {
      assert x in RepSessions(s.rep) <==> At(s, x, AtReplenisher);
    }
  }

  lemma PushedPlaced(s: State, now: nat)
    requires Placed(s) && s.rep.Discarding?
    ensures Placed(Pushed(s, now))
  {
    var id := s.rep.session;
    assert id in RepSessions(s.rep);
    IdsSnoc(s.sh.warm, Warm(id, now));
    NoDupSnoc(Ids(s.sh.warm), id);
    var r := Pushed(s, now);
    SameClaims(s, r);
    forall x ensures x !in RepSessions(r.rep) && !At(r, x, AtReplenisher) {
      assert x in RepSessions(s.rep) <==> At(s, x, AtReplenisher);
    }
    forall x ensures x in Ids(r.sh.warm) <==> At(r, x, InWarm) {
      assert x in Ids(s.sh.warm) <==> At(s, x, InWarm);
    }
  }

  lemma {:induction false} FineAlways(o: Options, max: nat, run: seq<FineEvent>)
    requires FineFeasible(o, max, run)
    ensures Placed(FineAfter(o, max, run).s) && LateOk(FineAfter(o, max, run))
    decreases |run|
  {
    if run != [] {
      var n := |run| - 1;
      FineAlways(o, max, run[..n]);
      var f := FineAfter(o, max, run[..n]);
      LateKept(o, f, run[n]);
      match run[n]
      case Coarse(e) => StepPlaced(o, f.s, e);
      case Test => TestedPlaced(f.s);
      case Push(now) => PushedPlaced(f.s, now);
    }
  }

  // ---------------------------------------------------------------- the leak

  /**
   A closed pool at rest, with the two sections apart: what is left undestroyed is exactly what was pushed
   after the last `close`, one session at most; so nothing has leaked if and only if no `close` came
   between the test and the push, or another one after the push.
   */
  lemma LeaksIffPushedLate(o: Options, max: nat, run: seq<FineEvent>)
    requires FineFeasible(o, max, run)
    requires FineAfter(o, max, run).s.sh.closed && Quiet(FineAfter(o, max, run).s)
    ensures var f := FineAfter(o, max, run);
            && f.s.created == |f.s.destroyed| + f.late && f.late <= 1
            && (f.late == 1 <==> exists id: Session :: id < f.s.created && id !in f.s.destroyed)
  {
    FineAlways(o, max, run);
    var f := FineAfter(o, max, run);
    EverySessionCounted(f.s);
    assert WithSession(f.s.claims) == {};
    if f.late == 1 {
      WarmIsUndestroyed(f.s);
    } else {
      forall id: Session | id < f.s.created ensures id in f.s.destroyed {
        EverythingGone(f.s, id);
      }
    }
  }

  lemma WarmIsUndestroyed(s: State)
    requires Placed(s) && s.sh.warm != []
    ensures s.sh.warm[0].session < s.created && s.sh.warm[0].session !in s.destroyed
  {
    var id := s.sh.warm[0].session;
    assert Ids(s.sh.warm)[0] == id;
    assert At(s, id, InWarm);
    assert id in s.destroyed <==> At(s, id, Gone);
  }

  /** `f` is reached by some run. */
  ghost predicate FineReached(o: Options, max: nat, f: Fine) {
    exists run: seq<FineEvent> :: FineFeasible(o, max, run) && FineAfter(o, max, run) == f
  }

  lemma FineReachedStep(o: Options, max: nat, f: Fine, e: FineEvent)
    requires FineReached(o, max, f) && FineEnabled(o, f, e)
    ensures FineReached(o, max, FineStep(o, f, e))
  {
    var run: seq<FineEvent> :| FineFeasible(o, max, run) && FineAfter(o, max, run) == f;
    var longer := run + [e];
    assert longer[..|run|] == run;
    assert FineFeasible(o, max, longer) && FineAfter(o, max, longer) == FineStep(o, f, e);
  }

  /** It does happen, whatever the pool's options. */
  lemma LeakIsReachable(o: Options, max: nat) returns (f: Fine)
    requires o.minReady > 0 && max > 0
    ensures FineReached(o, max, f) && f.s.sh.closed && Quiet(f.s) && f.late == 1
  {
    var f0 := LaunchDone(o, max);
    var f1 := ClosedMeanwhile(o, max, f0);
    f := PushedAnyway(o, max, f1);
  }

  lemma PushedAnyway(o: Options, max: nat, f: Fine) returns (r: Fine)
    requires FineReached(o, max, f) && f.inHand && f.late == 0 && f.s.sh.closed
    requires f.s.rep == Discarding(0) && f.s.claims == map[] && f.s.background == {}
    ensures FineReached(o, max, r) && r.s.sh.closed && Quiet(r.s) && r.late == 1
  {
    FineReachedStep(o, max, f, Push(0));
    var pushed := FineStep(o, f, Push(0));
    FineReachedStep(o, max, pushed, Coarse(RepTop({}, 0)));
    r := FineStep(o, pushed, Coarse(RepTop({}, 0)));
  }

  lemma ClosedMeanwhile(o: Options, max: nat, f: Fine) returns (r: Fine)
    requires FineReached(o, max, f) && f.inHand && f.late == 0 && f.s.sh.warm == []
    requires f.s.rep == Discarding(0) && f.s.claims == map[] && f.s.background == {}
    ensures FineReached(o, max, r) && r.inHand && r.late == 0 && r.s.sh.closed
    ensures r.s.rep == Discarding(0) && r.s.claims == map[] && r.s.background == {}
  {
    FineReachedStep(o, max, f, Coarse(Close));
    r := FineStep(o, f, Coarse(Close));
    assert SetOf(Ids([])) == {};
  }

  /** A warm launch whose session is in hand. */
  lemma LaunchDone(o: Options, max: nat) returns (f: Fine)
    requires o.minReady > 0 && max > 0
    ensures FineReached(o, max, f) && f.inHand && f.late == 0
    ensures f.s.rep == Discarding(0) && f.s.claims == map[] && f.s.background == {}
    ensures f.s.sh == Shared(max, false, max, [], 0, 0)
  {
    var f0 := Fine(Init(max), false, 0);
    assert FineFeasible(o, max, []) && FineAfter(o, max, []) == f0;
    FineReachedStep(o, max, f0, Coarse(RepTop({}, 0)));
    var f1 := FineStep(o, f0, Coarse(RepTop({}, 0)));
    assert f1.s.rep == Culling([]) && f1.s.sh == f0.s.sh && f1.s.claims == map[] && f1.s.background == {};
    FineReachedStep(o, max, f1, Coarse(RepDecide));
    var f2 := FineStep(o, f1, Coarse(RepDecide));
    assert f2.s.rep == Creating && f2.s.sh == f0.s.sh.(launching := 1);
    FineReachedStep(o, max, f2, Test);
    f := FineStep(o, f2, Test);
  }
}
