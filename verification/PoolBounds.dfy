/**
 How much the pool can have at once (src/pool.rs).  The ceiling counts slots, so warm stock and its
 launches come on top, and so do sessions the culler has removed and not yet destroyed.  The bounds hold
 in every run and each is attained; sessions being destroyed in the background are not bounded.
 */
module PoolBounds {
  import opened Prelude
  import opened PoolModel
  import opened PoolCounting
  import opened PoolPlaces

  /** Held slots, warm sessions and the replenisher's launch. */
  ghost function Total(s: State): nat {
    |SlotHolders(s.claims)| + |s.sh.warm| + s.sh.launching
  }

  ghost predicate ClaimOnly(run: seq<Event>) {
    forall i :: 0 <= i < |run| && run[i].Arrive? ==> run[i].plain
  }

  ghost predicate NeverLowers(o: Options, max: nat, run: seq<Event>)
    requires Feasible(o, max, run)
    decreases |run|
  {
    run == [] ||
    (var n := |run| - 1;
     NeverLowers(o, max, run[..n]) &&
     (run[n].Resize? ==> Max(run[n].target, 1) >= After(o, max, run[..n]).sh.maxSessions))
  }

  ghost predicate AllPlain(s: State) {
    forall c :: c in s.claims ==> s.claims[c].plain
  }

  // ---------------------------------------------------------------- upper bounds

  /** Stock that fits under the ceiling keeps fitting while the ceiling is not lowered. */
  lemma StepStock(o: Options, s: State, e: Event)
    requires Counting(o, s) && Enabled(o, s, e) && s.owed == 0
    requires e.Resize? ==> Max(e.target, 1) >= s.sh.maxSessions
    requires |s.sh.warm| + s.sh.launching <= s.sh.maxSessions
    ensures var r := Step(o, s, e); r.owed == 0 && |r.sh.warm| + r.sh.launching <= r.sh.maxSessions
  {
    StepLeaks(o, s, e);
    match e
    case Arrive(c, plain, alive) => TakeWarmShrinks(s.sh.warm, alive);
    case Poll(c, alive) => TakeWarmShrinks(s.sh.warm, alive);
    case RepTop(alive, now) => CullShrinks(o, s.sh.warm, alive, now);
    case _ =>
  }

  lemma StepPlain(o: Options, s: State, e: Event)
    requires Enabled(o, s, e) && AllPlain(s) && (e.Arrive? ==> e.plain)
    ensures AllPlain(Step(o, s, e))
  {
  }

  /** Plain claims keep held + warm + launching at one more than the ceiling at most. */
  lemma StepTotal(o: Options, s: State, e: Event)
    requires Counting(o, s) && Enabled(o, s, e) && s.owed == 0 && AllPlain(s)
    requires e.Resize? ==> Max(e.target, 1) >= s.sh.maxSessions
    requires e.Arrive? ==> e.plain
    requires Total(s) <= s.sh.maxSessions + 1
    ensures var r := Step(o, s, e); Total(r) <= r.sh.maxSessions + 1
  {
    StepLeaks(o, s, e);
    StepCounting(o, s, e);
    match e
    case Arrive(c, plain, alive) => ArrivalTotal(o, s, c, alive);
    case Poll(c, alive) => TakeWarmShrinks(s.sh.warm, alive);
    case RepTop(alive, now) => CullShrinks(o, s.sh.warm, alive, now);
    case _ =>
  }

  lemma ArrivalTotal(o: Options, s: State, c: ClaimId, alive: set<Session>)
    requires Counting(o, s) && c !in s.claims && s.owed == 0 && Total(s) <= s.sh.maxSessions + 1
    ensures var r := Step(o, s, Arrive(c, true, alive)); Total(r) <= r.sh.maxSessions + 1
  {
    StepArrive(o, s, c, true, alive);
    if Admit(o, s.sh) == GotSlot {
      StepProceed(o, s.(sh := AdmitShared(o, s.sh)), c, true, alive);
    }
  }

  lemma {:induction false} StockFits(o: Options, max: nat, run: seq<Event>)
    requires Feasible(o, max, run) && NeverLowers(o, max, run)
    ensures var s := After(o, max, run);
            s.owed == 0 && |s.sh.warm| + s.sh.launching <= s.sh.maxSessions
    decreases |run|
  {
    if run != [] {
      var n := |run| - 1;
      StockFits(o, max, run[..n]);
      Reachable(o, max, run[..n]);
      StepStock(o, After(o, max, run[..n]), run[n]);
    }
  }

  lemma {:induction false} TotalFits(o: Options, max: nat, run: seq<Event>)
    requires Feasible(o, max, run) && NeverLowers(o, max, run) && ClaimOnly(run)
    ensures var s := After(o, max, run); AllPlain(s) && Total(s) <= s.sh.maxSessions + 1
    decreases |run|
  {
    if run != [] {
      var n := |run| - 1;
      assert ClaimOnly(run[..n]) by {
        assert forall i :: 0 <= i < n ==> run[..n][i] == run[i];
      }
      TotalFits(o, max, run[..n]);
      StockFits(o, max, run[..n]);
      Reachable(o, max, run[..n]);
      StepTotal(o, After(o, max, run[..n]), run[n]);
      StepPlain(o, After(o, max, run[..n]), run[n]);
    } else {
      assert SlotHolders(map[]) == {};
    }
  }

  /**
   Held slots + warm + launching: with claims alone, under a ceiling that is never lowered, at most one
   more than the ceiling; with `claim_with` as well, at most the stock floor more; in any run at all, at
   most the floor plus what was lost in lowering the ceiling.
   */
  lemma SlotAndStockBounds(o: Options, max: nat, run: seq<Event>)
    requires Feasible(o, max, run)
    ensures var s := After(o, max, run);
            && (NeverLowers(o, max, run) && ClaimOnly(run) ==> Total(s) <= s.sh.maxSessions + 1)
            && (NeverLowers(o, max, run) ==>
                  Total(s) <= s.sh.maxSessions + Min(o.minReady, s.sh.maxSessions))
            && Total(s) <= s.sh.maxSessions + s.owed + o.minReady
  {
    Reachable(o, max, run);
    if NeverLowers(o, max, run) {
      StockFits(o, max, run);
      if ClaimOnly(run) {
        TotalFits(o, max, run);
      }
    }
  }

  // ---------------------------------------------------------------- with the sessions being culled

  /** Warm, launching, and what the replenisher is destroying. */
  ghost function Stocked(s: State): nat {
    |s.sh.warm| + s.sh.launching + |RepSessions(s.rep)|
  }

  /** Culling moves sessions and never adds any; a launch starts only with nothing left to destroy. */
  lemma StepStocked(o: Options, s: State, e: Event)
    requires Counting(o, s) && Enabled(o, s, e) && Stocked(s) <= o.minReady
    ensures var r := Step(o, s, e);
            && Stocked(r) <= o.minReady
            && (Stocked(s) <= s.sh.maxSessions <= r.sh.maxSessions ==> Stocked(r) <= r.sh.maxSessions)
  {
    if e.Arrive? || e.Poll? {
      ClaimStocked(o, s, e);
    } else if e.RepTop? {
      CullShrinks(o, s.sh.warm, e.alive, e.now);
    }
  }

  lemma ClaimStocked(o: Options, s: State, e: Event)
    requires Enabled(o, s, e) && (e.Arrive? || e.Poll?)
    ensures var r := Step(o, s, e); Stocked(r) <= Stocked(s) && r.sh.maxSessions == s.sh.maxSessions
  {
    TakeWarmShrinks(s.sh.warm, e.alive);
  }

  lemma NewCeiling(o: Options, s: State, e: Event)
    requires Enabled(o, s, e)
    ensures Step(o, s, e).sh.maxSessions == if e.Resize? then Max(e.target, 1) else s.sh.maxSessions
  {
  }

  lemma {:induction false} StockedFits(o: Options, max: nat, run: seq<Event>)
    requires Feasible(o, max, run)
    ensures var s := After(o, max, run);
            Stocked(s) <= o.minReady && (NeverLowers(o, max, run) ==> Stocked(s) <= s.sh.maxSessions)
    decreases |run|
  {
    if run != [] {
      var n := |run| - 1;
      StockedFits(o, max, run[..n]);
      Reachable(o, max, run[..n]);
      StepStocked(o, After(o, max, run[..n]), run[n]);
      NewCeiling(o, After(o, max, run[..n]), run[n]);
    }
  }

  /**
   Held slots + warm + launching + sessions the culler has yet to destroy: at most the ceiling plus
   min(floor, ceiling) while the ceiling is not lowered, with either kind of claim.  All sessions created
   and not destroyed: as many, plus those being destroyed in the background.
   */
  lemma LivingBounds(o: Options, max: nat, run: seq<Event>)
    requires Feasible(o, max, run)
    ensures var s := After(o, max, run);
            var living := Total(s) + |RepSessions(s.rep)|;
            && (NeverLowers(o, max, run) ==> living <= s.sh.maxSessions + Min(o.minReady, s.sh.maxSessions))
            && living <= s.sh.maxSessions + s.owed + o.minReady
            && s.created - |s.destroyed| <= living + |s.background|
  {
    Reachable(o, max, run);
    StockedFits(o, max, run);
    if NeverLowers(o, max, run) {
      StockFits(o, max, run);
    }
    AlwaysPlaced(o, max, run);
    EverySessionCounted(After(o, max, run));
  }

  // ---------------------------------------------------------------- the bounds are attained

  /** `s` is reached by a run that never lowers the ceiling (and, if `plain`, only claims). */
  ghost predicate Reached(o: Options, max: nat, plain: bool, s: State) {
    exists run: seq<Event> ::
      && Feasible(o, max, run) && After(o, max, run) == s
      && NeverLowers(o, max, run) && (plain ==> ClaimOnly(run))
  }

  lemma ReachedInit(o: Options, max: nat, plain: bool)
    ensures Reached(o, max, plain, Init(max))
  {
    var run: seq<Event> := [];
    assert Feasible(o, max, run) && After(o, max, run) == Init(max);
  }

  lemma ReachedStep(o: Options, max: nat, plain: bool, s: State, e: Event)
    requires Reached(o, max, plain, s) && Enabled(o, s, e) && !e.Resize?
    requires plain && e.Arrive? ==> e.plain
    ensures Reached(o, max, plain, Step(o, s, e))
  {
    var run: seq<Event> :| && Feasible(o, max, run) && After(o, max, run) == s
                           && NeverLowers(o, max, run) && (plain ==> ClaimOnly(run));
    var longer := run + [e];
    assert longer[..|run|] == run;
    assert Feasible(o, max, longer) && After(o, max, longer) == Step(o, s, e);
  }

  lemma ArriveWithoutStock(o: Options, s: State, c: ClaimId, plain: bool)
    requires s.sh.permits > 0 && !s.sh.closed && c !in s.claims && (plain ==> s.sh.warm == [])
    ensures var r := Step(o, s, Arrive(c, plain, {}));
            && r.sh == s.sh.(permits := s.sh.permits - 1)
            && r.claims == s.claims[c := Claim(plain, Launching)] && r.rep == s.rep
  {
    var s1 := s.(sh := AdmitShared(o, s.sh));
    assert Step(o, s, Arrive(c, plain, {})) == Proceed(s1, c, plain, {});
    assert s1.sh == s.sh.(permits := s.sh.permits - 1) && s1.claims == s.claims;
  }

  lemma OneMoreHolder(claims: map<ClaimId, Claim>, c: ClaimId, plain: bool)
    requires c !in claims
    ensures |SlotHolders(claims[c := Claim(plain, Launching)])| == |SlotHolders(claims)| + 1
  {
    ClaimSet(claims, c, Claim(plain, Launching));
    assert c !in SlotHolders(claims);
  }

  /** `n` claims arrive one after the other and each finds no warm session. */
  lemma {:induction false} Arrivals(o: Options, max: nat, plain: bool, s: State, n: nat) returns (r: State)
    requires Reached(o, max, plain, s) && s.claims == map[]
    requires n <= s.sh.permits && !s.sh.closed && (plain ==> s.sh.warm == [])
    ensures Reached(o, max, plain, r) && r.sh == s.sh.(permits := s.sh.permits - n) && r.rep == s.rep
    ensures |SlotHolders(r.claims)| == n && forall c :: c in r.claims ==> c < n
  {
    if n == 0 {
      r := s;
      assert SlotHolders(map[]) == {};
    } else {
      var before := Arrivals(o, max, plain, s, n - 1);
      r := OneArrival(o, max, plain, before, n - 1);
    }
  }

  lemma OneArrival(o: Options, max: nat, plain: bool, s: State, n: nat) returns (r: State)
    requires Reached(o, max, plain, s) && |SlotHolders(s.claims)| == n && forall c :: c in s.claims ==> c < n
    requires s.sh.permits > 0 && !s.sh.closed && (plain ==> s.sh.warm == [])
    ensures Reached(o, max, plain, r) && r.sh == s.sh.(permits := s.sh.permits - 1) && r.rep == s.rep
    ensures |SlotHolders(r.claims)| == n + 1 && forall c :: c in r.claims ==> c < n + 1
  {
    ArriveWithoutStock(o, s, n, plain);
    OneMoreHolder(s.claims, n, plain);
    ReachedStep(o, max, plain, s, Arrive(n, plain, {}));
    r := Step(o, s, Arrive(n, plain, {}));
  }

  /** Plain claims do reach held + warm + launching of one above the ceiling, for every ceiling. */
  lemma PlainBoundIsTight(o: Options, max: nat)
    requires o.minReady > 0 && max > 0
    ensures exists run: seq<Event> ::
              && Feasible(o, max, run) && NeverLowers(o, max, run) && ClaimOnly(run)
              && After(o, max, run).sh.maxSessions == max && Total(After(o, max, run)) == max + 1
  {
    ReachedInit(o, max, true);
    ReachedStep(o, max, true, Init(max), RepTop({}, 0));
    var s := Step(o, Init(max), RepTop({}, 0));
    assert s.sh == Shared(max, false, max, [], 0, 0) && s.rep == Culling([]) && s.claims == map[];
    assert Wanted(o, s.sh) > 0;
    ReachedStep(o, max, true, s, RepDecide);
    var r := Arrivals(o, max, true, Step(o, s, RepDecide), max);
    assert Total(r) == max + 1;
  }

  function Stock(k: nat): (r: seq<Warm>)
    ensures |r| == k && forall i :: 0 <= i < k ==> r[i] == Warm(i, 0)
  {
    if k == 0 then [] else Stock(k - 1) + [Warm(k - 1, 0)]
  }

  /** A pool nobody has claimed from, with `k` warm sessions. */
  ghost predicate Idle(s: State, max: nat, k: nat) {
    s.claims == map[] && s.rep == Top && s.created == k && s.sh == Shared(max, false, max, Stock(k), 0, 0)
  }

  lemma {:induction false} AllKept(o: Options, warm: seq<Warm>, alive: set<Session>)
    requires o.warmMaxAge > 0
    requires forall i :: 0 <= i < |warm| ==> warm[i].session in alive && warm[i].readyAt == 0
    ensures DeadOrOld(o, warm, alive, 0) == Culled(warm, [])
  {
    if warm != [] {
      AllKept(o, warm[..|warm| - 1], alive);
      assert warm[..|warm| - 1] + [warm[|warm| - 1]] == warm;
    }
  }

  /** One round of the replenisher adds one session to a stock below the floor and the ceiling. */
  lemma OneRound(o: Options, max: nat, plain: bool, s: State, k: nat) returns (r: State)
    requires Reached(o, max, plain, s) && Idle(s, max, k) && k < Min(o.minReady, max) && o.warmMaxAge > 0
    ensures Reached(o, max, plain, r) && Idle(r, max, k + 1)
  {
    CullWithinFloor(o, s.sh.warm, FirstIds(k), 0);
    AllKept(o, s.sh.warm, FirstIds(k));
    ReachedStep(o, max, plain, s, RepTop(FirstIds(k), 0));
    var s1 := Step(o, s, RepTop(FirstIds(k), 0));
    assert s1.rep == Culling([]) && s1.sh == s.sh && s1.claims == map[] && s1.created == k;
    assert Wanted(o, s1.sh) > 0;
    ReachedStep(o, max, plain, s1, RepDecide);
    var s2 := Step(o, s1, RepDecide);
    assert s2.sh == s.sh.(launching := 1) && s2.claims == map[] && s2.created == k;
    ReachedStep(o, max, plain, s2, RepLaunched(0));
    r := Step(o, s2, RepLaunched(0));
  }

  /** The replenisher fills the stock to `k` while nobody claims. */
  lemma {:induction false} Filled(o: Options, max: nat, plain: bool, k: nat) returns (s: State)
    requires k <= Min(o.minReady, max) && o.warmMaxAge > 0
    ensures Reached(o, max, plain, s) && Idle(s, max, k)
  {
    if k == 0 {
      s := Init(max);
      ReachedInit(o, max, plain);
    } else {
      var before := Filled(o, max, plain, k - 1);
      s := OneRound(o, max, plain, before, k - 1);
    }
  }

  /** Dedicated launches on top of a full stock reach the second bound, for every ceiling and floor. */
  lemma DedicatedBoundIsTight(o: Options, max: nat)
    requires o.warmMaxAge > 0
    ensures exists run: seq<Event> ::
              && Feasible(o, max, run) && NeverLowers(o, max, run)
              && After(o, max, run).sh.maxSessions == max
              && Total(After(o, max, run)) == max + Min(o.minReady, max)
  {
    var stocked := Filled(o, max, false, Min(o.minReady, max));
    var r := Arrivals(o, max, false, stocked, max);
    assert Total(r) == max + Min(o.minReady, max);
  }

  lemma {:induction false} AllTooOld(o: Options, warm: seq<Warm>, alive: set<Session>, now: nat)
    requires forall i :: 0 <= i < |warm| ==> TooOld(o, warm[i], now)
    ensures Cull(o, warm, alive, now).kept == [] && |Cull(o, warm, alive, now).removed| == |warm|
  {
    if warm != [] {
      AllTooOld(o, warm[..|warm| - 1], alive, now);
    }
  }

  /** Plain claims alone reach it: all stock has grown too old and every slot is taken meanwhile. */
  lemma LivingBoundIsTight(o: Options, max: nat)
    requires o.warmMaxAge > 0
    ensures exists run: seq<Event> ::
              && Feasible(o, max, run) && NeverLowers(o, max, run) && ClaimOnly(run)
              && After(o, max, run).sh.maxSessions == max
              && Total(After(o, max, run)) + |RepSessions(After(o, max, run).rep)| == max + Min(o.minReady, max)
  {
    var k := Min(o.minReady, max);
    var s := AllCulled(o, max, k);
    var r := Arrivals(o, max, true, s, max);
    assert Total(r) + |RepSessions(r.rep)| == max + k;
  }

  /** A pool nobody has claimed from, whose `k` warm sessions the culler has just removed. */
  lemma AllCulled(o: Options, max: nat, k: nat) returns (r: State)
    requires k <= Min(o.minReady, max) && o.warmMaxAge > 0
    ensures Reached(o, max, true, r) && r.claims == map[] && |RepSessions(r.rep)| == k
    ensures r.sh == Shared(max, false, max, [], 0, 0)
  {
    var s := Filled(o, max, true, k);
    var e := RepTop(FirstIds(k), o.warmMaxAge);
    AllTooOld(o, s.sh.warm, FirstIds(k), o.warmMaxAge);
    ReachedStep(o, max, true, s, e);
    r := Step(o, s, e);
  }

  // ---------------------------------------------------------------- no bound on background destroys

  /** A pool at rest but for the background destroys of the first `n` sessions. */
  ghost predicate Cluttered(s: State, max: nat, n: nat) {
    && s.claims == map[] && s.rep == Top && s.created == n && s.background == FirstIds(n)
    && s.sh == Shared(max, false, max, [], 0, 0)
  }

  /** One warm session dies, a claim finds it dead, and the launch that follows fails. */
  lemma OneMoreDead(o: Options, max: nat, s: State, n: nat) returns (r: State)
    requires Reached(o, max, true, s) && Cluttered(s, max, n) && o.minReady > 0 && max > 0
    ensures Reached(o, max, true, r) && Cluttered(r, max, n + 1)
  {
    var stocked := OneWarm(o, max, s, n);
    ReachedStep(o, max, true, stocked, Arrive(0, true, {}));
    var held := Step(o, stocked, Arrive(0, true, {}));
    FoundDead(o, stocked, n);
    assert WaitingClaims(Without(held, 0).claims) == {};
    ReachedStep(o, max, true, held, LaunchFailed(0, {}));
    r := Step(o, held, LaunchFailed(0, {}));
    assert r.claims == map[];
  }

  lemma OneWarm(o: Options, max: nat, s: State, n: nat) returns (r: State)
    requires Reached(o, max, true, s) && Cluttered(s, max, n) && o.minReady > 0 && max > 0
    ensures Reached(o, max, true, r) && r == s.(created := n + 1, sh := s.sh.(warm := [Warm(n, 0)]), place := r.place)
  {
    ReachedStep(o, max, true, s, RepTop({}, 0));
    var s1 := Step(o, s, RepTop({}, 0));
    assert s1.rep == Culling([]) && s1.sh == s.sh;
    ReachedStep(o, max, true, s1, RepDecide);
    var s2 := Step(o, s1, RepDecide);
    assert s2.rep == Creating && s2.sh == s.sh.(launching := 1);
    ReachedStep(o, max, true, s2, RepLaunched(0));
    r := Step(o, s2, RepLaunched(0));
  }

  lemma FoundDead(o: Options, s: State, n: nat)
    requires s.sh.permits > 0 && !s.sh.closed && s.claims == map[] && s.sh.warm == [Warm(n, 0)]
    requires s.background == FirstIds(n)
    ensures var r := Step(o, s, Arrive(0, true, {}));
            && r.claims == map[0 := Claim(true, Launching)] && r.rep == s.rep && r.created == s.created
            && r.sh == s.sh.(warm := [], permits := s.sh.permits - 1)
            && r.background == FirstIds(n + 1)
  {
    var t := TakeWarm(s.sh.warm, {});
    assert s.sh.warm[1..] == [] && TakeWarm([], {}) == Taken(None, [], []);
    assert [n] + [] == [n];
    assert t == Taken(None, [n], []);
    assert SetOf([n]) == {n};
  }

  /** So the sessions not yet destroyed have no bound at all, with plain claims alone. */
  lemma BackgroundIsUnbounded(o: Options, max: nat, n: nat)
    requires o.minReady > 0 && max > 0
    ensures exists run: seq<Event> ::
              && Feasible(o, max, run) && NeverLowers(o, max, run) && ClaimOnly(run)
              && |After(o, max, run).background| == n
  {
    var s := Cluttering(o, max, n);
  }

  lemma {:induction false} Cluttering(o: Options, max: nat, n: nat) returns (s: State)
    requires o.minReady > 0 && max > 0
    ensures Reached(o, max, true, s) && Cluttered(s, max, n)
  {
    if n == 0 {
      s := Init(max);
      ReachedInit(o, max, true);
    } else {
      var before := Cluttering(o, max, n - 1);
      s := OneMoreDead(o, max, before, n - 1);
    }
  }
}
