/**
 Slot conservation, the queue counter and the warm-stock bound of the pool, in every reachable
 state (src/pool.rs).
 */
module PoolCounting {
  import opened Prelude
  import opened PoolModel

  ghost predicate Counting(o: Options, s: State) {
    && s.sh.permits + |SlotHolders(s.claims)| + s.abandoned == s.sh.maxSessions + s.owed
    && s.sh.waiting == |GuardHolders(s.claims)|
    && s.sh.launching == (if s.rep.Creating? then 1 else 0)
    && |s.sh.warm| + s.sh.launching <= o.minReady
    && (!s.sh.closed && s.sh.permits > 0 ==> WaitingClaims(s.claims) == {})
    && (s.sh.closed ==> s.sh.warm == [])
  }

  // ---------------------------------------------------------------- effect of one claim's change

  lemma ClaimSet(m: map<ClaimId, Claim>, c: ClaimId, v: Claim)
    ensures SlotHolders(m[c := v]) == SlotHolders(m) - {c} + (if v.HasSlot() then {c} else {})
    ensures GuardHolders(m[c := v]) == GuardHolders(m) - {c} + (if v.HasGuard() then {c} else {})
    ensures WaitingClaims(m[c := v]) == WaitingClaims(m) - {c} + (if v.phase.Queued? then {c} else {})
  {
  }

  lemma ClaimRemoved(m: map<ClaimId, Claim>, c: ClaimId)
    ensures SlotHolders(m - {c}) == SlotHolders(m) - {c}
    ensures GuardHolders(m - {c}) == GuardHolders(m) - {c}
    ensures WaitingClaims(m - {c}) == WaitingClaims(m) - {c}
  {
  }

  lemma ClaimsGranted(m: map<ClaimId, Claim>, g: set<ClaimId>)
    requires g <= WaitingClaims(m)
    ensures SlotHolders(Grant(m, g)) == SlotHolders(m) + g
    ensures |SlotHolders(Grant(m, g))| == |SlotHolders(m)| + |g|
    ensures GuardHolders(Grant(m, g)) == GuardHolders(m)
    ensures WaitingClaims(Grant(m, g)) == WaitingClaims(m) - g
    ensures |WaitingClaims(Grant(m, g))| == |WaitingClaims(m)| - |g|
  {
    assert SlotHolders(m) !! g;
    assert WaitingClaims(m) == (WaitingClaims(m) - g) + g;
  }

  /** Releasing `n` permits conserves slots and leaves free permits only when nobody waits. */
  lemma Released(s: State, n: nat, g: set<ClaimId>)
    requires GrantOk(s, n, g)
    ensures var r := Release(s, n, g);
            && r.sh.permits + |SlotHolders(r.claims)| == s.sh.permits + |SlotHolders(s.claims)| + n
            && GuardHolders(r.claims) == GuardHolders(s.claims)
            && (!s.sh.closed && r.sh.permits > 0 && (s.sh.permits == 0 || WaitingClaims(s.claims) == {})
                ==> WaitingClaims(r.claims) == {})
  {
    if s.sh.closed {
      assert Grant(s.claims, {}) == s.claims;
    } else {
      ClaimsGranted(s.claims, g);
    }
  }

  lemma {:induction false} TakeWarmShrinks(warm: seq<Warm>, alive: set<Session>)
    ensures var t := TakeWarm(warm, alive);
            |warm| == |t.dead| + |t.rest| + (if t.found.Some? then 1 else 0)
    ensures TakeWarm(warm, alive).found.None? ==> TakeWarm(warm, alive).rest == []
  {
    if warm != [] && warm[0].session !in alive {
      TakeWarmShrinks(warm[1..], alive);
    }
  }

  lemma {:induction false} CullShrinks(o: Options, warm: seq<Warm>, alive: set<Session>, now: nat)
    ensures var c := Cull(o, warm, alive, now); |c.kept| + |c.removed| == |warm|
  {
    if warm != [] {
      CullShrinks(o, warm[..|warm| - 1], alive, now);
    }
  }

  // ---------------------------------------------------------------- every step

  lemma StepProceed(o: Options, s: State, c: ClaimId, plain: bool, alive: set<Session>)
    requires c in s.claims ==> s.claims[c].phase.Granted?
    ensures var r := Proceed(s, c, plain, alive);
            && r.sh.permits == s.sh.permits && r.sh.closed == s.sh.closed
            && r.sh.maxSessions == s.sh.maxSessions && r.sh.waiting == s.sh.waiting
            && r.sh.launching == s.sh.launching && r.rep == s.rep
            && r.abandoned == s.abandoned && r.owed == s.owed
            && |r.sh.warm| <= |s.sh.warm|
            && SlotHolders(r.claims) == SlotHolders(s.claims) + {c}
            && GuardHolders(r.claims) == GuardHolders(s.claims) - {c}
            && WaitingClaims(r.claims) == WaitingClaims(s.claims)
            && (plain ==> r.sh.warm == [] || |r.sh.warm| < |s.sh.warm|)
  {
    TakeWarmShrinks(s.sh.warm, alive);
    var r := Proceed(s, c, plain, alive);
    assert r.claims == s.claims[c := r.claims[c]];
    ClaimSet(s.claims, c, r.claims[c]);
  }

  lemma StepArrive(o: Options, s: State, c: ClaimId, plain: bool, alive: set<Session>)
    requires Counting(o, s) && c !in s.claims
    ensures Counting(o, Step(o, s, Arrive(c, plain, alive)))
  {
    match Admit(o, s.sh)
    case GotSlot => SlotTaken(o, s, c, plain, alive);
    case Enqueued => QueueJoined(o, s, c, plain);
    case _ =>
  }

  lemma SlotTaken(o: Options, s: State, c: ClaimId, plain: bool, alive: set<Session>)
    requires Counting(o, s) && c !in s.claims && Admit(o, s.sh) == GotSlot
    ensures Counting(o, Proceed(s.(sh := AdmitShared(o, s.sh)), c, plain, alive))
  {
    StepProceed(o, s.(sh := AdmitShared(o, s.sh)), c, plain, alive);
    assert c !in SlotHolders(s.claims) && c !in GuardHolders(s.claims);
    assert GuardHolders(s.claims) - {c} == GuardHolders(s.claims);
  }

  lemma OneMoreGuard(m: map<ClaimId, Claim>, c: ClaimId, plain: bool)
    requires c !in m
    ensures SlotHolders(m[c := Claim(plain, Queued)]) == SlotHolders(m)
    ensures |GuardHolders(m[c := Claim(plain, Queued)])| == |GuardHolders(m)| + 1
  {
    ClaimSet(m, c, Claim(plain, Queued));
    assert c !in SlotHolders(m) && c !in GuardHolders(m);
    assert GuardHolders(m) - {c} == GuardHolders(m);
  }

  lemma QueueJoined(o: Options, s: State, c: ClaimId, plain: bool)
    requires Counting(o, s) && c !in s.claims && Admit(o, s.sh) == Enqueued
    ensures Counting(o, s.(sh := AdmitShared(o, s.sh), claims := s.claims[c := Claim(plain, Queued)]))
  {
    OneMoreGuard(s.claims, c, plain);
  }

  lemma StepPoll(o: Options, s: State, e: Event)
    requires Counting(o, s) && Enabled(o, s, e) && e.Poll?
    ensures Counting(o, Step(o, s, e))
  {
    StepProceed(o, s.(sh := s.sh.(waiting := s.sh.waiting - 1)), e.c, s.claims[e.c].plain, e.alive);
    assert SlotHolders(s.claims) + {e.c} == SlotHolders(s.claims);
    assert e.c in GuardHolders(s.claims);
  }

  lemma StepLeave(o: Options, s: State, e: Event)
    requires Counting(o, s) && Enabled(o, s, e) && (e.LeaveQueue? || e.AbandonLaunch?)
    ensures Counting(o, Step(o, s, e))
  {
    ClaimRemoved(s.claims, e.c);
    assert e.c in GuardHolders(s.claims) <==> e.LeaveQueue?;
    assert e.c in SlotHolders(s.claims) <==> e.AbandonLaunch?;
  }

  lemma HoldersSame(m: map<ClaimId, Claim>, c: ClaimId, v: Claim)
    requires c in m && m[c].HasSlot() && !m[c].HasGuard() && v.HasSlot() && !v.HasGuard()
    ensures SlotHolders(m[c := v]) == SlotHolders(m) && GuardHolders(m[c := v]) == GuardHolders(m)
    ensures WaitingClaims(m[c := v]) == WaitingClaims(m)
  {
    ClaimSet(m, c, v);
  }

  lemma StepHold(o: Options, s: State, c: ClaimId, v: Claim)
    requires Counting(o, s) && c in s.claims
    requires s.claims[c].HasSlot() && !s.claims[c].HasGuard() && v.HasSlot() && !v.HasGuard()
    ensures Counting(o, s.(claims := s.claims[c := v]))
  {
    HoldersSame(s.claims, c, v);
  }

  lemma StepRelease(o: Options, s: State, e: Event)
    requires Counting(o, s) && Enabled(o, s, e)
    requires e.LeaveGranted? || e.LaunchFailed? || e.DestroyDone?
    ensures Counting(o, Step(o, s, e))
  {
    ClaimRemoved(s.claims, e.c);
    Released(Without(s, e.c), 1, e.grant);
    assert e.c in SlotHolders(s.claims);
    assert e.c in GuardHolders(s.claims) <==> e.LeaveGranted?;
  }

  lemma StepShared(o: Options, s: State, e: Event)
    requires Counting(o, s) && Enabled(o, s, e)
    requires e.BackgroundDone? || e.Close? || e.RepTop? || e.RepDestroyOne? || e.RepDecide?
             || e.RepLaunched? || e.RepLaunchFailed? || e.RepDiscarded?
    ensures Counting(o, Step(o, s, e))
  {
    if e.RepTop? {
      CullShrinks(o, s.sh.warm, e.alive, e.now);
    }
  }

  lemma StepResize(o: Options, s: State, e: Event)
    requires Counting(o, s) && Enabled(o, s, e) && e.Resize?
    ensures Counting(o, Step(o, s, e))
  {
    var n := SaturatingSub(Max(e.target, 1), s.sh.maxSessions);
    var sh := s.sh.(maxSessions := Max(e.target, 1),
                    permits := SaturatingSub(s.sh.permits, SaturatingSub(s.sh.maxSessions, Max(e.target, 1))));
    Released(s.(sh := sh, owed := s.owed + Shortfall(s.sh, e.target)), n, e.grant);
  }

  lemma StepCounting(o: Options, s: State, e: Event)
    requires Counting(o, s) && Enabled(o, s, e)
    ensures Counting(o, Step(o, s, e))
  {
    match e
    case Arrive(c, plain, alive) => StepArrive(o, s, c, plain, alive);
    case Poll(_, _) => StepPoll(o, s, e);
    case LeaveQueue(_) => StepLeave(o, s, e);
    case Launched(c) => StepHold(o, s, c, Claim(s.claims[c].plain, Holding(s.created)));
    case AbandonLaunch(_) => StepLeave(o, s, e);
    case Destroy(c) => StepHold(o, s, c, s.claims[c].(phase := Releasing(s.claims[c].phase.session)));
    case LeaveGranted(_, _) => StepRelease(o, s, e);
    case LaunchFailed(_, _) => StepRelease(o, s, e);
    case DestroyDone(_, _) => StepRelease(o, s, e);
    case Resize(_, _) => StepResize(o, s, e);
    case _ => StepShared(o, s, e);
  }

  // ---------------------------------------------------------------- whole runs

  lemma {:induction false} Reachable(o: Options, max: nat, run: seq<Event>)
    requires Feasible(o, max, run)
    ensures Counting(o, After(o, max, run))
    decreases |run|
  {
    if run != [] {
      var n := |run| - 1;
      Reachable(o, max, run[..n]);
      StepCounting(o, After(o, max, run[..n]), run[n]);
    } else {
      assert SlotHolders(map[]) == {} && GuardHolders(map[]) == {} && WaitingClaims(map[]) == {};
    }
  }

  /**
   In every reachable state free permits, held slots and slots lost with abandoned launches add up
   to the ceiling plus the permits that lowering it could not take back; so free + held is the
   ceiling exactly when those two leaks balance.
   */
  lemma SlotConservation(o: Options, max: nat, run: seq<Event>)
    requires Feasible(o, max, run)
    ensures var s := After(o, max, run);
            && s.sh.permits + |SlotHolders(s.claims)| + s.abandoned == s.sh.maxSessions + s.owed
            && (s.sh.permits + |SlotHolders(s.claims)| == s.sh.maxSessions <==> s.abandoned == s.owed)
  {
    Reachable(o, max, run);
  }

  /** Lowering the ceiling conserves slots exactly when it stays at or above the slots in use. */
  lemma ResizeConservesIff(o: Options, max: nat, run: seq<Event>, target: nat, grant: set<ClaimId>)
    requires Feasible(o, max, run) && Enabled(o, After(o, max, run), Resize(target, grant))
    requires After(o, max, run).abandoned == After(o, max, run).owed == 0
    ensures var s := After(o, max, run);
            var r := Step(o, s, Resize(target, grant));
            (r.sh.permits + |SlotHolders(r.claims)| == r.sh.maxSessions
             <==> |SlotHolders(s.claims)| <= Max(target, 1))
  {
    var s := After(o, max, run);
    Reachable(o, max, run);
    StepCounting(o, s, Resize(target, grant));
  }

  /** A ceiling lowered under a held slot leaves one slot too many: the failing family is inhabited. */
  lemma ResizeCanOvercommit()
    ensures exists o: Options, max: nat, run: seq<Event> :: Feasible(o, max, run) &&
              var s := After(o, max, run);
              s.sh.permits + |SlotHolders(s.claims)| > s.sh.maxSessions
  {
    var o := Options(0, 0, 0, 0);
    var run := [Arrive(0, false, {}), Arrive(1, false, {}), Resize(1, {})];
    var r0: seq<Event> := [];
    var r1 := [Arrive(0, false, {})];
    var r2 := [Arrive(0, false, {}), Arrive(1, false, {})];
    assert run[..2] == r2 && r2[..1] == r1 && r1[..0] == r0;
    assert Feasible(o, 2, r0) && Feasible(o, 2, r1) && Feasible(o, 2, r2);
    var s := After(o, 2, r2);
    assert s.claims == map[0 := Claim(false, Launching), 1 := Claim(false, Launching)];
    assert Feasible(o, 2, run);
    SlotConservation(o, 2, run);
    assert After(o, 2, run).owed == 1 && After(o, 2, run).abandoned == 0;
  }

  /** The ceiling is only set before the first claim (module `Calibration` shows why the server does so). */
  ghost predicate ResizedBeforeClaims(run: seq<Event>) {
    forall i, j :: 0 <= i < j < |run| && run[i].Arrive? ==> !run[j].Resize?
  }

  /** What one event does to the two leak counters and to a pool nobody has claimed from. */
  lemma StepLeaks(o: Options, s: State, e: Event)
    requires Enabled(o, s, e)
    ensures var r := Step(o, s, e);
            && r.abandoned == s.abandoned + (if e.AbandonLaunch? then 1 else 0)
            && r.owed == s.owed + (if e.Resize? then Shortfall(s.sh, e.target) else 0)
            && (s.claims == map[] && !e.Arrive? ==> r.claims == map[] && !e.AbandonLaunch?)
  {
  }

  lemma {:induction false} NothingOwed(o: Options, max: nat, run: seq<Event>)
    requires Feasible(o, max, run) && ResizedBeforeClaims(run)
    ensures After(o, max, run).owed == 0
    ensures (forall i :: 0 <= i < |run| ==> !run[i].Arrive?) ==>
              After(o, max, run).claims == map[] && After(o, max, run).abandoned == 0
    decreases |run|
  {
    if run != [] {
      var n := |run| - 1;
      NothingOwed(o, max, run[..n]);
      Reachable(o, max, run[..n]);
      var s := After(o, max, run[..n]);
      StepLeaks(o, s, run[n]);
      if run[n].Resize? {
        assert forall i :: 0 <= i < n ==> run[..n][i] == run[i];
        assert SlotHolders(s.claims) == {};
      }
    }
  }

  /** The counters never underflow: a live guard or launch is always counted. */
  lemma CountersCoverTheirHolders(o: Options, max: nat, run: seq<Event>, c: ClaimId)
    requires Feasible(o, max, run)
    ensures var s := After(o, max, run);
            && (c in s.claims && s.claims[c].HasGuard() ==> s.sh.waiting > 0)
            && (s.rep.Creating? ==> s.sh.launching > 0)
  {
    Reachable(o, max, run);
    var s := After(o, max, run);
    if c in s.claims && s.claims[c].HasGuard() {
      assert c in GuardHolders(s.claims);
    }
  }

  // ---------------------------------------------------------------- the culler

  /** What the culler would remove were idle excess not a reason. */
  function DeadOrOld(o: Options, warm: seq<Warm>, alive: set<Session>, now: nat): Culled {
    if warm == [] then Culled([], [])
    else
      var n := |warm| - 1;
      var c := DeadOrOld(o, warm[..n], alive, now);
      if warm[n].session !in alive || TooOld(o, warm[n], now)
      then Culled(c.kept, c.removed + [warm[n].session])
      else Culled(c.kept + [warm[n]], c.removed)
  }

  lemma {:induction false} CullWithinFloor(o: Options, warm: seq<Warm>, alive: set<Session>, now: nat)
    requires |warm| <= o.minReady
    ensures Cull(o, warm, alive, now) == DeadOrOld(o, warm, alive, now)
  {
    if warm != [] {
      CullWithinFloor(o, warm[..|warm| - 1], alive, now);
      CullShrinks(o, warm[..|warm| - 1], alive, now);
    }
  }

  /**
   Warm plus launching never exceeds the floor, so idle excess never removes a session: in every
   reachable state the culler takes exactly the dead and the too old.
   */
  lemma IdleExcessNeverCulls(o: Options, max: nat, run: seq<Event>, alive: set<Session>, now: nat)
    requires Feasible(o, max, run)
    ensures var sh := After(o, max, run).sh;
            && |sh.warm| + sh.launching <= o.minReady
            && Cull(o, sh.warm, alive, now) == DeadOrOld(o, sh.warm, alive, now)
  {
    Reachable(o, max, run);
    CullWithinFloor(o, After(o, max, run).sh.warm, alive, now);
  }
}
