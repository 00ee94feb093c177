/**
 Boot calibration (src/server.rs) beside the handler (src/server/ws.rs) and the pool: the calibration
 task sets the ceiling once and then clears the flag; the handler refuses pool sessions while the flag is
 up.  Reading the flag and reaching the pool are two events, and other tasks may come between them.
 */
module Calibration {
  import opened Prelude
  import opened PoolModel
  import opened PoolCounting
  import Admission

  /** `Done` also stands for a server that does not calibrate. */
  datatype Stage = Measuring | CeilingSet | Done

  datatype Server = Server(pool: State, stage: Stage, admitted: set<ClaimId>)

  datatype ServerEvent =
    | Check(c: ClaimId, view: Admission.Server)                // the handler's own checks
    | Claim(c: ClaimId, plain: bool, alive: set<Session>)      // a request that passed them reaches the pool
    | Leave(c: ClaimId)                                        // or it ends before that
    | SetCeiling(target: nat, grant: set<ClaimId>)
    | ClearFlag
    | InPool(e: Event)

  function Boot(max: nat, calibrates: bool): Server {
    Server(Init(max), if calibrates then Measuring else Done, {})
  }

  /** The pool event of a server event, if it is one. */
  function PoolPart(e: ServerEvent): Option<Event> {
    match e
    case Claim(c, plain, alive) => Some(Arrive(c, plain, alive))
    case SetCeiling(target, grant) => Some(Resize(target, grant))
    case InPool(inner) => Some(inner)
    case _ => None
  }

  predicate Possible(o: Options, v: Server, e: ServerEvent) {
    && (PoolPart(e).Some? ==> Enabled(o, v.pool, PoolPart(e).value))
    && match e
       case Check(_, view) => view.calibrating == (v.stage != Done)
       case Claim(c, _, _) => c in v.admitted
       case SetCeiling(_, _) => v.stage == Measuring
       case ClearFlag => v.stage == CeilingSet
       case InPool(inner) => !inner.Arrive? && !inner.Resize?
       case _ => true
  }

  function Next(o: Options, v: Server, e: ServerEvent): Server
    requires Possible(o, v, e)
  {
    var pool := if PoolPart(e).Some? then Step(o, v.pool, PoolPart(e).value) else v.pool;
    match e
    case Check(c, view) =>
      if Admission.Handle(o, v.pool.sh, view).FromPool? then v.(admitted := v.admitted + {c}) else v
    case Claim(c, _, _) => v.(pool := pool, admitted := v.admitted - {c})
    case Leave(c) => v.(admitted := v.admitted - {c})
    case SetCeiling(_, _) => v.(pool := pool, stage := CeilingSet)
    case ClearFlag => v.(stage := Done)
    case InPool(_) => v.(pool := pool)
  }

  ghost predicate ServerRun(o: Options, max: nat, calibrates: bool, run: seq<ServerEvent>)
    decreases |run|, 0
  {
    run == [] ||
    (ServerRun(o, max, calibrates, run[..|run| - 1]) &&
     Possible(o, ServerAfter(o, max, calibrates, run[..|run| - 1]), run[|run| - 1]))
  }

  ghost function ServerAfter(o: Options, max: nat, calibrates: bool, run: seq<ServerEvent>): Server
    requires ServerRun(o, max, calibrates, run)
    decreases |run|, 1
  {
    if run == [] then Boot(max, calibrates)
    else Next(o, ServerAfter(o, max, calibrates, run[..|run| - 1]), run[|run| - 1])
  }

  /** What the pool sees of a run. */
  function PoolRun(run: seq<ServerEvent>): seq<Event> {
    if run == [] then []
    else
      var n := |run| - 1;
      PoolRun(run[..n]) + if PoolPart(run[n]).Some? then [PoolPart(run[n]).value] else []
  }

  ghost predicate NoClaims(run: seq<Event>) {
    forall i :: 0 <= i < |run| ==> !run[i].Arrive?
  }

  /** While the flag is up nobody has been let through, and so nobody has claimed. */
  ghost predicate Guarded(o: Options, max: nat, v: Server, seen: seq<Event>) {
    && Feasible(o, max, seen) && After(o, max, seen) == v.pool && ResizedBeforeClaims(seen)
    && (v.stage != Done ==> v.admitted == {} && NoClaims(seen))
  }

  lemma PoolStep(o: Options, max: nat, seen: seq<Event>, e: Event)
    requires Feasible(o, max, seen) && Enabled(o, After(o, max, seen), e)
    ensures Feasible(o, max, seen + [e]) && After(o, max, seen + [e]) == Step(o, After(o, max, seen), e)
  {
    assert (seen + [e])[..|seen|] == seen;
  }

  lemma OrderKept(seen: seq<Event>, e: Event)
    requires ResizedBeforeClaims(seen) && (e.Resize? ==> NoClaims(seen))
    ensures ResizedBeforeClaims(seen + [e])
  {
  }

  lemma GuardKept(o: Options, max: nat, v: Server, seen: seq<Event>, e: ServerEvent)
    requires Guarded(o, max, v, seen) && Possible(o, v, e)
    ensures Guarded(o, max, Next(o, v, e), seen + if PoolPart(e).Some? then [PoolPart(e).value] else [])
  {
    if PoolPart(e).Some? {
      PoolStep(o, max, seen, PoolPart(e).value);
      OrderKept(seen, PoolPart(e).value);
    } else {
      assert seen + [] == seen;
    }
  }

  /** The handler's test imposes the order: in every run of the server the ceiling is set before any claim. */
  lemma {:induction false} CeilingBeforeClaims(o: Options, max: nat, calibrates: bool, run: seq<ServerEvent>)
    requires ServerRun(o, max, calibrates, run)
    ensures Guarded(o, max, ServerAfter(o, max, calibrates, run), PoolRun(run))
    decreases |run|
  {
    if run == [] {
      assert Feasible(o, max, []) && After(o, max, []) == Init(max);
    } else {
      var n := |run| - 1;
      CeilingBeforeClaims(o, max, calibrates, run[..n]);
      GuardKept(o, max, ServerAfter(o, max, calibrates, run[..n]), PoolRun(run[..n]), run[n]);
    }
  }

  /**
   So calibration keeps conservation exact: in every run of the server, free permits + held slots +
   slots lost with abandoned launches is the ceiling, before and after it is set.
   */
  lemma CalibrationConserves(o: Options, max: nat, calibrates: bool, run: seq<ServerEvent>)
    requires ServerRun(o, max, calibrates, run)
    ensures var s := ServerAfter(o, max, calibrates, run).pool;
            s.sh.permits + |SlotHolders(s.claims)| + s.abandoned == s.sh.maxSessions
  {
    CeilingBeforeClaims(o, max, calibrates, run);
    NothingOwed(o, max, PoolRun(run));
    SlotConservation(o, max, PoolRun(run));
  }

  /** The number of running sessions that is reported is the number of slots that are taken. */
  lemma RunningIsHeld(o: Options, max: nat, calibrates: bool, run: seq<ServerEvent>)
    requires ServerRun(o, max, calibrates, run) && !ServerAfter(o, max, calibrates, run).pool.sh.closed
    ensures var s := ServerAfter(o, max, calibrates, run).pool;
            StatsOf(o, s.sh).running == |SlotHolders(s.claims)| + s.abandoned
  {
    CalibrationConserves(o, max, calibrates, run);
  }

  // ---------------------------------------------------------------- that it lets sessions in

  /** While the flag is up no request passes; afterwards exactly those pass that nothing stands in the way of. */
  lemma CheckPassesIff(o: Options, v: Server, c: ClaimId, view: Admission.Server)
    requires view.calibrating == (v.stage != Done)
    ensures Possible(o, v, Check(c, view))
    ensures var r := Next(o, v, Check(c, view));
            var passes := && v.stage == Done && view.singleUse != Some(true) && !Admission.FewThreads(view)
                          && !Admission.Exceeds(view.cpu, view.maxCpu)
                          && !Admission.Exceeds(view.memory, view.maxMemory);
            r == v.(admitted := if passes then v.admitted + {c} else v.admitted)
  {
    Admission.AnswerIs(o, v.pool.sh, view);
  }

  /** A request that passed reaches the pool as an arrival, and is then no longer on its way. */
  lemma PassedIsClaimed(o: Options, v: Server, c: ClaimId, plain: bool, alive: set<Session>)
    requires c in v.admitted && c !in v.pool.claims
    ensures Possible(o, v, ServerEvent.Claim(c, plain, alive))
    ensures Next(o, v, ServerEvent.Claim(c, plain, alive))
         == v.(pool := Step(o, v.pool, Arrive(c, plain, alive)), admitted := v.admitted - {c})
    ensures Next(o, v, Leave(c)) == v.(admitted := v.admitted - {c})
  {
  }

  /** Calibration always gets through: the ceiling it measured is set, at least one, and the flag goes down. */
  lemma CalibrationFinishes(o: Options, max: nat, run: seq<ServerEvent>, target: nat)
    requires ServerRun(o, max, true, run) && ServerAfter(o, max, true, run).stage == Measuring
    ensures var v := ServerAfter(o, max, true, run);
            var e := SetCeiling(target, {});
            && Possible(o, v, e)
            && Next(o, v, e).stage == CeilingSet && Possible(o, Next(o, v, e), ClearFlag)
            && Next(o, Next(o, v, e), ClearFlag).stage == Done
            && Next(o, Next(o, v, e), ClearFlag).pool.sh.maxSessions == if target == 0 then 1 else target
  {
    CeilingBeforeClaims(o, max, true, run);
    NothingOwed(o, max, PoolRun(run));
    assert WaitingClaims(ServerAfter(o, max, true, run).pool.claims) == {};
  }
}
