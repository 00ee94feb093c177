/**
 What happens after `close` (src/pool.rs): the tasks that are under way can take only so many more
 steps, some task can always take one until everything is at rest, and at rest nothing has leaked.
 */
module PoolRest {
  import opened Prelude
  import opened PoolModel
  import opened PoolCounting
  import opened PoolPlaces

  /** A step of a claimer that is already in, of a background destroy or of the replenisher. */
  predicate TaskStep(e: Event) {
    !e.Arrive? && !e.Close? && !e.Resize?
  }

  // ---------------------------------------------------------------- the work that is left

  function Running(m: map<ClaimId, Claim>): set<ClaimId> {
    set c | c in m && (m[c].phase.Launching? || m[c].phase.Holding?)
  }

  function InLaunch(m: map<ClaimId, Claim>): set<ClaimId> {
    set c | c in m && m[c].phase.Launching?
  }

  /** A launch may be followed by a hold, a hold by a release, and a release by the end. */
  function ClaimWork(m: map<ClaimId, Claim>): nat {
    |m| + |Running(m)| + |InLaunch(m)|
  }

  function RepWork(rep: Replenisher): nat {
    match rep
    case Stopped => 0
    case Top => 1
    case Discarding(_) => 1
    case Creating => 2
    case Culling(pending) => 3 + |pending|
  }

  function Work(s: State): nat {
    ClaimWork(s.claims) + |s.background| + RepWork(s.rep)
  }

  lemma ClaimEnds(m: map<ClaimId, Claim>, c: ClaimId)
    requires c in m
    ensures ClaimWork(m - {c}) < ClaimWork(m)
  {
    assert (m - {c}).Keys == m.Keys - {c};
    assert Running(m - {c}) == Running(m) - {c};
    assert InLaunch(m - {c}) == InLaunch(m) - {c};
  }

  lemma ClaimMoves(m: map<ClaimId, Claim>, c: ClaimId, v: Claim)
    requires c in m
    requires (m[c].phase.Launching? && v.phase.Holding?) || (m[c].phase.Holding? && v.phase.Releasing?)
    ensures ClaimWork(m[c := v]) < ClaimWork(m)
  {
    assert m[c := v].Keys == m.Keys;
    assert InLaunch(m[c := v]) == InLaunch(m) - {c};
    if v.phase.Holding? {
      assert Running(m[c := v]) == Running(m) && c in InLaunch(m);
    } else {
      assert Running(m[c := v]) == Running(m) - {c} && c in Running(m);
    }
  }

  lemma NoGrant(m: map<ClaimId, Claim>)
    ensures Grant(m, {}) == m
  {
  }

  lemma ClaimerWork(o: Options, s: State, e: Event)
    requires Enabled(o, s, e) && s.sh.closed
    requires e.LeaveQueue? || e.LeaveGranted? || e.LaunchFailed? || e.AbandonLaunch? || e.DestroyDone?
    ensures var r := Step(o, s, e); Work(r) < Work(s) && r.sh.closed
  {
    ClaimEnds(s.claims, e.c);
    NoGrant(s.claims - {e.c});
  }

  lemma SessionWork(o: Options, s: State, e: Event)
    requires Enabled(o, s, e) && s.sh.closed && (e.Launched? || e.Destroy?)
    ensures var r := Step(o, s, e); Work(r) < Work(s) && r.sh.closed
  {
    if e.Launched? {
      ClaimMoves(s.claims, e.c, Claim(s.claims[e.c].plain, Holding(s.created)));
    } else {
      ClaimMoves(s.claims, e.c, s.claims[e.c].(phase := Releasing(s.claims[e.c].phase.session)));
    }
  }

  lemma ReplenisherWork(o: Options, s: State, e: Event)
    requires Enabled(o, s, e) && s.sh.closed
    requires e.RepTop? || e.RepDestroyOne? || e.RepDecide? || e.RepLaunched? || e.RepLaunchFailed? || e.RepDiscarded?
    ensures var r := Step(o, s, e); Work(r) < Work(s) && r.sh.closed
  {
    assert Step(o, s, e).claims == s.claims && Step(o, s, e).background == s.background;
  }

  lemma OutsideWork(o: Options, s: State, e: Event)
    requires Enabled(o, s, e) && s.sh.closed && s.sh.warm == [] && !TaskStep(e)
    ensures var r := Step(o, s, e); Work(r) == Work(s) && r.sh.closed
  {
    NoGrant(s.claims);
    assert SetOf(Ids([])) == {};
  }

  /** After `close` every task step leaves less work, and nothing else adds any. */
  lemma StepWork(o: Options, s: State, e: Event)
    requires Enabled(o, s, e) && Counting(o, s) && s.sh.closed
    ensures var r := Step(o, s, e);
            r.sh.closed && (if TaskStep(e) then Work(r) < Work(s) else Work(r) == Work(s))
  {
    if !TaskStep(e) {
      OutsideWork(o, s, e);
    } else if e.Launched? || e.Destroy? {
      SessionWork(o, s, e);
    } else if e.LeaveQueue? || e.LeaveGranted? || e.LaunchFailed? || e.AbandonLaunch? || e.DestroyDone? {
      ClaimerWork(o, s, e);
    } else if e.BackgroundDone? {
      BackgroundWork(o, s, e.session);
    } else {
      ReplenisherWork(o, s, e);
    }
  }

  lemma BackgroundWork(o: Options, s: State, id: Session)
    requires id in s.background
    ensures var r := Step(o, s, BackgroundDone(id)); Work(r) < Work(s) && r.sh == s.sh
  {
  }

  // ---------------------------------------------------------------- somebody can always go on

  /** The next step of a claim once the pool is closed. */
  function NextOfClaim(c: ClaimId, phase: Phase): Event {
    match phase
    case Queued => LeaveQueue(c)
    case Granted => LeaveGranted(c, {})
    case Launching => LaunchFailed(c, {})
    case Holding(_) => Destroy(c)
    case Releasing(_) => DestroyDone(c, {})
  }

  function NextOfReplenisher(rep: Replenisher): Event {
    match rep
    case Culling(pending) => if pending == [] then RepDecide else RepDestroyOne
    case Creating => RepLaunchFailed
    case Discarding(_) => RepDiscarded
    case _ => RepTop({}, 0)
  }

  /** Some task can take a step. */
  ghost predicate CanGoOn(o: Options, s: State) {
    exists e :: TaskStep(e) && Enabled(o, s, e)
  }

  lemma ClaimGoesOn(o: Options, s: State, c: ClaimId)
    requires Counting(o, s) && s.sh.closed && c in s.claims
    ensures Enabled(o, s, NextOfClaim(c, s.claims[c].phase))
  {
    if s.claims[c].HasGuard() {
      assert c in GuardHolders(s.claims);
    }
  }

  /** A closed pool in which no task can take a step is at rest, and the other way round. */
  lemma StuckIffQuiet(o: Options, s: State)
    requires Counting(o, s) && s.sh.closed
    ensures !CanGoOn(o, s) <==> Quiet(s)
  {
    if s.claims != map[] {
      var c :| c in s.claims;
      ClaimGoesOn(o, s, c);
      assert CanGoOn(o, s);
    } else if s.background != {} {
      var id :| id in s.background;
      assert Enabled(o, s, BackgroundDone(id));
      assert CanGoOn(o, s);
    } else if !s.rep.Stopped? {
      assert Enabled(o, s, NextOfReplenisher(s.rep));
      assert CanGoOn(o, s);
    }
  }

  // ---------------------------------------------------------------- whole runs

  function TaskSteps(run: seq<Event>): nat {
    if run == [] then 0 else TaskSteps(run[..|run| - 1]) + if TaskStep(run[|run| - 1]) then 1 else 0
  }

  lemma {:induction false} WorkBounds(o: Options, max: nat, run: seq<Event>, more: seq<Event>)
    requires Feasible(o, max, run) && Feasible(o, max, run + more) && After(o, max, run).sh.closed
    ensures var s := After(o, max, run + more);
            s.sh.closed && TaskSteps(more) + Work(s) <= Work(After(o, max, run))
    decreases |more|
  {
    if more == [] {
      assert run + more == run;
    } else {
      var n := |more| - 1;
      var shorter := run + more[..n];
      assert (run + more)[..|run + more| - 1] == shorter && (run + more)[|run + more| - 1] == more[n];
      WorkBounds(o, max, run, more[..n]);
      Reachable(o, max, shorter);
      StepWork(o, After(o, max, shorter), more[n]);
    }
  }

  /**
   However a run goes on after `close`: its tasks take at most as many steps as there was work left,
   so it comes to a state in which no task can step; and in every such state each session ever created
   has been destroyed, once.
   */
  lemma ClosedPoolComesToRest(o: Options, max: nat, run: seq<Event>, more: seq<Event>)
    requires Feasible(o, max, run) && Feasible(o, max, run + more) && After(o, max, run).sh.closed
    ensures TaskSteps(more) <= Work(After(o, max, run))
    ensures var s := After(o, max, run + more);
            !CanGoOn(o, s) ==> SetOf(s.destroyed) == FirstIds(s.created) && |s.destroyed| == s.created
  {
    WorkBounds(o, max, run, more);
    Reachable(o, max, run + more);
    StuckIffQuiet(o, After(o, max, run + more));
    if !CanGoOn(o, After(o, max, run + more)) {
      ClosedPoolLeaksNothing(o, max, run + more);
    }
  }
}
