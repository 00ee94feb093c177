/**
 The warm pool (src/pool.rs).

 `Shared` is what every task sees: the semaphore, the ceiling, the warm deque and the two
 counters.  `Pool` is the object itself; its methods are the synchronous sections of the source
 and each is proved against a function on `Shared`.  `State`, `Event` and `Step` then put any
 number of claimers, the replenisher, background destroys, `close` and `set_max_sessions`
 together: one event is the code one task runs between two awaits.
 */
module PoolModel {
  import opened Prelude

  type Session = nat
  type ClaimId = nat

  datatype Options = Options(minReady: nat, maxQueue: nat, warmIdle: nat, warmMaxAge: nat)

  datatype Warm = Warm(session: Session, readyAt: nat)

  datatype Shared = Shared(
    permits: nat,
    closed: bool,
    maxSessions: nat,
    warm: seq<Warm>,
    waiting: nat,
    launching: nat)

  // ---------------------------------------------------------------- sections of the source

  /** What the first section of `acquire_slot` answers. */
  datatype Admission = GotSlot | Enqueued | Closed | QueueFull

  function Admit(o: Options, sh: Shared): Admission {
    if sh.closed then Closed
    else if sh.permits > 0 then GotSlot
    else if sh.waiting + 1 > o.maxQueue then QueueFull
    else Enqueued
  }

  function AdmitShared(o: Options, sh: Shared): Shared {
    match Admit(o, sh)
    case GotSlot => sh.(permits := sh.permits - 1)
    case Enqueued => sh.(waiting := sh.waiting + 1)
    case _ => sh
  }

  /** The warm deque after a claimer popped from its front until it met a live session. */
  datatype Taken = Taken(found: Option<Session>, dead: seq<Session>, rest: seq<Warm>)

  function TakeWarm(warm: seq<Warm>, alive: set<Session>): Taken {
    if warm == [] then Taken(None, [], [])
    else if warm[0].session in alive then Taken(Some(warm[0].session), [], warm[1..])
    else
      var t := TakeWarm(warm[1..], alive);
      Taken(t.found, [warm[0].session] + t.dead, t.rest)
  }

  /** The warm deque split by the culler. */
  datatype Culled = Culled(kept: seq<Warm>, removed: seq<Session>)

  predicate TooOld(o: Options, w: Warm, now: nat) {
    SaturatingSub(now, w.readyAt) >= o.warmMaxAge
  }

  predicate ExcessIdle(o: Options, kept: nat, w: Warm, now: nat) {
    kept >= o.minReady && SaturatingSub(now, w.readyAt) >= o.warmIdle
  }

  function Cull(o: Options, warm: seq<Warm>, alive: set<Session>, now: nat): Culled {
    if warm == [] then Culled([], [])
    else
      var n := |warm| - 1;
      var c := Cull(o, warm[..n], alive, now);
      if warm[n].session !in alive || TooOld(o, warm[n], now) || ExcessIdle(o, |c.kept|, warm[n], now)
      then Culled(c.kept, c.removed + [warm[n].session])
      else Culled(c.kept + [warm[n]], c.removed)
  }

  function Ids(warm: seq<Warm>): (r: seq<Session>)
    ensures |r| == |warm|
    ensures forall i :: 0 <= i < |warm| ==> r[i] == warm[i].session
  {
    seq(|warm|, i requires 0 <= i < |warm| => warm[i].session)
  }

  function CloseShared(sh: Shared): Shared {
    sh.(closed := true, warm := [])
  }

  /** How many permits `forget_permits` fails to take when the ceiling is lowered. */
  function Shortfall(sh: Shared, target: nat): nat {
    SaturatingSub(SaturatingSub(sh.maxSessions, Max(target, 1)), sh.permits)
  }

  /** The number of sessions the replenisher would still start. */
  function Wanted(o: Options, sh: Shared): nat {
    var active := SaturatingSub(sh.maxSessions, sh.permits);
    var headroom := SaturatingSub(sh.maxSessions, active + |sh.warm| + sh.launching);
    Min(SaturatingSub(o.minReady, |sh.warm| + sh.launching), headroom)
  }

  datatype Stats = Stats(
    running: nat, queued: nat, warm: nat, maxSessions: nat, maxQueue: nat, accepting: bool)

  function StatsOf(o: Options, sh: Shared): Stats {
    Stats(
      if !sh.closed then SaturatingSub(sh.maxSessions, sh.permits) else 0,
      Min(sh.waiting, o.maxQueue),
      |sh.warm|,
      sh.maxSessions,
      o.maxQueue,
      !sh.closed)
  }

  // ---------------------------------------------------------------- the object

  class Pool {
    const options: Options
    var permits: nat
    var closed: bool
    var maxSessions: nat
    var warm: seq<Warm>
    var waiting: nat
    var launching: nat

    function View(): Shared
      reads this
    {
      Shared(permits, closed, maxSessions, warm, waiting, launching)
    }

    constructor (options: Options, maxSessions: nat)
      ensures this.options == options
      ensures View() == Shared(maxSessions, false, maxSessions, [], 0, 0)
    {
      this.options := options;
      permits, closed, this.maxSessions, warm := maxSessions, false, maxSessions, [];
      waiting, launching := 0, 0;
    }

    /** `acquire_slot` up to the queue wait: the counter is raised before it is compared. */
    method AcquireSlot() returns (r: Admission)
      modifies this
      ensures r == Admit(options, old(View()))
      ensures View() == AdmitShared(options, old(View()))
    {
      if closed { return Closed; }
      if permits > 0 {
        permits := permits - 1;
        return GotSlot;
      }
      waiting := waiting + 1;
      if waiting > options.maxQueue {
        waiting := waiting - 1;
        return QueueFull;
      }
      r := Enqueued;
    }

    /** The pop loop of `claim`. */
    method PopLive(alive: set<Session>) returns (found: Option<Session>, dead: seq<Session>)
      modifies this`warm
      ensures Taken(found, dead, warm) == TakeWarm(old(warm), alive)
    {
      found, dead := None, [];
      while warm != []
        invariant var t := TakeWarm(warm, alive);
                  TakeWarm(old(warm), alive) == Taken(t.found, dead + t.dead, t.rest)
        decreases |warm|
      {
        var w := warm[0];
        ghost var t := TakeWarm(warm[1..], alive);
        warm := warm[1..];
        if w.session in alive {
          found := Some(w.session);
          return;
        }
        assert dead + ([w.session] + t.dead) == (dead + [w.session]) + t.dead;
        dead := dead + [w.session];
      }
    }

    /** The locked loop of `cull_warm`; the caller destroys what it removes. */
    method CullWarm(alive: set<Session>, now: nat) returns (removed: seq<Session>)
      modifies this`warm
      ensures Culled(warm, removed) == Cull(options, old(warm), alive, now)
    {
      var kept: seq<Warm> := [];
      removed := [];
      ghost var all := warm;
      ghost var done := 0;
      while warm != []
        invariant 0 <= done <= |all| && warm == all[done..]
        invariant Culled(kept, removed) == Cull(options, all[..done], alive, now)
        decreases |warm|
      {
        var entry := warm[0];
        warm := warm[1..];
        assert all[..done + 1][..done] == all[..done];
        done := done + 1;
        if entry.session !in alive || TooOld(options, entry, now) || ExcessIdle(options, |kept|, entry, now) {
          removed := removed + [entry.session];
        } else {
          kept := kept + [entry];
        }
      }
      assert all[..done] == all;
      warm := kept;
    }

    /** `close`: the drained sessions are destroyed in the background. */
    method Close() returns (drained: seq<Session>)
      modifies this
      ensures drained == Ids(old(warm))
      ensures View() == CloseShared(old(View()))
    {
      closed := true;
      drained := Ids(warm);
      warm := [];
    }

    method GetStats() returns (r: Stats)
      ensures r == StatsOf(options, View())
      ensures r.accepting ==> r.running <= r.maxSessions && r.queued <= r.maxQueue
    {
      var available := permits;
      var accepting := !closed;
      r := Stats(if accepting then SaturatingSub(maxSessions, available) else 0,
                 Min(waiting, options.maxQueue), |warm|, maxSessions, options.maxQueue, accepting);
    }

    /**
     `set_max_sessions` with no claimer queued: the new ceiling and the free permits move
     together unless the ceiling drops by more than the free permits.
     */
    method SetMaxSessions(target: nat)
      modifies this`permits, this`maxSessions
      ensures maxSessions == Max(target, 1)
      ensures permits + old(maxSessions) == old(permits) + maxSessions + Shortfall(old(View()), target)
    {
      var previous := maxSessions;
      maxSessions := Max(target, 1);
      if maxSessions > previous {
        permits := permits + (maxSessions - previous);
      } else if maxSessions < previous {
        permits := SaturatingSub(permits, previous - maxSessions);
      }
    }

    /** One decision of the replenisher: raises `launching` exactly when it starts a launch. */
    method Decide() returns (start: bool)
      modifies this`launching
      ensures start <==> && |warm| + old(launching) < options.minReady
                         && |warm| + old(launching) < Min(permits, maxSessions)
      ensures start <==> Wanted(options, old(View())) > 0
      ensures View() == old(View()).(launching := old(launching) + if start then 1 else 0)
    {
      var active := SaturatingSub(maxSessions, permits);
      var headroom := SaturatingSub(maxSessions, active + |warm| + launching);
      var wanted := Min(SaturatingSub(options.minReady, |warm| + launching), headroom);
      start := wanted != 0;
      if start {
        launching := launching + 1;
      }
    }
  }

  // ---------------------------------------------------------------- the transition system

  datatype Phase =
    | Queued                       // waiting in the semaphore's queue
    | Granted                      // a permit was assigned, the claimer has not run yet
    | Launching                    // slot held, inline or dedicated launch under way
    | Holding(session: Session)    // handed out
    | Releasing(session: Session)  // being destroyed, slot still held

  /** `plain` tells `claim` from `claim_with`. */
  datatype Claim = Claim(plain: bool, phase: Phase) {
    predicate HasSlot() { !phase.Queued? }
    predicate HasGuard() { phase.Queued? || phase.Granted? }
    predicate HasSession() { phase.Holding? || phase.Releasing? }
  }

  datatype Replenisher =
    | Top                               // at the head of its loop, or asleep
    | Culling(pending: seq<Session>)    // destroying what the culler removed, one at a time
    | Creating                          // `create` under way
    | Discarding(session: Session)      // created after close
    | Stopped

  /** Where a created session is; a history variable that the invariants tie to the real fields. */
  datatype Place = InWarm | InClaim(claim: ClaimId) | InBackground | AtReplenisher | Gone

  datatype State = State(
    sh: Shared,
    claims: map<ClaimId, Claim>,
    rep: Replenisher,
    background: set<Session>,   // spawned destroys that hold no slot
    abandoned: nat,             // slots lost with a claim dropped during its launch
    owed: nat,                  // permits that lowering the ceiling could not take back
    created: nat,               // sessions are numbered in creation order
    place: map<Session, Place>,
    handed: seq<Session>,       // sessions handed to claimers, in order
    destroyed: seq<Session>)    // completed destroys, in order

  datatype Event =
    | Arrive(c: ClaimId, plain: bool, alive: set<Session>)
    | Poll(c: ClaimId, alive: set<Session>)
    | LeaveQueue(c: ClaimId)
    | LeaveGranted(c: ClaimId, grant: set<ClaimId>)
    | Launched(c: ClaimId)
    | LaunchFailed(c: ClaimId, grant: set<ClaimId>)
    | AbandonLaunch(c: ClaimId)
    | Destroy(c: ClaimId)
    | DestroyDone(c: ClaimId, grant: set<ClaimId>)
    | BackgroundDone(session: Session)
    | Close
    | Resize(target: nat, grant: set<ClaimId>)
    | RepTop(alive: set<Session>, now: nat)
    | RepDestroyOne
    | RepDecide
    | RepLaunched(now: nat)
    | RepLaunchFailed
    | RepDiscarded

  function Init(max: nat): State {
    State(Shared(max, false, max, [], 0, 0), map[], Top, {}, 0, 0, 0, map[], [], [])
  }

  function WaitingClaims(claims: map<ClaimId, Claim>): set<ClaimId> {
    set c | c in claims && claims[c].phase.Queued?
  }

  function SlotHolders(claims: map<ClaimId, Claim>): set<ClaimId> {
    set c | c in claims && claims[c].HasSlot()
  }

  function GuardHolders(claims: map<ClaimId, Claim>): set<ClaimId> {
    set c | c in claims && claims[c].HasGuard()
  }

  function Grant(claims: map<ClaimId, Claim>, grant: set<ClaimId>): map<ClaimId, Claim> {
    map c | c in claims :: if c in grant then claims[c].(phase := Granted) else claims[c]
  }

  /** Released permits go to queued claimers first; a closed semaphore has no queue. */
  predicate GrantOk(s: State, n: nat, grant: set<ClaimId>) {
    if s.sh.closed then grant == {}
    else grant <= WaitingClaims(s.claims) && |grant| == Min(n, |WaitingClaims(s.claims)|)
  }

  function Release(s: State, n: nat, grant: set<ClaimId>): State
    requires GrantOk(s, n, grant)
  {
    s.(sh := s.sh.(permits := s.sh.permits + n - |grant|), claims := Grant(s.claims, grant))
  }

  function Without(s: State, c: ClaimId): State {
    s.(claims := s.claims - {c})
  }

  function Moved(place: map<Session, Place>, ids: set<Session>, to: Place): map<Session, Place> {
    place + map id | id in ids :: to
  }

  function SetOf(ids: seq<Session>): set<Session> {
    set id | id in ids
  }

  /** A claimer that has just got its slot runs on to a warm hit or to its launch. */
  function Proceed(s: State, c: ClaimId, plain: bool, alive: set<Session>): State {
    if !plain then
      s.(claims := s.claims[c := Claim(plain, Launching)])
    else
      var t := TakeWarm(s.sh.warm, alive);
      var s1 := s.(
        sh := s.sh.(warm := t.rest),
        background := s.background + SetOf(t.dead),
        place := Moved(s.place, SetOf(t.dead), InBackground));
      match t.found
      case None => s1.(claims := s1.claims[c := Claim(plain, Launching)])
      case Some(id) => HandOut(s1, c, plain, id)
  }

  function HandOut(s: State, c: ClaimId, plain: bool, id: Session): State {
    s.(claims := s.claims[c := Claim(plain, Holding(id))],
       place := s.place[id := InClaim(c)],
       handed := s.handed + [id])
  }

  predicate Enabled(o: Options, s: State, e: Event) {
    match e
    case Arrive(c, _, _) => c !in s.claims
    case Poll(c, _) => c in s.claims && s.claims[c].phase.Granted? && !s.sh.closed && s.sh.waiting > 0
    case LeaveQueue(c) => c in s.claims && s.claims[c].phase.Queued? && s.sh.waiting > 0
    case LeaveGranted(c, g) =>
      c in s.claims && s.claims[c].phase.Granted? && s.sh.waiting > 0 && GrantOk(Without(s, c), 1, g)
    case Launched(c) => c in s.claims && s.claims[c].phase.Launching?
    case LaunchFailed(c, g) => c in s.claims && s.claims[c].phase.Launching? && GrantOk(Without(s, c), 1, g)
    case AbandonLaunch(c) => c in s.claims && s.claims[c].phase.Launching?
    case Destroy(c) => c in s.claims && s.claims[c].phase.Holding?
    case DestroyDone(c, g) => c in s.claims && s.claims[c].phase.Releasing? && GrantOk(Without(s, c), 1, g)
    case BackgroundDone(id) => id in s.background
    case Close => true
    case Resize(target, g) => GrantOk(s, SaturatingSub(Max(target, 1), s.sh.maxSessions), g)
    case RepTop(_, _) => s.rep.Top?
    case RepDestroyOne => s.rep.Culling? && s.rep.pending != []
    case RepDecide => s.rep.Culling? && s.rep.pending == []
    case RepLaunched(_) => s.rep.Creating? && s.sh.launching > 0
    case RepLaunchFailed => s.rep.Creating? && s.sh.launching > 0
    case RepDiscarded => s.rep.Discarding?
  }

  function Step(o: Options, s: State, e: Event): State
    requires Enabled(o, s, e)
  {
    match e
    case Arrive(c, plain, alive) =>
      var s1 := s.(sh := AdmitShared(o, s.sh));
      (match Admit(o, s.sh)
       case GotSlot => Proceed(s1, c, plain, alive)
       case Enqueued => s1.(claims := s.claims[c := Claim(plain, Queued)])
       case _ => s)
    case Poll(c, alive) =>
      Proceed(s.(sh := s.sh.(waiting := s.sh.waiting - 1)), c, s.claims[c].plain, alive)
    case LeaveQueue(c) =>
      Without(s.(sh := s.sh.(waiting := s.sh.waiting - 1)), c)
    case LeaveGranted(c, g) =>
      var s1 := Release(Without(s, c), 1, g);
      s1.(sh := s1.sh.(waiting := s1.sh.waiting - 1))
    case Launched(c) =>
      HandOut(s.(created := s.created + 1), c, s.claims[c].plain, s.created)
    case LaunchFailed(c, g) => Release(Without(s, c), 1, g)
    case AbandonLaunch(c) => Without(s, c).(abandoned := s.abandoned + 1)
    case Destroy(c) =>
      s.(claims := s.claims[c := s.claims[c].(phase := Releasing(s.claims[c].phase.session))])
    case DestroyDone(c, g) =>
      var id := s.claims[c].phase.session;
      Release(Without(s, c), 1, g).(
        destroyed := s.destroyed + [id], place := s.place[id := Gone])
    case BackgroundDone(id) =>
      s.(background := s.background - {id}, destroyed := s.destroyed + [id], place := s.place[id := Gone])
    case Close =>
      var ids := SetOf(Ids(s.sh.warm));
      s.(sh := CloseShared(s.sh),
         background := s.background + ids,
         place := Moved(s.place, ids, InBackground))
    case Resize(target, g) =>
      var sh := s.sh.(
        maxSessions := Max(target, 1),
        permits := SaturatingSub(s.sh.permits, SaturatingSub(s.sh.maxSessions, Max(target, 1))));
      Release(s.(sh := sh, owed := s.owed + Shortfall(s.sh, target)),
              SaturatingSub(Max(target, 1), s.sh.maxSessions), g)
    case RepTop(alive, now) =>
      if s.sh.closed then s.(rep := Stopped)
      else
        var c := Cull(o, s.sh.warm, alive, now);
        s.(sh := s.sh.(warm := c.kept),
           rep := Culling(c.removed),
           place := Moved(s.place, SetOf(c.removed), AtReplenisher))
    case RepDestroyOne =>
      var id := s.rep.pending[0];
      s.(rep := Culling(s.rep.pending[1..]),
         destroyed := s.destroyed + [id],
         place := s.place[id := Gone])
    case RepDecide =>
      if Wanted(o, s.sh) == 0 then s.(rep := Top)
      else s.(rep := Creating, sh := s.sh.(launching := s.sh.launching + 1))
    case RepLaunched(now) =>
      var id := s.created;
      var s1 := s.(created := id + 1, sh := s.sh.(launching := s.sh.launching - 1));
      if s.sh.closed then s1.(rep := Discarding(id), place := s.place[id := AtReplenisher])
      else s1.(rep := Top,
               sh := s1.sh.(warm := s.sh.warm + [Warm(id, now)]),
               place := s.place[id := InWarm])
    case RepLaunchFailed =>
      s.(rep := Top, sh := s.sh.(launching := s.sh.launching - 1))
    case RepDiscarded =>
      var id := s.rep.session;
      s.(rep := Stopped, destroyed := s.destroyed + [id], place := s.place[id := Gone])
  }

  /** A run from a fresh pool with ceiling `max`: every event was possible when it happened. */
  ghost predicate Feasible(o: Options, max: nat, run: seq<Event>)
    decreases |run|, 0
  {
    run == [] ||
    (Feasible(o, max, run[..|run| - 1]) &&
     Enabled(o, After(o, max, run[..|run| - 1]), run[|run| - 1]))
  }

  ghost function After(o: Options, max: nat, run: seq<Event>): State
    requires Feasible(o, max, run)
    decreases |run|, 1
  {
    if run == [] then Init(max)
    else Step(o, After(o, max, run[..|run| - 1]), run[|run| - 1])
  }
}
