/**
 Admission reporting (src/server/http.rs) beside the admission itself (src/server/ws.rs and the
 pool): what `/pressure` and `/ready` report of one snapshot, and what a plain, authorised session
 request would be answered in the same snapshot.
 */
module Admission {
  import opened Prelude
  import opened PoolModel
  import PoolCounting
  import PoolBounds

  // ---------------------------------------------------------------- the snapshot

  /** A floating-point gauge; comparisons with a missing number are false. */
  datatype Gauge = NaN | Num(value: real)

  predicate Above(a: Gauge, b: Gauge) {
    a.Num? && b.Num? && a.value > b.value
  }

  datatype ThreadUsage = ThreadUsage(current: nat, max: nat)

  const SESSION_THREAD_RESERVE: nat := 160

  predicate FitsASession(t: ThreadUsage) {
    SaturatingSub(t.max, t.current) >= SESSION_THREAD_RESERVE
  }

  /** What the server reads; `singleUse` is the spent flag when the mode is on. */
  datatype Server = Server(
    sandboxMissing: bool,
    singleUse: Option<bool>,
    calibrating: bool,
    cpu: Gauge, memory: Gauge, maxCpu: Gauge, maxMemory: Gauge,
    threads: Option<ThreadUsage>)

  predicate IsSpent(v: Server) {
    v.singleUse == Some(true)
  }

  // ---------------------------------------------------------------- the report

  datatype Gate = Open | SandboxBlocked | Spent | Draining | Calibrating

  datatype PressureInputs = PressureInputs(
    gate: Gate, running: nat, maxSessions: nat, queued: nat, maxQueue: nat,
    cpu: Gauge, memory: Gauge, maxCpu: Gauge, maxMemory: Gauge, threads: Option<ThreadUsage>)

  function GateOf(v: Server, accepting: bool): Gate {
    if v.sandboxMissing then SandboxBlocked
    else if IsSpent(v) then Spent
    else if !accepting then Draining
    else if v.calibrating then Calibrating
    else Open
  }

  function UnavailableReason(i: PressureInputs): string {
    match i.gate
    case SandboxBlocked => "sandbox"
    case Spent => "spent"
    case Draining => "draining"
    case Calibrating => "calibrating"
    case Open =>
      if i.threads.Some? && !FitsASession(i.threads.value) then "threads"
      else if i.running >= i.maxSessions && i.queued >= i.maxQueue then "full"
      else if Above(i.cpu, i.maxCpu) then "cpu"
      else if Above(i.memory, i.maxMemory) then "memory"
      else ""
  }

  function PressureReason(o: Options, sh: Shared, v: Server): string {
    var stats := StatsOf(o, sh);
    UnavailableReason(PressureInputs(
      GateOf(v, stats.accepting), stats.running, stats.maxSessions, stats.queued, stats.maxQueue,
      v.cpu, v.memory, v.maxCpu, v.maxMemory, v.threads))
  }

  function Ready(o: Options, sh: Shared, v: Server): bool {
    var stats := StatsOf(o, sh);
    && !v.calibrating && !IsSpent(v) && !v.sandboxMissing && stats.accepting
    && (stats.warm > 0 || stats.running < stats.maxSessions)
  }

  // ---------------------------------------------------------------- the answer

  /** What the handler does with the request: its own checks in their order, then the pool's. */
  datatype Answer =
    CpuPressure | MemoryPressure | ThreadLimit | StillCalibrating | AlreadySpent | FromPool(pool: PoolModel.Admission)

  function Handle(o: Options, sh: Shared, v: Server): Answer {
    if Above(v.cpu, v.maxCpu) then CpuPressure
    else if Above(v.memory, v.maxMemory) then MemoryPressure
    else if v.threads.Some? && !FitsASession(v.threads.value) then ThreadLimit
    else if v.calibrating then StillCalibrating
    else if IsSpent(v) then AlreadySpent
    else FromPool(Admit(o, sh))
  }

  /** Not refused at once: a slot, or a place in the queue. */
  predicate Accepted(a: Answer) {
    a == FromPool(GotSlot) || a == FromPool(Enqueued)
  }

  // ---------------------------------------------------------------- the pool's part

  /** A pool with a ceiling of zero never had it lowered, since every new ceiling is at least one. */
  lemma {:induction false} ZeroCeiling(o: Options, max: nat, run: seq<Event>)
    requires Feasible(o, max, run) && After(o, max, run).sh.maxSessions == 0
    ensures After(o, max, run).sh.permits == 0
    decreases |run|
  {
    NoZeroDebt(o, max, run);
    PoolCounting.Reachable(o, max, run);
  }

  lemma {:induction false} NoZeroDebt(o: Options, max: nat, run: seq<Event>)
    requires Feasible(o, max, run)
    ensures After(o, max, run).sh.maxSessions == 0 ==> After(o, max, run).owed == 0
    decreases |run|
  {
    if run != [] {
      var n := |run| - 1;
      NoZeroDebt(o, max, run[..n]);
      StepCeiling(o, After(o, max, run[..n]), run[n]);
    }
  }

  lemma StepCeiling(o: Options, s: State, e: Event)
    requires Enabled(o, s, e)
    ensures var r := Step(o, s, e);
            if e.Resize? then r.sh.maxSessions > 0 else r.sh.maxSessions == s.sh.maxSessions && r.owed == s.owed
  {
  }

  /** The two counters of the report read as full exactly when the pool would refuse at once. */
  lemma FullIffQueueFull(o: Options, max: nat, run: seq<Event>)
    requires Feasible(o, max, run) && !After(o, max, run).sh.closed
    ensures var sh := After(o, max, run).sh;
            var stats := StatsOf(o, sh);
            (stats.running >= stats.maxSessions && stats.queued >= stats.maxQueue) <==> Admit(o, sh) == QueueFull
  {
    if After(o, max, run).sh.maxSessions == 0 {
      ZeroCeiling(o, max, run);
    }
  }

  // ---------------------------------------------------------------- report and answer agree

  /** One thing that stands in the way of a session, as both sides may name it. */
  datatype Cause =
    SandboxCause | CpuCause | MemoryCause | ThreadsCause | CalibratingCause | SpentCause | ClosedCause | FullCause

  predicate Stands(o: Options, sh: Shared, v: Server, c: Cause) {
    match c
    case SandboxCause => v.sandboxMissing
    case CpuCause => Above(v.cpu, v.maxCpu)
    case MemoryCause => Above(v.memory, v.maxMemory)
    case ThreadsCause => v.threads.Some? && !FitsASession(v.threads.value)
    case CalibratingCause => v.calibrating
    case SpentCause => IsSpent(v)
    case ClosedCause => Admit(o, sh) == Closed
    case FullCause => Admit(o, sh) == QueueFull
  }

  function Reported(reason: string): Option<Cause> {
    if reason == "sandbox" then Some(SandboxCause)
    else if reason == "spent" then Some(SpentCause)
    else if reason == "draining" then Some(ClosedCause)
    else if reason == "calibrating" then Some(CalibratingCause)
    else if reason == "threads" then Some(ThreadsCause)
    else if reason == "full" then Some(FullCause)
    else if reason == "cpu" then Some(CpuCause)
    else if reason == "memory" then Some(MemoryCause)
    else None
  }

  function Refused(a: Answer): Option<Cause> {
    match a
    case CpuPressure => Some(CpuCause)
    case MemoryPressure => Some(MemoryCause)
    case ThreadLimit => Some(ThreadsCause)
    case StillCalibrating => Some(CalibratingCause)
    case AlreadySpent => Some(SpentCause)
    case FromPool(Closed) => Some(ClosedCause)
    case FromPool(QueueFull) => Some(FullCause)
    case _ => None
  }

  lemma ReasonTexts()
    ensures Reported("sandbox") == Some(SandboxCause) && Reported("spent") == Some(SpentCause)
    ensures Reported("draining") == Some(ClosedCause) && Reported("calibrating") == Some(CalibratingCause)
    ensures Reported("threads") == Some(ThreadsCause) && Reported("full") == Some(FullCause)
    ensures Reported("cpu") == Some(CpuCause) && Reported("memory") == Some(MemoryCause)
    ensures Reported("") == None
  {
  }

  /**
   In every reachable pool state, whatever the server's gauges: the report is empty exactly when the
   sandbox gate is down and the handler would not refuse at once.
   */
  lemma AvailableIff(o: Options, max: nat, run: seq<Event>, v: Server)
    requires Feasible(o, max, run)
    ensures var sh := After(o, max, run).sh;
            PressureReason(o, sh, v) == "" <==> !v.sandboxMissing && Accepted(Handle(o, sh, v))
  {
    if !After(o, max, run).sh.closed {
      FullIffQueueFull(o, max, run);
    }
  }

  /**
   Report and answer name causes in different orders, but each names one that stands, and each names
   one whenever any does; the sandbox gate alone is reported and not checked by the handler.
   */
  lemma CausesAgree(o: Options, max: nat, run: seq<Event>, v: Server, c: Cause)
    requires Feasible(o, max, run)
    ensures var sh := After(o, max, run).sh;
            var reported := Reported(PressureReason(o, sh, v));
            var refused := Refused(Handle(o, sh, v));
            && (reported.Some? ==> Stands(o, sh, v, reported.value))
            && (refused.Some? ==> Stands(o, sh, v, refused.value))
            && (Stands(o, sh, v, c) ==> reported.Some? && (c != SandboxCause ==> refused.Some?))
  {
    ReasonTexts();
    if !After(o, max, run).sh.closed {
      FullIffQueueFull(o, max, run);
    }
  }

  // ---------------------------------------------------------------- readiness

  /** Ready, and yet the pool gives no slot at once, exactly when every slot is taken but stock is left. */
  lemma ReadyWithoutSlotIff(o: Options, max: nat, run: seq<Event>, v: Server)
    requires Feasible(o, max, run)
    ensures var sh := After(o, max, run).sh;
            Ready(o, sh, v) && Admit(o, sh) != GotSlot
            <==> Ready(o, sh, v) && StatsOf(o, sh).running == StatsOf(o, sh).maxSessions && sh.warm != []
  {
    if After(o, max, run).sh.maxSessions == 0 {
      ZeroCeiling(o, max, run);
    }
  }

  /** It does happen: dedicated launches take every slot beside a warm session, and nobody may queue. */
  lemma ReadyYetRefused(o: Options, max: nat, v: Server)
    requires o.maxQueue == 0 && o.minReady > 0 && o.warmMaxAge > 0 && max > 0
    requires !v.calibrating && !IsSpent(v) && !v.sandboxMissing
    ensures exists run: seq<Event> ::
              && Feasible(o, max, run)
              && Ready(o, After(o, max, run).sh, v) && Admit(o, After(o, max, run).sh) == QueueFull
  {
    var stocked := PoolBounds.Filled(o, max, false, 1);
    var r := PoolBounds.Arrivals(o, max, false, stocked, max);
    assert Ready(o, r.sh, v) && Admit(o, r.sh) == QueueFull;
  }

  // ---------------------------------------------------------------- the order of the tests

  /** Fewer than 160 threads are left under the limit. */
  predicate FewThreads(v: Server) {
    v.threads.Some? && v.threads.value.max < v.threads.value.current + 160
  }

  /** Both gauges are numbers, and the first is the greater. */
  predicate Exceeds(a: Gauge, b: Gauge) {
    a != NaN && b != NaN && b.value < a.value
  }

  /** No slot is free and the queue is full, by the pool's own fields. */
  predicate IsFull(o: Options, sh: Shared) {
    (sh.permits == 0 || sh.maxSessions == 0) && sh.waiting >= o.maxQueue
  }

  /** The reported reason is the first that holds, in this order. */
  lemma ReasonIs(o: Options, sh: Shared, v: Server)
    ensures PressureReason(o, sh, v)
         == if v.sandboxMissing then "sandbox"
            else if v.singleUse == Some(true) then "spent"
            else if sh.closed then "draining"
            else if v.calibrating then "calibrating"
            else if FewThreads(v) then "threads"
            else if IsFull(o, sh) then "full"
            else if Exceeds(v.cpu, v.maxCpu) then "cpu"
            else if Exceeds(v.memory, v.maxMemory) then "memory"
            else ""
  {
  }

  /** The handler's answer is the first that applies, in its own order; the pool comes last. */
  lemma AnswerIs(o: Options, sh: Shared, v: Server)
    ensures Handle(o, sh, v)
         == if Exceeds(v.cpu, v.maxCpu) then CpuPressure
            else if Exceeds(v.memory, v.maxMemory) then MemoryPressure
            else if FewThreads(v) then ThreadLimit
            else if v.calibrating then StillCalibrating
            else if v.singleUse == Some(true) then AlreadySpent
            else if sh.closed then FromPool(Closed)
            else if sh.permits > 0 then FromPool(GotSlot)
            else if sh.waiting < o.maxQueue then FromPool(Enqueued)
            else FromPool(QueueFull)
  {
  }

  /** Ready: nothing stands in the way of every session, and there is stock or a slot. */
  lemma ReadyIs(o: Options, sh: Shared, v: Server)
    ensures Ready(o, sh, v)
       <==> && !v.calibrating && v.singleUse != Some(true) && !v.sandboxMissing && !sh.closed
            && (sh.warm != [] || (sh.permits > 0 && sh.maxSessions > 0))
  {
  }

  /** The numbers that are reported, by the pool's own fields. */
  lemma StatsAre(o: Options, sh: Shared)
    ensures var r := StatsOf(o, sh);
            && r.running == (if sh.closed || sh.maxSessions <= sh.permits then 0 else sh.maxSessions - sh.permits)
            && r.queued == (if sh.waiting < o.maxQueue then sh.waiting else o.maxQueue)
            && r.warm == |sh.warm| && r.maxSessions == sh.maxSessions && r.maxQueue == o.maxQueue
            && (r.accepting <==> !sh.closed)
  {
  }
}
