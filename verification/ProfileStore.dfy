/**
 The profile hand-off store (src/server/profiles.rs): a token map whose entries expire but are only
 swept when some calls touch the map.  `IdealOp` describes the store it stands for, in which an entry
 disappears the moment it expires; the two give the same answers in every run in which no deposit
 comes a day or more after its claim.
 */
module ProfileStore {
  import opened Prelude

  type Token = nat
  type Payload = Bytes

  // Milliseconds.
  const PROFILE_TTL: nat := 120_000
  const IN_FLIGHT_MAX_AGE: nat := 86_400_000
  const MAX_PENDING: nat := 256

  datatype Slot = Pending(payload: Payload) | InFlight | Ready(payload: Payload)

  datatype Entry = Entry(slot: Slot, at: nat)

  type Entries = map<Token, Entry>

  datatype Config = Config(ttl: nat, maxPending: nat)

  function Limit(cfg: Config, slot: Slot): nat {
    if slot.InFlight? then IN_FLIGHT_MAX_AGE else cfg.ttl
  }

  predicate Expired(cfg: Config, e: Entry, now: nat) {
    SaturatingSub(now, e.at) >= Limit(cfg, e.slot)
  }

  function Sweep(cfg: Config, m: Entries, now: nat): Entries {
    map t | t in m && !Expired(cfg, m[t], now) :: m[t]
  }

  // ---------------------------------------------------------------- one call

  datatype Op =
    | DropOff(payload: Payload, minted: Option<Token>)   // `minted` is what the random source gave
    | Claim(token: Token)
    | Deposit(token: Token, payload: Payload)
    | PickUp(token: Token)
    | Finish(token: Token)

  datatype Answer = Dropped(token: Option<Token>) | Profile(payload: Option<Payload>) | Done

  function LazyOp(cfg: Config, m: Entries, op: Op, now: nat): (Entries, Answer) {
    match op
    case DropOff(payload, minted) =>
      var s := Sweep(cfg, m, now);
      if |s| >= cfg.maxPending || minted.None? then (s, Dropped(None))
      else (s[minted.value := Entry(Pending(payload), now)], Dropped(minted))
    case Claim(t) =>
      var s := Sweep(cfg, m, now);
      if t in s && s[t].slot.Pending? then
        (s[t := Entry(InFlight, now)], Profile(Some(s[t].slot.payload)))
      else (s, Profile(None))
    case Deposit(t, payload) =>
      if t in m && m[t].slot.InFlight? then (m[t := Entry(Ready(payload), now)], Done) else (m, Done)
    case PickUp(t) =>
      var s := Sweep(cfg, m, now);
      if t in s && s[t].slot.Ready? then (s - {t}, Profile(Some(s[t].slot.payload)))
      else (s, Profile(None))
    case Finish(t) =>
      if t in m && m[t].slot.InFlight? then (m - {t}, Done) else (m, Done)
  }

  class Store {
    const cfg: Config
    var entries: Entries

    constructor (ttl: nat, maxPending: nat)
      ensures cfg == Config(ttl, maxPending) && entries == map[]
    {
      cfg := Config(ttl, maxPending);
      entries := map[];
    }

    /** `sweep`: walks the entries and keeps those within their limit. */
    method SweepEntries(now: nat)
      modifies this
      ensures entries == Sweep(cfg, old(entries), now)
    {
      var todo := entries.Keys;
      var kept: Entries := map[];
      while todo != {}
        invariant todo <= entries.Keys && entries == old(entries)
        invariant kept == map t | t in entries && t !in todo && !Expired(cfg, entries[t], now) :: entries[t]
        decreases |todo|
      {
        var t: Token :| t in todo;
        todo := todo - {t};
        if !Expired(cfg, entries[t], now) {
          kept := kept[t := entries[t]];
        }
      }
      entries := kept;
    }

    method DropOffProfile(payload: Payload, minted: Option<Token>, now: nat) returns (token: Option<Token>)
      modifies this
      ensures (entries, Dropped(token)) == LazyOp(cfg, old(entries), DropOff(payload, minted), now)
    {
      SweepEntries(now);
      if |entries| >= cfg.maxPending || minted.None? {
        return None;
      }
      entries := entries[minted.value := Entry(Pending(payload), now)];
      token := minted;
    }

    method ClaimProfile(token: Token, now: nat) returns (payload: Option<Payload>)
      modifies this
      ensures (entries, Profile(payload)) == LazyOp(cfg, old(entries), Claim(token), now)
    {
      SweepEntries(now);
      if token !in entries || !entries[token].slot.Pending? {
        return None;
      }
      payload := Some(entries[token].slot.payload);
      entries := entries[token := Entry(InFlight, now)];
    }

    method DepositResult(token: Token, payload: Payload, now: nat)
      modifies this
      ensures (entries, Done) == LazyOp(cfg, old(entries), Deposit(token, payload), now)
    {
      if token in entries && entries[token].slot.InFlight? {
        entries := entries[token := Entry(Ready(payload), now)];
      }
    }

    method PickUpProfile(token: Token, now: nat) returns (payload: Option<Payload>)
      modifies this
      ensures (entries, Profile(payload)) == LazyOp(cfg, old(entries), PickUp(token), now)
    {
      SweepEntries(now);
      if token !in entries || !entries[token].slot.Ready? {
        return None;
      }
      payload := Some(entries[token].slot.payload);
      entries := entries - {token};
    }

    method FinishWithoutResult(token: Token)
      modifies this
      ensures (entries, Done) == LazyOp(cfg, old(entries), Finish(token), 0)
    {
      if token in entries && entries[token].slot.InFlight? {
        entries := entries - {token};
      }
    }
  }

  // ---------------------------------------------------------------- each call, by its entry

  /** An entry is there until its age reaches its limit: a day in flight, and otherwise the store's own, two minutes. */
  lemma SweptIff(cfg: Config, m: Entries, t: Token, now: nat)
    ensures t in Sweep(cfg, m, now)
       <==> && t in m
            && var limit := if m[t].slot.InFlight? then 24 * 60 * 60 * 1000 else cfg.ttl;
               if now < m[t].at then limit > 0 else now - m[t].at < limit
    ensures t in Sweep(cfg, m, now) ==> Sweep(cfg, m, now)[t] == m[t]
    ensures PROFILE_TTL == 2 * 60 * 1000 && MAX_PENDING == 256
  {
  }

  /** A drop-off finds room while fewer than `maxPending` entries are there, whatever their state. */
  lemma DropOffIs(cfg: Config, m: Entries, payload: Payload, minted: Option<Token>, now: nat)
    ensures var s := Sweep(cfg, m, now);
            LazyOp(cfg, m, DropOff(payload, minted), now)
            == if |s| < cfg.maxPending && minted.Some?
               then (s[minted.value := Entry(Pending(payload), now)], Dropped(minted)) else (s, Dropped(None))
  {
  }

  /** A claim is given a pending profile, once; a pick-up a ready one, once. */
  lemma HandedOutOnce(cfg: Config, m: Entries, t: Token, payload: Payload, now: nat)
    ensures var (m', a) := LazyOp(cfg, m, Claim(t), now);
            && (a == Profile(Some(payload)) <==> t in Sweep(cfg, m, now) && m[t].slot == Pending(payload))
            && (a != Profile(None) ==> t in m' && m'[t] == Entry(InFlight, now))
    ensures var (m', a) := LazyOp(cfg, m, PickUp(t), now);
            && (a == Profile(Some(payload)) <==> t in Sweep(cfg, m, now) && m[t].slot == Ready(payload))
            && (a != Profile(None) ==> t !in m')
    ensures LazyOp(cfg, m, Claim(t), now).1.Profile? && LazyOp(cfg, m, PickUp(t), now).1.Profile?
    ensures forall x :: x != t && x in Sweep(cfg, m, now) ==>
              && x in LazyOp(cfg, m, Claim(t), now).0 && LazyOp(cfg, m, Claim(t), now).0[x] == m[x]
              && x in LazyOp(cfg, m, PickUp(t), now).0 && LazyOp(cfg, m, PickUp(t), now).0[x] == m[x]
  {
  }

  /** A deposit and a release touch an entry in flight, however old, and nothing else. */
  lemma OnlyInFlight(cfg: Config, m: Entries, t: Token, payload: Payload, now: nat)
    ensures var inFlight := t in m && m[t].slot == InFlight;
            && LazyOp(cfg, m, Deposit(t, payload), now).0
               == (if inFlight then m[t := Entry(Ready(payload), now)] else m)
            && LazyOp(cfg, m, Finish(t), now).0 == (if inFlight then m - {t} else m)
  {
  }

  // ---------------------------------------------------------------- the ideal store

  /** An entry and the instant at which it disappears. */
  datatype Timed = Timed(slot: Slot, until: nat)

  type Ideal = map<Token, Timed>

  /** What is left of the ideal store once the clock shows `now`. */
  function Present(m: Ideal, now: nat): Ideal {
    map t | t in m && now < m[t].until :: m[t]
  }

  function IdealOp(cfg: Config, ideal: Ideal, op: Op, now: nat): (Ideal, Answer) {
    var m := Present(ideal, now);
    match op
    case DropOff(payload, minted) =>
      if |m| >= cfg.maxPending || minted.None? then (m, Dropped(None))
      else (m[minted.value := Timed(Pending(payload), now + cfg.ttl)], Dropped(minted))
    case Claim(t) =>
      if t in m && m[t].slot.Pending? then
        (m[t := Timed(InFlight, now + IN_FLIGHT_MAX_AGE)], Profile(Some(m[t].slot.payload)))
      else (m, Profile(None))
    case Deposit(t, payload) =>
      if t in m && m[t].slot.InFlight? then (m[t := Timed(Ready(payload), now + cfg.ttl)], Done) else (m, Done)
    case PickUp(t) =>
      if t in m && m[t].slot.Ready? then (m - {t}, Profile(Some(m[t].slot.payload)))
      else (m, Profile(None))
    case Finish(t) =>
      if t in m && m[t].slot.InFlight? then (m - {t}, Done) else (m, Done)
  }

  // ---------------------------------------------------------------- refinement

  function View(cfg: Config, m: Entries): Ideal {
    map t | t in m :: Timed(m[t].slot, m[t].at + Limit(cfg, m[t].slot))
  }

  ghost predicate NotFromTheFuture(m: Entries, now: nat) {
    forall t :: t in m ==> m[t].at <= now
  }

  /** At time `now` the lazy map holds, besides expired leftovers, exactly the ideal store. */
  ghost predicate Refines(cfg: Config, m: Entries, ideal: Ideal, now: nat) {
    NotFromTheFuture(m, now) && Present(View(cfg, m), now) == Present(ideal, now)
  }

  /** A deposit that finds an in-flight entry past its day, which the ideal store has dropped. */
  predicate LateDeposit(cfg: Config, m: Entries, op: Op, now: nat) {
    op.Deposit? && op.token in m && m[op.token].slot.InFlight? && Expired(cfg, m[op.token], now)
  }

  lemma SweptIsPresent(cfg: Config, m: Entries, ideal: Ideal, now: nat)
    requires Refines(cfg, m, ideal, now)
    ensures var s := Sweep(cfg, m, now); var p := Present(ideal, now);
            && View(cfg, s) == p && s.Keys == p.Keys && |s| == |p|
            && (forall t :: t in s ==> s[t].slot == p[t].slot && s[t].at <= now)
  {
    var s := Sweep(cfg, m, now);
    assert View(cfg, s) == Present(View(cfg, m), now);
    assert s.Keys == View(cfg, s).Keys;
    assert |s.Keys| == |View(cfg, s).Keys|;
  }

  lemma LaterStillRefines(cfg: Config, m: Entries, ideal: Ideal, now: nat, later: nat)
    requires Refines(cfg, m, ideal, now) && now <= later
    ensures Refines(cfg, m, ideal, later)
  {
    assert Present(View(cfg, m), later) == Present(Present(View(cfg, m), now), later);
    assert Present(ideal, later) == Present(Present(ideal, now), later);
  }

  // The three calls that sweep first work on the ideal store's own entries.

  lemma DropOffRefines(cfg: Config, m: Entries, ideal: Ideal, payload: Payload, minted: Option<Token>, now: nat)
    requires Refines(cfg, m, ideal, now)
    ensures var op := DropOff(payload, minted);
            && LazyOp(cfg, m, op, now).1 == IdealOp(cfg, ideal, op, now).1
            && Refines(cfg, LazyOp(cfg, m, op, now).0, IdealOp(cfg, ideal, op, now).0, now)
  {
    SweptIsPresent(cfg, m, ideal, now);
    var s, p := Sweep(cfg, m, now), Present(ideal, now);
    if |s| >= cfg.maxPending || minted.None? {
      SameViewRefines(cfg, s, p, now);
    } else {
      SetRefines(cfg, s, p, minted.value, Entry(Pending(payload), now), now);
    }
  }

  lemma ClaimRefines(cfg: Config, m: Entries, ideal: Ideal, t: Token, now: nat)
    requires Refines(cfg, m, ideal, now)
    ensures && LazyOp(cfg, m, Claim(t), now).1 == IdealOp(cfg, ideal, Claim(t), now).1
            && Refines(cfg, LazyOp(cfg, m, Claim(t), now).0, IdealOp(cfg, ideal, Claim(t), now).0, now)
  {
    SweptIsPresent(cfg, m, ideal, now);
    var s, p := Sweep(cfg, m, now), Present(ideal, now);
    if t in s && s[t].slot.Pending? {
      SetRefines(cfg, s, p, t, Entry(InFlight, now), now);
    } else {
      SameViewRefines(cfg, s, p, now);
    }
  }

  lemma PickUpRefines(cfg: Config, m: Entries, ideal: Ideal, t: Token, now: nat)
    requires Refines(cfg, m, ideal, now)
    ensures && LazyOp(cfg, m, PickUp(t), now).1 == IdealOp(cfg, ideal, PickUp(t), now).1
            && Refines(cfg, LazyOp(cfg, m, PickUp(t), now).0, IdealOp(cfg, ideal, PickUp(t), now).0, now)
  {
    SweptIsPresent(cfg, m, ideal, now);
    var s, p := Sweep(cfg, m, now), Present(ideal, now);
    if t in s && s[t].slot.Ready? {
      ViewRemoved(cfg, s, t);
      SameViewRefines(cfg, s - {t}, p - {t}, now);
    } else {
      SameViewRefines(cfg, s, p, now);
    }
  }

  lemma SameViewRefines(cfg: Config, m: Entries, ideal: Ideal, now: nat)
    requires View(cfg, m) == ideal && NotFromTheFuture(m, now)
    ensures Refines(cfg, m, ideal, now)
  {
  }

  lemma SetRefines(cfg: Config, m: Entries, ideal: Ideal, t: Token, e: Entry, now: nat)
    requires View(cfg, m) == ideal && NotFromTheFuture(m, now) && e.at == now
    ensures Refines(cfg, m[t := e], ideal[t := Timed(e.slot, now + Limit(cfg, e.slot))], now)
  {
    ViewSet(cfg, m, t, e);
    SameViewRefines(cfg, m[t := e], ideal[t := Timed(e.slot, now + Limit(cfg, e.slot))], now);
  }

  lemma ViewSet(cfg: Config, m: Entries, t: Token, e: Entry)
    ensures View(cfg, m[t := e]) == View(cfg, m)[t := Timed(e.slot, e.at + Limit(cfg, e.slot))]
  {
  }

  lemma ViewRemoved(cfg: Config, m: Entries, t: Token)
    ensures View(cfg, m - {t}) == View(cfg, m) - {t}
  {
  }

  /** Changing a live entry, or removing one, is the same on the lazy map and on the ideal store. */
  lemma LiveEntrySet(cfg: Config, m: Entries, ideal: Ideal, t: Token, e: Entry, now: nat)
    requires Refines(cfg, m, ideal, now) && e.at == now
    ensures Refines(cfg, m[t := e], Present(ideal, now)[t := Timed(e.slot, now + Limit(cfg, e.slot))], now)
  {
    ViewSet(cfg, m, t, e);
    var v, timed := View(cfg, m), Timed(e.slot, now + Limit(cfg, e.slot));
    PresentSet(v, t, timed, now);
    PresentSet(Present(ideal, now), t, timed, now);
    PresentTwice(ideal, now);
  }

  lemma LiveEntryRemoved(cfg: Config, m: Entries, ideal: Ideal, t: Token, now: nat)
    requires Refines(cfg, m, ideal, now)
    ensures Refines(cfg, m - {t}, Present(ideal, now) - {t}, now)
  {
    ViewRemoved(cfg, m, t);
    PresentRemoved(View(cfg, m), t, now);
    PresentRemoved(Present(ideal, now), t, now);
    PresentTwice(ideal, now);
  }

  lemma PresentTwice(ideal: Ideal, now: nat)
    ensures Present(Present(ideal, now), now) == Present(ideal, now)
  {
  }

  lemma PresentSet(m: Ideal, t: Token, e: Timed, now: nat)
    ensures Present(m[t := e], now) == if now < e.until then Present(m, now)[t := e] else Present(m, now) - {t}
  {
  }

  lemma PresentRemoved(m: Ideal, t: Token, now: nat)
    ensures Present(m - {t}, now) == Present(m, now) - {t}
  {
  }

  lemma LiveIsPresent(cfg: Config, m: Entries, ideal: Ideal, t: Token, now: nat)
    requires Refines(cfg, m, ideal, now)
    ensures t in Present(ideal, now) <==> t in m && !Expired(cfg, m[t], now)
    ensures t in Present(ideal, now) ==> Present(ideal, now)[t].slot == m[t].slot
  {
    assert t in Present(View(cfg, m), now) <==> t in m && !Expired(cfg, m[t], now);
  }

  /** Removing an entry that has expired changes nothing anyone can see. */
  lemma ExpiredEntryRemoved(cfg: Config, m: Entries, ideal: Ideal, t: Token, now: nat)
    requires Refines(cfg, m, ideal, now) && t !in Present(ideal, now)
    ensures Refines(cfg, m - {t}, Present(ideal, now), now)
  {
    LiveEntryRemoved(cfg, m, ideal, t, now);
    assert Present(ideal, now) - {t} == Present(ideal, now);
  }

  /** A deposit or a finish changes the same live entry in both stores, or none in either. */
  lemma DirectOpRefines(cfg: Config, m: Entries, ideal: Ideal, op: Op, now: nat)
    requires Refines(cfg, m, ideal, now) && (op.Deposit? || op.Finish?) && !LateDeposit(cfg, m, op, now)
    ensures Refines(cfg, LazyOp(cfg, m, op, now).0, IdealOp(cfg, ideal, op, now).0, now)
  {
    var t := op.token;
    LiveIsPresent(cfg, m, ideal, t, now);
    PresentTwice(ideal, now);
    if t in m && m[t].slot.InFlight? {
      if op.Deposit? {
        LiveEntrySet(cfg, m, ideal, t, Entry(Ready(op.payload), now), now);
      } else if Expired(cfg, m[t], now) {
        ExpiredEntryRemoved(cfg, m, ideal, t, now);
      } else {
        LiveEntryRemoved(cfg, m, ideal, t, now);
      }
    }
  }

  /** Every call but a late deposit gives the ideal answer and keeps the correspondence. */
  lemma OpRefines(cfg: Config, m: Entries, ideal: Ideal, op: Op, now: nat)
    requires Refines(cfg, m, ideal, now) && !LateDeposit(cfg, m, op, now)
    ensures LazyOp(cfg, m, op, now).1 == IdealOp(cfg, ideal, op, now).1
    ensures Refines(cfg, LazyOp(cfg, m, op, now).0, IdealOp(cfg, ideal, op, now).0, now)
  {
    match op
    case DropOff(payload, minted) => DropOffRefines(cfg, m, ideal, payload, minted, now);
    case Claim(t) => ClaimRefines(cfg, m, ideal, t, now);
    case PickUp(t) => PickUpRefines(cfg, m, ideal, t, now);
    case _ => DirectOpRefines(cfg, m, ideal, op, now);
  }

  /** After a late deposit, and only then, the stores can be told apart at once (unless nothing lives). */
  lemma LateDepositShows(cfg: Config, m: Entries, ideal: Ideal, op: Op, now: nat)
    requires Refines(cfg, m, ideal, now) && op.Deposit? && cfg.ttl > 0
    ensures var m' := LazyOp(cfg, m, op, now).0;
            var i' := IdealOp(cfg, ideal, op, now).0;
            LazyOp(cfg, m', PickUp(op.token), now).1 != IdealOp(cfg, i', PickUp(op.token), now).1
            <==> LateDeposit(cfg, m, op, now)
  {
    if !LateDeposit(cfg, m, op, now) {
      OpRefines(cfg, m, ideal, op, now);
      OpRefines(cfg, LazyOp(cfg, m, op, now).0, IdealOp(cfg, ideal, op, now).0, PickUp(op.token), now);
    } else {
      assert op.token !in Present(View(cfg, m), now);
      assert op.token !in Present(ideal, now);
    }
  }

  // ---------------------------------------------------------------- whole runs

  datatype Call = Call(op: Op, now: nat)

  ghost predicate ClockRuns(run: seq<Call>) {
    forall i, j :: 0 <= i <= j < |run| ==> run[i].now <= run[j].now
  }

  function LazyRun(cfg: Config, run: seq<Call>): (r: (Entries, seq<Answer>))
    ensures |r.1| == |run|
  {
    if run == [] then (map[], [])
    else
      var n := |run| - 1;
      var (m, answers) := LazyRun(cfg, run[..n]);
      var (m', a) := LazyOp(cfg, m, run[n].op, run[n].now);
      (m', answers + [a])
  }

  function IdealRun(cfg: Config, run: seq<Call>): (r: (Ideal, seq<Answer>))
    ensures |r.1| == |run|
  {
    if run == [] then (map[], [])
    else
      var n := |run| - 1;
      var (m, answers) := IdealRun(cfg, run[..n]);
      var (m', a) := IdealOp(cfg, m, run[n].op, run[n].now);
      (m', answers + [a])
  }

  /** Call `i` of the run is a claim of `t` that was given its profile. */
  ghost predicate Claimed(cfg: Config, run: seq<Call>, i: nat, t: Token) {
    i < |run| && run[i].op == Claim(t) && LazyRun(cfg, run).1[i] != Profile(None)
  }

  /** Every deposit comes less than a day after every earlier claim that was given the token's profile. */
  ghost predicate DepositsTimely(cfg: Config, run: seq<Call>) {
    forall i, j :: 0 <= i < j < |run| && run[j].op.Deposit? && Claimed(cfg, run, i, run[j].op.token)
                   ==> run[j].now < run[i].now + IN_FLIGHT_MAX_AGE
  }

  lemma ClaimedLonger(cfg: Config, run: seq<Call>, i: nat, t: Token)
    requires run != [] && i < |run| - 1
    ensures Claimed(cfg, run, i, t) <==> Claimed(cfg, run[..|run| - 1], i, t)
  {
  }

  lemma TimelyShorter(cfg: Config, run: seq<Call>)
    requires run != [] && DepositsTimely(cfg, run)
    ensures DepositsTimely(cfg, run[..|run| - 1])
  {
    var shorter := run[..|run| - 1];
    forall i, j | 0 <= i < j < |shorter| && shorter[j].op.Deposit? && Claimed(cfg, shorter, i, shorter[j].op.token)
      ensures shorter[j].now < shorter[i].now + IN_FLIGHT_MAX_AGE
    {
      ClaimedLonger(cfg, run, i, run[j].op.token);
    }
  }

  ghost predicate ClaimedAt(cfg: Config, run: seq<Call>, t: Token, at: nat) {
    exists i: nat :: Claimed(cfg, run, i, t) && run[i].now == at
  }

  lemma ClaimedAtLonger(cfg: Config, run: seq<Call>, t: Token, at: nat)
    requires run != [] && ClaimedAt(cfg, run[..|run| - 1], t, at)
    ensures ClaimedAt(cfg, run, t, at)
  {
    var n := |run| - 1;
    var i: nat :| Claimed(cfg, run[..n], i, t) && run[..n][i].now == at;
    ClaimedLonger(cfg, run, i, t);
    assert Claimed(cfg, run, i, t) && run[i].now == at;
  }

  lemma ClaimedAtLast(cfg: Config, run: seq<Call>, t: Token)
    requires run != [] && run[|run| - 1].op == Claim(t) && LazyRun(cfg, run).1[|run| - 1] != Profile(None)
    ensures ClaimedAt(cfg, run, t, run[|run| - 1].now)
  {
    assert Claimed(cfg, run, |run| - 1, t);
  }

  /** An in-flight entry carries the time of a claim that was given its token's profile. */
  lemma {:induction false} InFlightSinceClaim(cfg: Config, run: seq<Call>, t: Token)
    ensures var m := LazyRun(cfg, run).0;
            t in m && m[t].slot.InFlight? ==> ClaimedAt(cfg, run, t, m[t].at)
    decreases |run|
  {
    if run != [] {
      var n := |run| - 1;
      InFlightSinceClaim(cfg, run[..n], t);
      var before := LazyRun(cfg, run[..n]).0;
      var m := LazyRun(cfg, run).0;
      if t in m && m[t].slot.InFlight? {
        if t in before && before[t] == m[t] {
          ClaimedAtLonger(cfg, run, t, m[t].at);
        } else {
          ClaimedNow(cfg, before, run[n].op, t, run[n].now);
          ClaimedAtLast(cfg, run, t);
        }
      }
    }
  }

  lemma ClaimedNow(cfg: Config, m: Entries, op: Op, t: Token, now: nat)
    requires var m' := LazyOp(cfg, m, op, now).0;
             t in m' && m'[t].slot.InFlight? && !(t in m && m[t] == m'[t])
    ensures op == Claim(t) && LazyOp(cfg, m, op, now).1 != Profile(None)
    ensures LazyOp(cfg, m, op, now).0[t].at == now
  {
  }

  lemma TimelyIsNotLate(cfg: Config, run: seq<Call>)
    requires run != [] && DepositsTimely(cfg, run)
    ensures var n := |run| - 1;
            !LateDeposit(cfg, LazyRun(cfg, run[..n]).0, run[n].op, run[n].now)
  {
    var n := |run| - 1;
    var m := LazyRun(cfg, run[..n]).0;
    if run[n].op.Deposit? && run[n].op.token in m && m[run[n].op.token].slot.InFlight? {
      var t := run[n].op.token;
      InFlightSinceClaim(cfg, run[..n], t);
      var i: nat :| Claimed(cfg, run[..n], i, t) && run[..n][i].now == m[t].at;
      ClaimedLonger(cfg, run, i, t);
    }
  }

  /** No deposit of the run finds an in-flight entry past its day. */
  ghost predicate NoLateDeposit(cfg: Config, run: seq<Call>)
    decreases |run|
  {
    run == [] ||
    (var n := |run| - 1;
     NoLateDeposit(cfg, run[..n]) && !LateDeposit(cfg, LazyRun(cfg, run[..n]).0, run[n].op, run[n].now))
  }

  lemma EmptyRefines(cfg: Config, now: nat)
    ensures Refines(cfg, map[], map[], now)
  {
    assert Present(View(cfg, map[]), now) == map[] && Present(map[], now) == map[];
  }

  lemma NextRefines(cfg: Config, m: Entries, ideal: Ideal, before: nat, c: Call)
    requires Refines(cfg, m, ideal, before) && before <= c.now && !LateDeposit(cfg, m, c.op, c.now)
    ensures LazyOp(cfg, m, c.op, c.now).1 == IdealOp(cfg, ideal, c.op, c.now).1
    ensures Refines(cfg, LazyOp(cfg, m, c.op, c.now).0, IdealOp(cfg, ideal, c.op, c.now).0, c.now)
  {
    LaterStillRefines(cfg, m, ideal, before, c.now);
    OpRefines(cfg, m, ideal, c.op, c.now);
  }

  lemma {:induction false} RunRefines(cfg: Config, run: seq<Call>)
    requires ClockRuns(run) && NoLateDeposit(cfg, run)
    ensures LazyRun(cfg, run).1 == IdealRun(cfg, run).1
    ensures run != [] ==> Refines(cfg, LazyRun(cfg, run).0, IdealRun(cfg, run).0, run[|run| - 1].now)
    decreases |run|
  {
    if run != [] {
      var n := |run| - 1;
      RunRefines(cfg, run[..n]);
      if n == 0 {
        EmptyRefines(cfg, run[n].now);
      }
      NextRefines(cfg, LazyRun(cfg, run[..n]).0, IdealRun(cfg, run[..n]).0,
                  if n > 0 then run[n - 1].now else run[n].now, run[n]);
    }
  }

  /**
   The lazily swept store answers every call of every run like the store whose entries vanish the
   instant they expire, as long as no deposit finds an in-flight entry past its day.
   */
  lemma LazyStoreIsIdeal(cfg: Config, run: seq<Call>)
    requires ClockRuns(run) && NoLateDeposit(cfg, run)
    ensures LazyRun(cfg, run).1 == IdealRun(cfg, run).1
  {
    RunRefines(cfg, run);
  }

  lemma {:induction false} TimelyHasNoLate(cfg: Config, run: seq<Call>)
    requires DepositsTimely(cfg, run)
    ensures NoLateDeposit(cfg, run)
    decreases |run|
  {
    if run != [] {
      TimelyShorter(cfg, run);
      TimelyHasNoLate(cfg, run[..|run| - 1]);
      TimelyIsNotLate(cfg, run);
    }
  }

  /** In particular whenever each deposit comes less than a day after the claims given its profile. */
  lemma TimelyStoreIsIdeal(cfg: Config, run: seq<Call>)
    requires ClockRuns(run) && DepositsTimely(cfg, run)
    ensures LazyRun(cfg, run).1 == IdealRun(cfg, run).1
  {
    TimelyHasNoLate(cfg, run);
    LazyStoreIsIdeal(cfg, run);
  }

  lemma Snoc(cfg: Config, run: seq<Call>, c: Call)
    ensures var (m, a) := LazyRun(cfg, run); var (m', b) := LazyOp(cfg, m, c.op, c.now);
            LazyRun(cfg, run + [c]) == (m', a + [b])
    ensures var (m, a) := IdealRun(cfg, run); var (m', b) := IdealOp(cfg, m, c.op, c.now);
            IdealRun(cfg, run + [c]) == (m', a + [b])
  {
    assert (run + [c])[..|run|] == run;
  }

  /** A profile dropped off and claimed at time zero. */
  lemma ClaimedAtOnce(cfg: Config, payload: Payload) returns (run: seq<Call>)
    requires cfg.ttl > 0 && cfg.maxPending > 0
    ensures run == [Call(DropOff(payload, Some(0)), 0), Call(Claim(0), 0)]
    ensures LazyRun(cfg, run).0 == map[0 := Entry(InFlight, 0)]
  {
    var drop := Call(DropOff(payload, Some(0)), 0);
    Snoc(cfg, [], drop);
    assert [] + [drop] == [drop];
    var m := map[0 := Entry(Pending(payload), 0)];
    assert Sweep(cfg, map[], 0) == map[];
    assert LazyRun(cfg, [drop]).0 == m;
    assert Sweep(cfg, m, 0) == m;
    Snoc(cfg, [drop], Call(Claim(0), 0));
    run := [drop] + [Call(Claim(0), 0)];
  }

  /** The condition cannot be dropped: that deposit is picked up all the same. */
  lemma LateDepositDiverges(payload: Payload)
    ensures exists run: seq<Call> ::
              ClockRuns(run) && LazyRun(Config(PROFILE_TTL, MAX_PENDING), run).1
                             != IdealRun(Config(PROFILE_TTL, MAX_PENDING), run).1
  {
    var cfg := Config(PROFILE_TTL, MAX_PENDING);
    var late := IN_FLIGHT_MAX_AGE;
    var start := ClaimedAtOnce(cfg, payload);
    TimelyHasNoLate(cfg, start);
    RunRefines(cfg, start);
    LaterStillRefines(cfg, LazyRun(cfg, start).0, IdealRun(cfg, start).0, 0, late);
    var given := Call(Deposit(0, payload), late);
    var taken := Call(PickUp(0), late);
    TwoMoreDiffer(cfg, start, given.op, late);
    ClockSnoc(start, given);
    ClockSnoc(start + [given], taken);
  }

  lemma TwoMoreDiffer(cfg: Config, run: seq<Call>, op: Op, now: nat)
    requires Refines(cfg, LazyRun(cfg, run).0, IdealRun(cfg, run).0, now)
    requires op.Deposit? && cfg.ttl > 0 && LateDeposit(cfg, LazyRun(cfg, run).0, op, now)
    ensures var longer := run + [Call(op, now)] + [Call(PickUp(op.token), now)];
            LazyRun(cfg, longer).1 != IdealRun(cfg, longer).1
  {
    var given := run + [Call(op, now)];
    Snoc(cfg, run, Call(op, now));
    Snoc(cfg, given, Call(PickUp(op.token), now));
    LateDepositShows(cfg, LazyRun(cfg, run).0, IdealRun(cfg, run).0, op, now);
    var longer := given + [Call(PickUp(op.token), now)];
    assert LazyRun(cfg, longer).1[|given|] != IdealRun(cfg, longer).1[|given|];
  }

  lemma ClockSnoc(run: seq<Call>, c: Call)
    requires ClockRuns(run) && (run != [] ==> run[|run| - 1].now <= c.now)
    ensures ClockRuns(run + [c])
  {
  }
}
