/**
 What single events of the pool do (src/pool.rs), said by index and by field: which session a claimer is
 given, what becomes of the ones it passes over, what the culler takes, and how a slot goes round.
 */
module PoolSteps {
  import opened Prelude
  import opened PoolModel
  import opened PoolCounting
  import opened PoolPlaces

  // ---------------------------------------------------------------- a claimer that gets its slot

  /** The claimer `c` comes to its slot with this event: it finds one free, or is polled with its permit. */
  predicate GetsSlot(s: State, e: Event, c: ClaimId, plain: bool, alive: set<Session>) {
    || (e == Arrive(c, plain, alive) && c !in s.claims && !s.sh.closed && s.sh.permits > 0)
    || (e == Poll(c, alive) && c in s.claims && s.claims[c] == Claim(plain, Granted)
        && !s.sh.closed && s.sh.waiting > 0)
  }

  /** `k` is the number of dead sessions at the front of the deque. */
  ghost predicate DeadInFront(warm: seq<Warm>, alive: set<Session>, k: nat) {
    && k <= |warm|
    && (forall i :: 0 <= i < k ==> warm[i].session !in alive)
    && (k < |warm| ==> warm[k].session in alive)
  }

  lemma DeadCounted(warm: seq<Warm>, alive: set<Session>, k: nat)
    requires DeadInFront(warm, alive, k)
    ensures var t := TakeWarm(warm, alive);
            && t.dead == Ids(warm[..k])
            && t.found == (if k < |warm| then Some(warm[k].session) else None)
            && t.rest == (if k < |warm| then warm[k + 1..] else [])
  {
    TakeWarmSplits(warm, alive);
    var t := TakeWarm(warm, alive);
    assert t.found.Some? ==> !(|t.dead| < k);
    assert |t.dead| == k;
  }

  lemma FrontSet(warm: seq<Warm>, k: nat, id: Session)
    requires k <= |warm|
    ensures id in SetOf(Ids(warm[..k])) <==> exists i :: 0 <= i < k && warm[i].session == id
  {
    if id in SetOf(Ids(warm[..k])) {
      var i :| 0 <= i < k && Ids(warm[..k])[i] == id;
      assert warm[i].session == id;
    }
    if exists i :: 0 <= i < k && warm[i].session == id {
      var i :| 0 <= i < k && warm[i].session == id;
      assert Ids(warm[..k])[i] == id;
    }
  }

  /**
   A plain claimer with a slot is given the first live warm session, and that one only; the dead ones
   before it go to the background, the ones behind it stay.
   */
  lemma WarmHit(o: Options, s: State, e: Event, c: ClaimId, alive: set<Session>, k: nat)
    requires GetsSlot(s, e, c, true, alive) && DeadInFront(s.sh.warm, alive, k) && k < |s.sh.warm|
    ensures Enabled(o, s, e)
    ensures var r := Step(o, s, e);
            && r.claims == s.claims[c := Claim(true, Holding(s.sh.warm[k].session))]
            && r.handed == s.handed + [s.sh.warm[k].session]
            && r.sh.warm == s.sh.warm[k + 1..]
            && (forall id :: id in r.background <==>
                  id in s.background || exists i :: 0 <= i < k && s.sh.warm[i].session == id)
            && r.created == s.created && r.destroyed == s.destroyed && r.rep == s.rep
  {
    DeadCounted(s.sh.warm, alive, k);
    forall id ensures id in SetOf(Ids(s.sh.warm[..k])) <==> exists i :: 0 <= i < k && s.sh.warm[i].session == id {
      FrontSet(s.sh.warm, k, id);
    }
  }

  /** With no live one there, it empties the deque into the background and launches its own. */
  lemma WarmMiss(o: Options, s: State, e: Event, c: ClaimId, alive: set<Session>)
    requires GetsSlot(s, e, c, true, alive) && DeadInFront(s.sh.warm, alive, |s.sh.warm|)
    ensures Enabled(o, s, e)
    ensures var r := Step(o, s, e);
            && r.claims == s.claims[c := Claim(true, Launching)]
            && r.handed == s.handed && r.sh.warm == []
            && (forall id :: id in r.background <==>
                  id in s.background || exists i :: 0 <= i < |s.sh.warm| && s.sh.warm[i].session == id)
            && r.created == s.created && r.destroyed == s.destroyed && r.rep == s.rep
  {
    DeadCounted(s.sh.warm, alive, |s.sh.warm|);
    forall id
      ensures id in SetOf(Ids(s.sh.warm[..|s.sh.warm|]))
         <==> exists i :: 0 <= i < |s.sh.warm| && s.sh.warm[i].session == id
    {
      FrontSet(s.sh.warm, |s.sh.warm|, id);
    }
  }

  /** A dedicated claimer leaves the stock alone and launches. */
  lemma DedicatedLaunch(o: Options, s: State, e: Event, c: ClaimId, alive: set<Session>)
    requires GetsSlot(s, e, c, false, alive)
    ensures Enabled(o, s, e)
    ensures var r := Step(o, s, e);
            && r.claims == s.claims[c := Claim(false, Launching)]
            && r.handed == s.handed && r.sh.warm == s.sh.warm && r.background == s.background
            && r.created == s.created && r.destroyed == s.destroyed && r.rep == s.rep
  {
  }

  /** What an arrival is answered, in every state, and which counter it moves. */
  lemma ArrivalAnswered(o: Options, s: State, c: ClaimId, plain: bool, alive: set<Session>)
    requires c !in s.claims
    ensures var r := Step(o, s, Arrive(c, plain, alive));
            && (s.sh.closed ==> r == s)
            && (!s.sh.closed && s.sh.permits > 0 ==>
                  && r.sh.permits == s.sh.permits - 1 && r.sh.waiting == s.sh.waiting
                  && c in r.claims && r.claims[c].HasSlot())
            && (!s.sh.closed && s.sh.permits == 0 && s.sh.waiting >= o.maxQueue ==> r == s)
            && (!s.sh.closed && s.sh.permits == 0 && s.sh.waiting < o.maxQueue ==>
                  r == s.(claims := s.claims[c := Claim(plain, Queued)], sh := s.sh.(waiting := s.sh.waiting + 1)))
  {
  }

  // ---------------------------------------------------------------- the life of a claim

  /** A launch that succeeds hands its session to the claimer; nobody else's is touched. */
  lemma LaunchIsHandedOut(o: Options, s: State, c: ClaimId)
    requires c in s.claims && s.claims[c].phase == Launching
    ensures Enabled(o, s, Launched(c))
    ensures var r := Step(o, s, Launched(c));
            && r.claims == s.claims[c := Claim(s.claims[c].plain, Holding(s.created))]
            && r.created == s.created + 1 && r.handed == s.handed + [s.created]
            && r.sh == s.sh && r.background == s.background && r.destroyed == s.destroyed && r.rep == s.rep
  {
  }

  /** A claim that is given up keeps its slot until its session is destroyed. */
  lemma DestroyKeepsSlot(o: Options, s: State, c: ClaimId, id: Session)
    requires c in s.claims && s.claims[c].phase == Holding(id)
    ensures Enabled(o, s, Destroy(c))
    ensures var r := Step(o, s, Destroy(c));
            && r == s.(claims := s.claims[c := Claim(s.claims[c].plain, Releasing(id))])
            && r.claims[c].HasSlot()
  {
  }

  /** The events with which a claimer gives its slot back. */
  predicate GivesBack(e: Event) {
    e.LaunchFailed? || e.DestroyDone? || e.LeaveGranted?
  }

  function GrantOf(e: Event): set<ClaimId>
    requires GivesBack(e)
  {
    match e
    case LaunchFailed(_, g) => g
    case DestroyDone(_, g) => g
    case LeaveGranted(_, g) => g
  }

  /** Exactly one waiting claimer, the member of `g`, now has a permit. */
  ghost predicate OneGranted(s: State, r: State, g: set<ClaimId>) {
    exists w :: w in WaitingClaims(s.claims) && g == {w} && w in r.claims
                && r.claims[w] == Claim(s.claims[w].plain, Granted)
  }

  /**
   A slot given back ends its claim; on an open pool it goes to exactly one waiting claimer if there is
   one, and is free otherwise.  Only a finished destroy enters the log, with its own session.
   */
  lemma SlotGoesOn(o: Options, s: State, e: Event)
    requires Enabled(o, s, e) && GivesBack(e) && !s.sh.closed
    ensures var r := Step(o, s, e);
            var waiting := WaitingClaims(s.claims);
            && r.claims.Keys == s.claims.Keys - {e.c}
            && (waiting == {} ==> r.sh.permits == s.sh.permits + 1)
            && (waiting != {} ==> r.sh.permits == s.sh.permits && OneGranted(s, r, GrantOf(e)))
            && (forall x :: x in r.claims && x !in GrantOf(e) ==> r.claims[x] == s.claims[x])
            && r.destroyed == s.destroyed + (if e.DestroyDone? then [s.claims[e.c].phase.session] else [])
            && r.sh.warm == s.sh.warm && r.handed == s.handed && r.background == s.background
  {
    var g := GrantOf(e);
    assert WaitingClaims(Without(s, e.c).claims) == WaitingClaims(s.claims);
    if WaitingClaims(s.claims) != {} {
      SomeSize(WaitingClaims(s.claims));
      var w :| w in g;
      OnlyMember(g, w);
      assert OneGranted(s, Step(o, s, e), g);
    } else {
      assert g == {};
    }
  }

  lemma SomeSize(a: set<ClaimId>)
    requires a != {}
    ensures |a| >= 1
  {
  }

  lemma OnlyMember(a: set<ClaimId>, w: ClaimId)
    requires w in a && |a| == 1
    ensures a == {w}
  {
    SameSize({w}, a);
  }

  /** A claimer that was granted a permit can go on with it, in every reachable state of an open pool. */
  lemma GrantedGoesOn(o: Options, max: nat, run: seq<Event>, c: ClaimId, alive: set<Session>)
    requires Feasible(o, max, run)
    requires var s := After(o, max, run); !s.sh.closed && c in s.claims && s.claims[c].phase == Granted
    ensures var s := After(o, max, run); GetsSlot(s, Poll(c, alive), c, s.claims[c].plain, alive)
  {
    CountersCoverTheirHolders(o, max, run, c);
  }

  /** A waiter that leaves takes nothing but its own place in the queue with it. */
  lemma WaiterLeaves(o: Options, s: State, c: ClaimId)
    requires c in s.claims && s.claims[c].phase == Queued && s.sh.waiting > 0
    ensures Enabled(o, s, LeaveQueue(c))
    ensures Step(o, s, LeaveQueue(c)) == s.(claims := s.claims - {c}, sh := s.sh.(waiting := s.sh.waiting - 1))
  {
  }

  /** A finished background destroy, and the replenisher's own, enter the log once, with their session. */
  lemma DestroysAreLogged(o: Options, s: State, id: Session)
    ensures id in s.background ==>
              && Enabled(o, s, BackgroundDone(id))
              && var r := Step(o, s, BackgroundDone(id));
                 && r.background == s.background - {id} && r.destroyed == s.destroyed + [id]
                 && r.sh == s.sh && r.claims == s.claims && r.rep == s.rep
    ensures s.rep == Discarding(id) ==>
              && Enabled(o, s, RepDiscarded)
              && var r := Step(o, s, RepDiscarded);
                 && r.rep == Stopped && r.destroyed == s.destroyed + [id]
                 && r.sh == s.sh && r.claims == s.claims && r.background == s.background
  {
  }

  /** A claim dropped during its launch takes its slot with it. */
  lemma AbandonedIsLost(o: Options, s: State, c: ClaimId)
    requires c in s.claims && s.claims[c].phase == Launching
    ensures Enabled(o, s, AbandonLaunch(c))
    ensures Step(o, s, AbandonLaunch(c)) == s.(claims := s.claims - {c}, abandoned := s.abandoned + 1)
  {
  }

  // ---------------------------------------------------------------- the replenisher

  /**
   Session by session: the culler takes one if and only if it is dead, or has reached the maximum age, or
   there were already `minReady` kept before it and it has been idle too long.
   */
  lemma CulledIff(o: Options, warm: seq<Warm>, alive: set<Session>, now: nat, i: nat)
    requires i < |warm|
    ensures var before := Cull(o, warm[..i], alive, now);
            var age := if now < warm[i].readyAt then 0 else now - warm[i].readyAt;
            var stays := && warm[i].session in alive && age < o.warmMaxAge
                         && (|before.kept| < o.minReady || age < o.warmIdle);
            Cull(o, warm[..i + 1], alive, now)
            == if stays then Culled(before.kept + [warm[i]], before.removed)
               else Culled(before.kept, before.removed + [warm[i].session])
    ensures Cull(o, [], alive, now) == Culled([], [])
  {
    assert warm[..i + 1][..i] == warm[..i];
  }

  /** On a closed pool the replenisher stops; on an open one it destroys what the culler removed, in order. */
  lemma CullerTakes(o: Options, s: State, alive: set<Session>, now: nat)
    requires s.rep == Top
    ensures Enabled(o, s, RepTop(alive, now))
    ensures var r := Step(o, s, RepTop(alive, now));
            && (s.sh.closed ==> r == s.(rep := Stopped))
            && (!s.sh.closed ==> Cull(o, s.sh.warm, alive, now) == Culled(r.sh.warm, RepSessions(r.rep)))
            && r.claims == s.claims && r.handed == s.handed
            && r.background == s.background && r.destroyed == s.destroyed
  {
  }

  /** The culler's sessions are destroyed one after the other, and a launch is decided on only after that. */
  lemma CulledAreDestroyed(o: Options, s: State)
    requires s.rep.Culling?
    ensures s.rep.pending != [] ==>
              && Enabled(o, s, RepDestroyOne)
              && var r := Step(o, s, RepDestroyOne);
                 && r.rep == Culling(s.rep.pending[1..]) && r.destroyed == s.destroyed + [s.rep.pending[0]]
                 && r.sh == s.sh && r.claims == s.claims
    ensures s.rep.pending == [] ==>
              && Enabled(o, s, RepDecide)
              && var r := Step(o, s, RepDecide);
                 var free := if s.sh.permits < s.sh.maxSessions then s.sh.permits else s.sh.maxSessions;
                 if |s.sh.warm| + s.sh.launching < o.minReady && |s.sh.warm| + s.sh.launching < free
                 then r == s.(rep := Creating, sh := s.sh.(launching := s.sh.launching + 1))
                 else r == s.(rep := Top)
  {
  }

  /** A warm launch joins the end of the deque of an open pool, and is destroyed on a closed one. */
  lemma WarmLaunchJoins(o: Options, s: State, now: nat)
    requires s.rep == Creating && s.sh.launching > 0
    ensures Enabled(o, s, RepLaunched(now)) && Enabled(o, s, RepLaunchFailed)
    ensures var r := Step(o, s, RepLaunched(now));
            && r.created == s.created + 1 && r.sh.launching == s.sh.launching - 1
            && r.rep == (if s.sh.closed then Discarding(s.created) else Top)
            && r.sh.warm == s.sh.warm + (if s.sh.closed then [] else [Warm(s.created, now)])
            && r.claims == s.claims && r.handed == s.handed && r.destroyed == s.destroyed
    ensures Step(o, s, RepLaunchFailed) == s.(rep := Top, sh := s.sh.(launching := s.sh.launching - 1))
  {
  }

  /** `close` sends the whole stock to the background and leaves every claim and the replenisher to go on. */
  lemma CloseDrains(o: Options, s: State)
    ensures Enabled(o, s, Close)
    ensures var r := Step(o, s, Close);
            && r.sh.closed && r.sh.warm == [] && r.sh.permits == s.sh.permits && r.sh.waiting == s.sh.waiting
            && (forall id :: id in r.background <==>
                  id in s.background || exists i :: 0 <= i < |s.sh.warm| && s.sh.warm[i].session == id)
            && r.claims == s.claims && r.rep == s.rep && r.handed == s.handed && r.destroyed == s.destroyed
  {
    forall id
      ensures id in SetOf(Ids(s.sh.warm)) <==> exists i :: 0 <= i < |s.sh.warm| && s.sh.warm[i].session == id
    {
      FrontSet(s.sh.warm, |s.sh.warm|, id);
      assert s.sh.warm[..|s.sh.warm|] == s.sh.warm;
    }
  }

  /** A higher ceiling serves waiting claimers first; a lower one takes back only what is free. */
  lemma ResizeGrants(o: Options, s: State, target: nat, g: set<ClaimId>)
    requires Enabled(o, s, Resize(target, g)) && !s.sh.closed
    ensures var r := Step(o, s, Resize(target, g));
            var ceiling := if target == 0 then 1 else target;
            && r.sh.maxSessions == ceiling && r.sh.waiting == s.sh.waiting
            && (ceiling >= s.sh.maxSessions ==>
                  r.sh.permits + |g| == s.sh.permits + ceiling - s.sh.maxSessions
                  && (r.sh.permits > s.sh.permits ==> g == WaitingClaims(s.claims)))
            && (ceiling < s.sh.maxSessions ==>
                  r.sh.permits == if s.sh.permits + ceiling < s.sh.maxSessions then 0
                                  else s.sh.permits + ceiling - s.sh.maxSessions)
            && r.claims.Keys == s.claims.Keys
            && (forall x :: x in s.claims ==>
                  r.claims[x] == if x in g then Claim(s.claims[x].plain, Granted) else s.claims[x])
  {
    if Max(target, 1) >= s.sh.maxSessions && |g| == |WaitingClaims(s.claims)| {
      SameSize(g, WaitingClaims(s.claims));
    }
  }

  lemma SameSize(a: set<ClaimId>, b: set<ClaimId>)
    requires a <= b && |a| == |b|
    ensures a == b
  {
    assert b == a + (b - a);
  }
}
