/**
 No session is lost, reused or destroyed twice (src/pool.rs).  The history variable `place` assigns
 one place to every created session; the invariant says that the warm deque, the claims, the
 background destroys, the replenisher and the log of completed destroys agree with it.
 */
module PoolPlaces {
  import opened Prelude
  import opened PoolModel
  import opened PoolCounting

  ghost predicate At(s: State, id: Session, p: Place) {
    id in s.place && s.place[id] == p
  }

  function RepSessions(rep: Replenisher): seq<Session> {
    match rep
    case Culling(pending) => pending
    case Discarding(session) => [session]
    case _ => []
  }

  /** The sessions of `ids` are distinct and are exactly those at `p`. */
  ghost predicate Lists(s: State, ids: seq<Session>, p: Place) {
    && NoDup(ids)
    && forall id :: id in ids <==> At(s, id, p)
  }

  ghost predicate Claimed(s: State, c: ClaimId, id: Session) {
    c in s.claims && s.claims[c].HasSession() && s.claims[c].phase.session == id
  }

  ghost predicate ClaimsAgree(s: State) {
    forall c, id :: Claimed(s, c, id) <==> At(s, id, InClaim(c))
  }

  ghost predicate Numbered(s: State) {
    forall id: Session :: id in s.place <==> id < s.created
  }

  /** Exactly the sessions in claims, and destroyed ones, have ever been handed out. */
  ghost predicate HandedAgree(s: State) {
    && NoDup(s.handed)
    && (forall id :: id in s.handed ==> id in s.place && (s.place[id].InClaim? || s.place[id].Gone?))
    && (forall id :: id in s.place && s.place[id].InClaim? ==> id in s.handed)
  }

  ghost predicate Placed(s: State) {
    && Numbered(s)
    && Lists(s, Ids(s.sh.warm), InWarm)
    && ClaimsAgree(s)
    && (forall id :: id in s.background <==> At(s, id, InBackground))
    && Lists(s, RepSessions(s.rep), AtReplenisher)
    && Lists(s, s.destroyed, Gone)
    && HandedAgree(s)
  }

  // ---------------------------------------------------------------- the loops

  lemma FrontIds(warm: seq<Warm>, k: nat)
    requires k < |warm|
    ensures Ids(warm[..k + 1]) == [warm[0].session] + Ids(warm[1..][..k])
  {
  }

  /** The pop loop takes a dead prefix and at most the one live session behind it. */
  lemma {:induction false} TakeWarmSplits(warm: seq<Warm>, alive: set<Session>)
    ensures var t := TakeWarm(warm, alive);
            var k := |t.dead|;
            && k <= |warm|
            && t.dead == Ids(warm[..k])
            && (forall i :: 0 <= i < k ==> warm[i].session !in alive)
            && (t.found.Some? ==> k < |warm| && t.found.value == warm[k].session
                                  && t.found.value in alive && t.rest == warm[k + 1..])
            && (t.found.None? ==> k == |warm| && t.rest == [])
  {
    if warm != [] && warm[0].session !in alive {
      TakeWarmSplits(warm[1..], alive);
      var k := |TakeWarm(warm[1..], alive).dead|;
      FrontIds(warm, k);
    }
  }

  /** `all` without repetition is divided between `kept` and `removed`. */
  ghost predicate Divides(kept: seq<Session>, removed: seq<Session>, all: seq<Session>) {
    && NoDup(kept) && NoDup(removed)
    && (forall x :: x in all <==> x in kept || x in removed)
    && (forall x :: x in kept ==> x !in removed)
  }

  lemma DividesSnoc(kept: seq<Session>, removed: seq<Session>, all: seq<Session>, id: Session)
    requires Divides(kept, removed, all) && id !in all
    ensures Divides(kept + [id], removed, all + [id])
    ensures Divides(kept, removed + [id], all + [id])
  {
    NoDupSnoc(kept, id);
    NoDupSnoc(removed, id);
  }

  lemma {:induction false} CullSplits(o: Options, warm: seq<Warm>, alive: set<Session>, now: nat)
    requires NoDup(Ids(warm))
    ensures var c := Cull(o, warm, alive, now); Divides(Ids(c.kept), c.removed, Ids(warm))
  {
    if warm != [] {
      var n := |warm| - 1;
      var c := Cull(o, warm[..n], alive, now);
      var id := warm[n].session;
      LastId(warm);
      NoDupFront(Ids(warm[..n]), id);
      CullSplits(o, warm[..n], alive, now);
      IdsSnoc(c.kept, warm[n]);
      DividesSnoc(Ids(c.kept), c.removed, Ids(warm[..n]), id);
    }
  }

  lemma NoDupFront(s: seq<Session>, x: Session)
    requires NoDup(s + [x])
    ensures NoDup(s) && x !in s
  {
    assert forall i :: 0 <= i < |s| ==> (s + [x])[i] == s[i];
    assert (s + [x])[|s|] == x;
  }

  /** The elements of `all` marked with `m`, in their order. */
  function Marked(all: seq<Session>, marks: seq<bool>, m: bool): seq<Session>
    requires |all| == |marks|
  {
    if all == [] then []
    else
      var n := |all| - 1;
      Marked(all[..n], marks[..n], m) + if marks[n] == m then [all[n]] else []
  }

  lemma MarkedSnoc(all: seq<Session>, marks: seq<bool>, x: Session, last: bool, m: bool)
    requires |all| == |marks|
    ensures Marked(all + [x], marks + [last], m) == Marked(all, marks, m) + if last == m then [x] else []
  {
    assert (all + [x])[..|all|] == all && (marks + [last])[..|marks|] == marks;
  }

  lemma IdsSnoc(warm: seq<Warm>, w: Warm)
    ensures Ids(warm + [w]) == Ids(warm) + [w.session]
  {
  }

  lemma LastId(warm: seq<Warm>)
    requires warm != []
    ensures Ids(warm) == Ids(warm[..|warm| - 1]) + [warm[|warm| - 1].session]
  {
  }

  /** The culler keeps both the kept and the removed sessions in the deque's order, for any deque. */
  lemma {:induction false} CullKeepsOrder(o: Options, warm: seq<Warm>, alive: set<Session>, now: nat)
    returns (kept: seq<bool>)
    ensures |kept| == |warm|
    ensures var c := Cull(o, warm, alive, now);
            Ids(c.kept) == Marked(Ids(warm), kept, true) && c.removed == Marked(Ids(warm), kept, false)
  {
    kept := [];
    if warm != [] {
      var n := |warm| - 1;
      var c := Cull(o, warm[..n], alive, now);
      var front := CullKeepsOrder(o, warm[..n], alive, now);
      var stays := |Cull(o, warm, alive, now).kept| > |c.kept|;
      kept := front + [stays];
      LastId(warm);
      IdsSnoc(c.kept, warm[n]);
      MarkedSnoc(Ids(warm[..n]), front, warm[n].session, stays, true);
      MarkedSnoc(Ids(warm[..n]), front, warm[n].session, stays, false);
    }
  }

  lemma NoDupCut(s: seq<Session>, k: nat)
    requires NoDup(s) && k <= |s|
    ensures NoDup(s[k..])
    ensures forall x :: x in s[k..] <==> x in s && x !in s[..k]
  {
    assert s == s[..k] + s[k..];
  }

  lemma NoDupSnoc(s: seq<Session>, x: Session)
    requires NoDup(s)
    ensures NoDup(s + [x]) <==> x !in s
  {
    if x in s {
      var i :| 0 <= i < |s| && s[i] == x;
      assert (s + [x])[i] == (s + [x])[|s|];
    }
  }

  // ---------------------------------------------------------------- one session moves

  /** A session that leaves its place for `Gone` and enters the log of destroys. */
  lemma LogDestroyed(s: State, t: State, id: Session)
    requires Placed(s) && id in s.place && !s.place[id].Gone? && !s.place[id].InWarm?
    requires t.created == s.created && t.place == s.place[id := Gone]
    requires t.destroyed == s.destroyed + [id] && t.handed == s.handed && t.sh.warm == s.sh.warm
    ensures Numbered(t) && Lists(t, Ids(t.sh.warm), InWarm) && Lists(t, t.destroyed, Gone) && HandedAgree(t)
  {
    NoDupSnoc(s.destroyed, id);
    assert forall x :: x in t.destroyed <==> x in s.destroyed || x == id;
  }

  /** Claims whose sessions do not change keep agreeing when no session enters or leaves a claim. */
  lemma SameClaims(s: State, t: State)
    requires ClaimsAgree(s)
    requires forall c, x :: Claimed(t, c, x) <==> Claimed(s, c, x)
    requires forall x :: x in t.place && t.place[x].InClaim? ==> x in s.place && s.place[x] == t.place[x]
    requires forall x :: x in s.place && s.place[x].InClaim? ==> x in t.place && s.place[x] == t.place[x]
    ensures ClaimsAgree(t)
  {
    forall c, x ensures Claimed(t, c, x) <==> At(t, x, InClaim(c)) {
      assert Claimed(s, c, x) <==> At(s, x, InClaim(c));
    }
  }

  /** Warm sessions `ids` move to `p`: everything but the two lists involved keeps agreeing. */
  lemma LeaveWarm(s: State, t: State, ids: set<Session>, p: Place)
    requires Placed(s) && (forall x :: x in ids ==> x in Ids(s.sh.warm)) && (p.InBackground? || p.AtReplenisher?)
    requires t.place == Moved(s.place, ids, p) && t.claims == s.claims && t.created == s.created
    requires t.destroyed == s.destroyed && t.handed == s.handed
    ensures Numbered(t) && ClaimsAgree(t) && Lists(t, t.destroyed, Gone) && HandedAgree(t)
    ensures forall x :: At(t, x, InWarm) <==> At(s, x, InWarm) && x !in ids
    ensures forall x :: At(t, x, p) <==> At(s, x, p) || x in ids
    ensures forall q, x :: q != p && !q.InWarm? ==> (At(t, x, q) <==> At(s, x, q))
  {
    assert forall x :: x in ids ==> At(s, x, InWarm);
    SameClaims(s, t);
  }

  /** Sessions taken off the front of the warm deque for a background destroy. */
  lemma DropFront(s: State, k: nat)
    requires Placed(s) && k <= |s.sh.warm|
    ensures Placed(s.(sh := s.sh.(warm := s.sh.warm[k..]),
                      background := s.background + SetOf(Ids(s.sh.warm[..k])),
                      place := Moved(s.place, SetOf(Ids(s.sh.warm[..k])), InBackground)))
  {
    var ids := Ids(s.sh.warm);
    assert Ids(s.sh.warm[..k]) == ids[..k] && Ids(s.sh.warm[k..]) == ids[k..];
    var t := s.(sh := s.sh.(warm := s.sh.warm[k..]),
                background := s.background + SetOf(ids[..k]),
                place := Moved(s.place, SetOf(ids[..k]), InBackground));
    LeaveWarm(s, t, SetOf(ids[..k]), InBackground);
    NoDupCut(ids, k);
  }

  /** A session that is on nobody's list (fresh, or just taken off the warm front) is handed out. */
  lemma HandOutFront(s: State, c: ClaimId, plain: bool)
    requires Placed(s) && s.sh.warm != [] && (c in s.claims ==> !s.claims[c].HasSession())
    ensures Placed(HandOut(s.(sh := s.sh.(warm := s.sh.warm[1..])), c, plain, s.sh.warm[0].session))
  {
    var id := s.sh.warm[0].session;
    var ids := Ids(s.sh.warm);
    assert Ids(s.sh.warm[1..]) == ids[1..] && ids[0] == id;
    assert At(s, id, InWarm);
    var r := HandOut(s.(sh := s.sh.(warm := s.sh.warm[1..])), c, plain, id);
    NoDupSnoc(s.handed, id);
    assert ClaimsAgree(r) by {
      forall d, x ensures Claimed(r, d, x) <==> At(r, x, InClaim(d)) {
        assert Claimed(s, d, x) <==> At(s, x, InClaim(d));
        assert Claimed(s, c, x) <==> At(s, x, InClaim(c));
      }
    }
    assert Lists(r, Ids(r.sh.warm), InWarm) by {
      assert forall x :: x in ids <==> x == id || x in ids[1..];
    }
  }

  // ---------------------------------------------------------------- every step

  /** A claim changes or disappears, and no session is involved before or after. */
  lemma ClaimsMoveWithoutSession(s: State, t: State)
    requires Placed(s)
    requires forall c, x :: Claimed(t, c, x) <==> Claimed(s, c, x)
    requires t.place == s.place && t.created == s.created && t.sh.warm == s.sh.warm
    requires t.background == s.background && t.rep == s.rep
    requires t.destroyed == s.destroyed && t.handed == s.handed
    ensures Placed(t)
  {
    SameClaims(s, t);
  }

  /** The state in which a plain claimer has popped the dead sessions and no more. */
  function DeadPopped(s: State, k: nat, dead: seq<Session>): State
    requires k <= |s.sh.warm|
  {
    s.(sh := s.sh.(warm := s.sh.warm[k..]),
       background := s.background + SetOf(dead),
       place := Moved(s.place, SetOf(dead), InBackground))
  }

  lemma PlacePlain(s: State, c: ClaimId, alive: set<Session>)
    requires Placed(s) && (c in s.claims ==> !s.claims[c].HasSession())
    ensures Placed(Proceed(s, c, true, alive))
  {
    var t := TakeWarm(s.sh.warm, alive);
    TakeWarmSplits(s.sh.warm, alive);
    DropFront(s, |t.dead|);
    var s1 := DeadPopped(s, |t.dead|, t.dead);
    if t.found.Some? {
      HandOutFront(s1, c, true);
    } else {
      ClaimsMoveWithoutSession(s1, Proceed(s, c, true, alive));
    }
  }

  lemma PlaceProceed(s: State, c: ClaimId, plain: bool, alive: set<Session>)
    requires Placed(s) && (c in s.claims ==> !s.claims[c].HasSession())
    ensures Placed(Proceed(s, c, plain, alive))
  {
    if plain {
      PlacePlain(s, c, alive);
    } else {
      ClaimsMoveWithoutSession(s, Proceed(s, c, plain, alive));
    }
  }

  lemma PlaceLaunched(s: State, c: ClaimId)
    requires Placed(s) && c in s.claims && s.claims[c].phase.Launching?
    ensures Placed(HandOut(s.(created := s.created + 1), c, s.claims[c].plain, s.created))
  {
    var id := s.created;
    var r := HandOut(s.(created := s.created + 1), c, s.claims[c].plain, id);
    assert id !in s.place;
    NoDupSnoc(s.handed, id);
    forall d, x ensures Claimed(r, d, x) <==> At(r, x, InClaim(d)) {
      assert Claimed(s, d, x) <==> At(s, x, InClaim(d));
      assert Claimed(s, c, x) <==> At(s, x, InClaim(c));
    }
  }

  lemma PlaceDestroyDone(s: State, c: ClaimId, g: set<ClaimId>)
    requires Placed(s) && c in s.claims && s.claims[c].phase.Releasing? && GrantOk(Without(s, c), 1, g)
    ensures Placed(Step(Options(0, 0, 0, 0), s, DestroyDone(c, g)))
  {
    var id := s.claims[c].phase.session;
    var r := Step(Options(0, 0, 0, 0), s, DestroyDone(c, g));
    assert Claimed(s, c, id);
    LogDestroyed(s, r, id);
    forall d, x ensures Claimed(r, d, x) <==> At(r, x, InClaim(d)) {
      assert Claimed(s, d, x) <==> At(s, x, InClaim(d));
      assert Claimed(s, d, id) <==> At(s, id, InClaim(d));
    }
  }

  /** A destroy that holds no slot completes. */
  lemma PlaceDestroyed(s: State, t: State, id: Session)
    requires Placed(s) && id in s.place && (s.place[id].InBackground? || s.place[id].AtReplenisher?)
    requires t.created == s.created && t.place == s.place[id := Gone] && t.claims == s.claims
    requires t.destroyed == s.destroyed + [id] && t.handed == s.handed && t.sh.warm == s.sh.warm
    requires if s.place[id].InBackground?
             then t.background == s.background - {id} && t.rep == s.rep
             else t.background == s.background && RepSessions(s.rep) == [id] + RepSessions(t.rep)
    ensures Placed(t)
  {
    LogDestroyed(s, t, id);
    SameClaims(s, t);
    if s.place[id].AtReplenisher? {
      var ids := RepSessions(s.rep);
      assert RepSessions(t.rep) == ids[1..] && ids[0] == id;
      assert forall x :: x in ids <==> x == id || x in ids[1..];
    }
  }

  lemma PlaceCulled(o: Options, s: State, alive: set<Session>, now: nat)
    requires Placed(s) && s.rep.Top?
    ensures var c := Cull(o, s.sh.warm, alive, now);
            Placed(s.(sh := s.sh.(warm := c.kept),
                      rep := Culling(c.removed),
                      place := Moved(s.place, SetOf(c.removed), AtReplenisher)))
  {
    var c := Cull(o, s.sh.warm, alive, now);
    var t := s.(sh := s.sh.(warm := c.kept),
                rep := Culling(c.removed),
                place := Moved(s.place, SetOf(c.removed), AtReplenisher));
    CullSplits(o, s.sh.warm, alive, now);
    LeaveWarm(s, t, SetOf(c.removed), AtReplenisher);
    assert RepSessions(s.rep) == [];
  }

  lemma PlaceRepLaunched(o: Options, s: State, now: nat)
    requires Placed(s) && s.rep.Creating? && s.sh.launching > 0
    ensures Placed(Step(o, s, RepLaunched(now)))
  {
    var r := Step(o, s, RepLaunched(now));
    var id := s.created;
    assert id !in s.place;
    SameClaims(s, r);
    if !s.sh.closed {
      assert Ids(r.sh.warm) == Ids(s.sh.warm) + [id];
      NoDupSnoc(Ids(s.sh.warm), id);
    }
  }

  /** The replenisher changes its own state while it holds no session. */
  lemma RepMoves(s: State, t: State)
    requires Placed(s) && RepSessions(s.rep) == RepSessions(t.rep) == []
    requires t == s.(rep := t.rep, sh := s.sh.(launching := t.sh.launching))
    ensures Placed(t)
  {
    SameClaims(s, t);
  }

  lemma PlaceClaimer(o: Options, s: State, e: Event)
    requires Placed(s) && Enabled(o, s, e) && (e.Arrive? || e.Poll?)
    ensures Placed(Step(o, s, e))
  {
    if e.Arrive? && Admit(o, s.sh) != GotSlot {
      ClaimsMoveWithoutSession(s, Step(o, s, e));
    } else {
      var sh := if e.Arrive? then AdmitShared(o, s.sh) else s.sh.(waiting := s.sh.waiting - 1);
      ClaimsMoveWithoutSession(s, s.(sh := sh));
      PlaceProceed(s.(sh := sh), e.c, if e.Arrive? then e.plain else s.claims[e.c].plain, e.alive);
    }
  }

  lemma PlaceClosed(o: Options, s: State)
    requires Placed(s)
    ensures Placed(Step(o, s, Close))
  {
    var r := Step(o, s, Close);
    DropFront(s, |s.sh.warm|);
    assert s.sh.warm[..|s.sh.warm|] == s.sh.warm && s.sh.warm[|s.sh.warm|..] == [];
    ClaimsMoveWithoutSession(s.(sh := s.sh.(warm := []), background := r.background, place := r.place), r);
  }

  lemma PlaceReplenisher(o: Options, s: State, e: Event)
    requires Placed(s) && Enabled(o, s, e)
    requires e.RepTop? || e.RepDestroyOne? || e.RepDecide? || e.RepLaunched? || e.RepLaunchFailed? || e.RepDiscarded?
    ensures Placed(Step(o, s, e))
  {
    var r := Step(o, s, e);
    match e
    case RepTop(alive, now) =>
      if s.sh.closed {
        RepMoves(s, r);
      } else {
        PlaceCulled(o, s, alive, now);
      }
    case RepDestroyOne =>
      assert s.rep.pending[0] in RepSessions(s.rep);
      PlaceDestroyed(s, r, s.rep.pending[0]);
    case RepDiscarded =>
      assert s.rep.session in RepSessions(s.rep);
      PlaceDestroyed(s, r, s.rep.session);
    case RepLaunched(now) => PlaceRepLaunched(o, s, now);
    case _ => RepMoves(s, r);
  }

  lemma StepPlaced(o: Options, s: State, e: Event)
    requires Placed(s) && Enabled(o, s, e)
    ensures Placed(Step(o, s, e))
  {
    match e
    case Arrive(_, _, _) => PlaceClaimer(o, s, e);
    case Poll(_, _) => PlaceClaimer(o, s, e);
    case Launched(c) => PlaceLaunched(s, c);
    case DestroyDone(c, g) => PlaceDestroyDone(s, c, g);
    case BackgroundDone(id) => PlaceDestroyed(s, Step(o, s, e), id);
    case Close => PlaceClosed(o, s);
    case LeaveQueue(_) => ClaimsMoveWithoutSession(s, Step(o, s, e));
    case LeaveGranted(_, _) => ClaimsMoveWithoutSession(s, Step(o, s, e));
    case LaunchFailed(_, _) => ClaimsMoveWithoutSession(s, Step(o, s, e));
    case AbandonLaunch(_) => ClaimsMoveWithoutSession(s, Step(o, s, e));
    case Destroy(_) => ClaimsMoveWithoutSession(s, Step(o, s, e));
    case Resize(_, _) => ClaimsMoveWithoutSession(s, Step(o, s, e));
    case _ => PlaceReplenisher(o, s, e);
  }

  lemma {:induction false} AlwaysPlaced(o: Options, max: nat, run: seq<Event>)
    requires Feasible(o, max, run)
    ensures Placed(After(o, max, run))
    decreases |run|
  {
    if run != [] {
      var n := |run| - 1;
      AlwaysPlaced(o, max, run[..n]);
      StepPlaced(o, After(o, max, run[..n]), run[n]);
    }
  }

  // ---------------------------------------------------------------- what it means

  /** How many times `id` is found in the pool's real data: a place counts once per occurrence. */
  ghost function Occurrences(s: State, id: Session): nat {
    multiset(Ids(s.sh.warm))[id]
    + |set c | c in s.claims && Claimed(s, c, id)|
    + (if id in s.background then 1 else 0)
    + multiset(RepSessions(s.rep))[id]
    + multiset(s.destroyed)[id]
  }

  lemma {:induction false} NoDupCounts(s: seq<Session>, x: Session)
    requires NoDup(s)
    ensures multiset(s)[x] == if x in s then 1 else 0
  {
    if s != [] {
      var n := |s| - 1;
      assert s == s[..n] + [s[n]];
      assert multiset(s) == multiset(s[..n]) + multiset{s[n]};
      NoDupCounts(s[..n], x);
    }
  }

  /**
   In every reachable state each created session is in exactly one place (warm, in one claim, in the
   background, at the replenisher, destroyed) and no other id is anywhere; none is handed out twice
   and none is destroyed twice.
   */
  lemma ExactlyOnePlace(o: Options, max: nat, run: seq<Event>, id: Session)
    requires Feasible(o, max, run)
    ensures var s := After(o, max, run);
            && Occurrences(s, id) == (if id < s.created then 1 else 0)
            && multiset(s.handed)[id] <= 1
            && multiset(s.destroyed)[id] <= 1
  {
    AlwaysPlaced(o, max, run);
    var s := After(o, max, run);
    NoDupCounts(Ids(s.sh.warm), id);
    NoDupCounts(RepSessions(s.rep), id);
    NoDupCounts(s.destroyed, id);
    NoDupCounts(s.handed, id);
    var owners := set c | c in s.claims && Claimed(s, c, id);
    if id in s.place && s.place[id].InClaim? {
      assert Claimed(s, s.place[id].claim, id);
      forall c ensures c in owners <==> c == s.place[id].claim {
        assert Claimed(s, c, id) <==> At(s, id, InClaim(c));
      }
      assert owners == {s.place[id].claim};
    } else {
      forall c ensures c !in owners {
        assert Claimed(s, c, id) <==> At(s, id, InClaim(c));
      }
      assert owners == {};
    }
  }

  function FirstIds(n: nat): (r: set<Session>)
    ensures forall id: Session :: id in r <==> id < n
    ensures |r| == n
  {
    if n == 0 then {} else FirstIds(n - 1) + {n - 1}
  }

  /** All claims released, every background destroy finished and the replenisher stopped. */
  predicate Quiet(s: State) {
    s.claims == map[] && s.background == {} && s.rep.Stopped?
  }

  lemma EverythingGone(s: State, id: Session)
    requires Placed(s) && Quiet(s) && s.sh.warm == []
    ensures id in s.destroyed <==> id < s.created
  {
    if id < s.created {
      var p := s.place[id];
      assert At(s, id, p);
      assert p.InClaim? ==> Claimed(s, p.claim, id);
    }
  }

  /** After `close`, a pool that has come to rest has destroyed exactly what it created. */
  lemma ClosedPoolLeaksNothing(o: Options, max: nat, run: seq<Event>)
    requires Feasible(o, max, run)
    requires After(o, max, run).sh.closed && Quiet(After(o, max, run))
    ensures var s := After(o, max, run);
            && SetOf(s.destroyed) == FirstIds(s.created)
            && |s.destroyed| == s.created
  {
    AlwaysPlaced(o, max, run);
    Reachable(o, max, run);
    var s := After(o, max, run);
    var all := FirstIds(s.created);
    forall id: Session ensures id in s.destroyed <==> id in all {
      EverythingGone(s, id);
    }
    assert SetOf(s.destroyed) == all;
    NoDupSize(s.destroyed);
  }

  lemma {:induction false} NoDupSize(s: seq<Session>)
    requires NoDup(s)
    ensures |SetOf(s)| == |s|
  {
    if s != [] {
      var n := |s| - 1;
      NoDupSize(s[..n]);
      assert SetOf(s) == SetOf(s[..n]) + {s[n]};
    }
  }

  // ---------------------------------------------------------------- all sessions counted

  function WithSession(claims: map<ClaimId, Claim>): set<ClaimId> {
    set c | c in claims && claims[c].HasSession()
  }

  ghost function ClaimedIds(s: State, cs: set<ClaimId>): set<Session>
    requires cs <= WithSession(s.claims)
  {
    set c | c in cs :: s.claims[c].phase.session
  }

  /** Different claims hold different sessions. */
  lemma {:induction false} ClaimedIdsSize(s: State, cs: set<ClaimId>)
    requires ClaimsAgree(s) && cs <= WithSession(s.claims)
    ensures |ClaimedIds(s, cs)| == |cs|
    decreases |cs|
  {
    if cs != {} {
      var c :| c in cs;
      var id := s.claims[c].phase.session;
      assert Claimed(s, c, id);
      ClaimedIdsSize(s, cs - {c});
      assert ClaimedIds(s, cs) == ClaimedIds(s, cs - {c}) + {id};
      forall d | d in cs - {c} ensures s.claims[d].phase.session != id {
        assert Claimed(s, d, s.claims[d].phase.session);
      }
    }
  }

  lemma FiveDisjoint(a: set<Session>, b: set<Session>, c: set<Session>, d: set<Session>, e: set<Session>)
    requires a !! b && a + b !! c && a + b + c !! d && a + b + c + d !! e
    ensures |a + b + c + d + e| == |a| + |b| + |c| + |d| + |e|
  {
  }

  lemma PlacesDisjoint(s: State)
    requires Placed(s)
    ensures var w, c := SetOf(Ids(s.sh.warm)), ClaimedIds(s, WithSession(s.claims));
            var p, d := SetOf(RepSessions(s.rep)), SetOf(s.destroyed);
            w !! c && w + c !! p && w + c + p !! s.background && w + c + p + s.background !! d
  {
    ClaimedAre(s);
  }

  /** Every session ever created is warm, held, at the replenisher, in the background or destroyed. */
  lemma EverySessionCounted(s: State)
    requires Placed(s)
    ensures s.created == |s.sh.warm| + |WithSession(s.claims)| + |RepSessions(s.rep)| + |s.background| + |s.destroyed|
    ensures |WithSession(s.claims)| <= |SlotHolders(s.claims)|
  {
    NoDupSize(Ids(s.sh.warm));
    NoDupSize(RepSessions(s.rep));
    NoDupSize(s.destroyed);
    ClaimedIdsSize(s, WithSession(s.claims));
    PlacesDisjoint(s);
    FiveDisjoint(SetOf(Ids(s.sh.warm)), ClaimedIds(s, WithSession(s.claims)), SetOf(RepSessions(s.rep)), s.background,
                 SetOf(s.destroyed));
    PlacesCover(s);
    SessionHoldsSlot(s.claims);
  }

  lemma SessionHoldsSlot(m: map<ClaimId, Claim>)
    ensures |WithSession(m)| <= |SlotHolders(m)|
  {
    assert SlotHolders(m) == WithSession(m) + (SlotHolders(m) - WithSession(m));
  }

  lemma ClaimedAre(s: State)
    requires ClaimsAgree(s)
    ensures forall id :: id in ClaimedIds(s, WithSession(s.claims)) <==> id in s.place && s.place[id].InClaim?
  {
    forall id ensures id in ClaimedIds(s, WithSession(s.claims)) <==> id in s.place && s.place[id].InClaim? {
      if id in ClaimedIds(s, WithSession(s.claims)) {
        var c :| c in WithSession(s.claims) && s.claims[c].phase.session == id;
        assert Claimed(s, c, id);
      }
      if id in s.place && s.place[id].InClaim? {
        assert At(s, id, InClaim(s.place[id].claim));
        assert Claimed(s, s.place[id].claim, id);
      }
    }
  }

  /** The sessions that are somewhere. */
  ghost function Somewhere(s: State): set<Session> {
    SetOf(Ids(s.sh.warm)) + ClaimedIds(s, WithSession(s.claims)) + SetOf(RepSessions(s.rep)) + s.background
    + SetOf(s.destroyed)
  }

  lemma PlacesCover(s: State)
    requires Placed(s)
    ensures Somewhere(s) == FirstIds(s.created)
  {
    forall id: Session ensures id in Somewhere(s) <==> id < s.created {
      if id in Somewhere(s) {
        SomewhereIsPlaced(s, id);
      }
      if id < s.created {
        PlacedIsSomewhere(s, id);
      }
    }
  }

  lemma PlacedIsSomewhere(s: State, id: Session)
    requires Placed(s) && id in s.place
    ensures id in Somewhere(s)
  {
    ClaimedAre(s);
    assert At(s, id, s.place[id]);
  }

  lemma SomewhereIsPlaced(s: State, id: Session)
    requires Placed(s) && id in Somewhere(s)
    ensures id in s.place
  {
    ClaimedAre(s);
  }
}
