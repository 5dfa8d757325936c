/** The background sweep that re-evaluates live sessions with the gate's decision. */
module ContinuousVerify {
  import opened Common
  import opened Listing
  import opened AccessDecision

  /** What the sweep reads about a session's address, device and policy. */
  datatype Signals = Signals(country: string, threat: string, blocked: bool, trusted: bool, policy: Verdict)

  datatype Session = Session(route: string, org: string, agent: string, revoked: bool, expires: int,
                             verified: Option<int>, risk: int)

  datatype RouteRow = RouteRow(org: string, interval: int, route: Route)

  const SWEEP_LIMIT: nat := 100

  /** The sweep evaluates the stored user agent against itself and leaves the posture score at
      its zero value. */
  function SweepContext(agent: string, s: Signals): Context {
    Context(agent, agent, s.country, s.threat, s.blocked, s.trusted, 0.0, s.policy)
  }

  /** The same signals as the gate sees them on a request with an unchanged user agent. */
  function GateContext(agent: string, s: Signals, posture: real): Context {
    Context(agent, agent, s.country, s.threat, s.blocked, s.trusted, posture, s.policy)
  }

  /** On a route without posture checks, what the sweep denies the gate denies too, under the
      same signals or worse, with any posture score. */
  lemma SweepDenialStands(route: Route, agent: string, s: Signals, ac: Context)
    requires route.postureChecks == [] && !Passes(route, SweepContext(agent, s))
    requires 0.0 <= ac.posture && Worse(GateContext(agent, s, ac.posture), ac)
    ensures !Passes(route, ac)
  {
    assert Risk(route, GateContext(agent, s, ac.posture)) == Risk(route, SweepContext(agent, s));
    assert GeoOk(route, GateContext(agent, s, ac.posture)) == GeoOk(route, SweepContext(agent, s));
    DenialIsMonotone(route, GateContext(agent, s, ac.posture), ac);
  }

  /** On a route with posture checks the sweep denies every session. So its denials agree with
      the gate's exactly when the route has no posture checks, or the gate would deny even a
      perfect posture score. */
  lemma SweepAgreesExactly(route: Route, agent: string, s: Signals)
    ensures route.postureChecks != [] ==> !Passes(route, SweepContext(agent, s))
    ensures (!Passes(route, SweepContext(agent, s)) ==>
               forall p :: 0.0 <= p <= 1.0 ==> !Passes(route, GateContext(agent, s, p)))
            <==> (route.postureChecks == [] || !Passes(route, GateContext(agent, s, 1.0)))
  {
    forall p | 0.0 <= p <= 1.0
      ensures route.postureChecks == [] && !Passes(route, SweepContext(agent, s)) ==>
                !Passes(route, GateContext(agent, s, p))
      ensures !Passes(route, GateContext(agent, s, 1.0)) ==> !Passes(route, GateContext(agent, s, p))
    {
      var ac := GateContext(agent, s, p);
      if route.postureChecks == [] && !Passes(route, SweepContext(agent, s)) { SweepDenialStands(route, agent, s, ac); }
      DenialIsMonotone(route, GateContext(agent, s, 1.0), ac);
    }
  }

  /** Due for re-verification. */
  predicate Due(sessions: map<string, Session>, routes: map<string, RouteRow>, now: int, id: string) {
    && id in sessions && !sessions[id].revoked && sessions[id].expires > now
    && sessions[id].route in routes && routes[sessions[id].route].org == sessions[id].org
    && routes[sessions[id].route].interval > 0
    && (sessions[id].verified.None? || sessions[id].verified.value < now - routes[sessions[id].route].interval)
  }

  predicate Denied(session: Session, routes: map<string, RouteRow>, s: Signals) {
    session.route in routes && !Passes(routes[session.route].route, SweepContext(session.agent, s))
  }

  /** The row the sweep means to leave behind. */
  function Verified(session: Session, routes: map<string, RouteRow>, now: int, s: Signals): Session {
    if session.route !in routes then session
    else if Denied(session, routes, s) then session.(revoked := true, verified := Some(now))
    else session.(verified := Some(now), risk := Risk(routes[session.route].route, SweepContext(session.agent, s)))
  }

  type Sessions = map<string, Session>
  type Routes = map<string, RouteRow>

  function AllDue(sessions: Sessions, routes: Routes, now: int): set<string> {
    set id | id in sessions && Due(sessions, routes, now, id)
  }

  /** One sweep's luck, and the signals it reads: whether the query works and the order it
      visits rows in, and for each session whether its route loads, its row can be written and
      its cache entry dropped. */
  datatype SweepWeather = SweepWeather(lists: bool, order: seq<string>, loads: string -> bool,
                                       signals: string -> Signals, writes: string -> bool, drops: string -> bool)
  {
    ghost predicate Calm(ids: set<string>) {
      lists && ids <= Ids(order) && forall id :: id in ids ==> loads(id) && writes(id) && drops(id)
    }
  }

  /** The sessions a sweep looks at. */
  function Looked(sessions: Sessions, routes: Routes, now: int, w: SweepWeather): seq<string> {
    if w.lists then Answer(AllDue(sessions, routes, now), w.order, SWEEP_LIMIT) else []
  }

  /** The rows after the given sessions were looked at: each is as meant, unless its route did
      not load or its write failed. */
  function SweptRows(sessions: Sessions, routes: Routes, now: int, jobs: seq<string>, w: SweepWeather): Sessions {
    map id | id in sessions ::
      if id in jobs && w.loads(id) && w.writes(id) then Verified(sessions[id], routes, now, w.signals(id))
      else sessions[id]
  }

  function DeniedIds(sessions: Sessions, routes: Routes, jobs: seq<string>, w: SweepWeather): set<string> {
    set id | id in jobs && id in sessions && w.loads(id) && Denied(sessions[id], routes, w.signals(id))
  }

  function Dropped(denied: set<string>, drops: string -> bool): set<string> { set id | id in denied && drops(id) }

  /** Looking at one more session. */
  lemma LookMore(sessions: Sessions, routes: Routes, now: int, jobs: seq<string>, w: SweepWeather, id: string)
    requires id in sessions && id !in jobs
    ensures SweptRows(sessions, routes, now, jobs + [id], w) ==
            if w.loads(id) && w.writes(id)
            then SweptRows(sessions, routes, now, jobs, w)[id := Verified(sessions[id], routes, now, w.signals(id))]
            else SweptRows(sessions, routes, now, jobs, w)
    ensures DeniedIds(sessions, routes, jobs + [id], w) == DeniedIds(sessions, routes, jobs, w)
            + (if w.loads(id) && Denied(sessions[id], routes, w.signals(id)) then {id} else {})
    ensures id !in DeniedIds(sessions, routes, jobs, w)
  {
  }

  /** Where a sweep stands after the given sessions. */
  ghost predicate Stands(start: Sessions, cached: set<string>, routes: Routes, now: int, jobs: seq<string>,
                         w: SweepWeather,
                         sessions: Sessions, cache: set<string>, revoked: int)
  {
    && sessions == SweptRows(start, routes, now, jobs, w)
    && cache == cached - Dropped(DeniedIds(start, routes, jobs, w), w.drops)
    && revoked == |DeniedIds(start, routes, jobs, w)|
  }

  lemma StandsFirst(start: Sessions, cached: set<string>, routes: Routes, now: int, w: SweepWeather)
    ensures Stands(start, cached, routes, now, [], w, start, cached, 0)
  {
    assert DeniedIds(start, routes, [], w) == {} && SweptRows(start, routes, now, [], w) == start;
  }

  lemma DropMore(before: set<string>, after: set<string>, id: string, denied: bool, drops: string -> bool,
                 cached: set<string>)
    requires id !in before && after == before + (if denied then {id} else {})
    ensures cached - Dropped(after, drops) ==
            if denied && drops(id) then cached - Dropped(before, drops) - {id} else cached - Dropped(before, drops)
    ensures |after| == if denied then |before| + 1 else |before|
  {
    assert Dropped(after, drops) == Dropped(before, drops) + (if denied && drops(id) then {id} else {});
  }

  lemma StandsMore(start: Sessions, cached: set<string>, routes: Routes, now: int, jobs: seq<string>, w: SweepWeather,
                   sessions: Sessions, cache: set<string>, revoked: int, id: string, denied: bool)
    requires Stands(start, cached, routes, now, jobs, w, sessions, cache, revoked) && id in start && id !in jobs
    requires denied <==> w.loads(id) && Denied(start[id], routes, w.signals(id))
    ensures id in sessions && sessions[id] == start[id]
    ensures Stands(start, cached, routes, now, jobs + [id], w,
                   if w.loads(id) && w.writes(id) then sessions[id := Verified(start[id], routes, now, w.signals(id))]
                   else sessions,
                   if denied && w.drops(id) then cache - {id} else cache, if denied then revoked + 1 else revoked)
  {
    LookMore(start, routes, now, jobs, w, id);
    DropMore(DeniedIds(start, routes, jobs, w), DeniedIds(start, routes, jobs + [id], w), id, denied, w.drops, cached);
  }

  lemma LookedSound(sessions: Sessions, routes: Routes, now: int, w: SweepWeather)
    ensures var jobs := Looked(sessions, routes, now, w);
            Distinct(jobs) && |jobs| <= SWEEP_LIMIT && Ids(jobs) <= AllDue(sessions, routes, now)
  {
    AnswerSound(AllDue(sessions, routes, now), w.order, SWEEP_LIMIT);
  }

  /** Whatever goes wrong, only due sessions change, and each is then as meant. */
  lemma OnlyDueChange(sessions: Sessions, routes: Routes, now: int, w: SweepWeather, id: string)
    requires id in sessions && SweptRows(sessions, routes, now, Looked(sessions, routes, now, w), w)[id] != sessions[id]
    ensures Due(sessions, routes, now, id) && w.loads(id) && w.writes(id)
    ensures SweptRows(sessions, routes, now, Looked(sessions, routes, now, w), w)[id]
            == Verified(sessions[id], routes, now, w.signals(id))
  {
    LookedSound(sessions, routes, now, w);
    assert id in Ids(Looked(sessions, routes, now, w));
  }

  /** When nothing goes wrong and at most a hundred sessions are due, every one of them ends as
      meant: the denied revoked and out of the cache, the others refreshed. */
  lemma CalmSweep(sessions: Sessions, routes: Routes, now: int, w: SweepWeather)
    requires w.Calm(AllDue(sessions, routes, now)) && |AllDue(sessions, routes, now)| <= SWEEP_LIMIT
    ensures var jobs := Looked(sessions, routes, now, w);
            && (forall id :: Due(sessions, routes, now, id) ==>
                  SweptRows(sessions, routes, now, jobs, w)[id] == Verified(sessions[id], routes, now, w.signals(id)))
            && DeniedIds(sessions, routes, jobs, w) == Dropped(DeniedIds(sessions, routes, jobs, w), w.drops)
            && (forall id :: Due(sessions, routes, now, id) ==>
                  (id in DeniedIds(sessions, routes, jobs, w) <==> Denied(sessions[id], routes, w.signals(id))))
  {
    var jobs, due := Looked(sessions, routes, now, w), AllDue(sessions, routes, now);
    AnswerComplete(due, w.order, SWEEP_LIMIT);
    forall id | id in due ensures id in jobs { assert id in Ids(jobs); }
    LookedSound(sessions, routes, now, w);
    forall id | id in jobs ensures id in due { assert id in Ids(jobs); }
  }

  /** After a calm sweep what is still due at that time is what it did not look at. */
  lemma CalmSweepLeaves(sessions: Sessions, routes: Routes, now: int, w: SweepWeather)
    requires w.Calm(AllDue(sessions, routes, now))
    ensures var jobs := Looked(sessions, routes, now, w);
            && IsSelection(jobs, AllDue(sessions, routes, now), SWEEP_LIMIT)
            && (forall id :: id in jobs && id in sessions ==>
                  SweptRows(sessions, routes, now, jobs, w)[id] == Verified(sessions[id], routes, now, w.signals(id)))
            && AllDue(SweptRows(sessions, routes, now, jobs, w), routes, now)
               == AllDue(sessions, routes, now) - Ids(jobs)
  {
    var jobs, due := Looked(sessions, routes, now, w), AllDue(sessions, routes, now);
    AnswerComplete(due, w.order, SWEEP_LIMIT);
    LookedSound(sessions, routes, now, w);
    forall id | id in jobs ensures id in due { assert id in Ids(jobs); }
    var after := SweptRows(sessions, routes, now, jobs, w);
    forall id | id in sessions ensures id in AllDue(after, routes, now) <==> id in due && id !in Ids(jobs) {
      assert id in jobs <==> id in Ids(jobs);
    }
  }

  /** The rows after some sweeps at one time. */
  function Sweeps(sessions: Sessions, routes: Routes, now: int, ws: seq<SweepWeather>): Sessions {
    if ws == [] then sessions else
    var before, w := Sweeps(sessions, routes, now, ws[..|ws| - 1]), ws[|ws| - 1];
    SweptRows(before, routes, now, Looked(before, routes, now, w), w)
  }

  function Less(n: nat, m: nat): nat { if m < n then n - m else 0 }

  /** A calm sweep takes a hundred of the sessions due, or all. */
  lemma CalmSweepTakes(sessions: Sessions, routes: Routes, now: int, w: SweepWeather)
    requires w.Calm(AllDue(sessions, routes, now))
    ensures var after := SweptRows(sessions, routes, now, Looked(sessions, routes, now, w), w);
            && AllDue(after, routes, now) <= AllDue(sessions, routes, now)
            && |AllDue(after, routes, now)| == Less(|AllDue(sessions, routes, now)|, SWEEP_LIMIT)
  {
    var due, jobs := AllDue(sessions, routes, now), Looked(sessions, routes, now, w);
    CalmSweepLeaves(sessions, routes, now, w);
    AnswerLeaves(jobs, due, SWEEP_LIMIT);
  }

  /** Calm sweeps that have room for all the sessions due leave none due. */
  lemma {:induction false} CalmSweepsFinish(sessions: Sessions, routes: Routes, now: int, ws: seq<SweepWeather>)
    requires forall i :: 0 <= i < |ws| ==> ws[i].Calm(AllDue(sessions, routes, now))
    ensures AllDue(Sweeps(sessions, routes, now, ws), routes, now) <= AllDue(sessions, routes, now)
    ensures |AllDue(Sweeps(sessions, routes, now, ws), routes, now)|
            == Less(|AllDue(sessions, routes, now)|, SWEEP_LIMIT * |ws|)
  {
    if ws != [] {
      var n := |ws| - 1;
      CalmSweepsFinish(sessions, routes, now, ws[..n]);
      StillCalm(ws[n], AllDue(sessions, routes, now), AllDue(Sweeps(sessions, routes, now, ws[..n]), routes, now));
      CalmSweepTakes(Sweeps(sessions, routes, now, ws[..n]), routes, now, ws[n]);
    }
  }

  lemma StillCalm(w: SweepWeather, ids: set<string>, fewer: set<string>)
    requires w.Calm(ids) && fewer <= ids
    ensures w.Calm(fewer)
  {
  }

  /** A session the sweep revokes although the gate admits it: its route has a posture check,
      which the client passes. */
  lemma SweepRevokesAdmitted(agent: string)
    ensures var route := Route([], false, ["check"], 0); var s := Signals("", "", false, true, NoPolicy);
            !Passes(route, SweepContext(agent, s)) && Passes(route, GateContext(agent, s, 1.0))
  {
  }

  /** On a route without posture checks, a session the sweep revokes is one the gate would deny
      under the same signals or worse. */
  lemma RevokedIsDenied(sessions: Sessions, routes: Routes, now: int, w: SweepWeather, id: string, ac: Context)
    requires id in sessions && !sessions[id].revoked
    requires SweptRows(sessions, routes, now, Looked(sessions, routes, now, w), w)[id].revoked
    requires sessions[id].route in routes && routes[sessions[id].route].route.postureChecks == []
    requires 0.0 <= ac.posture && Worse(GateContext(sessions[id].agent, w.signals(id), ac.posture), ac)
    ensures !Passes(routes[sessions[id].route].route, ac)
  {
    OnlyDueChange(sessions, routes, now, w, id);
    SweepDenialStands(routes[sessions[id].route].route, sessions[id].agent, w.signals(id), ac);
  }

  class Verifier {
    var sessions: Sessions
    var cache: set<string>       // the sessions the gate finds in its cache
    const routes: Routes

    constructor (sessions: Sessions, cache: set<string>, routes: Routes)
      ensures this.sessions == sessions && this.cache == cache && this.routes == routes
    {
      this.sessions, this.cache, this.routes := sessions, cache, routes;
    }

    /** One due session whose route loaded: evaluate, then revoke it and drop it from the cache,
        or refresh it. */
    method VerifyOne(id: string, now: int, s: Signals, writes: bool, drops: bool) returns (denied: bool, stepUp: bool)
      requires id in sessions && sessions[id].route in routes
      modifies this`sessions, this`cache
      ensures denied <==> Denied(old(sessions)[id], routes, s)
      ensures sessions == if writes then old(sessions)[id := Verified(old(sessions)[id], routes, now, s)]
                          else old(sessions)
      ensures cache == if denied && drops then old(cache) - {id} else old(cache)
      ensures !stepUp
    {
      var session := sessions[id];
      var d := Evaluate(routes[session.route].route, SweepContext(session.agent, s));
      denied, stepUp := !d.allowed, false;
      if !d.allowed {
        if writes { sessions := sessions[id := session.(revoked := true, verified := Some(now))]; }
        if drops { cache := cache - {id}; }
        return;
      }
      if d.stepUp { stepUp := true; }
      if writes { sessions := sessions[id := session.(verified := Some(now), risk := d.risk)]; }
    }

    /** One sweep. The count is the number of denials, and the step-up branch is never reached. */
    method Sweep(now: int, w: SweepWeather) returns (revoked: nat, stepUps: int)
      modifies this`sessions, this`cache
      ensures var jobs := Looked(old(sessions), routes, now, w);
              && sessions == SweptRows(old(sessions), routes, now, jobs, w)
              && cache == old(cache) - Dropped(DeniedIds(old(sessions), routes, jobs, w), w.drops)
              && revoked == |DeniedIds(old(sessions), routes, jobs, w)|
      ensures stepUps == 0
    {
      ghost var start, cached := sessions, cache;
      revoked, stepUps := 0, 0;
      var jobs := [];
      if w.lists { jobs := Select(AllDue(sessions, routes, now), w.order, SWEEP_LIMIT); }
      LookedSound(start, routes, now, w);
      StandsFirst(start, cached, routes, now, w);
      for i := 0 to |jobs|
        invariant Stands(start, cached, routes, now, jobs[..i], w, sessions, cache, revoked) && stepUps == 0
      {
        var id := jobs[i];
        assert id in Ids(jobs) && jobs[..i + 1] == jobs[..i] + [id] && id !in jobs[..i];
        ghost var denied := w.loads(id) && Denied(start[id], routes, w.signals(id));
        StandsMore(start, cached, routes, now, jobs[..i], w, sessions, cache, revoked, id, denied);
        if w.loads(id) {
          var d, stepUp := VerifyOne(id, now, w.signals(id), w.writes(id), w.drops(id));
          if d { revoked := revoked + 1; }
          if stepUp { stepUps := stepUps + 1; }
        }
      }
      assert jobs[..|jobs|] == jobs;
    }
  }
}
