/** Single-use approvals of privileged sessions. */
module SessionApprovals {
  import opened Common

  datatype Status = Pending | Approved | Denied | Consumed

  datatype Request = Request(org: string, connection: string, requester: string, status: Status,
                             expires: Option<int>, created: int)

  /** Decisions taken, and approvals spent on a connect (which may still fail afterwards). */
  datatype Event =
    | Decision(id: string, status: Status)
    | Spent(id: string, connection: string, user: string, at: int, launched: bool)

  type Requests = map<string, Request>
  type Log = seq<Event>

  const HOUR := 3600

  predicate Unexpired(r: Request, now: int) { r.expires.None? || r.expires.value > now }

  /** An approval the connect handler may spend. */
  predicate Usable(r: Request, org: string, connection: string, user: string, now: int) {
    r.org == org && r.connection == connection && r.requester == user && r.status == Approved && Unexpired(r, now)
  }

  predicate AnyUsable(requests: Requests, org: string, connection: string, user: string, now: int) {
    exists id :: id in requests && Usable(requests[id], org, connection, user, now)
  }

  predicate IsNewest(requests: Requests, id: string, org: string, connection: string, user: string, now: int) {
    && id in requests && Usable(requests[id], org, connection, user, now)
    && forall other :: other in requests && Usable(requests[other], org, connection, user, now) ==>
         requests[other].created <= requests[id].created
  }

  /** Each request's status is what its events say. */
  ghost predicate StatusMatches(requests: Requests, log: Log) {
    && (forall e :: e in log ==> e.id in requests)
    && (forall id :: id in requests ==>
          && (Decision(id, Approved) in log <==> requests[id].status == Approved || requests[id].status == Consumed)
          && (Decision(id, Denied) in log <==> requests[id].status == Denied)
          && (id in SpentIds(log) <==> requests[id].status == Consumed))
  }

  /** An approval is spent by its own requester on its own connection before it expires, and
      no request is decided twice or spent twice. */
  ghost predicate SpendsAreProper(requests: Requests, log: Log) {
    && (forall e :: e in log && e.Decision? ==> e.status == Approved || e.status == Denied)
    && (forall e :: e in log && e.Spent? && e.id in requests ==>
          && requests[e.id].connection == e.connection && requests[e.id].requester == e.user
          && Unexpired(requests[e.id], e.at))
    && OncePerRequest(log)
  }

  ghost predicate OncePerRequest(log: Log) {
    forall i, j :: 0 <= i < j < |log| && log[i].id == log[j].id ==> log[i].Decision? && log[j].Spent?
  }

  function Launches(log: Log): nat {
    if log == [] then 0 else
    Launches(log[..|log| - 1]) + (if log[|log| - 1].Spent? && log[|log| - 1].launched then 1 else 0)
  }

  function Approvals(log: Log): nat {
    if log == [] then 0 else
    Approvals(log[..|log| - 1]) + (if log[|log| - 1].Decision? && log[|log| - 1].status == Approved then 1 else 0)
  }

  function SpentIds(log: Log): set<string> { set e | e in log && e.Spent? :: e.id }

  function ApprovedIds(log: Log): set<string> { set e | e in log && e.Decision? && e.status == Approved :: e.id }

  lemma SpentMore(log: Log, e: Event)
    ensures SpentIds(log + [e]) == SpentIds(log) + if e.Spent? then {e.id} else {}
  {
  }

  lemma {:induction false} CountLaunches(log: Log)
    requires OncePerRequest(log)
    ensures Launches(log) <= |SpentIds(log)|
  {
    if log != [] {
      var n := |log| - 1;
      var rest, e := log[..n], log[n];
      CountLaunches(rest);
      assert log == rest + [e];
      SpentMore(rest, e);
      if e.Spent? { SpentIsNew(log); }
    }
  }

  lemma SpentIsNew(log: Log)
    requires OncePerRequest(log) && log != [] && log[|log| - 1].Spent?
    ensures log[|log| - 1].id !in SpentIds(log[..|log| - 1])
  {
    var n := |log| - 1;
    forall x | x in log[..n] && x.Spent? ensures x.id != log[n].id {
      var i :| 0 <= i < n && log[i] == x;
    }
  }

  lemma {:induction false} CountApprovals(log: Log)
    ensures |ApprovedIds(log)| <= Approvals(log)
  {
    if log != [] {
      var n := |log| - 1;
      var rest, e := log[..n], log[n];
      CountApprovals(rest);
      assert log == rest + [e];
      assert ApprovedIds(log) == ApprovedIds(rest) + if e.Decision? && e.status == Approved then {e.id} else {};
    }
  }

  /** Launches on approval-gated connections never exceed approvals. */
  lemma LaunchesBounded(requests: Requests, log: Log)
    requires StatusMatches(requests, log) && SpendsAreProper(requests, log)
    ensures Launches(log) <= Approvals(log)
  {
    CountLaunches(log);
    CountApprovals(log);
    forall id | id in SpentIds(log) ensures id in ApprovedIds(log) {
      assert requests[id].status == Consumed;
      assert Decision(id, Approved) in log;
    }
    SubsetSize(SpentIds(log), ApprovedIds(log));
  }

  lemma DecideKeeps(requests: Requests, log: Log, id: string, status: Status)
    requires StatusMatches(requests, log) && SpendsAreProper(requests, log)
    requires id in requests && requests[id].status == Pending && (status == Approved || status == Denied)
    ensures StatusMatches(requests[id := requests[id].(status := status)], log + [Decision(id, status)])
    ensures SpendsAreProper(requests[id := requests[id].(status := status)], log + [Decision(id, status)])
  {
    NoEvents(requests, log, id);
    MoreEvents(log, Decision(id, status));
    var log' := log + [Decision(id, status)];
    assert forall i :: 0 <= i < |log| ==> log'[i] in log;
  }

  lemma NoEvents(requests: Requests, log: Log, id: string)
    requires StatusMatches(requests, log) && SpendsAreProper(requests, log)
    requires id in requests && requests[id].status == Pending
    ensures forall e :: e in log ==> e.id != id
  {
    forall e | e in log ensures e.id != id {
      assert e.Decision? ==> e == Decision(e.id, e.status);
    }
  }

  lemma MoreEvents(log: Log, e: Event)
    ensures forall x :: x in log + [e] <==> x in log || x == e
  {
  }

  lemma SpendKeeps(requests: Requests, log: Log, id: string, at: int, launched: bool)
    requires StatusMatches(requests, log) && SpendsAreProper(requests, log)
    requires id in requests && requests[id].status == Approved && Unexpired(requests[id], at)
    ensures var e := Spent(id, requests[id].connection, requests[id].requester, at, launched);
            && StatusMatches(requests[id := requests[id].(status := Consumed)], log + [e])
            && SpendsAreProper(requests[id := requests[id].(status := Consumed)], log + [e])
  {
    var e := Spent(id, requests[id].connection, requests[id].requester, at, launched);
    MoreEvents(log, e);
    var log', requests' := log + [e], requests[id := requests[id].(status := Consumed)];
    forall i, j | 0 <= i < j < |log'| && log'[i].id == log'[j].id ensures log'[i].Decision? && log'[j].Spent? {
      if j == |log| { assert log'[i] in log; }
    }
    SpentMore(log, e);
  }

  // ---- steps ----

  datatype State = State(requests: Requests, log: Log)

  const NoState := State(map[], [])

  ghost predicate Inv(s: State) { StatusMatches(s.requests, s.log) && SpendsAreProper(s.requests, s.log) }

  /** What may be asked of the broker, with the luck of each statement (`stored`, `answered`) and
      whether everything after the approval gate lets the session through (`admitted`). */
  datatype Op =
    | Ask(id: string, org: string, connection: string, user: string, now: int, stored: bool)
    | Decide(id: string, org: string, approve: bool, stored: bool)
    | Connect(org: string, connection: string, requireApproval: bool, user: string, now: int, answered: bool,
              admitted: bool)

  predicate Decidable(s: State, id: string, org: string) {
    id in s.requests && s.requests[id].org == org && s.requests[id].status == Pending
  }

  function Decided(s: State, id: string, approve: bool): State
    requires id in s.requests
  {
    var status := if approve then Approved else Denied;
    State(s.requests[id := s.requests[id].(status := status)], s.log + [Decision(id, status)])
  }

  function Spending(s: State, id: string, connection: string, user: string, now: int, launched: bool): State
    requires id in s.requests
  {
    State(s.requests[id := s.requests[id].(status := Consumed)], s.log + [Spent(id, connection, user, now, launched)])
  }

  /** The step from one state to the next. A gated connect spends the newest usable approval,
      whether or not the session is admitted afterwards; without one nothing happens. */
  ghost predicate Next(s: State, op: Op, s': State) {
    match op
    case Ask(id, org, connection, user, now, stored) =>
      s' == if stored && id !in s.requests
            then s.(requests := s.requests[id := Request(org, connection, user, Pending, Some(now + HOUR), now)]) else s
    case Decide(id, org, approve, stored) =>
      s' == if stored && Decidable(s, id, org) then Decided(s, id, approve) else s
    case Connect(org, connection, requireApproval, user, now, answered, admitted) =>
      if requireApproval && answered && AnyUsable(s.requests, org, connection, user, now)
      then exists id :: (&& IsNewest(s.requests, id, org, connection, user, now)
                         && s' == Spending(s, id, connection, user, now, admitted))
      else s' == s
  }

  /** A connect on a gated connection that ends in a session. */
  predicate LaunchesGated(s: State, op: Op) {
    && op.Connect? && op.requireApproval && op.answered && op.admitted
    && AnyUsable(s.requests, op.org, op.connection, op.user, op.now)
  }

  predicate Approves(s: State, op: Op) { op.Decide? && op.stored && op.approve && Decidable(s, op.id, op.org) }

  /** A request's status moves from pending to approved to consumed, or from pending to denied;
      nothing else about it changes, and it stays. */
  ghost predicate Moves(s: State, s': State) {
    forall id :: id in s.requests ==>
      && id in s'.requests
      && (|| s'.requests[id] == s.requests[id]
          || (s.requests[id].status == Pending && s'.requests[id] == s.requests[id].(status := Approved))
          || (s.requests[id].status == Pending && s'.requests[id] == s.requests[id].(status := Denied))
          || (s.requests[id].status == Approved && s'.requests[id] == s.requests[id].(status := Consumed)))
  }

  lemma NextMoves(s: State, op: Op, s': State)
    requires Next(s, op, s')
    ensures Moves(s, s')
  {
  }

  lemma CountMore(log: Log, e: Event)
    ensures Launches(log + [e]) == Launches(log) + if e.Spent? && e.launched then 1 else 0
    ensures Approvals(log + [e]) == Approvals(log) + if e.Decision? && e.status == Approved then 1 else 0
  {
    assert (log + [e])[..|log|] == log;
  }

  /** Every step keeps the invariant. */
  lemma NextKeeps(s: State, op: Op, s': State)
    requires Inv(s) && Next(s, op, s')
    ensures Inv(s')
  {
    match op
    case Ask(_, _, _, _, _, _) =>
    case Decide(id, org, approve, stored) =>
      if stored && Decidable(s, id, org) {
        DecideKeeps(s.requests, s.log, id, if approve then Approved else Denied);
      }
    case Connect(org, connection, requireApproval, user, now, answered, admitted) =>
      if requireApproval && answered && AnyUsable(s.requests, org, connection, user, now) {
        var id :| IsNewest(s.requests, id, org, connection, user, now)
                  && s' == Spending(s, id, connection, user, now, admitted);
        SpendKeeps(s.requests, s.log, id, now, admitted);
      }
  }

  /** The log counts the launches and the approvals. */
  lemma NextCounts(s: State, op: Op, s': State)
    requires Next(s, op, s')
    ensures Launches(s'.log) == Launches(s.log) + if LaunchesGated(s, op) then 1 else 0
    ensures Approvals(s'.log) == Approvals(s.log) + if Approves(s, op) then 1 else 0
  {
    if s'.log != s.log { CountMore(s.log, s'.log[|s.log|]); }
  }

  // ---- whole runs ----

  /** The states a run of operations goes through, from the empty one. */
  ghost predicate IsRun(states: seq<State>, ops: seq<Op>) {
    && |states| == |ops| + 1 && states[0] == NoState
    && forall i :: 0 <= i < |ops| ==> Next(states[i], ops[i], states[i + 1])
  }

  function GatedLaunches(states: seq<State>, ops: seq<Op>): nat
    requires |states| == |ops| + 1
  {
    if ops == [] then 0 else
    var n := |ops| - 1;
    GatedLaunches(states[..|ops|], ops[..n]) + (if LaunchesGated(states[n], ops[n]) then 1 else 0)
  }

  function ApprovalsGiven(states: seq<State>, ops: seq<Op>): nat
    requires |states| == |ops| + 1
  {
    if ops == [] then 0 else
    var n := |ops| - 1;
    ApprovalsGiven(states[..|ops|], ops[..n]) + (if Approves(states[n], ops[n]) then 1 else 0)
  }

  lemma RunPrefix(states: seq<State>, ops: seq<Op>)
    requires IsRun(states, ops) && ops != []
    ensures IsRun(states[..|ops|], ops[..|ops| - 1])
  {
    var n := |ops| - 1;
    forall i | 0 <= i < n ensures Next(states[..|ops|][i], ops[..n][i], states[..|ops|][i + 1]) {
      assert Next(states[i], ops[i], states[i + 1]);
    }
  }

  lemma {:induction false} RunKeeps(states: seq<State>, ops: seq<Op>)
    requires IsRun(states, ops)
    ensures Inv(states[|ops|])
  {
    if ops != [] {
      var n := |ops| - 1;
      RunPrefix(states, ops);
      RunKeeps(states[..|ops|], ops[..n]);
      assert Next(states[n], ops[n], states[n + 1]);
      NextKeeps(states[n], ops[n], states[|ops|]);
    }
  }

  /** The log counts what the operations of the run did. */
  lemma {:induction false} RunCounts(states: seq<State>, ops: seq<Op>)
    requires IsRun(states, ops)
    ensures Launches(states[|ops|].log) == GatedLaunches(states, ops)
    ensures Approvals(states[|ops|].log) == ApprovalsGiven(states, ops)
  {
    if ops != [] {
      var n := |ops| - 1;
      RunPrefix(states, ops);
      RunCounts(states[..|ops|], ops[..n]);
      assert Next(states[n], ops[n], states[n + 1]);
      NextCounts(states[n], ops[n], states[|ops|]);
    }
  }

  /** In any run, sessions launched on gated connections number no more than approvals given. */
  lemma RunBounded(states: seq<State>, ops: seq<Op>)
    requires IsRun(states, ops)
    ensures GatedLaunches(states, ops) <= ApprovalsGiven(states, ops)
  {
    RunKeeps(states, ops);
    RunCounts(states, ops);
    LaunchesBounded(states[|ops|].requests, states[|ops|].log);
  }

  // ---- the broker ----

  class Broker {
    var requests: Requests
    ghost var log: Log

    ghost function St(): State
      reads this
    {
      State(requests, log)
    }

    constructor ()
      ensures St() == NoState
    {
      requests, log := map[], [];
    }

    /** Files a request that lapses after an hour. */
    method AskFor(id: string, org: string, connection: string, user: string, now: int, stored: bool) returns (ok: bool)
      modifies this`requests
      ensures Next(old(St()), Ask(id, org, connection, user, now, stored), St())
      ensures ok <==> stored && id !in old(requests)
    {
      ok := stored && id !in requests;
      if ok { requests := requests[id := Request(org, connection, user, Pending, Some(now + HOUR), now)]; }
    }

    /** Approve or deny: one guarded update, in the decider's org. */
    method DecideOn(id: string, org: string, approve: bool, stored: bool) returns (ok: bool)
      modifies this
      ensures Next(old(St()), Decide(id, org, approve, stored), St())
      ensures ok <==> stored && Decidable(old(St()), id, org)
    {
      ok := stored && id in requests && requests[id].org == org && requests[id].status == Pending;
      if ok {
        var status := if approve then Approved else Denied;
        requests, log := requests[id := requests[id].(status := status)], log + [Decision(id, status)];
      }
    }

    /** The newest usable approval. */
    method Newest(org: string, connection: string, user: string, now: int) returns (found: Option<string>)
      ensures found.Some? ==> IsNewest(requests, found.value, org, connection, user, now)
      ensures found.Some? <==> AnyUsable(requests, org, connection, user, now)
    {
      found := None;
      var left := requests.Keys;
      while left != {}
        invariant left <= requests.Keys
        invariant found.Some? ==> found.value in requests && Usable(requests[found.value], org, connection, user, now)
        invariant forall id :: id in requests && id !in left && Usable(requests[id], org, connection, user, now) ==>
                    found.Some? && requests[id].created <= requests[found.value].created
        decreases |left|
      {
        var id :| id in left;
        left := left - {id};
        if Usable(requests[id], org, connection, user, now)
           && (found.None? || requests[found.value].created < requests[id].created) {
          found := Some(id);
        }
      }
    }

    /** The connect handler's gate order: spend an approval first, then everything that may
        still refuse the session. */
    method ConnectTo(org: string, connection: string, requireApproval: bool, user: string, now: int,
                     answered: bool, admitted: bool) returns (launched: bool)
      modifies this
      ensures Next(old(St()), Connect(org, connection, requireApproval, user, now, answered, admitted), St())
      ensures launched <==>
                admitted && (requireApproval ==> answered && AnyUsable(old(requests), org, connection, user, now))
    {
      if requireApproval {
        if !answered { return false; }
        var found := Newest(org, connection, user, now);
        if found.None? { return false; }
        var id := found.value;
        ghost var s := St();
        requests := requests[id := requests[id].(status := Consumed)];
        log := log + [Spent(id, connection, user, now, admitted)];
        assert IsNewest(s.requests, id, org, connection, user, now);
        assert St() == Spending(s, id, connection, user, now, admitted);
      }
      return admitted;
    }
  }

  /** Serves any sequence of operations; the broker ends in the last state of a run of them. */
  method Serve(ops: seq<Op>) returns (b: Broker, ghost states: seq<State>)
    ensures IsRun(states, ops) && b.St() == states[|ops|]
  {
    b := new Broker();
    states := [NoState];
    for i := 0 to |ops|
      invariant fresh(b) && |states| == i + 1 && states[0] == NoState && b.St() == states[i]
      invariant forall j :: 0 <= j < i ==> Next(states[j], ops[j], states[j + 1])
    {
      match ops[i] {
        case Ask(id, org, connection, user, now, stored) => var _ := b.AskFor(id, org, connection, user, now, stored);
        case Decide(id, org, approve, stored) => var _ := b.DecideOn(id, org, approve, stored);
        case Connect(org, connection, gated, user, now, answered, admitted) =>
          var _ := b.ConnectTo(org, connection, gated, user, now, answered, admitted);
      }
      states := states + [b.St()];
    }
  }
}
