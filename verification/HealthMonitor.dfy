/** The health monitor's failure counter and its alerts. */
module HealthMonitor {

  datatype HealthStatus = HealthStatus(healthy: bool, failCount: nat)

  /** Length of the current run of failed checks. */
  function Streak(history: seq<bool>): nat {
    if history == [] || history[|history| - 1] then 0 else 1 + Streak(history[..|history| - 1])
  }

  /** The stored count: the current streak, less one if it began with the very first check. */
  function FailCount(history: seq<bool>): nat {
    if history != [] && Streak(history) == |history| then Streak(history) - 1 else Streak(history)
  }

  /** A streak begins at i. */
  predicate Begins(history: seq<bool>, i: nat) {
    i < |history| && !history[i] && (i == 0 || history[i - 1])
  }

  /** How many failures a streak needs before its count reaches the threshold. */
  function Needed(threshold: int, i: nat): int { threshold + (if i == 0 then 1 else 0) }

  /** The streak beginning at i went on long enough for its count to reach the threshold. */
  predicate Reached(history: seq<bool>, threshold: int, i: nat) {
    && Begins(history, i)
    && i + Needed(threshold, i) <= |history|
    && forall k :: i <= k < i + Needed(threshold, i) ==> !history[k]
  }

  function ReachedStreaks(history: seq<bool>, threshold: int): set<nat> {
    set i: nat | 0 <= i < |history| && Reached(history, threshold, i)
  }

  lemma {:induction false} StreakIsTail(history: seq<bool>)
    ensures Streak(history) <= |history|
    ensures forall k :: |history| - Streak(history) <= k < |history| ==> !history[k]
    ensures Streak(history) < |history| ==> history[|history| - Streak(history) - 1]
    ensures Streak(history) > 0 ==> Begins(history, |history| - Streak(history))
  {
    if history != [] && !history[|history| - 1] { StreakIsTail(history[..|history| - 1]); }
  }

  /** A check makes a streak reach the threshold exactly when the new count equals it, and
      then it is the current streak. */
  lemma ReachedMore(history: seq<bool>, healthy: bool, threshold: int)
    requires threshold >= 1
    ensures var now := history + [healthy];
            ReachedStreaks(now, threshold) == ReachedStreaks(history, threshold)
              + (if FailCount(now) == threshold then {|now| - Streak(now)} else {})
    ensures FailCount(history + [healthy]) == threshold ==>
              |history| + 1 - Streak(history + [healthy]) !in ReachedStreaks(history, threshold)
  {
    var now := history + [healthy];
    StreakIsTail(now);
    var start := |now| - Streak(now);
    forall i: nat | i < |now|
      ensures Reached(now, threshold, i) <==>
                Reached(history, threshold, i) || (FailCount(now) == threshold && i == start)
    {
      if Reached(history, threshold, i) {
        assert forall k :: i <= k < i + Needed(threshold, i) ==> now[k] == history[k];
        assert Reached(now, threshold, i);
      }
      if Reached(now, threshold, i) && i + Needed(threshold, i) == |now| {
        assert i == start;
      }
      if Reached(now, threshold, i) && i + Needed(threshold, i) <= |history| {
        assert forall k :: i <= k < i + Needed(threshold, i) ==> now[k] == history[k];
      }
    }
  }

  lemma CountMore(history: seq<bool>, healthy: bool)
    ensures FailCount(history + [healthy]) == if history == [] || healthy then 0 else FailCount(history) + 1
  {
    assert (history + [healthy])[..|history|] == history;
    StreakIsTail(history);
  }

  /** The counter and the alerts of one service are what its history calls for. */
  ghost predicate ServiceOk(status: HealthStatus, alerts: nat, history: seq<bool>, threshold: int) {
    && history != []
    && status == HealthStatus(history[|history| - 1], FailCount(history))
    && (threshold >= 1 ==> alerts == |ReachedStreaks(history, threshold)|)
  }

  lemma ServiceMore(history: seq<bool>, alerts: nat, healthy: bool, threshold: int)
    requires threshold >= 1 ==> alerts == |ReachedStreaks(history, threshold)|
    ensures var now := history + [healthy];
            ServiceOk(HealthStatus(healthy, FailCount(now)), if FailCount(now) == threshold then alerts + 1 else alerts,
                      now, threshold)
  {
    if threshold >= 1 { ReachedMore(history, healthy, threshold); }
  }

  ghost predicate AllOk(statuses: map<string, HealthStatus>, alerts: map<string, nat>,
                        history: map<string, seq<bool>>, threshold: int) {
    && statuses.Keys == alerts.Keys == history.Keys
    && forall s :: s in statuses ==> ServiceOk(statuses[s], alerts[s], history[s], threshold)
  }

  lemma AllOkUpdates(statuses: map<string, HealthStatus>, alerts: map<string, nat>, history: map<string, seq<bool>>,
                     threshold: int,
                     service: string, status: HealthStatus, sent: nat, checks: seq<bool>)
    requires AllOk(statuses, alerts, history, threshold) && ServiceOk(status, sent, checks, threshold)
    ensures AllOk(statuses[service := status], alerts[service := sent], history[service := checks], threshold)
  {
  }

  function Past(history: map<string, seq<bool>>, service: string): seq<bool> {
    if service in history then history[service] else []
  }

  function Sent(alerts: map<string, nat>, service: string): nat { if service in alerts then alerts[service] else 0 }

  class Monitor {
    const threshold: int
    var statuses: map<string, HealthStatus>
    var alerts: map<string, nat>                 // alerts sent, by service
    ghost var history: map<string, seq<bool>>    // healthy or not, oldest first

    ghost predicate Valid()
      reads this
    {
      AllOk(statuses, alerts, history, threshold)
    }

    constructor (threshold: int)
      ensures Valid() && statuses == map[] && history == map[] && this.threshold == Threshold(threshold)
    {
      this.threshold := Threshold(threshold);
      statuses, alerts, history := map[], map[], map[];
    }

    /** One check of one service. It alerts exactly when a streak has just reached the
        threshold, so at most once per streak. */
    method UpdateStatus(service: string, healthy: bool) returns (alerted: bool)
      requires Valid()
      modifies this
      ensures Valid()
      ensures history == old(history)[service := Past(old(history), service) + [healthy]]
      ensures alerted <==> FailCount(history[service]) == threshold
      ensures alerts == old(alerts)[service := Sent(old(alerts), service) + if alerted then 1 else 0]
    {
      ghost var before := Past(history, service);
      var sent := Sent(alerts, service);
      var failCount := 0;
      if service in statuses {
        if !healthy { failCount := statuses[service].failCount + 1; } else { failCount := 0; }
      }
      CountMore(before, healthy);
      assert ReachedStreaks([], threshold) == {};
      ServiceMore(before, sent, healthy, threshold);
      alerted := failCount == threshold;
      AllOkUpdates(statuses, alerts, history, threshold, service, HealthStatus(healthy, failCount),
                   if alerted then sent + 1 else sent, before + [healthy]);
      statuses := statuses[service := HealthStatus(healthy, failCount)];
      alerts := alerts[service := if alerted then sent + 1 else sent];
      history := history[service := before + [healthy]];
    }
  }

  /** The checks of one service, in order. */
  function HistoryOf(checks: seq<(string, bool)>, service: string): seq<bool> {
    if checks == [] then [] else
    HistoryOf(checks[..|checks| - 1], service)
    + (if checks[|checks| - 1].0 == service then [checks[|checks| - 1].1] else [])
  }

  /** A zero threshold means three. */
  function Threshold(given: int): int { if given == 0 then 3 else given }

  /** Any sequence of checks of any services: the services checked are the ones known, each
      counter is the one its service's history calls for, and the alerts sent are the streaks
      that reached the threshold. */
  method Watch(threshold: int, checks: seq<(string, bool)>) returns (m: Monitor)
    ensures m.threshold == Threshold(threshold)
    ensures m.statuses.Keys == m.alerts.Keys == Services(checks)
    ensures forall s :: s in Services(checks) ==>
              ServiceOk(m.statuses[s], m.alerts[s], HistoryOf(checks, s), m.threshold)
  {
    m := new Monitor(threshold);
    for i := 0 to |checks|
      invariant fresh(m) && m.Valid() && m.threshold == Threshold(threshold)
      invariant Follows(m.history, checks[..i]) && m.history.Keys == Services(checks[..i])
    {
      assert checks[..i + 1] == checks[..i] + [checks[i]];
      FollowsMore(m.history, checks[..i], checks[i]);
      var _ := m.UpdateStatus(checks[i].0, checks[i].1);
    }
    assert checks[..|checks|] == checks;
    forall s | s in m.statuses ensures ServiceOk(m.statuses[s], m.alerts[s], HistoryOf(checks, s), m.threshold) {
      assert HistoryOf(checks, s) == Past(m.history, s);
    }
  }

  function Services(checks: seq<(string, bool)>): set<string> { set c | c in checks :: c.0 }

  ghost predicate Follows(history: map<string, seq<bool>>, checks: seq<(string, bool)>) {
    forall s :: HistoryOf(checks, s) == Past(history, s)
  }

  lemma FollowsMore(history: map<string, seq<bool>>, checks: seq<(string, bool)>, c: (string, bool))
    requires Follows(history, checks)
    ensures Follows(history[c.0 := Past(history, c.0) + [c.1]], checks + [c])
  {
    forall s ensures HistoryOf(checks + [c], s) == HistoryOf(checks, s) + if c.0 == s then [c.1] else [] {
      assert (checks + [c])[..|checks|] == checks;
    }
    assert forall s :: HistoryOf(checks, s) == Past(history, s);
  }
}
