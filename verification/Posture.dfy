/** Scoring of posture reports, and the network trust attribute it drives. */
module Posture {
  import opened Permutation
  import opened Text

  datatype Check = Check(severity: string, status: string, score: real)

  datatype Action = Revoke | Grace | Alert | NoAction

  datatype Compliance = NonCompliant | GracePeriod | Compliant | Unknown

  function EnforcementAction(severity: string, status: string): Action {
    if status != "fail" then NoAction
    else match severity
      case "critical" => Revoke
      case "high" => Grace
      case "medium" => Alert
      case _ => NoAction
  }

  function Weight(severity: string): real {
    match severity
    case "critical" => 4.0
    case "high" => 3.0
    case "medium" => 2.0
    case _ => 1.0
  }

  function Term(c: Check): real { Weight(c.severity) * c.score }

  function WeightSum(results: seq<Check>): real {
    if results == [] then 0.0 else WeightSum(results[..|results| - 1]) + Weight(results[|results| - 1].severity)
  }

  function ScoreSum(results: seq<Check>): real {
    if results == [] then 0.0 else
    ScoreSum(results[..|results| - 1]) + Term(results[|results| - 1])
  }

  /** The weighted mean of the scores; zero without results. */
  function Mean(results: seq<Check>): real {
    if WeightSum(results) > 0.0 then ScoreSum(results) / WeightSum(results) else 0.0
  }

  function Clamp(x: real): real { if x < 0.0 then 0.0 else if x > 1.0 then 1.0 else x }

  predicate FailedWith(results: seq<Check>, severity: string) {
    exists i :: 0 <= i < |results| && results[i].status == "fail" && results[i].severity == severity
  }

  function ComplianceOf(results: seq<Check>): Compliance {
    if FailedWith(results, "critical") then NonCompliant
    else if FailedWith(results, "high") then GracePeriod
    else if Clamp(Mean(results)) >= 0.8 then Compliant
    else Unknown
  }

  /** The report handler's accumulation. */
  method Score(results: seq<Check>) returns (score: real, compliance: Compliance, actions: seq<Action>)
    ensures score == Clamp(Mean(results)) && compliance == ComplianceOf(results)
    ensures |actions| == |results|
    ensures forall i :: 0 <= i < |results| ==> actions[i] == EnforcementAction(results[i].severity, results[i].status)
  {
    var weightSum, scoreSum := Sums(results);
    score := if weightSum > 0.0 then scoreSum / weightSum else 0.0;
    if score < 0.0 { score := 0.0; } else if score > 1.0 { score := 1.0; }
    var critical, high;
    actions, critical, high := Actions(results);
    compliance := if critical then NonCompliant else if high then GracePeriod
                  else if score >= 0.8 then Compliant else Unknown;
  }

  /** The weighted half of the loop. */
  method Sums(results: seq<Check>) returns (weightSum: real, scoreSum: real)
    ensures weightSum == WeightSum(results) && scoreSum == ScoreSum(results)
  {
    weightSum, scoreSum := 0.0, 0.0;
    for i := 0 to |results|
      invariant weightSum == WeightSum(results[..i]) && scoreSum == ScoreSum(results[..i])
    {
      assert results[..i + 1][..i] == results[..i];
      weightSum, scoreSum := weightSum + Weight(results[i].severity), scoreSum + Term(results[i]);
    }
    assert results[..|results|] == results;
  }

  /** The enforcement half of the loop. */
  method Actions(results: seq<Check>) returns (actions: seq<Action>, critical: bool, high: bool)
    ensures |actions| == |results|
    ensures forall i :: 0 <= i < |results| ==> actions[i] == EnforcementAction(results[i].severity, results[i].status)
    ensures critical <==> FailedWith(results, "critical")
    ensures high <==> FailedWith(results, "high")
  {
    actions, critical, high := [], false, false;
    for i := 0 to |results|
      invariant |actions| == i
      invariant forall j :: 0 <= j < i ==> actions[j] == EnforcementAction(results[j].severity, results[j].status)
      invariant critical <==> FailedWith(results[..i], "critical")
      invariant high <==> FailedWith(results[..i], "high")
    {
      var r := results[i];
      assert results[..i + 1] == results[..i] + [r];
      FailedMore(results[..i], r, "critical");
      FailedMore(results[..i], r, "high");
      var action := EnforcementAction(r.severity, r.status);
      actions := actions + [action];
      if action == Revoke { critical := true; }
      if action == Grace { high := true; }
    }
    assert results[..|results|] == results;
  }

  lemma FailedMore(results: seq<Check>, r: Check, severity: string)
    ensures FailedWith(results + [r], severity) <==>
              FailedWith(results, severity) || (r.status == "fail" && r.severity == severity)
  {
    if i :| 0 <= i < |results| && results[i].status == "fail" && results[i].severity == severity {
      assert (results + [r])[i] == results[i];
    }
    assert (results + [r])[|results|] == r;
  }

  lemma {:induction false} SumsBounded(results: seq<Check>)
    requires forall i :: 0 <= i < |results| ==> 0.0 <= results[i].score <= 1.0
    ensures 0.0 <= ScoreSum(results) <= WeightSum(results)
  {
    if results != [] {
      var n := |results| - 1;
      SumsBounded(results[..n]);
      TermBounded(results[n]);
    }
  }

  lemma TermBounded(c: Check)
    requires 0.0 <= c.score <= 1.0
    ensures 0.0 <= Term(c) <= Weight(c.severity)
  {
    var w := Weight(c.severity);
    assert w * (1.0 - c.score) >= 0.0;
  }

  lemma RatioBounded(s: real, w: real)
    requires 0.0 <= s <= w && w > 0.0
    ensures 0.0 <= s / w <= 1.0
  {
  }

  /** The clamp is idle whenever every score lies between zero and one. */
  lemma ClampIdle(results: seq<Check>)
    requires forall i :: 0 <= i < |results| ==> 0.0 <= results[i].score <= 1.0
    ensures Clamp(Mean(results)) == Mean(results)
  {
    SumsBounded(results);
    if WeightSum(results) > 0.0 { RatioBounded(ScoreSum(results), WeightSum(results)); }
  }

  lemma {:induction false} SumsRemove(s: seq<Check>, j: nat)
    requires j < |s|
    ensures WeightSum(s) == WeightSum(Without(s, j)) + Weight(s[j].severity)
    ensures ScoreSum(s) == ScoreSum(Without(s, j)) + Term(s[j])
  {
    var k := |s| - 1;
    if j == k {
      assert Without(s, j) == s[..k];
    } else {
      SumsRemove(s[..k], j);
      WithoutInner(s, j);
    }
  }

  lemma {:induction false} SumsOrderFree(s: seq<Check>, t: seq<Check>)
    requires multiset(s) == multiset(t)
    ensures WeightSum(s) == WeightSum(t) && ScoreSum(s) == ScoreSum(t)
  {
    if s == [] {
      assert |multiset(t)| == 0;
    } else {
      var j := Match(s, t);
      SumsRemove(t, j);
      SumsOrderFree(s[..|s| - 1], Without(t, j));
    }
  }

  /** Neither the score nor the status depends on the order of the results. */
  lemma OrderFree(s: seq<Check>, t: seq<Check>)
    requires multiset(s) == multiset(t)
    ensures Mean(s) == Mean(t) && ComplianceOf(s) == ComplianceOf(t)
  {
    SumsOrderFree(s, t);
    forall sev ensures FailedWith(s, sev) <==> FailedWith(t, sev) {
      FailedMember(s, sev);
      FailedMember(t, sev);
      forall c ensures c in s <==> c in t { assert c in multiset(s) <==> c in multiset(t); }
    }
  }

  lemma FailedMember(s: seq<Check>, severity: string)
    ensures FailedWith(s, severity) <==> exists c :: c in s && c.status == "fail" && c.severity == severity
  {
    if c :| c in s && c.status == "fail" && c.severity == severity {
      var i :| 0 <= i < |s| && s[i] == c;
    }
  }

  // ---- the trust attribute ----

  const TRUSTED := "device-trusted"

  function Others(attrs: seq<string>): seq<string> {
    if attrs == [] then [] else
    Others(attrs[..|attrs| - 1]) + (if attrs[|attrs| - 1] == TRUSTED then [] else [attrs[|attrs| - 1]])
  }

  /** Adds or removes exactly the trust attribute. */
  method DeviceTrustAttrs(attrs: seq<string>, want: bool) returns (next: seq<string>, changed: bool)
    ensures TRUSTED in next <==> want
    ensures Others(next) == Others(attrs)
    ensures changed <==> (TRUSTED in attrs) != want
    ensures next == Adjusted(attrs, want)
  {
    var has := false;
    next := [];
    for i := 0 to |attrs|
      invariant has <==> TRUSTED in attrs[..i]
      invariant next == if want then attrs[..i] else Others(attrs[..i])
      invariant !want && !has ==> next == attrs[..i]
    {
      assert attrs[..i + 1] == attrs[..i] + [attrs[i]] && attrs[..i + 1][..i] == attrs[..i];
      if attrs[i] == TRUSTED {
        has := true;
        if !want { continue; }
      }
      next := next + [attrs[i]];
    }
    assert attrs[..|attrs|] == attrs;
    OthersClean(attrs);
    if want && !has {
      next := next + [TRUSTED];
      assert next[..|next| - 1] == attrs;
    }
    changed := has != want;
  }

  lemma {:induction false} OthersClean(attrs: seq<string>)
    ensures TRUSTED !in Others(attrs) && Others(Others(attrs)) == Others(attrs)
  {
    if attrs != [] {
      var n := |attrs| - 1;
      OthersClean(attrs[..n]);
      var o := Others(attrs);
      if attrs[n] != TRUSTED { assert o[..|o| - 1] == Others(attrs[..n]); } else { assert o == Others(attrs[..n]); }
    }
  }

  /** The attributes with trust granted or withdrawn. */
  function Adjusted(attrs: seq<string>, want: bool): seq<string> {
    if !want then Others(attrs) else if TRUSTED in attrs then attrs else attrs + [TRUSTED]
  }

  lemma {:induction false} OthersIdle(attrs: seq<string>)
    requires TRUSTED !in attrs
    ensures Others(attrs) == attrs
  {
    if attrs != [] { OthersIdle(attrs[..|attrs| - 1]); }
  }

  lemma AdjustedExact(attrs: seq<string>, want: bool)
    ensures TRUSTED in Adjusted(attrs, want) <==> want
    ensures Others(Adjusted(attrs, want)) == Others(attrs)
    ensures (TRUSTED in attrs) == want ==> Adjusted(attrs, want) == attrs
  {
    OthersClean(attrs);
    if !want && TRUSTED !in attrs { OthersIdle(attrs); }
    assert (attrs + [TRUSTED])[..|attrs|] == attrs;
  }

  /** Any mode but off and observe acts. */
  predicate Enforces(mode: string) { Lower(Trim(mode)) !in {"", "off", "observe"} }

  /** So a mode that is none of the documented ones enforces. */
  lemma OtherModesEnforce()
    ensures Enforces("on")
  {
    assert Trim("on") == "on" && Lower("on")[0] == 'o' && |Lower("on")| == 2;
  }

  /** One report, and whether the controller's attributes can be read and patched for it. */
  datatype Report = Report(results: seq<Check>, readable: bool, patchable: bool)

  predicate Effective(r: Report) { r.readable && r.patchable }

  predicate Deserves(r: Report) { ComplianceOf(r.results) == Compliant }

  /** The attributes after a run of reports. */
  function AttrsAfter(attrs: seq<string>, mode: string, reports: seq<Report>): seq<string> {
    if reports == [] then attrs else
    var before, r := AttrsAfter(attrs, mode, reports[..|reports| - 1]), reports[|reports| - 1];
    if Enforces(mode) && Effective(r) then Adjusted(before, Deserves(r)) else before
  }

  /** In an enforcing mode the identity is trusted exactly as the last report whose calls
      worked deserves; without one, and in other modes, nothing changes. */
  lemma {:induction false} TrustFollowsLast(attrs: seq<string>, mode: string, reports: seq<Report>, last: nat)
    requires last < |reports| && Effective(reports[last]) && Enforces(mode)
    requires forall i :: last < i < |reports| ==> !Effective(reports[i])
    ensures TRUSTED in AttrsAfter(attrs, mode, reports) <==> Deserves(reports[last])
  {
    var n := |reports| - 1;
    if last < n {
      TrustFollowsLast(attrs, mode, reports[..n], last);
    } else {
      AdjustedExact(AttrsAfter(attrs, mode, reports[..n]), Deserves(reports[n]));
    }
  }

  lemma {:induction false} OthersFollow(attrs: seq<string>, mode: string, reports: seq<Report>)
    ensures Others(AttrsAfter(attrs, mode, reports)) == Others(attrs)
    ensures !Enforces(mode) || (forall i :: 0 <= i < |reports| ==> !Effective(reports[i])) ==>
              AttrsAfter(attrs, mode, reports) == attrs
  {
    if reports != [] {
      var n := |reports| - 1;
      OthersFollow(attrs, mode, reports[..n]);
      AdjustedExact(AttrsAfter(attrs, mode, reports[..n]), Deserves(reports[n]));
    }
  }

  class Identity {
    var attrs: seq<string>

    constructor (attrs: seq<string>)
      ensures this.attrs == attrs
    {
      this.attrs := attrs;
    }

    /** Applies one verdict: read, decide, patch. */
    method ApplyTrust(mode: string, compliance: Compliance, readable: bool, patchable: bool)
      modifies this
      ensures attrs == if Enforces(mode) && readable && patchable then Adjusted(old(attrs), compliance == Compliant)
                       else old(attrs)
    {
      AdjustedExact(attrs, compliance == Compliant);
      var m := Lower(Trim(mode));
      if m == "" || m == "off" { return; }
      if !readable { return; }
      var next, changed := DeviceTrustAttrs(attrs, compliance == Compliant);
      if !changed || m == "observe" { return; }
      if !patchable { return; }
      attrs := next;
    }

    /** Any sequence of reports. */
    method HandleReports(mode: string, reports: seq<Report>)
      modifies this
      ensures attrs == AttrsAfter(old(attrs), mode, reports)
    {
      for i := 0 to |reports|
        invariant attrs == AttrsAfter(old(attrs), mode, reports[..i])
      {
        assert reports[..i + 1][..i] == reports[..i];
        var score, compliance, actions := Score(reports[i].results);
        ApplyTrust(mode, compliance, reports[i].readable, reports[i].patchable);
      }
      assert reports[..|reports|] == reports;
    }
  }
}
