/** The context-aware access decision of the forward-auth gate. */
module AccessDecision {
  import opened Text

  /** What the inline policy says; its language is a parameter of the decision. */
  datatype Verdict = NoPolicy | Permits | Forbids | Fails

  datatype Route = Route(allowedCountries: seq<string>, requireTrust: bool, postureChecks: seq<string>, maxRisk: int)

  datatype Context = Context(sessionAgent: string, agent: string, country: string, threat: string, blocked: bool,
                             trusted: bool, posture: real, policy: Verdict)

  datatype Decision = Decision(allowed: bool, stepUp: bool, risk: int)

  // ---- user agents ----

  function BrowserFamily(agent: string): string {
    var ua := Lower(agent);
    if Contains(ua, "edg/") || Contains(ua, "edga/") || Contains(ua, "edgios/") then "edge"
    else if Contains(ua, "opr/") || Contains(ua, "opera") then "opera"
    else if Contains(ua, "firefox/") then "firefox"
    else if Contains(ua, "chrome/") && Contains(ua, "safari/") then "chrome"
    else if Contains(ua, "safari/") && !Contains(ua, "chrome/") then "safari"
    else if Contains(ua, "curl/") then "curl"
    else ""
  }

  function OsFamily(agent: string): string {
    var ua := Lower(agent);
    if Contains(ua, "windows") then "windows"
    else if Contains(ua, "iphone") || Contains(ua, "ipad") then "ios"
    else if Contains(ua, "macintosh") || Contains(ua, "mac os") then "macos"
    else if Contains(ua, "android") then "android"
    else if Contains(ua, "linux") then "linux"
    else if Contains(ua, "chromeos") || Contains(ua, "cros") then "chromeos"
    else ""
  }

  /** Both families are known and at least one of them differs. */
  predicate MajorChange(original: string, current: string) {
    var b, b', o, o' := BrowserFamily(original), BrowserFamily(current), OsFamily(original), OsFamily(current);
    (b != "" && b' != "" && b != b') || (o != "" && o' != "" && o != o')
  }

  function AgentRisk(ac: Context): int {
    if ac.sessionAgent == "" || ac.agent == "" || ac.agent == ac.sessionAgent then 0
    else if MajorChange(ac.sessionAgent, ac.agent) then 35 else 10
  }

  // ---- posture ----

  function CountPassed(results: seq<bool>): nat {
    if results == [] then 0 else CountPassed(results[..|results| - 1]) + (if results[|results| - 1] then 1 else 0)
  }

  lemma {:induction false} CountPassedBound(results: seq<bool>)
    ensures CountPassed(results) <= |results|
  {
    if results != [] { CountPassedBound(results[..|results| - 1]); }
  }

  /** The share of checks passed; one if the evaluation passed, zero without results. */
  method PostureScore(passed: bool, results: seq<bool>) returns (score: real)
    ensures 0.0 <= score <= 1.0
    ensures passed ==> score == 1.0
    ensures !passed && results != [] ==> score * |results| as real == CountPassed(results) as real
  {
    if passed { return 1.0; }
    var count := 0;
    for i := 0 to |results|
      invariant count == CountPassed(results[..i])
    {
      assert results[..i + 1][..i] == results[..i];
      if results[i] { count := count + 1; }
    }
    assert results[..|results|] == results;
    CountPassedBound(results);
    if |results| == 0 { return 0.0; }
    ShareBounded(count, |results|);
    return count as real / |results| as real;
  }

  lemma ShareBounded(count: nat, total: nat)
    requires count <= total && total > 0
    ensures 0.0 <= count as real / total as real <= 1.0
    ensures (count as real / total as real) * total as real == count as real
  {
  }

  // ---- the decision ----

  predicate SameCountry(a: string, b: string) { Lower(a) == Lower(b) }

  predicate GeoOk(route: Route, ac: Context) {
    || route.allowedCountries == [] || ac.country == ""
    || exists i :: 0 <= i < |route.allowedCountries| && SameCountry(route.allowedCountries[i], ac.country)
  }

  /** The four risk contributions, capped. */
  function Risk(route: Route, ac: Context): int {
    var sum := (if ac.threat != "" then 30 else 0) + AgentRisk(ac) + (if ac.trusted then 0 else 15)
               + (if route.postureChecks != [] && ac.posture < 0.5 then 25 else 0);
    if sum > 100 then 100 else sum
  }

  /** The requirements whose failure asks for a step-up. */
  predicate TrustAndRiskOk(route: Route, ac: Context) {
    && (route.requireTrust ==> ac.trusted)
    && (route.postureChecks != [] ==> ac.posture != 0.0)
    && (route.maxRisk > 0 ==> Risk(route, ac) <= route.maxRisk)
  }

  predicate Passes(route: Route, ac: Context) {
    !ac.blocked && GeoOk(route, ac) && TrustAndRiskOk(route, ac) && (ac.policy.NoPolicy? || ac.policy.Permits?)
  }

  datatype Unmet = Nothing | Blocked | Geo | Trust | Posture | Threshold | Policy

  /** The requirement of highest priority that is not met. */
  function FirstUnmet(route: Route, ac: Context): (first: Unmet)
    ensures first.Nothing? <==> Passes(route, ac)
  {
    if ac.blocked then Blocked
    else if !GeoOk(route, ac) then Geo
    else if route.requireTrust && !ac.trusted then Trust
    else if route.postureChecks != [] && ac.posture == 0.0 then Posture
    else if route.maxRisk > 0 && Risk(route, ac) > route.maxRisk then Threshold
    else if ac.policy.Fails? || ac.policy.Forbids? then Policy
    else Nothing
  }

  /** The evaluation as written: checks in priority order, accumulating risk, returning at the
      first denial. */
  method Evaluate(route: Route, ac: Context) returns (d: Decision)
    ensures d.allowed <==> Passes(route, ac)
    ensures d.stepUp <==> !ac.blocked && GeoOk(route, ac) && !TrustAndRiskOk(route, ac)
    ensures 0 <= d.risk <= 100
    ensures d.risk == (match FirstUnmet(route, ac)
                       case Blocked => 100 case Geo => 80 case Trust => 70 case Posture => 75
                       case Threshold => Risk(route, ac) case Policy => Risk(route, ac) case Nothing => Risk(route, ac))
  {
    var risk := 0;
    if ac.blocked { return Decision(false, false, 100); }
    if ac.threat != "" { risk := risk + 30; }
    if |route.allowedCountries| > 0 && ac.country != "" {
      var allowed := false;
      var i := 0;
      while i < |route.allowedCountries| && !allowed
        invariant 0 <= i <= |route.allowedCountries|
        invariant allowed ==> i > 0 && SameCountry(route.allowedCountries[i - 1], ac.country)
        invariant !allowed ==> forall j :: 0 <= j < i ==> !SameCountry(route.allowedCountries[j], ac.country)
      {
        allowed := SameCountry(route.allowedCountries[i], ac.country);
        i := i + 1;
      }
      if !allowed { return Decision(false, false, 80); }
    }
    if ac.sessionAgent != "" && ac.agent != "" && ac.agent != ac.sessionAgent {
      if MajorChange(ac.sessionAgent, ac.agent) { risk := risk + 35; } else { risk := risk + 10; }
    }
    if route.requireTrust && !ac.trusted { return Decision(false, true, 70); }
    if !ac.trusted { risk := risk + 15; }
    if |route.postureChecks| > 0 && ac.posture < 0.5 {
      risk := risk + 25;
      if ac.posture == 0.0 { return Decision(false, true, 75); }
    }
    if risk > 100 { risk := 100; }
    if route.maxRisk > 0 && risk > route.maxRisk { return Decision(false, true, risk); }
    if ac.policy.Fails? || ac.policy.Forbids? { return Decision(false, false, risk); }
    return Decision(true, false, risk);
  }

  /** The second context shows the same or worse signals than the first. */
  predicate Worse(ac: Context, ac': Context) {
    && ac'.country == ac.country && ac'.policy == ac.policy
    && (ac.blocked ==> ac'.blocked) && (ac.threat != "" ==> ac'.threat != "")
    && AgentRisk(ac) <= AgentRisk(ac')
    && (ac'.trusted ==> ac.trusted)
    && 0.0 <= ac'.posture <= ac.posture
  }

  /** Worse signals never turn a denial into an allow, and never lower the risk. */
  lemma DenialIsMonotone(route: Route, ac: Context, ac': Context)
    requires Worse(ac, ac')
    ensures Risk(route, ac) <= Risk(route, ac')
    ensures !Passes(route, ac) ==> !Passes(route, ac')
  {
    assert route.postureChecks != [] && ac.posture < 0.5 ==> ac'.posture < 0.5;
    assert Risk(route, ac) <= Risk(route, ac');
    assert GeoOk(route, ac) == GeoOk(route, ac');
  }

  lemma MajorChangeSymmetric(a: string, b: string)
    ensures !MajorChange(a, a)
    ensures MajorChange(a, b) <==> MajorChange(b, a)
  {
  }
}
