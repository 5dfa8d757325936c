/** Risk-based auto-trust of a device enrolled from a console session. */
module AutoTrust {
  import opened Common
  import opened Text

  datatype Config = Config(autotrustMode: string, knownOrgs: string, requirePosture: bool)

  datatype Mode = Off | Observe | Enforce

  function ModeOf(cfg: Option<Config>): Mode {
    if cfg.None? then Off else
    match Lower(Trim(cfg.value.autotrustMode))
    case "observe" => Observe
    case "enforce" => Enforce
    case _ => Off
  }

  /** The scan over the comma-separated allow-list; an empty list allows every org. */
  method OrgAllowed(cfg: Option<Config>, org: string) returns (allowed: bool)
    ensures allowed <==> OrgListed(cfg, org)
  {
    if cfg.None? { return false; }
    var list := Trim(cfg.value.knownOrgs);
    if list == "" { return true; }
    var parts := SplitComma(list);
    for i := 0 to |parts|
      invariant forall j :: 0 <= j < i ==> Trim(parts[j]) != org
    {
      if Trim(parts[i]) == org { return true; }
    }
    return false;
  }

  predicate OrgListed(cfg: Option<Config>, org: string) {
    && cfg.Some?
    && var list := Trim(cfg.value.knownOrgs);
       list == "" || exists i :: 0 <= i < |SplitComma(list)| && Trim(SplitComma(list)[i]) == org
  }

  /** What earns trust at enrollment, when no posture report exists yet. */
  predicate EarnsTrust(cfg: Option<Config>, mfa: bool, org: string) {
    ModeOf(cfg) == Enforce && mfa && OrgListed(cfg, org) && !cfg.value.requirePosture
  }

  /** The decision as written: off, then eligibility, then observe, then enforce. */
  method DecideAutoTrust(cfg: Option<Config>, mfa: bool, postureOk: bool, org: string)
    returns (trusted: bool, mode: Mode)
    ensures mode == ModeOf(cfg)
    ensures trusted <==> mode == Enforce && mfa && OrgListed(cfg, org) && (cfg.value.requirePosture ==> postureOk)
    ensures !postureOk ==> (trusted <==> EarnsTrust(cfg, mfa, org))
  {
    mode := ModeOf(cfg);
    if mode == Off { return false, mode; }
    var allowed := OrgAllowed(cfg, org);
    var eligible := mfa && allowed;
    if cfg.value.requirePosture { eligible := eligible && postureOk; }
    if !eligible { return false, mode; }
    if mode == Observe { return false, mode; }
    return true, mode;
  }
}
