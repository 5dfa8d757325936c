/** Agents, their stable identity, and the device-trust rows their users own. */
module EnrollDevices {
  import opened Common
  import opened Text
  import opened AutoTrust

  datatype Agent = Agent(device: string, fingerprint: Option<string>)

  datatype Credentials = Credentials(agent: string, device: string)

  datatype Known = Known(org: string, trusted: bool)

  /** What an enrollment was based on when it linked a device to a user: an onboarding
      session under a configuration, or a plain sign-in. */
  datatype Basis = BySession(cfg: Option<Config>, mfa: bool, org: string) | BySignIn

  datatype Link = Link(user: string, device: string, basis: Basis)

  predicate Earned(l: Link) { l.basis.BySession? && EarnsTrust(l.basis.cfg, l.basis.mfa, l.basis.org) }

  type Registry = map<string, Agent>
  type Devices = map<(string, string), Known>

  /** The unique index on fingerprints. */
  ghost predicate FingerprintsUnique(agents: Registry) {
    forall a, b ::
      a in agents && b in agents && agents[a].fingerprint.Some? && a != b ==>
        agents[a].fingerprint != agents[b].fingerprint
  }

  /** A user's device row exists exactly when something linked it, and is trusted exactly when
      some link earned it. */
  ghost predicate TrustMatches(known: Devices, links: seq<Link>) {
    && (forall u, d :: (u, d) in known <==> exists l :: l in links && l.user == u && l.device == d)
    && (forall u, d :: (u, d) in known ==>
          (known[(u, d)].trusted <==> exists l :: l in links && l.user == u && l.device == d && Earned(l)))
  }

  function Upserted(known: Devices, user: string, device: string, org: string, trusted: bool): Devices {
    known[(user, device) := Known(org, trusted || ((user, device) in known && known[(user, device)].trusted))]
  }

  lemma LinkKeeps(known: Devices, links: seq<Link>, l: Link, org: string)
    requires TrustMatches(known, links)
    ensures TrustMatches(Upserted(known, l.user, l.device, org, Earned(l)), links + [l])
  {
    var known', links' := Upserted(known, l.user, l.device, org, Earned(l)), links + [l];
    forall u, d
      ensures (u, d) in known' <==> exists m :: m in links' && m.user == u && m.device == d
      ensures (u, d) in known' ==>
                (known'[(u, d)].trusted <==> exists m :: m in links' && m.user == u && m.device == d && Earned(m))
    {
      assert l in links';
      if m :| m in links && m.user == u && m.device == d { assert m in links'; }
      if m :| m in links && m.user == u && m.device == d && Earned(m) { assert m in links'; }
    }
  }

  /** The row of a device enrolling for the first time. */
  function Fresh(fingerprint: string, device: string): Agent {
    Agent(device, if Trim(fingerprint) != "" then Some(Trim(fingerprint)) else None)
  }

  datatype FleetState = FleetState(agents: Registry, known: Devices, links: seq<Link>)

  const NoFleet := FleetState(map[], map[], [])

  ghost predicate FleetOk(f: FleetState) { FingerprintsUnique(f.agents) && TrustMatches(f.known, f.links) }

  // ---- credentials ----

  /** Whether the lookup by fingerprint, the refresh and the insert work. */
  datatype IssueLuck = IssueLuck(answers: bool, refreshes: bool, inserts: bool)
  {
    predicate Calm() { answers && refreshes && inserts }
  }

  predicate Holds(agents: Registry, a: string, fp: string) { a in agents && agents[a].fingerprint == Some(fp) }

  ghost function Holder(agents: Registry, fp: string): (found: Option<string>)
    ensures found.Some? ==> Holds(agents, found.value, fp)
    ensures found.None? ==> forall a :: !Holds(agents, a, fp)
  {
    if exists a :: Holds(agents, a, fp) then var a :| Holds(agents, a, fp); Some(a) else None
  }

  /** A device that sent a fingerprint seen before keeps its agent and device ids. */
  ghost predicate Reuses(agents: Registry, fp: string, l: IssueLuck) {
    fp != "" && l.answers && Holder(agents, fp).Some? && l.refreshes
  }

  ghost function IssuedTo(agents: Registry, fingerprint: string, freshAgent: string, freshDevice: string,
                          l: IssueLuck): Credentials {
    var fp := Trim(fingerprint);
    if Reuses(agents, fp, l) then Credentials(Holder(agents, fp).value, agents[Holder(agents, fp).value].device)
    else Credentials(freshAgent, freshDevice)
  }

  /** The insert is refused by the unique indexes on the agent id and on the fingerprint. */
  ghost predicate Inserts(agents: Registry, fp: string, freshAgent: string, l: IssueLuck) {
    !Reuses(agents, fp, l) && l.inserts && freshAgent !in agents && (fp != "" ==> Holder(agents, fp).None?)
  }

  ghost function AgentsAfter(agents: Registry, fingerprint: string, freshAgent: string, freshDevice: string,
                             l: IssueLuck): Registry {
    if Inserts(agents, Trim(fingerprint), freshAgent, l)
    then agents[freshAgent := Fresh(fingerprint, freshDevice)] else agents
  }

  /** Fingerprints stay unique whatever fails, and no agent already there changes. */
  lemma IssueKeeps(agents: Registry, fingerprint: string, freshAgent: string, freshDevice: string, l: IssueLuck)
    requires FingerprintsUnique(agents)
    ensures var after := AgentsAfter(agents, fingerprint, freshAgent, freshDevice, l);
            FingerprintsUnique(after) && forall a :: a in agents ==> a in after && after[a] == agents[a]
  {
    var fp := Trim(fingerprint);
    if fp != "" && Holder(agents, fp).None? {
      forall a | a in agents ensures agents[a].fingerprint != Some(fp) { assert !Holds(agents, a, fp); }
    }
  }

  /** When nothing fails and the fresh agent id is new, the credentials name a registered agent
      with that device; re-enrolling a fingerprint gives the agent and device it already has. */
  lemma CalmIssue(agents: Registry, fingerprint: string, freshAgent: string, freshDevice: string, l: IssueLuck)
    requires FingerprintsUnique(agents) && l.Calm() && freshAgent !in agents
    ensures var creds, after := IssuedTo(agents, fingerprint, freshAgent, freshDevice, l),
                                AgentsAfter(agents, fingerprint, freshAgent, freshDevice, l);
            && creds.agent in after && after[creds.agent].device == creds.device
            && (Trim(fingerprint) != "" ==> after[creds.agent].fingerprint == Some(Trim(fingerprint)))
            && (forall a :: Trim(fingerprint) != "" && Holds(agents, a, Trim(fingerprint)) ==>
                  creds == Credentials(a, agents[a].device) && after == agents)
  {
    var fp := Trim(fingerprint);
    forall a | fp != "" && Holds(agents, a, fp) ensures Holder(agents, fp) == Some(a) {
      var b := Holder(agents, fp);
      assert agents[a].fingerprint == agents[b.value].fingerprint;
    }
  }

  /** So a second enrollment with the fingerprint of a first changes no agent and gets the same
      credentials, if nothing fails. */
  lemma ReenrollIsStable(agents: Registry, fingerprint: string, a1: string, d1: string, a2: string, d2: string,
                         l: IssueLuck)
    requires FingerprintsUnique(agents) && l.Calm() && a1 !in agents && Trim(fingerprint) != ""
    requires a2 !in AgentsAfter(agents, fingerprint, a1, d1, l)
    ensures var once := AgentsAfter(agents, fingerprint, a1, d1, l);
            && AgentsAfter(once, fingerprint, a2, d2, l) == once
            && IssuedTo(once, fingerprint, a2, d2, l) == IssuedTo(agents, fingerprint, a1, d1, l)
  {
    var once := AgentsAfter(agents, fingerprint, a1, d1, l);
    IssueKeeps(agents, fingerprint, a1, d1, l);
    CalmIssue(agents, fingerprint, a1, d1, l);
    assert Holds(once, IssuedTo(agents, fingerprint, a1, d1, l).agent, Trim(fingerprint));
    CalmIssue(once, fingerprint, a2, d2, l);
  }

  // ---- device rows ----

  /** Upserts the user's device row; trust is only ever added. */
  ghost function Linked(f: FleetState, l: Link, org: string, stores: bool): FleetState {
    if org != "" && stores
    then f.(known := Upserted(f.known, l.user, l.device, org, Earned(l)), links := f.links + [l]) else f
  }

  /** Enrollment never lowers trust. */
  ghost predicate TrustKept(known: Devices, known': Devices) {
    forall k :: k in known ==> k in known' && (known[k].trusted ==> known'[k].trusted)
  }

  lemma LinkedKeeps(f: FleetState, l: Link, org: string, stores: bool)
    requires FleetOk(f)
    ensures FleetOk(Linked(f, l, org, stores)) && TrustKept(f.known, Linked(f, l, org, stores).known)
  {
    LinkKeeps(f.known, f.links, l, org);
  }

  class Fleet {
    var agents: Registry
    var known: Devices
    ghost var links: seq<Link>

    ghost function F(): FleetState
      reads this
    {
      FleetState(agents, known, links)
    }

    constructor ()
      ensures F() == NoFleet
    {
      agents, known, links := map[], map[], [];
    }

    /** Issues credentials: those of the fingerprint's agent, or fresh ones with a new row. */
    method Issue(fingerprint: string, freshAgent: string, freshDevice: string, l: IssueLuck)
      returns (creds: Credentials)
      requires FingerprintsUnique(agents)
      modifies this`agents
      ensures creds == IssuedTo(old(agents), fingerprint, freshAgent, freshDevice, l)
      ensures agents == AgentsAfter(old(agents), fingerprint, freshAgent, freshDevice, l)
    {
      var fp := Trim(fingerprint);
      var hits := set a | a in agents && agents[a].fingerprint == Some(fp);
      ghost var holder := Holder(agents, fp);
      assert holder.Some? ==> holder.value in hits;
      assert forall a :: Holds(agents, a, fp) <==> a in hits;
      if fp != "" && l.answers && hits != {} {
        var a :| a in hits;
        assert agents[a].fingerprint == agents[holder.value].fingerprint;
        if l.refreshes { return Credentials(a, agents[a].device); }
      }
      if l.inserts && freshAgent !in agents && !(fp != "" && hits != {}) {
        agents := agents[freshAgent := Fresh(fingerprint, freshDevice)];
      }
      return Credentials(freshAgent, freshDevice);
    }

    method LinkDevice(user: string, device: string, org: string, ghost basis: Basis, trusted: bool, stores: bool)
      requires trusted <==> Earned(Link(user, device, basis))
      modifies this`known, this`links
      ensures F() == Linked(old(F()), Link(user, device, basis), org, stores)
    {
      if org == "" || !stores { return; }
      known := Upserted(known, user, device, org, trusted);
      links := links + [Link(user, device, basis)];
    }
  }
}
