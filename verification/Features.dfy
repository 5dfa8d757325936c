/**
 Feature toggles on routes: dependencies, cascade disable, and the derived route flags.

 Reads succeed; whether each write and each provisioning call does is an input.
 */
module Features {
  import opened Common

  datatype Feature = Ziti | BrowZer | Guacamole

  datatype Status = Disabled | Enabled | Pending | Error

  datatype Record = Record(enabled: bool, status: Status, resources: map<string, string>)

  datatype RouteRow = RouteRow(org: string, name: string, kind: string, enabled: bool, zitiEnabled: bool,
                               zitiService: Option<string>, browzerEnabled: bool, guacConnection: Option<string>)

  type Key = (string, Feature)
  type Records = map<Key, Record>
  type Routes = map<string, RouteRow>

  datatype State = State(records: Records, routes: Routes)

  const NoState := State(map[], map[])

  const OFF := Record(false, Disabled, map[])

  predicate On(records: Records, route: string, f: Feature) { (route, f) in records && records[(route, f)].enabled }

  /** A record is enabled exactly when its status says so, and holds resources only then. */
  predicate RecordOk(r: Record) { (r.enabled <==> r.status == Enabled) && (!r.enabled ==> r.resources == map[]) }

  ghost predicate Consistent(s: State) {
    && (forall k :: k in s.records ==> RecordOk(s.records[k]) && k.0 in s.routes)
    && (forall r :: On(s.records, r, BrowZer) ==> On(s.records, r, Ziti))
  }

  /** The flag columns of a route say what the record says. */
  predicate FlagMatches(row: RouteRow, f: Feature, on: bool) {
    match f
    case Ziti => row.zitiEnabled == on && row.zitiService.Some? == on && (on ==> row.zitiService.value != "")
    case BrowZer => row.browzerEnabled == on
    case Guacamole => row.guacConnection.Some? == on
  }

  predicate Matches(s: State, route: string, f: Feature) {
    route in s.routes ==> FlagMatches(s.routes[route], f, On(s.records, route, f))
  }

  ghost predicate AllMatch(s: State) { forall r, f :: Matches(s, r, f) }

  /** The row filter of the edge configuration query. */
  predicate Selected(row: RouteRow) {
    row.zitiEnabled && row.browzerEnabled && row.zitiService.Some? && row.zitiService.value != "" && row.enabled
  }

  /** Where the flags of a route match, the query selects it exactly if it is enabled and both
      features are on, and that is so even by the BrowZer record alone. */
  lemma SelectedExactly(s: State, r: string)
    requires Consistent(s) && r in s.routes && Matches(s, r, Ziti) && Matches(s, r, BrowZer)
    ensures Selected(s.routes[r]) <==> s.routes[r].enabled && On(s.records, r, Ziti) && On(s.records, r, BrowZer)
    ensures Selected(s.routes[r]) <==> s.routes[r].enabled && On(s.records, r, BrowZer)
  {
    assert On(s.records, r, BrowZer) ==> On(s.records, r, Ziti);
  }

  // ---- writes ----

  /** The flags after a flag write. */
  function Flagged(row: RouteRow, f: Feature, on: bool, ids: map<string, string>): RouteRow {
    match f
    case Ziti =>
      row.(zitiEnabled := on,
           zitiService := if on && "ziti_service_name" in ids then Some(ids["ziti_service_name"]) else None)
    case BrowZer => row.(browzerEnabled := on)
    case Guacamole =>
      row.(guacConnection := if on && "guacamole_connection_id" in ids then Some(ids["guacamole_connection_id"])
                             else None)
  }

  /** The flag write reaches a row only if the caller's org owns the route. */
  function Synced(routes: Routes, org: string, route: string, f: Feature, on: bool, ids: map<string, string>,
                  works: bool): Routes
  {
    if works && route in routes && routes[route].org == org then routes[route := Flagged(routes[route], f, on, ids)]
    else routes
  }

  /** Whether the record write and the flag write work. */
  datatype WriteLuck = WriteLuck(stores: bool, syncs: bool)
  {
    predicate Calm() { stores && syncs }
  }

  /** A record write, then its flag write. */
  function Written(s: State, org: string, route: string, f: Feature, rec: Record, w: WriteLuck): State {
    if !w.stores then s
    else State(s.records[(route, f) := rec], Synced(s.routes, org, route, f, rec.enabled, rec.resources, w.syncs))
  }

  /** Only what belongs to one feature of one route changes. */
  ghost predicate OnlyFeature(s: State, s': State, route: string, f: Feature) {
    && s'.routes.Keys == s.routes.Keys
    && (forall k: Key :: k != (route, f) ==>
          (k in s'.records <==> k in s.records) && (k in s.records ==> s'.records[k] == s.records[k]))
    && (forall r :: r in s.routes && r != route ==> s'.routes[r] == s.routes[r])
    && (route in s.routes ==>
          && s'.routes[route].org == s.routes[route].org && s'.routes[route].name == s.routes[route].name
          && s'.routes[route].kind == s.routes[route].kind && s'.routes[route].enabled == s.routes[route].enabled
          && forall g, on :: g != f ==> (FlagMatches(s'.routes[route], g, on) <==> FlagMatches(s.routes[route], g, on)))
  }

  lemma OnlyFeatureTrans(s: State, s': State, s'': State, route: string, f: Feature)
    requires OnlyFeature(s, s', route, f) && OnlyFeature(s', s'', route, f)
    ensures OnlyFeature(s, s'', route, f)
  {
    if route in s.routes {
      forall g, on | g != f ensures FlagMatches(s''.routes[route], g, on) <==> FlagMatches(s.routes[route], g, on) {
        assert FlagMatches(s'.routes[route], g, on) <==> FlagMatches(s.routes[route], g, on);
      }
    }
  }

  lemma FlaggedOnly(s: State, org: string, route: string, f: Feature, on: bool, ids: map<string, string>, works: bool,
                    records: Records)
    requires forall k: Key :: k != (route, f) ==>
               (k in records <==> k in s.records) && (k in s.records ==> records[k] == s.records[k])
    ensures OnlyFeature(s, State(records, Synced(s.routes, org, route, f, on, ids, works)), route, f)
  {
  }

  lemma WrittenOnly(s: State, org: string, route: string, f: Feature, rec: Record, w: WriteLuck)
    ensures OnlyFeature(s, Written(s, org, route, f, rec, w), route, f)
  {
    FlaggedOnly(s, org, route, f, rec.enabled, rec.resources, w.syncs, s.records[(route, f) := rec]);
  }

  /** What matched elsewhere still matches. */
  lemma OthersMatch(s: State, s': State, route: string, f: Feature)
    requires OnlyFeature(s, s', route, f)
    ensures forall r, g :: (r, g) != (route, f) ==> (Matches(s', r, g) <==> Matches(s, r, g))
  {
    forall r, g | (r, g) != (route, f) ensures Matches(s', r, g) <==> Matches(s, r, g) {
      var k: Key := (r, g);
      assert k in s'.records <==> k in s.records;
      assert On(s'.records, r, g) == On(s.records, r, g);
    }
  }

  // ---- turning a feature on ----

  /** The configured service name, or one derived from the route's. */
  function ServiceName(row: RouteRow, service: string): string {
    if service != "" then service else "openidx-" + row.name
  }

  /** The resources of a feature, by the ids the calls return. A reconciler, if there is one,
      owns the network resources, and then only names are recorded. */
  function ResourcesOf(f: Feature, reconciler: bool, service: string, id: string): map<string, string> {
    match f
    case Ziti =>
      if reconciler then map["ziti_service_name" := service]
      else map["ziti_service_name" := service, "ziti_service_id" := id]
    case BrowZer =>
      if reconciler then map["browzer_enabled" := "true"] else map["browzer_enabled" := "true", "ziti_service_id" := id]
    case Guacamole => map["guacamole_connection_id" := id]
  }

  /** What enabling demands besides working calls. */
  predicate Eligible(s: State, org: string, route: string, f: Feature) {
    && (f == BrowZer ==> On(s.records, route, Ziti))
    && route in s.routes && s.routes[route].org == org
    && (f == Guacamole ==> s.routes[route].kind in {"ssh", "rdp", "vnc", "telnet"})
  }

  /** Whether the record can be inserted, marked pending and, on a refusal, marked failed;
      whether provisioning is granted, with which id, and whether its own early flag write
      works; and the closing writes. */
  datatype EnableLuck = EnableLuck(inserts: bool, pends: bool, grants: bool, id: string, early: bool, notes: bool,
                                   write: WriteLuck)
  {
    /** No write fails; provisioning may still be refused. */
    predicate Calm() { inserts && pends && notes && write.Calm() }
  }

  /** The record of a feature, inserted switched off if there is none. */
  function Opened(s: State, route: string, f: Feature, inserts: bool): State {
    if (route, f) in s.records || !inserts then s else s.(records := s.records[(route, f) := OFF])
  }

  /** Only the status of a feature that is off. */
  function Noted(s: State, route: string, f: Feature, status: Status, works: bool): State {
    if works then s.(records := s.records[(route, f) := Record(false, status, map[])]) else s
  }

  /** The imperative network path sets the network flags of the route before the record is written. */
  function Early(s: State, org: string, route: string, f: Feature, reconciler: bool, service: string,
                 works: bool): State {
    if f == Ziti && !reconciler
    then s.(routes := Synced(s.routes, org, route, Ziti, true, map["ziti_service_name" := service], works)) else s
  }

  predicate Succeeds(s: State, org: string, route: string, f: Feature, w: EnableLuck) {
    && Eligible(s, org, route, f)
    && (On(s.records, route, f) || (((route, f) in s.records || w.inserts) && w.pends && w.grants && w.write.stores))
  }

  function EnableState(s: State, reconciler: bool, org: string, route: string, f: Feature, service: string,
                       w: EnableLuck): State
  {
    if !Eligible(s, org, route, f) || On(s.records, route, f) then s else
    var s1 := Opened(s, route, f, w.inserts);
    if (route, f) !in s1.records || !w.pends then s1 else
    var s2 := Noted(s1, route, f, Pending, true);
    if !w.grants then Noted(s2, route, f, Error, w.notes) else
    var name := ServiceName(s.routes[route], service);
    Written(Early(s2, org, route, f, reconciler, name, w.early), org, route, f,
            Record(true, Enabled, ResourcesOf(f, reconciler, name, w.id)), w.write)
  }

  // ---- turning a feature off ----

  datatype Result = Result(state: State, ok: bool)

  function DisableOne(s: State, org: string, route: string, f: Feature, w: WriteLuck): Result {
    if (route, f) !in s.records then Result(s, false)
    else if !s.records[(route, f)].enabled then Result(s, true)
    else Result(Written(s, org, route, f, OFF, w), w.stores)
  }

  /** Dependents first; a failed dependent stops it. */
  function DisableResult(s: State, org: string, route: string, f: Feature, w: Feature -> WriteLuck): Result {
    if f == Ziti && On(s.records, route, BrowZer) then
      var d := DisableOne(s, org, route, BrowZer, w(BrowZer));
      if !d.ok then d else DisableOne(d.state, org, route, Ziti, w(Ziti))
    else DisableOne(s, org, route, f, w(f))
  }

  // ---- steps ----

  datatype Op =
    | AddRoute(route: string, org: string, name: string, kind: string, enabled: bool)
    | Enable(org: string, route: string, feature: Feature, service: string, luck: EnableLuck)
    | Disable(org: string, route: string, feature: Feature, writes: Feature -> WriteLuck)

  /** No write of the operation fails. */
  predicate CalmOp(op: Op) {
    match op
    case AddRoute(_, _, _, _, _) => true
    case Enable(_, _, _, _, luck) => luck.Calm()
    case Disable(_, _, _, writes) => writes(Ziti).Calm() && writes(BrowZer).Calm() && writes(Guacamole).Calm()
  }

  function After(s: State, op: Op, reconciler: bool): State {
    match op
    case AddRoute(route, org, name, kind, enabled) =>
      if route in s.routes then s
      else s.(routes := s.routes[route := RouteRow(org, name, kind, enabled, false, None, false, None)])
    case Enable(org, route, f, service, luck) => EnableState(s, reconciler, org, route, f, service, luck)
    case Disable(org, route, f, writes) => DisableResult(s, org, route, f, writes).state
  }

  // ---- what every step keeps ----

  lemma WrittenKeeps(s: State, org: string, route: string, f: Feature, rec: Record, w: WriteLuck)
    requires Consistent(s) && RecordOk(rec) && route in s.routes
    requires f == BrowZer && rec.enabled ==> On(s.records, route, Ziti)
    requires f == Ziti && !rec.enabled ==> !On(s.records, route, BrowZer)
    ensures Consistent(Written(s, org, route, f, rec, w))
  {
    var s' := Written(s, org, route, f, rec, w);
    forall r ensures On(s'.records, r, BrowZer) ==> On(s'.records, r, Ziti) {
      assert On(s.records, r, BrowZer) ==> On(s.records, r, Ziti);
    }
  }

  lemma NotedKeeps(s: State, route: string, f: Feature, status: Status, works: bool)
    requires Consistent(s) && !On(s.records, route, f) && status != Enabled && route in s.routes
    ensures Consistent(Noted(s, route, f, status, works)) && !On(Noted(s, route, f, status, works).records, route, f)
    ensures OnlyFeature(s, Noted(s, route, f, status, works), route, f)
    ensures forall r, g :: On(Noted(s, route, f, status, works).records, r, g) == On(s.records, r, g)
  {
    var s' := Noted(s, route, f, status, works);
    forall r, g ensures On(s'.records, r, g) == On(s.records, r, g) {}
  }

  /** An enable keeps the dependency, whatever fails, and touches only its own feature. It ends
      with the feature on exactly if it succeeds or the feature was on before. */
  lemma EnableKeeps(s: State, reconciler: bool, org: string, route: string, f: Feature, service: string, w: EnableLuck)
    requires Consistent(s)
    ensures var s' := EnableState(s, reconciler, org, route, f, service, w);
            && Consistent(s') && OnlyFeature(s, s', route, f)
            && (On(s'.records, route, f) <==> Succeeds(s, org, route, f, w) || On(s.records, route, f))
  {
    if Eligible(s, org, route, f) && !On(s.records, route, f) {
      var s1 := Opened(s, route, f, w.inserts);
      NotedKeeps(s, route, f, Disabled, (route, f) !in s.records && w.inserts);
      if (route, f) in s1.records && w.pends {
        var s2 := Noted(s1, route, f, Pending, true);
        NotedKeeps(s1, route, f, Pending, true);
        OnlyFeatureTrans(s, s1, s2, route, f);
        if w.grants {
          ProvisionedKeeps(s2, reconciler, org, route, f, ServiceName(s.routes[route], service), w);
          OnlyFeatureTrans(s, s2, EnableState(s, reconciler, org, route, f, service, w), route, f);
        } else {
          NotedKeeps(s2, route, f, Error, w.notes);
          OnlyFeatureTrans(s, s2, Noted(s2, route, f, Error, w.notes), route, f);
        }
      }
    }
  }

  lemma ProvisionedKeeps(s: State, reconciler: bool, org: string, route: string, f: Feature, name: string,
                         w: EnableLuck)
    requires Consistent(s) && Eligible(s, org, route, f) && !On(s.records, route, f)
    ensures var mid := Early(s, org, route, f, reconciler, name, w.early);
            var rec := Record(true, Enabled, ResourcesOf(f, reconciler, name, w.id));
            var s' := Written(mid, org, route, f, rec, w.write);
            && Consistent(s') && OnlyFeature(s, s', route, f) && (On(s'.records, route, f) <==> w.write.stores)
  {
    var mid := Early(s, org, route, f, reconciler, name, w.early);
    var rec := Record(true, Enabled, ResourcesOf(f, reconciler, name, w.id));
    FlaggedOnly(s, org, route, f, true, map["ziti_service_name" := name], w.early, s.records);
    assert Consistent(mid) && OnlyFeature(s, mid, route, f);
    WrittenKeeps(mid, org, route, f, rec, w.write);
    WrittenOnly(mid, org, route, f, rec, w.write);
    OnlyFeatureTrans(s, mid, Written(mid, org, route, f, rec, w.write), route, f);
  }

  lemma DisableOneKeeps(s: State, org: string, route: string, f: Feature, w: WriteLuck)
    requires Consistent(s) && (f == Ziti ==> !On(s.records, route, BrowZer))
    ensures Consistent(DisableOne(s, org, route, f, w).state)
    ensures OnlyFeature(s, DisableOne(s, org, route, f, w).state, route, f)
    ensures DisableOne(s, org, route, f, w).ok ==> !On(DisableOne(s, org, route, f, w).state.records, route, f)
  {
    if On(s.records, route, f) {
      WrittenKeeps(s, org, route, f, OFF, w);
      WrittenOnly(s, org, route, f, OFF, w);
    }
  }

  /** A disable keeps the dependency, whatever fails. If it reports success the feature is off,
      and with the network feature its dependent; only those two can change. */
  lemma DisableKeeps(s: State, org: string, route: string, f: Feature, w: Feature -> WriteLuck)
    requires Consistent(s)
    ensures var d := DisableResult(s, org, route, f, w);
            && Consistent(d.state)
            && (d.ok ==> !On(d.state.records, route, f) && (f == Ziti ==> !On(d.state.records, route, BrowZer)))
            && (forall r, g :: r != route || (g != f && !(f == Ziti && g == BrowZer)) ==>
                  && (Matches(d.state, r, g) <==> Matches(s, r, g))
                  && (On(d.state.records, r, g) <==> On(s.records, r, g)))
  {
    if f == Ziti && On(s.records, route, BrowZer) {
      var d := DisableOne(s, org, route, BrowZer, w(BrowZer));
      DisableOneKeeps(s, org, route, BrowZer, w(BrowZer));
      OthersSame(s, d.state, route, BrowZer);
      if d.ok {
        DisableOneKeeps(d.state, org, route, Ziti, w(Ziti));
        OthersSame(d.state, DisableOne(d.state, org, route, Ziti, w(Ziti)).state, route, Ziti);
      }
    } else {
      DisableOneKeeps(s, org, route, f, w(f));
      OthersSame(s, DisableOne(s, org, route, f, w(f)).state, route, f);
    }
  }

  lemma OthersSame(s: State, s': State, route: string, f: Feature)
    requires OnlyFeature(s, s', route, f)
    ensures forall r, g :: (r, g) != (route, f) ==>
              (Matches(s', r, g) <==> Matches(s, r, g)) && (On(s'.records, r, g) <==> On(s.records, r, g))
  {
    OthersMatch(s, s', route, f);
    forall r, g | (r, g) != (route, f) ensures On(s'.records, r, g) <==> On(s.records, r, g) {
      var k: Key := (r, g);
      assert k in s'.records <==> k in s.records;
    }
  }

  lemma AfterKeeps(s: State, op: Op, reconciler: bool)
    requires Consistent(s)
    ensures Consistent(After(s, op, reconciler))
  {
    match op
    case AddRoute(_, _, _, _, _) =>
    case Enable(org, route, f, service, luck) => EnableKeeps(s, reconciler, org, route, f, service, luck);
    case Disable(org, route, f, writes) => DisableKeeps(s, org, route, f, writes);
  }

  // ---- when the flags match ----

  /** A write whose parts both work makes the flag match exactly when the caller's org owns the
      route, if it did not match the new record already. */
  lemma WrittenMatches(s: State, org: string, route: string, f: Feature, rec: Record, w: WriteLuck)
    requires route in s.routes && w.Calm()
    requires rec.enabled && f == Ziti ==>
              "ziti_service_name" in rec.resources && rec.resources["ziti_service_name"] != ""
    requires rec.enabled && f == Guacamole ==> "guacamole_connection_id" in rec.resources
    ensures Matches(Written(s, org, route, f, rec, w), route, f) <==>
            s.routes[route].org == org || FlagMatches(s.routes[route], f, rec.enabled)
  {
  }

  lemma EnableMatches(s: State, reconciler: bool, org: string, route: string, f: Feature, service: string,
                      w: EnableLuck)
    requires Consistent(s) && Matches(s, route, f) && w.Calm()
    ensures Matches(EnableState(s, reconciler, org, route, f, service, w), route, f)
  {
    if Eligible(s, org, route, f) && !On(s.records, route, f) {
      var s2 := Noted(Opened(s, route, f, w.inserts), route, f, Pending, true);
      if w.grants {
        var name := ServiceName(s.routes[route], service);
        var mid := Early(s2, org, route, f, reconciler, name, w.early);
        WrittenMatches(mid, org, route, f, Record(true, Enabled, ResourcesOf(f, reconciler, name, w.id)), w.write);
      }
    }
  }

  /** A disable from outside the org that owns the route, of a feature that is on. */
  predicate ForeignDisable(s: State, op: Op) {
    op.Disable? && On(s.records, op.route, op.feature) && op.route in s.routes && s.routes[op.route].org != op.org
  }

  /** With every write succeeding, a disable of a feature that is on turns the record off, and
      leaves the flag matching exactly when the caller's org owns the route. */
  lemma DisableMatches(s: State, org: string, route: string, f: Feature, w: Feature -> WriteLuck)
    requires Consistent(s) && On(s.records, route, f)
    requires Matches(s, route, f) && (f == Ziti ==> Matches(s, route, BrowZer))
    requires w(Ziti).Calm() && w(BrowZer).Calm() && w(Guacamole).Calm()
    ensures var d := DisableResult(s, org, route, f, w);
            && d.ok && !On(d.state.records, route, f)
            && (Matches(d.state, route, f) <==> s.routes[route].org == org)
            && (f == Ziti && s.routes[route].org == org ==> Matches(d.state, route, BrowZer))
  {
    var k: Key := (route, f);
    assert k in s.records;
    if f == Ziti && On(s.records, route, BrowZer) {
      var d := DisableOne(s, org, route, BrowZer, w(BrowZer));
      WrittenMatches(s, org, route, BrowZer, OFF, w(BrowZer));
      WrittenOnly(s, org, route, BrowZer, OFF, w(BrowZer));
      OthersSame(s, d.state, route, BrowZer);
      WrittenMatches(d.state, org, route, Ziti, OFF, w(Ziti));
      WrittenOnly(d.state, org, route, Ziti, OFF, w(Ziti));
      OthersSame(d.state, DisableOne(d.state, org, route, Ziti, w(Ziti)).state, route, Ziti);
    } else {
      WrittenMatches(s, org, route, f, OFF, w(f));
      WrittenOnly(s, org, route, f, OFF, w(f));
      OthersSame(s, DisableOne(s, org, route, f, w(f)).state, route, f);
    }
  }

  /** Such a disable: the record is off and the flag still on. */
  lemma ForeignDisableDrifts(reconciler: bool, w: Feature -> WriteLuck)
    requires w(Ziti).Calm() && w(BrowZer).Calm() && w(Guacamole).Calm()
    ensures var on := RouteRow("us", "r", "http", true, true, Some("s"), false, None);
            var s := State(map[("r", Ziti) := Record(true, Enabled, map["ziti_service_name" := "s"])], map["r" := on]);
            var s' := After(s, Disable("them", "r", Ziti, w), reconciler);
            && Consistent(s) && Matches(s, "r", Ziti)
            && !On(s'.records, "r", Ziti) && s'.routes["r"].zitiEnabled && !Matches(s', "r", Ziti)
  {
  }

  /** If all flags match and no write of an operation fails, they all match afterwards exactly
      when the operation is not a foreign disable. */
  lemma StepMatches(s: State, op: Op, reconciler: bool)
    requires Consistent(s) && AllMatch(s) && CalmOp(op)
    ensures AllMatch(After(s, op, reconciler)) <==> !ForeignDisable(s, op)
  {
    var s' := After(s, op, reconciler);
    match op
    case AddRoute(_, _, _, _, _) =>
      forall r, f ensures Matches(s', r, f) {
        var k: Key := (r, f);
        assert k in s.records ==> k.0 in s.routes;
        assert Matches(s, r, f);
      }
    case Enable(org, route, f, service, luck) =>
      assert Matches(s, route, f);
      EnableMatches(s, reconciler, org, route, f, service, luck);
      EnableKeeps(s, reconciler, org, route, f, service, luck);
      OthersMatch(s, s', route, f);
      forall r, g ensures Matches(s', r, g) { assert Matches(s, r, g); }
    case Disable(org, route, f, writes) => DisableStep(s, org, route, f, writes, reconciler);
  }

  lemma DisableStep(s: State, org: string, route: string, f: Feature, w: Feature -> WriteLuck, reconciler: bool)
    requires Consistent(s) && AllMatch(s) && CalmOp(Disable(org, route, f, w))
    ensures AllMatch(DisableResult(s, org, route, f, w).state) <==> !ForeignDisable(s, Disable(org, route, f, w))
  {
    var s' := DisableResult(s, org, route, f, w).state;
    var k: Key := (route, f);
    assert Matches(s, route, f) && Matches(s, route, BrowZer);
    assert k in s.records ==> k.0 in s.routes;
    if On(s.records, route, f) {
      DisableMatches(s, org, route, f, w);
      DisableKeeps(s, org, route, f, w);
      if s.routes[route].org == org {
        forall r, g ensures Matches(s', r, g) { assert Matches(s, r, g); }
      }
    } else {
      assert On(s.records, route, BrowZer) ==> On(s.records, route, Ziti);
    }
  }

  // ---- whole runs ----

  ghost function Run(ops: seq<Op>, reconciler: bool): (s: State)
    ensures Consistent(s)
  {
    if ops == [] then NoState else
    var s := Run(ops[..|ops| - 1], reconciler);
    AfterKeeps(s, ops[|ops| - 1], reconciler);
    After(s, ops[|ops| - 1], reconciler)
  }

  /** No write of the run fails, and no feature is disabled from outside the org that owns its route. */
  ghost predicate Orderly(ops: seq<Op>, reconciler: bool) {
    forall i :: 0 <= i < |ops| ==> CalmOp(ops[i]) && !ForeignDisable(Run(ops[..i], reconciler), ops[i])
  }

  /** After an orderly run every flag equals its record, so the row filter selects exactly the
      enabled routes with both features on. */
  lemma {:induction false} OrderlyRunMatches(ops: seq<Op>, reconciler: bool)
    requires Orderly(ops, reconciler)
    ensures AllMatch(Run(ops, reconciler))
  {
    if ops != [] {
      var n := |ops| - 1;
      forall i | 0 <= i < n
        ensures CalmOp(ops[..n][i]) && !ForeignDisable(Run(ops[..n][..i], reconciler), ops[..n][i])
      {
        assert ops[..n][..i] == ops[..i] && ops[..n][i] == ops[i];
      }
      OrderlyRunMatches(ops[..n], reconciler);
      StepMatches(Run(ops[..n], reconciler), ops[n], reconciler);
    }
  }

  lemma OrderlyRunSelects(ops: seq<Op>, reconciler: bool, r: string)
    requires Orderly(ops, reconciler) && r in Run(ops, reconciler).routes
    ensures var s := Run(ops, reconciler);
            Selected(s.routes[r]) <==> s.routes[r].enabled && On(s.records, r, Ziti) && On(s.records, r, BrowZer)
  {
    OrderlyRunMatches(ops, reconciler);
    assert Matches(Run(ops, reconciler), r, Ziti) && Matches(Run(ops, reconciler), r, BrowZer);
    SelectedExactly(Run(ops, reconciler), r);
  }

  // ---- the manager ----

  class Manager {
    var records: Records
    var routes: Routes
    const reconciler: bool

    ghost function St(): State
      reads this
    {
      State(records, routes)
    }

    constructor (reconciler: bool)
      ensures St() == NoState && this.reconciler == reconciler
    {
      this.reconciler := reconciler;
      records, routes := map[], map[];
    }

    /** A new route starts with every feature off. */
    method AddRouteRow(route: string, org: string, name: string, kind: string, enabled: bool)
      modifies this`routes
      ensures St() == After(old(St()), AddRoute(route, org, name, kind, enabled), reconciler)
    {
      if route !in routes { routes := routes[route := RouteRow(org, name, kind, enabled, false, None, false, None)]; }
    }

    /** Creates what the feature needs and names it; the imperative network path also sets the
        network flags of the route. */
    method Provision(org: string, route: string, f: Feature, service: string, w: EnableLuck)
      returns (granted: bool, ids: map<string, string>)
      requires route in routes && routes[route].org == org
      modifies this`routes
      ensures granted == w.grants
      ensures granted ==>
                var name := ServiceName(old(routes)[route], service);
                && ids == ResourcesOf(f, reconciler, name, w.id)
                && St() == Early(old(St()), org, route, f, reconciler, name, w.early)
      ensures !granted ==> St() == old(St())
    {
      granted, ids := w.grants, map[];
      if !granted { return; }
      var name := ServiceName(routes[route], service);
      match f
      case Ziti =>
        ids := map["ziti_service_name" := name];
        if !reconciler {
          ids := ids["ziti_service_id" := w.id];
          if w.early { routes := routes[route := routes[route].(zitiEnabled := true, zitiService := Some(name))]; }
        }
      case BrowZer =>
        ids := map["browzer_enabled" := "true"];
        if !reconciler { ids := ids["ziti_service_id" := w.id]; }
      case Guacamole =>
        ids := map["guacamole_connection_id" := w.id];
    }

    /** The flag write. It reaches the row only when the caller's org owns the route. */
    method SyncFlags(org: string, route: string, f: Feature, on: bool, ids: map<string, string>, works: bool)
      modifies this`routes
      ensures routes == Synced(old(routes), org, route, f, on, ids, works)
      ensures route in old(routes) && old(routes)[route].org != org ==> routes == old(routes)
    {
      if works && route in routes && routes[route].org == org {
        match f
        case Ziti =>
          var name := None;
          if on && "ziti_service_name" in ids { name := Some(ids["ziti_service_name"]); }
          routes := routes[route := routes[route].(zitiEnabled := on, zitiService := name)];
        case BrowZer =>
          routes := routes[route := routes[route].(browzerEnabled := on)];
        case Guacamole =>
          var connection := None;
          if on && "guacamole_connection_id" in ids { connection := Some(ids["guacamole_connection_id"]); }
          routes := routes[route := routes[route].(guacConnection := connection)];
      }
    }

    /** Writes a record and then its flag. */
    method WriteBoth(org: string, route: string, f: Feature, rec: Record, w: WriteLuck) returns (ok: bool)
      modifies this`records, this`routes
      ensures St() == Written(old(St()), org, route, f, rec, w) && ok == w.stores
    {
      if !w.stores { return false; }
      records := records[(route, f) := rec];
      SyncFlags(org, route, f, rec.enabled, rec.resources, w.syncs);
      return true;
    }

    /** The record of a feature, inserted switched off if there is none. */
    method GetOrCreate(route: string, f: Feature, inserts: bool) returns (found: bool)
      modifies this`records
      ensures St() == Opened(old(St()), route, f, inserts) && found == ((route, f) in records)
    {
      if (route, f) in records { return true; }
      if inserts { records := records[(route, f) := OFF]; }
      return inserts;
    }

    /** Writes only the status. */
    method Note(route: string, f: Feature, status: Status, works: bool)
      requires (route, f) in records && !records[(route, f)].enabled && records[(route, f)].resources == map[]
      modifies this`records
      ensures St() == Noted(old(St()), route, f, status, works)
    {
      if works { records := records[(route, f) := records[(route, f)].(status := status)]; }
    }

    /** Turns a feature on. */
    method EnableFeature(org: string, route: string, f: Feature, service: string, w: EnableLuck) returns (ok: bool)
      requires Consistent(St())
      modifies this`records, this`routes
      ensures St() == EnableState(old(St()), reconciler, org, route, f, service, w)
      ensures ok <==> Succeeds(old(St()), org, route, f, w)
    {
      if f == BrowZer && !((route, Ziti) in records && records[(route, Ziti)].enabled) { return false; }
      if route !in routes || routes[route].org != org { return false; }
      if f == Guacamole && routes[route].kind !in {"ssh", "rdp", "vnc", "telnet"} { return false; }
      var found := GetOrCreate(route, f, w.inserts);
      if !found { return false; }
      if records[(route, f)].enabled { return true; }
      if !w.pends { return false; }
      Note(route, f, Pending, true);
      var granted, ids := Provision(org, route, f, service, w);
      if !granted {
        Note(route, f, Error, w.notes);
        return false;
      }
      ok := WriteBoth(org, route, f, Record(true, Enabled, ids), w.write);
    }

    /** Turns a feature off, dependents first; a failed dependent stops it. */
    method DisableFeature(org: string, route: string, f: Feature, w: Feature -> WriteLuck) returns (ok: bool)
      modifies this`records, this`routes
      ensures Result(St(), ok) == DisableResult(old(St()), org, route, f, w)
      decreases if f == Ziti then 1 else 0
    {
      if f == Ziti && (route, BrowZer) in records && records[(route, BrowZer)].enabled {
        ok := DisableFeature(org, route, BrowZer, w);
        if !ok { return; }
      }
      if (route, f) !in records { return false; }
      if !records[(route, f)].enabled { return true; }
      ok := WriteBoth(org, route, f, OFF, w(f));
    }
  }

  /** Serves any sequence of operations, with failures wherever the input has them. */
  method Serve(ops: seq<Op>, reconciler: bool) returns (m: Manager)
    ensures m.St() == Run(ops, reconciler) && m.reconciler == reconciler
  {
    m := new Manager(reconciler);
    for i := 0 to |ops|
      invariant fresh(m) && m.St() == Run(ops[..i], reconciler) && m.reconciler == reconciler
    {
      assert ops[..i + 1][..i] == ops[..i];
      match ops[i]
      case AddRoute(route, org, name, kind, enabled) => m.AddRouteRow(route, org, name, kind, enabled);
      case Enable(org, route, f, service, luck) => var _ := m.EnableFeature(org, route, f, service, luck);
      case Disable(org, route, f, writes) => var _ := m.DisableFeature(org, route, f, writes);
    }
    assert ops[..|ops|] == ops;
  }
}
