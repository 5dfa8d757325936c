/** The kill switch: severing one user's live access, step by step, whatever fails. */
module KillSwitch {
  import opened Common
  import opened Listing

  datatype Owner = Owner(user: string, org: string)

  datatype LoginRow = LoginRow(owner: Owner, revoked: Option<bool>)
  datatype KeyRow = KeyRow(owner: Owner, status: string)
  datatype CheckoutRow = CheckoutRow(owner: Owner, status: string)
  datatype GrantRow = GrantRow(owner: Owner, principalType: string, expires: Option<int>)
  datatype JitRow = JitRow(owner: Owner, status: string, revokedBy: Option<string>)
  datatype GuacRow = GuacRow(owner: Owner, uuid: string, status: string)

  /** Which steps put something on the warnings list. */
  datatype Warnings = Warnings(disableUser: bool, markers: bool, sessions: bool, apiKeys: bool, checkouts: bool,
                               grants: bool, jit: bool, guac: bool)
  {
    predicate None() { !disableUser && !markers && !sessions && !apiKeys && !checkouts && !grants && !jit && !guac }
  }

  /** An UPDATE: the rows its WHERE clause hits, whose they are, and what it makes of them. */
  datatype Stmt<!R> = Stmt(hit: R -> bool, change: R -> R, owner: R -> Owner)

  function Hits<R>(s: Stmt<R>, rows: map<string, R>): set<string> { set id | id in rows && s.hit(rows[id]) }

  function Updated<R>(s: Stmt<R>, rows: map<string, R>): map<string, R> {
    map id | id in rows :: if s.hit(rows[id]) then s.change(rows[id]) else rows[id]
  }

  /** The statement acts on one owner's rows and leaves none of them to hit again. */
  ghost predicate Severs<R(!new)>(s: Stmt<R>, owner: Owner) {
    forall r {:trigger s.hit(r)} {:trigger s.change(r)} :: s.hit(r) ==> s.owner(r) == owner && !s.hit(s.change(r))
  }

  /**
   One best-effort step, as the caller sees it. Without a warning the statement was applied and
   leaves nothing to hit; with one nothing changed. Either way no other owner's row changed,
   and the count is the number of rows changed.
   */
  ghost predicate Severed<R>(s: Stmt<R>, owner: Owner, before: map<string, R>, after: map<string, R>, count: nat,
                             warned: bool) {
    && after == (if warned then before else Updated(s, before))
    && (!warned ==> Hits(s, after) == {})
    && (forall id :: id in before && s.owner(before[id]) != owner ==> after[id] == before[id])
    && count == |Changed(before, after)|
  }

  function RowsAfter<R>(s: Stmt<R>, rows: map<string, R>, works: bool): map<string, R> {
    if works then Updated(s, rows) else rows
  }

  function CountOf<R>(s: Stmt<R>, rows: map<string, R>, works: bool): nat { if works then |Hits(s, rows)| else 0 }

  /** What a statement of an owner's own means for the whole table. */
  lemma StepEffect<R(!new)>(s: Stmt<R>, owner: Owner, rows: map<string, R>, works: bool)
    requires Severs(s, owner)
    ensures Severed(s, owner, rows, RowsAfter(s, rows, works), CountOf(s, rows, works), !works)
  {
    assert Changed(rows, rows) == {};
    forall r {:trigger s.change(r)} | s.hit(r) ensures s.change(r) != r {}
    assert Changed(rows, Updated(s, rows)) == Hits(s, rows);
  }

  /** Runs a statement; the count is the database's. */
  method Exec<R>(s: Stmt<R>, rows: map<string, R>, works: bool)
    returns (after: map<string, R>, count: nat, warned: bool)
    ensures after == RowsAfter(s, rows, works) && count == CountOf(s, rows, works) && warned == !works
  {
    if !works { return rows, 0, true; }
    return Updated(s, rows), |Hits(s, rows)|, false;
  }

  // ---- the statements ----

  function RevokeLogins(o: Owner): Stmt<LoginRow> {
    Stmt((r: LoginRow) => r.owner == o && (r.revoked.None? || !r.revoked.value),
         (r: LoginRow) => r.(revoked := Some(true)), (r: LoginRow) => r.owner)
  }

  function RevokeKeys(o: Owner): Stmt<KeyRow> {
    Stmt((r: KeyRow) => r.owner == o && r.status == "active",
         (r: KeyRow) => r.(status := "revoked"), (r: KeyRow) => r.owner)
  }

  function RevokeLeases(o: Owner): Stmt<CheckoutRow> {
    Stmt((r: CheckoutRow) => r.owner == o && r.status == "active",
         (r: CheckoutRow) => r.(status := "revoked"), (r: CheckoutRow) => r.owner)
  }

  function ExpireGrantsAt(o: Owner, now: int): Stmt<GrantRow> {
    Stmt((r: GrantRow) => r.owner == o && r.principalType == "user" && (r.expires.None? || r.expires.value > now),
         (r: GrantRow) => r.(expires := Some(now)), (r: GrantRow) => r.owner)
  }

  function RevokeElevations(o: Owner, actor: string): Stmt<JitRow> {
    Stmt((r: JitRow) => r.owner == o && r.status == "active",
         (r: JitRow) => r.(status := "revoked", revokedBy := if actor != "" then Some(actor) else r.revokedBy),
         (r: JitRow) => r.owner)
  }

  lemma StatementsSever(o: Owner, now: int, actor: string)
    ensures Severs(RevokeLogins(o), o) && Severs(RevokeKeys(o), o) && Severs(RevokeLeases(o), o)
    ensures Severs(ExpireGrantsAt(o, now), o) && Severs(RevokeElevations(o, actor), o)
  {
  }

  datatype Report = Report(userDisabled: bool, sessions: nat, apiKeys: nat, checkouts: nat, grants: nat, jit: nat,
                           guac: nat,
                           warned: Warnings)

  /** The luck of one run: which statements work, the order in which the two listings visit
      rows (a row they do not mention is lost unnoticed), which markers can be written, and for
      each privileged session whether the broker agrees and the row can be marked. */
  datatype Luck = Luck(disables: bool, lists: bool, order: seq<string>, marks: string -> bool, revokes: bool,
                       revokesKeys: bool, revokesLeases: bool, expiresGrants: bool, revokesElevations: bool,
                       listsGuac: bool, guacOrder: seq<string>, agrees: string -> bool, records: string -> bool)

  // ---- revocation markers ----

  /** Markers are written in turn, up to the first failure. */
  function Marked(ids: seq<string>, marks: string -> bool): set<string> {
    if ids == [] || !marks(ids[0]) then {} else {ids[0]} + Marked(ids[1..], marks)
  }

  lemma {:induction false} MarkedAll(ids: seq<string>, marks: string -> bool)
    ensures Marked(ids, marks) <= Ids(ids)
    ensures (forall i :: 0 <= i < |ids| ==> marks(ids[i])) ==> Marked(ids, marks) == Ids(ids)
  {
    if ids != [] {
      MarkedAll(ids[1..], marks);
      assert Ids(ids) == {ids[0]} + Ids(ids[1..]);
    }
  }

  function Listed(pool: set<string>, order: seq<string>): seq<string> { Answer(pool, order, |pool|) }

  lemma ListedExact(pool: set<string>, order: seq<string>)
    ensures Distinct(Listed(pool, order)) && Ids(Listed(pool, order)) == pool * Ids(order)
  {
    AnswerSound(pool, order, |pool|);
    IdsSize(Listed(pool, order));
    SubsetSize(Ids(Listed(pool, order)), pool);
  }

  function MarkersAfter(markers: set<string>, live: set<string>, redis: bool, l: Luck): set<string> {
    if l.lists && redis then markers + Marked(Listed(live, l.order), l.marks) else markers
  }

  predicate MarkersWarn(live: set<string>, redis: bool, l: Luck) {
    !l.lists || (redis && exists i :: 0 <= i < |Listed(live, l.order)| && !l.marks(Listed(live, l.order)[i]))
  }

  /** No marker is written for anything but a live login. Without a warning, every live login
      has its marker exactly when the listing lost none that lacked one. */
  lemma MarkersExact(markers: set<string>, live: set<string>, redis: bool, l: Luck)
    ensures markers <= MarkersAfter(markers, live, redis, l) <= markers + live
    ensures redis && !MarkersWarn(live, redis, l) ==>
              (live <= MarkersAfter(markers, live, redis, l) <==> live <= markers + Ids(l.order))
  {
    var ids := Listed(live, l.order);
    ListedExact(live, l.order);
    MarkedAll(ids, l.marks);
    if redis && !MarkersWarn(live, redis, l) {
      assert Marked(ids, l.marks) == live * Ids(l.order);
      assert MarkersAfter(markers, live, redis, l) == markers + live * Ids(l.order);
    }
  }

  // ---- privileged sessions ----

  predicate LiveGuac(r: GuacRow, o: Owner) { r.owner == o && r.status == "active" }

  function LiveIds(guac: map<string, GuacRow>, o: Owner): set<string> { set id | id in guac && LiveGuac(guac[id], o) }

  /** The broker lets go of the session, or never knew it, and the row can be marked. */
  predicate Killable(r: GuacRow, id: string, l: Luck) { (r.uuid == "" || l.agrees(id)) && l.records(id) }

  /** The rows after the given sessions were taken on. */
  function GuacAfter(guac: map<string, GuacRow>, ids: seq<string>, l: Luck): map<string, GuacRow> {
    map id | id in guac ::
      if id in ids && Killable(guac[id], id, l) then guac[id].(status := "terminated") else guac[id]
  }

  function Killed(guac: map<string, GuacRow>, ids: seq<string>, l: Luck): set<string> {
    set id | id in ids && id in guac && Killable(guac[id], id, l)
  }

  /** The sessions the handler takes on. */
  function Taken(guac: map<string, GuacRow>, o: Owner, configured: bool, l: Luck): seq<string> {
    if l.listsGuac && configured then Listed(LiveIds(guac, o), l.guacOrder) else []
  }

  predicate AllKillable(guac: map<string, GuacRow>, ids: seq<string>, l: Luck) {
    forall id :: id in ids && id in guac ==> Killable(guac[id], id, l)
  }

  predicate GuacWarn(guac: map<string, GuacRow>, o: Owner, configured: bool, l: Luck) {
    var listed := Listed(LiveIds(guac, o), l.guacOrder);
    !l.listsGuac || (listed != [] && !configured) || !AllKillable(guac, listed, l)
  }

  /**
   Only live sessions of the owner change, and only to terminated, with the broker's word or
   without a broker id; the rows changed are the sessions killed. Without a warning the
   sessions left live are exactly those the listing lost.
   */
  lemma GuacExact(guac: map<string, GuacRow>, o: Owner, configured: bool, l: Luck)
    ensures var ids := Taken(guac, o, configured, l);
            && (forall id :: id in guac ==>
                  || GuacAfter(guac, ids, l)[id] == guac[id]
                  || (&& LiveGuac(guac[id], o) && GuacAfter(guac, ids, l)[id] == guac[id].(status := "terminated")
                      && (guac[id].uuid == "" || l.agrees(id))))
            && Changed(guac, GuacAfter(guac, ids, l)) == Killed(guac, ids, l)
            && (!GuacWarn(guac, o, configured, l) ==>
                  LiveIds(GuacAfter(guac, ids, l), o) == LiveIds(guac, o) - Ids(l.guacOrder))
  {
    var live, ids := LiveIds(guac, o), Taken(guac, o, configured, l);
    ListedExact(live, l.guacOrder);
    forall id | id in ids ensures id in live { assert id in Ids(ids); }
    if !GuacWarn(guac, o, configured, l) {
      assert Ids(ids) == live * Ids(l.guacOrder);
      forall id | id in live ensures id in ids <==> id in Ids(l.guacOrder) { assert id in Ids(ids) <==> id in ids; }
    }
  }

  /** The promise that an unwarned run leaves no privileged session live fails exactly when the
      listing loses one. */
  lemma UnwarnedLeavesNone(guac: map<string, GuacRow>, o: Owner, configured: bool, l: Luck)
    requires !GuacWarn(guac, o, configured, l)
    ensures LiveIds(GuacAfter(guac, Taken(guac, o, configured, l), l), o) == {} <==>
              LiveIds(guac, o) <= Ids(l.guacOrder)
  {
    GuacExact(guac, o, configured, l);
    var live, ids := LiveIds(guac, o), Ids(l.guacOrder);
    if live - ids == {} {
      forall id | id in live ensures id in ids { assert id !in live - ids; }
    }
  }

  /** Such a listing: one live session, lost, no warning. */
  lemma LostSessionSurvives(o: Owner, l: Luck)
    requires l.listsGuac && l.guacOrder == []
    ensures var guac := map["g" := GuacRow(o, "u", "active")];
            && !GuacWarn(guac, o, true, l) && GuacAfter(guac, Taken(guac, o, true, l), l) == guac
            && LiveIds(guac, o) == {"g"}
  {
    var guac := map["g" := GuacRow(o, "u", "active")];
    assert Listed(LiveIds(guac, o), l.guacOrder) == [];
  }

  lemma GuacFirst(guac: map<string, GuacRow>, l: Luck)
    ensures GuacAfter(guac, [], l) == guac && Killed(guac, [], l) == {}
  {
  }

  lemma GuacMore(guac: map<string, GuacRow>, ids: seq<string>, id: string, l: Luck)
    requires id in guac && id !in ids
    ensures GuacAfter(guac, ids, l)[id] == guac[id]
    ensures GuacAfter(guac, ids + [id], l) ==
            if Killable(guac[id], id, l) then GuacAfter(guac, ids, l)[id := guac[id].(status := "terminated")]
            else GuacAfter(guac, ids, l)
    ensures |Killed(guac, ids + [id], l)| == |Killed(guac, ids, l)| + (if Killable(guac[id], id, l) then 1 else 0)
    ensures AllKillable(guac, ids + [id], l) <==> AllKillable(guac, ids, l) && Killable(guac[id], id, l)
  {
    assert Killed(guac, ids + [id], l) == Killed(guac, ids, l) + (if Killable(guac[id], id, l) then {id} else {});
  }

  // ---- the whole switch ----

  type Users = map<string, (string, bool)>      // org, enabled

  datatype Tables = Tables(users: Users, logins: map<string, LoginRow>, keys: map<string, KeyRow>,
                           checkouts: map<string, CheckoutRow>, grants: map<string, GrantRow>, jit: map<string, JitRow>,
                           guac: map<string, GuacRow>, markers: set<string>)

  /** Who is cut off, by whom, and how. */
  datatype Order = Order(o: Owner, actor: string, disableUser: bool, now: int, redis: bool, broker: bool)

  /** The account of the owner, in the owner's org, is disabled; no other account changes. */
  function UsersAfter(users: Users, o: Owner, disabled: bool): Users {
    if disabled && o.user in users && users[o.user].0 == o.org then users[o.user := (o.org, false)] else users
  }

  /** Each step runs whatever happened before. */
  function Executed(t: Tables, k: Order, l: Luck): Tables {
    Tables(UsersAfter(t.users, k.o, k.disableUser && l.disables),
           RowsAfter(RevokeLogins(k.o), t.logins, l.revokes),
           RowsAfter(RevokeKeys(k.o), t.keys, k.disableUser && l.revokesKeys),
           RowsAfter(RevokeLeases(k.o), t.checkouts, l.revokesLeases),
           RowsAfter(ExpireGrantsAt(k.o, k.now), t.grants, l.expiresGrants),
           RowsAfter(RevokeElevations(k.o, k.actor), t.jit, l.revokesElevations),
           GuacAfter(t.guac, Taken(t.guac, k.o, k.broker, l), l),
           MarkersAfter(t.markers, Hits(RevokeLogins(k.o), t.logins), k.redis, l))
  }

  /** The counts, and a warning for exactly the steps that fail. */
  function ReportOf(t: Tables, k: Order, l: Luck): Report {
    Report(k.disableUser && l.disables, CountOf(RevokeLogins(k.o), t.logins, l.revokes),
           CountOf(RevokeKeys(k.o), t.keys, k.disableUser && l.revokesKeys),
           CountOf(RevokeLeases(k.o), t.checkouts, l.revokesLeases),
           CountOf(ExpireGrantsAt(k.o, k.now), t.grants, l.expiresGrants),
           CountOf(RevokeElevations(k.o, k.actor), t.jit, l.revokesElevations),
           |Killed(t.guac, Taken(t.guac, k.o, k.broker, l), l)|,
           Warnings(k.disableUser && !l.disables, MarkersWarn(Hits(RevokeLogins(k.o), t.logins), k.redis, l),
                    !l.revokes, k.disableUser && !l.revokesKeys, !l.revokesLeases, !l.expiresGrants,
                    !l.revokesElevations,
                    GuacWarn(t.guac, k.o, k.broker, l)))
  }

  /** In no table does another owner's row change, every count is the number of rows changed,
      and a table whose step was not warned about has nothing of the owner's left to hit. */
  lemma SwitchSevers(t: Tables, k: Order, l: Luck)
    ensures var t', r := Executed(t, k, l), ReportOf(t, k, l);
            && Severed(RevokeLogins(k.o), k.o, t.logins, t'.logins, r.sessions, r.warned.sessions)
            && Severed(RevokeKeys(k.o), k.o, t.keys, t'.keys, r.apiKeys, !k.disableUser || r.warned.apiKeys)
            && Severed(RevokeLeases(k.o), k.o, t.checkouts, t'.checkouts, r.checkouts, r.warned.checkouts)
            && Severed(ExpireGrantsAt(k.o, k.now), k.o, t.grants, t'.grants, r.grants, r.warned.grants)
            && Severed(RevokeElevations(k.o, k.actor), k.o, t.jit, t'.jit, r.jit, r.warned.jit)
    ensures var t' := Executed(t, k, l);
            && (forall u :: u in t.users && u != k.o.user ==> t'.users[u] == t.users[u])
            && (forall id :: id in t.guac && t.guac[id].owner != k.o ==> t'.guac[id] == t.guac[id])
            && ReportOf(t, k, l).guac == |Changed(t.guac, t'.guac)|
  {
    StatementsSever(k.o, k.now, k.actor);
    StepEffect(RevokeLogins(k.o), k.o, t.logins, l.revokes);
    StepEffect(RevokeKeys(k.o), k.o, t.keys, k.disableUser && l.revokesKeys);
    StepEffect(RevokeLeases(k.o), k.o, t.checkouts, l.revokesLeases);
    StepEffect(ExpireGrantsAt(k.o, k.now), k.o, t.grants, l.expiresGrants);
    StepEffect(RevokeElevations(k.o, k.actor), k.o, t.jit, l.revokesElevations);
    GuacExact(t.guac, k.o, k.broker, l);
  }

  lemma RepeatIsZero<R(!new)>(s: Stmt<R>, o: Owner, rows: map<string, R>, works: bool)
    requires Severs(s, o)
    ensures CountOf(s, RowsAfter(s, rows, true), works) == 0
  {
    StepEffect(s, o, rows, true);
  }

  lemma GrantsStayExpired(o: Owner, grants: map<string, GrantRow>, now: int, later: int)
    requires now <= later
    ensures Hits(ExpireGrantsAt(o, later), Updated(ExpireGrantsAt(o, now), grants)) == {}
  {
  }

  /** The privileged sessions a second run changes. */
  lemma RepeatedGuac(guac: map<string, GuacRow>, o: Owner, broker: bool, l: Luck, l': Luck)
    requires !GuacWarn(guac, o, broker, l)
    ensures var mid := GuacAfter(guac, Taken(guac, o, broker, l), l);
            var killed := Killed(mid, Taken(mid, o, broker, l'), l');
            && killed <= LiveIds(guac, o) - Ids(l.guacOrder)
            && (!GuacWarn(mid, o, broker, l') && LiveIds(guac, o) <= Ids(l'.guacOrder) ==>
                  killed == LiveIds(guac, o) - Ids(l.guacOrder))
  {
    var mid := GuacAfter(guac, Taken(guac, o, broker, l), l);
    var ids := Taken(mid, o, broker, l');
    GuacExact(guac, o, broker, l);
    GuacExact(mid, o, broker, l');
    ListedExact(LiveIds(mid, o), l'.guacOrder);
    forall id | id in ids ensures id in LiveIds(mid, o) { assert id in Ids(ids); }
    if !GuacWarn(mid, o, broker, l') && LiveIds(guac, o) <= Ids(l'.guacOrder) {
      forall id | id in LiveIds(mid, o) ensures id in Killed(mid, ids, l') {
        assert id in LiveIds(mid, o) * Ids(l'.guacOrder);
      }
    }
  }

  /**
   A repeat after an unwarned run finds nothing to do in the statements' tables. It finds no
   privileged session either if the first listing lost none; and if the repeat is unwarned and
   lists them all, it counts exactly those the first one lost.
   */
  lemma RepeatAfterUnwarned(t: Tables, k: Order, l: Luck, later: int, l': Luck)
    requires k.now <= later && ReportOf(t, k, l).warned.None()
    ensures var r := ReportOf(Executed(t, k, l), k.(now := later), l');
            && r.sessions == r.apiKeys == r.checkouts == 0 && r.grants == r.jit == 0
            && (LiveIds(t.guac, k.o) <= Ids(l.guacOrder) ==> r.guac == 0)
            && (r.warned.None() && LiveIds(t.guac, k.o) <= Ids(l'.guacOrder) ==>
                  r.guac == |LiveIds(t.guac, k.o) - Ids(l.guacOrder)|)
  {
    StatementsSever(k.o, k.now, k.actor);
    RepeatIsZero(RevokeLogins(k.o), k.o, t.logins, l'.revokes);
    if k.disableUser { RepeatIsZero(RevokeKeys(k.o), k.o, t.keys, l'.revokesKeys); }
    RepeatIsZero(RevokeLeases(k.o), k.o, t.checkouts, l'.revokesLeases);
    RepeatIsZero(RevokeElevations(k.o, k.actor), k.o, t.jit, l'.revokesElevations);
    GrantsStayExpired(k.o, t.grants, k.now, later);
    RepeatedGuac(t.guac, k.o, k.broker, l, l');
  }

  class Store {
    var users: Users
    var logins: map<string, LoginRow>
    var keys: map<string, KeyRow>
    var checkouts: map<string, CheckoutRow>
    var grants: map<string, GrantRow>
    var jit: map<string, JitRow>
    var guac: map<string, GuacRow>
    var markers: set<string>

    ghost function T(): Tables
      reads this
    {
      Tables(users, logins, keys, checkouts, grants, jit, guac, markers)
    }

    /** Revocation markers for every live login listed, stopping at the first failure. */
    method PublishMarkers(o: Owner, redis: bool, l: Luck) returns (warned: bool)
      modifies this`markers
      ensures markers == MarkersAfter(old(markers), Hits(RevokeLogins(o), logins), redis, l)
      ensures warned == MarkersWarn(Hits(RevokeLogins(o), logins), redis, l)
    {
      if !l.lists { return true; }
      if !redis { return false; }
      var live := Hits(RevokeLogins(o), logins);
      var ids := Select(live, l.order, |live|);
      ghost var all := markers + Marked(ids, l.marks);
      for i := 0 to |ids|
        invariant markers + Marked(ids[i..], l.marks) == all
        invariant forall j :: 0 <= j < i ==> l.marks(ids[j])
      {
        assert ids[i..][0] == ids[i] && ids[i..][1..] == ids[i + 1..];
        if !l.marks(ids[i]) { return true; }
        markers := markers + {ids[i]};
      }
      assert ids[|ids|..] == [];
      return false;
    }

    /** One privileged session: the broker is asked first, and the row marked if it agreed. */
    method KillOne(id: string, l: Luck) returns (done: bool)
      requires id in guac
      modifies this`guac
      ensures done == Killable(old(guac)[id], id, l)
      ensures guac == if done then old(guac)[id := old(guac)[id].(status := "terminated")] else old(guac)
    {
      if guac[id].uuid != "" && !l.agrees(id) { return false; }
      if !l.records(id) { return false; }
      guac := guac[id := guac[id].(status := "terminated")];
      return true;
    }

    method TerminateGuacSessions(o: Owner, configured: bool, l: Luck) returns (killed: nat, warned: bool)
      modifies this`guac
      ensures guac == GuacAfter(old(guac), Taken(old(guac), o, configured, l), l)
      ensures killed == |Killed(old(guac), Taken(old(guac), o, configured, l), l)|
      ensures warned == GuacWarn(old(guac), o, configured, l)
    {
      GuacFirst(guac, l);
      if !l.listsGuac { return 0, true; }
      var live := LiveIds(guac, o);
      ListedExact(live, l.guacOrder);
      var ids := Select(live, l.guacOrder, |live|);
      if ids == [] { return 0, false; }
      if !configured { return 0, true; }
      killed, warned := KillAll(ids, l);
    }

    method KillAll(ids: seq<string>, l: Luck) returns (killed: nat, warned: bool)
      requires Distinct(ids) && Ids(ids) <= guac.Keys
      modifies this`guac
      ensures guac == GuacAfter(old(guac), ids, l) && killed == |Killed(old(guac), ids, l)|
      ensures warned == !AllKillable(old(guac), ids, l)
    {
      ghost var start := guac;
      GuacFirst(start, l);
      killed, warned := 0, false;
      for i := 0 to |ids|
        invariant guac == GuacAfter(start, ids[..i], l) && killed == |Killed(start, ids[..i], l)|
        invariant warned == !AllKillable(start, ids[..i], l)
      {
        assert ids[i] in Ids(ids) && ids[..i + 1] == ids[..i] + [ids[i]];
        GuacMore(start, ids[..i], ids[i], l);
        var done := KillOne(ids[i], l);
        if done { killed := killed + 1; } else { warned := true; }
      }
      assert ids[..|ids|] == ids;
    }

    /** Blocks new logins, if the order says so. */
    method DisableUser(k: Order, l: Luck) returns (warned: bool)
      modifies this`users
      ensures users == UsersAfter(old(users), k.o, k.disableUser && l.disables)
      ensures warned == (k.disableUser && !l.disables)
    {
      if !k.disableUser { return false; }
      if !l.disables { return true; }
      if k.o.user in users && users[k.o.user].0 == k.o.org { users := users[k.o.user := (k.o.org, false)]; }
      return false;
    }

    /** Identity: block new logins, publish markers, revoke sessions, and with the account its keys. */
    method SeverIdentity(k: Order, l: Luck)
      returns (sessions: nat, apiKeys: nat, w1: bool, w2: bool, w3: bool, w4: bool)
      modifies this`users, this`markers, this`logins, this`keys
      ensures users == UsersAfter(old(users), k.o, k.disableUser && l.disables) && w1 == (k.disableUser && !l.disables)
      ensures markers == MarkersAfter(old(markers), Hits(RevokeLogins(k.o), old(logins)), k.redis, l)
      ensures w2 == MarkersWarn(Hits(RevokeLogins(k.o), old(logins)), k.redis, l)
      ensures logins == RowsAfter(RevokeLogins(k.o), old(logins), l.revokes) && w3 == !l.revokes
      ensures sessions == CountOf(RevokeLogins(k.o), old(logins), l.revokes)
      ensures keys == RowsAfter(RevokeKeys(k.o), old(keys), k.disableUser && l.revokesKeys)
      ensures apiKeys == CountOf(RevokeKeys(k.o), old(keys), k.disableUser && l.revokesKeys)
      ensures w4 == (k.disableUser && !l.revokesKeys)
    {
      apiKeys, w4 := 0, false;
      w1 := DisableUser(k, l);
      w2 := PublishMarkers(k.o, k.redis, l);
      logins, sessions, w3 := Exec(RevokeLogins(k.o), logins, l.revokes);
      if k.disableUser { keys, apiKeys, w4 := Exec(RevokeKeys(k.o), keys, l.revokesKeys); }
    }

    /** Privileged access: leases, direct grants, elevations. */
    method SeverPrivileges(k: Order, l: Luck)
      returns (leases: nat, expired: nat, elevations: nat, w5: bool, w6: bool, w7: bool)
      modifies this`checkouts, this`grants, this`jit
      ensures checkouts == RowsAfter(RevokeLeases(k.o), old(checkouts), l.revokesLeases) && w5 == !l.revokesLeases
      ensures grants == RowsAfter(ExpireGrantsAt(k.o, k.now), old(grants), l.expiresGrants) && w6 == !l.expiresGrants
      ensures jit == RowsAfter(RevokeElevations(k.o, k.actor), old(jit), l.revokesElevations)
      ensures w7 == !l.revokesElevations
      ensures leases == CountOf(RevokeLeases(k.o), old(checkouts), l.revokesLeases)
      ensures expired == CountOf(ExpireGrantsAt(k.o, k.now), old(grants), l.expiresGrants)
      ensures elevations == CountOf(RevokeElevations(k.o, k.actor), old(jit), l.revokesElevations)
    {
      checkouts, leases, w5 := Exec(RevokeLeases(k.o), checkouts, l.revokesLeases);
      grants, expired, w6 := Exec(ExpireGrantsAt(k.o, k.now), grants, l.expiresGrants);
      jit, elevations, w7 := Exec(RevokeElevations(k.o, k.actor), jit, l.revokesElevations);
    }

    /** The whole switch: identity, then privileged access, then live sessions. */
    method Execute(k: Order, l: Luck) returns (res: Report)
      modifies this
      ensures T() == Executed(old(T()), k, l) && res == ReportOf(old(T()), k, l)
    {
      var sessions, apiKeys, w1, w2, w3, w4 := SeverIdentity(k, l);
      var leases, expired, elevations, w5, w6, w7 := SeverPrivileges(k, l);
      var killed, w8 := TerminateGuacSessions(k.o, k.broker, l);
      res := Report(k.disableUser && !w1, sessions, apiKeys, leases, expired, elevations, killed,
                    Warnings(w1, w2, w3, w4, w5, w6, w7, w8));
    }
  }
}
