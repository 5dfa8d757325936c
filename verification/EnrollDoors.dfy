/** The enrollment endpoints, and any serialized run of them. */
module EnrollDoors {
  import opened Common
  import opened AutoTrust
  import T = EnrollTokens
  import opened EnrollDevices

  datatype World = World(book: T.Book, fleet: FleetState)

  const NoWorld := World(T.NoBook, NoFleet)

  ghost predicate Inv(w: World) { T.BookOk(w.book) && FleetOk(w.fleet) }

  // ---- the agent door ----

  /** Whether the token lookup, the used mark, the session lookup, the statements behind the
      credentials, the device link and the session update work. */
  datatype EnrollLuck = EnrollLuck(answers: bool, marks: bool, looks: bool, issue: IssueLuck, links: bool,
                                   finishes: bool)
  {
    predicate Calm() { answers && marks && looks && issue.Calm() && links && finishes }
  }

  datatype Request = Request(token: string, fingerprint: string, now: int, cfg: Option<Config>,
                             freshAgent: string, freshDevice: string)

  datatype Result = Result(world: World, ok: bool, creds: Credentials)

  const NoCredentials := Credentials("", "")

  /** The session half: the device is linked with the trust the session earned, and the session
      marked enrolled. */
  ghost function Joined(w: World, sid: string, device: string, cfg: Option<Config>, l: EnrollLuck): World
    requires sid in w.book.sessions
  {
    var s := w.book.sessions[sid];
    World(if l.finishes then T.FinishedBook(w.book, sid, T.Enrolled) else w.book,
          Linked(w.fleet, Link(s.user, device, BySession(cfg, s.mfa, s.org)), s.org, l.links))
  }

  predicate Admits(w: World, r: Request, l: EnrollLuck) {
    r.token != "" && l.answers && T.Redeemable(w.book.tokens, r.token, r.now, true)
  }

  /** The token is consumed before credentials are minted. */
  ghost function EnrollResult(w: World, r: Request, l: EnrollLuck): Result {
    if !Admits(w, r, l) then Result(w, false, NoCredentials) else
    var book := T.RedeemedBook(w.book, r.token, l.marks);
    var sess := if l.looks then T.OpenSession(book.sessions, r.token, r.now) else None;
    var creds := IssuedTo(w.fleet.agents, r.fingerprint, r.freshAgent, r.freshDevice, l.issue);
    var agents := AgentsAfter(w.fleet.agents, r.fingerprint, r.freshAgent, r.freshDevice, l.issue);
    var mid := World(book, w.fleet.(agents := agents));
    Result(if sess.Some? then Joined(mid, sess.value, creds.device, r.cfg, l) else mid, true, creds)
  }

  /** What no failure can break: the invariants, the identity of agents, trust once earned, and
      what was used, revoked or finished. */
  ghost predicate Safe(w: World, w': World) {
    && Inv(w') && T.Advances(w.book, w'.book) && TrustKept(w.fleet.known, w'.fleet.known)
    && forall a :: a in w.fleet.agents ==> a in w'.fleet.agents && w'.fleet.agents[a] == w.fleet.agents[a]
  }

  lemma JoinedSafe(w: World, sid: string, device: string, cfg: Option<Config>, l: EnrollLuck)
    requires Inv(w) && sid in w.book.sessions && w.book.sessions[sid].status == T.Pending
    ensures Safe(w, Joined(w, sid, device, cfg, l))
  {
    var s := w.book.sessions[sid];
    T.FinishedKeeps(w.book, sid, T.Enrolled);
    LinkedKeeps(w.fleet, Link(s.user, device, BySession(cfg, s.mfa, s.org)), s.org, l.links);
  }

  lemma SafeTrans(w: World, w': World, w'': World)
    requires Safe(w, w') && Safe(w', w'')
    ensures Safe(w, w'')
  {
    T.AdvancesTrans(w.book, w'.book, w''.book);
  }

  lemma EnrollSafe(w: World, r: Request, l: EnrollLuck)
    requires Inv(w)
    ensures Safe(w, EnrollResult(w, r, l).world)
  {
    if Admits(w, r, l) {
      var book := T.RedeemedBook(w.book, r.token, l.marks);
      var sess := if l.looks then T.OpenSession(book.sessions, r.token, r.now) else None;
      var creds := IssuedTo(w.fleet.agents, r.fingerprint, r.freshAgent, r.freshDevice, l.issue);
      var agents := AgentsAfter(w.fleet.agents, r.fingerprint, r.freshAgent, r.freshDevice, l.issue);
      var mid := World(book, w.fleet.(agents := agents));
      T.RedeemedKeeps(w.book, r.token, r.now, true, l.marks);
      IssueKeeps(w.fleet.agents, r.fingerprint, r.freshAgent, r.freshDevice, l.issue);
      assert Safe(w, mid);
      if sess.Some? {
        JoinedSafe(mid, sess.value, creds.device, r.cfg, l);
        SafeTrans(w, mid, Joined(mid, sess.value, creds.device, r.cfg, l));
      }
    }
  }

  /**
   When every statement works and the fresh agent id is new: the door opens exactly for a
   redeemable token, which is then spent unless reusable; the credentials name a registered
   agent; the token's open session, if there is one, ends enrolled and its user's device row
   carries exactly the trust earned so far; without one neither sessions nor devices change.
   */
  lemma CalmEnroll(w: World, r: Request, l: EnrollLuck)
    requires Inv(w) && l.Calm() && r.freshAgent !in w.fleet.agents
    ensures var res := EnrollResult(w, r, l); var w' := res.world;
            && (res.ok <==> r.token != "" && T.Redeemable(w.book.tokens, r.token, r.now, true))
            && (res.ok ==>
                  && (w.book.tokens[r.token].reusable || w'.book.tokens[r.token].used)
                  && res.creds.agent in w'.fleet.agents
                  && w'.fleet.agents[res.creds.agent].device == res.creds.device
                  && (forall s :: s in w.book.sessions && T.Open(w.book.sessions[s], r.token, r.now) ==>
                        && w'.book.sessions == w.book.sessions[s := w.book.sessions[s].(status := T.Enrolled)]
                        && w'.fleet.known == KnownAfter(w.fleet.known, w.book.sessions[s], res.creds.device, r.cfg))
                  && ((forall s :: s in w.book.sessions ==> !T.Open(w.book.sessions[s], r.token, r.now)) ==>
                        w'.book.sessions == w.book.sessions && w'.fleet.known == w.fleet.known))
  {
    if Admits(w, r, l) {
      CalmIssue(w.fleet.agents, r.fingerprint, r.freshAgent, r.freshDevice, l.issue);
      var sess := T.OpenSession(w.book.sessions, r.token, r.now);
      forall s | s in w.book.sessions && T.Open(w.book.sessions[s], r.token, r.now) ensures sess == Some(s) {
        T.OneOpen(w.book, s, sess.value, r.token, r.now);
      }
    }
  }

  /** The device rows after a session brought a device in. */
  function KnownAfter(known: Devices, s: T.Session, device: string, cfg: Option<Config>): Devices {
    if s.org == "" then known else Upserted(known, s.user, device, s.org, EarnsTrust(cfg, s.mfa, s.org))
  }

  method HandleEnroll(desk: T.Desk, fleet: Fleet, r: Request, l: EnrollLuck) returns (ok: bool, creds: Credentials)
    requires Inv(World(desk.B(), fleet.F()))
    modifies desk, fleet
    ensures Result(World(desk.B(), fleet.F()), ok, creds) == EnrollResult(old(World(desk.B(), fleet.F())), r, l)
  {
    creds := NoCredentials;
    if r.token == "" { return false, creds; }
    ghost var w := World(desk.B(), fleet.F());
    ok := desk.Redeem(r.token, r.now, true, l.answers, l.marks);
    if !ok { return; }
    T.RedeemedKeeps(w.book, r.token, r.now, true, l.marks);
    var sess := desk.LookupSession(r.token, r.now, l.looks);
    creds := fleet.Issue(r.fingerprint, r.freshAgent, r.freshDevice, l.issue);
    if sess.Some? { JoinSession(desk, fleet, sess.value, creds.device, r.cfg, l); }
  }

  /** The session half of the agent door: decide trust, link the device, mark the session. */
  method JoinSession(desk: T.Desk, fleet: Fleet, sid: string, device: string, cfg: Option<Config>, l: EnrollLuck)
    requires sid in desk.sessions
    modifies desk`sessions, desk`log, fleet`known, fleet`links
    ensures World(desk.B(), fleet.F()) == Joined(old(World(desk.B(), fleet.F())), sid, device, cfg, l)
  {
    var s := desk.sessions[sid];
    var trusted, mode := DecideAutoTrust(cfg, s.mfa, false, s.org);
    fleet.LinkDevice(s.user, device, s.org, BySession(cfg, s.mfa, s.org), trusted, l.links);
    desk.MarkEnrolled(sid, l.finishes);
  }

  // ---- a signed-in user enrolls a device directly ----

  datatype SignIn = SignIn(user: string, org: string, fingerprint: string, freshAgent: string, freshDevice: string)

  /** The device is linked, never auto-trusted. */
  ghost function OAuthResult(f: FleetState, r: SignIn, issue: IssueLuck, links: bool): FleetState {
    if r.user == "" then f else
    var creds := IssuedTo(f.agents, r.fingerprint, r.freshAgent, r.freshDevice, issue);
    Linked(f.(agents := AgentsAfter(f.agents, r.fingerprint, r.freshAgent, r.freshDevice, issue)),
           Link(r.user, creds.device, BySignIn), r.org, links)
  }

  /** It leaves everyone's trust as it was. */
  lemma OAuthSafe(w: World, r: SignIn, issue: IssueLuck, links: bool)
    requires Inv(w)
    ensures Safe(w, w.(fleet := OAuthResult(w.fleet, r, issue, links)))
    ensures forall k :: k in w.fleet.known ==>
              OAuthResult(w.fleet, r, issue, links).known[k].trusted == w.fleet.known[k].trusted
  {
    if r.user != "" {
      var f, creds := w.fleet, IssuedTo(w.fleet.agents, r.fingerprint, r.freshAgent, r.freshDevice, issue);
      var mid := f.(agents := AgentsAfter(f.agents, r.fingerprint, r.freshAgent, r.freshDevice, issue));
      IssueKeeps(f.agents, r.fingerprint, r.freshAgent, r.freshDevice, issue);
      LinkedKeeps(mid, Link(r.user, creds.device, BySignIn), r.org, links);
    }
  }

  method HandleEnrollOAuth(fleet: Fleet, r: SignIn, issue: IssueLuck, links: bool)
    returns (ok: bool, creds: Credentials)
    requires FingerprintsUnique(fleet.agents)
    modifies fleet
    ensures fleet.F() == OAuthResult(old(fleet.F()), r, issue, links)
    ensures ok == (r.user != "")
    ensures ok ==> creds == IssuedTo(old(fleet.agents), r.fingerprint, r.freshAgent, r.freshDevice, issue)
  {
    creds, ok := NoCredentials, r.user != "";
    if ok {
      creds := fleet.Issue(r.fingerprint, r.freshAgent, r.freshDevice, issue);
      fleet.LinkDevice(r.user, creds.device, r.org, BySignIn, false, links);
    }
  }

  // ---- the network door ----

  datatype Proof = Proof(bearerSubject: Option<string>, token: string, passkey: bool)

  predicate ByBearer(p: Proof) { p.bearerSubject.Some? && p.bearerSubject.value != "" }

  /** A token is spent only if no bearer session speaks for the caller. */
  function ResolvedBook(b: T.Book, p: Proof, now: int, answers: bool, marks: bool): T.Book {
    if !ByBearer(p) && p.token != "" && answers && T.Redeemable(b.tokens, p.token, now, false)
    then T.RedeemedBook(b, p.token, marks) else b
  }

  method ResolveEnrollSubject(desk: T.Desk, p: Proof, now: int, answers: bool, marks: bool)
    returns (subject: Option<string>)
    modifies desk
    ensures desk.B() == ResolvedBook(old(desk.B()), p, now, answers, marks)
    ensures ByBearer(p) ==> subject == p.bearerSubject
    ensures !ByBearer(p) ==>
              (subject.Some? <==> p.token != "" && answers && T.Redeemable(old(desk.tokens), p.token, now, false))
  {
    if p.bearerSubject.Some? && p.bearerSubject.value != "" { return p.bearerSubject; }
    if p.token != "" {
      subject := desk.ValidateEnrollmentToken(p.token, now, answers, marks);
      return;
    }
    return None;
  }

  // ---- whole runs ----

  datatype Op =
    | GenerateToken(h: string, reusable: bool, expires: int, createdBy: string, stores: bool)
    | CreateSession(s: string, h: string, user: string, org: string, mfa: bool, expires: int, storesToken: bool,
                    stores: bool)
    | Cancel(s: string, user: string, stores: bool, revokes: bool)
    | Revoke(h: string, stores: bool)
    | AgentDoor(r: Request, l: EnrollLuck)
    | OAuthDoor(signIn: SignIn, issue: IssueLuck, links: bool)
    | NetworkDoor(proof: Proof, now: int, answers: bool, marks: bool)

  ghost function After(w: World, op: Op): World {
    match op
    case GenerateToken(h, reusable, expires, createdBy, stores) =>
      w.(book := T.Generated(w.book, h, reusable, expires, createdBy, stores))
    case CreateSession(s, h, user, org, mfa, expires, storesToken, stores) =>
      w.(book := T.SessionCreated(w.book, s, h, user, org, mfa, expires, storesToken, stores))
    case Cancel(s, user, stores, revokes) => w.(book := T.CanceledBook(w.book, s, user, stores, revokes))
    case Revoke(h, stores) => w.(book := T.RevokedBook(w.book, h, stores))
    case AgentDoor(r, l) => EnrollResult(w, r, l).world
    case OAuthDoor(r, issue, links) => w.(fleet := OAuthResult(w.fleet, r, issue, links))
    case NetworkDoor(p, now, answers, marks) => w.(book := ResolvedBook(w.book, p, now, answers, marks))
  }

  /** Every operation is safe, whatever fails. */
  lemma AfterSafe(w: World, op: Op)
    requires Inv(w)
    ensures Safe(w, After(w, op))
  {
    match op
    case GenerateToken(h, reusable, expires, createdBy, stores) =>
      T.GeneratedKeeps(w.book, h, reusable, expires, createdBy, stores);
    case CreateSession(s, h, user, org, mfa, expires, storesToken, stores) =>
      T.CreatedKeeps(w.book, s, h, user, org, mfa, expires, storesToken, stores);
    case Cancel(s, user, stores, revokes) => T.CanceledKeeps(w.book, s, user, stores, revokes);
    case Revoke(h, stores) => T.RevokedKeeps(w.book, h, stores);
    case AgentDoor(r, l) => EnrollSafe(w, r, l);
    case OAuthDoor(r, issue, links) => OAuthSafe(w, r, issue, links);
    case NetworkDoor(p, now, answers, marks) =>
      if After(w, op) != w { T.RedeemedKeeps(w.book, p.token, now, false, marks); }
  }

  /**
   The world after a run from empty tables. In it no token was redeemed after it was revoked or
   marked used, every session had at most one finishing event, no two agents share a
   fingerprint, and a device is trusted exactly when a past link earned it.
   */
  ghost function Run(ops: seq<Op>): (w: World)
    ensures Inv(w)
  {
    if ops == [] then NoWorld else
    var w := Run(ops[..|ops| - 1]);
    AfterSafe(w, ops[|ops| - 1]);
    After(w, ops[|ops| - 1])
  }

  /** The used mark of every redemption in the run can be written. */
  predicate MarksWork(op: Op) {
    match op
    case AgentDoor(_, l) => l.marks
    case NetworkDoor(_, _, _, marks) => marks
    case _ => true
  }

  /** New events of an operation whose marks work are no unmarked redemptions of single-use tokens. */
  lemma NewEvents(w: World, op: Op)
    requires MarksWork(op)
    ensures T.Unlost(w.book, After(w, op).book)
  {
  }

  lemma AfterLosesNone(w: World, op: Op)
    requires Inv(w) && T.NoneLost(w.book) && MarksWork(op)
    ensures T.NoneLost(After(w, op).book)
  {
    AfterSafe(w, op);
    NewEvents(w, op);
    T.UnlostKeeps(w.book, After(w, op).book);
  }

  lemma {:induction false} RunLosesNone(ops: seq<Op>)
    requires forall i :: 0 <= i < |ops| ==> MarksWork(ops[i])
    ensures T.NoneLost(Run(ops).book)
  {
    if ops != [] {
      RunLosesNone(ops[..|ops| - 1]);
      AfterLosesNone(Run(ops[..|ops| - 1]), ops[|ops| - 1]);
    }
  }

  /** In a run whose used marks can all be written, a single-use token is redeemed at most once,
      through whichever doors; in any run, at most once with its mark written. */
  lemma SingleUse(ops: seq<Op>, h: string)
    requires h in Run(ops).book.tokens && !Run(ops).book.tokens[h].reusable
    ensures (forall i :: 0 <= i < |ops| ==> MarksWork(ops[i])) ==> Admissions(ops, h) <= 1
    ensures T.CountRedeemed(Run(ops).book.log, h, true) == if Run(ops).book.tokens[h].used then 1 else 0
  {
    T.RedemptionsExact(Run(ops).book, h);
    RedemptionsAreAdmissions(ops, h);
    if forall i :: 0 <= i < |ops| ==> MarksWork(ops[i]) { RunLosesNone(ops); }
  }

  // ---- the logs are the operations ----

  /** The operation redeems the token, through either door. */
  ghost predicate Redeems(w: World, op: Op, h: string) {
    || (op.AgentDoor? && op.r.token == h && Admits(w, op.r, op.l))
    || (&& op.NetworkDoor? && op.proof.token == h && !ByBearer(op.proof) && h != "" && op.answers
        && T.Redeemable(w.book.tokens, h, op.now, false))
  }

  ghost function Admissions(ops: seq<Op>, h: string): nat {
    if ops == [] then 0 else
    Admissions(ops[..|ops| - 1], h) + (if Redeems(Run(ops[..|ops| - 1]), ops[|ops| - 1], h) then 1 else 0)
  }

  lemma RedeemsCount(b: T.Book, h: string, marks: bool, x: string)
    requires h in b.tokens
    ensures T.Redemptions(T.RedeemedBook(b, h, marks).log, x) == T.Redemptions(b.log, x) + if x == h then 1 else 0
  {
    var e := T.Redeemed(h, marks && !b.tokens[h].reusable);
    T.CountMore(b.log, e, x, true);
    T.CountMore(b.log, e, x, false);
  }

  lemma OtherEvents(log: T.Log, e: T.Event, x: string)
    requires !e.Redeemed?
    ensures T.Redemptions(log + [e], x) == T.Redemptions(log, x)
  {
    T.CountMore(log, e, x, true);
    T.CountMore(log, e, x, false);
  }

  lemma StepCounts(w: World, op: Op, h: string)
    ensures T.Redemptions(After(w, op).book.log, h) == T.Redemptions(w.book.log, h) + if Redeems(w, op, h) then 1 else 0
  {
    match op
    case Cancel(s, user, stores, revokes) =>
      if stores && T.Cancelable(w.book, s, user) {
        var mid := T.FinishedBook(w.book, s, T.Canceled);
        OtherEvents(w.book.log, T.Finished(s, T.Canceled), h);
        OtherEvents(mid.log, T.Revoked(w.book.sessions[s].token), h);
      }
    case Revoke(t, _) => OtherEvents(w.book.log, T.Revoked(t), h);
    case AgentDoor(r, l) =>
      if Admits(w, r, l) {
        var book := T.RedeemedBook(w.book, r.token, l.marks);
        var sess := if l.looks then T.OpenSession(book.sessions, r.token, r.now) else None;
        RedeemsCount(w.book, r.token, l.marks, h);
        if sess.Some? { OtherEvents(book.log, T.Finished(sess.value, T.Enrolled), h); }
      }
    case NetworkDoor(p, now, answers, marks) =>
      if After(w, op).book != w.book { RedeemsCount(w.book, p.token, marks, h); }
    case _ =>
  }

  /** The redemptions in the log are the operations that were let in with the token. */
  lemma {:induction false} RedemptionsAreAdmissions(ops: seq<Op>, h: string)
    ensures T.Redemptions(Run(ops).book.log, h) == Admissions(ops, h)
  {
    if ops != [] {
      RedemptionsAreAdmissions(ops[..|ops| - 1], h);
      StepCounts(Run(ops[..|ops| - 1]), ops[|ops| - 1], h);
    }
  }

  /** The link an operation writes, if it writes one. */
  ghost function LinkOf(w: World, op: Op): Option<Link> {
    match op
    case AgentDoor(r, l) =>
      var sess := if l.looks then T.OpenSession(w.book.sessions, r.token, r.now) else None;
      if !Admits(w, r, l) || sess.None? || w.book.sessions[sess.value].org == "" || !l.links then None else
      var s := w.book.sessions[sess.value];
      var device := IssuedTo(w.fleet.agents, r.fingerprint, r.freshAgent, r.freshDevice, l.issue).device;
      Some(Link(s.user, device, BySession(r.cfg, s.mfa, s.org)))
    case OAuthDoor(r, issue, links) =>
      if r.user == "" || r.org == "" || !links then None else
      Some(Link(r.user, IssuedTo(w.fleet.agents, r.fingerprint, r.freshAgent, r.freshDevice, issue).device, BySignIn))
    case _ => None
  }

  lemma StepLinks(w: World, op: Op)
    ensures After(w, op).fleet.links == w.fleet.links + (if LinkOf(w, op).Some? then [LinkOf(w, op).value] else [])
  {
  }

  ghost predicate Links(ops: seq<Op>, i: nat, l: Link)
    requires i < |ops|
  {
    LinkOf(Run(ops[..i]), ops[i]) == Some(l)
  }

  lemma LinksPrefix(ops: seq<Op>, n: nat, i: nat, l: Link)
    requires i < n <= |ops|
    ensures Links(ops[..n], i, l) <==> Links(ops, i, l)
  {
    assert ops[..n][..i] == ops[..i];
  }

  lemma LinksMore(ops: seq<Op>, n: nat, l: Link)
    requires |ops| == n + 1
    ensures l in Run(ops).fleet.links <==> l in Run(ops[..n]).fleet.links || Links(ops, n, l)
  {
    StepLinks(Run(ops[..n]), ops[n]);
  }

  lemma {:induction false} LinkFrom(ops: seq<Op>, l: Link) returns (i: nat)
    requires l in Run(ops).fleet.links
    ensures i < |ops| && Links(ops, i, l)
  {
    var n := |ops| - 1;
    LinksMore(ops, n, l);
    if l in Run(ops[..n]).fleet.links {
      i := LinkFrom(ops[..n], l);
      LinksPrefix(ops, n, i, l);
    } else {
      i := n;
    }
  }

  lemma {:induction false} LinkIn(ops: seq<Op>, i: nat, l: Link)
    requires i < |ops| && Links(ops, i, l)
    ensures l in Run(ops).fleet.links
  {
    if |ops| == i + 1 {
      LinksMore(ops, i, l);
    } else {
      var n := |ops| - 1;
      LinksPrefix(ops, n, i, l);
      LinkIn(ops[..n], i, l);
      LinksMore(ops, n, l);
    }
  }

  /** A user's device row is trusted exactly when some operation of the run joined the device to
      the user through a session that earned trust. */
  lemma TrustedExactly(ops: seq<Op>, user: string, device: string)
    ensures var known := Run(ops).fleet.known;
            ((user, device) in known && known[(user, device)].trusted) <==>
            exists i, l :: 0 <= i < |ops| && Links(ops, i, l) && l.user == user && l.device == device && Earned(l)
  {
    var f := Run(ops).fleet;
    if (user, device) in f.known && f.known[(user, device)].trusted {
      var l :| l in f.links && l.user == user && l.device == device && Earned(l);
      var i := LinkFrom(ops, l);
      assert 0 <= i < |ops| && Links(ops, i, l);
    }
    if i, l :| 0 <= i < |ops| && Links(ops, i, l) && l.user == user && l.device == device && Earned(l) {
      LinkIn(ops, i, l);
    }
  }

  /** Serves any sequence of operations, with failures wherever the input has them. */
  method Serve(ops: seq<Op>) returns (desk: T.Desk, fleet: Fleet)
    ensures World(desk.B(), fleet.F()) == Run(ops)
  {
    desk := new T.Desk();
    fleet := new Fleet();
    for i := 0 to |ops|
      invariant fresh(desk) && fresh(fleet) && World(desk.B(), fleet.F()) == Run(ops[..i])
    {
      assert ops[..i + 1][..i] == ops[..i];
      ServeOne(desk, fleet, ops[i]);
    }
    assert ops[..|ops|] == ops;
  }

  method ServeOne(desk: T.Desk, fleet: Fleet, op: Op)
    requires Inv(World(desk.B(), fleet.F()))
    modifies desk, fleet
    ensures World(desk.B(), fleet.F()) == After(old(World(desk.B(), fleet.F())), op)
  {
    match op
    case GenerateToken(h, reusable, expires, createdBy, stores) =>
      var _ := desk.GenerateToken(h, reusable, expires, createdBy, stores);
    case CreateSession(s, h, user, org, mfa, expires, storesToken, stores) =>
      var _ := desk.CreateSession(s, h, user, org, mfa, expires, storesToken, stores);
    case Cancel(s, user, stores, revokes) => var _ := desk.CancelSession(s, user, stores, revokes);
    case Revoke(h, stores) => desk.RevokeToken(h, stores);
    case AgentDoor(r, l) => var _, _ := HandleEnroll(desk, fleet, r, l);
    case OAuthDoor(r, issue, links) => var _, _ := HandleEnrollOAuth(fleet, r, issue, links);
    case NetworkDoor(p, now, answers, marks) => var _ := ResolveEnrollSubject(desk, p, now, answers, marks);
  }
}
