/**
 Enrollment tokens and onboarding sessions.

 Requests are handled one at a time. Whether each statement works is an input; the log records
 what was actually written, so a redemption whose `used` mark was lost shows up as unmarked.
 */
module EnrollTokens {
  import opened Common

  datatype Token = Token(used: bool, revoked: bool, reusable: bool, expires: int, createdBy: string)

  datatype Status = Pending | Enrolled | Canceled

  datatype Session = Session(token: string, user: string, org: string, mfa: bool, status: Status, expires: int)

  datatype Event =
    | Redeemed(token: string, marked: bool)      // marked: the token was recorded as used
    | Revoked(token: string)
    | Finished(session: string, status: Status)  // a session left `Pending`

  type Log = seq<Event>
  type Tokens = map<string, Token>
  type Sessions = map<string, Session>

  datatype Book = Book(tokens: Tokens, sessions: Sessions, log: Log)

  const NoBook := Book(map[], map[], [])

  // ---- what every step keeps ----

  /** The log and the token table tell one story. */
  ghost predicate TokensMatch(tokens: Tokens, log: Log) {
    && (forall h :: h in tokens ==> (tokens[h].revoked <==> Revoked(h) in log))
    && (forall h :: h in tokens ==> (tokens[h].used <==> Redeemed(h, true) in log))
    && (forall h :: h in tokens && tokens[h].used ==> !tokens[h].reusable)
    && (forall e :: e in log && !e.Finished? ==> e.token in tokens)
  }

  /** Nothing is redeemed after it was revoked or marked used. */
  ghost predicate NoLateRedemption(log: Log) {
    forall i, j :: 0 <= i < j < |log| && log[j].Redeemed? ==>
      log[i] != Revoked(log[j].token) && log[i] != Redeemed(log[j].token, true)
  }

  /** A session is pending exactly until its one finishing event, which fixes its status. */
  ghost predicate SessionsMatch(sessions: Sessions, log: Log) {
    && (forall e :: e in log && e.Finished? ==>
          e.session in sessions && e.status != Pending && sessions[e.session].status == e.status)
    && (forall s :: s in sessions && sessions[s].status != Pending ==> Finished(s, sessions[s].status) in log)
    && (forall i, j :: 0 <= i < j < |log| && log[i].Finished? && log[j].Finished? ==> log[i].session != log[j].session)
  }

  /** Each session has a single-use token of its own. */
  ghost predicate OwnTokens(tokens: Tokens, sessions: Sessions) {
    && (forall s :: s in sessions ==> sessions[s].token in tokens && !tokens[sessions[s].token].reusable)
    && (forall s, t :: s in sessions && t in sessions && s != t ==> sessions[s].token != sessions[t].token)
  }

  ghost predicate BookOk(b: Book) {
    && TokensMatch(b.tokens, b.log) && NoLateRedemption(b.log)
    && SessionsMatch(b.sessions, b.log) && OwnTokens(b.tokens, b.sessions)
  }

  /** Rows stay, `used` and `revoked` are never taken back, sessions only leave `Pending`. */
  ghost predicate Advances(b: Book, b': Book) {
    && (forall h :: h in b.tokens ==>
          && h in b'.tokens && b'.tokens[h] == b.tokens[h].(used := b'.tokens[h].used, revoked := b'.tokens[h].revoked)
          && (b.tokens[h].used ==> b'.tokens[h].used) && (b.tokens[h].revoked ==> b'.tokens[h].revoked))
    && (forall s :: s in b.sessions ==>
          && s in b'.sessions && b'.sessions[s] == b.sessions[s].(status := b'.sessions[s].status)
          && (b.sessions[s].status != Pending ==> b'.sessions[s].status == b.sessions[s].status))
  }

  lemma AdvancesTrans(b: Book, b': Book, b'': Book)
    requires Advances(b, b') && Advances(b', b'')
    ensures Advances(b, b'')
  {
  }

  // ---- tokens ----

  function Generated(b: Book, h: string, reusable: bool, expires: int, createdBy: string, stores: bool): Book {
    if stores && h !in b.tokens
    then b.(tokens := b.tokens[h := Token(false, false, reusable, expires, createdBy)]) else b
  }

  function RevokedBook(b: Book, h: string, stores: bool): Book {
    if stores && h in b.tokens
    then b.(tokens := b.tokens[h := b.tokens[h].(revoked := true)], log := b.log + [Revoked(h)]) else b
  }

  /** Known, not revoked, not expired where that is checked, and reusable or not yet used. */
  predicate Redeemable(tokens: Tokens, h: string, now: int, checkExpiry: bool) {
    && h in tokens && !tokens[h].revoked && (checkExpiry ==> now <= tokens[h].expires)
    && (tokens[h].reusable || !tokens[h].used)
  }

  /** A redemption; the mark is only tried on a single-use token. */
  function RedeemedBook(b: Book, h: string, marks: bool): Book
    requires h in b.tokens
  {
    var marked := marks && !b.tokens[h].reusable;
    b.(tokens := if marked then b.tokens[h := b.tokens[h].(used := true)] else b.tokens,
       log := b.log + [Redeemed(h, marked)])
  }

  lemma GeneratedKeeps(b: Book, h: string, reusable: bool, expires: int, createdBy: string, stores: bool)
    requires BookOk(b)
    ensures var b' := Generated(b, h, reusable, expires, createdBy, stores); BookOk(b') && Advances(b, b')
  {
  }

  lemma EventMore(log: Log, e: Event)
    ensures forall x :: x in log + [e] <==> x in log || x == e
  {
  }

  lemma RevokedTokens(b: Book, h: string)
    requires BookOk(b) && h in b.tokens
    ensures var b' := RevokedBook(b, h, true); TokensMatch(b'.tokens, b'.log) && OwnTokens(b'.tokens, b'.sessions)
  {
    EventMore(b.log, Revoked(h));
  }

  lemma RevokedKeeps(b: Book, h: string, stores: bool)
    requires BookOk(b)
    ensures BookOk(RevokedBook(b, h, stores)) && Advances(b, RevokedBook(b, h, stores))
  {
    if stores && h in b.tokens { RevokedTokens(b, h); }
  }

  lemma RedeemedKeeps(b: Book, h: string, now: int, checkExpiry: bool, marks: bool)
    requires BookOk(b) && Redeemable(b.tokens, h, now, checkExpiry)
    ensures BookOk(RedeemedBook(b, h, marks)) && Advances(b, RedeemedBook(b, h, marks))
  {
    var b' := RedeemedBook(b, h, marks);
    forall i, j | 0 <= i < j < |b'.log| && b'.log[j].Redeemed?
      ensures b'.log[i] != Revoked(b'.log[j].token) && b'.log[i] != Redeemed(b'.log[j].token, true)
    {
      if j == |b.log| { assert b'.log[i] in b.log; }
    }
  }

  /** A single-use token that was just redeemed can be redeemed again exactly when its mark was
      lost. */
  lemma ReopenedExactly(b: Book, h: string, now: int, checkExpiry: bool, marks: bool)
    requires Redeemable(b.tokens, h, now, checkExpiry) && !b.tokens[h].reusable
    ensures Redeemable(RedeemedBook(b, h, marks).tokens, h, now, checkExpiry) <==> !marks
  {
  }

  /** The network door takes expired tokens, the agent door does not: on a token that exists they
      agree exactly when it is unexpired, or neither would take it anyway. */
  lemma DoorsAgreeExactly(tokens: Tokens, h: string, now: int)
    requires h in tokens
    ensures Redeemable(tokens, h, now, true) ==> now <= tokens[h].expires
    ensures Redeemable(tokens, h, now, false) ==> (Redeemable(tokens, h, now, true) <==> now <= tokens[h].expires)
    ensures (Redeemable(tokens, h, now, false) <==> Redeemable(tokens, h, now, true)) <==>
            (now <= tokens[h].expires || tokens[h].revoked || (tokens[h].used && !tokens[h].reusable))
  {
  }

  /** A token that expired long ago passes the network door. */
  lemma ExpiredPassesNetworkDoor()
    ensures var tokens := map["h" := Token(false, false, false, 0, "u")];
            Redeemable(tokens, "h", 1000, false) && !Redeemable(tokens, "h", 1000, true)
  {
  }

  // ---- counting redemptions ----

  function CountRedeemed(log: Log, h: string, marked: bool): nat {
    if log == [] then 0 else
    CountRedeemed(log[..|log| - 1], h, marked) + (if log[|log| - 1] == Redeemed(h, marked) then 1 else 0)
  }

  /** A token is redeemed and marked at most once, namely if it is recorded as used. */
  lemma {:induction false} MarkedOnce(log: Log, h: string)
    requires NoLateRedemption(log)
    ensures CountRedeemed(log, h, true) == if Redeemed(h, true) in log then 1 else 0
  {
    if log != [] {
      var n := |log| - 1;
      MarkedOnce(log[..n], h);
      assert log == log[..n] + [log[n]];
      if log[n] == Redeemed(h, true) {
        forall i | 0 <= i < n ensures log[i] != Redeemed(h, true) {}
      }
    }
  }

  lemma {:induction false} NeverRedeemed(log: Log, h: string, marked: bool)
    requires Redeemed(h, marked) !in log
    ensures CountRedeemed(log, h, marked) == 0
  {
    if log != [] {
      assert log[|log| - 1] in log;
      NeverRedeemed(log[..|log| - 1], h, marked);
    }
  }

  lemma CountMore(log: Log, e: Event, h: string, marked: bool)
    ensures CountRedeemed(log + [e], h, marked)
            == CountRedeemed(log, h, marked) + if e == Redeemed(h, marked) then 1 else 0
  {
    assert (log + [e])[..|log|] == log;
  }

  function Redemptions(log: Log, h: string): nat { CountRedeemed(log, h, true) + CountRedeemed(log, h, false) }

  /** No mark of a single-use token was lost. */
  ghost predicate NoneLost(b: Book) {
    forall h :: h in b.tokens && !b.tokens[h].reusable ==> Redeemed(h, false) !in b.log
  }

  /** Whatever redemption is new left its mark, or was of a reusable token. */
  ghost predicate Unlost(b: Book, b': Book) {
    forall e :: e in b'.log && e.Redeemed? && !e.marked ==>
      e in b.log || (e.token in b.tokens && b.tokens[e.token].reusable)
  }

  lemma UnlostKeeps(b: Book, b': Book)
    requires BookOk(b) && NoneLost(b) && Advances(b, b') && Unlost(b, b')
    ensures NoneLost(b')
  {
    forall h | h in b'.tokens && !b'.tokens[h].reusable ensures Redeemed(h, false) !in b'.log {
      assert h !in b.tokens ==> Redeemed(h, false) !in b.log;
    }
  }

  /** The redemptions of a token are the one that marked it, if any, and those whose mark was
      not written; without lost marks a single-use token is redeemed at most once. */
  lemma RedemptionsExact(b: Book, h: string)
    requires BookOk(b) && h in b.tokens
    ensures Redemptions(b.log, h) == (if b.tokens[h].used then 1 else 0) + CountRedeemed(b.log, h, false)
    ensures NoneLost(b) && !b.tokens[h].reusable ==> Redemptions(b.log, h) <= 1
  {
    MarkedOnce(b.log, h);
    if NoneLost(b) && !b.tokens[h].reusable { NeverRedeemed(b.log, h, false); }
  }

  // ---- sessions ----

  /** A session this token can still finish. */
  predicate Open(s: Session, h: string, now: int) { s.token == h && s.status == Pending && now < s.expires }

  /** A token has at most one open session. */
  lemma OneOpen(b: Book, s: string, t: string, h: string, now: int)
    requires OwnTokens(b.tokens, b.sessions) && s in b.sessions && t in b.sessions
    requires Open(b.sessions[s], h, now) && Open(b.sessions[t], h, now)
    ensures s == t
  {
  }

  ghost function OpenSession(sessions: Sessions, h: string, now: int): (found: Option<string>)
    ensures found.Some? ==> found.value in sessions && Open(sessions[found.value], h, now)
    ensures found.None? ==> forall s :: s in sessions ==> !Open(sessions[s], h, now)
  {
    if exists s :: s in sessions && Open(sessions[s], h, now)
    then var s :| s in sessions && Open(sessions[s], h, now); Some(s) else None
  }

  /** A single-use token, then the session row. */
  function SessionCreated(b: Book, s: string, h: string, user: string, org: string, mfa: bool, expires: int,
                          storesToken: bool, stores: bool): Book
  {
    var b' := Generated(b, h, false, expires, user, storesToken);
    if storesToken && h !in b.tokens && stores && s !in b.sessions
    then b'.(sessions := b.sessions[s := Session(h, user, org, mfa, Pending, expires)]) else b'
  }

  function FinishedBook(b: Book, s: string, status: Status): Book
    requires s in b.sessions
  {
    b.(sessions := b.sessions[s := b.sessions[s].(status := status)], log := b.log + [Finished(s, status)])
  }

  predicate Cancelable(b: Book, s: string, user: string) {
    s in b.sessions && b.sessions[s].user == user && b.sessions[s].status == Pending
  }

  /** Cancel a pending session of one's own, then revoke its token (best effort). */
  function CanceledBook(b: Book, s: string, user: string, stores: bool, revokes: bool): Book {
    if stores && Cancelable(b, s, user)
    then RevokedBook(FinishedBook(b, s, Canceled), b.sessions[s].token, revokes) else b
  }

  lemma CreatedKeeps(b: Book, s: string, h: string, user: string, org: string, mfa: bool, expires: int,
                     storesToken: bool, stores: bool)
    requires BookOk(b)
    ensures var b' := SessionCreated(b, s, h, user, org, mfa, expires, storesToken, stores);
            BookOk(b') && Advances(b, b')
  {
    GeneratedKeeps(b, h, false, expires, user, storesToken);
  }

  lemma FinishedKeeps(b: Book, s: string, status: Status)
    requires BookOk(b) && s in b.sessions && b.sessions[s].status == Pending && status != Pending
    ensures BookOk(FinishedBook(b, s, status)) && Advances(b, FinishedBook(b, s, status))
  {
    var b' := FinishedBook(b, s, status);
    forall i, j | 0 <= i < j < |b'.log| && b'.log[i].Finished? && b'.log[j].Finished?
      ensures b'.log[i].session != b'.log[j].session
    {
      if j == |b.log| { assert b'.log[i] in b.log; }
    }
  }

  lemma CanceledKeeps(b: Book, s: string, user: string, stores: bool, revokes: bool)
    requires BookOk(b)
    ensures BookOk(CanceledBook(b, s, user, stores, revokes)) && Advances(b, CanceledBook(b, s, user, stores, revokes))
  {
    if stores && Cancelable(b, s, user) {
      var mid := FinishedBook(b, s, Canceled);
      FinishedKeeps(b, s, Canceled);
      RevokedKeeps(mid, b.sessions[s].token, revokes);
      AdvancesTrans(b, mid, RevokedBook(mid, b.sessions[s].token, revokes));
    }
  }

  // ---- the desk ----

  class Desk {
    var tokens: Tokens
    var sessions: Sessions
    ghost var log: Log

    ghost function B(): Book
      reads this
    {
      Book(tokens, sessions, log)
    }

    constructor ()
      ensures B() == NoBook
    {
      tokens, sessions, log := map[], map[], [];
    }

    /** An administrator mints a token. Token hashes are unique. */
    method GenerateToken(h: string, reusable: bool, expires: int, createdBy: string, stores: bool) returns (ok: bool)
      modifies this`tokens
      ensures B() == Generated(old(B()), h, reusable, expires, createdBy, stores) && ok == (stores && h !in old(tokens))
    {
      ok := stores && h !in tokens;
      if ok { tokens := tokens[h := Token(false, false, reusable, expires, createdBy)]; }
    }

    /** A signed-in user starts onboarding. */
    method CreateSession(s: string, h: string, user: string, org: string, mfa: bool, expires: int,
                         storesToken: bool, stores: bool) returns (ok: bool)
      modifies this`tokens, this`sessions
      ensures B() == SessionCreated(old(B()), s, h, user, org, mfa, expires, storesToken, stores)
      ensures ok == (storesToken && stores && h !in old(tokens) && s !in old(sessions))
    {
      ok := GenerateToken(h, false, expires, user, storesToken);
      if !ok { return; }
      ok := stores && s !in sessions;
      if ok { sessions := sessions[s := Session(h, user, org, mfa, Pending, expires)]; }
    }

    method RevokeToken(h: string, stores: bool)
      modifies this`tokens, this`log
      ensures B() == RevokedBook(old(B()), h, stores)
    {
      if stores && h in tokens { tokens, log := tokens[h := tokens[h].(revoked := true)], log + [Revoked(h)]; }
    }

    method CancelSession(s: string, user: string, stores: bool, revokes: bool) returns (ok: bool)
      modifies this
      ensures B() == CanceledBook(old(B()), s, user, stores, revokes) && ok == (stores && Cancelable(old(B()), s, user))
    {
      ok := stores && s in sessions && sessions[s].user == user && sessions[s].status == Pending;
      if !ok { return; }
      sessions, log := sessions[s := sessions[s].(status := Canceled)], log + [Finished(s, Canceled)];
      RevokeToken(sessions[s].token, revokes);
    }

    /** The check and the mark both doors share; only the agent door looks at the expiry. */
    method Redeem(h: string, now: int, checkExpiry: bool, answers: bool, marks: bool) returns (ok: bool)
      modifies this`tokens, this`log
      ensures ok <==> answers && Redeemable(old(tokens), h, now, checkExpiry)
      ensures B() == if ok then RedeemedBook(old(B()), h, marks) else old(B())
    {
      if !answers || h !in tokens { return false; }
      var t := tokens[h];
      if t.revoked { return false; }
      if checkExpiry && now > t.expires { return false; }
      if !t.reusable && t.used { return false; }
      var marked := !t.reusable && marks;
      if marked { tokens := tokens[h := t.(used := true)]; }
      log := log + [Redeemed(h, marked)];
      return true;
    }

    /** The open session of a token. */
    method LookupSession(h: string, now: int, answers: bool) returns (found: Option<string>)
      requires OwnTokens(tokens, sessions)
      ensures found == if answers then OpenSession(sessions, h, now) else None
    {
      if !answers { return None; }
      var hits := set s | s in sessions && Open(sessions[s], h, now);
      if hits == {} {
        assert forall s :: s in sessions && Open(sessions[s], h, now) ==> s in hits;
        return None;
      }
      var s :| s in hits;
      OneOpen(B(), s, OpenSession(sessions, h, now).value, h, now);
      return Some(s);
    }

    method MarkEnrolled(s: string, stores: bool)
      requires s in sessions
      modifies this`sessions, this`log
      ensures B() == if stores then FinishedBook(old(B()), s, Enrolled) else old(B())
    {
      if stores { sessions, log := sessions[s := sessions[s].(status := Enrolled)], log + [Finished(s, Enrolled)]; }
    }

    /** The network door's token check at time `now`: the token names its subject. Unlike the
        agent door it does not look at the token's expiry. */
    method ValidateEnrollmentToken(h: string, now: int, answers: bool, marks: bool) returns (subject: Option<string>)
      modifies this`tokens, this`log
      ensures subject.Some? <==> answers && Redeemable(old(tokens), h, now, false)
      ensures subject.Some? ==>
                subject.value == if old(tokens)[h].createdBy != "" then old(tokens)[h].createdBy else "enroll-" + h
      ensures B() == if subject.Some? then RedeemedBook(old(B()), h, marks) else old(B())
    {
      var ok := Redeem(h, now, false, answers, marks);
      if !ok { return None; }
      return Some(if tokens[h].createdBy != "" then tokens[h].createdBy else "enroll-" + h);
    }
  }
}
