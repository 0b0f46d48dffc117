/** What every statement keeps, whatever the interleaving: the facts the theorems start from. */
module Invariants {
  import opened Prelude
  import opened Passwords
  import opened Tables
  import opened Text
  import opened Sql

  ghost predicate SessionRowOk(cfg: Config, s: Store, row: Session) {
    && row.digest.preimage in s.minted
    && row.idleExpires == row.lastSeen + cfg.idle
    && row.expires == row.created + cfg.absolute
    && row.created <= row.lastSeen <= s.db.now
    && row.user in s.db.users
  }

  ghost predicate UniqueDigests(sessions: map<Id, Session>) {
    forall a, b :: a in sessions && b in sessions && sessions[a].digest == sessions[b].digest ==> a == b
  }

  ghost predicate SessionsOk(cfg: Config, s: Store) {
    && UniqueDigests(s.db.sessions)
    && forall sid :: sid in s.db.sessions ==> SessionRowOk(cfg, s, s.db.sessions[sid])
  }

  /** The partial unique index auth_users_email_live_key. */
  ghost predicate UniqueAddresses(users: map<Id, User>) {
    forall a, b :: (a in users && b in users && !users[a].deleted && !users[b].deleted &&
                    Lower(users[a].email) == Lower(users[b].email)) ==> a == b
  }

  predicate SaltKnown(s: Store, e: Encoded) {
    e.Argon2id? ==> e.salt in s.salts
  }

  ghost predicate UsersOk(s: Store) {
    && UniqueAddresses(s.db.users)
    && forall u :: u in s.db.users && s.db.users[u].hash.Some? ==> SaltKnown(s, s.db.users[u].hash.value)
  }

  ghost predicate TokensOk(s: Store) {
    forall d :: d in s.db.tokens ==> d.preimage in s.minted && s.db.tokens[d].user in s.db.users
  }

  ghost predicate VaultsOk(s: Store) {
    forall u :: u in s.db.vaults ==>
      && u in s.db.users
      && s.db.vaults[u].salt == Derived(Normalize(s.db.users[u].email))
      && s.db.vaults[u].version >= 1
  }

  ghost predicate PrincipalsOk(s: Store) {
    forall p :: p in s.principals ==>
      && p.user in s.db.users && s.db.users[p.user].email == p.email
      && p.session in s.db.sessions
      && s.db.sessions[p.session].user == p.user && s.db.sessions[p.session].created == p.authAt
  }

  ghost predicate CountersOk(s: Store) {
    forall k :: k in s.db.attempts ==> s.db.attempts[k].lastFail <= s.db.now && s.db.attempts[k].failures >= 1
  }

  ghost predicate Inv(cfg: Config, s: Store) {
    SessionsOk(cfg, s) && UsersOk(s) && TokensOk(s) && VaultsOk(s) && PrincipalsOk(s) && CountersOk(s)
  }

  ghost predicate GoodConfig(cfg: Config) {
    0 < cfg.idle <= cfg.absolute
  }

  /** Accounts stay, and keep their address; sessions stay, and keep owner, age and deadline. */
  ghost predicate Grows(s: Store, t: Store) {
    && s.db.now <= t.db.now && s.minted <= t.minted && s.salts <= t.salts && s.principals <= t.principals
    && (forall u :: u in s.db.users ==> u in t.db.users && t.db.users[u].email == s.db.users[u].email)
    && (forall sid :: sid in s.db.sessions ==>
          sid in t.db.sessions && SameIdentity(s.db.sessions[sid], t.db.sessions[sid]))
  }

  predicate SameIdentity(a: Session, b: Session) {
    a.user == b.user && a.created == b.created && a.expires == b.expires && a.lastSeen <= b.lastSeen
    && (a.revokedAt.Some? ==> b.revokedAt == a.revokedAt)
  }

  /** Everything a statement can do to one session row. */
  ghost predicate Moves(cfg: Config, now: int, st: Stmt, sid: Id, a: Session, b: Session) {
    || b == a
    || (Live(a, now) && st.Lookup? && a.digest == Sha256(st.token) && a.lastSeen < now - TOUCH_EVERY
        && b == Touch(cfg, now, a))
    || (Live(a, now) && st.Rotate? && st.sid == sid && b == Touch(cfg, now, a).(digest := Sha256(st.token)))
    || (Live(a, now) && st == RecordMFA(sid, a.user) && b == a.(mfaAt := Some(now)))
    || (a.revokedAt.None? && (st == Revoke(sid) || st == RevokeAll(a.user)) && b == a.(revokedAt := Some(now)))
  }

  lemma RowMoves(cfg: Config, db: DB, st: Stmt, sid: Id)
    requires sid in db.sessions
    ensures sid in SessionsAfter(cfg, db, st)
    ensures Moves(cfg, db.now, st, sid, db.sessions[sid], SessionsAfter(cfg, db, st)[sid])
  {
    match st
    case Issue(_, _, _) =>
    case Lookup(_) =>
    case Rotate(_, _) =>
    case RecordMFA(_, _) =>
    case Revoke(_) =>
    case RevokeAll(_) =>
    case _ =>
  }

  lemma RowIssued(cfg: Config, db: DB, st: Stmt, sid: Id)
    requires sid in SessionsAfter(cfg, db, st) && sid !in db.sessions
    ensures st.Issue? && st.sid == sid && CanIssue(db, sid, st.token, st.user)
    ensures SessionsAfter(cfg, db, st)[sid] ==
            Session(Sha256(st.token), st.user, db.now, db.now, db.now + cfg.idle, db.now + cfg.absolute, None, None)
  {
    match st
    case Issue(_, _, _) =>
    case Lookup(_) =>
    case Rotate(_, _) =>
    case RecordMFA(_, _) =>
    case Revoke(_) =>
    case RevokeAll(_) =>
    case _ =>
  }

  lemma AccountMoves(db: DB, st: Stmt, u: Id)
    requires u in db.users
    ensures u in UsersAfter(db, st)
    ensures UsersAfter(db, st)[u].email == db.users[u].email && UsersAfter(db, st)[u].deleted == db.users[u].deleted
  {
  }

  lemma NextGrows(cfg: Config, s: Store, ev: Event)
    requires SessionsOk(cfg, s)
    ensures Grows(s, Next(cfg, s, ev))
  {
    hide UsersAfter, SessionsAfter, TokensAfter, AttemptsAfter, VaultsAfter, Answer;
    if ev.Run? {
      forall u | u in s.db.users
        ensures u in UsersAfter(s.db, ev.stmt) && UsersAfter(s.db, ev.stmt)[u].email == s.db.users[u].email
      {
        AccountMoves(s.db, ev.stmt, u);
      }
      forall sid | sid in s.db.sessions
        ensures sid in SessionsAfter(cfg, s.db, ev.stmt)
        ensures SameIdentity(s.db.sessions[sid], SessionsAfter(cfg, s.db, ev.stmt)[sid])
      {
        RowMoves(cfg, s.db, ev.stmt, sid);
      }
    }
  }

  /** The unique constraint on token_sha256 survives every statement that writes the column. */
  lemma StatementKeepsDigestsUnique(cfg: Config, db: DB, st: Stmt)
    requires UniqueDigests(db.sessions)
    ensures UniqueDigests(SessionsAfter(cfg, db, st))
  {
    var after := SessionsAfter(cfg, db, st);
    forall a, b | a in after && b in after && after[a].digest == after[b].digest
      ensures a == b
    {
      if a in db.sessions { RowMoves(cfg, db, st, a); } else { RowIssued(cfg, db, st, a); }
      if b in db.sessions { RowMoves(cfg, db, st, b); } else { RowIssued(cfg, db, st, b); }
    }
  }

  lemma NextKeepsSessions(cfg: Config, s: Store, ev: Event)
    requires Inv(cfg, s) && Enabled(s, ev)
    ensures SessionsOk(cfg, Next(cfg, s, ev))
  {
    NextGrows(cfg, s, ev);
    if ev.Run? {
      var t := Next(cfg, s, ev);
      StatementKeepsDigestsUnique(cfg, s.db, ev.stmt);
      forall sid | sid in t.db.sessions
        ensures SessionRowOk(cfg, t, t.db.sessions[sid])
      {
        if sid in s.db.sessions { RowMoves(cfg, s.db, ev.stmt, sid); } else { RowIssued(cfg, s.db, ev.stmt, sid); }
      }
    }
  }

  /** The partial unique index on the lower-cased address survives every statement too. */
  lemma StatementKeepsAddressesUnique(db: DB, st: Stmt)
    requires UniqueAddresses(db.users)
    ensures UniqueAddresses(UsersAfter(db, st))
  {
  }

  lemma NextKeepsUsers(cfg: Config, s: Store, ev: Event)
    requires Inv(cfg, s) && Enabled(s, ev)
    ensures UsersOk(Next(cfg, s, ev))
  {
  }

  lemma NextKeepsTokens(cfg: Config, s: Store, ev: Event)
    requires Inv(cfg, s) && Enabled(s, ev)
    ensures TokensOk(Next(cfg, s, ev))
  {
    NextGrows(cfg, s, ev);
  }

  lemma NextKeepsVaults(cfg: Config, s: Store, ev: Event)
    requires Inv(cfg, s) && Enabled(s, ev)
    ensures VaultsOk(Next(cfg, s, ev))
  {
    hide Normalize, SessionsOk, UsersOk, TokensOk, CountersOk, Answer, SessionsAfter, TokensAfter, AttemptsAfter;
    NextGrows(cfg, s, ev);
  }

  lemma NewPrincipal(cfg: Config, db: DB, st: Stmt)
    requires Answer(cfg, db, st).RowPrincipal?
    ensures st.Lookup?
    ensures var p := Answer(cfg, db, st).principal;
            Resolves(db, st.token, p.session) && p == PrincipalOf(db, p.session)
  {
  }

  lemma NextKeepsPrincipals(cfg: Config, s: Store, ev: Event)
    requires Inv(cfg, s) && Enabled(s, ev)
    ensures PrincipalsOk(Next(cfg, s, ev))
  {
    NextGrows(cfg, s, ev);
    var t := Next(cfg, s, ev);
    forall p | p in t.principals && p !in s.principals
      ensures p.session in s.db.sessions && p.user in s.db.users && p == PrincipalOf(s.db, p.session)
    {
      NewPrincipal(cfg, s.db, ev.stmt);
    }
  }

  lemma NextKeepsCounters(cfg: Config, s: Store, ev: Event)
    requires Inv(cfg, s)
    ensures CountersOk(Next(cfg, s, ev))
  {
  }

  lemma NextKeepsInv(cfg: Config, s: Store, ev: Event)
    requires Inv(cfg, s) && Enabled(s, ev)
    ensures Inv(cfg, Next(cfg, s, ev))
  {
    NextKeepsSessions(cfg, s, ev);
    NextKeepsUsers(cfg, s, ev);
    NextKeepsTokens(cfg, s, ev);
    NextKeepsVaults(cfg, s, ev);
    NextKeepsPrincipals(cfg, s, ev);
    NextKeepsCounters(cfg, s, ev);
  }

  /** Every reachable state satisfies the invariant and extends the one it came from. */
  lemma {:induction false} RunKeepsInv(cfg: Config, s: Store, evs: seq<Event>)
    requires Inv(cfg, s) && ValidRun(cfg, s, evs)
    ensures Inv(cfg, After(cfg, s, evs)) && Grows(s, After(cfg, s, evs))
    decreases |evs|
  {
    hide Next, Enabled, SessionsOk, UsersOk, TokensOk, VaultsOk, PrincipalsOk, CountersOk;
    if evs != [] {
      NextGrows(cfg, s, evs[0]);
      NextKeepsInv(cfg, s, evs[0]);
      RunKeepsInv(cfg, Next(cfg, s, evs[0]), evs[1..]);
    }
  }

  // ---- what statements report ----

  function Changed<K, V(==)>(a: map<K, V>, b: map<K, V>): set<K> {
    (set k | k in a && (k !in b || b[k] != a[k])) + (set k | k in b && k !in a)
  }

  predicate CountsRows(st: Stmt) {
    st.Revoke? || st.RevokeAll? || st.ResetAttempts? || st.DeleteVault? || (st.UpdatePassword? && st.next != st.prior)
  }

  lemma NoneChanged<K, V>(a: map<K, V>)
    ensures Changed(a, a) == {}
  {
  }

  lemma OneChanged<K, V>(a: map<K, V>, k: K, v: V)
    requires k in a && a[k] != v
    ensures Changed(a, a[k := v]) == {k}
  {
  }

  lemma RowsGone<K, V>(a: map<K, V>, gone: set<K>)
    ensures Changed(a, a - gone) <= gone
    ensures forall k :: k in gone ==> (k in Changed(a, a - gone) <==> k in a)
  {
  }

  lemma RevokedRows(sessions: map<Id, Session>, open: set<Id>, now: int)
    requires forall s :: s in open ==> s in sessions && sessions[s].revokedAt.None?
    ensures Changed(sessions, RevokeEach(sessions, open, now)) == open
  {
  }

  lemma RevokedRow(cfg: Config, db: DB, sid: Id)
    ensures |Changed(db.sessions, SessionsAfter(cfg, db, Revoke(sid)))|
            == if sid in db.sessions && db.sessions[sid].revokedAt.None? then 1 else 0
  {
    hide Changed;
    NoneChanged(db.sessions);
    if sid in db.sessions && db.sessions[sid].revokedAt.None? {
      OneChanged(db.sessions, sid, db.sessions[sid].(revokedAt := Some(db.now)));
    }
  }

  lemma SwappedRow(db: DB, next: Encoded, user: Id, prior: Encoded)
    requires next != prior
    ensures |Changed(db.users, UsersAfter(db, UpdatePassword(next, user, prior)))|
            == if user in db.users && db.users[user].hash == Some(prior) then 1 else 0
  {
    hide Changed;
    NoneChanged(db.users);
    if user in db.users && db.users[user].hash == Some(prior) {
      OneChanged(db.users, user, db.users[user].(hash := Some(next)));
    }
  }

  lemma TwoGone<K, V>(a: map<K, V>, x: K, y: K)
    requires x != y
    ensures |Changed(a, a - {x, y})| == (if x in a then 1 else 0) + if y in a then 1 else 0
  {
    hide Changed;
    RowsGone(a, {x, y});
    var gone := Changed(a, a - {x, y});
    assert gone <= {x, y} && (x in gone <==> x in a) && (y in gone <==> y in a);
    assert gone == (if x in a then {x} else {}) + if y in a then {y} else {};
  }

  lemma ForgottenRows(attempts: map<(Scope, string), Counter>, email: string, ip: string)
    ensures |Changed(attempts, Forget(attempts, email, ip))| == Remembered(attempts, email, ip)
  {
    hide Changed;
    TwoGone(attempts, (ByUser, email), (ByIP, ip));
  }

  lemma DeletedRow(vaults: map<Id, Vault>, user: Id)
    ensures |Changed(vaults, vaults - {user})| == if user in vaults then 1 else 0
  {
    hide Changed;
    RowsGone(vaults, {user});
    assert Changed(vaults, vaults - {user}) == if user in vaults then {user} else {};
  }

  /** The number of rows a revocation, a swap or a deletion reports is the number it changed. */
  lemma ReportsRowsChanged(cfg: Config, db: DB, st: Stmt)
    requires CountsRows(st)
    ensures var t := Exec(cfg, db, st);
            Answer(cfg, db, st) == Affected(|Changed(db.sessions, t.sessions)| + |Changed(db.users, t.users)|
                                            + |Changed(db.attempts, t.attempts)| + |Changed(db.vaults, t.vaults)|)
  {
    hide Changed, OpenSessions, RevokeEach, Forget, Remembered;
    NoneChanged(db.sessions);
    NoneChanged(db.users);
    NoneChanged(db.attempts);
    NoneChanged(db.vaults);
    match st
    case Revoke(sid) => RevokedRow(cfg, db, sid);
    case RevokeAll(user) =>
      OpenOnes(db.sessions, user);
      RevokedRows(db.sessions, OpenSessions(db.sessions, user), db.now);
    case UpdatePassword(next, user, prior) => SwappedRow(db, next, user, prior);
    case ResetAttempts(email, ip) => ForgottenRows(db.attempts, email, ip);
    case DeleteVault(user) => DeletedRow(db.vaults, user);
  }

  lemma OpenOnes(sessions: map<Id, Session>, user: Id)
    ensures forall s :: s in OpenSessions(sessions, user) ==> s in sessions && sessions[s].revokedAt.None?
  {
  }

  /** A token that stands for another row already is a constraint violation, not a session that is gone:
      nothing changes, and the caller is told of a fault. */
  lemma TakenTokenIsAFault(cfg: Config, db: DB, token: string, sid: Id, other: Id, user: Id)
    requires other in db.sessions && db.sessions[other].digest == Sha256(token) && other != sid
    ensures Exec(cfg, db, Issue(sid, token, user)) == Exec(cfg, db, Rotate(token, sid)) == db
    ensures Answer(cfg, db, Issue(sid, token, user)).Fault?
    ensures Answer(cfg, db, Rotate(token, sid))
            == if sid in db.sessions && Live(db.sessions[sid], db.now) then Fault else NoRows
  {
    assert DigestTaken(db.sessions, Sha256(token), None) && DigestTaken(db.sessions, Sha256(token), Some(sid));
  }

  /** An address read back for mail is that of a live account, and every live account has one. */
  lemma MailGoesToTheOwner(cfg: Config, db: DB, user: Id, email: string)
    ensures Answer(cfg, db, EmailById(user)) == RowEmail(email) <==>
              user in db.users && db.users[user].email == email && !db.users[user].deleted
  {
  }

  /** The empty database satisfies it, so the theorems are about something. */
  lemma EmptyStoreOk(cfg: Config)
    ensures Inv(cfg, Store(DB(0, map[], map[], map[], map[], map[], map[]), {}, {}, {}))
  {
  }
}
