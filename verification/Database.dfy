/** The Postgres tables as mutable state, one method per SQL statement, each leaving behind and
    answering what `Sql` says. `minted`, `salts` and `principals` are history, not rows. */
module Database {
  import opened Prelude
  import opened Passwords
  import opened Tables
  import opened Text
  import opened Sql
  import opened Invariants
  import opened Programs

  /** Under the unique constraint, the set-based statement touches at most the one row found. */
  lemma LookupEffect(cfg: Config, db: DB, token: string)
    requires UniqueDigests(db.sessions)
    ensures forall s :: Finds(db, token, s) ==>
              SessionsAfter(cfg, db, Stmt.Lookup(token)) ==
                if db.sessions[s].lastSeen < db.now - TOUCH_EVERY
                then db.sessions[s := Touch(cfg, db.now, db.sessions[s])] else db.sessions
    ensures forall s :: Finds(db, token, s) ==>
              Answer(cfg, db, Stmt.Lookup(token)) ==
                if Resolves(db, token, s) then RowPrincipal(PrincipalOf(db, s)) else NoRows
    ensures (forall s :: !Finds(db, token, s)) ==>
              SessionsAfter(cfg, db, Stmt.Lookup(token)) == db.sessions && Answer(cfg, db, Stmt.Lookup(token)) == NoRows
  {
  }

  lemma IssueEffect(cfg: Config, db: DB, sid: Id, token: string, user: Id)
    ensures var st := Stmt.Issue(sid, token, user);
            var refused := sid in db.sessions || user !in db.users
                           || exists s :: s in db.sessions && db.sessions[s].digest == Sha256(token);
            && SessionsAfter(cfg, db, st) ==
                 (if refused then db.sessions
                  else db.sessions[sid := Session(Sha256(token), user, db.now, db.now, db.now + cfg.idle,
                                                  db.now + cfg.absolute, None, None)])
            && Answer(cfg, db, st) == (if refused then Fault else RowId(sid))
  {
    assert DigestTaken(db.sessions, Sha256(token), None) <==>
           exists s :: s in db.sessions && db.sessions[s].digest == Sha256(token);
  }

  lemma RotateEffect(cfg: Config, db: DB, token: string, sid: Id)
    ensures var st := Stmt.Rotate(token, sid); var live := sid in db.sessions && Live(db.sessions[sid], db.now);
            var taken := exists s :: s in db.sessions && db.sessions[s].digest == Sha256(token) && s != sid;
            && SessionsAfter(cfg, db, st) ==
                 (if live && !taken
                  then db.sessions[sid := Touch(cfg, db.now, db.sessions[sid]).(digest := Sha256(token))]
                  else db.sessions)
            && Answer(cfg, db, st) == (if !live then NoRows else if taken then Fault else RowId(db.sessions[sid].user))
  {
    assert DigestTaken(db.sessions, Sha256(token), Some(sid)) <==>
           exists s :: s in db.sessions && db.sessions[s].digest == Sha256(token) && s != sid;
  }

  lemma RevokeAllEffect(cfg: Config, s: Store, user: Id)
    ensures Next(cfg, s, Run(Stmt.RevokeAll(user))) ==
            s.(db := s.db.(sessions := RevokeEach(s.db.sessions, OpenSessions(s.db.sessions, user), s.db.now)))
    ensures Answer(cfg, s.db, Stmt.RevokeAll(user)) == Affected(|OpenSessions(s.db.sessions, user)|)
  {
    hide Next, Exec, RevokeEach;
    WritesOneTable(cfg, s, Stmt.RevokeAll(user));
  }

  lemma RevokedStayUnique(sessions: map<Id, Session>, open: set<Id>, now: int)
    requires UniqueDigests(sessions)
    ensures UniqueDigests(RevokeEach(sessions, open, now))
  {
  }

  predicate OnSessions(st: Stmt) {
    st.Issue? || st.Lookup? || st.Rotate? || st.RecordMFA? || st.Revoke? || st.RevokeAll?
  }

  predicate OnUsers(st: Stmt) {
    st.UpdatePassword? || st.InsertUser? || st.InsertInvitee? || st.SetPassword? || st.MarkVerified?
  }

  /** A statement writes the rows of one table, and hands out at most one principal. */
  lemma WritesOneTable(cfg: Config, s: Store, st: Stmt)
    ensures var reply := Answer(cfg, s.db, st); var t := Next(cfg, s, Run(st));
            && (OnSessions(st) ==>
                  t == Store(s.db.(sessions := SessionsAfter(cfg, s.db, st)), s.minted + MintedBy(st), s.salts,
                             s.principals + if reply.RowPrincipal? then {reply.principal} else {}))
            && (OnUsers(st) ==>
                  t == Store(s.db.(users := UsersAfter(s.db, st)), s.minted, s.salts + SaltsOf(st), s.principals))
  {
    var reply := Answer(cfg, s.db, st);
    assert s.minted + {} == s.minted && s.salts + {} == s.salts;
    assert OnUsers(st) ==> s.principals + {} == s.principals;
  }

  predicate Reads(st: Stmt) {
    st.LoginSelect? || st.HashById? || st.Attempts? || st.UserIdByEmail? || st.EmailById? || st.ParamsByEmail?
      || st.VaultByUser?
  }

  lemma SelectsChangeNothing(cfg: Config, s: Store, st: Stmt)
    requires Reads(st)
    ensures Next(cfg, s, Run(st)) == s
  {
  }

  class Database {
    var now: int
    var users: map<Id, User>
    var roles: map<Id, seq<string>>
    var sessions: map<Id, Session>
    var tokens: map<Digest, Token>
    var attempts: map<(Scope, string), Counter>
    var vaults: map<Id, Vault>
    ghost var minted: set<string>
    ghost var salts: set<nat>
    ghost var principals: set<Principal>

    function Rows(): DB
      reads this
    {
      DB(now, users, roles, sessions, tokens, attempts, vaults)
    }

    ghost function State(): Store
      reads this
    {
      Store(Rows(), minted, salts, principals)
    }

    /** The schema's unique constraints. */
    ghost predicate Valid()
      reads this
    {
      UniqueDigests(sessions) && UniqueAddresses(users)
    }

    constructor ()
      ensures Valid()
      ensures State() == Store(DB(0, map[], map[], map[], map[], map[], map[]), {}, {}, {})
    {
      now, users, roles, sessions, tokens, attempts, vaults := 0, map[], map[], map[], map[], map[], map[];
      minted, salts, principals := {}, {}, {};
    }

    // ---- auth_sessions ----

    method Issue(cfg: Config, sid: Id, token: string, user: Id) returns (r: Reply)
      requires Valid()
      modifies `sessions, `minted
      ensures Valid()
      ensures State() == Next(cfg, old(State()), Run(Stmt.Issue(sid, token, user)))
      ensures r == Answer(cfg, old(Rows()), Stmt.Issue(sid, token, user))
    {
      hide Next, Exec, SessionsAfter, Answer, UniqueAddresses, UniqueDigests;
      WritesOneTable(cfg, State(), Stmt.Issue(sid, token, user));
      StatementKeepsDigestsUnique(cfg, Rows(), Stmt.Issue(sid, token, user));
      IssueEffect(cfg, Rows(), sid, token, user);
      var taken := exists s | s in sessions :: sessions[s].digest == Sha256(token);
      minted := minted + {token};
      if sid in sessions || user !in users || taken {
        return Fault;
      }
      sessions := sessions[sid := Session(Sha256(token), user, now, now, now + cfg.idle, now + cfg.absolute,
                                          None, None)];
      r := RowId(sid);
    }

    method Lookup(cfg: Config, token: string) returns (r: Reply)
      requires Valid()
      modifies `sessions, `principals
      ensures Valid()
      ensures State() == Next(cfg, old(State()), Run(Stmt.Lookup(token)))
      ensures r == Answer(cfg, old(Rows()), Stmt.Lookup(token))
    {
      hide Next, Exec, SessionsAfter, Answer, UniqueAddresses;
      WritesOneTable(cfg, State(), Stmt.Lookup(token));
      StatementKeepsDigestsUnique(cfg, Rows(), Stmt.Lookup(token));
      LookupEffect(cfg, Rows(), token);
      r := NoRows;
      if found :| found in sessions && sessions[found].digest == Sha256(token) && Live(sessions[found], now) {
        var row := sessions[found];
        assert Finds(Rows(), token, found);
        if row.user in users && !users[row.user].deleted {
          assert Resolves(Rows(), token, found);
          r := RowPrincipal(PrincipalOf(Rows(), found));
          principals := principals + {r.principal};
        }
        if row.lastSeen < now - TOUCH_EVERY {
          sessions := sessions[found := Touch(cfg, now, row)];
        }
      }
    }

    method Rotate(cfg: Config, token: string, sid: Id) returns (r: Reply)
      requires Valid()
      modifies `sessions, `minted
      ensures Valid()
      ensures State() == Next(cfg, old(State()), Run(Stmt.Rotate(token, sid)))
      ensures r == Answer(cfg, old(Rows()), Stmt.Rotate(token, sid))
    {
      hide Next, Exec, SessionsAfter, Answer, Touch, UniqueAddresses, UniqueDigests;
      WritesOneTable(cfg, State(), Stmt.Rotate(token, sid));
      StatementKeepsDigestsUnique(cfg, Rows(), Stmt.Rotate(token, sid));
      RotateEffect(cfg, Rows(), token, sid);
      var taken := exists s | s in sessions :: sessions[s].digest == Sha256(token) && s != sid;
      minted := minted + {token};
      if sid !in sessions || !Live(sessions[sid], now) {
        return NoRows;
      }
      if taken {
        return Fault;
      }
      r := RowId(sessions[sid].user);
      sessions := sessions[sid := Touch(cfg, now, sessions[sid]).(digest := Sha256(token))];
    }

    method RecordMFA(cfg: Config, sid: Id, user: Id) returns (r: Reply)
      requires Valid()
      modifies `sessions
      ensures Valid()
      ensures State() == Next(cfg, old(State()), Run(Stmt.RecordMFA(sid, user)))
      ensures r == Answer(cfg, old(Rows()), Stmt.RecordMFA(sid, user))
    {
      hide Next, Exec, UniqueAddresses;
      WritesOneTable(cfg, State(), Stmt.RecordMFA(sid, user));
      StatementKeepsDigestsUnique(cfg, Rows(), Stmt.RecordMFA(sid, user));
      if sid !in sessions || sessions[sid].user != user || !Live(sessions[sid], now) {
        return NoRows;
      }
      sessions := sessions[sid := sessions[sid].(mfaAt := Some(now))];
      r := RowId(sid);
    }

    method Revoke(cfg: Config, sid: Id) returns (r: Reply)
      requires Valid()
      modifies `sessions
      ensures Valid()
      ensures State() == Next(cfg, old(State()), Run(Stmt.Revoke(sid)))
      ensures r == Answer(cfg, old(Rows()), Stmt.Revoke(sid))
    {
      hide Next, Exec, UniqueAddresses;
      WritesOneTable(cfg, State(), Stmt.Revoke(sid));
      StatementKeepsDigestsUnique(cfg, Rows(), Stmt.Revoke(sid));
      r := Affected(0);
      if sid in sessions && sessions[sid].revokedAt.None? {
        sessions := sessions[sid := sessions[sid].(revokedAt := Some(now))];
        r := Affected(1);
      }
    }

    method RevokeAll(cfg: Config, user: Id) returns (r: Reply)
      requires Valid()
      modifies `sessions
      ensures Valid()
      ensures State() == Next(cfg, old(State()), Run(Stmt.RevokeAll(user)))
      ensures r == Answer(cfg, old(Rows()), Stmt.RevokeAll(user))
    {
      hide Next, Exec, Answer, SessionsAfter, UniqueAddresses, UniqueDigests;
      RevokedStayUnique(sessions, OpenSessions(sessions, user), now);
      RevokeAllEffect(cfg, State(), user);
      ghost var before := sessions;
      var todo := set s | s in sessions && sessions[s].user == user && sessions[s].revokedAt.None?;
      ghost var open := todo;
      var count := 0;
      while todo != {}
        invariant todo <= open && count + |todo| == |open| && sessions.Keys == before.Keys
        invariant forall s :: s in before ==>
                    sessions[s] == if s in open - todo then before[s].(revokedAt := Some(now)) else before[s]
      {
        var s :| s in todo;
        sessions := sessions[s := sessions[s].(revokedAt := Some(now))];
        todo := todo - {s};
        count := count + 1;
      }
      assert open == OpenSessions(before, user) && sessions == RevokeEach(before, open, now);
      r := Affected(count);
    }

    // ---- auth_users ----

    method SelectByAddress(email: string) returns (found: Option<Id>)
      requires Valid()
      ensures found.Some? <==> AddressTaken(users, email)
      ensures found.Some? ==> found.value in users && LiveAddress(users[found.value], email)
      ensures found.Some? ==> forall u :: u in users && LiveAddress(users[u], email) ==> u == found.value
    {
      found := None;
      if u :| u in users && LiveAddress(users[u], email) {
        found := Some(u);
      }
    }

    method UpdatePassword(cfg: Config, next: Encoded, user: Id, prior: Encoded) returns (r: Reply)
      requires Valid()
      modifies `users, `salts
      ensures Valid()
      ensures State() == Next(cfg, old(State()), Run(Stmt.UpdatePassword(next, user, prior)))
      ensures r == Answer(cfg, old(Rows()), Stmt.UpdatePassword(next, user, prior))
    {
      hide Next, Exec, UniqueDigests;
      WritesOneTable(cfg, State(), Stmt.UpdatePassword(next, user, prior));
      StatementKeepsAddressesUnique(Rows(), Stmt.UpdatePassword(next, user, prior));
      salts := salts + SaltsOf(Stmt.UpdatePassword(next, user, prior));
      r := Affected(0);
      if user in users && users[user].hash == Some(prior) {
        users := users[user := users[user].(hash := Some(next))];
        r := Affected(1);
      }
    }

    method InsertUser(cfg: Config, user: Id, email: string, hash: Encoded) returns (r: Reply)
      requires Valid()
      modifies `users, `salts
      ensures Valid()
      ensures State() == Next(cfg, old(State()), Run(Stmt.InsertUser(user, email, hash)))
      ensures r == Answer(cfg, old(Rows()), Stmt.InsertUser(user, email, hash))
    {
      hide Next, Exec, Lower, UniqueDigests;
      WritesOneTable(cfg, State(), Stmt.InsertUser(user, email, hash));
      StatementKeepsAddressesUnique(Rows(), Stmt.InsertUser(user, email, hash));
      var taken := SelectByAddress(Lower(email));
      salts := salts + SaltsOf(Stmt.InsertUser(user, email, hash));
      if taken.Some? {
        return NoRows;   // on conflict do nothing
      }
      if user in users {
        return Fault;
      }
      users := users[user := User(email, Some(hash), false, false)];
      r := RowId(user);
    }

    method InsertInvitee(cfg: Config, user: Id, email: string) returns (r: Reply)
      requires Valid()
      modifies `users
      ensures Valid()
      ensures State() == Next(cfg, old(State()), Run(Stmt.InsertInvitee(user, email)))
      ensures r == Answer(cfg, old(Rows()), Stmt.InsertInvitee(user, email))
    {
      hide Next, Exec, Lower, UniqueDigests;
      WritesOneTable(cfg, State(), Stmt.InsertInvitee(user, email));
      StatementKeepsAddressesUnique(Rows(), Stmt.InsertInvitee(user, email));
      var taken := SelectByAddress(Lower(email));
      if taken.Some? {
        return NoRows;
      }
      if user in users {
        return Fault;
      }
      users := users[user := User(email, None, false, false)];
      r := RowId(user);
    }

    method SetPassword(cfg: Config, hash: Encoded, user: Id) returns (r: Reply)
      requires Valid()
      modifies `users, `salts
      ensures Valid()
      ensures State() == Next(cfg, old(State()), Run(Stmt.SetPassword(hash, user)))
      ensures r == Answer(cfg, old(Rows()), Stmt.SetPassword(hash, user))
    {
      hide Next, Exec, UniqueDigests;
      WritesOneTable(cfg, State(), Stmt.SetPassword(hash, user));
      StatementKeepsAddressesUnique(Rows(), Stmt.SetPassword(hash, user));
      salts := salts + SaltsOf(Stmt.SetPassword(hash, user));
      r := Affected(0);
      if user in users {
        users := users[user := users[user].(hash := Some(hash))];
        r := Affected(1);
      }
    }

    method MarkVerified(cfg: Config, user: Id) returns (r: Reply)
      requires Valid()
      modifies `users
      ensures Valid()
      ensures State() == Next(cfg, old(State()), Run(Stmt.MarkVerified(user)))
      ensures r == Answer(cfg, old(Rows()), Stmt.MarkVerified(user))
    {
      hide Next, Exec, UniqueDigests;
      WritesOneTable(cfg, State(), Stmt.MarkVerified(user));
      StatementKeepsAddressesUnique(Rows(), Stmt.MarkVerified(user));
      r := Affected(0);
      if user in users {
        users := users[user := users[user].(verified := true)];
        r := Affected(1);
      }
    }

    // ---- auth_tokens ----

    method InsertToken(cfg: Config, token: string, user: Id, purpose: Purpose, ttl: int) returns (r: Reply)
      requires Valid()
      modifies `tokens, `minted
      ensures Valid()
      ensures State() == Next(cfg, old(State()), Run(Stmt.InsertToken(token, user, purpose, ttl)))
      ensures r == Answer(cfg, old(Rows()), Stmt.InsertToken(token, user, purpose, ttl))
    {
      hide UniqueDigests, UniqueAddresses;
      minted := minted + {token};
      if user !in users {
        return Fault;
      }
      tokens := tokens[Sha256(token) := Token(user, purpose, now + ttl, None)];
      r := Affected(1);
    }

    method ConsumeToken(cfg: Config, token: string, purpose: Purpose) returns (r: Reply)
      requires Valid()
      modifies `tokens
      ensures Valid()
      ensures State() == Next(cfg, old(State()), Run(Stmt.ConsumeToken(token, purpose)))
      ensures r == Answer(cfg, old(Rows()), Stmt.ConsumeToken(token, purpose))
    {
      var d := Sha256(token);
      if d !in tokens || tokens[d].purpose != purpose || tokens[d].consumed.Some? || tokens[d].expires <= now {
        return NoRows;
      }
      tokens := tokens[d := tokens[d].(consumed := Some(now))];
      r := RowId(tokens[d].user);
    }

    // ---- auth_login_attempts ----

    method Bump(scope: Scope, key: string)
      modifies `attempts
      ensures attempts == Sql.Bump(old(attempts), (scope, key), now)
    {
      var failures := 1;
      if (scope, key) in attempts {
        failures := attempts[(scope, key)].failures + 1;
      }
      attempts := attempts[(scope, key) := Counter(failures, now)];
    }

    method Record(cfg: Config, st: Stmt) returns (r: Reply)
      requires Valid() && (st.RecordBoth? || st.RecordUser?)
      modifies `attempts
      ensures Valid()
      ensures State() == Next(cfg, old(State()), Run(st)) && r == Answer(cfg, old(Rows()), st)
    {
      Bump(ByUser, st.email);
      r := Affected(1);
      if st.RecordBoth? {
        Bump(ByIP, st.ip);
        r := Affected(2);
      }
    }

    method ResetAttempts(cfg: Config, email: string, ip: string) returns (r: Reply)
      requires Valid()
      modifies `attempts
      ensures Valid()
      ensures State() == Next(cfg, old(State()), Run(Stmt.ResetAttempts(email, ip)))
      ensures r == Answer(cfg, old(Rows()), Stmt.ResetAttempts(email, ip))
    {
      ghost var before := attempts;
      var count := 0;
      if (ByUser, email) in attempts {
        attempts := attempts - {(ByUser, email)};
        count := 1;
      }
      if (ByIP, ip) in attempts {
        attempts := attempts - {(ByIP, ip)};
        count := count + 1;
      }
      assert attempts == Forget(before, email, ip);
      r := Affected(count);
    }

    // ---- auth_e2ee_vaults ----

    method PutVault(cfg: Config, st: Stmt) returns (r: Reply)
      requires Valid() && st.PutVault?
      modifies `vaults
      ensures Valid()
      ensures State() == Next(cfg, old(State()), Run(st)) && r == Answer(cfg, old(Rows()), st)
    {
      if st.user !in users || users[st.user].deleted {
        return NoRows;
      }
      var wrappedFor := Some(HashDigest(users[st.user].hash));
      if st.user !in vaults {
        vaults := vaults[st.user := Vault(st.kdf, st.salt, st.wrapped, st.recovery, wrappedFor, 1)];
        return RowVersion(1);
      }
      var row := vaults[st.user];
      if row.version != st.version {
        return NoRows;
      }
      vaults := vaults[st.user := row.(kdf := st.kdf, wrapped := st.wrapped, recovery := st.recovery,
                                       wrappedFor := wrappedFor, version := row.version + 1)];
      r := RowVersion(row.version + 1);
    }

    method DeleteVault(cfg: Config, user: Id) returns (r: Reply)
      requires Valid()
      modifies `vaults
      ensures Valid()
      ensures State() == Next(cfg, old(State()), Run(Stmt.DeleteVault(user)))
      ensures r == Answer(cfg, old(Rows()), Stmt.DeleteVault(user))
    {
      r := Affected(if user in vaults then 1 else 0);
      vaults := vaults - {user};
    }

    // ---- reads ----

    /** The selects: they answer and change nothing. */
    method Select(cfg: Config, st: Stmt) returns (r: Reply)
      requires Valid() && Reads(st)
      ensures State() == Next(cfg, State(), Run(st)) && r == Answer(cfg, Rows(), st)
    {
      SelectsChangeNothing(cfg, State(), st);
      r := NoRows;
      match st
      case LoginSelect(email) =>
        var u := SelectByAddress(email);
        if u.Some? { r := RowAccount(u.value, users[u.value].hash, users[u.value].verified); }
      case HashById(user) =>
        if user in users && !users[user].deleted { r := RowHash(users[user].hash, users[user].email); }
      case Attempts(email, ip) => r := RowCounters(CounterRows(Rows(), email, ip));
      case UserIdByEmail(email) =>
        var u := SelectByAddress(email);
        if u.Some? { r := RowId(u.value); }
      case EmailById(user) =>
        if user in users && !users[user].deleted { r := RowEmail(users[user].email); }
      case ParamsByEmail(email) =>
        var u := SelectByAddress(email);
        if u.Some? && u.value in vaults {
          assert StoredParams(Rows(), email, u.value);
          r := RowParams(vaults[u.value].kdf, vaults[u.value].salt);
        }
      case VaultByUser(user) =>
        if user in vaults && user in users {
          r := RowVault(vaults[user], vaults[user].wrappedFor != Some(HashDigest(users[user].hash)));
        }
    }

    // ---- one round trip, and what others do in the meantime ----

    method Execute(cfg: Config, st: Stmt) returns (r: Reply)
      requires Valid()
      modifies this
      ensures Valid()
      ensures State() == Next(cfg, old(State()), Run(st)) && r == Answer(cfg, old(Rows()), st)
    {
      match st
      case Issue(sid, token, user) => r := Issue(cfg, sid, token, user);
      case Lookup(token) => r := Lookup(cfg, token);
      case Rotate(token, sid) => r := Rotate(cfg, token, sid);
      case RecordMFA(sid, user) => r := RecordMFA(cfg, sid, user);
      case Revoke(sid) => r := Revoke(cfg, sid);
      case RevokeAll(user) => r := RevokeAll(cfg, user);
      case UpdatePassword(next, user, prior) => r := UpdatePassword(cfg, next, user, prior);
      case RecordBoth(_, _) => r := Record(cfg, st);
      case RecordUser(_) => r := Record(cfg, st);
      case ResetAttempts(email, ip) => r := ResetAttempts(cfg, email, ip);
      case InsertUser(user, email, hash) => r := InsertUser(cfg, user, email, hash);
      case InsertInvitee(user, email) => r := InsertInvitee(cfg, user, email);
      case InsertToken(token, user, purpose, ttl) => r := InsertToken(cfg, token, user, purpose, ttl);
      case ConsumeToken(token, purpose) => r := ConsumeToken(cfg, token, purpose);
      case SetPassword(hash, user) => r := SetPassword(cfg, hash, user);
      case MarkVerified(user) => r := MarkVerified(cfg, user);
      case PutVault(_, _, _, _, _, _) => r := PutVault(cfg, st);
      case DeleteVault(user) => r := DeleteVault(cfg, user);
      case _ => r := Select(cfg, st);
    }

    method Interfere(cfg: Config, env: seq<Event>)
      requires Valid()
      modifies this
      ensures Valid() && State() == After(cfg, old(State()), env)
    {
      ghost var start := State();
      for i := 0 to |env|
        invariant Valid() && State() == After(cfg, start, env[..i])
      {
        match env[i] {
          case Tick(elapsed) => now := now + elapsed;
          case SoftDelete(user) => if user in users { users := users[user := users[user].(deleted := true)]; }
          case SetRoles(user, rs) => if user in users { roles := roles[user := rs]; }
          case Run(st) => var _ := Execute(cfg, st);
        }
        assert env[..i + 1] == env[..i] + [env[i]];
        AfterConcat(cfg, start, env[..i], [env[i]]);
      }
      assert env[..|env|] == env;
    }

    /** One round trip of a call standing at `p`: the other callers run first, then the statement,
        unless the driver fails. The contract is one unfolding of `Drive`. */
    method Query(cfg: Config, ghost p: Proc, st: Stmt, oracle: nat -> Choice, k: nat) returns (r: Reply)
      requires Valid() && !p.Done? && Request(cfg, p, oracle(k)) == Some(st)
      modifies this
      ensures Valid()
      ensures Drive(cfg, old(State()), p, oracle, k) == Drive(cfg, State(), Resume(cfg, p, r, oracle(k)), oracle, k + 1)
    {
      DriveOnce(cfg, State(), p, oracle, k);
      Interfere(cfg, oracle(k).env);
      if oracle(k).fault {
        return Fault;
      }
      r := Execute(cfg, st);
    }

    /** The hashing bound turned the call away before its statement. */
    method Refused(cfg: Config, ghost p: Proc, oracle: nat -> Choice, k: nat)
      requires Valid() && !p.Done? && Request(cfg, p, oracle(k)) == None
      modifies this
      ensures Valid()
      ensures Drive(cfg, old(State()), p, oracle, k)
              == Drive(cfg, State(), Resume(cfg, p, NoRows, oracle(k)), oracle, k + 1)
    {
      DriveOnce(cfg, State(), p, oracle, k);
      Interfere(cfg, oracle(k).env);
    }

    /** listSQL: the user's live sessions, most recently seen first. */
    method ListLive(user: Id) returns (ids: seq<Id>)
      ensures forall s :: s in ids <==> s in sessions && sessions[s].user == user && Live(sessions[s], now)
      ensures ByRecency(sessions, ids)
    {
      ids := [];
      var todo := set s | s in sessions && sessions[s].user == user && Live(sessions[s], now);
      ghost var all := todo;
      while todo != {}
        invariant todo <= all && forall s :: s in all <==> s in todo || s in ids
        invariant forall s :: s in todo ==> s !in ids
        invariant ByRecency(sessions, ids)
      {
        var s :| s in todo;
        var at := 0;
        while at < |ids| && sessions[ids[at]].lastSeen >= sessions[s].lastSeen
          invariant at <= |ids|
          invariant forall i :: 0 <= i < at ==> sessions[ids[i]].lastSeen >= sessions[s].lastSeen
        {
          at := at + 1;
        }
        InsertedByRecency(sessions, ids, at, s);
        ids := ids[..at] + [s] + ids[at..];
        todo := todo - {s};
      }
    }
  }

  ghost predicate ByRecency(sessions: map<Id, Session>, ids: seq<Id>) {
    && (forall i :: 0 <= i < |ids| ==> ids[i] in sessions)
    && forall i, j :: 0 <= i < j < |ids| ==> ids[i] != ids[j] && sessions[ids[i]].lastSeen >= sessions[ids[j]].lastSeen
  }

  lemma InsertedByRecency(sessions: map<Id, Session>, ids: seq<Id>, at: nat, s: Id)
    requires ByRecency(sessions, ids) && at <= |ids| && s in sessions && s !in ids
    requires forall i :: 0 <= i < at ==> sessions[ids[i]].lastSeen >= sessions[s].lastSeen
    requires at < |ids| ==> sessions[ids[at]].lastSeen < sessions[s].lastSeen
    ensures ByRecency(sessions, ids[..at] + [s] + ids[at..])
    ensures forall x :: x in ids[..at] + [s] + ids[at..] <==> x == s || x in ids
  {
    assert ids == ids[..at] + ids[at..];
    assert forall i :: at <= i < |ids| ==> sessions[ids[i]].lastSeen < sessions[s].lastSeen;
  }
}
