/** The SQL statements of session/sql.go, authn/sql.go and e2ee/sql.go, each one atomic step over
    the tables: what it leaves behind (`Exec`) and what it answers (`Answer`). */
module Sql {
  import opened Prelude
  import opened Passwords
  import opened Tables
  import opened Text
  import Sorting

  datatype Config = Config(idle: int, absolute: int, cost: Cost, allowUnverified: bool,
                           shape: string -> bool, kdfDefault: Kdf, kdfFloor: Kdf, maxBlob: nat,
                           allowNoRecovery: bool)

  datatype Stmt =
    // session/sql.go
    | Issue(sid: Id, token: string, user: Id)
    | Lookup(token: string)
    | Rotate(token: string, sid: Id)
    | RecordMFA(sid: Id, user: Id)
    | Revoke(sid: Id)
    | RevokeAll(user: Id)
    // authn/sql.go
    | LoginSelect(email: string)
    | HashById(user: Id)
    | UpdatePassword(next: Encoded, user: Id, prior: Encoded)
    | Attempts(email: string, ip: string)
    | RecordBoth(email: string, ip: string)
    | RecordUser(email: string)
    | ResetAttempts(email: string, ip: string)
    | InsertUser(user: Id, email: string, hash: Encoded)
    | InsertInvitee(user: Id, email: string)
    | UserIdByEmail(email: string)
    | EmailById(user: Id)
    | InsertToken(token: string, user: Id, purpose: Purpose, ttl: int)
    | ConsumeToken(token: string, purpose: Purpose)
    | SetPassword(hash: Encoded, user: Id)
    | MarkVerified(user: Id)
    // e2ee/sql.go
    | ParamsByEmail(email: string)
    | VaultByUser(user: Id)
    | PutVault(user: Id, salt: Salt, kdf: Kdf, wrapped: seq<int>, recovery: seq<int>, version: int)
    | DeleteVault(user: Id)

  // ---- auth_sessions ----

  ghost predicate DigestTaken(sessions: map<Id, Session>, d: Digest, except: Option<Id>) {
    exists s :: s in sessions && sessions[s].digest == d && except != Some(s)
  }

  /** The row the lookup's `live` query selects. */
  ghost predicate Finds(db: DB, token: string, sid: Id) {
    sid in db.sessions && db.sessions[sid].digest == Sha256(token) && Live(db.sessions[sid], db.now)
  }

  /** The same row once joined to its user: what a caller presenting `token` becomes. */
  ghost predicate Resolves(db: DB, token: string, sid: Id) {
    Finds(db, token, sid) && db.sessions[sid].user in db.users && !db.users[db.sessions[sid].user].deleted
  }

  /** What Sessions.Lookup makes of the row: the roles sorted, whatever order they were aggregated in. */
  function PrincipalOf(db: DB, sid: Id): Principal
    requires sid in db.sessions && db.sessions[sid].user in db.users
  {
    var row := db.sessions[sid];
    var u := db.users[row.user];
    Principal(row.user, sid, u.email, u.verified, row.created, row.mfaAt, Sorting.Sorted(RolesOf(db, row.user)))
  }

  function Touch(cfg: Config, now: int, row: Session): Session {
    row.(lastSeen := now, idleExpires := now + cfg.idle)
  }

  ghost predicate CanIssue(db: DB, sid: Id, token: string, user: Id) {
    sid !in db.sessions && user in db.users && !DigestTaken(db.sessions, Sha256(token), None)
  }

  ghost predicate CanRotate(db: DB, token: string, sid: Id) {
    sid in db.sessions && Live(db.sessions[sid], db.now) && !DigestTaken(db.sessions, Sha256(token), Some(sid))
  }

  predicate CanRecordMFA(db: DB, sid: Id, user: Id) {
    sid in db.sessions && db.sessions[sid].user == user && Live(db.sessions[sid], db.now)
  }

  function OpenSessions(sessions: map<Id, Session>, user: Id): set<Id> {
    set s | s in sessions && sessions[s].user == user && sessions[s].revokedAt.None?
  }

  function RevokeEach(sessions: map<Id, Session>, open: set<Id>, now: int): map<Id, Session> {
    map s | s in sessions :: if s in open then sessions[s].(revokedAt := Some(now)) else sessions[s]
  }

  ghost function SessionsAfter(cfg: Config, db: DB, st: Stmt): map<Id, Session> {
    match st
    case Issue(sid, token, user) =>
      if CanIssue(db, sid, token, user)
      then db.sessions[sid := Session(Sha256(token), user, db.now, db.now, db.now + cfg.idle,
                                      db.now + cfg.absolute, None, None)]
      else db.sessions
    case Lookup(token) =>
      map s | s in db.sessions ::
        if Finds(db, token, s) && db.sessions[s].lastSeen < db.now - TOUCH_EVERY
        then Touch(cfg, db.now, db.sessions[s]) else db.sessions[s]
    case Rotate(token, sid) =>
      if CanRotate(db, token, sid)
      then db.sessions[sid := Touch(cfg, db.now, db.sessions[sid]).(digest := Sha256(token))]
      else db.sessions
    case RecordMFA(sid, user) =>
      if CanRecordMFA(db, sid, user)
      then db.sessions[sid := db.sessions[sid].(mfaAt := Some(db.now))] else db.sessions
    case Revoke(sid) =>
      if sid in db.sessions && db.sessions[sid].revokedAt.None?
      then db.sessions[sid := db.sessions[sid].(revokedAt := Some(db.now))] else db.sessions
    case RevokeAll(user) =>
      RevokeEach(db.sessions, OpenSessions(db.sessions, user), db.now)
    case _ => db.sessions
  }

  // ---- auth_users ----

  ghost predicate AddressTaken(users: map<Id, User>, email: string) {
    exists u :: u in users && LiveAddress(users[u], email)
  }

  ghost predicate CanInsertUser(db: DB, user: Id, email: string) {
    !AddressTaken(db.users, Lower(email)) && user !in db.users
  }

  ghost function UsersAfter(db: DB, st: Stmt): map<Id, User> {
    match st
    case UpdatePassword(next, user, prior) =>
      if user in db.users && db.users[user].hash == Some(prior)
      then db.users[user := db.users[user].(hash := Some(next))] else db.users
    case InsertUser(user, email, hash) =>
      if CanInsertUser(db, user, email)
      then db.users[user := User(email, Some(hash), false, false)] else db.users
    case InsertInvitee(user, email) =>
      if CanInsertUser(db, user, email)
      then db.users[user := User(email, None, false, false)] else db.users
    case SetPassword(hash, user) =>
      if user in db.users then db.users[user := db.users[user].(hash := Some(hash))] else db.users
    case MarkVerified(user) =>
      if user in db.users then db.users[user := db.users[user].(verified := true)] else db.users
    case _ => db.users
  }

  // ---- auth_tokens ----

  predicate CanConsume(db: DB, token: string, purpose: Purpose) {
    var d := Sha256(token);
    d in db.tokens && db.tokens[d].purpose == purpose && db.tokens[d].consumed.None? && db.tokens[d].expires > db.now
  }

  function TokensAfter(db: DB, st: Stmt): map<Digest, Token> {
    match st
    case InsertToken(token, user, purpose, ttl) =>
      if user in db.users
      then db.tokens[Sha256(token) := Token(user, purpose, db.now + ttl, None)] else db.tokens
    case ConsumeToken(token, purpose) =>
      if CanConsume(db, token, purpose)
      then db.tokens[Sha256(token) := db.tokens[Sha256(token)].(consumed := Some(db.now))] else db.tokens
    case _ => db.tokens
  }

  // ---- auth_login_attempts ----

  function Bump(attempts: map<(Scope, string), Counter>, key: (Scope, string), now: int)
    : map<(Scope, string), Counter>
  {
    var failures := if key in attempts then attempts[key].failures + 1 else 1;
    attempts[key := Counter(failures, now)]
  }

  function Remembered(attempts: map<(Scope, string), Counter>, email: string, ip: string): nat {
    (if (ByUser, email) in attempts then 1 else 0) + (if (ByIP, ip) in attempts then 1 else 0)
  }

  function Forget(attempts: map<(Scope, string), Counter>, email: string, ip: string): map<(Scope, string), Counter> {
    attempts - {(ByUser, email), (ByIP, ip)}
  }

  function AttemptsAfter(db: DB, st: Stmt): map<(Scope, string), Counter> {
    match st
    case RecordBoth(email, ip) => Bump(Bump(db.attempts, (ByUser, email), db.now), (ByIP, ip), db.now)
    case RecordUser(email) => Bump(db.attempts, (ByUser, email), db.now)
    case ResetAttempts(email, ip) => Forget(db.attempts, email, ip)
    case _ => db.attempts
  }

  function CounterRows(db: DB, email: string, ip: string): seq<Row> {
    (if (ByUser, email) in db.attempts
     then [CounterRow(ByUser, db.attempts[(ByUser, email)], db.now - db.attempts[(ByUser, email)].lastFail)] else []) +
    (if (ByIP, ip) in db.attempts
     then [CounterRow(ByIP, db.attempts[(ByIP, ip)], db.now - db.attempts[(ByIP, ip)].lastFail)] else [])
  }

  // ---- auth_e2ee_vaults ----

  function FingerprintOf(db: DB, user: Id): Fingerprint
    requires user in db.users
  {
    HashDigest(db.users[user].hash)
  }

  predicate CanPut(db: DB, user: Id, version: int) {
    && user in db.users && !db.users[user].deleted
    && (user in db.vaults ==> db.vaults[user].version == version)
  }

  function VaultsAfter(db: DB, st: Stmt): map<Id, Vault> {
    match st
    case PutVault(user, salt, kdf, wrapped, recovery, version) =>
      if !CanPut(db, user, version) then db.vaults
      else if user !in db.vaults
      then db.vaults[user := Vault(kdf, salt, wrapped, recovery, Some(FingerprintOf(db, user)), 1)]
      else db.vaults[user := Vault(kdf, db.vaults[user].salt, wrapped, recovery,
                                   Some(FingerprintOf(db, user)), db.vaults[user].version + 1)]
    case DeleteVault(user) => db.vaults - {user}
    case _ => db.vaults
  }

  ghost predicate StoredParams(db: DB, email: string, user: Id) {
    user in db.users && LiveAddress(db.users[user], email) && user in db.vaults
  }

  // ---- one statement ----

  ghost function Exec(cfg: Config, db: DB, st: Stmt): DB {
    db.(sessions := SessionsAfter(cfg, db, st),
        users := UsersAfter(db, st),
        tokens := TokensAfter(db, st),
        attempts := AttemptsAfter(db, st),
        vaults := VaultsAfter(db, st))
  }

  ghost function Answer(cfg: Config, db: DB, st: Stmt): Reply {
    match st
    case Issue(sid, token, user) => if CanIssue(db, sid, token, user) then RowId(sid) else Fault
    case Lookup(token) =>
      if exists s :: Resolves(db, token, s)
      then var s :| Resolves(db, token, s); RowPrincipal(PrincipalOf(db, s)) else NoRows
    case Rotate(token, sid) =>
      if CanRotate(db, token, sid) then RowId(db.sessions[sid].user)
      else if sid in db.sessions && Live(db.sessions[sid], db.now) then Fault else NoRows
    case RecordMFA(sid, user) => if CanRecordMFA(db, sid, user) then RowId(sid) else NoRows
    case Revoke(sid) => Affected(if sid in db.sessions && db.sessions[sid].revokedAt.None? then 1 else 0)
    case RevokeAll(user) =>
      Affected(|OpenSessions(db.sessions, user)|)
    case LoginSelect(email) =>
      if AddressTaken(db.users, email)
      then var u :| u in db.users && LiveAddress(db.users[u], email);
           RowAccount(u, db.users[u].hash, db.users[u].verified)
      else NoRows
    case HashById(user) =>
      if user in db.users && !db.users[user].deleted
      then RowHash(db.users[user].hash, db.users[user].email) else NoRows
    case UpdatePassword(next, user, prior) =>
      Affected(if user in db.users && db.users[user].hash == Some(prior) then 1 else 0)
    case Attempts(email, ip) => RowCounters(CounterRows(db, email, ip))
    case RecordBoth(_, _) => Affected(2)
    case RecordUser(_) => Affected(1)
    case ResetAttempts(email, ip) => Affected(Remembered(db.attempts, email, ip))
    case InsertUser(user, email, _) =>
      if CanInsertUser(db, user, email) then RowId(user)
      else if AddressTaken(db.users, Lower(email)) then NoRows else Fault
    case InsertInvitee(user, email) =>
      if CanInsertUser(db, user, email) then RowId(user)
      else if AddressTaken(db.users, Lower(email)) then NoRows else Fault
    case UserIdByEmail(email) =>
      if AddressTaken(db.users, email)
      then var u :| u in db.users && LiveAddress(db.users[u], email); RowId(u)
      else NoRows
    case EmailById(user) =>
      if user in db.users && !db.users[user].deleted then RowEmail(db.users[user].email) else NoRows
    case InsertToken(_, user, _, _) => if user in db.users then Affected(1) else Fault
    case ConsumeToken(token, purpose) =>
      if CanConsume(db, token, purpose) then RowId(db.tokens[Sha256(token)].user) else NoRows
    case SetPassword(_, user) => Affected(if user in db.users then 1 else 0)
    case MarkVerified(user) => Affected(if user in db.users then 1 else 0)
    case ParamsByEmail(email) =>
      if exists u :: StoredParams(db, email, u)
      then var u :| StoredParams(db, email, u); RowParams(db.vaults[u].kdf, db.vaults[u].salt)
      else NoRows
    case VaultByUser(user) =>
      if user in db.vaults && user in db.users
      then RowVault(db.vaults[user], db.vaults[user].wrappedFor != Some(FingerprintOf(db, user)))
      else NoRows
    case PutVault(user, _, _, _, _, version) =>
      if !CanPut(db, user, version) then NoRows
      else RowVersion(if user in db.vaults then db.vaults[user].version + 1 else 1)
    case DeleteVault(user) => Affected(if user in db.vaults then 1 else 0)
  }

  // ---- any number of callers, one database clock ----

  /** What happens next to the database. `SoftDelete` and `SetRoles` are the application's own
      writes; no event changes an account's address. */
  datatype Event =
    | Tick(elapsed: nat)
    | Run(stmt: Stmt)
    | SoftDelete(user: Id)
    | SetRoles(user: Id, roles: seq<string>)

  /** The database, with the tokens and salts the CSPRNG has already produced and every principal a
      lookup has ever handed to a request. */
  datatype Store = Store(db: DB, minted: set<string>, salts: set<nat>, principals: set<Principal>)

  function MintedBy(st: Stmt): set<string> {
    match st
    case Issue(_, token, _) => {token}
    case Rotate(token, _) => {token}
    case InsertToken(token, _, _, _) => {token}
    case _ => {}
  }

  function HashOf(st: Stmt): Option<Encoded> {
    match st
    case UpdatePassword(next, _, _) => Some(next)
    case InsertUser(_, _, hash) => Some(hash)
    case SetPassword(hash, _) => Some(hash)
    case _ => None
  }

  function SaltsOf(st: Stmt): set<nat> {
    if HashOf(st).Some? && HashOf(st).value.Argon2id? then {HashOf(st).value.salt} else {}
  }

  ghost function Next(cfg: Config, s: Store, ev: Event): Store {
    match ev
    case Tick(elapsed) => s.(db := s.db.(now := s.db.now + elapsed))
    case SoftDelete(user) =>
      if user in s.db.users
      then s.(db := s.db.(users := s.db.users[user := s.db.users[user].(deleted := true)])) else s
    case SetRoles(user, roles) =>   // auth_user_roles references auth_users
      if user in s.db.users then s.(db := s.db.(roles := s.db.roles[user := roles])) else s
    case Run(st) =>
      var reply := Answer(cfg, s.db, st);
      Store(Exec(cfg, s.db, st), s.minted + MintedBy(st), s.salts + SaltsOf(st),
            s.principals + if reply.RowPrincipal? then {reply.principal} else {})
  }

  /** What the callers owe: fresh tokens, fresh argon2id salts, and a vault salt derived from the
      address on a principal some lookup resolved. */
  ghost predicate Enabled(s: Store, ev: Event) {
    ev.Run? ==>
      && MintedBy(ev.stmt) !! s.minted
      && (HashOf(ev.stmt).Some? ==> HashOf(ev.stmt).value.Argon2id? && HashOf(ev.stmt).value.salt !in s.salts)
      && (ev.stmt.PutVault? ==>
            exists p :: p in s.principals && p.user == ev.stmt.user && ev.stmt.salt == Derived(Normalize(p.email)))
  }

  /** The state after a whole interleaving of statements. */
  ghost function After(cfg: Config, s: Store, evs: seq<Event>): Store
    decreases |evs|
  {
    if evs == [] then s else After(cfg, Next(cfg, s, evs[0]), evs[1..])
  }

  ghost predicate ValidRun(cfg: Config, s: Store, evs: seq<Event>)
    decreases |evs|
  {
    evs == [] || (Enabled(s, evs[0]) && ValidRun(cfg, Next(cfg, s, evs[0]), evs[1..]))
  }

  lemma {:induction false} AfterConcat(cfg: Config, s: Store, a: seq<Event>, b: seq<Event>)
    ensures After(cfg, s, a + b) == After(cfg, After(cfg, s, a), b)
    ensures ValidRun(cfg, s, a + b) <==> ValidRun(cfg, s, a) && ValidRun(cfg, After(cfg, s, a), b)
    decreases |a|
  {
    if a == [] {
      assert a + b == b;
    } else {
      assert (a + b)[1..] == a[1..] + b;
      AfterConcat(cfg, Next(cfg, s, a[0]), a[1..], b);
    }
  }
}
