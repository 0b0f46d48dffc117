/** The Postgres rows the library reads and writes (migrations/0001_core.sql, 0003_e2ee.sql), and
    the replies its statements give. Times are microseconds on the database clock. */
module Tables {
  import opened Prelude
  import opened Passwords
  import opened Text

  type Id = nat

  /** SHA-256, idealised as injective. */
  datatype Digest = Sha256(preimage: string)
  datatype Fingerprint = HashDigest(of: Option<Encoded>)
  /** The pepper-keyed HMAC of an address, or whatever bytes a client may have named. */
  datatype Salt = Derived(address: string) | Foreign(text: string)

  datatype User = User(email: string, hash: Option<Encoded>, verified: bool, deleted: bool)
  datatype Session = Session(digest: Digest, user: Id, created: int, lastSeen: int, idleExpires: int,
                             expires: int, mfaAt: Option<int>, revokedAt: Option<int>)
  datatype Purpose = ForVerify | ForReset | ForInvite
  datatype Token = Token(user: Id, purpose: Purpose, expires: int, consumed: Option<int>)
  datatype Scope = ByUser | ByIP
  datatype Counter = Counter(failures: nat, lastFail: int)
  datatype Kdf = Kdf(name: string, memory: nat, iterations: nat)
  datatype Vault = Vault(kdf: Kdf, salt: Salt, wrapped: seq<int>, recovery: seq<int>,
                         wrappedFor: Option<Fingerprint>, version: int)

  datatype DB = DB(now: int, users: map<Id, User>, roles: map<Id, seq<string>>,
                   sessions: map<Id, Session>, tokens: map<Digest, Token>,
                   attempts: map<(Scope, string), Counter>, vaults: map<Id, Vault>)

  datatype Principal = Principal(user: Id, session: Id, email: string, verified: bool, authAt: int,
                                 mfaAt: Option<int>, roles: seq<string>)

  const SECOND: int := 1_000_000
  const TOUCH_EVERY: int := 60 * SECOND

  /** The liveness predicate every session statement repeats. */
  predicate Live(row: Session, now: int) {
    row.revokedAt.None? && row.idleExpires > now && row.expires > now
  }

  predicate LiveAddress(u: User, email: string) {
    !u.deleted && Lower(u.email) == email
  }

  function RolesOf(db: DB, user: Id): seq<string> {
    if user in db.roles then db.roles[user] else []
  }

  datatype Row = CounterRow(scope: Scope, counter: Counter, age: int)

  datatype Reply =
    | NoRows
    | Fault                     // the driver reported an error and nothing changed
    | Affected(count: nat)
    | RowId(id: Id)
    | RowPrincipal(principal: Principal)
    | RowAccount(account: Id, hash: Option<Encoded>, verified: bool)
    | RowHash(hash: Option<Encoded>, email: string)
    | RowEmail(email: string)
    | RowCounters(rows: seq<Row>)
    | RowParams(kdf: Kdf, salt: Salt)
    | RowVault(vault: Vault, stale: bool)
    | RowVersion(version: int)
}
