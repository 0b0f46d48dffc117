/** The Go methods as programs of SQL statements: which statement a call issues next (`Request`) and
    where it goes on the reply (`Resume`). Local work between two statements, password verification
    and hashing included, belongs to the step that follows or precedes it. */
module Programs {
  import opened Prelude
  import opened Passwords
  import opened Tables
  import opened Text
  import opened Backoff
  import opened Sql

  const HOUR: int := 3600 * SECOND
  const VERIFY_TTL: int := 24 * HOUR
  const RESET_TTL: int := 900 * SECOND
  const INVITE_TTL: int := 7 * 24 * HOUR

  const KDF_ARGON2ID := "argon2id"
  const KDF_PBKDF2 := "pbkdf2"

  /** What Vaults.Put is handed; the salt and the staleness flag are part of it and are ignored. */
  datatype VaultInput = VaultInput(wrapped: seq<int>, recovery: seq<int>, kdf: Kdf, salt: Salt, version: int,
                                   stale: bool)

  function WithDefaults(k: Kdf, d: Kdf): Kdf {
    Kdf(if k.name == "" then d.name else k.name,
        if k.memory == 0 then d.memory else k.memory,
        if k.iterations == 0 then d.iterations else k.iterations)
  }

  predicate VaultPolicy(cfg: Config, v: VaultInput) {
    var k := WithDefaults(v.kdf, cfg.kdfDefault);
    && 0 < |v.wrapped| <= cfg.maxBlob && |v.recovery| <= cfg.maxBlob
    && (cfg.allowNoRecovery || |v.recovery| > 0)
    && (k.name == KDF_ARGON2ID || k.name == KDF_PBKDF2)
    && k.memory >= cfg.kdfFloor.memory && k.iterations >= cfg.kdfFloor.iterations
  }

  datatype Value =
    | Nil
    | Caller(principal: Principal)
    | Anonymous
    | Secret(token: string)
    | KdfAnswer(kdf: Kdf, salt: Salt)
    | NoVault
    | VaultAnswer(vault: Vault, stale: bool)

  /** `caller` is the principal on the request context, if any. */
  datatype Call =
    | Login(email: string, ip: string, password: string, caller: Option<Principal>)
    | Logout(caller: Option<Principal>)
    | ChangePassword(caller: Option<Principal>, ip: string, current: string, next: string)
    | Register(email: string, password: string)
    | RequestPasswordReset(email: string)
    | ResetPassword(token: string, password: string)
    | VerifyEmail(token: string)
    | Invite(email: string)
    | AcceptInvite(token: string, password: string)
    | VaultParams(email: string)
    | VaultGet(caller: Option<Principal>)
    | VaultPut(caller: Option<Principal>, input: VaultInput)
    | VaultDiscard(caller: Option<Principal>)
    | SessionIssue(user: Id)
    | SessionLookup(token: string)
    | SessionRotate(sid: Id)
    | SessionRecordMFA(sid: Id, user: Id)
    | SessionRevoke(sid: Id)
    | SessionRevokeAll(user: Id)

  datatype Proc =
    | LoginCheck(email: string, ip: string, password: string, caller: Option<Principal>)
    | LoginRead(email: string, ip: string, password: string, caller: Option<Principal>)
    | LoginFail(email: string, ip: string)
    | LoginRehash(user: Id, email: string, ip: string, password: string, prior: Encoded, caller: Option<Principal>)
    | LoginReset(user: Id, email: string, ip: string, caller: Option<Principal>)
    | LoginRevoke(user: Id, arrived: Principal)
    | LoginIssue(user: Id)
    | LoginLookup(token: string)
    | ChangeRead(p: Principal, ip: string, current: string, next: string)
    | ChangeFail(email: string, ip: string)
    | ChangeWrite(p: Principal, current: string, next: string, prior: Encoded)
    | ChangeRotate(p: Principal)
    | RegisterInsert(email: string, password: string)
    | RegisterToken(user: Id)
    | ResetAsk(email: string)
    | ResetToken(user: Id)
    | ResetConsume(token: string, password: string)
    | ResetWrite(user: Id, password: string)
    | ResetRevoke(user: Id)
    | ResetMail(user: Id)
    | VerifyConsume(token: string)
    | VerifyMark(user: Id)
    | InviteInsert(email: string)
    | InviteFind(email: string)
    | InviteToken(user: Id)
    | AcceptConsume(token: string, password: string)
    | AcceptWrite(user: Id, password: string)
    | AcceptMark(user: Id)
    | Single(stmt: Stmt)        // calls that are one statement and draw nothing
    | DrawIssue(user: Id)       // Sessions.Issue
    | DrawRotate(sid: Id)       // Sessions.Rotate
    | ParamsRead(email: string)
    | VaultWrite(p: Principal, input: VaultInput)
    | Done(result: Result<Value>)

  predicate PlausibleAddress(email: string) {
    email != "" && '@' in email
  }

  /** A call up to its first statement: normalisation, the principal check and the shape checks. */
  function Begin(cfg: Config, call: Call): Proc {
    match call
    case Login(email, ip, password, caller) => LoginCheck(Normalize(email), ip, password, caller)
    case Logout(caller) => if caller.Some? then Single(Stmt.Revoke(caller.value.session)) else Done(Ok(Nil))
    case ChangePassword(caller, ip, current, next) =>
      if caller.None? then Done(Err(Unauthenticated))
      else if !cfg.shape(next) then Done(Err(InvalidInput))
      else ChangeRead(caller.value, ip, current, next)
    case Register(email, password) =>
      if !PlausibleAddress(Normalize(email)) || !cfg.shape(password) then Done(Err(InvalidInput))
      else RegisterInsert(Normalize(email), password)
    case RequestPasswordReset(email) => ResetAsk(Normalize(email))
    case ResetPassword(token, password) =>
      if !cfg.shape(password) then Done(Err(InvalidInput)) else ResetConsume(token, password)
    case VerifyEmail(token) => VerifyConsume(token)
    case Invite(email) =>
      if !PlausibleAddress(Normalize(email)) then Done(Err(InvalidInput)) else InviteInsert(Normalize(email))
    case AcceptInvite(token, password) =>
      if !cfg.shape(password) then Done(Err(InvalidInput)) else AcceptConsume(token, password)
    case VaultParams(email) => ParamsRead(Normalize(email))
    case VaultGet(caller) =>
      if caller.None? then Done(Err(Unauthenticated)) else Single(VaultByUser(caller.value.user))
    case VaultPut(caller, input) =>
      if caller.None? then Done(Err(Unauthenticated))
      else if !VaultPolicy(cfg, input) then Done(Err(InvalidInput))
      else VaultWrite(caller.value, input)
    case VaultDiscard(caller) =>
      if caller.None? then Done(Err(Unauthenticated)) else Single(DeleteVault(caller.value.user))
    case SessionIssue(user) => DrawIssue(user)
    case SessionLookup(token) => Single(Stmt.Lookup(token))
    case SessionRotate(sid) => DrawRotate(sid)
    case SessionRecordMFA(sid, user) => Single(Stmt.RecordMFA(sid, user))
    case SessionRevoke(sid) => Single(Stmt.Revoke(sid))
    case SessionRevokeAll(user) => Single(Stmt.RevokeAll(user))
  }

  /** What the world decides at one step: what other callers did to the database just before, whether
      the driver fails, whether the hashing bound is full, and the random draws. */
  datatype Choice = Choice(env: seq<Event>, fault: bool, busy: bool, id: Id, token: string, salt: nat)

  function HashWith(cfg: Config, ch: Choice, password: string): Encoded {
    Argon2id(cfg.cost, ch.salt, password)
  }

  function FailureStmt(email: string, ip: string): Stmt {
    if ip == "" then RecordUser(email) else RecordBoth(email, ip)
  }

  function PutStmt(cfg: Config, p: Principal, input: VaultInput): Stmt {
    PutVault(p.user, Derived(Normalize(p.email)), WithDefaults(input.kdf, cfg.kdfDefault),
             input.wrapped, input.recovery, input.version)
  }

  /** The next statement; None when the hashing bound stops the call before it. */
  function Request(cfg: Config, p: Proc, ch: Choice): Option<Stmt> {
    match p
    case LoginCheck(email, ip, _, _) => Some(Attempts(email, ip))
    case LoginRead(email, _, _, _) => Some(LoginSelect(email))
    case LoginFail(email, ip) => Some(FailureStmt(email, ip))
    case LoginRehash(user, _, _, password, prior, _) =>
      if ch.busy then None else Some(UpdatePassword(HashWith(cfg, ch, password), user, prior))
    case LoginReset(_, email, ip, _) => Some(ResetAttempts(email, ip))
    case LoginRevoke(_, arrived) => Some(Stmt.Revoke(arrived.session))
    case LoginIssue(user) => Some(Stmt.Issue(ch.id, ch.token, user))
    case LoginLookup(token) => Some(Stmt.Lookup(token))
    case ChangeRead(p, _, _, _) => Some(HashById(p.user))
    case ChangeFail(email, ip) => Some(FailureStmt(email, ip))
    case ChangeWrite(p, _, next, prior) =>
      if ch.busy then None else Some(UpdatePassword(HashWith(cfg, ch, next), p.user, prior))
    case ChangeRotate(p) => Some(Stmt.Rotate(ch.token, p.session))
    case RegisterInsert(email, password) =>
      if ch.busy then None else Some(InsertUser(ch.id, email, HashWith(cfg, ch, password)))
    case RegisterToken(user) => Some(InsertToken(ch.token, user, ForVerify, VERIFY_TTL))
    case ResetAsk(email) => Some(UserIdByEmail(email))
    case ResetToken(user) => Some(InsertToken(ch.token, user, ForReset, RESET_TTL))
    case ResetConsume(token, _) => Some(ConsumeToken(token, ForReset))
    case ResetWrite(user, password) => if ch.busy then None else Some(SetPassword(HashWith(cfg, ch, password), user))
    case ResetRevoke(user) => Some(Stmt.RevokeAll(user))
    case ResetMail(user) => Some(EmailById(user))
    case VerifyConsume(token) => Some(ConsumeToken(token, ForVerify))
    case VerifyMark(user) => Some(MarkVerified(user))
    case InviteInsert(email) => Some(InsertInvitee(ch.id, email))
    case InviteFind(email) => Some(UserIdByEmail(email))
    case InviteToken(user) => Some(InsertToken(ch.token, user, ForInvite, INVITE_TTL))
    case AcceptConsume(token, _) => Some(ConsumeToken(token, ForInvite))
    case AcceptWrite(user, password) => if ch.busy then None else Some(SetPassword(HashWith(cfg, ch, password), user))
    case AcceptMark(user) => Some(MarkVerified(user))
    case Single(stmt) => Some(stmt)
    case DrawIssue(user) => Some(Stmt.Issue(ch.id, ch.token, user))
    case DrawRotate(sid) => Some(Stmt.Rotate(ch.token, sid))
    case ParamsRead(email) => Some(ParamsByEmail(email))
    case VaultWrite(p, input) => Some(PutStmt(cfg, p, input))
    case Done(_) => None
  }

  function AfterVerdict(cfg: Config, ch: Choice, email: string, ip: string, password: string,
                        caller: Option<Principal>, user: Id, hash: Encoded, verified: bool): Proc {
    match Verify(cfg.cost, ch.busy, password, hash)
    case Err(f) => Done(Err(f))
    case Ok(v) =>
      if !v.ok then LoginFail(email, ip)
      else if !verified && !cfg.allowUnverified then Done(Err(InvalidCredentials))
      else if v.rehash then LoginRehash(user, email, ip, password, hash, caller)
      else LoginReset(user, email, ip, caller)
  }

  function AfterCurrent(cfg: Config, ch: Choice, p: Principal, ip: string, current: string, next: string,
                        hash: Encoded, email: string): Proc {
    match Verify(cfg.cost, ch.busy, current, hash)
    case Err(f) => Done(Err(f))
    case Ok(v) => if v.ok then ChangeWrite(p, current, next, hash) else ChangeFail(Lower(email), ip)
  }

  /** How a single-statement call presents its reply. */
  function Present(stmt: Stmt, r: Reply): Result<Value> {
    match r
    case RowPrincipal(p) => Ok(Caller(p))
    case RowVault(vault, stale) => Ok(VaultAnswer(vault, stale))
    case NoRows => if stmt.VaultByUser? then Ok(NoVault) else if stmt.RecordMFA? then Err(SessionGone)
      else Ok(Anonymous)
    case Fault => Err(Internal)
    case _ => Ok(Nil)
  }

  function Resume(cfg: Config, p: Proc, r: Reply, ch: Choice): Proc {
    match p
    case LoginCheck(email, ip, password, caller) =>
      if !r.RowCounters? then Done(Err(Internal))
      else if exists i :: 0 <= i < |r.rows| && Blocks(r.rows[i]) then Done(Err(WindowOpen))
      else LoginRead(email, ip, password, caller)
    case LoginRead(email, ip, password, caller) =>
      if r.RowAccount? && r.hash.Some?
      then AfterVerdict(cfg, ch, email, ip, password, caller, r.account, r.hash.value, r.verified)
      else if r.RowAccount? || r.NoRows? then if ch.busy then Done(Err(HasherBusy)) else LoginFail(email, ip)
      else Done(Err(Internal))
    case LoginFail(_, _) => Done(Err(InvalidCredentials))
    case LoginRehash(user, email, ip, _, _, caller) => LoginReset(user, email, ip, caller)
    case LoginReset(user, _, _, caller) => if caller.Some? then LoginRevoke(user, caller.value) else LoginIssue(user)
    case LoginRevoke(user, _) => if r.Fault? then Done(Err(Internal)) else LoginIssue(user)
    case LoginIssue(_) => if r.RowId? then LoginLookup(ch.token) else Done(Err(Internal))
    case LoginLookup(_) => if r.RowPrincipal? then Done(Ok(Caller(r.principal))) else Done(Err(Internal))
    case ChangeRead(p, ip, current, next) =>
      if r.NoRows? then Done(Err(Unauthenticated))
      else if !r.RowHash? then Done(Err(Internal))
      else if r.hash.None? then Done(Err(InvalidCredentials))
      else AfterCurrent(cfg, ch, p, ip, current, next, r.hash.value, r.email)
    case ChangeFail(_, _) => Done(Err(InvalidCredentials))
    case ChangeWrite(p, _, _, _) =>
      if ch.busy then Done(Err(HasherBusy))
      else if !r.Affected? then Done(Err(Internal))
      else if r.count == 0 then Done(Err(InvalidCredentials)) else ChangeRotate(p)
    case ChangeRotate(_) =>
      if r.RowId? then Done(Ok(Secret(ch.token))) else Done(Err(if r.NoRows? then SessionGone else Internal))
    case RegisterInsert(_, _) =>
      if ch.busy then Done(Err(HasherBusy))
      else if r.RowId? then RegisterToken(r.id)
      else if r.NoRows? then Done(Ok(Nil)) else Done(Err(Internal))
    case RegisterToken(_) => Done(if r.Affected? then Ok(Nil) else Err(Internal))
    case ResetAsk(_) =>
      if r.RowId? then ResetToken(r.id) else if r.NoRows? then Done(Ok(Nil)) else Done(Err(Internal))
    case ResetToken(_) => Done(if r.Affected? then Ok(Nil) else Err(Internal))
    case ResetConsume(_, password) =>
      if r.RowId? then ResetWrite(r.id, password) else Done(Err(if r.NoRows? then InvalidToken else Internal))
    case ResetWrite(user, _) =>
      if ch.busy then Done(Err(HasherBusy)) else if r.Affected? then ResetRevoke(user) else Done(Err(Internal))
    case ResetRevoke(user) => if r.Affected? then ResetMail(user) else Done(Err(Internal))
    case ResetMail(_) => Done(Ok(Nil))
    case VerifyConsume(_) =>
      if r.RowId? then VerifyMark(r.id) else Done(Err(if r.NoRows? then InvalidToken else Internal))
    case VerifyMark(_) => Done(if r.Affected? then Ok(Nil) else Err(Internal))
    case InviteInsert(email) =>
      if r.RowId? then InviteToken(r.id) else if r.NoRows? then InviteFind(email) else Done(Err(Internal))
    case InviteFind(_) => if r.RowId? then InviteToken(r.id) else Done(Err(Internal))
    case InviteToken(_) => Done(if r.Affected? then Ok(Secret(ch.token)) else Err(Internal))
    case AcceptConsume(_, password) =>
      if r.RowId? then AcceptWrite(r.id, password) else Done(Err(if r.NoRows? then InvalidToken else Internal))
    case AcceptWrite(user, _) =>
      if ch.busy then Done(Err(HasherBusy)) else if r.Affected? then AcceptMark(user) else Done(Err(Internal))
    case AcceptMark(_) => Done(if r.Affected? then Ok(Nil) else Err(Internal))
    case Single(stmt) => Done(Present(stmt, r))
    case DrawIssue(_) => Done(if r.RowId? then Ok(Secret(ch.token)) else Err(Internal))
    case DrawRotate(_) =>
      Done(if r.RowId? then Ok(Secret(ch.token)) else Err(if r.NoRows? then SessionGone else Internal))
    case ParamsRead(email) =>
      Done(if r.RowParams? then Ok(KdfAnswer(r.kdf, r.salt))
           else if r.NoRows? then Ok(KdfAnswer(cfg.kdfDefault, Derived(email))) else Err(Internal))
    case VaultWrite(_, _) =>
      Done(if r.RowVersion? then Ok(Nil) else Err(if r.NoRows? then Conflict else Internal))
    case Done(_) => p
  }

  /** The most statements a call has left. */
  function Left(p: Proc): nat {
    match p
    case LoginCheck(_, _, _, _) => 8
    case LoginRead(_, _, _, _) => 7
    case LoginRehash(_, _, _, _, _, _) => 6
    case LoginReset(_, _, _, _) => 5
    case LoginRevoke(_, _) => 4
    case LoginIssue(_) => 3
    case LoginLookup(_) => 2
    case ChangeRead(_, _, _, _) => 4
    case ChangeWrite(_, _, _, _) => 3
    case ResetConsume(_, _) => 4
    case ResetWrite(_, _) => 3
    case ResetRevoke(_) => 2
    case InviteInsert(_) => 4
    case InviteFind(_) => 3
    case AcceptConsume(_, _) => 4
    case AcceptWrite(_, _) => 3
    case RegisterInsert(_, _) => 2
    case ResetAsk(_) => 2
    case VerifyConsume(_) => 2
    case Done(_) => 0
    case _ => 1
  }

  /** One step against the store: the statement, or nothing, and the reply it brings. */
  ghost function Perform(cfg: Config, s: Store, p: Proc, ch: Choice): (r: (Store, Reply)) {
    var st := Request(cfg, p, ch);
    if st.None? then (s, NoRows)
    else if ch.fault then (s, Fault)
    else (Next(cfg, s, Run(st.value)), Answer(cfg, s.db, st.value))
  }

  lemma VerdictProgresses(cfg: Config, p: Proc, r: Reply, ch: Choice)
    requires p.LoginRead? || p.ChangeRead?
    ensures Left(Resume(cfg, p, r, ch)) < Left(p)
  {
    hide Verify;
  }

  lemma ResumeProgresses(cfg: Config, p: Proc, r: Reply, ch: Choice)
    requires !p.Done?
    ensures Left(Resume(cfg, p, r, ch)) < Left(p)
  {
    hide AfterVerdict, AfterCurrent, Blocks, Present;
    if p.LoginRead? || p.ChangeRead? {
      VerdictProgresses(cfg, p, r, ch);
    }
  }

  /** A call from `p` to its end, its k-th statement preceded by whatever `oracle(k).env` says the
      other callers did meanwhile. */
  ghost function Drive(cfg: Config, s: Store, p: Proc, oracle: nat -> Choice, k: nat): (Store, Result<Value>)
    decreases Left(p)
  {
    if p.Done? then (s, p.result)
    else
      var ch := oracle(k);
      var (t, reply) := Perform(cfg, After(cfg, s, ch.env), p, ch);
      ResumeProgresses(cfg, p, reply, ch);
      Drive(cfg, t, Resume(cfg, p, reply, ch), oracle, k + 1)
  }

  lemma DriveOnce(cfg: Config, s: Store, p: Proc, oracle: nat -> Choice, k: nat)
    requires !p.Done?
    ensures var (t, r) := Perform(cfg, After(cfg, s, oracle(k).env), p, oracle(k));
            Drive(cfg, s, p, oracle, k) == Drive(cfg, t, Resume(cfg, p, r, oracle(k)), oracle, k + 1)
  {
  }

  /** A step whose statement the driver carries out. */
  lemma DriveRuns(cfg: Config, s: Store, p: Proc, st: Stmt, oracle: nat -> Choice, k: nat)
    requires !p.Done? && !oracle(k).fault && Request(cfg, p, oracle(k)) == Some(st)
    ensures var now := After(cfg, s, oracle(k).env);
            Drive(cfg, s, p, oracle, k)
            == Drive(cfg, Next(cfg, now, Run(st)), Resume(cfg, p, Answer(cfg, now.db, st), oracle(k)), oracle, k + 1)
  {
    hide Drive, Resume, Request, Next, Answer, After;
    DriveOnce(cfg, s, p, oracle, k);
  }

  lemma DriveDone(cfg: Config, oracle: nat -> Choice)
    ensures forall s, res, k :: Drive(cfg, s, Done(res), oracle, k) == (s, res)
  {
  }
}
