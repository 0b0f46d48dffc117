/** Emailed links from the call that issues them to the call that redeems them. */
module Links {
  import opened Prelude
  import opened Passwords
  import opened Tables
  import opened Text
  import opened Sql
  import opened Invariants
  import opened Programs
  import opened Machine
  import opened BackoffTheorems
  import opened LoginTheorems
  import opened LoginCompletes
  import Survivors

  const MINUTE: int := 60_000_000

  // ---- the row a link stands for ----

  ghost predicate Stands(s: Store, token: string, user: Id, purpose: Purpose, expires: int) {
    Sha256(token) in s.db.tokens && s.db.tokens[Sha256(token)] == Token(user, purpose, expires, None)
  }

  predicate Unspent(db: DB, token: string) {
    Sha256(token) in db.tokens && db.tokens[Sha256(token)].consumed.None?
  }

  lemma {:induction false} RunKeepsToken(cfg: Config, s: Store, evs: seq<Event>, d: Digest)
    requires Inv(cfg, s) && ValidRun(cfg, s, evs) && d in s.db.tokens
    ensures d in After(cfg, s, evs).db.tokens && TokenKept(s.db.tokens[d], After(cfg, s, evs).db.tokens[d])
    decreases |evs|
  {
    hide Next, Enabled, SessionsOk, UsersOk, VaultsOk, PrincipalsOk, CountersOk;
    if evs != [] {
      NextKeepsTokenRows(cfg, s, evs[0], d);
      NextKeepsInv(cfg, s, evs[0]);
      RunKeepsToken(cfg, Next(cfg, s, evs[0]), evs[1..], d);
    }
  }

  // ---- redeeming ----

  /** The call presents this link, with a secret the shape check accepts where it brings one. */
  predicate Presents(cfg: Config, call: Call, token: string) {
    match call
    case ResetPassword(t, password) => t == token && cfg.shape(password)
    case AcceptInvite(t, password) => t == token && cfg.shape(password)
    case VerifyEmail(t) => t == token
    case _ => false
  }

  /** Which kind of link a call is for. */
  predicate IsFor(call: Call, purpose: Purpose) {
    match purpose
    case ForVerify => call.VerifyEmail?
    case ForReset => call.ResetPassword?
    case ForInvite => call.AcceptInvite?
  }

  lemma ConsumeAnswers(cfg: Config, db: DB, token: string, purpose: Purpose)
    requires Sha256(token) in db.tokens
    ensures var row := db.tokens[Sha256(token)]; var r := Answer(cfg, db, ConsumeToken(token, purpose));
            if row.purpose == purpose && row.consumed.None? && db.now < row.expires then r == RowId(row.user)
            else r.NoRows?
  {
  }

  ghost predicate Unhindered(oracle: nat -> Choice) {
    forall k: nat :: !oracle(k).fault && !oracle(k).busy
  }

  lemma Answers(cfg: Config, db: DB, st: Stmt)
    ensures st.RevokeAll? || st.SetPassword? || st.MarkVerified? ==> Answer(cfg, db, st).Affected?
  {
    hide OpenSessions;
  }

  lemma LastStatement(cfg: Config, p: Proc, ch: Choice)
    requires p.ResetMail? || p.AcceptMark? || p.VerifyMark?
    ensures Request(cfg, p, ch) == Some(if p.ResetMail? then EmailById(p.user) else MarkVerified(p.user))
    ensures forall r: Reply :: p.ResetMail? || r.Affected? ==> Resume(cfg, p, r, ch) == Done(Ok(Nil))
  {
  }

  lemma TailSucceeds(cfg: Config, s: Store, p: Proc, oracle: nat -> Choice, k: nat)
    requires Unhindered(oracle) && (p.ResetMail? || p.AcceptMark? || p.VerifyMark?)
    ensures Drive(cfg, s, p, oracle, k).1 == Ok(Nil)
  {
    hide Drive, Resume, Request, Next, Answer, After, Unhindered;
    var st := if p.ResetMail? then EmailById(p.user) else MarkVerified(p.user);
    LastStatement(cfg, p, oracle(k));
    NoFault(oracle, k);
    DriveRuns(cfg, s, p, st, oracle, k);
    Answers(cfg, After(cfg, s, oracle(k).env).db, st);
    DriveDone(cfg, oracle);
  }

  lemma RevokeStatement(cfg: Config, user: Id, ch: Choice)
    ensures Request(cfg, ResetRevoke(user), ch) == Some(RevokeAll(user))
    ensures forall r: Reply :: r.Affected? ==> Resume(cfg, ResetRevoke(user), r, ch) == ResetMail(user)
  {
  }

  lemma RevokeSucceeds(cfg: Config, s: Store, user: Id, oracle: nat -> Choice, k: nat)
    requires Unhindered(oracle)
    ensures Drive(cfg, s, ResetRevoke(user), oracle, k).1 == Ok(Nil)
  {
    hide Drive, Resume, Request, Next, Answer, After, Unhindered;
    var now := After(cfg, s, oracle(k).env);
    RevokeStatement(cfg, user, oracle(k));
    NoFault(oracle, k);
    DriveRuns(cfg, s, ResetRevoke(user), RevokeAll(user), oracle, k);
    Answers(cfg, now.db, RevokeAll(user));
    TailSucceeds(cfg, Next(cfg, now, Run(RevokeAll(user))), ResetMail(user), oracle, k + 1);
  }

  lemma WriteStatement(cfg: Config, p: Proc, ch: Choice)
    requires (p.ResetWrite? || p.AcceptWrite?) && !ch.busy
    ensures Request(cfg, p, ch) == Some(SetPassword(HashWith(cfg, ch, p.password), p.user))
    ensures forall r: Reply :: r.Affected? ==>
              Resume(cfg, p, r, ch) == if p.ResetWrite? then ResetRevoke(p.user) else AcceptMark(p.user)
  {
    hide HashWith;
  }

  lemma WriteSucceeds(cfg: Config, s: Store, p: Proc, oracle: nat -> Choice, k: nat)
    requires Unhindered(oracle) && (p.ResetWrite? || p.AcceptWrite?)
    ensures Drive(cfg, s, p, oracle, k).1 == Ok(Nil)
  {
    WriteStatement(cfg, p, oracle(k));
    hide Drive, Resume, Request, Next, Answer, After, HashWith, Unhindered;
    var now := After(cfg, s, oracle(k).env);
    var st := SetPassword(HashWith(cfg, oracle(k), p.password), p.user);
    NoFault(oracle, k);
    DriveRuns(cfg, s, p, st, oracle, k);
    Answers(cfg, now.db, st);
    if p.ResetWrite? {
      RevokeSucceeds(cfg, Next(cfg, now, Run(st)), p.user, oracle, k + 1);
    } else {
      TailSucceeds(cfg, Next(cfg, now, Run(st)), AcceptMark(p.user), oracle, k + 1);
    }
  }

  /** The purpose a call's first statement asks for, and where it goes on. */
  lemma ConsumeStatement(cfg: Config, call: Call, token: string, purpose: Purpose, ch: Choice)
    requires Presents(cfg, call, token) && IsFor(call, purpose)
    ensures var p := Begin(cfg, call);
            && !p.Done? && Request(cfg, p, ch) == Some(ConsumeToken(token, purpose))
            && (forall r: Reply :: r.NoRows? ==> Resume(cfg, p, r, ch) == Done(Err(InvalidToken)))
            && forall r: Reply :: r.RowId? ==>
                 var q := Resume(cfg, p, r, ch); q.ResetWrite? || q.AcceptWrite? || q.VerifyMark?
  {
  }

  /** A link is redeemed exactly by the call it is for, once, before it expires; to every other call, and
      at every other time, it is invalid. */
  lemma RedeemsExactly(cfg: Config, s: Store, call: Call, token: string, oracle: nat -> Choice)
    requires Unhindered(oracle) && Presents(cfg, call, token)
    requires Sha256(token) in After(cfg, s, oracle(0).env).db.tokens
    ensures var met := After(cfg, s, oracle(0).env).db; var row := met.tokens[Sha256(token)];
            Drive(cfg, s, Begin(cfg, call), oracle, 0).1
            == if IsFor(call, row.purpose) && row.consumed.None? && met.now < row.expires then Ok(Nil)
               else Err(InvalidToken)
  {
    var purpose := if call.ResetPassword? then ForReset else if call.AcceptInvite? then ForInvite else ForVerify;
    var p := Begin(cfg, call);
    ConsumeStatement(cfg, call, token, purpose, oracle(0));
    hide Begin, Answer, Drive, Next, Request, Resume, After, Unhindered, Presents;
    var met := After(cfg, s, oracle(0).env);
    NoFault(oracle, 0);
    DriveRuns(cfg, s, p, ConsumeToken(token, purpose), oracle, 0);
    DriveDone(cfg, oracle);
    ConsumeAnswers(cfg, met.db, token, purpose);
    var t := Next(cfg, met, Run(ConsumeToken(token, purpose)));
    var q := Resume(cfg, p, Answer(cfg, met.db, ConsumeToken(token, purpose)), oracle(0));
    if q.ResetWrite? || q.AcceptWrite? {
      WriteSucceeds(cfg, t, q, oracle, 1);
    } else if q.VerifyMark? {
      TailSucceeds(cfg, t, q, oracle, 1);
    }
  }

  /** So for a link that stands, in any continuation. */
  lemma StandingLink(cfg: Config, s: Store, token: string, user: Id, purpose: Purpose, expires: int, evs: seq<Event>,
                     call: Call, oracle: nat -> Choice)
    requires Inv(cfg, s) && Stands(s, token, user, purpose, expires) && Unhindered(oracle) && Presents(cfg, call, token)
    requires ValidRun(cfg, s, evs) && ValidRun(cfg, After(cfg, s, evs), oracle(0).env)
    ensures var met := After(cfg, After(cfg, s, evs), oracle(0).env).db;
            Drive(cfg, After(cfg, s, evs), Begin(cfg, call), oracle, 0).1
            == if IsFor(call, purpose) && Unspent(met, token) && met.now < expires then Ok(Nil) else Err(InvalidToken)
  {
    hide Inv, Drive, Begin, Presents, ValidRun;
    var t := After(cfg, s, evs);
    assert Inv(cfg, t) by { RunKeepsInv(cfg, s, evs); }
    RunKeepsToken(cfg, s, evs, Sha256(token));
    RunKeepsToken(cfg, t, oracle(0).env, Sha256(token));
    RedeemsExactly(cfg, t, call, token, oracle);
  }

  // ---- issuing ----

  lemma InsertEffect(cfg: Config, s: Store, token: string, user: Id, purpose: Purpose, ttl: int)
    requires user in s.db.users
    ensures Answer(cfg, s.db, InsertToken(token, user, purpose, ttl)) == Affected(1)
    ensures Next(cfg, s, Run(InsertToken(token, user, purpose, ttl))).db
            == s.db.(tokens := s.db.tokens[Sha256(token) := Token(user, purpose, s.db.now + ttl, None)])
  {
  }

  /** The step issues this kind of link, good for this long. */
  predicate Issues(p: Proc, user: Id, purpose: Purpose, ttl: int) {
    match purpose
    case ForReset => p == ResetToken(user) && ttl == 15 * MINUTE
    case ForVerify => p == RegisterToken(user) && ttl == 24 * 60 * MINUTE
    case ForInvite => p == InviteToken(user) && ttl == 7 * 24 * 60 * MINUTE
  }

  /** Only an invitation's link is returned; the others go out by mail. */
  function Returned(purpose: Purpose, token: string): Value {
    if purpose == ForInvite then Secret(token) else Nil
  }

  lemma IssueStatement(cfg: Config, p: Proc, ch: Choice, user: Id, purpose: Purpose, ttl: int)
    requires Issues(p, user, purpose, ttl)
    ensures !p.Done? && Request(cfg, p, ch) == Some(InsertToken(ch.token, user, purpose, ttl))
    ensures Resume(cfg, p, Affected(1), ch) == Done(Ok(Returned(purpose, ch.token)))
  {
  }

  lemma UsersGrow(s: Store, t: Store, user: Id)
    requires Grows(s, t) && user in s.db.users
    ensures user in t.db.users
  {
  }

  lemma LinkIsStored(cfg: Config, s: Store, p: Proc, oracle: nat -> Choice, k: nat, user: Id, purpose: Purpose,
                     ttl: int)
    requires Inv(cfg, s) && ValidDrive(cfg, s, p, oracle, k) && Unhindered(oracle)
    requires Issues(p, user, purpose, ttl) && user in s.db.users
    ensures var end := Drive(cfg, s, p, oracle, k); var met := After(cfg, s, oracle(k).env).db;
            && Inv(cfg, end.0) && end.1 == Ok(Returned(purpose, oracle(k).token))
            && Stands(end.0, oracle(k).token, user, purpose, end.0.db.now + ttl)
            && end.0.db == met.(tokens := end.0.db.tokens)
  {
    hide *;
    IssueStatement(cfg, p, oracle(k), user, purpose, ttl);
    NoFault(oracle, k);
    StepRuns(cfg, s, p, oracle, k);
    var now := After(cfg, s, oracle(k).env);
    UsersGrow(s, now, user);
    InsertEffect(cfg, now, oracle(k).token, user, purpose, ttl);
    var end := Next(cfg, now, Run(InsertToken(oracle(k).token, user, purpose, ttl)));
    StandsNow(end, oracle(k).token, user, purpose, now.db.now + ttl);
    DriveDone(cfg, oracle);
  }

  lemma StandsNow(s: Store, token: string, user: Id, purpose: Purpose, expires: int)
    requires Sha256(token) in s.db.tokens && s.db.tokens[Sha256(token)] == Token(user, purpose, expires, None)
    ensures Stands(s, token, user, purpose, expires)
  {
  }

  lemma AddressAnswers(cfg: Config, s: Store, email: string, user: Id)
    requires UsersOk(s) && user in s.db.users && LiveAddress(s.db.users[user], email)
    ensures Answer(cfg, s.db, UserIdByEmail(email)) == RowId(user)
  {
    hide Lower;
  }

  lemma UsersOfInv(cfg: Config, s: Store)
    requires Inv(cfg, s)
    ensures UsersOk(s)
  {
  }

  /** A reset asked for at a live account's address: the link drawn stands for that account for fifteen
      minutes. */
  lemma ResetLinkIsGiven(cfg: Config, s: Store, email: string, oracle: nat -> Choice, user: Id)
    requires Inv(cfg, s) && ValidDrive(cfg, s, Begin(cfg, RequestPasswordReset(email)), oracle, 0) && Unhindered(oracle)
    requires var asked := After(cfg, s, oracle(0).env).db;
             user in asked.users && LiveAddress(asked.users[user], Normalize(email))
    ensures var end := Drive(cfg, s, Begin(cfg, RequestPasswordReset(email)), oracle, 0);
            && Inv(cfg, end.0) && end.1 == Ok(Nil)
            && Stands(end.0, oracle(1).token, user, ForReset, end.0.db.now + 15 * MINUTE)
  {
    var p := Begin(cfg, RequestPasswordReset(email));
    hide *;
    AskStatement(cfg, email, oracle(0), user);
    NoFault(oracle, 0);
    StepRuns(cfg, s, p, oracle, 0);
    var asked := After(cfg, s, oracle(0).env);
    UsersOfInv(cfg, asked);
    AddressAnswers(cfg, asked, Normalize(email), user);
    var ev := Run(UserIdByEmail(Normalize(email)));
    UserStays(cfg, asked, ev, user);
    LinkKinds(user, oracle(1).token);
    LinkIsStored(cfg, Next(cfg, asked, ev), ResetToken(user), oracle, 1, user, ForReset, 15 * MINUTE);
  }

  lemma NoFault(oracle: nat -> Choice, k: nat)
    requires Unhindered(oracle)
    ensures !oracle(k).fault && !oracle(k).busy
  {
  }

  lemma AskStatement(cfg: Config, email: string, ch: Choice, user: Id)
    ensures var p := Begin(cfg, RequestPasswordReset(email));
            && !p.Done? && Request(cfg, p, ch) == Some(UserIdByEmail(Normalize(email)))
            && Resume(cfg, p, RowId(user), ch) == ResetToken(user)
  {
    hide Normalize;
  }

  lemma UserStays(cfg: Config, s: Store, ev: Event, user: Id)
    requires user in s.db.users
    ensures user in Next(cfg, s, ev).db.users
  {
  }

  // ---- registration ----

  /** No live account has this address, in whatever case. */
  ghost predicate NobodyAt(users: map<Id, User>, email: string) {
    forall u :: u in users && !users[u].deleted ==> Lower(users[u].email) != email
  }

  lemma NobodyIsTaken(users: map<Id, User>, email: string)
    ensures NobodyAt(users, email) <==> !AddressTaken(users, email)
  {
    hide Lower;
  }

  lemma InsertUserEffect(cfg: Config, s: Store, user: Id, email: string, hash: Encoded)
    requires user !in s.db.users && !AddressTaken(s.db.users, Lower(email))
    ensures Answer(cfg, s.db, InsertUser(user, email, hash)) == RowId(user)
    ensures Next(cfg, s, Run(InsertUser(user, email, hash))).db
            == s.db.(users := s.db.users[user := User(email, Some(hash), false, false)])
  {
    hide Lower;
  }

  lemma RegisterStatement(cfg: Config, email: string, password: string, ch: Choice)
    requires PlausibleAddress(Normalize(email)) && cfg.shape(password) && !ch.busy
    ensures var p := Begin(cfg, Register(email, password));
            && !p.Done?
            && Request(cfg, p, ch) == Some(InsertUser(ch.id, Normalize(email), Argon2id(cfg.cost, ch.salt, password)))
            && forall user :: Resume(cfg, p, RowId(user), ch) == RegisterToken(user)
  {
    hide Normalize;
  }

  lemma LinkKinds(user: Id, token: string)
    ensures Issues(ResetToken(user), user, ForReset, 15 * MINUTE) && Returned(ForReset, token) == Nil
    ensures Issues(RegisterToken(user), user, ForVerify, 24 * 60 * MINUTE) && Returned(ForVerify, token) == Nil
    ensures Issues(InviteToken(user), user, ForInvite, 7 * 24 * 60 * MINUTE)
            && Returned(ForInvite, token) == Secret(token)
  {
  }

  lemma LowerOfNormal(email: string)
    ensures Lower(Normalize(email)) == Normalize(email)
  {
  }

  /** Registering a free address makes an account there, unverified, whose hash is of exactly this password;
      the link drawn stands for it for a day. */
  lemma RegistrationMakesAnAccount(cfg: Config, s: Store, email: string, password: string, oracle: nat -> Choice)
    requires Inv(cfg, s) && ValidDrive(cfg, s, Begin(cfg, Register(email, password)), oracle, 0) && Unhindered(oracle)
    requires PlausibleAddress(Normalize(email)) && cfg.shape(password)
    requires var met := After(cfg, s, oracle(0).env).db;
             oracle(0).id !in met.users && NobodyAt(met.users, Normalize(email))
    ensures var met := After(cfg, s, oracle(0).env).db; var user := oracle(0).id;
            var end := Drive(cfg, s, Begin(cfg, Register(email, password)), oracle, 0);
            && Inv(cfg, end.0) && end.1 == Ok(Nil) && user in end.0.db.users
            && Stands(end.0, oracle(1).token, user, ForVerify, end.0.db.now + 24 * 60 * MINUTE)
            && (oracle(1).env == [] ==>
                 end.0.db == met.(tokens := end.0.db.tokens, users := met.users[user :=
                   User(Normalize(email), Some(Argon2id(cfg.cost, oracle(0).salt, password)), false, false)]))
  {
    hide *;
    var p := Begin(cfg, Register(email, password));
    NoFault(oracle, 0);
    RegisterStatement(cfg, email, password, oracle(0));
    StepRuns(cfg, s, p, oracle, 0);
    var met := After(cfg, s, oracle(0).env);
    var user := oracle(0).id;
    var hash := Argon2id(cfg.cost, oracle(0).salt, password);
    LowerOfNormal(email);
    NobodyIsTaken(met.db.users, Normalize(email));
    InsertUserEffect(cfg, met, user, Normalize(email), hash);
    var t := Next(cfg, met, Run(InsertUser(user, Normalize(email), hash)));
    assert user in t.db.users;
    LinkKinds(user, oracle(1).token);
    LinkIsStored(cfg, t, RegisterToken(user), oracle, 1, user, ForVerify, 24 * 60 * MINUTE);
    var end := Drive(cfg, t, RegisterToken(user), oracle, 1);
    RunGrows(cfg, t, RegisterToken(user), oracle, 1, user);
    NoEvents(cfg, t);
  }

  lemma TakenStatement(cfg: Config, email: string, password: string, ch: Choice)
    requires PlausibleAddress(Normalize(email)) && cfg.shape(password) && !ch.busy
    ensures Resume(cfg, Begin(cfg, Register(email, password)), NoRows, ch) == Done(Ok(Nil))
  {
    hide Normalize;
  }

  lemma TakenIsLeftAlone(cfg: Config, s: Store, user: Id, email: string, hash: Encoded)
    requires AddressTaken(s.db.users, Lower(email))
    ensures Answer(cfg, s.db, InsertUser(user, email, hash)) == NoRows
    ensures Next(cfg, s, Run(InsertUser(user, email, hash))).db == s.db
  {
    hide Lower;
  }

  /** Registering an address where an account lives answers nil too, and touches no row: no second account,
      no new password, no link. */
  lemma TakenAddressIsLeftAlone(cfg: Config, s: Store, email: string, password: string, oracle: nat -> Choice)
    requires Inv(cfg, s) && ValidDrive(cfg, s, Begin(cfg, Register(email, password)), oracle, 0) && Unhindered(oracle)
    requires PlausibleAddress(Normalize(email)) && cfg.shape(password)
    requires !NobodyAt(After(cfg, s, oracle(0).env).db.users, Normalize(email))
    ensures var end := Drive(cfg, s, Begin(cfg, Register(email, password)), oracle, 0);
            end.1 == Ok(Nil) && end.0.db == After(cfg, s, oracle(0).env).db
  {
    hide *;
    var p := Begin(cfg, Register(email, password));
    NoFault(oracle, 0);
    RegisterStatement(cfg, email, password, oracle(0));
    TakenStatement(cfg, email, password, oracle(0));
    StepRuns(cfg, s, p, oracle, 0);
    var met := After(cfg, s, oracle(0).env);
    LowerOfNormal(email);
    NobodyIsTaken(met.db.users, Normalize(email));
    TakenIsLeftAlone(cfg, met, oracle(0).id, Normalize(email), Argon2id(cfg.cost, oracle(0).salt, password));
    DriveDone(cfg, oracle);
  }

  lemma NoEvents(cfg: Config, s: Store)
    ensures After(cfg, s, []) == s
  {
  }

  /** What is left of a valid run keeps the accounts. */
  lemma RunGrows(cfg: Config, s: Store, p: Proc, oracle: nat -> Choice, k: nat, user: Id)
    requires Inv(cfg, s) && ValidDrive(cfg, s, p, oracle, k) && !p.Done? && user in s.db.users
    ensures user in After(cfg, s, oracle(k).env).db.users
  {
    StepOk(cfg, s, p, oracle, k);
  }

  // ---- invitation ----

  lemma InviteStatement(cfg: Config, email: string, ch: Choice)
    requires PlausibleAddress(Normalize(email))
    ensures var p := Begin(cfg, Invite(email));
            && !p.Done? && Request(cfg, p, ch) == Some(InsertInvitee(ch.id, Normalize(email)))
            && (forall user :: Resume(cfg, p, RowId(user), ch) == InviteToken(user))
            && Resume(cfg, p, NoRows, ch) == InviteFind(Normalize(email))
  {
    hide Normalize;
  }

  lemma FindStatement(cfg: Config, email: string, ch: Choice)
    ensures Request(cfg, InviteFind(email), ch) == Some(UserIdByEmail(email))
    ensures forall user :: Resume(cfg, InviteFind(email), RowId(user), ch) == InviteToken(user)
    ensures !InviteFind(email).Done?
  {
  }

  lemma InsertInviteeEffect(cfg: Config, s: Store, user: Id, email: string)
    requires user !in s.db.users
    ensures var st := InsertInvitee(user, email); var t := Next(cfg, s, Run(st)).db;
            if AddressTaken(s.db.users, Lower(email)) then Answer(cfg, s.db, st) == NoRows && t == s.db
            else Answer(cfg, s.db, st) == RowId(user)
                 && t == s.db.(users := s.db.users[user := User(email, None, false, false)])
  {
    hide Lower;
  }

  /** Inviting an address where no account lives makes one there without a password; the link returned
      stands for it for seven days. */
  lemma InvitationMakesAnAccount(cfg: Config, s: Store, email: string, oracle: nat -> Choice)
    requires Inv(cfg, s) && ValidDrive(cfg, s, Begin(cfg, Invite(email)), oracle, 0) && Unhindered(oracle)
    requires PlausibleAddress(Normalize(email))
    requires var met := After(cfg, s, oracle(0).env).db;
             oracle(0).id !in met.users && NobodyAt(met.users, Normalize(email))
    ensures var user := oracle(0).id; var end := Drive(cfg, s, Begin(cfg, Invite(email)), oracle, 0);
            && Inv(cfg, end.0) && end.1 == Ok(Secret(oracle(1).token)) && user in end.0.db.users
            && Stands(end.0, oracle(1).token, user, ForInvite, end.0.db.now + 7 * 24 * 60 * MINUTE)
  {
    hide *;
    var p := Begin(cfg, Invite(email));
    NoFault(oracle, 0);
    InviteStatement(cfg, email, oracle(0));
    StepRuns(cfg, s, p, oracle, 0);
    var met := After(cfg, s, oracle(0).env);
    var user := oracle(0).id;
    LowerOfNormal(email);
    NobodyIsTaken(met.db.users, Normalize(email));
    InsertInviteeEffect(cfg, met, user, Normalize(email));
    var t := Next(cfg, met, Run(InsertInvitee(user, Normalize(email))));
    assert user in t.db.users;
    LinkKinds(user, oracle(1).token);
    LinkIsStored(cfg, t, InviteToken(user), oracle, 1, user, ForInvite, 7 * 24 * 60 * MINUTE);
    RunGrows(cfg, t, InviteToken(user), oracle, 1, user);
  }

  /** Inviting an address again, while its account lives there, gives a fresh link for that account. */
  lemma InvitationIsRenewed(cfg: Config, s: Store, email: string, oracle: nat -> Choice, user: Id)
    requires Inv(cfg, s) && ValidDrive(cfg, s, Begin(cfg, Invite(email)), oracle, 0) && Unhindered(oracle)
    requires PlausibleAddress(Normalize(email))
    requires var met := After(cfg, s, oracle(0).env).db;
             var found := After(cfg, After(cfg, s, oracle(0).env), oracle(1).env).db;
             && oracle(0).id !in met.users && !NobodyAt(met.users, Normalize(email))
             && user in found.users && LiveAddress(found.users[user], Normalize(email))
    ensures var end := Drive(cfg, s, Begin(cfg, Invite(email)), oracle, 0);
            && Inv(cfg, end.0) && end.1 == Ok(Secret(oracle(2).token))
            && Stands(end.0, oracle(2).token, user, ForInvite, end.0.db.now + 7 * 24 * 60 * MINUTE)
  {
    hide *;
    var p := Begin(cfg, Invite(email));
    NoFault(oracle, 0);
    NoFault(oracle, 1);
    InviteStatement(cfg, email, oracle(0));
    StepRuns(cfg, s, p, oracle, 0);
    var met := After(cfg, s, oracle(0).env);
    LowerOfNormal(email);
    NobodyIsTaken(met.db.users, Normalize(email));
    InsertInviteeEffect(cfg, met, oracle(0).id, Normalize(email));
    RefusedInsertIsSilent(cfg, met, oracle(0).id, Normalize(email));
    var q := InviteFind(Normalize(email));
    FindStatement(cfg, Normalize(email), oracle(1));
    StepRuns(cfg, met, q, oracle, 1);
    var found := After(cfg, met, oracle(1).env);
    UsersOfInv(cfg, found);
    AddressAnswers(cfg, found, Normalize(email), user);
    var ev := Run(UserIdByEmail(Normalize(email)));
    UserStays(cfg, found, ev, user);
    LinkKinds(user, oracle(2).token);
    LinkIsStored(cfg, Next(cfg, found, ev), InviteToken(user), oracle, 2, user, ForInvite, 7 * 24 * 60 * MINUTE);
  }

  lemma RefusedInsertIsSilent(cfg: Config, s: Store, user: Id, email: string)
    requires user !in s.db.users && AddressTaken(s.db.users, Lower(email))
    ensures Next(cfg, s, Run(InsertInvitee(user, email))) == s
  {
    hide Lower;
    assert s.minted + {} == s.minted && s.salts + {} == s.salts && s.principals + {} == s.principals;
  }

  // ---- round trips ----

  /** From RequestPasswordReset to whoever presents its link: ResetPassword redeems it, once and within
      fifteen minutes; at any other time, and to VerifyEmail and AcceptInvite, it is invalid. */
  lemma ResetLinkRoundTrip(cfg: Config, s: Store, email: string, asking: nat -> Choice, user: Id, evs: seq<Event>,
                           call: Call, redeeming: nat -> Choice)
    requires Inv(cfg, s) && ValidDrive(cfg, s, Begin(cfg, RequestPasswordReset(email)), asking, 0) && Unhindered(asking)
    requires var met := After(cfg, s, asking(0).env).db;
             user in met.users && LiveAddress(met.users[user], Normalize(email))
    requires Unhindered(redeeming) && Presents(cfg, call, asking(1).token)
    requires var asked := Drive(cfg, s, Begin(cfg, RequestPasswordReset(email)), asking, 0).0;
             ValidRun(cfg, asked, evs) && ValidRun(cfg, After(cfg, asked, evs), redeeming(0).env)
    ensures var asked := Drive(cfg, s, Begin(cfg, RequestPasswordReset(email)), asking, 0);
            var later := After(cfg, asked.0, evs);
            var met := After(cfg, later, redeeming(0).env).db;
            && asked.1 == Ok(Nil)
            && Drive(cfg, later, Begin(cfg, call), redeeming, 0).1
               == if call.ResetPassword? && Unspent(met, asking(1).token) && met.now < asked.0.db.now + 15 * MINUTE
                  then Ok(Nil) else Err(InvalidToken)
  {
    hide Inv, Drive, Begin, Presents, ValidRun, ValidDrive, Stands, After, LiveAddress, Unspent, Normalize;
    ResetLinkIsGiven(cfg, s, email, asking, user);
    var asked := Drive(cfg, s, Begin(cfg, RequestPasswordReset(email)), asking, 0).0;
    StandingLink(cfg, asked, asking(1).token, user, ForReset, asked.db.now + 15 * MINUTE, evs, call, redeeming);
  }

  /** From Register to VerifyEmail, within a day. */
  lemma VerifyLinkRoundTrip(cfg: Config, s: Store, email: string, password: string, asking: nat -> Choice,
                            evs: seq<Event>,
                            call: Call, redeeming: nat -> Choice)
    requires Inv(cfg, s) && ValidDrive(cfg, s, Begin(cfg, Register(email, password)), asking, 0) && Unhindered(asking)
    requires PlausibleAddress(Normalize(email)) && cfg.shape(password)
    requires var met := After(cfg, s, asking(0).env).db;
             asking(0).id !in met.users && NobodyAt(met.users, Normalize(email))
    requires Unhindered(redeeming) && Presents(cfg, call, asking(1).token)
    requires var asked := Drive(cfg, s, Begin(cfg, Register(email, password)), asking, 0).0;
             ValidRun(cfg, asked, evs) && ValidRun(cfg, After(cfg, asked, evs), redeeming(0).env)
    ensures var asked := Drive(cfg, s, Begin(cfg, Register(email, password)), asking, 0);
            var later := After(cfg, asked.0, evs);
            var met := After(cfg, later, redeeming(0).env).db;
            && asked.1 == Ok(Nil)
            && Drive(cfg, later, Begin(cfg, call), redeeming, 0).1
               == if call.VerifyEmail? && Unspent(met, asking(1).token) && met.now < asked.0.db.now + 24 * 60 * MINUTE
                  then Ok(Nil) else Err(InvalidToken)
  {
    hide Inv, Drive, Begin, Presents, ValidRun, ValidDrive, Stands, After, NobodyAt, Unspent, Normalize,
      PlausibleAddress;
    RegistrationMakesAnAccount(cfg, s, email, password, asking);
    var asked := Drive(cfg, s, Begin(cfg, Register(email, password)), asking, 0).0;
    StandingLink(cfg, asked, asking(1).token, asking(0).id, ForVerify, asked.db.now + 24 * 60 * MINUTE, evs, call,
                 redeeming);
  }

  /** From Invite to AcceptInvite, within seven days, through the link Invite returned. */
  lemma InviteLinkRoundTrip(cfg: Config, s: Store, email: string, asking: nat -> Choice, evs: seq<Event>, call: Call,
                            redeeming: nat -> Choice)
    requires Inv(cfg, s) && ValidDrive(cfg, s, Begin(cfg, Invite(email)), asking, 0) && Unhindered(asking)
    requires PlausibleAddress(Normalize(email))
    requires var met := After(cfg, s, asking(0).env).db;
             asking(0).id !in met.users && NobodyAt(met.users, Normalize(email))
    requires Unhindered(redeeming) && Presents(cfg, call, asking(1).token)
    requires var asked := Drive(cfg, s, Begin(cfg, Invite(email)), asking, 0).0;
             ValidRun(cfg, asked, evs) && ValidRun(cfg, After(cfg, asked, evs), redeeming(0).env)
    ensures var asked := Drive(cfg, s, Begin(cfg, Invite(email)), asking, 0); var later := After(cfg, asked.0, evs);
            var met := After(cfg, later, redeeming(0).env).db;
            && asked.1 == Ok(Secret(asking(1).token))
            && Drive(cfg, later, Begin(cfg, call), redeeming, 0).1
               == if call.AcceptInvite? && Unspent(met, asking(1).token)
                     && met.now < asked.0.db.now + 7 * 24 * 60 * MINUTE
                  then Ok(Nil) else Err(InvalidToken)
  {
    hide Inv, Drive, Begin, Presents, ValidRun, ValidDrive, Stands, After, NobodyAt, Unspent, Normalize,
      PlausibleAddress;
    InvitationMakesAnAccount(cfg, s, email, asking);
    var asked := Drive(cfg, s, Begin(cfg, Invite(email)), asking, 0).0;
    StandingLink(cfg, asked, asking(1).token, asking(0).id, ForInvite, asked.db.now + 7 * 24 * 60 * MINUTE, evs, call,
                 redeeming);
  }

  // ---- what redeeming a link does ----

  /** A call that has the database to itself. */
  ghost predicate Alone(oracle: nat -> Choice) {
    forall k: nat :: oracle(k).env == [] && !oracle(k).fault && !oracle(k).busy
  }

  lemma GoesAlone(cfg: Config, s: Store, p: Proc, st: Stmt, oracle: nat -> Choice, k: nat)
    requires !p.Done? && Alone(oracle) && Request(cfg, p, oracle(k)) == Some(st)
    ensures Drive(cfg, s, p, oracle, k)
            == Drive(cfg, Next(cfg, s, Run(st)), Resume(cfg, p, Answer(cfg, s.db, st), oracle(k)), oracle, k + 1)
  {
    hide Drive, Resume, Request, Next, Answer;
    NotBusy(oracle, k);
    DriveRuns(cfg, s, p, st, oracle, k);
    NoEvents(cfg, s);
  }

  lemma SetPasswordEffect(cfg: Config, s: Store, hash: Encoded, user: Id)
    requires user in s.db.users
    ensures Answer(cfg, s.db, SetPassword(hash, user)) == Affected(1)
    ensures Next(cfg, s, Run(SetPassword(hash, user))).db
            == s.db.(users := s.db.users[user := s.db.users[user].(hash := Some(hash))])
  {
  }

  lemma ConsumeEffect(cfg: Config, s: Store, token: string, user: Id, purpose: Purpose, expires: int)
    requires Stands(s, token, user, purpose, expires) && s.db.now < expires
    ensures Answer(cfg, s.db, ConsumeToken(token, purpose)) == RowId(user)
    ensures var t := Next(cfg, s, Run(ConsumeToken(token, purpose))).db; t == s.db.(tokens := t.tokens)
  {
  }

  lemma MarkEffect(cfg: Config, s: Store, user: Id)
    requires user in s.db.users
    ensures Answer(cfg, s.db, MarkVerified(user)) == Affected(1)
    ensures Next(cfg, s, Run(MarkVerified(user))).db
            == s.db.(users := s.db.users[user := s.db.users[user].(verified := true)])
  {
  }

  lemma VerifyStatement(cfg: Config, token: string, user: Id, ch: Choice)
    ensures var p := Begin(cfg, VerifyEmail(token));
            && !p.Done? && Request(cfg, p, ch) == Some(ConsumeToken(token, ForVerify))
            && Resume(cfg, p, RowId(user), ch) == VerifyMark(user)
    ensures var p := VerifyMark(user);
            && !p.Done? && Request(cfg, p, ch) == Some(MarkVerified(user))
            && Resume(cfg, p, Affected(1), ch) == Done(Ok(Nil))
  {
  }

  /** VerifyEmail with a good link verifies the account and changes nothing else but the link. */
  lemma VerifyEmailTakes(cfg: Config, s: Store, token: string, user: Id, expires: int, oracle: nat -> Choice)
    requires Alone(oracle) && Stands(s, token, user, ForVerify, expires) && s.db.now < expires && user in s.db.users
    ensures var end := Drive(cfg, s, Begin(cfg, VerifyEmail(token)), oracle, 0);
            && end.1 == Ok(Nil)
            && end.0.db == s.db.(tokens := end.0.db.tokens,
                                 users := s.db.users[user := s.db.users[user].(verified := true)])
  {
    hide *;
    VerifyStatement(cfg, token, user, oracle(0));
    VerifyStatement(cfg, token, user, oracle(1));
    ConsumeEffect(cfg, s, token, user, ForVerify, expires);
    GoesAlone(cfg, s, Begin(cfg, VerifyEmail(token)), ConsumeToken(token, ForVerify), oracle, 0);
    var t := Next(cfg, s, Run(ConsumeToken(token, ForVerify)));
    MarkEffect(cfg, t, user);
    GoesAlone(cfg, t, VerifyMark(user), MarkVerified(user), oracle, 1);
    DriveDone(cfg, oracle);
  }

  lemma AcceptBegins(cfg: Config, token: string, password: string, user: Id, ch: Choice)
    requires cfg.shape(password)
    ensures var p := Begin(cfg, AcceptInvite(token, password));
            && !p.Done? && Request(cfg, p, ch) == Some(ConsumeToken(token, ForInvite))
            && Resume(cfg, p, RowId(user), ch) == AcceptWrite(user, password)
  {
  }

  lemma AcceptWrites(cfg: Config, password: string, user: Id, ch: Choice)
    requires !ch.busy
    ensures var p := AcceptWrite(user, password);
            && !p.Done? && Request(cfg, p, ch) == Some(SetPassword(Argon2id(cfg.cost, ch.salt, password), user))
            && Resume(cfg, p, Affected(1), ch) == AcceptMark(user)
  {
  }

  lemma AcceptMarks(cfg: Config, user: Id, ch: Choice)
    ensures var p := AcceptMark(user);
            && !p.Done? && Request(cfg, p, ch) == Some(MarkVerified(user))
            && Resume(cfg, p, Affected(1), ch) == Done(Ok(Nil))
  {
  }

  lemma AcceptWriteTakes(cfg: Config, s: Store, password: string, user: Id, oracle: nat -> Choice)
    requires Alone(oracle) && user in s.db.users
    ensures var end := Drive(cfg, s, AcceptWrite(user, password), oracle, 1);
            var hash := Argon2id(cfg.cost, oracle(1).salt, password);
            && end.1 == Ok(Nil)
            && end.0.db == s.db.(users := s.db.users[user := s.db.users[user].(hash := Some(hash), verified := true)])
  {
    hide *;
    NotBusy(oracle, 1);
    AcceptWrites(cfg, password, user, oracle(1));
    AcceptMarks(cfg, user, oracle(2));
    var st := SetPassword(Argon2id(cfg.cost, oracle(1).salt, password), user);
    SetPasswordEffect(cfg, s, st.hash, user);
    GoesAlone(cfg, s, AcceptWrite(user, password), st, oracle, 1);
    var u := Next(cfg, s, Run(st));
    MarkEffect(cfg, u, user);
    GoesAlone(cfg, u, AcceptMark(user), MarkVerified(user), oracle, 2);
    DriveDone(cfg, oracle);
  }

  /** AcceptInvite with a good link gives the account this password and a verified address. */
  lemma AcceptInviteTakes(cfg: Config, s: Store, token: string, password: string, user: Id, expires: int,
                          oracle: nat -> Choice)
    requires Alone(oracle) && Stands(s, token, user, ForInvite, expires) && s.db.now < expires && user in s.db.users
    requires cfg.shape(password)
    ensures var end := Drive(cfg, s, Begin(cfg, AcceptInvite(token, password)), oracle, 0);
            var hash := Argon2id(cfg.cost, oracle(1).salt, password);
            && end.1 == Ok(Nil)
            && end.0.db == s.db.(tokens := end.0.db.tokens,
                                 users := s.db.users[user := s.db.users[user].(hash := Some(hash), verified := true)])
  {
    hide *;
    AcceptBegins(cfg, token, password, user, oracle(0));
    ConsumeEffect(cfg, s, token, user, ForInvite, expires);
    GoesAlone(cfg, s, Begin(cfg, AcceptInvite(token, password)), ConsumeToken(token, ForInvite), oracle, 0);
    AcceptWriteTakes(cfg, Next(cfg, s, Run(ConsumeToken(token, ForInvite))), password, user, oracle);
  }

  lemma NotBusy(oracle: nat -> Choice, k: nat)
    requires Alone(oracle)
    ensures !oracle(k).busy && !oracle(k).fault && oracle(k).env == []
  {
  }

  lemma ResetBegins(cfg: Config, token: string, password: string, user: Id, ch: Choice)
    requires cfg.shape(password)
    ensures var p := Begin(cfg, ResetPassword(token, password));
            && !p.Done? && Request(cfg, p, ch) == Some(ConsumeToken(token, ForReset))
            && Resume(cfg, p, RowId(user), ch) == ResetWrite(user, password)
  {
  }

  lemma ResetWrites(cfg: Config, password: string, user: Id, ch: Choice)
    requires !ch.busy
    ensures var p := ResetWrite(user, password);
            && !p.Done? && Request(cfg, p, ch) == Some(SetPassword(Argon2id(cfg.cost, ch.salt, password), user))
            && Resume(cfg, p, Affected(1), ch) == ResetRevoke(user)
  {
  }

  lemma ResetRevokes(cfg: Config, user: Id, r: Reply, ch: Choice)
    ensures var p := ResetRevoke(user);
            && !p.Done? && Request(cfg, p, ch) == Some(RevokeAll(user))
            && (r.Affected? ==> Resume(cfg, p, r, ch) == ResetMail(user))
  {
  }

  lemma ResetMails(cfg: Config, user: Id, r: Reply, ch: Choice)
    ensures var p := ResetMail(user);
            && !p.Done? && Request(cfg, p, ch) == Some(EmailById(user)) && Resume(cfg, p, r, ch) == Done(Ok(Nil))
  {
  }

  lemma RevokeAllClears(cfg: Config, s: Store, user: Id)
    ensures Answer(cfg, s.db, RevokeAll(user)).Affected?
    ensures var t := Next(cfg, s, Run(RevokeAll(user))).db;
            && t == s.db.(sessions := t.sessions)
            && forall sid :: Survivors.Owns(t, sid, user) ==> t.sessions[sid].revokedAt.Some?
  {
  }

  lemma EmailIsSilent(cfg: Config, s: Store, user: Id)
    ensures Next(cfg, s, Run(EmailById(user))) == s
  {
    assert s.minted + {} == s.minted && s.salts + {} == s.salts && s.principals + {} == s.principals;
  }

  lemma ResetRevokeTakes(cfg: Config, s: Store, user: Id, oracle: nat -> Choice)
    requires Alone(oracle)
    ensures var end := Drive(cfg, s, ResetRevoke(user), oracle, 2);
            && end.1 == Ok(Nil) && end.0.db == s.db.(sessions := end.0.db.sessions)
            && forall sid :: Survivors.Owns(end.0.db, sid, user) ==> end.0.db.sessions[sid].revokedAt.Some?
  {
    hide *;
    ResetRevokes(cfg, user, Answer(cfg, s.db, RevokeAll(user)), oracle(2));
    RevokeAllClears(cfg, s, user);
    GoesAlone(cfg, s, ResetRevoke(user), RevokeAll(user), oracle, 2);
    var v := Next(cfg, s, Run(RevokeAll(user)));
    ResetMails(cfg, user, Answer(cfg, v.db, EmailById(user)), oracle(3));
    EmailIsSilent(cfg, v, user);
    GoesAlone(cfg, v, ResetMail(user), EmailById(user), oracle, 3);
    DriveDone(cfg, oracle);
  }

  lemma ResetWriteTakes(cfg: Config, s: Store, password: string, user: Id, oracle: nat -> Choice)
    requires Alone(oracle) && user in s.db.users
    ensures var end := Drive(cfg, s, ResetWrite(user, password), oracle, 1);
            var hash := Argon2id(cfg.cost, oracle(1).salt, password);
            && end.1 == Ok(Nil)
            && end.0.db == s.db.(sessions := end.0.db.sessions,
                                 users := s.db.users[user := s.db.users[user].(hash := Some(hash))])
            && forall sid :: Survivors.Owns(end.0.db, sid, user) ==> end.0.db.sessions[sid].revokedAt.Some?
  {
    hide *;
    NotBusy(oracle, 1);
    ResetWrites(cfg, password, user, oracle(1));
    var st := SetPassword(Argon2id(cfg.cost, oracle(1).salt, password), user);
    SetPasswordEffect(cfg, s, st.hash, user);
    GoesAlone(cfg, s, ResetWrite(user, password), st, oracle, 1);
    ResetRevokeTakes(cfg, Next(cfg, s, Run(st)), user, oracle);
  }

  /** ResetPassword with a good link gives the account this password and revokes its sessions. */
  lemma ResetPasswordTakes(cfg: Config, s: Store, token: string, password: string, user: Id, expires: int,
                           oracle: nat -> Choice)
    requires Alone(oracle) && Stands(s, token, user, ForReset, expires) && s.db.now < expires && user in s.db.users
    requires cfg.shape(password)
    ensures var end := Drive(cfg, s, Begin(cfg, ResetPassword(token, password)), oracle, 0);
            var hash := Argon2id(cfg.cost, oracle(1).salt, password);
            && end.1 == Ok(Nil)
            && end.0.db == s.db.(tokens := end.0.db.tokens, sessions := end.0.db.sessions,
                                 users := s.db.users[user := s.db.users[user].(hash := Some(hash))])
            && forall sid :: Survivors.Owns(end.0.db, sid, user) ==> end.0.db.sessions[sid].revokedAt.Some?
  {
    hide *;
    ResetBegins(cfg, token, password, user, oracle(0));
    ConsumeEffect(cfg, s, token, user, ForReset, expires);
    GoesAlone(cfg, s, Begin(cfg, ResetPassword(token, password)), ConsumeToken(token, ForReset), oracle, 0);
    ResetWriteTakes(cfg, Next(cfg, s, Run(ConsumeToken(token, ForReset))), password, user, oracle);
  }

  // ---- a new account, start to finish ----

  lemma RegisteredIsEntitled(cfg: Config, db: DB, email: string, password: string, user: Id, salt: nat)
    requires user in db.users
    requires db.users[user] == User(Normalize(email), Some(Argon2id(cfg.cost, salt, password)), true, false)
    ensures Entitled(cfg, db, Normalize(email), password, user)
  {
    hide Normalize;
    LowerOfNormal(email);
  }

  lemma AloneIsKind(cfg: Config, s: Store, oracle: nat -> Choice, user: Id)
    requires Alone(oracle) && GoodConfig(cfg) && Free(s, oracle)
    ensures Kind(cfg, s, oracle, user) && Unhindered(oracle) && NobodyWrites(oracle, user)
    ensures forall email, ip :: NobodyFails(oracle, email, ip)
  {
  }

  /** Whoever registers a free address, redeems the link that was mailed and signs in with that password is
      let in, as the account just made. */
  lemma ANewAccountSignsIn(cfg: Config, s: Store, email: string, password: string, ip: string,
                           registering: nat -> Choice, verifying: nat -> Choice, signingIn: nat -> Choice)
    requires Inv(cfg, s) && GoodConfig(cfg) && PlausibleAddress(Normalize(email)) && cfg.shape(password)
    requires registering(0).id !in s.db.users && NobodyAt(s.db.users, Normalize(email))
    requires !Closed(s.db, Normalize(email), ip)
    requires Alone(registering) && Alone(verifying) && Alone(signingIn)
    requires ValidDrive(cfg, s, Begin(cfg, Register(email, password)), registering, 0)
    requires var one := Drive(cfg, s, Begin(cfg, Register(email, password)), registering, 0).0;
             var two := Drive(cfg, one, Begin(cfg, VerifyEmail(registering(1).token)), verifying, 0).0;
             && ValidDrive(cfg, one, Begin(cfg, VerifyEmail(registering(1).token)), verifying, 0)
             && Free(two, signingIn)
             && ValidDrive(cfg, two, Begin(cfg, Login(email, ip, password, None)), signingIn, 0)
    ensures var one := Drive(cfg, s, Begin(cfg, Register(email, password)), registering, 0);
            var two := Drive(cfg, one.0, Begin(cfg, VerifyEmail(registering(1).token)), verifying, 0);
            var three := Drive(cfg, two.0, Begin(cfg, Login(email, ip, password, None)), signingIn, 0);
            one.1 == Ok(Nil) && two.1 == Ok(Nil) && SignsInSomehow(three, registering(0).id)
  {
    hide *;
    var user := registering(0).id;
    NotBusy(registering, 0); NotBusy(registering, 1); NotBusy(signingIn, 0); NotBusy(signingIn, 1);
    AloneIsUnhindered(registering);
    NoEvents(cfg, s);
    RegistrationMakesAnAccount(cfg, s, email, password, registering);
    var one := Drive(cfg, s, Begin(cfg, Register(email, password)), registering, 0).0;
    var expires := one.db.now + 24 * 60 * MINUTE;
    DayIsLong();
    VerifyEmailTakes(cfg, one, registering(1).token, user, expires, verifying);
    var two := Drive(cfg, one, Begin(cfg, VerifyEmail(registering(1).token)), verifying, 0).0;
    DriveKeepsInv(cfg, one, Begin(cfg, VerifyEmail(registering(1).token)), verifying, 0);
    RegisteredIsEntitled(cfg, two.db, email, password, user, registering(0).salt);
    NoEvents(cfg, two);
    AloneIsKind(cfg, two, signingIn, user);
    SameWindows(s.db, two.db, Normalize(email), ip);
    EntitledLoginSignsIn(cfg, two, email, ip, password, None, signingIn, user);
  }

  lemma {:induction false} DriveKeepsInv(cfg: Config, s: Store, p: Proc, oracle: nat -> Choice, k: nat)
    requires Inv(cfg, s) && ValidDrive(cfg, s, p, oracle, k)
    ensures Inv(cfg, Drive(cfg, s, p, oracle, k).0)
    decreases Left(p)
  {
    hide Inv, Resume, Perform, After;
    if !p.Done? {
      StepOk(cfg, s, p, oracle, k);
      var (t, r) := Perform(cfg, After(cfg, s, oracle(k).env), p, oracle(k));
      ResumeProgresses(cfg, p, r, oracle(k));
      DriveKeepsInv(cfg, t, Resume(cfg, p, r, oracle(k)), oracle, k + 1);
    }
  }

  lemma AloneIsUnhindered(oracle: nat -> Choice)
    requires Alone(oracle)
    ensures Unhindered(oracle)
  {
  }

  lemma DayIsLong()
    ensures 24 * 60 * MINUTE > 0
  {
  }

  lemma SameWindows(a: DB, b: DB, email: string, ip: string)
    requires a.now == b.now && a.attempts == b.attempts
    ensures Closed(a, email, ip) <==> Closed(b, email, ip)
  {
    assert CounterRows(a, email, ip) == CounterRows(b, email, ip);
  }
}
