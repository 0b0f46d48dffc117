/** When Login succeeds: exactly for an open window and an entitled account, where nothing fails and the
    other callers leave the account and the new session alone. */
module LoginCompletes {
  import opened Prelude
  import opened Passwords
  import opened Tables
  import opened Text
  import opened Sql
  import opened Invariants
  import opened SessionTheorems
  import opened Backoff
  import opened Programs
  import opened BackoffTheorems
  import opened LoginTheorems

  // ---- helpful circumstances ----

  /** Some step of the call draws this session id. */
  ghost predicate Draws(oracle: nat -> Choice, sid: Id) {
    exists k :: oracle(k).id == sid
  }

  /** What others do leaves the account in place, and the session the call will issue. */
  ghost predicate Spares(ev: Event, user: Id, oracle: nat -> Choice) {
    match ev
    case SoftDelete(u) => u != user
    case Run(st) =>
      && st != RevokeAll(user)
      && (st.Issue? || st.Revoke? || st.Rotate? ==> !Draws(oracle, st.sid))
    case _ => true
  }

  /** No fault, a free hasher, fresh ids, and others that spare the account and never hold the call up for
      a whole idle timeout. */
  ghost predicate Kind(cfg: Config, s: Store, oracle: nat -> Choice, user: Id) {
    forall k: nat ::
      && !oracle(k).fault && !oracle(k).busy && oracle(k).id !in s.db.sessions && Ticks(oracle(k).env) < cfg.idle
      && forall i :: 0 <= i < |oracle(k).env| ==> Spares(oracle(k).env[i], user, oracle)
  }

  /** The ids the call may draw are free. */
  ghost predicate Free(s: Store, oracle: nat -> Choice) {
    forall k: nat :: oracle(k).id !in s.db.sessions
  }

  /** And the account can sign in. */
  ghost predicate Ready(s: Store, user: Id, oracle: nat -> Choice) {
    user in s.db.users && !s.db.users[user].deleted && Free(s, oracle)
  }

  lemma NextKeepsFree(cfg: Config, s: Store, ev: Event, oracle: nat -> Choice)
    requires Free(s, oracle) && (ev.Run? && ev.stmt.Issue? ==> !Draws(oracle, ev.stmt.sid))
    ensures Free(Next(cfg, s, ev), oracle)
  {
    hide Answer, UsersAfter, SessionsAfter, TokensAfter, AttemptsAfter, VaultsAfter;
    if ev.Run? {
      forall k: nat
        ensures oracle(k).id !in SessionsAfter(cfg, s.db, ev.stmt)
      {
        if oracle(k).id in SessionsAfter(cfg, s.db, ev.stmt) {
          RowIssued(cfg, s.db, ev.stmt, oracle(k).id);
        }
      }
    }
  }

  lemma NextKeepsReady(cfg: Config, s: Store, ev: Event, user: Id, oracle: nat -> Choice)
    requires Ready(s, user, oracle) && ev != SoftDelete(user)
    requires ev.Run? && ev.stmt.Issue? ==> !Draws(oracle, ev.stmt.sid)
    ensures Ready(Next(cfg, s, ev), user, oracle)
  {
    hide Answer, UsersAfter, SessionsAfter, TokensAfter, AttemptsAfter, VaultsAfter, Free;
    NextKeepsFree(cfg, s, ev, oracle);
    if ev.Run? {
      AccountMoves(s.db, ev.stmt, user);
    }
  }

  lemma {:induction false} RunKeepsReady(cfg: Config, s: Store, evs: seq<Event>, user: Id, oracle: nat -> Choice)
    requires Free(s, oracle) && forall i :: 0 <= i < |evs| ==> Spares(evs[i], user, oracle)
    ensures Free(After(cfg, s, evs), oracle) && (Ready(s, user, oracle) ==> Ready(After(cfg, s, evs), user, oracle))
    decreases |evs|
  {
    hide Next, Free;
    if evs != [] {
      assert Spares(evs[0], user, oracle);
      NextKeepsFree(cfg, s, evs[0], oracle);
      if Ready(s, user, oracle) {
        NextKeepsReady(cfg, s, evs[0], user, oracle);
      }
      RunKeepsReady(cfg, Next(cfg, s, evs[0]), evs[1..], user, oracle);
    }
  }

  // ---- one step under helpful circumstances ----

  /** A step whose statement runs. */
  lemma StepRuns(cfg: Config, s: Store, p: Proc, oracle: nat -> Choice, k: nat)
    requires Inv(cfg, s) && ValidDrive(cfg, s, p, oracle, k) && !p.Done?
    requires !oracle(k).fault && Request(cfg, p, oracle(k)).Some?
    ensures var now := After(cfg, s, oracle(k).env); var st := Request(cfg, p, oracle(k)).value;
            var t := Next(cfg, now, Run(st)); var q := Resume(cfg, p, Answer(cfg, now.db, st), oracle(k));
            && Inv(cfg, now) && Inv(cfg, t) && ValidRun(cfg, s, oracle(k).env) && Enabled(now, Run(st)) && Grows(s, now)
            && Drive(cfg, s, p, oracle, k) == Drive(cfg, t, q, oracle, k + 1) && ValidDrive(cfg, t, q, oracle, k + 1)
  {
    hide Resume, Request, Answer, Next, After, ValidRun, Inv, Enabled, Drive;
    StepOk(cfg, s, p, oracle, k);
    DriveOnce(cfg, s, p, oracle, k);
  }

  lemma MetIsReady(cfg: Config, s: Store, start: Store, oracle: nat -> Choice, k: nat, user: Id)
    requires Kind(cfg, start, oracle, user) && Free(s, oracle)
    ensures !oracle(k).fault && !oracle(k).busy && Free(After(cfg, s, oracle(k).env), oracle)
    ensures Ready(s, user, oracle) ==> Ready(After(cfg, s, oracle(k).env), user, oracle)
  {
    hide Spares, Free;
    RunKeepsReady(cfg, s, oracle(k).env, user, oracle);
  }

  // ---- from the last step back ----

  /** Signed in as `user`, on a session its new token resolves to. */
  ghost predicate SignedIn(end: (Store, Result<Value>), user: Id, token: string) {
    && end.1.Ok? && end.1.value.Caller? && end.1.value.principal.user == user
    && Resolves(end.0.db, token, end.1.value.principal.session)
  }

  lemma ResolvedIsAnswered(cfg: Config, s: Store, token: string, sid: Id)
    requires SessionsOk(cfg, s) && Resolves(s.db, token, sid)
    ensures Answer(cfg, s.db, Lookup(token)) == RowPrincipal(PrincipalOf(s.db, sid))
  {
    hide PrincipalOf, SessionRowOk;
  }

  lemma LookupResolves(cfg: Config, s: Store, token: string, sid: Id, user: Id)
    requires Inv(cfg, s) && ResolvesFor(s.db, token, sid, user, 0)
    ensures Resolves(Next(cfg, s, Run(Lookup(token))).db, token, sid)
  {
    hide Next, Inv;
    var ev := Run(Lookup(token));
    assert [ev][1..] == [];
    NextResolves(cfg, s, ev, token, sid, user, 0);
  }

  lemma SparedIsLeftAlone(evs: seq<Event>, user: Id, oracle: nat -> Choice, sid: Id)
    requires Draws(oracle, sid) && forall i :: 0 <= i < |evs| ==> Spares(evs[i], user, oracle)
    ensures forall i :: 0 <= i < |evs| ==> LeavesAlone(evs[i], sid, user)
  {
    hide Draws;
    forall i | 0 <= i < |evs|
      ensures LeavesAlone(evs[i], sid, user)
    {
      assert Spares(evs[i], user, oracle);
    }
  }

  lemma LookupSignsIn(cfg: Config, s: Store, start: Store, token: string, sid: Id, user: Id, oracle: nat -> Choice,
                      k: nat)
    requires Inv(cfg, s) && ValidDrive(cfg, s, LoginLookup(token), oracle, k) && Kind(cfg, start, oracle, user)
    requires Draws(oracle, sid) && ResolvesFor(s.db, token, sid, user, Ticks(oracle(k).env))
    ensures SignedIn(Drive(cfg, s, LoginLookup(token), oracle, k), user, token)
  {
    SparedIsLeftAlone(oracle(k).env, user, oracle, sid);
    assert !oracle(k).fault;
    hide Next, Inv, Answer, Drive, Resolves, PrincipalOf, Draws, LeavesAlone, Kind;
    StepRuns(cfg, s, LoginLookup(token), oracle, k);
    var now := After(cfg, s, oracle(k).env);
    LeftAloneItResolves(cfg, s, oracle(k).env, token, sid, user);
    assert SessionsOk(cfg, now) by { SessionsOfInv(cfg, now); }
    ResolvedIsAnswered(cfg, now, token, sid);
    LookupResolves(cfg, now, token, sid, user);
    DriveDone(cfg, oracle);
    PrincipalNames(now.db, sid);
  }

  lemma SessionsOfInv(cfg: Config, s: Store)
    requires Inv(cfg, s)
    ensures SessionsOk(cfg, s)
  {
  }

  lemma PrincipalNames(db: DB, sid: Id)
    requires sid in db.sessions && db.sessions[sid].user in db.users
    ensures PrincipalOf(db, sid).session == sid && PrincipalOf(db, sid).user == db.sessions[sid].user
  {
  }

  lemma IssuedResolves(cfg: Config, s: Store, sid: Id, token: string, user: Id, left: int)
    requires SessionsOk(cfg, s) && GoodConfig(cfg) && token !in s.minted && sid !in s.db.sessions
    requires user in s.db.users && !s.db.users[user].deleted && 0 <= left < cfg.idle
    ensures Answer(cfg, s.db, Issue(sid, token, user)) == RowId(sid)
    ensures ResolvesFor(Next(cfg, s, Run(Issue(sid, token, user))).db, token, sid, user, left)
  {
    assert CanIssue(s.db, sid, token, user);
  }

  lemma IssueSignsIn(cfg: Config, s: Store, start: Store, user: Id, oracle: nat -> Choice, k: nat)
    requires Inv(cfg, s) && ValidDrive(cfg, s, LoginIssue(user), oracle, k)
    requires GoodConfig(cfg) && Kind(cfg, start, oracle, user) && Ready(s, user, oracle)
    ensures SignedIn(Drive(cfg, s, LoginIssue(user), oracle, k), user, oracle(k).token)
  {
    MetIsReady(cfg, s, start, oracle, k, user);
    assert Draws(oracle, oracle(k).id) && 0 <= Ticks(oracle(k + 1).env) < cfg.idle;
    hide Next, Inv, Answer, Drive, ResolvesFor, SignedIn, Draws, Kind;
    var now := After(cfg, s, oracle(k).env);
    StepRuns(cfg, s, LoginIssue(user), oracle, k);
    assert SessionsOk(cfg, now) by { SessionsOfInv(cfg, now); }
    IssuedResolves(cfg, now, oracle(k).id, oracle(k).token, user, Ticks(oracle(k + 1).env));
    LookupSignsIn(cfg, Next(cfg, now, Run(Issue(oracle(k).id, oracle(k).token, user))), start, oracle(k).token,
                  oracle(k).id, user, oracle, k + 1);
  }

  lemma RevokeAnswers(cfg: Config, s: Store, sid: Id)
    ensures Answer(cfg, s.db, Revoke(sid)).Affected?
  {
  }

  /** What is drawn is free, so the session a request arrived with is not it. */
  lemma NotDrawn(s: Store, user: Id, oracle: nat -> Choice, sid: Id)
    requires Ready(s, user, oracle) && sid in s.db.sessions
    ensures !Draws(oracle, sid)
  {
  }

  lemma RevokeSignsIn(cfg: Config, s: Store, start: Store, user: Id, arrived: Principal, oracle: nat -> Choice, k: nat)
    requires Inv(cfg, s) && ValidDrive(cfg, s, LoginRevoke(user, arrived), oracle, k)
    requires GoodConfig(cfg) && Kind(cfg, start, oracle, user) && Ready(s, user, oracle)
    ensures SignedIn(Drive(cfg, s, LoginRevoke(user, arrived), oracle, k), user, oracle(k + 1).token)
  {
    MetIsReady(cfg, s, start, oracle, k, user);
    hide Next, Inv, Answer, Drive, SignedIn, Draws, Kind, Ready;
    var now := After(cfg, s, oracle(k).env);
    StepRuns(cfg, s, LoginRevoke(user, arrived), oracle, k);
    RevokeAnswers(cfg, now, arrived.session);
    NextKeepsReady(cfg, now, Run(Revoke(arrived.session)), user, oracle);
    IssueSignsIn(cfg, Next(cfg, now, Run(Revoke(arrived.session))), start, user, oracle, k + 1);
  }

  /** The step of a Login at which its session is issued, from the reset of the counters on. */
  function IssueAt(caller: Option<Principal>, k: nat): nat {
    if caller.Some? then k + 2 else k + 1
  }

  lemma ResetSignsIn(cfg: Config, s: Store, start: Store, p: Proc, oracle: nat -> Choice, k: nat)
    requires p.LoginReset? && Inv(cfg, s) && ValidDrive(cfg, s, p, oracle, k)
    requires GoodConfig(cfg) && Kind(cfg, start, oracle, p.user) && Ready(s, p.user, oracle)
    ensures SignedIn(Drive(cfg, s, p, oracle, k), p.user, oracle(IssueAt(p.caller, k)).token)
  {
    MetIsReady(cfg, s, start, oracle, k, p.user);
    hide Next, Inv, Answer, Drive, SignedIn, Draws, Kind, Ready;
    var now := After(cfg, s, oracle(k).env);
    var ev := Run(ResetAttempts(p.email, p.ip));
    StepRuns(cfg, s, p, oracle, k);
    NextKeepsReady(cfg, now, ev, p.user, oracle);
    if p.caller.Some? {
      RevokeSignsIn(cfg, Next(cfg, now, ev), start, p.user, p.caller.value, oracle, k + 1);
    } else {
      IssueSignsIn(cfg, Next(cfg, now, ev), start, p.user, oracle, k + 1);
    }
  }

  lemma RehashSignsIn(cfg: Config, s: Store, start: Store, p: Proc, oracle: nat -> Choice, k: nat)
    requires p.LoginRehash? && Inv(cfg, s) && ValidDrive(cfg, s, p, oracle, k)
    requires GoodConfig(cfg) && Kind(cfg, start, oracle, p.user) && Ready(s, p.user, oracle)
    ensures SignedIn(Drive(cfg, s, p, oracle, k), p.user, oracle(IssueAt(p.caller, k + 1)).token)
  {
    MetIsReady(cfg, s, start, oracle, k, p.user);
    hide Next, Inv, Answer, Drive, SignedIn, Draws, Kind, Ready;
    var now := After(cfg, s, oracle(k).env);
    StepRuns(cfg, s, p, oracle, k);
    var ev := Run(Request(cfg, p, oracle(k)).value);
    NextKeepsReady(cfg, now, ev, p.user, oracle);
    ResetSignsIn(cfg, Next(cfg, now, ev), start, LoginReset(p.user, p.email, p.ip, p.caller), oracle, k + 1);
  }

  /** The one account entitled at the read is the one the read finds, and the call goes on for it. */
  lemma EntitledGoesOn(cfg: Config, s: Store, p: Proc, ch: Choice, user: Id)
    requires UsersOk(s) && p.LoginRead? && !ch.busy && Entitled(cfg, s.db, p.email, p.password, user)
    ensures var q := Resume(cfg, p, Answer(cfg, s.db, LoginSelect(p.email)), ch);
            || q == LoginReset(user, p.email, p.ip, p.caller)
            || (s.db.users[user].hash.Some?
                && q == LoginRehash(user, p.email, p.ip, p.password, s.db.users[user].hash.value, p.caller))
  {
    hide Lower;
  }

  ghost predicate SignsInSomehow(end: (Store, Result<Value>), user: Id) {
    exists token :: SignedIn(end, user, token)
  }

  lemma ReadSignsIn(cfg: Config, s: Store, start: Store, p: Proc, oracle: nat -> Choice, k: nat, user: Id)
    requires p.LoginRead? && Inv(cfg, s) && ValidDrive(cfg, s, p, oracle, k)
    requires GoodConfig(cfg) && Kind(cfg, start, oracle, user) && Free(s, oracle)
    requires Entitled(cfg, After(cfg, s, oracle(k).env).db, p.email, p.password, user)
    ensures SignsInSomehow(Drive(cfg, s, p, oracle, k), user)
  {
    MetIsReady(cfg, s, start, oracle, k, user);
    assert Ready(After(cfg, s, oracle(k).env), user, oracle);
    hide Next, SessionsOk, TokensOk, VaultsOk, PrincipalsOk, CountersOk, UsersOk, Answer, Drive, SignedIn, Draws, Kind,
      Ready, Entitled, Resume;
    var now := After(cfg, s, oracle(k).env);
    StepRuns(cfg, s, p, oracle, k);
    EntitledGoesOn(cfg, now, p, oracle(k), user);
    var ev := Run(LoginSelect(p.email));
    NextKeepsReady(cfg, now, ev, user, oracle);
    var t := Next(cfg, now, ev);
    var q := Resume(cfg, p, Answer(cfg, now.db, LoginSelect(p.email)), oracle(k));
    if q.LoginReset? {
      ResetSignsIn(cfg, t, start, q, oracle, k + 1);
    } else {
      RehashSignsIn(cfg, t, start, q, oracle, k + 1);
    }
  }

  lemma CheckDecides(cfg: Config, db: DB, p: Proc, ch: Choice)
    requires p.LoginCheck?
    ensures Resume(cfg, p, Answer(cfg, db, Attempts(p.email, p.ip)), ch)
            == if Closed(db, p.email, p.ip) then Done(Err(WindowOpen))
               else LoginRead(p.email, p.ip, p.password, p.caller)
  {
    hide DelayFor;
  }

  lemma ReadsAreSilent(cfg: Config, s: Store, email: string, ip: string)
    ensures Next(cfg, s, Run(Attempts(email, ip))) == s && Next(cfg, s, Run(LoginSelect(email))) == s
  {
    assert s.minted + {} == s.minted && s.salts + {} == s.salts && s.principals + {} == s.principals;
  }

  /** A Login that nothing hinders succeeds, as this account, exactly when no counter blocks at its check
      and the account is entitled at its read. Its new session then resolves. */
  lemma LoginSucceedsIff(cfg: Config, s: Store, email: string, ip: string, password: string, caller: Option<Principal>,
                         oracle: nat -> Choice, user: Id)
    requires Inv(cfg, s) && GoodConfig(cfg) && (caller.Some? ==> caller.value in s.principals)
    requires ValidDrive(cfg, s, Begin(cfg, Login(email, ip, password, caller)), oracle, 0) && Kind(cfg, s, oracle, user)
    ensures var check := After(cfg, s, oracle(0).env); var read := After(cfg, check, oracle(1).env);
            var end := Drive(cfg, s, Begin(cfg, Login(email, ip, password, caller)), oracle, 0);
            && (end.1.Ok? && end.1.value.Caller? && end.1.value.principal.user == user
                <==> !Closed(check.db, Normalize(email), ip)
                     && Entitled(cfg, read.db, Normalize(email), password, user))
            && (end.1.Ok? && end.1.value.Caller? && end.1.value.principal.user == user ==> SignsInSomehow(end, user))
  {
    var call := Login(email, ip, password, caller);
    var p := Begin(cfg, call);
    assert p == LoginCheck(Normalize(email), ip, password, caller);
    assert Free(s, oracle) && !oracle(0).fault && !oracle(1).fault;
    hide Normalize, Next, Inv, Answer, Drive, SignedIn, Draws, Kind, Entitled, Resume, Closed, Begin, Free, After;
    MetIsReady(cfg, s, s, oracle, 0, user);
    var check := After(cfg, s, oracle(0).env);
    StepRuns(cfg, s, p, oracle, 0);
    CheckDecides(cfg, check.db, p, oracle(0));
    ReadsAreSilent(cfg, check, p.email, p.ip);
    DriveDone(cfg, oracle);
    var admitted := LoginAdmitsTheAccount(cfg, s, email, ip, password, caller, oracle);
    if !Closed(check.db, p.email, ip) && Entitled(cfg, After(cfg, check, oracle(1).env).db, p.email, password, user) {
      ReadSignsIn(cfg, check, s, LoginRead(p.email, ip, password, caller), oracle, 1, user);
    }
    assert Perform(cfg, check, p, oracle(0)).0 == check;
  }

  // ---- what success leaves behind ----

  predicate Records(ev: Event, email: string, ip: string) {
    ev.Run? &&
    match ev.stmt
    case RecordBoth(e, i) => e == email || i == ip
    case RecordUser(e) => e == email
    case _ => false
  }

  /** Nobody else fails on the account or from the client meanwhile. */
  ghost predicate NobodyFails(oracle: nat -> Choice, email: string, ip: string) {
    forall k: nat :: forall i :: 0 <= i < |oracle(k).env| ==> !Records(oracle(k).env[i], email, ip)
  }

  predicate Forgotten(db: DB, email: string, ip: string) {
    (ByUser, email) !in db.attempts && (ByIP, ip) !in db.attempts
  }

  lemma {:induction false} RunKeepsForgotten(cfg: Config, s: Store, evs: seq<Event>, email: string, ip: string)
    requires Forgotten(s.db, email, ip) && forall i :: 0 <= i < |evs| ==> !Records(evs[i], email, ip)
    ensures Forgotten(After(cfg, s, evs).db, email, ip)
    decreases |evs|
  {
    hide Next, Forgotten, Records;
    if evs != [] {
      NextKeepsForgotten(cfg, s, evs[0], email, ip);
      RunKeepsForgotten(cfg, Next(cfg, s, evs[0]), evs[1..], email, ip);
    }
  }

  lemma NextKeepsForgotten(cfg: Config, s: Store, ev: Event, email: string, ip: string)
    requires Forgotten(s.db, email, ip) && !Records(ev, email, ip)
    ensures Forgotten(Next(cfg, s, ev).db, email, ip)
  {
  }

  /** A Login that may still succeed, with its counters standing. */
  predicate BeforeReset(p: Proc, email: string, ip: string) {
    (p.LoginCheck? || p.LoginRead? || p.LoginRehash? || p.LoginReset?) && p.email == email && p.ip == ip
  }

  predicate PastReset(p: Proc) {
    p.LoginRevoke? || p.LoginIssue? || p.LoginLookup? || p.Done?
  }

  predicate Fails(p: Proc) {
    p.LoginFail? || (p.Done? && p.result.Err?)
  }

  lemma MovesForward(cfg: Config, p: Proc, r: Reply, ch: Choice, email: string, ip: string)
    ensures var q := Resume(cfg, p, r, ch);
            && (BeforeReset(p, email, ip) && !p.LoginReset? ==> BeforeReset(q, email, ip) || Fails(q))
            && (p.LoginReset? || PastReset(p) ==> PastReset(q)) && (Fails(p) ==> Fails(q))
  {
    hide Verify, Blocks;
  }

  /** The statement of a step past the reset records nothing, and that of the reset forgets. */
  lemma StepForgets(cfg: Config, s: Store, p: Proc, ch: Choice, email: string, ip: string)
    requires !ch.fault && !p.Done?
    requires (p.LoginReset? && p.email == email && p.ip == ip) || (PastReset(p) && Forgotten(s.db, email, ip))
    ensures Forgotten(Perform(cfg, s, p, ch).0.db, email, ip)
  {
  }

  /** A Login that succeeds leaves neither counter, unless somebody else fails in between. */
  lemma {:induction false} SuccessClearsCounters(cfg: Config, s: Store, p: Proc, oracle: nat -> Choice, k: nat,
                                                 email: string, ip: string)
    requires NobodyFails(oracle, email, ip) && forall n: nat :: !oracle(n).fault
    requires BeforeReset(p, email, ip) || Fails(p) || (PastReset(p) && Forgotten(s.db, email, ip))
    ensures var end := Drive(cfg, s, p, oracle, k); end.1.Ok? ==> Forgotten(end.0.db, email, ip)
    decreases Left(p)
  {
    hide Resume, Perform, After, Forgotten, Records;
    if !p.Done? {
      var ch := oracle(k);
      var now := After(cfg, s, ch.env);
      var (t, r) := Perform(cfg, now, p, ch);
      if PastReset(p) && Forgotten(s.db, email, ip) {
        RunKeepsForgotten(cfg, s, ch.env, email, ip);
      }
      if p.LoginReset? || (PastReset(p) && Forgotten(s.db, email, ip)) {
        StepForgets(cfg, now, p, ch, email, ip);
      }
      ResumeProgresses(cfg, p, r, ch);
      MovesForward(cfg, p, r, ch, email, ip);
      SuccessClearsCounters(cfg, t, Resume(cfg, p, r, ch), oracle, k + 1, email, ip);
    }
  }

  predicate WritesHash(ev: Event, user: Id) {
    ev.Run? && (ev.stmt.UpdatePassword? || ev.stmt.SetPassword?) && ev.stmt.user == user
  }

  /** The account's hash is of this password, and no weaker than the configuration asks for. */
  predicate Settled(cfg: Config, db: DB, user: Id, password: string) {
    && user in db.users && db.users[user].hash.Some?
    && var h := db.users[user].hash.value;
       && h.Argon2id? && h.password == password
       && h.cost.memory >= cfg.cost.memory && h.cost.time >= cfg.cost.time && h.cost.keyLen >= cfg.cost.keyLen
  }

  lemma NextKeepsHash(cfg: Config, s: Store, ev: Event, user: Id)
    requires user in s.db.users && !WritesHash(ev, user)
    ensures var t := Next(cfg, s, ev).db; user in t.users && t.users[user].hash == s.db.users[user].hash
  {
  }

  lemma {:induction false} RunKeepsHash(cfg: Config, s: Store, evs: seq<Event>, user: Id)
    requires user in s.db.users && forall i :: 0 <= i < |evs| ==> !WritesHash(evs[i], user)
    ensures var t := After(cfg, s, evs).db; user in t.users && t.users[user].hash == s.db.users[user].hash
    decreases |evs|
  {
    hide Next;
    if evs != [] {
      NextKeepsHash(cfg, s, evs[0], user);
      RunKeepsHash(cfg, Next(cfg, s, evs[0]), evs[1..], user);
    }
  }

  /** What is true of the hash at each step of a Login that was let in as `user`. */
  predicate HashAt(cfg: Config, db: DB, p: Proc, user: Id, password: string) {
    && user in db.users
    && (if p.LoginRehash?
        then p.user == user && p.password == password && db.users[user].hash == Some(p.prior)
        else (p.LoginReset? || PastReset(p)) && Settled(cfg, db, user, password))
  }

  lemma StepKeepsHash(cfg: Config, s: Store, p: Proc, ch: Choice, user: Id, password: string)
    requires HashAt(cfg, s.db, p, user, password) && !ch.fault && !ch.busy && !p.Done?
    ensures var (t, r) := Perform(cfg, s, p, ch); HashAt(cfg, t.db, Resume(cfg, p, r, ch), user, password)
  {
    hide SessionsAfter;
  }

  /** From there on the account ends with a hash that is settled, rewritten if it was not. */
  lemma {:induction false} SuccessSettlesHash(cfg: Config, s: Store, p: Proc, oracle: nat -> Choice, k: nat, user: Id,
                                              password: string)
    requires HashAt(cfg, s.db, p, user, password)
    requires forall n: nat :: !oracle(n).fault && !oracle(n).busy
    requires forall n: nat :: forall i :: 0 <= i < |oracle(n).env| ==> !WritesHash(oracle(n).env[i], user)
    ensures Settled(cfg, Drive(cfg, s, p, oracle, k).0.db, user, password)
    decreases Left(p)
  {
    hide Resume, Perform, After, WritesHash, Settled;
    if !p.Done? {
      var ch := oracle(k);
      var now := After(cfg, s, ch.env);
      RunKeepsHash(cfg, s, ch.env, user);
      assert HashAt(cfg, now.db, p, user, password) by { SameHashAt(cfg, s.db, now.db, p, user, password); }
      var (t, r) := Perform(cfg, now, p, ch);
      StepKeepsHash(cfg, now, p, ch, user, password);
      ResumeProgresses(cfg, p, r, ch);
      SuccessSettlesHash(cfg, t, Resume(cfg, p, r, ch), oracle, k + 1, user, password);
    }
  }

  lemma SameHashAt(cfg: Config, a: DB, b: DB, p: Proc, user: Id, password: string)
    requires HashAt(cfg, a, p, user, password) && user in b.users && b.users[user].hash == a.users[user].hash
    ensures HashAt(cfg, b, p, user, password)
  {
  }

  /** Nobody replaces the account's hash meanwhile. */
  ghost predicate NobodyWrites(oracle: nat -> Choice, user: Id) {
    forall k: nat :: forall i :: 0 <= i < |oracle(k).env| ==> !WritesHash(oracle(k).env[i], user)
  }

  lemma ReadSettles(cfg: Config, s: Store, p: Proc, ch: Choice, user: Id)
    requires UsersOk(s) && p.LoginRead? && !ch.busy && Entitled(cfg, s.db, p.email, p.password, user)
    ensures HashAt(cfg, s.db, Resume(cfg, p, Answer(cfg, s.db, LoginSelect(p.email)), ch), user, p.password)
    ensures BeforeReset(Resume(cfg, p, Answer(cfg, s.db, LoginSelect(p.email)), ch), p.email, p.ip)
  {
    hide Lower;
  }

  /** Everything a Login owes an entitled account: the account's own principal on a session its token
      resolves to, both counters gone, and a hash that accepts the password under the configured costs;
      whatever others do, as long as they leave these alone. */
  lemma EntitledLoginSignsIn(cfg: Config, s: Store, email: string, ip: string, password: string,
                             caller: Option<Principal>, oracle: nat -> Choice, user: Id)
    requires Inv(cfg, s) && GoodConfig(cfg) && (caller.Some? ==> caller.value in s.principals)
    requires ValidDrive(cfg, s, Begin(cfg, Login(email, ip, password, caller)), oracle, 0) && Kind(cfg, s, oracle, user)
    requires NobodyFails(oracle, Normalize(email), ip) && NobodyWrites(oracle, user)
    requires var check := After(cfg, s, oracle(0).env); var read := After(cfg, check, oracle(1).env);
             !Closed(check.db, Normalize(email), ip) && Entitled(cfg, read.db, Normalize(email), password, user)
    ensures var end := Drive(cfg, s, Begin(cfg, Login(email, ip, password, caller)), oracle, 0);
            && SignsInSomehow(end, user) && Forgotten(end.0.db, Normalize(email), ip)
            && Settled(cfg, end.0.db, user, password)
  {
    var call := Login(email, ip, password, caller);
    var p := Begin(cfg, call);
    assert p == LoginCheck(Normalize(email), ip, password, caller);
    var check := After(cfg, s, oracle(0).env);
    var q := LoginRead(p.email, ip, password, caller);
    LoginSucceedsIff(cfg, s, email, ip, password, caller, oracle, user);
    assert forall n: nat :: !oracle(n).fault && !oracle(n).busy;
    hide Normalize, Next, SessionsOk, TokensOk, VaultsOk, PrincipalsOk, CountersOk, UsersOk, Answer, Drive, SignedIn,
      Draws, Kind, Entitled, Resume, Closed, Begin, After, HashAt, Settled, Forgotten, Records, WritesHash, ValidDrive;
    StepRuns(cfg, s, p, oracle, 0);
    CheckDecides(cfg, check.db, p, oracle(0));
    ReadsAreSilent(cfg, check, p.email, p.ip);
    StepRuns(cfg, check, q, oracle, 1);
    var read := After(cfg, check, oracle(1).env);
    ReadsAreSilent(cfg, read, p.email, p.ip);
    ReadSettles(cfg, read, q, oracle(1), user);
    var next := Resume(cfg, q, Answer(cfg, read.db, LoginSelect(q.email)), oracle(1));
    SuccessSettlesHash(cfg, read, next, oracle, 2, user, password);
    SuccessClearsCounters(cfg, read, next, oracle, 2, q.email, ip);
  }

  // ---- what a refusal leaves behind ----

  lemma RefusedAt(cfg: Config, s: Store, p: Proc, ch: Choice, user: Id)
    requires UsersOk(s) && p.LoginRead? && !ch.busy && user in s.db.users && LiveAddress(s.db.users[user], p.email)
    requires s.db.users[user].hash.Some?
    ensures var h := s.db.users[user].hash.value; var q := Resume(cfg, p, Answer(cfg, s.db, LoginSelect(p.email)), ch);
            && (h.Unreadable? ==> q == Done(Err(Internal)))
            && (!h.Unreadable? && !Accepts(h, p.password) ==> q == LoginFail(p.email, p.ip))
            && (Accepts(h, p.password) && !s.db.users[user].verified && !cfg.allowUnverified ==>
                 q == Done(Err(InvalidCredentials)))
  {
    hide Lower;
  }

  /** What a Login that nothing hinders answers, and what it leaves, when it is not let in: a closed window
      and an unreadable hash touch nothing, nor does the right password of an address still unverified; a
      wrong password is counted once, on the account and on the client where there is one. */
  lemma RefusedLoginAnswers(cfg: Config, s: Store, email: string, ip: string, password: string,
                            caller: Option<Principal>, oracle: nat -> Choice, user: Id)
    requires Inv(cfg, s) && ValidDrive(cfg, s, Begin(cfg, Login(email, ip, password, caller)), oracle, 0)
    requires forall k: nat :: !oracle(k).fault && !oracle(k).busy
    requires var read := After(cfg, After(cfg, s, oracle(0).env), oracle(1).env).db;
             user in read.users && LiveAddress(read.users[user], Normalize(email)) && read.users[user].hash.Some?
    ensures var e := Normalize(email); var check := After(cfg, s, oracle(0).env);
            var read := After(cfg, check, oracle(1).env);
            var u := read.db.users[user]; var h := u.hash.value;
            var end := Drive(cfg, s, Begin(cfg, Login(email, ip, password, caller)), oracle, 0);
            if Closed(check.db, e, ip) then end == (check, Err(WindowOpen))
            else
              && (h.Unreadable? ==> end == (read, Err(Internal)))
              && (Accepts(h, password) && !u.verified && !cfg.allowUnverified ==>
                    end == (read, Err(InvalidCredentials)))
              && (!h.Unreadable? && !Accepts(h, password) ==>
                   var late := After(cfg, read, oracle(2).env).db;
                   && end.1 == Err(InvalidCredentials)
                   && end.0.db == late.(attempts := end.0.db.attempts)
                   && end.0.db.attempts == Counted(late, e, ip))
  {
    var p := Begin(cfg, Login(email, ip, password, caller));
    assert p == LoginCheck(Normalize(email), ip, password, caller);
    var check := After(cfg, s, oracle(0).env);
    var q := LoginRead(p.email, ip, password, caller);
    hide Normalize, LiveAddress, Next, SessionsOk, TokensOk, VaultsOk, PrincipalsOk, CountersOk, UsersOk, Answer, Drive,
      Resume, Closed, Begin, After, ValidDrive, Accepts, Counted;
    DriveDone(cfg, oracle);
    StepRuns(cfg, s, p, oracle, 0);
    CheckDecides(cfg, check.db, p, oracle(0));
    ReadsAreSilent(cfg, check, p.email, p.ip);
    if !Closed(check.db, p.email, ip) {
      StepRuns(cfg, check, q, oracle, 1);
      var read := After(cfg, check, oracle(1).env);
      ReadsAreSilent(cfg, read, p.email, p.ip);
      RefusedAt(cfg, read, q, oracle(1), user);
      if Resume(cfg, q, Answer(cfg, read.db, LoginSelect(q.email)), oracle(1)).LoginFail? {
        FailureCounts(cfg, read, LoginFail(p.email, ip), oracle, 2);
      }
    }
  }

  lemma NobodyThere(cfg: Config, db: DB, p: Proc, ch: Choice)
    requires p.LoginRead? && forall u :: u in db.users && LiveAddress(db.users[u], p.email) ==> db.users[u].hash.None?
    ensures Resume(cfg, p, Answer(cfg, db, LoginSelect(p.email)), ch)
            == if ch.busy then Done(Err(HasherBusy)) else LoginFail(p.email, p.ip)
  {
    hide LiveAddress;
  }

  lemma BusyAt(cfg: Config, db: DB, p: Proc, ch: Choice)
    requires p.LoginRead? && ch.busy
    ensures Resume(cfg, p, Answer(cfg, db, LoginSelect(p.email)), ch) == Done(Err(HasherBusy))
  {
    hide LiveAddress;
  }

  /** A Login whose window is open: refused as busy where the hasher is, whether or not there is an account,
      with nothing touched and nothing counted; and where there is none that has a password, refused and
      counted as a wrong guess is. */
  lemma UnknownLoginAnswers(cfg: Config, s: Store, email: string, ip: string, password: string,
                            caller: Option<Principal>, oracle: nat -> Choice)
    requires Inv(cfg, s) && ValidDrive(cfg, s, Begin(cfg, Login(email, ip, password, caller)), oracle, 0)
    requires forall k: nat :: !oracle(k).fault
    requires !Closed(After(cfg, s, oracle(0).env).db, Normalize(email), ip)
    ensures var e := Normalize(email); var read := After(cfg, After(cfg, s, oracle(0).env), oracle(1).env);
            var end := Drive(cfg, s, Begin(cfg, Login(email, ip, password, caller)), oracle, 0);
            && (oracle(1).busy ==> end == (read, Err(HasherBusy)))
            && (!oracle(1).busy
                && (forall u ::
                      u in read.db.users && LiveAddress(read.db.users[u], e) ==> read.db.users[u].hash.None?) ==>
                  var late := After(cfg, read, oracle(2).env).db;
                  && end.1 == Err(InvalidCredentials)
                  && end.0.db == late.(attempts := end.0.db.attempts)
                  && end.0.db.attempts == Counted(late, e, ip))
  {
    var p := Begin(cfg, Login(email, ip, password, caller));
    assert p == LoginCheck(Normalize(email), ip, password, caller);
    var check := After(cfg, s, oracle(0).env);
    var q := LoginRead(p.email, ip, password, caller);
    hide Normalize, LiveAddress, Next, SessionsOk, TokensOk, VaultsOk, PrincipalsOk, CountersOk, UsersOk, Answer, Drive,
      Resume, Closed, Begin, After, ValidDrive, Counted;
    DriveDone(cfg, oracle);
    StepRuns(cfg, s, p, oracle, 0);
    CheckDecides(cfg, check.db, p, oracle(0));
    ReadsAreSilent(cfg, check, p.email, p.ip);
    StepRuns(cfg, check, q, oracle, 1);
    var read := After(cfg, check, oracle(1).env);
    ReadsAreSilent(cfg, read, p.email, p.ip);
    if oracle(1).busy {
      BusyAt(cfg, read.db, q, oracle(1));
    } else if forall u :: u in read.db.users && LiveAddress(read.db.users[u], q.email) ==> read.db.users[u].hash.None? {
      NobodyThere(cfg, read.db, q, oracle(1));
      FailureCounts(cfg, read, LoginFail(p.email, ip), oracle, 2);
    }
  }

  /** One more failure now for the account, and for the client where one is known. */
  function Counted(db: DB, email: string, ip: string): map<(Scope, string), Counter> {
    var count := (key: (Scope, string)) =>
      Counter(if key in db.attempts then db.attempts[key].failures + 1 else 1, db.now);
    if ip == "" then db.attempts[(ByUser, email) := count((ByUser, email))]
    else db.attempts[(ByUser, email) := count((ByUser, email))][(ByIP, ip) := count((ByIP, ip))]
  }

  lemma FailureCounts(cfg: Config, s: Store, p: Proc, oracle: nat -> Choice, k: nat)
    requires p.LoginFail? && !oracle(k).fault
    ensures var late := After(cfg, s, oracle(k).env).db; var end := Drive(cfg, s, p, oracle, k);
            && end.1 == Err(InvalidCredentials) && end.0.db == late.(attempts := end.0.db.attempts)
            && end.0.db.attempts == Counted(late, p.email, p.ip)
  {
    hide Answer;
    DriveOnce(cfg, s, p, oracle, k);
  }
}
