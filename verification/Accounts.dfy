/** authn/accounts.go and authn/tokens.go: the credential flows, statement by statement. Every
    method is verified under interference: before each of its statements the other callers may
    have run any statements at all (`oracle(k).env`). */
module Accounts {
  import opened Prelude
  import opened Passwords
  import opened Tables
  import opened Text
  import opened Backoff
  import opened Sql
  import opened Programs
  import opened Database

  class Accounts {
    const cfg: Config

    constructor (cfg: Config)
      ensures this.cfg == cfg
    {
      this.cfg := cfg;
    }

    /** The loop of checkBackoff: the account's failure count, and whether the window is open; the
        verdict does not depend on the order in which the rows arrive. */
    static method CheckBackoff(rows: seq<Row>) returns (userFailures: nat, open: bool)
      ensures open <==> forall i :: 0 <= i < |rows| ==> !Blocks(rows[i])
      ensures open && (exists i :: 0 <= i < |rows| && rows[i].scope == ByUser) ==>
                exists i :: 0 <= i < |rows| && rows[i].scope == ByUser && userFailures == rows[i].counter.failures
      ensures (forall i :: 0 <= i < |rows| ==> rows[i].scope != ByUser) ==> userFailures == 0
    {
      userFailures := 0;
      for i := 0 to |rows|
        invariant forall j :: 0 <= j < i ==> !Blocks(rows[j])
        invariant (forall j :: 0 <= j < i ==> rows[j].scope != ByUser) ==> userFailures == 0
        invariant (exists j :: 0 <= j < i && rows[j].scope == ByUser) ==>
                    exists j :: 0 <= j < i && rows[j].scope == ByUser && userFailures == rows[j].counter.failures
      {
        if rows[i].scope == ByUser {
          userFailures := rows[i].counter.failures;
        }
        var wait := DelayFor(rows[i].scope, rows[i].counter.failures);
        if wait > 0 && rows[i].age < wait {
          return userFailures, false;
        }
      }
      open := true;
    }

    /** recordFailure, then the one authentication failure; the write is best-effort. */
    method FailLogin(db: Database, oracle: nat -> Choice, ghost p: Proc, email: string, ip: string, k: nat)
      returns (res: Result<Value>)
      requires db.Valid() && (p == LoginFail(email, ip) || p == ChangeFail(email, ip))
      modifies db
      ensures db.Valid()
      ensures (db.State(), res) == Drive(cfg, old(db.State()), p, oracle, k)
    {
      hide Perform, After, Drive, Database.State, Database.Valid, Normalize, HashWith;
      DriveDone(cfg, oracle);
      if ip == "" {
        var _ := db.Query(cfg, p, RecordUser(email), oracle, k);
      } else {
        var _ := db.Query(cfg, p, RecordBoth(email, ip), oracle, k);
      }
      res := Err(InvalidCredentials);
    }

    method Login(db: Database, oracle: nat -> Choice, email: string, ip: string, password: string,
                 caller: Option<Principal>)
      returns (res: Result<Value>)
      requires db.Valid()
      modifies db
      ensures db.Valid()
      ensures (db.State(), res)
              == Drive(cfg, old(db.State()), Begin(cfg, Call.Login(email, ip, password, caller)), oracle, 0)
    {
      hide Perform, After, Drive, Database.State, Database.Valid, Normalize, HashWith;
      DriveDone(cfg, oracle);
      var e := Normalize(email);
      var r := db.Query(cfg, LoginCheck(e, ip, password, caller), Attempts(e, ip), oracle, 0);
      if !r.RowCounters? {
        return Err(Internal);
      }
      var _, open := CheckBackoff(r.rows);
      if !open {
        return Err(WindowOpen);
      }
      r := db.Query(cfg, LoginRead(e, ip, password, caller), LoginSelect(e), oracle, 1);
      if r.NoRows? || (r.RowAccount? && r.hash.None?) {
        if oracle(1).busy {   // VerifyDummy was turned away
          return Err(HasherBusy);
        }
        res := FailLogin(db, oracle, LoginFail(e, ip), e, ip, 2);
        return;
      }
      if !r.RowAccount? {
        return Err(Internal);
      }
      var verdict := Verify(cfg.cost, oracle(1).busy, password, r.hash.value);
      if verdict.Err? {
        return Err(verdict.failure);
      }
      if !verdict.value.ok {
        res := FailLogin(db, oracle, LoginFail(e, ip), e, ip, 2);
        return;
      }
      if !r.verified && !cfg.allowUnverified {
        return Err(InvalidCredentials);
      }
      if verdict.value.rehash {
        RehashStored(db, oracle, r.account, e, ip, password, r.hash.value, caller);
        res := SignIn(db, oracle, r.account, e, ip, caller, 3);
      } else {
        res := SignIn(db, oracle, r.account, e, ip, caller, 2);
      }
    }

    /** rehashStored: best-effort, compare-and-swap on the hash just verified. */
    method RehashStored(db: Database, oracle: nat -> Choice, user: Id, email: string, ip: string,
                        password: string, prior: Encoded, caller: Option<Principal>)
      requires db.Valid()
      modifies db
      ensures db.Valid()
      ensures Drive(cfg, old(db.State()), LoginRehash(user, email, ip, password, prior, caller), oracle, 2)
              == Drive(cfg, db.State(), LoginReset(user, email, ip, caller), oracle, 3)
    {
      hide Perform, After, Drive, Database.State, Database.Valid, Normalize, HashWith;
      DriveDone(cfg, oracle);
      if oracle(2).busy {
        db.Refused(cfg, LoginRehash(user, email, ip, password, prior, caller), oracle, 2);
      } else {
        var _ := db.Query(cfg, LoginRehash(user, email, ip, password, prior, caller),
                          UpdatePassword(HashWith(cfg, oracle(2), password), user, prior), oracle, 2);
      }
    }

    /** The rest of a successful Login: counters cleared, the arriving session revoked, a new one
        issued and resolved. */
    method SignIn(db: Database, oracle: nat -> Choice, user: Id, email: string, ip: string, caller: Option<Principal>,
                  start: nat)
      returns (res: Result<Value>)
      requires db.Valid()
      modifies db
      ensures db.Valid()
      ensures (db.State(), res) == Drive(cfg, old(db.State()), LoginReset(user, email, ip, caller), oracle, start)
    {
      hide Perform, After, Drive, Database.State, Database.Valid, Normalize, HashWith;
      DriveDone(cfg, oracle);
      var k := start;
      var r := db.Query(cfg, LoginReset(user, email, ip, caller), ResetAttempts(email, ip), oracle, k);
      k := k + 1;
      if caller.Some? {
        r := db.Query(cfg, LoginRevoke(user, caller.value), Stmt.Revoke(caller.value.session), oracle, k);
        if r.Fault? {
          return Err(Internal);
        }
        k := k + 1;
      }
      var token := oracle(k).token;
      r := db.Query(cfg, LoginIssue(user), Stmt.Issue(oracle(k).id, token, user), oracle, k);
      if !r.RowId? {
        return Err(Internal);
      }
      r := db.Query(cfg, LoginLookup(token), Stmt.Lookup(token), oracle, k + 1);
      res := if r.RowPrincipal? then Ok(Caller(r.principal)) else Err(Internal);
    }

    method Logout(db: Database, oracle: nat -> Choice, caller: Option<Principal>) returns (res: Result<Value>)
      requires db.Valid()
      modifies db
      ensures db.Valid()
      ensures (db.State(), res) == Drive(cfg, old(db.State()), Begin(cfg, Call.Logout(caller)), oracle, 0)
    {
      hide Perform, After, Drive, Database.State, Database.Valid, Normalize, HashWith;
      DriveDone(cfg, oracle);
      if caller.None? {
        return Ok(Nil);
      }
      var st := Stmt.Revoke(caller.value.session);
      var r := db.Query(cfg, Single(st), st, oracle, 0);
      res := Present(st, r);
    }

    method ChangePassword(db: Database, oracle: nat -> Choice, caller: Option<Principal>, ip: string, current: string,
                          next: string)
      returns (res: Result<Value>)
      requires db.Valid()
      modifies db
      ensures db.Valid()
      ensures (db.State(), res)
              == Drive(cfg, old(db.State()), Begin(cfg, Call.ChangePassword(caller, ip, current, next)), oracle, 0)
    {
      hide Perform, After, Drive, Database.State, Database.Valid, Normalize, HashWith;
      DriveDone(cfg, oracle);
      if caller.None? {
        return Err(Unauthenticated);
      }
      if !cfg.shape(next) {
        return Err(InvalidInput);
      }
      var p := caller.value;
      var r := db.Query(cfg, ChangeRead(p, ip, current, next), HashById(p.user), oracle, 0);
      if r.NoRows? {
        return Err(Unauthenticated);
      }
      if !r.RowHash? {
        return Err(Internal);
      }
      if r.hash.None? {
        return Err(InvalidCredentials);
      }
      var verdict := Verify(cfg.cost, oracle(0).busy, current, r.hash.value);
      if verdict.Err? {
        return Err(verdict.failure);
      }
      if !verdict.value.ok {
        res := FailLogin(db, oracle, ChangeFail(Lower(r.email), ip), Lower(r.email), ip, 1);
        return;
      }
      res := StoreChange(db, oracle, p, current, next, r.hash.value);
    }

    /** ChangePassword once `current` is verified: the compare-and-swap, then the rotation. */
    method StoreChange(db: Database, oracle: nat -> Choice, p: Principal, current: string, next: string, prior: Encoded)
      returns (res: Result<Value>)
      requires db.Valid()
      modifies db
      ensures db.Valid()
      ensures (db.State(), res) == Drive(cfg, old(db.State()), ChangeWrite(p, current, next, prior), oracle, 1)
    {
      hide Perform, After, Drive, Database.State, Database.Valid, Normalize, HashWith;
      DriveDone(cfg, oracle);
      if oracle(1).busy {
        db.Refused(cfg, ChangeWrite(p, current, next, prior), oracle, 1);
        return Err(HasherBusy);
      }
      var r := db.Query(cfg, ChangeWrite(p, current, next, prior),
                        UpdatePassword(HashWith(cfg, oracle(1), next), p.user, prior), oracle, 1);
      if !r.Affected? {
        return Err(Internal);
      }
      if r.count == 0 {
        return Err(InvalidCredentials);   // changed concurrently
      }
      var token := oracle(2).token;
      r := db.Query(cfg, ChangeRotate(p), Stmt.Rotate(token, p.session), oracle, 2);
      if r.NoRows? {
        return Err(SessionGone);
      }
      res := if r.RowId? then Ok(Secret(token)) else Err(Internal);
    }

    // ---- authn/tokens.go ----

    method Register(db: Database, oracle: nat -> Choice, email: string, password: string) returns (res: Result<Value>)
      requires db.Valid()
      modifies db
      ensures db.Valid()
      ensures (db.State(), res) == Drive(cfg, old(db.State()), Begin(cfg, Call.Register(email, password)), oracle, 0)
    {
      hide Perform, After, Drive, Database.State, Database.Valid, Normalize, HashWith;
      DriveDone(cfg, oracle);
      var e := Normalize(email);
      if !PlausibleAddress(e) {
        return Err(InvalidInput);
      }
      if !cfg.shape(password) {
        return Err(InvalidInput);
      }
      if oracle(0).busy {
        db.Refused(cfg, RegisterInsert(e, password), oracle, 0);
        return Err(HasherBusy);
      }
      var r := db.Query(cfg, RegisterInsert(e, password),
                        InsertUser(oracle(0).id, e, HashWith(cfg, oracle(0), password)), oracle, 0);
      if r.NoRows? {
        return Ok(Nil);
      }
      if !r.RowId? {
        return Err(Internal);
      }
      r := db.Query(cfg, RegisterToken(r.id), InsertToken(oracle(1).token, r.id, ForVerify, VERIFY_TTL), oracle, 1);
      res := if r.Affected? then Ok(Nil) else Err(Internal);
    }

    method RequestPasswordReset(db: Database, oracle: nat -> Choice, email: string) returns (res: Result<Value>)
      requires db.Valid()
      modifies db
      ensures db.Valid()
      ensures (db.State(), res) == Drive(cfg, old(db.State()), Begin(cfg, Call.RequestPasswordReset(email)), oracle, 0)
    {
      hide Perform, After, Drive, Database.State, Database.Valid, Normalize, HashWith;
      DriveDone(cfg, oracle);
      var e := Normalize(email);
      var r := db.Query(cfg, ResetAsk(e), UserIdByEmail(e), oracle, 0);
      if r.NoRows? {
        return Ok(Nil);
      }
      if !r.RowId? {
        return Err(Internal);
      }
      r := db.Query(cfg, ResetToken(r.id), InsertToken(oracle(1).token, r.id, ForReset, RESET_TTL), oracle, 1);
      res := if r.Affected? then Ok(Nil) else Err(Internal);
    }

    method ResetPassword(db: Database, oracle: nat -> Choice, token: string, password: string)
      returns (res: Result<Value>)
      requires db.Valid()
      modifies db
      ensures db.Valid()
      ensures (db.State(), res)
              == Drive(cfg, old(db.State()), Begin(cfg, Call.ResetPassword(token, password)), oracle, 0)
    {
      hide Perform, After, Drive, Database.State, Database.Valid, Normalize, HashWith;
      DriveDone(cfg, oracle);
      if !cfg.shape(password) {
        return Err(InvalidInput);
      }
      var r := db.Query(cfg, ResetConsume(token, password), ConsumeToken(token, ForReset), oracle, 0);
      if !r.RowId? {
        return Err(if r.NoRows? then InvalidToken else Internal);
      }
      var user := r.id;
      if oracle(1).busy {
        db.Refused(cfg, ResetWrite(user, password), oracle, 1);
        return Err(HasherBusy);
      }
      r := db.Query(cfg, ResetWrite(user, password), SetPassword(HashWith(cfg, oracle(1), password), user), oracle, 1);
      if !r.Affected? {
        return Err(Internal);
      }
      r := db.Query(cfg, ResetRevoke(user), Stmt.RevokeAll(user), oracle, 2);
      if !r.Affected? {
        return Err(Internal);
      }
      r := db.Query(cfg, ResetMail(user), EmailById(user), oracle, 3);
      res := Ok(Nil);
    }

    method VerifyEmail(db: Database, oracle: nat -> Choice, token: string) returns (res: Result<Value>)
      requires db.Valid()
      modifies db
      ensures db.Valid()
      ensures (db.State(), res) == Drive(cfg, old(db.State()), Begin(cfg, Call.VerifyEmail(token)), oracle, 0)
    {
      hide Perform, After, Drive, Database.State, Database.Valid, Normalize, HashWith;
      DriveDone(cfg, oracle);
      var r := db.Query(cfg, VerifyConsume(token), ConsumeToken(token, ForVerify), oracle, 0);
      if !r.RowId? {
        return Err(if r.NoRows? then InvalidToken else Internal);
      }
      r := db.Query(cfg, VerifyMark(r.id), MarkVerified(r.id), oracle, 1);
      res := if r.Affected? then Ok(Nil) else Err(Internal);
    }

    method Invite(db: Database, oracle: nat -> Choice, email: string) returns (res: Result<Value>)
      requires db.Valid()
      modifies db
      ensures db.Valid()
      ensures (db.State(), res) == Drive(cfg, old(db.State()), Begin(cfg, Call.Invite(email)), oracle, 0)
    {
      hide Perform, After, Drive, Database.State, Database.Valid, Normalize, HashWith;
      DriveDone(cfg, oracle);
      var e := Normalize(email);
      if !PlausibleAddress(e) {
        return Err(InvalidInput);
      }
      var r := db.Query(cfg, InviteInsert(e), InsertInvitee(oracle(0).id, e), oracle, 0);
      var k := 1;
      if r.NoRows? {   // already a member: re-issue
        r := db.Query(cfg, InviteFind(e), UserIdByEmail(e), oracle, 1);
        k := 2;
      }
      if !r.RowId? {
        return Err(Internal);
      }
      var token := oracle(k).token;
      r := db.Query(cfg, InviteToken(r.id), InsertToken(token, r.id, ForInvite, INVITE_TTL), oracle, k);
      res := if r.Affected? then Ok(Secret(token)) else Err(Internal);
    }

    method AcceptInvite(db: Database, oracle: nat -> Choice, token: string, password: string)
      returns (res: Result<Value>)
      requires db.Valid()
      modifies db
      ensures db.Valid()
      ensures (db.State(), res)
              == Drive(cfg, old(db.State()), Begin(cfg, Call.AcceptInvite(token, password)), oracle, 0)
    {
      hide Perform, After, Drive, Database.State, Database.Valid, Normalize, HashWith;
      DriveDone(cfg, oracle);
      if !cfg.shape(password) {
        return Err(InvalidInput);
      }
      var r := db.Query(cfg, AcceptConsume(token, password), ConsumeToken(token, ForInvite), oracle, 0);
      if !r.RowId? {
        return Err(if r.NoRows? then InvalidToken else Internal);
      }
      var user := r.id;
      if oracle(1).busy {
        db.Refused(cfg, AcceptWrite(user, password), oracle, 1);
        return Err(HasherBusy);
      }
      r := db.Query(cfg, AcceptWrite(user, password), SetPassword(HashWith(cfg, oracle(1), password), user), oracle, 1);
      if !r.Affected? {
        return Err(Internal);
      }
      r := db.Query(cfg, AcceptMark(user), MarkVerified(user), oracle, 2);
      res := if r.Affected? then Ok(Nil) else Err(Internal);
    }
  }
}
