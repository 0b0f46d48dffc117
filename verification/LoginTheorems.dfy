/** What a successful Login means, whatever other callers do between its statements. */
module LoginTheorems {
  import opened Prelude
  import opened Passwords
  import opened Tables
  import opened Text
  import opened Sql
  import opened Invariants
  import opened SessionTheorems
  import opened Programs

  /** The draws of this call, and everything the other callers do around it, are fresh. */
  ghost predicate ValidDrive(cfg: Config, s: Store, p: Proc, oracle: nat -> Choice, k: nat)
    decreases Left(p)
  {
    p.Done? ||
    var ch := oracle(k);
    var now := After(cfg, s, ch.env);
    var st := Request(cfg, p, ch);
    var (t, reply) := Perform(cfg, now, p, ch);
    ResumeProgresses(cfg, p, reply, ch);
    && ValidRun(cfg, s, ch.env)
    && (st.Some? && !ch.fault ==> Enabled(now, Run(st.value)))
    && ValidDrive(cfg, t, Resume(cfg, p, reply, ch), oracle, k + 1)
  }

  lemma {:induction false} DriveKeepsDead(cfg: Config, s: Store, p: Proc, oracle: nat -> Choice, k: nat, sid: Id)
    requires Dead(s.db, sid)
    ensures Dead(Drive(cfg, s, p, oracle, k).0.db, sid)
    decreases Left(p)
  {
    hide Resume, Request, Answer, After, Dead, Next;
    if !p.Done? {
      var ch := oracle(k);
      var now := After(cfg, s, ch.env);
      DeadStaysDead(cfg, s, ch.env, sid);
      var st := Request(cfg, p, ch);
      if st.Some? && !ch.fault {
        NextKeepsDead(cfg, now, Run(st.value), sid);
      }
      var (t, reply) := Perform(cfg, now, p, ch);
      ResumeProgresses(cfg, p, reply, ch);
      DriveKeepsDead(cfg, t, Resume(cfg, p, reply, ch), oracle, k + 1, sid);
    }
  }

  /** One step keeps the store invariant and the freshness of what follows. */
  lemma StepOk(cfg: Config, s: Store, p: Proc, oracle: nat -> Choice, k: nat)
    requires Inv(cfg, s) && ValidDrive(cfg, s, p, oracle, k) && !p.Done?
    ensures var ch := oracle(k); var now := After(cfg, s, ch.env); var (t, r) := Perform(cfg, now, p, ch);
            && ValidRun(cfg, s, ch.env) && Inv(cfg, now) && Grows(s, now) && Inv(cfg, t) && Grows(now, t)
            && ValidDrive(cfg, t, Resume(cfg, p, r, ch), oracle, k + 1)
  {
    hide Resume, Answer, Next, After, ValidRun, SessionsOk, UsersOk, VaultsOk, PrincipalsOk, CountersOk;
    var ch := oracle(k);
    RunKeepsInv(cfg, s, ch.env);
    var st := Request(cfg, p, ch);
    if st.Some? && !ch.fault {
      NextKeepsInv(cfg, After(cfg, s, ch.env), Run(st.value));
      NextGrows(cfg, After(cfg, s, ch.env), Run(st.value));
    }
  }

  /** Whatever row carries this token belongs to `user`. */
  ghost predicate Sole(s: Store, token: string, user: Id) {
    token in s.minted && forall x :: x in s.db.sessions && s.db.sessions[x].digest == Sha256(token) ==>
        s.db.sessions[x].user == user
  }

  lemma NextKeepsSole(cfg: Config, s: Store, ev: Event, token: string, user: Id)
    requires Enabled(s, ev) && Sole(s, token, user)
    ensures Sole(Next(cfg, s, ev), token, user)
  {
    if ev.Run? {
      var after := SessionsAfter(cfg, s.db, ev.stmt);
      forall x | x in after && after[x].digest == Sha256(token)
        ensures after[x].user == user
      {
        if x in s.db.sessions { RowMoves(cfg, s.db, ev.stmt, x); } else { RowIssued(cfg, s.db, ev.stmt, x); }
      }
    }
  }

  lemma {:induction false} RunKeepsSole(cfg: Config, s: Store, evs: seq<Event>, token: string, user: Id)
    requires ValidRun(cfg, s, evs) && Sole(s, token, user)
    ensures Sole(After(cfg, s, evs), token, user)
    decreases |evs|
  {
    hide Next, Enabled, Sole;
    if evs != [] {
      NextKeepsSole(cfg, s, evs[0], token, user);
      RunKeepsSole(cfg, Next(cfg, s, evs[0]), evs[1..], token, user);
    }
  }

  /** Success, if it comes, is the principal of `user`. */
  ghost predicate Admits(end: (Store, Result<Value>), user: Id) {
    end.1.Ok? ==> end.1.value.Caller? && end.1.value.principal.user == user
  }

  lemma LookupAdmits(cfg: Config, s: Store, token: string, user: Id, oracle: nat -> Choice, k: nat)
    requires ValidDrive(cfg, s, LoginLookup(token), oracle, k) && Sole(s, token, user)
    ensures Admits(Drive(cfg, s, LoginLookup(token), oracle, k), user)
  {
    hide Exec;
    RunKeepsSole(cfg, s, oracle(k).env, token, user);
    DriveOnce(cfg, s, LoginLookup(token), oracle, k);
  }

  lemma IssueIsSole(cfg: Config, s: Store, sid: Id, token: string, user: Id)
    requires SessionsOk(cfg, s) && token !in s.minted
    ensures Sole(Next(cfg, s, Run(Issue(sid, token, user))), token, user)
  {
    var st := Issue(sid, token, user);
    forall x | x in SessionsAfter(cfg, s.db, st) && SessionsAfter(cfg, s.db, st)[x].digest == Sha256(token)
      ensures SessionsAfter(cfg, s.db, st)[x].user == user
    {
      if x in s.db.sessions { RowMoves(cfg, s.db, st, x); } else { RowIssued(cfg, s.db, st, x); }
    }
  }

  lemma IssueAdmits(cfg: Config, s: Store, user: Id, oracle: nat -> Choice, k: nat)
    requires Inv(cfg, s) && ValidDrive(cfg, s, LoginIssue(user), oracle, k)
    ensures Admits(Drive(cfg, s, LoginIssue(user), oracle, k), user)
  {
    hide Exec, Next, Answer, Sole, Admits, SessionsOk, UsersOk, TokensOk, VaultsOk, PrincipalsOk, CountersOk;
    var ch := oracle(k);
    var now := After(cfg, s, ch.env);
    var (t, r) := Perform(cfg, now, LoginIssue(user), ch);
    StepOk(cfg, s, LoginIssue(user), oracle, k);
    DriveOnce(cfg, s, LoginIssue(user), oracle, k);
    if r.RowId? {
      IssueIsSole(cfg, now, ch.id, ch.token, user);
      LookupAdmits(cfg, t, ch.token, user, oracle, k + 1);
    } else {
      FailedAdmits(cfg, t, oracle, k + 1, user);
    }
  }

  lemma FailedAdmits(cfg: Config, s: Store, oracle: nat -> Choice, k: nat, user: Id)
    ensures forall f :: Admits(Drive(cfg, s, Done(Err(f)), oracle, k), user)
  {
  }

  lemma RevokedIsDead(cfg: Config, s: Store, sid: Id)
    requires sid in s.db.sessions
    ensures Dead(Next(cfg, s, Run(Revoke(sid))).db, sid)
  {
    RowMoves(cfg, s.db, Revoke(sid), sid);
  }

  /** From the revocation of the arriving session on: either the call fails, or that session is gone. */
  lemma RevokeAdmits(cfg: Config, s: Store, user: Id, arrived: Principal, oracle: nat -> Choice, k: nat)
    requires Inv(cfg, s) && ValidDrive(cfg, s, LoginRevoke(user, arrived), oracle, k)
             && arrived.session in s.db.sessions
    ensures var end := Drive(cfg, s, LoginRevoke(user, arrived), oracle, k);
            Admits(end, user) && (end.1.Ok? ==> Dead(end.0.db, arrived.session))
  {
    hide Exec, Next, Answer, Admits, Dead, SessionsOk, UsersOk, TokensOk, VaultsOk, PrincipalsOk, CountersOk;
    var p := LoginRevoke(user, arrived);
    var ch := oracle(k);
    var now := After(cfg, s, ch.env);
    var (t, r) := Perform(cfg, now, p, ch);
    StepOk(cfg, s, p, oracle, k);
    DriveOnce(cfg, s, p, oracle, k);
    if r.Fault? {
      FailedAdmits(cfg, t, oracle, k + 1, user);
    } else {
      RevokedIsDead(cfg, now, arrived.session);
      IssueAdmits(cfg, t, user, oracle, k + 1);
      DriveKeepsDead(cfg, t, LoginIssue(user), oracle, k + 1, arrived.session);
    }
  }

  ghost predicate Signed(end: (Store, Result<Value>), user: Id, caller: Option<Principal>) {
    Admits(end, user) && (end.1.Ok? && caller.Some? ==> Dead(end.0.db, caller.value.session))
  }

  predicate Arrived(s: Store, caller: Option<Principal>) {
    caller.Some? ==> caller.value.session in s.db.sessions
  }

  lemma ResetAdmits(cfg: Config, s: Store, user: Id, email: string, ip: string, caller: Option<Principal>,
                    oracle: nat -> Choice, k: nat)
    requires Inv(cfg, s) && ValidDrive(cfg, s, LoginReset(user, email, ip, caller), oracle, k) && Arrived(s, caller)
    ensures Signed(Drive(cfg, s, LoginReset(user, email, ip, caller), oracle, k), user, caller)
  {
    hide Exec, Next, Answer, Admits, Dead, After, ValidRun, SessionsOk, UsersOk, TokensOk, VaultsOk, PrincipalsOk,
      CountersOk;
    var p := LoginReset(user, email, ip, caller);
    var (t, r) := Perform(cfg, After(cfg, s, oracle(k).env), p, oracle(k));
    StepOk(cfg, s, p, oracle, k);
    DriveOnce(cfg, s, p, oracle, k);
    if caller.Some? {
      RevokeAdmits(cfg, t, user, caller.value, oracle, k + 1);
    } else {
      IssueAdmits(cfg, t, user, oracle, k + 1);
    }
  }

  lemma RehashAdmits(cfg: Config, s: Store, p: Proc, oracle: nat -> Choice, k: nat)
    requires Inv(cfg, s) && p.LoginRehash? && ValidDrive(cfg, s, p, oracle, k) && Arrived(s, p.caller)
    ensures Signed(Drive(cfg, s, p, oracle, k), p.user, p.caller)
  {
    hide Exec, Next, Answer, Signed, After, ValidRun, SessionsOk, UsersOk, TokensOk, VaultsOk, PrincipalsOk, CountersOk;
    var (t, r) := Perform(cfg, After(cfg, s, oracle(k).env), p, oracle(k));
    StepOk(cfg, s, p, oracle, k);
    DriveOnce(cfg, s, p, oracle, k);
    ResetAdmits(cfg, t, p.user, p.email, p.ip, p.caller, oracle, k + 1);
  }

  lemma FailRefuses(cfg: Config, s: Store, email: string, ip: string, oracle: nat -> Choice, k: nat)
    ensures Drive(cfg, s, LoginFail(email, ip), oracle, k).1.Err?
  {
    DriveOnce(cfg, s, LoginFail(email, ip), oracle, k);
  }

  /** The account is live at the address, its hash accepts the password, its address may sign in. */
  predicate Entitled(cfg: Config, db: DB, email: string, password: string, user: Id) {
    && user in db.users && !db.users[user].deleted && Lower(db.users[user].email) == email
    && db.users[user].hash.Some? && Accepts(db.users[user].hash.value, password)
    && (db.users[user].verified || cfg.allowUnverified)
  }

  lemma VerdictEntitles(cfg: Config, db: DB, p: Proc, ch: Choice)
    requires p.LoginRead?
    ensures var r := Answer(cfg, db, LoginSelect(p.email)); var next := Resume(cfg, p, r, ch);
            || next == LoginFail(p.email, p.ip) || (next.Done? && next.result.Err?)
            || (&& r.RowAccount? && Entitled(cfg, db, p.email, p.password, r.account)
                && (|| next == LoginReset(r.account, p.email, p.ip, p.caller)
                    || (r.hash.Some?
                        && next == LoginRehash(r.account, p.email, p.ip, p.password, r.hash.value, p.caller))))
  {
  }

  lemma ReadAdmits(cfg: Config, s: Store, p: Proc, oracle: nat -> Choice, k: nat) returns (user: Id)
    requires Inv(cfg, s) && p.LoginRead? && ValidDrive(cfg, s, p, oracle, k) && Arrived(s, p.caller)
    ensures var end := Drive(cfg, s, p, oracle, k);
            end.1.Ok? ==>
              Signed(end, user, p.caller) && Entitled(cfg, After(cfg, s, oracle(k).env).db, p.email, p.password, user)
  {
    hide Exec, Next, Answer, Signed, Entitled, After, ValidRun, SessionsOk, UsersOk, TokensOk, VaultsOk, PrincipalsOk,
      CountersOk;
    user := 0;
    var ch := oracle(k);
    var now := After(cfg, s, ch.env);
    var (t, r) := Perform(cfg, now, p, ch);
    StepOk(cfg, s, p, oracle, k);
    DriveOnce(cfg, s, p, oracle, k);
    if !ch.fault {
      VerdictEntitles(cfg, now.db, p, ch);
      var next := Resume(cfg, p, r, ch);
      if next == LoginFail(p.email, p.ip) {
        FailRefuses(cfg, t, p.email, p.ip, oracle, k + 1);
      } else if next.LoginReset? {
        user := r.account;
        ResetAdmits(cfg, t, user, p.email, p.ip, p.caller, oracle, k + 1);
      } else if next.LoginRehash? {
        user := r.account;
        RehashAdmits(cfg, t, next, oracle, k + 1);
      }
    }
  }

  /** If Login succeeds, it signs in as the one account whose password was given: live at the
      address, with a hash that accepted the password and an address allowed to sign in at the moment
      the row was read. The principal is that account's whatever ran in between, and the session the
      request arrived with can never resolve again. */
  lemma LoginAdmitsTheAccount(cfg: Config, s: Store, email: string, ip: string, password: string,
                              caller: Option<Principal>, oracle: nat -> Choice)
    returns (user: Id)
    requires Inv(cfg, s) && (caller.Some? ==> caller.value in s.principals)
    requires ValidDrive(cfg, s, Begin(cfg, Login(email, ip, password, caller)), oracle, 0)
    ensures var p := Begin(cfg, Login(email, ip, password, caller)); var end := Drive(cfg, s, p, oracle, 0);
            var read := After(cfg, Perform(cfg, After(cfg, s, oracle(0).env), p, oracle(0)).0, oracle(1).env);
            end.1.Ok? ==>
              && end.1.value.Caller? && end.1.value.principal.user == user
              && Entitled(cfg, read.db, Normalize(email), password, user)
              && (caller.Some? ==> forall evs, token ::
                    !Resolves(After(cfg, end.0, evs).db, token, caller.value.session))
  {
    hide Exec, Next, Answer, Dead, Entitled, After, ValidRun, Normalize, SessionsOk, UsersOk, TokensOk, VaultsOk,
      CountersOk, Resolves;
    user := 0;
    var p := Begin(cfg, Login(email, ip, password, caller));
    var (t, r) := Perform(cfg, After(cfg, s, oracle(0).env), p, oracle(0));
    StepOk(cfg, s, p, oracle, 0);
    DriveOnce(cfg, s, p, oracle, 0);
    var next := Resume(cfg, p, r, oracle(0));
    if next.LoginRead? {
      user := ReadAdmits(cfg, t, next, oracle, 1);
      var end := Drive(cfg, s, p, oracle, 0);
      if end.1.Ok? && caller.Some? {
        forall evs
          ensures forall token :: !Resolves(After(cfg, end.0, evs).db, token, caller.value.session)
        {
          DeadStaysDead(cfg, end.0, evs, caller.value.session);
        }
      }
    }
  }
}
