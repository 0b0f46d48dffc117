/** What ChangePassword answers and leaves, whatever the other callers do between its statements. */
module ChangeCompletes {
  import opened Prelude
  import opened Passwords
  import opened Tables
  import opened Text
  import opened Sql
  import opened Invariants
  import opened Programs
  import opened CredentialTheorems
  import opened LoginTheorems
  import opened LoginCompletes
  import opened Links
  import opened Outcomes
  import opened SessionCalls

  // ---- the rotation ----

  lemma RotateStatement(cfg: Config, p: Principal, user: Id, ch: Choice)
    ensures var q := ChangeRotate(p);
            && !q.Done? && Request(cfg, q, ch) == Some(Rotate(ch.token, p.session))
            && Resume(cfg, q, RowId(user), ch) == Done(Ok(Secret(ch.token)))
            && Resume(cfg, q, NoRows, ch) == Done(Err(SessionGone))
    ensures MintedBy(Rotate(ch.token, p.session)) == {ch.token}
  {
  }

  lemma RotateEffect(cfg: Config, s: Store, token: string, sid: Id)
    requires SessionsOk(cfg, s) && token !in s.minted
    ensures var st := Rotate(token, sid); var t := Next(cfg, s, Run(st)).db;
            if LiveAt(s.db, sid) then Answer(cfg, s.db, st).RowId? && HasNewToken(cfg, s.db, t, sid, token)
            else Answer(cfg, s.db, st) == NoRows && t == s.db
  {
    assert LiveAt(s.db, sid) ==> CanRotate(s.db, token, sid);
  }

  lemma EnabledIsFresh(s: Store, st: Stmt)
    requires Enabled(s, Run(st))
    ensures MintedBy(st) !! s.minted
  {
  }

  lemma RotationEnds(cfg: Config, s: Store, p: Principal, oracle: nat -> Choice, k: nat)
    requires Inv(cfg, s) && ValidDrive(cfg, s, ChangeRotate(p), oracle, k) && Unhindered(oracle)
    ensures var met := After(cfg, s, oracle(k).env).db; var end := Drive(cfg, s, ChangeRotate(p), oracle, k);
            if LiveAt(met, p.session)
            then end.1 == Ok(Secret(oracle(k).token)) && HasNewToken(cfg, met, end.0.db, p.session, oracle(k).token)
            else end.1 == Err(SessionGone) && end.0.db == met
  {
    hide *;
    NoFault(oracle, k);
    var met := After(cfg, s, oracle(k).env);
    var st := Rotate(oracle(k).token, p.session);
    var r := Answer(cfg, met.db, st);
    RotateStatement(cfg, p, if r.RowId? then r.id else 0, oracle(k));
    StepRuns(cfg, s, ChangeRotate(p), oracle, k);
    EnabledIsFresh(met, st);
    SessionsOfInv(cfg, met);
    LiveIsThere(met.db, p.session);
    RotateEffect(cfg, met, oracle(k).token, p.session);
    DriveDone(cfg, oracle);
  }

  lemma LiveIsThere(db: DB, sid: Id)
    ensures LiveAt(db, sid) ==> sid in db.sessions
  {
  }

  // ---- the swap ----

  lemma SwapStatement(cfg: Config, q: Proc, p: Principal, current: string, next: string, prior: Encoded, ch: Choice)
    requires q == ChangeWrite(p, current, next, prior) && !ch.busy
    ensures && !q.Done? && Request(cfg, q, ch) == Some(UpdatePassword(Argon2id(cfg.cost, ch.salt, next), p.user, prior))
            && Resume(cfg, q, Affected(0), ch) == Done(Err(InvalidCredentials))
            && Resume(cfg, q, Affected(1), ch) == ChangeRotate(p)
  {
  }

  lemma SwapEffect(cfg: Config, s: Store, next: Encoded, user: Id, prior: Encoded)
    ensures var st := UpdatePassword(next, user, prior); var t := Next(cfg, s, Run(st)).db;
            if HasHash(s.db, user, prior)
            then && Answer(cfg, s.db, st) == Affected(1)
                 && t == s.db.(users := s.db.users[user := s.db.users[user].(hash := Some(next))])
            else Answer(cfg, s.db, st) == Affected(0) && t == s.db
  {
  }

  /** The account, and what becomes of it when its hash is replaced. */
  predicate HasNewHash(db: DB, after: DB, user: Id, hash: Encoded)
    requires user in db.users
  {
    after == db.(users := db.users[user := db.users[user].(hash := Some(hash))])
  }

  /** From the swap on: `swapped` is the store right after it, when it matched. */
  lemma SwapEnds(cfg: Config, s: Store, p: Principal, current: string, next: string, prior: Encoded,
                 oracle: nat -> Choice)
    returns (swapped: Store)
    requires Inv(cfg, s) && ValidDrive(cfg, s, ChangeWrite(p, current, next, prior), oracle, 1) && Unhindered(oracle)
    ensures var write := After(cfg, s, oracle(1).env).db; var rotate := After(cfg, swapped, oracle(2).env).db;
            var end := Drive(cfg, s, ChangeWrite(p, current, next, prior), oracle, 1);
            if HasHash(write, p.user, prior)
            then && p.user in write.users
                 && HasNewHash(write, swapped.db, p.user, Argon2id(cfg.cost, oracle(1).salt, next))
                 && if LiveAt(rotate, p.session)
                    then end.1 == Ok(Secret(oracle(2).token))
                         && HasNewToken(cfg, rotate, end.0.db, p.session, oracle(2).token)
                    else end.1 == Err(SessionGone) && end.0.db == rotate
            else end.1 == Err(InvalidCredentials) && end.0.db == write
  {
    hide *;
    NoFault(oracle, 1);
    var q := ChangeWrite(p, current, next, prior);
    var write := After(cfg, s, oracle(1).env);
    var hash := Argon2id(cfg.cost, oracle(1).salt, next);
    swapped := Next(cfg, write, Run(UpdatePassword(hash, p.user, prior)));
    SwapStatement(cfg, q, p, current, next, prior, oracle(1));
    StepRuns(cfg, s, q, oracle, 1);
    SwapEffect(cfg, write, hash, p.user, prior);
    HashIsThere(write.db, p.user, prior);
    DriveDone(cfg, oracle);
    LiveIsThere(After(cfg, swapped, oracle(2).env).db, p.session);
    if HasHash(write.db, p.user, prior) {
      NewHash(write.db, swapped.db, p.user, hash);
      RotationEnds(cfg, swapped, p, oracle, 2);
    }
  }

  lemma HashIsThere(db: DB, user: Id, prior: Encoded)
    ensures HasHash(db, user, prior) ==> user in db.users
  {
  }

  lemma NewHash(db: DB, after: DB, user: Id, hash: Encoded)
    requires user in db.users && after == db.(users := db.users[user := db.users[user].(hash := Some(hash))])
    ensures HasNewHash(db, after, user, hash)
  {
  }

  // ---- the read ----

  lemma ChangeStatement(cfg: Config, p: Principal, ip: string, current: string, next: string, ch: Choice)
    requires cfg.shape(next)
    ensures var q := Begin(cfg, ChangePassword(Some(p), ip, current, next));
            && q == ChangeRead(p, ip, current, next) && !q.Done? && Request(cfg, q, ch) == Some(HashById(p.user))
  {
  }

  lemma ReadIsSilent(cfg: Config, s: Store, user: Id)
    ensures Next(cfg, s, Run(HashById(user))) == s
  {
    assert s.minted + {} == s.minted && s.salts + {} == s.salts && s.principals + {} == s.principals;
  }

  predicate LiveUser(db: DB, user: Id) {
    user in db.users && !db.users[user].deleted
  }

  /** The read settles where the call goes on. */
  lemma ReadDecides(cfg: Config, db: DB, p: Principal, ip: string, current: string, next: string, ch: Choice)
    requires !ch.busy
    ensures var q := Resume(cfg, ChangeRead(p, ip, current, next), Answer(cfg, db, HashById(p.user)), ch);
            if !LiveUser(db, p.user) then q == Done(Err(Unauthenticated))
            else match db.users[p.user].hash
                 case None => q == Done(Err(InvalidCredentials))
                 case Some(h) =>
                   if h.Unreadable? then q == Done(Err(Internal))
                   else if Accepts(h, current) then q == ChangeWrite(p, current, next, h)
                   else q == ChangeFail(Lower(db.users[p.user].email), ip)
  {
    hide Lower;
  }

  lemma WrongCurrentCounts(cfg: Config, s: Store, email: string, ip: string, oracle: nat -> Choice)
    requires !oracle(1).fault
    ensures var late := After(cfg, s, oracle(1).env).db; var end := Drive(cfg, s, ChangeFail(email, ip), oracle, 1);
            && end.1 == Err(InvalidCredentials) && end.0.db == late.(attempts := end.0.db.attempts)
            && end.0.db.attempts == Counted(late, email, ip)
  {
    hide Answer;
    DriveOnce(cfg, s, ChangeFail(email, ip), oracle, 1);
  }

  /** ChangePassword of an identified caller, where nothing fails: refused without touching anything for a
      secret of bad shape, a user no longer live, an account without a readable password; counted as a
      failed login for a wrong `current`; and otherwise what its swap and its rotation make of it. */
  lemma ChangePasswordAnswers(cfg: Config, s: Store, p: Principal, ip: string, current: string, next: string,
                              oracle: nat -> Choice)
    returns (swapped: Store)
    requires Inv(cfg, s) && ValidDrive(cfg, s, Begin(cfg, ChangePassword(Some(p), ip, current, next)), oracle, 0)
    requires Unhindered(oracle) && cfg.shape(next)
    ensures var read := After(cfg, s, oracle(0).env); var met := read.db;
            var end := Drive(cfg, s, Begin(cfg, ChangePassword(Some(p), ip, current, next)), oracle, 0);
            if !LiveUser(met, p.user) then end == (read, Err(Unauthenticated))
            else match met.users[p.user].hash
                 case None => end == (read, Err(InvalidCredentials))
                 case Some(h) =>
                   if h.Unreadable? then end == (read, Err(Internal))
                   else if !Accepts(h, current) then
                     var late := After(cfg, read, oracle(1).env).db;
                     && end.1 == Err(InvalidCredentials) && end.0.db == late.(attempts := end.0.db.attempts)
                     && end.0.db.attempts == Counted(late, Lower(met.users[p.user].email), ip)
                   else
                     var write := After(cfg, read, oracle(1).env).db;
                     var rotate := After(cfg, swapped, oracle(2).env).db;
                     if HasHash(write, p.user, h)
                     then && p.user in write.users
                          && HasNewHash(write, swapped.db, p.user, Argon2id(cfg.cost, oracle(1).salt, next))
                          && if LiveAt(rotate, p.session)
                             then end.1 == Ok(Secret(oracle(2).token))
                                  && HasNewToken(cfg, rotate, end.0.db, p.session, oracle(2).token)
                             else end.1 == Err(SessionGone) && end.0.db == rotate
                     else end.1 == Err(InvalidCredentials) && end.0.db == write
  {
    hide *;
    NoFault(oracle, 0);
    NoFault(oracle, 1);
    var read := After(cfg, s, oracle(0).env);
    var q := ChangeRead(p, ip, current, next);
    swapped := read;
    ChangeStatement(cfg, p, ip, current, next, oracle(0));
    StepRuns(cfg, s, q, oracle, 0);
    ReadIsSilent(cfg, read, p.user);
    ReadDecides(cfg, read.db, p, ip, current, next, oracle(0));
    DriveDone(cfg, oracle);
    LiveUserIsThere(read.db, p.user);
    if LiveUser(read.db, p.user) && read.db.users[p.user].hash.Some? {
      var h := read.db.users[p.user].hash.value;
      if !h.Unreadable? && Accepts(h, current) {
        swapped := SwapEnds(cfg, read, p, current, next, h, oracle);
      } else if !h.Unreadable? {
        WrongCurrentCounts(cfg, read, Lower(read.db.users[p.user].email), ip, oracle);
      }
    }
  }

  lemma LiveUserIsThere(db: DB, user: Id)
    ensures LiveUser(db, user) ==> user in db.users
  {
  }
}
