/** session/session.go: the methods that issue, resolve, rotate and revoke sessions. */
module Sessions {
  import opened Prelude
  import opened Tables
  import opened Sql
  import opened Programs
  import opened Database

  const DEFAULT_IDLE: int := 12 * HOUR
  const DEFAULT_ABSOLUTE: int := 14 * 24 * HOUR

  /** The two lifetimes NewSessions settles on. */
  function Limits(idle: int, absolute: int): Result<(int, int)> {
    var i := if idle == 0 then DEFAULT_IDLE else idle;
    var a := if absolute == 0 then DEFAULT_ABSOLUTE else absolute;
    if a < i then Err(InvalidInput) else Ok((i, a))
  }

  /** What NewSessions accepts never expires a session before its idle window by the absolute one;
      it is a usable pair exactly when the idle timeout asked for is not negative. */
  lemma LimitsAreUsable(idle: int, absolute: int)
    ensures Limits(idle, absolute).Ok? ==>
              var (i, a) := Limits(idle, absolute).value; i <= a && (0 < i <==> idle >= 0)
    ensures Limits(0, 0) == Ok((12 * 3600 * 1_000_000, 14 * 24 * 3600 * 1_000_000))
    ensures idle >= 0 && absolute >= idle && absolute != 0 && (idle != 0 || absolute >= DEFAULT_IDLE) ==>
              Limits(idle, absolute).Ok?
  {
  }

  class Sessions {
    const cfg: Config

    constructor (cfg: Config)
      ensures this.cfg == cfg
    {
      this.cfg := cfg;
    }

    method Issue(db: Database, oracle: nat -> Choice, user: Id) returns (res: Result<Value>)
      requires db.Valid()
      modifies db
      ensures db.Valid()
      ensures (db.State(), res) == Drive(cfg, old(db.State()), Begin(cfg, SessionIssue(user)), oracle, 0)
    {
      hide Perform, After, Drive, Database.State, Database.Valid;
      DriveDone(cfg, oracle);
      var token := oracle(0).token;
      var r := db.Query(cfg, DrawIssue(user), Stmt.Issue(oracle(0).id, token, user), oracle, 0);
      res := if r.RowId? then Ok(Secret(token)) else Err(Internal);
    }

    method Lookup(db: Database, oracle: nat -> Choice, token: string) returns (res: Result<Value>)
      requires db.Valid()
      modifies db
      ensures db.Valid()
      ensures (db.State(), res) == Drive(cfg, old(db.State()), Begin(cfg, SessionLookup(token)), oracle, 0)
    {
      hide Perform, After, Drive, Database.State, Database.Valid;
      DriveDone(cfg, oracle);
      var r := db.Query(cfg, Single(Stmt.Lookup(token)), Stmt.Lookup(token), oracle, 0);
      res := Present(Stmt.Lookup(token), r);
    }

    method Rotate(db: Database, oracle: nat -> Choice, sid: Id) returns (res: Result<Value>)
      requires db.Valid()
      modifies db
      ensures db.Valid()
      ensures (db.State(), res) == Drive(cfg, old(db.State()), Begin(cfg, SessionRotate(sid)), oracle, 0)
    {
      hide Perform, After, Drive, Database.State, Database.Valid;
      DriveDone(cfg, oracle);
      var token := oracle(0).token;
      var r := db.Query(cfg, DrawRotate(sid), Stmt.Rotate(token, sid), oracle, 0);
      if r.NoRows? {
        return Err(SessionGone);
      }
      res := if r.RowId? then Ok(Secret(token)) else Err(Internal);
    }

    method RecordMFA(db: Database, oracle: nat -> Choice, sid: Id, user: Id) returns (res: Result<Value>)
      requires db.Valid()
      modifies db
      ensures db.Valid()
      ensures (db.State(), res) == Drive(cfg, old(db.State()), Begin(cfg, SessionRecordMFA(sid, user)), oracle, 0)
    {
      hide Perform, After, Drive, Database.State, Database.Valid;
      DriveDone(cfg, oracle);
      var r := db.Query(cfg, Single(Stmt.RecordMFA(sid, user)), Stmt.RecordMFA(sid, user), oracle, 0);
      res := Present(Stmt.RecordMFA(sid, user), r);
    }

    method Revoke(db: Database, oracle: nat -> Choice, sid: Id) returns (res: Result<Value>)
      requires db.Valid()
      modifies db
      ensures db.Valid()
      ensures (db.State(), res) == Drive(cfg, old(db.State()), Begin(cfg, SessionRevoke(sid)), oracle, 0)
    {
      hide Perform, After, Drive, Database.State, Database.Valid;
      DriveDone(cfg, oracle);
      var r := db.Query(cfg, Single(Stmt.Revoke(sid)), Stmt.Revoke(sid), oracle, 0);
      res := Present(Stmt.Revoke(sid), r);
    }

    method RevokeAllForUser(db: Database, oracle: nat -> Choice, user: Id) returns (res: Result<Value>)
      requires db.Valid()
      modifies db
      ensures db.Valid()
      ensures (db.State(), res) == Drive(cfg, old(db.State()), Begin(cfg, SessionRevokeAll(user)), oracle, 0)
    {
      hide Perform, After, Drive, Database.State, Database.Valid;
      DriveDone(cfg, oracle);
      var r := db.Query(cfg, Single(Stmt.RevokeAll(user)), Stmt.RevokeAll(user), oracle, 0);
      res := Present(Stmt.RevokeAll(user), r);
    }
  }
}
