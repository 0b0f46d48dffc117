/** e2ee/e2ee.go: one wrapped root key per user, and the parameters every client asks for first. */
module Vaults {
  import opened Prelude
  import opened Tables
  import opened Text
  import opened Sql
  import opened Programs
  import opened Database

  class Vaults {
    const cfg: Config

    constructor (cfg: Config)
      ensures this.cfg == cfg
    {
      this.cfg := cfg;
    }

    method Params(db: Database, oracle: nat -> Choice, email: string) returns (res: Result<Value>)
      requires db.Valid()
      modifies db
      ensures db.Valid()
      ensures (db.State(), res) == Drive(cfg, old(db.State()), Begin(cfg, VaultParams(email)), oracle, 0)
    {
      hide Perform, After, Drive, Database.State, Database.Valid, VaultPolicy, PutStmt, Normalize;
      DriveDone(cfg, oracle);
      var e := Normalize(email);
      var r := db.Query(cfg, ParamsRead(e), ParamsByEmail(e), oracle, 0);
      if r.NoRows? {
        return Ok(KdfAnswer(cfg.kdfDefault, Derived(e)));
      }
      res := if r.RowParams? then Ok(KdfAnswer(r.kdf, r.salt)) else Err(Internal);
    }

    method Get(db: Database, oracle: nat -> Choice, caller: Option<Principal>) returns (res: Result<Value>)
      requires db.Valid()
      modifies db
      ensures db.Valid()
      ensures (db.State(), res) == Drive(cfg, old(db.State()), Begin(cfg, VaultGet(caller)), oracle, 0)
    {
      hide Perform, After, Drive, Database.State, Database.Valid, VaultPolicy, PutStmt, Normalize;
      DriveDone(cfg, oracle);
      if caller.None? {
        return Err(Unauthenticated);
      }
      var st := VaultByUser(caller.value.user);
      var r := db.Query(cfg, Single(st), st, oracle, 0);
      res := Present(st, r);
    }

    method Put(db: Database, oracle: nat -> Choice, caller: Option<Principal>, input: VaultInput)
      returns (res: Result<Value>)
      requires db.Valid()
      modifies db
      ensures db.Valid()
      ensures (db.State(), res) == Drive(cfg, old(db.State()), Begin(cfg, VaultPut(caller, input)), oracle, 0)
    {
      hide Perform, After, Drive, Database.State, Database.Valid, VaultPolicy, PutStmt, Normalize;
      DriveDone(cfg, oracle);
      if caller.None? {
        return Err(Unauthenticated);
      }
      if !VaultPolicy(cfg, input) {
        return Err(InvalidInput);
      }
      var p := caller.value;
      var r := db.Query(cfg, VaultWrite(p, input), PutStmt(cfg, p, input), oracle, 0);
      if r.NoRows? {
        return Err(Conflict);
      }
      res := if r.RowVersion? then Ok(Nil) else Err(Internal);
    }

    method Discard(db: Database, oracle: nat -> Choice, caller: Option<Principal>) returns (res: Result<Value>)
      requires db.Valid()
      modifies db
      ensures db.Valid()
      ensures (db.State(), res) == Drive(cfg, old(db.State()), Begin(cfg, VaultDiscard(caller)), oracle, 0)
    {
      hide Perform, After, Drive, Database.State, Database.Valid, VaultPolicy, PutStmt, Normalize;
      DriveDone(cfg, oracle);
      if caller.None? {
        return Err(Unauthenticated);
      }
      var st := DeleteVault(caller.value.user);
      var r := db.Query(cfg, Single(st), st, oracle, 0);
      res := Present(st, r);
    }
  }
}
