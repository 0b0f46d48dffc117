/** What a driver fault, or a full hashing bound, does to a call at whatever step it strikes. */
module Faults {
  import opened Prelude
  import opened Tables
  import opened Sql
  import opened Backoff
  import opened Programs

  /** The steps a call makes for good measure, whose failure it does not pass on: counting a failed guess,
      forgetting the counters, replacing a hash by a costlier one, and reading an address for a notice. */
  predicate BestEffort(p: Proc) {
    p.LoginFail? || p.ChangeFail? || p.LoginReset? || p.LoginRehash? || p.ResetMail?
  }

  lemma SingleFault(st: Stmt)
    ensures Present(st, Fault) == Err(Internal)
  {
  }

  lemma FaultyReply(cfg: Config, p: Proc, ch: Choice)
    requires !p.Done? && !ch.busy
    ensures Request(cfg, p, ch).Some?
    ensures if BestEffort(p)
            then forall r :: Resume(cfg, p, r, ch) == Resume(cfg, p, Fault, ch)
            else Resume(cfg, p, Fault, ch) == Done(Err(Internal))
  {
    hide AfterVerdict, AfterCurrent, Blocks, PutStmt, Present;
    if p.Single? {
      assert Present(p.stmt, Fault) == Err(Internal) by { SingleFault(p.stmt); }
    }
  }

  /** A fault ends the call with an error, nothing changed since, at every statement but those: there the
      call goes on as if the statement had run, whatever it would have replied. */
  lemma FaultEndsTheCall(cfg: Config, s: Store, p: Proc, oracle: nat -> Choice, k: nat)
    requires !p.Done? && oracle(k).fault && !oracle(k).busy
    ensures var met := After(cfg, s, oracle(k).env); var st := Request(cfg, p, oracle(k));
            && st.Some?
            && if BestEffort(p)
               then forall r: Reply ::
                      Drive(cfg, s, p, oracle, k) == Drive(cfg, met, Resume(cfg, p, r, oracle(k)), oracle, k + 1)
               else Drive(cfg, s, p, oracle, k) == (met, Err(Internal))
  {
    hide Request, Resume, After, BestEffort, Drive;
    FaultyReply(cfg, p, oracle(k));
    DriveOnce(cfg, s, p, oracle, k);
    DriveDone(cfg, oracle);
  }

  lemma BusyReply(cfg: Config, p: Proc, r: Reply, ch: Choice)
    requires !p.Done? && ch.busy && Request(cfg, p, ch).None?
    ensures if p.LoginRehash? then !Resume(cfg, p, r, ch).Done? else Resume(cfg, p, r, ch) == Done(Err(HasherBusy))
  {
    hide AfterVerdict, AfterCurrent, Blocks;
  }

  /** A full hashing bound ends a call that has a password to store before its statement runs, and says so;
      only the rehash of a Login is given up for it. */
  lemma BusyEndsTheCall(cfg: Config, s: Store, p: Proc, oracle: nat -> Choice, k: nat)
    requires !p.Done? && oracle(k).busy && !oracle(k).fault
    ensures var met := After(cfg, s, oracle(k).env); var st := Request(cfg, p, oracle(k));
            && (StoresPassword(p) <==> st.None?)
            && (StoresPassword(p) && !p.LoginRehash? ==> Drive(cfg, s, p, oracle, k) == (met, Err(HasherBusy)))
            && (p.LoginRehash? ==>
                  Drive(cfg, s, p, oracle, k)
                  == Drive(cfg, met, LoginReset(p.user, p.email, p.ip, p.caller), oracle, k + 1))
  {
    hide Resume, After, Drive;
    DriveOnce(cfg, s, p, oracle, k);
    DriveDone(cfg, oracle);
    if StoresPassword(p) {
      BusyReply(cfg, p, NoRows, oracle(k));
    }
    if p.LoginRehash? {
      RehashGivenUp(cfg, p, oracle(k));
    }
  }

  /** The step hashes a new password for a statement that stores it. */
  predicate StoresPassword(p: Proc) {
    p.LoginRehash? || p.ChangeWrite? || p.RegisterInsert? || p.ResetWrite? || p.AcceptWrite?
  }

  lemma RehashGivenUp(cfg: Config, p: Proc, ch: Choice)
    requires p.LoginRehash?
    ensures Resume(cfg, p, NoRows, ch) == LoginReset(p.user, p.email, p.ip, p.caller)
  {
  }
}
