/** The machine invariant, and what it says about passwords and verified addresses. */
module MachineInvariants {
  import opened Prelude
  import opened Passwords
  import opened Tables
  import opened Sql
  import opened Invariants
  import opened Programs
  import opened Machine

  lemma StepKeepsStore(cfg: Config, w: World, act: Act)
    requires WorldOk(cfg, w) && Possible(cfg, w, act)
    ensures Inv(cfg, Step(cfg, w, act).store) && Grows(w.store, Step(cfg, w, act).store)
  {
    StepProjects(cfg, w, act);
    RunKeepsInv(cfg, w.store, EventsOf(cfg, w, act));
  }

  lemma StepKeepsEvidence(cfg: Config, w: World, act: Act, d: Digest, user: Id, purposes: set<Purpose>)
    requires WorldOk(cfg, w) && Possible(cfg, w, act) && Evidence(w.store.db, d, user, purposes)
    ensures Evidence(Step(cfg, w, act).store.db, d, user, purposes)
  {
    StepIsEnabled(cfg, w, act);
    var evs := EventsOf(cfg, w, act);
    if evs != [] {
      EvidenceStays(cfg, w.store, evs[0], d, user, purposes);
    }
  }

  /** Growing principals and lasting evidence keep what a call relies on. */
  lemma ProcOkFrame(cfg: Config, w: World, t: World, tid: nat, p: Proc)
    requires ProcOk(cfg, w, tid, p) && w.store.principals <= t.store.principals
    requires tid in t.burned <==> tid in w.burned
    requires tid in w.burned ==> t.burned[tid] == w.burned[tid]
    requires tid in w.burned ==> forall u, ps :: Evidence(w.store.db, w.burned[tid], u, ps) ==>
               Evidence(t.store.db, w.burned[tid], u, ps)
    ensures ProcOk(cfg, t, tid, p)
  {
  }

  lemma BurnedEvidenceStays(cfg: Config, w: World, act: Act, tid: nat)
    requires WorldOk(cfg, w) && Possible(cfg, w, act) && tid in w.burned
    ensures forall u, ps :: Evidence(w.store.db, w.burned[tid], u, ps) ==>
              Evidence(Step(cfg, w, act).store.db, w.burned[tid], u, ps)
  {
    forall u, ps | Evidence(w.store.db, w.burned[tid], u, ps)
      ensures Evidence(Step(cfg, w, act).store.db, w.burned[tid], u, ps)
    {
      StepKeepsEvidence(cfg, w, act, w.burned[tid], u, ps);
    }
  }

  lemma VerdictAccepts(configured: Cost, busy: bool, password: string, e: Encoded)
    ensures var v := Verify(configured, busy, password, e); v.Ok? ==> (v.value.ok <==> Accepts(e, password))
  {
  }

  function PurposeOf(p: Proc): Purpose {
    match p
    case ResetConsume(_, _) => ForReset
    case AcceptConsume(_, _) => ForInvite
    case _ => ForVerify
  }

  /** What a verified password buys: the next statement relies on the hash that accepted it. */
  lemma VerifiedOk(cfg: Config, t: World, tid: nat, p: Proc, r: Reply, ch: Choice)
    requires ProcOk(cfg, t, tid, p) && (p.LoginRead? || p.ChangeRead?)
    ensures ProcOk(cfg, t, tid, Resume(cfg, p, r, ch))
  {
    hide Accepts, Verify, Evidence;
    if (r.RowAccount? || r.RowHash?) && r.hash.Some? {
      VerdictAccepts(cfg.cost, ch.busy, if p.LoginRead? then p.password else p.current, r.hash.value);
    }
  }

  /** The call that moved knows what its next statement relies on. */
  lemma ResumeOk(cfg: Config, w: World, t: World, tid: nat, p: Proc, r: Reply, ch: Choice)
    requires ProcOk(cfg, w, tid, p) && w.store.principals <= t.store.principals
    requires TokenBurnedBy(p).None? ==> (tid in t.burned <==> tid in w.burned)
    requires TokenBurnedBy(p).None? && tid in w.burned ==> t.burned[tid] == w.burned[tid]
    requires TokenBurnedBy(p).None? && tid in w.burned ==>
               forall u, ps :: Evidence(w.store.db, w.burned[tid], u, ps) ==> Evidence(t.store.db, w.burned[tid], u, ps)
    requires TokenBurnedBy(p).Some? && r.RowId? ==> Burned(t, tid, r.id, {PurposeOf(p)})
    ensures ProcOk(cfg, t, tid, Resume(cfg, p, r, ch))
  {
    hide AfterVerdict, AfterCurrent, Accepts, Evidence;
    if p.LoginRead? || p.ChangeRead? {
      VerifiedOk(cfg, t, tid, p, r, ch);
    }
  }

  lemma OwnProcOk(cfg: Config, w: World, tid: nat, ch: Choice)
    requires WorldOk(cfg, w) && Possible(cfg, w, Advance(tid, ch)) && tid in w.procs
    ensures var t := Step(cfg, w, Advance(tid, ch)); ProcOk(cfg, t, tid, t.procs[tid])
  {
    hide Resume, Inv, Provenance, ProcOk;
    var act := Advance(tid, ch);
    var p := w.procs[tid];
    var (store, reply) := Perform(cfg, w.store, p, ch);
    var t := Step(cfg, w, act);
    assert t.store == store && t.procs[tid] == Resume(cfg, p, reply, ch);
    assert w.store.principals <= t.store.principals by { StepKeepsStore(cfg, w, act); }
    if tid in w.burned {
      BurnedEvidenceStays(cfg, w, act, tid);
    }
    if TokenBurnedBy(p).Some? && reply.RowId? {
      var st := Request(cfg, p, ch).value;
      assert st == ConsumeToken(st.token, PurposeOf(p)) && CanConsume(w.store.db, st.token, PurposeOf(p));
      ConsumedIsEvidence(cfg, w.store.db, st.token, PurposeOf(p));
    }
    ResumeOk(cfg, w, t, tid, p, reply, ch);
  }

  lemma StepKeepsProcs(cfg: Config, w: World, act: Act)
    requires WorldOk(cfg, w) && Possible(cfg, w, act)
    ensures ProcsOk(cfg, Step(cfg, w, act))
  {
    hide Perform, Resume, Begin, Request, Evidence, Inv, Provenance, BurnsOk;
    var t := Step(cfg, w, act);
    StepKeepsStore(cfg, w, act);
    forall tid | tid in t.procs
      ensures ProcOk(cfg, t, tid, t.procs[tid])
    {
      if tid in w.procs {
        if act.Advance? && act.tid == tid {
          OwnProcOk(cfg, w, tid, act.choice);
        } else {
          if tid in w.burned { BurnedEvidenceStays(cfg, w, act, tid); }
          ProcOkFrame(cfg, w, t, tid, w.procs[tid]);
        }
      } else {
        BeginOk(cfg, t, act.tid, act.call);
      }
    }
  }

  lemma BeginOk(cfg: Config, w: World, tid: nat, call: Call)
    requires tid !in w.burned
    requires CallerOf(call).Some? ==> CallerOf(call).value in w.store.principals
    ensures ProcOk(cfg, w, tid, Begin(cfg, call))
  {
  }

  lemma BurnedRowsStay(cfg: Config, w: World, act: Act, tid: nat)
    requires WorldOk(cfg, w) && Possible(cfg, w, act) && tid in w.burned
    ensures var t := Step(cfg, w, act).store.db;
            w.burned[tid] in t.tokens && t.tokens[w.burned[tid]].consumed.Some?
  {
    StepIsEnabled(cfg, w, act);
    var evs := EventsOf(cfg, w, act);
    if evs != [] {
      NextKeepsTokenRows(cfg, w.store, evs[0], w.burned[tid]);
    }
  }

  /** A token just burned was not burned before. */
  lemma NewBurn(cfg: Config, w: World, act: Act)
    requires WorldOk(cfg, w) && Step(cfg, w, act).burned != w.burned
    ensures act.Advance? && act.tid in w.procs && TokenBurnedBy(w.procs[act.tid]).Some?
    ensures var d := TokenBurnedBy(w.procs[act.tid]).value; var t := Step(cfg, w, act);
            && t.burned == w.burned[act.tid := d]
            && d in w.store.db.tokens && w.store.db.tokens[d].consumed.None?
            && d in t.store.db.tokens && t.store.db.tokens[d].consumed.Some?
  {
    hide Inv, ProcsOk, BurnsOk, Provenance, Resume;
    var p := w.procs[act.tid];
    assert p.ResetConsume? || p.VerifyConsume? || p.AcceptConsume?;
    var st := StatementOf(cfg, w, act).value;
    ConsumedIsEvidence(cfg, w.store.db, st.token, st.purpose);
  }

  lemma StepKeepsBurns(cfg: Config, w: World, act: Act)
    requires WorldOk(cfg, w) && Possible(cfg, w, act)
    ensures BurnsOk(Step(cfg, w, act))
  {
    hide Perform, Resume, Inv, ProcsOk, Provenance, Begin, Request;
    var t := Step(cfg, w, act);
    forall tid | tid in w.burned
      ensures w.burned[tid] in t.store.db.tokens && t.store.db.tokens[w.burned[tid]].consumed.Some?
    {
      BurnedRowsStay(cfg, w, act, tid);
    }
    if t.burned != w.burned {
      NewBurn(cfg, w, act);
    }
  }

  lemma VerifiedMoves(db: DB, st: Stmt, u: Id)
    requires u in UsersAfter(db, st) && UsersAfter(db, st)[u].verified
    ensures (u in db.users && db.users[u].verified) || st == MarkVerified(u)
  {
  }

  lemma MarkHasEvidence(cfg: Config, w: World, act: Act, u: Id)
    requires WorldOk(cfg, w) && Possible(cfg, w, act) && StatementOf(cfg, w, act) == Some(MarkVerified(u))
    ensures act.tid in w.burned && Evidence(Step(cfg, w, act).store.db, w.burned[act.tid], u, {ForVerify, ForInvite})
  {
    hide Inv, BurnsOk, Provenance, Step, Possible;
    var p := w.procs[act.tid];
    assert ProcOk(cfg, w, act.tid, p);
    assert p == VerifyMark(u) || p == AcceptMark(u);
    StepKeepsEvidence(cfg, w, act, w.burned[act.tid], u, {ForVerify, ForInvite});
  }

  lemma CreatedAreNew(cfg: Config, w: World, act: Act, u: Id)
    requires u in Step(cfg, w, act).created && u !in w.created
    ensures u !in w.store.db.users && u in Step(cfg, w, act).store.db.users
    ensures StatementOf(cfg, w, act).Some? && !StatementOf(cfg, w, act).value.MarkVerified?
  {
    var p := w.procs[act.tid];
    assert p.RegisterInsert? || p.InviteInsert?;
  }

  lemma StepKeepsProvenance(cfg: Config, w: World, act: Act)
    requires WorldOk(cfg, w) && Possible(cfg, w, act)
    ensures Provenance(Step(cfg, w, act))
  {
    StepKeepsStore(cfg, w, act);
    var t := Step(cfg, w, act);
    var st := StatementOf(cfg, w, act);
    forall u | u in t.created && u !in w.created
      ensures u !in w.store.db.users && u in t.store.db.users && st.Some? && !st.value.MarkVerified?
    {
      CreatedAreNew(cfg, w, act, u);
    }
    forall u | u in t.created && t.store.db.users[u].verified
      ensures exists d :: Evidence(t.store.db, d, u, {ForVerify, ForInvite})
    {
      UsersMoved(cfg, w, act, u);
      if st == Some(MarkVerified(u)) {
        MarkHasEvidence(cfg, w, act, u);
      } else {
        var d :| Evidence(w.store.db, d, u, {ForVerify, ForInvite});
        StepKeepsEvidence(cfg, w, act, d, u, {ForVerify, ForInvite});
      }
    }
  }

  lemma UsersMoved(cfg: Config, w: World, act: Act, u: Id)
    requires u in Step(cfg, w, act).store.db.users && Step(cfg, w, act).store.db.users[u].verified
    ensures (u in w.store.db.users && w.store.db.users[u].verified) || StatementOf(cfg, w, act) == Some(MarkVerified(u))
  {
    var st := StatementOf(cfg, w, act);
    if st.Some? {
      VerifiedMoves(w.store.db, st.value, u);
    }
  }

  lemma StepKeepsWorld(cfg: Config, w: World, act: Act)
    requires WorldOk(cfg, w) && Possible(cfg, w, act)
    ensures WorldOk(cfg, Step(cfg, w, act))
  {
    StepKeepsStore(cfg, w, act);
    StepKeepsProcs(cfg, w, act);
    StepKeepsBurns(cfg, w, act);
    StepKeepsProvenance(cfg, w, act);
  }

  /** Every state any interleaving of calls reaches. */
  lemma {:induction false} PlayKeepsWorld(cfg: Config, w: World, acts: seq<Act>)
    requires WorldOk(cfg, w) && CanPlay(cfg, w, acts)
    ensures WorldOk(cfg, Play(cfg, w, acts))
    decreases |acts|
  {
    if acts != [] {
      StepKeepsWorld(cfg, w, acts[0]);
      PlayKeepsWorld(cfg, Step(cfg, w, acts[0]), acts[1..]);
    }
  }

  /** The store of a machine run is a run of the store machine: every theorem about statements
      holds of every interleaving of calls. */
  lemma {:induction false} PlayProjects(cfg: Config, w: World, acts: seq<Act>)
    requires WorldOk(cfg, w) && CanPlay(cfg, w, acts)
    ensures Play(cfg, w, acts).store == After(cfg, w.store, Trace(cfg, w, acts))
    ensures ValidRun(cfg, w.store, Trace(cfg, w, acts))
    decreases |acts|
  {
    if acts != [] {
      StepKeepsWorld(cfg, w, acts[0]);
      StepProjects(cfg, w, acts[0]);
      PlayProjects(cfg, Step(cfg, w, acts[0]), acts[1..]);
      AfterConcat(cfg, w.store, EventsOf(cfg, w, acts[0]), Trace(cfg, Step(cfg, w, acts[0]), acts[1..]));
    }
  }
}
