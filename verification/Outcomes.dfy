/** How a call's own moves decide its answer: links that are lost, passwords changed by a call that
    reports an error, and the sessions that outlive a reset. */
module Outcomes {
  import opened Prelude
  import opened Passwords
  import opened Tables
  import opened Sql
  import opened Invariants
  import opened Programs
  import opened Machine
  import opened MachineInvariants
  import opened CredentialTheorems
  import Simulation

  // ---- the moves of one call ----

  /** The choices call `tid` met at its own moves. */
  ghost function Met(cfg: Config, w: World, acts: seq<Act>, tid: nat): seq<Choice>
    decreases |acts|
  {
    if acts == [] then []
    else (if Simulation.Moves(w, acts[0], tid) then [acts[0].choice] else [])
         + Met(cfg, Step(cfg, w, acts[0]), acts[1..], tid)
  }

  /** The statements call `tid` executed. */
  ghost function Ran(cfg: Config, w: World, acts: seq<Act>, tid: nat): seq<Stmt>
    decreases |acts|
  {
    if acts == [] then []
    else RanNow(cfg, w, acts[0], tid) + Ran(cfg, Step(cfg, w, acts[0]), acts[1..], tid)
  }

  function RanNow(cfg: Config, w: World, act: Act, tid: nat): seq<Stmt> {
    if Simulation.Moves(w, act, tid) && StatementOf(cfg, w, act).Some? then [StatementOf(cfg, w, act).value] else []
  }

  predicate SameBurn(w: World, t: World, tid: nat) {
    (tid in t.burned <==> tid in w.burned) && (tid in w.burned ==> t.burned[tid] == w.burned[tid])
  }

  /** Position `j` is the next move of call `tid`: until then it stands still. */
  ghost predicate MovesAt(cfg: Config, w: World, acts: seq<Act>, tid: nat, j: nat) {
    && tid in w.procs && j < |acts|
    && var u := Play(cfg, w, acts[..j]); var t := Step(cfg, u, acts[j]); var rest := acts[j + 1..];
    && Simulation.Moves(u, acts[j], tid) && u.procs[tid] == w.procs[tid] && SameBurn(w, u, tid)
    && Met(cfg, w, acts, tid) == [acts[j].choice] + Met(cfg, t, rest, tid)
    && Ran(cfg, w, acts, tid) == RanNow(cfg, u, acts[j], tid) + Ran(cfg, t, rest, tid)
    && Play(cfg, w, acts) == Play(cfg, t, rest)
  }

  lemma StandsStill(cfg: Config, w: World, act: Act, tid: nat)
    requires tid in w.procs && !Simulation.Moves(w, act, tid)
    ensures var t := Step(cfg, w, act);
            tid in t.procs && t.procs[tid] == w.procs[tid] && SameBurn(w, t, tid)
  {
  }

  /** A call that ends makes a move before it does. */
  lemma {:induction false} NextMove(cfg: Config, w: World, acts: seq<Act>, tid: nat) returns (j: nat)
    requires tid in w.procs && !w.procs[tid].Done?
    requires tid in Play(cfg, w, acts).procs && Play(cfg, w, acts).procs[tid].Done?
    ensures MovesAt(cfg, w, acts, tid, j)
    decreases |acts|
  {
    hide Step, StatementOf;
    j := 0;
    if acts == [] {
      assert false;
    } else if Simulation.Moves(w, acts[0], tid) {
      assert acts[..0] == [];
    } else {
      StandsStill(cfg, w, acts[0], tid);
      var i := NextMove(cfg, Step(cfg, w, acts[0]), acts[1..], tid);
      j := i + 1;
      assert acts[..j][1..] == acts[1..][..i] && acts[1..][i + 1..] == acts[j + 1..];
    }
  }

  /** A call that has ended meets and runs nothing more. */
  lemma {:induction false} EndedIsOver(cfg: Config, w: World, acts: seq<Act>, tid: nat)
    requires tid in w.procs && w.procs[tid].Done?
    ensures Met(cfg, w, acts, tid) == [] && Ran(cfg, w, acts, tid) == []
    ensures var end := Play(cfg, w, acts);
            tid in end.procs && end.procs[tid] == w.procs[tid] && SameBurn(w, end, tid)
    decreases |acts|
  {
    hide Step, StatementOf;
    if acts != [] {
      StandsStill(cfg, w, acts[0], tid);
      EndedIsOver(cfg, Step(cfg, w, acts[0]), acts[1..], tid);
    }
  }

  lemma {:induction false} PrefixOk(cfg: Config, w: World, acts: seq<Act>, j: nat)
    requires WorldOk(cfg, w) && CanPlay(cfg, w, acts) && j < |acts|
    ensures var u := Play(cfg, w, acts[..j]);
            && WorldOk(cfg, u) && Possible(cfg, u, acts[j]) && CanPlay(cfg, Step(cfg, u, acts[j]), acts[j + 1..])
    decreases j
  {
    hide Step, Possible, WorldOk;
    if j == 0 {
      assert acts[..0] == [];
    } else {
      StepKeepsWorld(cfg, w, acts[0]);
      PrefixOk(cfg, Step(cfg, w, acts[0]), acts[1..], j - 1);
      assert acts[..j][1..] == acts[1..][..j - 1] && acts[1..][j..] == acts[j + 1..];
    }
  }

  // ---- links that are lost ----

  predicate Fails(ch: Choice) {
    ch.busy || ch.fault
  }

  predicate WritesPassword(ran: seq<Stmt>) {
    exists i :: 0 <= i < |ran| && ran[i].SetPassword?
  }

  predicate RevokesAll(ran: seq<Stmt>) {
    exists i :: 0 <= i < |ran| && ran[i].RevokeAll?
  }

  /** What a call answers, after which statements. */
  datatype Ending = Ending(result: Result<Value>, wrote: bool, revoked: bool)

  ghost function EndingOf(cfg: Config, w: World, acts: seq<Act>, tid: nat): Ending
    requires tid in Play(cfg, w, acts).procs && Play(cfg, w, acts).procs[tid].Done?
  {
    var ran := Ran(cfg, w, acts, tid);
    Ending(Play(cfg, w, acts).procs[tid].result, WritesPassword(ran), RevokesAll(ran))
  }

  lemma MoveIs(cfg: Config, w: World, tid: nat, ch: Choice)
    requires tid in w.procs && !w.procs[tid].Done?
    ensures var p := w.procs[tid]; var t := Step(cfg, w, Advance(tid, ch));
            var (store, r) := Perform(cfg, w.store, p, ch);
            && tid in t.procs && t.store == store && t.procs[tid] == Resume(cfg, p, r, ch)
            && (TokenBurnedBy(p).None? ==> t.burned == w.burned)
            && RanNow(cfg, w, Advance(tid, ch), tid)
               == (if ch.fault || Request(cfg, p, ch).None? then [] else [Request(cfg, p, ch).value])
  {
    hide Perform, Resume, Request, TokenBurnedBy;
  }

  lemma OneStatement(st: Stmt)
    ensures WritesPassword([st]) <==> st.SetPassword?
    ensures RevokesAll([st]) <==> st.RevokeAll?
  {
    assert [st][0] == st;
  }

  /** The password write: nothing is written when the hashing bound or the driver stops it. */
  lemma WriteMove(cfg: Config, w: World, tid: nat, ch: Choice)
    requires tid in w.procs && (w.procs[tid].ResetWrite? || w.procs[tid].AcceptWrite?)
    ensures var p := w.procs[tid]; var t := Step(cfg, w, Advance(tid, ch));
            var now := RanNow(cfg, w, Advance(tid, ch), tid);
            && tid in t.procs && t.burned == w.burned && (WritesPassword(now) <==> !Fails(ch)) && !RevokesAll(now)
            && t.procs[tid] == if Fails(ch) then Done(Err(if ch.busy then HasherBusy else Internal))
                               else if p.ResetWrite? then ResetRevoke(p.user) else AcceptMark(p.user)
  {
    hide Step, RanNow, Next, HashWith, WritesPassword, RevokesAll;
    var p := w.procs[tid];
    MoveIs(cfg, w, tid, ch);
    OneStatement(SetPassword(HashWith(cfg, ch, p.password), p.user));
    NothingRan();
  }

  lemma NothingRan()
    ensures !WritesPassword([]) && !RevokesAll([])
  {
  }

  lemma RevokeMove(cfg: Config, w: World, tid: nat, ch: Choice)
    requires tid in w.procs && w.procs[tid].ResetRevoke?
    ensures var p := w.procs[tid]; var t := Step(cfg, w, Advance(tid, ch));
            var now := RanNow(cfg, w, Advance(tid, ch), tid);
            && tid in t.procs && t.burned == w.burned && !WritesPassword(now) && (RevokesAll(now) <==> !ch.fault)
            && t.procs[tid] == if ch.fault then Done(Err(Internal)) else ResetMail(p.user)
  {
    hide Step, RanNow, Next, WritesPassword, RevokesAll, OpenSessions;
    MoveIs(cfg, w, tid, ch);
    OneStatement(RevokeAll(w.procs[tid].user));
    NothingRan();
  }

  /** The last statement of either call: the mail's address, or the verified flag. */
  lemma LastMove(cfg: Config, w: World, tid: nat, ch: Choice)
    requires tid in w.procs && (w.procs[tid].ResetMail? || w.procs[tid].AcceptMark?)
    ensures var p := w.procs[tid]; var t := Step(cfg, w, Advance(tid, ch));
            var now := RanNow(cfg, w, Advance(tid, ch), tid);
            && tid in t.procs && t.burned == w.burned && !WritesPassword(now) && !RevokesAll(now)
            && t.procs[tid] == Done(if p.AcceptMark? && ch.fault then Err(Internal) else Ok(Nil))
  {
    hide Step, RanNow, Next, WritesPassword, RevokesAll;
    var p := w.procs[tid];
    MoveIs(cfg, w, tid, ch);
    OneStatement(if p.ResetMail? then EmailById(p.user) else MarkVerified(p.user));
    NothingRan();
  }

  /** Redeeming the link: it is burned exactly when the call goes on to the write. */
  lemma ConsumeMove(cfg: Config, w: World, tid: nat, ch: Choice)
    requires tid in w.procs && (w.procs[tid].ResetConsume? || w.procs[tid].AcceptConsume?) && tid !in w.burned
    ensures var p := w.procs[tid]; var t := Step(cfg, w, Advance(tid, ch));
            var now := RanNow(cfg, w, Advance(tid, ch), tid);
            && tid in t.procs && !WritesPassword(now) && !RevokesAll(now)
            && if tid in t.burned
               then t.burned[tid] == Sha256(p.token)
                 && (if p.ResetConsume? then t.procs[tid].ResetWrite? else t.procs[tid].AcceptWrite?)
               else t.procs[tid].Done? && t.procs[tid].result.Err?
  {
    hide Exec;
  }

  lemma InTwo(a: seq<Stmt>, b: seq<Stmt>)
    ensures WritesPassword(a + b) <==> WritesPassword(a) || WritesPassword(b)
    ensures RevokesAll(a + b) <==> RevokesAll(a) || RevokesAll(b)
  {
    forall i | 0 <= i < |a|
      ensures (a + b)[i] == a[i]
    {
    }
    forall i | 0 <= i < |b|
      ensures (a + b)[|a| + i] == b[i]
    {
    }
  }

  ghost predicate Ends(cfg: Config, w: World, acts: seq<Act>, tid: nat) {
    tid in Play(cfg, w, acts).procs && Play(cfg, w, acts).procs[tid].Done?
  }

  /** The move at `j` and what is left of the run make up the ending. */
  lemma Onward(cfg: Config, w: World, acts: seq<Act>, tid: nat, j: nat)
    requires MovesAt(cfg, w, acts, tid, j) && Ends(cfg, w, acts, tid)
    ensures var u := Play(cfg, w, acts[..j]); var t := Step(cfg, u, acts[j]); var rest := acts[j + 1..];
            && Ends(cfg, t, rest, tid)
            && Met(cfg, w, acts, tid) == [acts[j].choice] + Met(cfg, t, rest, tid)
            && var now := RanNow(cfg, u, acts[j], tid); var more := EndingOf(cfg, t, rest, tid);
               EndingOf(cfg, w, acts, tid)
                 == Ending(more.result, WritesPassword(now) || more.wrote, RevokesAll(now) || more.revoked)
  {
    hide Step, WritesPassword, RevokesAll, RanNow;
    var u := Play(cfg, w, acts[..j]);
    InTwo(RanNow(cfg, u, acts[j], tid), Ran(cfg, Step(cfg, u, acts[j]), acts[j + 1..], tid));
  }

  lemma EndedEnding(cfg: Config, w: World, acts: seq<Act>, tid: nat)
    requires tid in w.procs && w.procs[tid].Done?
    ensures Ends(cfg, w, acts, tid) && EndingOf(cfg, w, acts, tid) == Ending(w.procs[tid].result, false, false)
  {
    hide Step;
    EndedIsOver(cfg, w, acts, tid);
  }

  lemma LastEnds(cfg: Config, w: World, acts: seq<Act>, tid: nat)
    requires tid in w.procs && (w.procs[tid].ResetMail? || w.procs[tid].AcceptMark?) && Ends(cfg, w, acts, tid)
    ensures var chs := Met(cfg, w, acts, tid);
            && chs != [] && SameBurn(w, Play(cfg, w, acts), tid)
            && EndingOf(cfg, w, acts, tid)
               == Ending(if w.procs[tid].AcceptMark? && chs[0].fault then Err(Internal) else Ok(Nil), false, false)
  {
    hide Step, WritesPassword, RevokesAll, RanNow, EndingOf;
    var j := NextMove(cfg, w, acts, tid);
    var u := Play(cfg, w, acts[..j]);
    Onward(cfg, w, acts, tid, j);
    LastMove(cfg, u, tid, acts[j].choice);
    assert acts[j] == Advance(tid, acts[j].choice);
    EndedEnding(cfg, Step(cfg, u, acts[j]), acts[j + 1..], tid);
    EndedIsOver(cfg, Step(cfg, u, acts[j]), acts[j + 1..], tid);
  }

  lemma RevokeEnds(cfg: Config, w: World, acts: seq<Act>, tid: nat)
    requires tid in w.procs && w.procs[tid].ResetRevoke? && Ends(cfg, w, acts, tid)
    ensures var chs := Met(cfg, w, acts, tid);
            && chs != [] && SameBurn(w, Play(cfg, w, acts), tid)
            && EndingOf(cfg, w, acts, tid)
               == (if chs[0].fault then Ending(Err(Internal), false, false) else Ending(Ok(Nil), false, true))
  {
    hide Step, RanNow, EndingOf, WritesPassword, RevokesAll;
    var j := NextMove(cfg, w, acts, tid);
    var u := Play(cfg, w, acts[..j]);
    Onward(cfg, w, acts, tid, j);
    RevokeMove(cfg, u, tid, acts[j].choice);
    assert acts[j] == Advance(tid, acts[j].choice);
    if acts[j].choice.fault {
      EndedEnding(cfg, Step(cfg, u, acts[j]), acts[j + 1..], tid);
      EndedIsOver(cfg, Step(cfg, u, acts[j]), acts[j + 1..], tid);
    } else {
      LastEnds(cfg, Step(cfg, u, acts[j]), acts[j + 1..], tid);
    }
  }

  /** From its password write on, what a call answers is decided by its own next two moves. */
  lemma WriteEnds(cfg: Config, w: World, acts: seq<Act>, tid: nat)
    requires tid in w.procs && (w.procs[tid].ResetWrite? || w.procs[tid].AcceptWrite?) && Ends(cfg, w, acts, tid)
    ensures var chs := Met(cfg, w, acts, tid);
            && chs != [] && SameBurn(w, Play(cfg, w, acts), tid) && (!Fails(chs[0]) ==> |chs| > 1)
            && EndingOf(cfg, w, acts, tid) ==
                 if Fails(chs[0]) then Ending(Err(if chs[0].busy then HasherBusy else Internal), false, false)
                 else if chs[1].fault then Ending(Err(Internal), true, false)
                 else Ending(Ok(Nil), true, w.procs[tid].ResetWrite?)
  {
    hide Step, RanNow, EndingOf, WritesPassword, RevokesAll;
    var j := NextMove(cfg, w, acts, tid);
    var u := Play(cfg, w, acts[..j]);
    Onward(cfg, w, acts, tid, j);
    var t, rest := Step(cfg, u, acts[j]), acts[j + 1..];
    WriteMove(cfg, u, tid, acts[j].choice);
    assert acts[j] == Advance(tid, acts[j].choice);
    if Fails(acts[j].choice) {
      EndedEnding(cfg, t, rest, tid);
      EndedIsOver(cfg, t, rest, tid);
    } else if w.procs[tid].ResetWrite? {
      RevokeEnds(cfg, t, rest, tid);
    } else {
      LastEnds(cfg, t, rest, tid);
    }
  }

  /** How a redeemed link ends: with its password unwritten exactly when the write meets a full hashing
      bound or a driver fault, and written but reported as an error exactly when the next statement
      fails, which for a reset is its revoke-all. */
  lemma BurnedLinkEnds(cfg: Config, w: World, acts: seq<Act>, tid: nat)
    requires tid in w.procs && (w.procs[tid].ResetConsume? || w.procs[tid].AcceptConsume?) && tid !in w.burned
    requires Ends(cfg, w, acts, tid)
    ensures var end := Play(cfg, w, acts); var chs := Met(cfg, w, acts, tid); var how := EndingOf(cfg, w, acts, tid);
            if tid in end.burned
            then && end.burned[tid] == Sha256(w.procs[tid].token) && |chs| >= 2 && (!Fails(chs[1]) ==> |chs| > 2)
                 && how == (if Fails(chs[1])
                            then Ending(Err(if chs[1].busy then HasherBusy else Internal), false, false)
                            else if chs[2].fault then Ending(Err(Internal), true, false)
                            else Ending(Ok(Nil), true, w.procs[tid].ResetConsume?))
            else how.result.Err? && !how.wrote && !how.revoked
  {
    hide Step, RanNow, EndingOf, WritesPassword, RevokesAll;
    var j := NextMove(cfg, w, acts, tid);
    var u := Play(cfg, w, acts[..j]);
    Onward(cfg, w, acts, tid, j);
    var t, rest := Step(cfg, u, acts[j]), acts[j + 1..];
    ConsumeMove(cfg, u, tid, acts[j].choice);
    assert acts[j] == Advance(tid, acts[j].choice);
    if tid in t.burned {
      WriteEnds(cfg, t, rest, tid);
    } else {
      EndedEnding(cfg, t, rest, tid);
      EndedIsOver(cfg, t, rest, tid);
    }
  }

  /** A ResetPassword or AcceptInvite that redeemed its link ends in an error with no password written
      exactly when its write met a full hashing bound or a driver fault. The link is lost: no call can
      redeem it again. Written but reported as an error means the next statement failed; for a reset
      the sessions were then not revoked. A call that did not redeem its link wrote nothing. */
  lemma LinkIsLostIff(cfg: Config, w: World, acts: seq<Act>, tid: nat, call: Call)
    requires WorldOk(cfg, w) && CanPlay(cfg, w, [Start(tid, call)] + acts) && tid !in w.procs
    requires (call.ResetPassword? || call.AcceptInvite?) && Ends(cfg, Step(cfg, w, Start(tid, call)), acts, tid)
    ensures var t := Step(cfg, w, Start(tid, call)); var end := Play(cfg, t, acts); var chs := Met(cfg, t, acts, tid);
            var how := EndingOf(cfg, t, acts, tid);
            if tid in end.burned
            then && |chs| >= 2 && (forall purpose :: !CanConsume(end.store.db, call.token, purpose))
                 && (how.result.Err? && !how.wrote <==> Fails(chs[1]))
                 && (how.result.Err? && how.wrote <==> !Fails(chs[1]) && |chs| > 2 && chs[2].fault)
                 && (call.ResetPassword? ==> (how.revoked <==> how.result.Ok?))
            else how.result.Err? && !how.wrote && !how.revoked
  {
    var start := Start(tid, call);
    assert ([start] + acts)[1..] == acts && ([start] + acts)[0] == start;
    assert Possible(cfg, w, start) && CanPlay(cfg, Step(cfg, w, start), acts);
    var t := Step(cfg, w, start);
    assert t.procs[tid] == Begin(cfg, call) && tid !in t.burned;
    hide Step, EndingOf, Met, Possible, Inv, Provenance, ProcsOk;
    StepKeepsWorld(cfg, w, start);
    PlayKeepsWorld(cfg, t, acts);
    if cfg.shape(call.password) {
      BurnedLinkEnds(cfg, t, acts, tid);
    } else {
      EndedEnding(cfg, t, acts, tid);
      EndedIsOver(cfg, t, acts, tid);
    }
  }

  /** The new secret a call brings, where it brings one. */
  predicate BringsRefused(cfg: Config, call: Call) {
    match call
    case Register(email, password) => !cfg.shape(password)
    case ResetPassword(_, password) => !cfg.shape(password)
    case AcceptInvite(_, password) => !cfg.shape(password)
    case ChangePassword(caller, _, _, next) => caller.Some? && !cfg.shape(next)
    case _ => false
  }

  /** A call whose new secret the shape check refuses runs no statement, ever: it burns no link. */
  lemma RefusedShapeBurnsNothing(cfg: Config, w: World, acts: seq<Act>, tid: nat, call: Call)
    requires WorldOk(cfg, w) && tid !in w.procs && BringsRefused(cfg, call)
    ensures var t := Step(cfg, w, Start(tid, call)); var end := Play(cfg, t, acts);
            && tid in end.procs && end.procs[tid] == Done(Err(InvalidInput))
            && Ran(cfg, t, acts, tid) == [] && tid !in end.burned
  {
    var t := Step(cfg, w, Start(tid, call));
    assert t.procs[tid] == Done(Err(InvalidInput)) && tid !in t.burned;
    hide Step, Ran, Met;
    EndedIsOver(cfg, t, acts, tid);
  }

  // ---- passwords changed by a call that reports an error ----

  lemma SwapMove(cfg: Config, w: World, tid: nat, ch: Choice)
    requires WorldOk(cfg, w) && Possible(cfg, w, Advance(tid, ch)) && tid in w.procs && w.procs[tid].ChangeWrite?
    ensures var p := w.procs[tid]; var t := Step(cfg, w, Advance(tid, ch));
            && tid in t.procs
            && if !Fails(ch) && HasHash(w.store.db, p.p.user, p.prior)
               then t.procs[tid] == ChangeRotate(p.p) && HasHash(t.store.db, p.p.user, HashWith(cfg, ch, p.next))
               else t.procs[tid].Done? && t.procs[tid].result.Err? && t.store.db == w.store.db
  {
    hide Step, WorldOk, Possible, Accepts, HashWith, RanNow, Perform, Resume;
    ChangePasswordLinearises(cfg, w, tid, ch);
    MoveIs(cfg, w, tid, ch);
  }

  predicate LiveAt(db: DB, sid: Id) {
    sid in db.sessions && Live(db.sessions[sid], db.now)
  }

  lemma FreshRotates(cfg: Config, s: Store, token: string, sid: Id)
    requires SessionsOk(cfg, s) && token !in s.minted
    ensures var r := Answer(cfg, s.db, Rotate(token, sid));
            if LiveAt(s.db, sid) then r.RowId? else r.NoRows?
  {
  }

  lemma RotateMove(cfg: Config, w: World, tid: nat, ch: Choice)
    requires WorldOk(cfg, w) && Possible(cfg, w, Advance(tid, ch)) && tid in w.procs && w.procs[tid].ChangeRotate?
    ensures var sid := w.procs[tid].p.session; var t := Step(cfg, w, Advance(tid, ch));
            && tid in t.procs
            && t.procs[tid] == Done(if ch.fault then Err(Internal)
                                    else if LiveAt(w.store.db, sid) then Ok(Secret(ch.token)) else Err(SessionGone))
  {
    hide Step, RanNow, Next, Answer, LiveAt, SessionRowOk, UniqueDigests, UsersOk, TokensOk, VaultsOk, PrincipalsOk,
      CountersOk, ProcsOk, BurnsOk, Provenance;
    MoveIs(cfg, w, tid, ch);
    if !ch.fault {
      assert StatementOf(cfg, w, Advance(tid, ch)) == Some(Rotate(ch.token, w.procs[tid].p.session));
      FreshRotates(cfg, w.store, ch.token, w.procs[tid].p.session);
    }
  }

  /** The swap at `i` put the new hash in place. */
  ghost predicate Swaps(cfg: Config, w: World, acts: seq<Act>, tid: nat, i: nat)
    requires i < |acts| && acts[i].Advance? && tid in w.procs && w.procs[tid].ChangeWrite?
  {
    !Fails(acts[i].choice) && HasHash(Play(cfg, w, acts[..i]).store.db, w.procs[tid].p.user, w.procs[tid].prior)
  }

  /** A ChangePassword past its checks makes its swap at some move `i`. If the swap fails the call
      reports an error and nothing changed. If it matches, the new password is in force from then on, and
      the call still reports an error exactly when at its rotation, move `j` of the rest, the driver
      fails or its session is no longer live. */
  lemma ChangedButRefusedIff(cfg: Config, w: World, acts: seq<Act>, tid: nat) returns (i: nat, j: nat)
    requires WorldOk(cfg, w) && CanPlay(cfg, w, acts) && Ends(cfg, w, acts, tid)
    requires tid in w.procs && w.procs[tid].ChangeWrite?
    ensures MovesAt(cfg, w, acts, tid, i)
    ensures var p := w.procs[tid]; var u := Play(cfg, w, acts[..i]); var result := Play(cfg, w, acts).procs[tid].result;
            var t := Step(cfg, u, acts[i]); var rest := acts[i + 1..];
            if Swaps(cfg, w, acts, tid, i)
            then && HasHash(t.store.db, p.p.user, HashWith(cfg, acts[i].choice, p.next))
              && MovesAt(cfg, t, rest, tid, j)
                 && (result.Err? <==> rest[j].choice.fault || !LiveAt(Play(cfg, t, rest[..j]).store.db, p.p.session))
            else result.Err? && t.store.db == u.store.db
  {
    hide Step, WorldOk, Possible, HasHash, HashWith, LiveAt, Ran, Met, RanNow;
    j := 0;
    i := NextMove(cfg, w, acts, tid);
    PrefixOk(cfg, w, acts, i);
    var u := Play(cfg, w, acts[..i]);
    var t, rest := Step(cfg, u, acts[i]), acts[i + 1..];
    assert acts[i] == Advance(tid, acts[i].choice);
    SwapMove(cfg, u, tid, acts[i].choice);
    if t.procs[tid].Done? {
      EndedIsOver(cfg, t, rest, tid);
    } else {
      StepKeepsWorld(cfg, u, acts[i]);
      j := NextMove(cfg, t, rest, tid);
      PrefixOk(cfg, t, rest, j);
      var v := Play(cfg, t, rest[..j]);
      assert rest[j] == Advance(tid, rest[j].choice);
      RotateMove(cfg, v, tid, rest[j].choice);
      EndedIsOver(cfg, Step(cfg, v, rest[j]), rest[j + 1..], tid);
    }
  }
}
