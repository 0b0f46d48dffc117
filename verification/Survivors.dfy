/** Which sessions can outlive a password reset: those issued after its revoke-all, by whom. */
module Survivors {
  import opened Prelude
  import opened Passwords
  import opened Tables
  import opened Text
  import opened Sql
  import opened Invariants
  import opened Programs
  import opened Machine
  import opened MachineInvariants
  import opened CredentialTheorems
  import opened LoginTheorems
  import opened Outcomes
  import Simulation

  /** A Login past its read: the password was accepted and `user` will be signed in. */
  predicate SignsIn(p: Proc, user: Id) {
    (p.LoginRehash? || p.LoginReset? || p.LoginRevoke? || p.LoginIssue?) && p.user == user
  }

  /** Act `j` is the read at which Login `tid` found `user` entitled. */
  ghost predicate ReadsAt(cfg: Config, w: World, acts: seq<Act>, tid: nat, user: Id, j: nat) {
    && j < |acts|
    && var u := Play(cfg, w, acts[..j]);
    && Simulation.Moves(u, acts[j], tid) && u.procs[tid].LoginRead?
    && Entitled(cfg, u.store.db, u.procs[tid].email, u.procs[tid].password, user)
  }

  /** Act `k` issues session `sid` to `user`, for a Login or for the application's own Issue. */
  ghost predicate IssuesAt(cfg: Config, w: World, acts: seq<Act>, sid: Id, user: Id, k: nat) {
    && k < |acts| && acts[k].Advance?
    && var u := Play(cfg, w, acts[..k]);
    && acts[k].tid in u.procs && StatementOf(cfg, u, acts[k]) == Some(Issue(sid, acts[k].choice.token, user))
    && (u.procs[acts[k].tid] == LoginIssue(user) || u.procs[acts[k].tid] == DrawIssue(user))
  }

  lemma BeginsSignedOut(cfg: Config, call: Call, user: Id)
    ensures !SignsIn(Begin(cfg, call), user)
  {
  }

  lemma OnlyReadsSignIn(cfg: Config, p: Proc, r: Reply, ch: Choice, user: Id)
    requires SignsIn(Resume(cfg, p, r, ch), user) && !SignsIn(p, user)
    ensures p.LoginRead? && !r.Fault?
  {
    hide AfterVerdict, Verify, Present;
  }

  lemma ReadSignsIn(cfg: Config, db: DB, p: Proc, ch: Choice, user: Id)
    requires p.LoginRead? && SignsIn(Resume(cfg, p, Answer(cfg, db, LoginSelect(p.email)), ch), user)
    ensures Entitled(cfg, db, p.email, p.password, user)
  {
    hide Answer, Resume, Entitled;
    VerdictEntitles(cfg, db, p, ch);
  }

  lemma ReadReply(cfg: Config, s: Store, p: Proc, ch: Choice)
    requires p.LoginRead?
    ensures Perform(cfg, s, p, ch).1 == if ch.fault then Fault else Answer(cfg, s.db, LoginSelect(p.email))
  {
    hide Answer, Next;
  }

  /** Every step into a sign-in is a read that found the account entitled. */
  lemma SignInSteps(cfg: Config, w: World, act: Act, tid: nat, user: Id)
    requires var t := Step(cfg, w, act); tid in t.procs && SignsIn(t.procs[tid], user)
    requires !(tid in w.procs && SignsIn(w.procs[tid], user))
    ensures Simulation.Moves(w, act, tid) && w.procs[tid].LoginRead?
    ensures Entitled(cfg, w.store.db, w.procs[tid].email, w.procs[tid].password, user)
  {
    if tid in w.procs {
      if !Simulation.Moves(w, act, tid) {
        StandsStill(cfg, w, act, tid);
      }
      hide Step, Entitled, Perform, Resume, SignsIn, RanNow;
      var p := w.procs[tid];
      MoveIs(cfg, w, tid, act.choice);
      OnlyReadsSignIn(cfg, p, Perform(cfg, w.store, p, act.choice).1, act.choice, user);
      ReadReply(cfg, w.store, p, act.choice);
      ReadSignsIn(cfg, w.store.db, p, act.choice, user);
    } else {
      assert act.Start? && act.tid == tid;
      BeginsSignedOut(cfg, act.call, user);
      assert false;
    }
  }

  /** A Login that is signing in was already past its read, or made that read during the run. */
  lemma {:induction false} SignInOrigin(cfg: Config, w: World, acts: seq<Act>, tid: nat, user: Id) returns (j: nat)
    requires tid in Play(cfg, w, acts).procs && SignsIn(Play(cfg, w, acts).procs[tid], user)
    ensures (tid in w.procs && SignsIn(w.procs[tid], user)) || ReadsAt(cfg, w, acts, tid, user, j)
    decreases |acts|
  {
    hide Step, SignsIn, Entitled;
    j := 0;
    if acts != [] && !(tid in w.procs && SignsIn(w.procs[tid], user)) {
      var t := Step(cfg, w, acts[0]);
      if tid in t.procs && SignsIn(t.procs[tid], user) {
        SignInSteps(cfg, w, acts[0], tid, user);
        assert acts[..0] == [];
      } else {
        var i := SignInOrigin(cfg, t, acts[1..], tid, user);
        j := i + 1;
        assert acts[..j][1..] == acts[1..][..i];
      }
    }
  }

  /** Only an Issue makes a session, and only two steps of the programs ask for one. */
  lemma IssueStep(cfg: Config, w: World, act: Act, sid: Id)
    requires WorldOk(cfg, w) && sid !in w.store.db.sessions && sid in Step(cfg, w, act).store.db.sessions
    ensures act.Advance? && act.tid in w.procs
    ensures var user := Step(cfg, w, act).store.db.sessions[sid].user;
            && StatementOf(cfg, w, act) == Some(Issue(sid, act.choice.token, user))
            && (w.procs[act.tid] == LoginIssue(user) || w.procs[act.tid] == DrawIssue(user))
  {
    hide SessionsAfter, UsersAfter, TokensAfter, AttemptsAfter, VaultsAfter, Answer, Resume, Inv, BurnsOk, Provenance;
    if act.Advance? && StatementOf(cfg, w, act).Some? {
      var st := StatementOf(cfg, w, act).value;
      assert Step(cfg, w, act).store.db.sessions == SessionsAfter(cfg, w.store.db, st);
      RowIssued(cfg, w.store.db, st, sid);
      assert ProcOk(cfg, w, act.tid, w.procs[act.tid]);
    }
  }

  /** So a session that was not there was issued during the run, to the user who owns it at the end. */
  lemma {:induction false} IssuedDuring(cfg: Config, w: World, acts: seq<Act>, sid: Id) returns (k: nat)
    requires WorldOk(cfg, w) && CanPlay(cfg, w, acts)
    requires sid !in w.store.db.sessions && sid in Play(cfg, w, acts).store.db.sessions
    ensures IssuesAt(cfg, w, acts, sid, Play(cfg, w, acts).store.db.sessions[sid].user, k)
    decreases |acts|
  {
    hide Step, Possible, WorldOk, StatementOf;
    k := 0;
    if acts == [] {
      assert false;
    } else {
      var t := Step(cfg, w, acts[0]);
      StepKeepsWorld(cfg, w, acts[0]);
      if sid in t.store.db.sessions {
        IssueStep(cfg, w, acts[0], sid);
        OwnerStays(cfg, t, acts[1..], sid);
        assert acts[..0] == [];
      } else {
        var i := IssuedDuring(cfg, t, acts[1..], sid);
        k := i + 1;
        assert acts[..k][1..] == acts[1..][..i];
      }
    }
  }

  lemma OwnerStays(cfg: Config, w: World, acts: seq<Act>, sid: Id)
    requires WorldOk(cfg, w) && CanPlay(cfg, w, acts) && sid in w.store.db.sessions
    ensures var end := Play(cfg, w, acts).store.db;
            sid in end.sessions && end.sessions[sid].user == w.store.db.sessions[sid].user
  {
    hide ProcsOk, BurnsOk, Provenance;
    PlayProjects(cfg, w, acts);
    RunKeepsInv(cfg, w.store, Trace(cfg, w, acts));
  }

  /** A hash `u` has on the account is the one `v` had, or one never written before. */
  ghost predicate NoOlderHash(v: Store, u: Store, user: Id) {
    forall e :: SaltKnown(v, e) && HasHash(u.db, user, e) ==> HasHash(v.db, user, e)
  }

  lemma OldHashesStayOut(cfg: Config, w: World, acts: seq<Act>, user: Id)
    requires WorldOk(cfg, w) && CanPlay(cfg, w, acts) && user in w.store.db.users
    ensures NoOlderHash(w.store, Play(cfg, w, acts).store, user)
  {
    hide Play, HasHash, WorldOk, CanPlay, After, ValidRun, Trace, SaltKnown;
    PlayProjects(cfg, w, acts);
    forall e | SaltKnown(w.store, e) && !HasHash(w.store.db, user, e)
      ensures !HasHash(Play(cfg, w, acts).store.db, user, e)
    {
      assert Gone(w.store, user, e);
      GoneStaysGone(cfg, w.store, Trace(cfg, w, acts), user, e);
    }
  }

  /** How session `sid` of `user` comes to exist after `w`: issued at `k` by the application, or for a
      Login that was past its read by `w`, or for one that read later, at `j`, when no password of
      before `w` but the one then in force was accepted. */
  ghost predicate Survivor(cfg: Config, w: World, acts: seq<Act>, sid: Id, user: Id, k: nat, j: nat) {
    && IssuesAt(cfg, w, acts, sid, user, k)
    && var tid := acts[k].tid;
    || Play(cfg, w, acts[..k]).procs[tid] == DrawIssue(user)
    || (tid in w.procs && SignsIn(w.procs[tid], user))
    || (j < k && ReadsAt(cfg, w, acts, tid, user, j) && NoOlderHash(w.store, Play(cfg, w, acts[..j]).store, user))
  }

  lemma NewSessionsAreSurvivors(cfg: Config, w: World, acts: seq<Act>, sid: Id, user: Id) returns (k: nat, j: nat)
    requires WorldOk(cfg, w) && CanPlay(cfg, w, acts) && user in w.store.db.users
    requires sid !in w.store.db.sessions && sid in Play(cfg, w, acts).store.db.sessions
    requires Play(cfg, w, acts).store.db.sessions[sid].user == user
    ensures Survivor(cfg, w, acts, sid, user, k, j)
  {
    hide Play, WorldOk, CanPlay, NoOlderHash, Entitled, StatementOf;
    j := 0;
    k := IssuedDuring(cfg, w, acts, sid);
    var tid := acts[k].tid;
    if Play(cfg, w, acts[..k]).procs[tid] == LoginIssue(user) {
      j := SignInOrigin(cfg, w, acts[..k], tid, user);
      if !(tid in w.procs && SignsIn(w.procs[tid], user)) {
        assert acts[..k][..j] == acts[..j];
        CanPlayPrefix(cfg, w, acts, j);
        OldHashesStayOut(cfg, w, acts[..j], user);
      }
    }
  }

  lemma {:induction false} CanPlayPrefix(cfg: Config, w: World, acts: seq<Act>, j: nat)
    requires CanPlay(cfg, w, acts) && j <= |acts|
    ensures CanPlay(cfg, w, acts[..j])
    decreases j
  {
    hide Step, Possible;
    if j > 0 {
      CanPlayPrefix(cfg, Step(cfg, w, acts[0]), acts[1..], j - 1);
      assert acts[..j][1..] == acts[1..][..j - 1];
    }
  }

  lemma {:induction false} Onwards(cfg: Config, w: World, acts: seq<Act>, i: nat)
    requires WorldOk(cfg, w) && CanPlay(cfg, w, acts) && i < |acts|
    ensures var v := Play(cfg, w, acts[..i]);
            WorldOk(cfg, v) && CanPlay(cfg, v, acts[i..]) && Play(cfg, v, acts[i..]) == Play(cfg, w, acts)
    decreases i
  {
    hide Step, Possible, WorldOk;
    if i == 0 {
      assert acts[..0] == [] && acts[0..] == acts;
    } else {
      StepKeepsWorld(cfg, w, acts[0]);
      Onwards(cfg, Step(cfg, w, acts[0]), acts[1..], i - 1);
      assert acts[..i][1..] == acts[1..][..i - 1] && acts[1..][i - 1..] == acts[i..];
    }
  }

  ghost predicate Owns(db: DB, sid: Id, user: Id) {
    sid in db.sessions && db.sessions[sid].user == user
  }

  /** After a reset that returned nil, a session of the account that still resolves was issued after
      the revoke-all at `i`: to a Login that had read the account before it, to a Login that read it
      later, when only the hash in force at the revoke-all or a newer one could accept, or to the
      application's own Issue. */
  lemma WhoOutlivesAReset(cfg: Config, w: World, acts: seq<Act>, tid: nat, d: Digest) returns (i: nat, user: Id)
    requires WorldOk(cfg, w) && CanPlay(cfg, w, acts) && Resetting(w, tid, d)
    requires tid in Play(cfg, w, acts).procs && Play(cfg, w, acts).procs[tid].Done?
             && Play(cfg, w, acts).procs[tid].result.Ok?
    ensures i < |acts| && acts[i].Advance? && acts[i].tid == tid
    ensures StatementOf(cfg, Play(cfg, w, acts[..i]), acts[i]) == Some(RevokeAll(user))
    ensures Evidence(Play(cfg, w, acts[..i]).store.db, d, user, {ForReset})
    ensures var v := Play(cfg, w, acts[..i]); var end := Play(cfg, w, acts).store.db;
            forall sid, token :: Resolves(end, token, sid) && Owns(end, sid, user) ==>
              exists k, j :: Survivor(cfg, v, acts[i..], sid, user, k, j)
  {
    hide Play, Step, WorldOk, CanPlay, StatementOf, Survivor, Evidence, Resetting;
    i, user := ResetPasswordKillsSessions(cfg, w, acts, tid, d);
    Onwards(cfg, w, acts, i);
    var v := Play(cfg, w, acts[..i]);
    EvidenceHasUser(cfg, v, d, user);
    var end := Play(cfg, w, acts).store.db;
    forall sid, token | Resolves(end, token, sid) && Owns(end, sid, user)
      ensures exists k, j :: Survivor(cfg, v, acts[i..], sid, user, k, j)
    {
      if sid in v.store.db.sessions {
        OwnerStays(cfg, v, acts[i..], sid);
        assert false;
      }
      var k, j := NewSessionsAreSurvivors(cfg, v, acts[i..], sid, user);
    }
  }

  lemma EvidenceHasUser(cfg: Config, w: World, d: Digest, user: Id)
    requires WorldOk(cfg, w) && Evidence(w.store.db, d, user, {ForReset})
    ensures user in w.store.db.users
  {
  }

  // ---- a session that does outlive a reset ----

  /** A move whose statement the driver carries out. */
  lemma Executes(cfg: Config, w: World, tid: nat, ch: Choice)
    requires tid in w.procs && !ch.fault && Request(cfg, w.procs[tid], ch).Some?
    ensures var p := w.procs[tid]; var st := Request(cfg, p, ch).value; var t := Step(cfg, w, Advance(tid, ch));
            && t.store.db == Exec(cfg, w.store.db, st)
            && t.store.minted == w.store.minted + MintedBy(st) && t.store.salts == w.store.salts + SaltsOf(st)
            && t.procs == w.procs[tid := Resume(cfg, p, Answer(cfg, w.store.db, st), ch)]
            && (MintedBy(st) !! w.store.minted && SaltsOf(st) !! w.store.salts ==> Possible(cfg, w, Advance(tid, ch)))
  {
    hide Exec, Answer, Resume, Request, TokenBurnedBy;
  }

  /** The draws of a run, new to the store. */
  predicate Fresh(s: Store, ch: Choice) {
    !ch.fault && !ch.busy && ch.token !in s.minted && ch.salt !in s.salts && ch.id !in s.db.sessions
  }

  /** A Login about to read the account that accepts its password, under a hash that needs no rehash. */
  predicate AboutToRead(cfg: Config, db: DB, p: Proc, user: Id) {
    && p.LoginRead? && p.caller.None? && Entitled(cfg, db, p.email, p.password, user)
    && Verify(cfg.cost, false, p.password, db.users[user].hash.value) == Ok(Verdict(true, false))
  }

  lemma ReadsOldHash(cfg: Config, w: World, tid: nat, ch: Choice, user: Id)
    requires WorldOk(cfg, w) && tid in w.procs && AboutToRead(cfg, w.store.db, w.procs[tid], user) && Fresh(w.store, ch)
    ensures var p := w.procs[tid]; var t := Step(cfg, w, Advance(tid, ch));
            && Possible(cfg, w, Advance(tid, ch)) && t.store.db == w.store.db && Fresh(t.store, ch)
            && t.procs == w.procs[tid := LoginReset(user, p.email, p.ip, None)]
  {
    hide Step, Possible, Verify, Accepts, Lower, SessionsOk, TokensOk, VaultsOk, PrincipalsOk, CountersOk, ProcsOk,
      BurnsOk, Provenance;
    Executes(cfg, w, tid, ch);
    OneAccount(cfg, w.store, w.procs[tid].email, user);
  }

  lemma OneAccount(cfg: Config, s: Store, email: string, user: Id)
    requires UsersOk(s) && user in s.db.users && LiveAddress(s.db.users[user], email)
    ensures Answer(cfg, s.db, LoginSelect(email)) == RowAccount(user, s.db.users[user].hash, s.db.users[user].verified)
  {
    hide Lower;
  }

  /** The reset from its password write to its answer. */
  lemma ResetFinishes(cfg: Config, w: World, tid: nat, ch: Choice)
    requires tid in w.procs && w.procs[tid].ResetWrite? && w.procs[tid].user in w.store.db.users && Fresh(w.store, ch)
    ensures var user, password := w.procs[tid].user, w.procs[tid].password; var x := Advance(tid, ch);
            var t := Play(cfg, w, [x, x, x]);
            && CanPlay(cfg, w, [x, x, x]) && t.procs == w.procs[tid := Done(Ok(Nil))]
            && t.store.minted == w.store.minted && ch.id !in t.store.db.sessions
            && t.store.db.users
               == w.store.db.users[user := w.store.db.users[user].(hash := Some(HashWith(cfg, ch, password)))]
  {
    var x := Advance(tid, ch);
    WriteStep(cfg, w, tid, ch);
    var w1 := Step(cfg, w, x);
    RevokeStep(cfg, w1, tid, ch);
    var w2 := Step(cfg, w1, x);
    MailStep(cfg, w2, tid, ch);
    hide Step, Possible, HashWith;
    PlayPair(cfg, w1, x);
    PlayThree(cfg, w, x);
  }

  lemma OneThen(cfg: Config, w: World, x: Act, rest: seq<Act>)
    ensures Play(cfg, w, [x] + rest) == Play(cfg, Step(cfg, w, x), rest)
    ensures CanPlay(cfg, w, [x] + rest) <==> Possible(cfg, w, x) && CanPlay(cfg, Step(cfg, w, x), rest)
  {
    hide Step, Possible;
    assert ([x] + rest)[1..] == rest;
  }

  lemma PlayThree(cfg: Config, w: World, x: Act)
    ensures Play(cfg, w, [x, x, x]) == Step(cfg, Step(cfg, Step(cfg, w, x), x), x)
    ensures Possible(cfg, w, x) && CanPlay(cfg, Step(cfg, w, x), [x, x]) ==> CanPlay(cfg, w, [x, x, x])
  {
    hide Step, Possible;
    assert [x, x, x] == [x] + [x, x];
    OneThen(cfg, w, x, [x, x]);
    PlayPair(cfg, Step(cfg, w, x), x);
  }

  lemma WriteStep(cfg: Config, w: World, tid: nat, ch: Choice)
    requires tid in w.procs && w.procs[tid].ResetWrite? && w.procs[tid].user in w.store.db.users && Fresh(w.store, ch)
    ensures var p := w.procs[tid]; var db := w.store.db; var t := Step(cfg, w, Advance(tid, ch));
            && Possible(cfg, w, Advance(tid, ch)) && t.procs == w.procs[tid := ResetRevoke(p.user)]
            && t.store.minted == w.store.minted
            && t.store.db
               == db.(users := db.users[p.user := db.users[p.user].(hash := Some(HashWith(cfg, ch, p.password)))])
  {
    hide Step, Possible;
    Executes(cfg, w, tid, ch);
  }

  lemma RevokeStep(cfg: Config, w: World, tid: nat, ch: Choice)
    requires tid in w.procs && w.procs[tid].ResetRevoke? && !ch.fault
    ensures var p := w.procs[tid]; var db := w.store.db; var t := Step(cfg, w, Advance(tid, ch));
            && Possible(cfg, w, Advance(tid, ch)) && t.procs == w.procs[tid := ResetMail(p.user)]
            && t.store.minted == w.store.minted && t.store.db.users == db.users
            && t.store.db.sessions.Keys == db.sessions.Keys
  {
    hide Step, Possible;
    Executes(cfg, w, tid, ch);
  }

  lemma MailStep(cfg: Config, w: World, tid: nat, ch: Choice)
    requires tid in w.procs && w.procs[tid].ResetMail? && !ch.fault
    ensures var t := Step(cfg, w, Advance(tid, ch));
            && Possible(cfg, w, Advance(tid, ch)) && t.procs == w.procs[tid := Done(Ok(Nil))]
            && t.store.minted == w.store.minted && t.store.db == w.store.db
  {
    hide Step, Possible;
    Executes(cfg, w, tid, ch);
  }

  lemma ResetStep(cfg: Config, w: World, tid: nat, ch: Choice)
    requires tid in w.procs && w.procs[tid].LoginReset? && w.procs[tid].caller.None? && !ch.fault
    ensures var db := w.store.db; var t := Step(cfg, w, Advance(tid, ch));
            && Possible(cfg, w, Advance(tid, ch)) && t.procs == w.procs[tid := LoginIssue(w.procs[tid].user)]
            && t.store.minted == w.store.minted && t.store.db == db.(attempts := t.store.db.attempts)
  {
    hide Step, Possible;
    Executes(cfg, w, tid, ch);
  }

  lemma IssuesNow(cfg: Config, w: World, tid: nat, ch: Choice)
    requires SessionsOk(cfg, w.store) && GoodConfig(cfg) && !ch.fault && ch.token !in w.store.minted
             && ch.id !in w.store.db.sessions
    requires tid in w.procs && w.procs[tid].LoginIssue? && w.procs[tid].user in w.store.db.users
             && !w.store.db.users[w.procs[tid].user].deleted
    ensures var user := w.procs[tid].user; var t := Step(cfg, w, Advance(tid, ch));
            && Possible(cfg, w, Advance(tid, ch)) && t.procs == w.procs[tid := LoginLookup(ch.token)]
            && t.store.db.users == w.store.db.users && Resolves(t.store.db, ch.token, ch.id)
            && Owns(t.store.db, ch.id, user)
  {
    hide Step, Possible;
    Executes(cfg, w, tid, ch);
    assert CanIssue(w.store.db, ch.id, ch.token, w.procs[tid].user);
  }

  /** A Login that accepted the old password just before a reset's write and issues after its revoke-all:
      the reset returns nil, and the session opened with the replaced password resolves all the same. */
  lemma EarlyReaderOutlivesTheReset(cfg: Config, w: World, a: nat, b: nat, ch: Choice, user: Id)
    requires WorldOk(cfg, w) && GoodConfig(cfg) && Fresh(w.store, ch) && a in w.procs && b in w.procs
    requires AboutToRead(cfg, w.store.db, w.procs[a], user) && w.procs[b].ResetWrite? && w.procs[b].user == user
    ensures var x, y := Advance(a, ch), Advance(b, ch); var acts := [x] + ([y, y, y] + [x, x]);
            var end := Play(cfg, w, acts);
            && CanPlay(cfg, w, acts)
            && b in end.procs && end.procs[b] == Done(Ok(Nil)) && a in end.procs
            && end.procs[a] == LoginLookup(ch.token)
            && Resolves(end.store.db, ch.token, ch.id) && Owns(end.store.db, ch.id, user)
            && HasHash(end.store.db, user, HashWith(cfg, ch, w.procs[b].password))
  {
    hide Step, Possible, HashWith, Resolves, Entitled, SessionsOk, UsersOk, TokensOk, VaultsOk, PrincipalsOk,
      CountersOk, ProcsOk, BurnsOk, Provenance;
    var x, y := Advance(a, ch), Advance(b, ch);
    assert a != b && user in w.store.db.users
           && !w.store.db.users[user].deleted by { EntitledIsLive(cfg, w.store.db, w.procs[a], user); }
    ReadsOldHash(cfg, w, a, ch, user);
    var w1 := Step(cfg, w, x);
    StepKeepsWorld(cfg, w, x);
    ResetFinishes(cfg, w1, b, ch);
    var w4 := Play(cfg, w1, [y, y, y]);
    PlayKeepsWorld(cfg, w1, [y, y, y]);
    ResetStep(cfg, w4, a, ch);
    var w5 := Step(cfg, w4, x);
    StepKeepsWorld(cfg, w4, x);
    IssuesNow(cfg, w5, a, ch);
    PlayPair(cfg, w4, x);
    InThree(cfg, w, x, [y, y, y], [x, x]);
  }

  lemma EntitledIsLive(cfg: Config, db: DB, p: Proc, user: Id)
    requires AboutToRead(cfg, db, p, user)
    ensures user in db.users && !db.users[user].deleted && p.LoginRead?
  {
  }

  lemma PlayPair(cfg: Config, w: World, x: Act)
    ensures Play(cfg, w, [x, x]) == Step(cfg, Step(cfg, w, x), x)
    ensures Possible(cfg, w, x) && Possible(cfg, Step(cfg, w, x), x) ==> CanPlay(cfg, w, [x, x])
  {
    hide Step, Possible;
    assert [x, x] == [x] + [x] && [x] == [x] + [];
    OneThen(cfg, w, x, [x]);
    OneThen(cfg, Step(cfg, w, x), x, []);
  }

  lemma InThree(cfg: Config, w: World, x: Act, b: seq<Act>, c: seq<Act>)
    requires var t := Step(cfg, w, x); Possible(cfg, w, x) && CanPlay(cfg, t, b) && CanPlay(cfg, Play(cfg, t, b), c)
    ensures CanPlay(cfg, w, [x] + (b + c)) && Play(cfg, w, [x] + (b + c)) == Play(cfg, Play(cfg, Step(cfg, w, x), b), c)
  {
    hide Step, Possible;
    OneThen(cfg, w, x, b + c);
    CanPlayBoth(cfg, Step(cfg, w, x), b, c);
  }

  lemma {:induction false} CanPlayBoth(cfg: Config, w: World, a: seq<Act>, b: seq<Act>)
    requires CanPlay(cfg, w, a) && CanPlay(cfg, Play(cfg, w, a), b)
    ensures CanPlay(cfg, w, a + b) && Play(cfg, w, a + b) == Play(cfg, Play(cfg, w, a), b)
    decreases |a|
  {
    hide Step, Possible;
    if a == [] {
      assert a + b == b;
    } else {
      assert (a + b)[0] == a[0] && (a + b)[1..] == a[1..] + b;
      CanPlayBoth(cfg, Step(cfg, w, a[0]), a[1..], b);
    }
  }
}
