/** Passwords, emailed tokens and resets, in every interleaving of calls. */
module CredentialTheorems {
  import opened Prelude
  import opened Passwords
  import opened Tables
  import opened Text
  import opened Sql
  import opened Invariants
  import opened SessionTheorems
  import opened Programs
  import opened Machine
  import opened MachineInvariants

  // ---- the compare-and-swap on the hash ----

  ghost predicate HasHash(db: DB, user: Id, e: Encoded) {
    user in db.users && db.users[user].hash == Some(e)
  }

  /** A hash that left the row cannot come back: every write carries a fresh salt. */
  ghost predicate Gone(s: Store, user: Id, e: Encoded) {
    !HasHash(s.db, user, e) && user in s.db.users && SaltKnown(s, e)
  }

  lemma HashMoves(db: DB, st: Stmt, user: Id)
    requires user in db.users
    ensures user in UsersAfter(db, st)
    ensures UsersAfter(db, st)[user].hash == db.users[user].hash ||
            (HashOf(st).Some? && UsersAfter(db, st)[user].hash == HashOf(st)
             && (st.UpdatePassword? || st.SetPassword?) && st.user == user
             && (st.UpdatePassword? ==> db.users[user].hash == Some(st.prior)))
  {
  }

  lemma NextKeepsGone(cfg: Config, s: Store, ev: Event, user: Id, e: Encoded)
    requires Enabled(s, ev) && Gone(s, user, e)
    ensures Gone(Next(cfg, s, ev), user, e)
  {
    if ev.Run? {
      HashMoves(s.db, ev.stmt, user);
    }
  }

  lemma {:induction false} GoneStaysGone(cfg: Config, s: Store, evs: seq<Event>, user: Id, e: Encoded)
    requires ValidRun(cfg, s, evs) && Gone(s, user, e)
    ensures Gone(After(cfg, s, evs), user, e)
    decreases |evs|
  {
    if evs != [] {
      NextKeepsGone(cfg, s, evs[0], user, e);
      GoneStaysGone(cfg, Next(cfg, s, evs[0]), evs[1..], user, e);
    }
  }

  /** No ABA: a compare-and-swap that matches proves the hash stood there all the time since it was
      read, whatever ran in between. */
  lemma MatchMeansUndisturbed(cfg: Config, s: Store, evs: seq<Event>, user: Id, read: Encoded, k: nat)
    requires Inv(cfg, s) && ValidRun(cfg, s, evs) && HasHash(s.db, user, read) && k <= |evs|
    requires HasHash(After(cfg, s, evs).db, user, read)
    ensures HasHash(After(cfg, s, evs[..k]).db, user, read)
  {
    assert evs == evs[..k] + evs[k..];
    AfterConcat(cfg, s, evs[..k], evs[k..]);
    RunKeepsInv(cfg, s, evs[..k]);
    var mid := After(cfg, s, evs[..k]);
    if !HasHash(mid.db, user, read) {
      assert SaltKnown(s, read) && Gone(mid, user, read);
      GoneStaysGone(cfg, mid, evs[k..], user, read);
    }
  }

  /** Two changes verified against the same hash cannot both succeed: the second one conflicts. */
  lemma OneChangePerHash(cfg: Config, s: Store, first: Encoded, evs: seq<Event>, second: Encoded, user: Id,
                         read: Encoded)
    requires Inv(cfg, s) && HasHash(s.db, user, read)
    requires ValidRun(cfg, s, [Run(UpdatePassword(first, user, read))] + evs)
    ensures var t := After(cfg, s, [Run(UpdatePassword(first, user, read))] + evs);
            Answer(cfg, t.db, UpdatePassword(second, user, read)) == Affected(0)
            && Exec(cfg, t.db, UpdatePassword(second, user, read)) == t.db
  {
    var ev := Run(UpdatePassword(first, user, read));
    assert ([ev] + evs)[1..] == evs;
    assert Gone(Next(cfg, s, ev), user, read);
    GoneStaysGone(cfg, Next(cfg, s, ev), evs, user, read);
  }

  /** What entitles a call to replace an account's hash, and what the replacement accepts: its own
      redeemed reset or invite token, or a password that verifies against the hash it replaces. */
  ghost predicate Authorised(cfg: Config, w: World, tid: nat, user: Id, before: Option<Encoded>, after: Encoded) {
    tid in w.procs &&
    match w.procs[tid]
    case ChangeWrite(p, current, next, prior) =>
      && p.user == user && p in w.store.principals
      && before == Some(prior) && Accepts(prior, current) && cfg.shape(next)
      && forall x :: Accepts(after, x) <==> x == next
    case LoginRehash(u, _, _, password, prior, _) =>
      && u == user && before == Some(prior) && Accepts(prior, password)
      && forall x :: Accepts(after, x) ==> Accepts(prior, x)
    case ResetWrite(u, password) =>
      && u == user && Burned(w, tid, user, {ForReset}) && cfg.shape(password)
      && forall x :: Accepts(after, x) <==> x == password
    case AcceptWrite(u, password) =>
      && u == user && Burned(w, tid, user, {ForInvite}) && cfg.shape(password)
      && forall x :: Accepts(after, x) <==> x == password
    case _ => false
  }

  lemma RequestIsAuthorised(cfg: Config, w: World, tid: nat, ch: Choice, user: Id, before: Option<Encoded>)
    requires tid in w.procs && ProcOk(cfg, w, tid, w.procs[tid])
    requires var st := Request(cfg, w.procs[tid], ch);
             && st.Some? && (st.value.UpdatePassword? || st.value.SetPassword?) && st.value.user == user
             && (st.value.UpdatePassword? ==> before == Some(st.value.prior))
    ensures Authorised(cfg, w, tid, user, before, HashOf(Request(cfg, w.procs[tid], ch).value).value)
  {
  }

  /** Whoever rewrites an existing account's hash is entitled to, at that very instant. */
  lemma HashChangesAreAuthorised(cfg: Config, w: World, act: Act, user: Id)
    requires WorldOk(cfg, w) && Possible(cfg, w, act) && user in w.store.db.users
    ensures user in Step(cfg, w, act).store.db.users
    ensures var before := w.store.db.users[user].hash; var after := Step(cfg, w, act).store.db.users[user].hash;
            after != before ==> act.Advance? && after.Some? && Authorised(cfg, w, act.tid, user, before, after.value)
  {
    hide Inv, BurnsOk, Provenance, Authorised, Resume;
    var st := StatementOf(cfg, w, act);
    if st.Some? {
      HashMoves(w.store.db, st.value, user);
      assert Step(cfg, w, act).store.db.users == UsersAfter(w.store.db, st.value);
      if UsersAfter(w.store.db, st.value)[user].hash != w.store.db.users[user].hash {
        RequestIsAuthorised(cfg, w, act.tid, act.choice, user, w.store.db.users[user].hash);
      }
    }
  }

  lemma UpdateEffect(cfg: Config, db: DB, next: Encoded, user: Id, prior: Encoded)
    ensures var st := UpdatePassword(next, user, prior);
            Exec(cfg, db, st) == db.(users := UsersAfter(db, st))
              && (!HasHash(db, user, prior) ==> UsersAfter(db, st) == db.users)
  {
  }

  /** A ChangePassword takes effect at its UPDATE or not at all: success overwrites the hash that
      accepts `current` at that instant, and a lost race changes no row and reports the failure. */
  lemma ChangePasswordLinearises(cfg: Config, w: World, tid: nat, ch: Choice)
    requires WorldOk(cfg, w) && Possible(cfg, w, Advance(tid, ch)) && tid in w.procs && w.procs[tid].ChangeWrite?
    ensures var p, prior := w.procs[tid].p, w.procs[tid].prior;
            var db := w.store.db; var t := Step(cfg, w, Advance(tid, ch));
            if !ch.busy && !ch.fault && HasHash(db, p.user, prior)
            then && t.procs[tid] == ChangeRotate(p) && Accepts(prior, w.procs[tid].current)
                 && t.store.db == db.(users := db.users[p.user :=
                      db.users[p.user].(hash := Some(HashWith(cfg, ch, w.procs[tid].next)))])
            else t.procs[tid].Done? && t.procs[tid].result.Err? && t.store.db == db
  {
    hide Exec, Inv, BurnsOk, Provenance;
    var p := w.procs[tid];
    assert ProcOk(cfg, w, tid, p);
    UpdateEffect(cfg, w.store.db, HashWith(cfg, ch, p.next), p.p.user, p.prior);
    var (store, r) := Perform(cfg, w.store, p, ch);
    assert Step(cfg, w, Advance(tid, ch)).procs[tid] == Resume(cfg, p, r, ch);
  }

  // ---- emailed tokens ----

  lemma FailedConsumeChangesNothing(cfg: Config, db: DB, token: string, purpose: Purpose)
    requires Answer(cfg, db, ConsumeToken(token, purpose)) == NoRows
    ensures Exec(cfg, db, ConsumeToken(token, purpose)) == db
    ensures Sha256(token) in db.tokens ==>
              var row := db.tokens[Sha256(token)];
              row.purpose != purpose || row.consumed.Some? || row.expires <= db.now
  {
  }

  /** A redeemed token is spent: no later redemption, for any purpose, succeeds. */
  lemma {:induction false} SpentStaysSpent(cfg: Config, s: Store, evs: seq<Event>, d: Digest)
    requires Inv(cfg, s) && ValidRun(cfg, s, evs) && d in s.db.tokens && s.db.tokens[d].consumed.Some?
    ensures var t := After(cfg, s, evs).db;
            d in t.tokens && t.tokens[d].consumed == s.db.tokens[d].consumed
    decreases |evs|
  {
    if evs != [] {
      NextKeepsTokenRows(cfg, s, evs[0], d);
      NextKeepsInv(cfg, s, evs[0]);
      SpentStaysSpent(cfg, Next(cfg, s, evs[0]), evs[1..], d);
    }
  }

  lemma ConsumedAtMostOnce(cfg: Config, s: Store, token: string, purpose: Purpose, evs: seq<Event>, again: Purpose)
    requires Inv(cfg, s) && CanConsume(s.db, token, purpose)
    requires ValidRun(cfg, s, [Run(ConsumeToken(token, purpose))] + evs)
    ensures !CanConsume(After(cfg, s, [Run(ConsumeToken(token, purpose))] + evs).db, token, again)
  {
    var ev := Run(ConsumeToken(token, purpose));
    assert ([ev] + evs)[1..] == evs;
    NextKeepsInv(cfg, s, ev);
    SpentStaysSpent(cfg, Next(cfg, s, ev), evs, Sha256(token));
  }

  /** Past its password write, a call is past it for good. */
  predicate PastWrite(p: Proc) {
    p.ResetRevoke? || p.ResetMail? || p.AcceptMark? || p.Done?
  }

  lemma {:induction false} WritesOnce(cfg: Config, w: World, acts: seq<Act>, tid: nat)
    requires tid in w.procs && PastWrite(w.procs[tid])
    ensures var t := Play(cfg, w, acts); tid in t.procs && PastWrite(t.procs[tid])
    ensures forall ch :: var st := StatementOf(cfg, Play(cfg, w, acts), Advance(tid, ch));
            st.Some? ==> !st.value.SetPassword?
    decreases |acts|
  {
    if acts != [] {
      WritesOnce(cfg, Step(cfg, w, acts[0]), acts[1..], tid);
    }
  }

  /** Every SetPassword is backed by a token its own call redeemed for this account; no two calls
      share a token, and a call that has written does not write again (WritesOnce). */
  lemma SetPasswordIsBacked(cfg: Config, w: World, act: Act, hash: Encoded, user: Id)
    requires WorldOk(cfg, w) && Possible(cfg, w, act)
    requires StatementOf(cfg, w, act) == Some(SetPassword(hash, user))
    ensures Burned(w, act.tid, user, {ForReset, ForInvite})
    ensures forall other :: other in w.burned && w.burned[other] == w.burned[act.tid] ==> other == act.tid
    ensures PastWrite(Step(cfg, w, act).procs[act.tid])
  {
    assert ProcOk(cfg, w, act.tid, w.procs[act.tid]);
    assert w.procs[act.tid].ResetWrite? || w.procs[act.tid].AcceptWrite?;
  }

  /** In every reachable state a verified address, on an account this library inserted, goes back
      to a redeemed verification or invitation link for that account. */
  lemma VerifiedHasProvenance(cfg: Config, w: World, acts: seq<Act>, user: Id) returns (d: Digest)
    requires WorldOk(cfg, w) && CanPlay(cfg, w, acts)
    requires user in Play(cfg, w, acts).created && user in Play(cfg, w, acts).store.db.users
    requires Play(cfg, w, acts).store.db.users[user].verified
    ensures Evidence(Play(cfg, w, acts).store.db, d, user, {ForVerify, ForInvite})
  {
    PlayKeepsWorld(cfg, w, acts);
    d :| Evidence(Play(cfg, w, acts).store.db, d, user, {ForVerify, ForInvite});
  }

  // ---- password reset ----

  lemma PlayKeepsDead(cfg: Config, w: World, acts: seq<Act>, sid: Id)
    requires WorldOk(cfg, w) && CanPlay(cfg, w, acts) && Dead(w.store.db, sid)
    ensures forall token :: !Resolves(Play(cfg, w, acts).store.db, token, sid)
  {
    PlayProjects(cfg, w, acts);
    DeadStaysDead(cfg, w.store, Trace(cfg, w, acts), sid);
  }

  /** Call `tid` is a ResetPassword holding the token with digest `d`, not yet past its revoke-all. */
  ghost predicate Resetting(w: World, tid: nat, d: Digest) {
    tid in w.procs &&
    match w.procs[tid]
    case ResetConsume(token, _) => Sha256(token) == d
    case ResetWrite(_, _) => tid in w.burned && w.burned[tid] == d
    case ResetRevoke(_) => tid in w.burned && w.burned[tid] == d
    case _ => false
  }

  lemma RevokeStepKills(cfg: Config, w: World, act: Act, user: Id, sid: Id)
    requires StatementOf(cfg, w, act) == Some(RevokeAll(user))
    requires sid in w.store.db.sessions && w.store.db.sessions[sid].user == user
    ensures Dead(Step(cfg, w, act).store.db, sid)
  {
    var store := Step(cfg, w, act).store;
    assert store == Next(cfg, w.store, Run(RevokeAll(user)));
    RowMoves(cfg, w.store.db, RevokeAll(user), sid);
  }

  /** A reset in progress either goes on, fails, or has just run its revoke-all. */
  lemma ResettingSteps(cfg: Config, w: World, act: Act, tid: nat, d: Digest)
    requires Resetting(w, tid, d)
    ensures var t := Step(cfg, w, act); var p := w.procs[tid];
            tid in t.procs &&
            (|| Resetting(t, tid, d)
             || (t.procs[tid].Done? && t.procs[tid].result.Err?)
             || (act.Advance? && act.tid == tid && p.ResetRevoke?
                 && StatementOf(cfg, w, act) == Some(RevokeAll(p.user))))
  {
  }

  /** If ResetPassword returns nil, its revoke-all ran at some step `i` for the account its token
      belonged to, and no session that account had then resolves at the end, however the run went on. */
  lemma {:induction false} ResetPasswordKillsSessions(cfg: Config, w: World, acts: seq<Act>, tid: nat, d: Digest)
    returns (i: nat, user: Id)
    requires WorldOk(cfg, w) && CanPlay(cfg, w, acts)
    requires Resetting(w, tid, d)
    requires tid in Play(cfg, w, acts).procs && Play(cfg, w, acts).procs[tid].Done?
             && Play(cfg, w, acts).procs[tid].result.Ok?
    ensures i < |acts| && acts[i].Advance? && acts[i].tid == tid
    ensures StatementOf(cfg, Play(cfg, w, acts[..i]), acts[i]) == Some(RevokeAll(user))
    ensures Evidence(Play(cfg, w, acts[..i]).store.db, d, user, {ForReset})
    ensures forall sid, token :: sid in Play(cfg, w, acts[..i]).store.db.sessions
              && Play(cfg, w, acts[..i]).store.db.sessions[sid].user == user
              ==> !Resolves(Play(cfg, w, acts).store.db, token, sid)
    decreases |acts|
  {
    hide Possible, Step, Resolves, Inv, BurnsOk, Provenance;
    i, user := 0, 0;
    if acts == [] {
      assert false;
    } else {
      var t := Step(cfg, w, acts[0]);
      StepKeepsWorld(cfg, w, acts[0]);
      ResettingSteps(cfg, w, acts[0], tid, d);
      if Resetting(t, tid, d) {
        var j;
        j, user := ResetPasswordKillsSessions(cfg, t, acts[1..], tid, d);
        i := j + 1;
        assert acts[..i][1..] == acts[1..][..j];
      } else if t.procs[tid].Done? && t.procs[tid].result.Err? {
        DoneStays(cfg, t, acts[1..], tid);
        assert false;
      } else {
        user := w.procs[tid].user;
        assert acts[..0] == [] && ProcOk(cfg, w, tid, w.procs[tid]);
        forall sid | sid in w.store.db.sessions && w.store.db.sessions[sid].user == user
          ensures forall token :: !Resolves(Play(cfg, w, acts).store.db, token, sid)
        {
          RevokeStepKills(cfg, w, acts[0], user, sid);
          PlayKeepsDead(cfg, t, acts[1..], sid);
        }
      }
    }
  }

  lemma {:induction false} DoneStays(cfg: Config, w: World, acts: seq<Act>, tid: nat)
    requires tid in w.procs && w.procs[tid].Done?
    ensures tid in Play(cfg, w, acts).procs && Play(cfg, w, acts).procs[tid] == w.procs[tid]
    decreases |acts|
  {
    if acts != [] {
      DoneStays(cfg, Step(cfg, w, acts[0]), acts[1..], tid);
    }
  }

  /** Asking for a reset touches no account, session, counter or vault. */
  lemma ResetRequestMutatesNoAccount(cfg: Config, s: Store, p: Proc, ch: Choice)
    requires p.ResetAsk? || p.ResetToken?
    ensures var t := Perform(cfg, s, p, ch).0.db;
            t == s.db.(tokens := t.tokens)
  {
  }

  lemma AddressReply(cfg: Config, db: DB, email: string)
    ensures var r := Answer(cfg, db, UserIdByEmail(email)); r.NoRows? || (r.RowId? && r.id in db.users)
  {
  }

  lemma InsertReply(cfg: Config, db: DB, user: Id, email: string, hash: Encoded)
    requires user !in db.users
    ensures var r := Answer(cfg, db, InsertUser(user, email, hash));
            r.NoRows? || (r == RowId(user) && user in Exec(cfg, db, InsertUser(user, email, hash)).users)
  {
  }

  lemma LinkReply(cfg: Config, db: DB, token: string, user: Id, purpose: Purpose, ttl: int)
    requires user in db.users
    ensures Answer(cfg, db, InsertToken(token, user, purpose, ttl)) == Affected(1)
  {
  }

  /** The last step of a request for a link, for an account that exists. */
  lemma LinkIsIssued(cfg: Config, s: Store, p: Proc, oracle: nat -> Choice, k: nat)
    requires Inv(cfg, s) && ValidRun(cfg, s, oracle(k).env) && !oracle(k).fault
    requires (p.ResetToken? || p.RegisterToken?) && p.user in s.db.users
    ensures Drive(cfg, s, p, oracle, k).1 == Ok(Nil)
  {
    hide Answer, Exec, Drive, SessionsOk, UsersOk, TokensOk, VaultsOk, PrincipalsOk, CountersOk;
    DriveDone(cfg, oracle);
    var ch := oracle(k);
    var s1 := After(cfg, s, ch.env);
    assert p.user in s1.db.users by { RunKeepsInv(cfg, s, ch.env); }
    DriveOnce(cfg, s, p, oracle, k);
    if p.ResetToken? {
      LinkReply(cfg, s1.db, ch.token, p.user, ForReset, RESET_TTL);
    } else {
      LinkReply(cfg, s1.db, ch.token, p.user, ForVerify, VERIFY_TTL);
    }
    var r := Perform(cfg, s1, p, ch).1;
    assert Resume(cfg, p, r, ch) == Done(Ok(Nil));
  }

  /** The answer is nil for known and unknown addresses alike, whatever else is going on. */
  lemma ResetRequestRevealsNothing(cfg: Config, s: Store, email: string, oracle: nat -> Choice)
    requires Inv(cfg, s) && !oracle(0).fault && !oracle(1).fault
    requires ValidRun(cfg, s, oracle(0).env)
    requires ValidRun(cfg, Next(cfg, After(cfg, s, oracle(0).env), Run(UserIdByEmail(Normalize(email)))), oracle(1).env)
    ensures Drive(cfg, s, Begin(cfg, RequestPasswordReset(email)), oracle, 0).1 == Ok(Nil)
  {
    hide SessionsOk, UsersOk, TokensOk, VaultsOk, PrincipalsOk, CountersOk, Normalize, Exec;
    var st := UserIdByEmail(Normalize(email));
    var s1 := After(cfg, s, oracle(0).env);
    RunKeepsInv(cfg, s, oracle(0).env);
    NextKeepsInv(cfg, s1, Run(st));
    NextGrows(cfg, s1, Run(st));
    AddressReply(cfg, s1.db, st.email);
    DriveOnce(cfg, s, ResetAsk(st.email), oracle, 0);
    var r := Answer(cfg, s1.db, st);
    if r.RowId? {
      LinkIsIssued(cfg, Next(cfg, s1, Run(st)), ResetToken(r.id), oracle, 1);
    }
  }

  /** Register answers nil whether or not the address is already an account. */
  lemma RegisterRevealsNothing(cfg: Config, s: Store, email: string, password: string, oracle: nat -> Choice)
    requires PlausibleAddress(Normalize(email)) && cfg.shape(password)
    requires Inv(cfg, s) && !oracle(0).fault && !oracle(1).fault && !oracle(0).busy
    requires ValidRun(cfg, s, oracle(0).env)
    requires var s1 := After(cfg, s, oracle(0).env);
             var ev := Run(InsertUser(oracle(0).id, Normalize(email), HashWith(cfg, oracle(0), password)));
             && oracle(0).id !in s1.db.users && Enabled(s1, ev) && ValidRun(cfg, Next(cfg, s1, ev), oracle(1).env)
    ensures Drive(cfg, s, Begin(cfg, Register(email, password)), oracle, 0).1 == Ok(Nil)
  {
    hide Inv, Normalize, Exec, Enabled;
    var st := InsertUser(oracle(0).id, Normalize(email), HashWith(cfg, oracle(0), password));
    var s1 := After(cfg, s, oracle(0).env);
    RunKeepsInv(cfg, s, oracle(0).env);
    NextKeepsInv(cfg, s1, Run(st));
    InsertReply(cfg, s1.db, st.user, st.email, st.hash);
    DriveOnce(cfg, s, RegisterInsert(st.email, password), oracle, 0);
    var r := Answer(cfg, s1.db, st);
    if r.RowId? {
      LinkIsIssued(cfg, Next(cfg, s1, Run(st)), RegisterToken(r.id), oracle, 1);
    }
  }
}
