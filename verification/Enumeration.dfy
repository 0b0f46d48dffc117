/** Account enumeration as a property of two runs: the same acts played against a store and against
    the same store without one of its accounts, that is without the user row and every role, session,
    token and vault row the account owns. */
module Enumeration {
  import opened Prelude
  import opened Passwords
  import opened Tables
  import opened Text
  import opened Sql
  import opened Invariants
  import opened Programs
  import opened Machine
  import opened MachineInvariants

  // ---- the other store ----

  function OthersSessions(sessions: map<Id, Session>, uid: Id): map<Id, Session> {
    map s | s in sessions && sessions[s].user != uid :: sessions[s]
  }

  function OthersTokens(tokens: map<Digest, Token>, uid: Id): map<Digest, Token> {
    map d | d in tokens && tokens[d].user != uid :: tokens[d]
  }

  function OthersPrincipals(principals: set<Principal>, uid: Id): set<Principal> {
    set p | p in principals && p.user != uid
  }

  /** The database had the account never existed, or been deleted with all it owned. */
  function Without(db: DB, uid: Id): DB {
    db.(users := db.users - {uid}, roles := db.roles - {uid}, sessions := OthersSessions(db.sessions, uid),
        tokens := OthersTokens(db.tokens, uid), vaults := db.vaults - {uid})
  }

  function StoreWithout(s: Store, uid: Id): Store {
    s.(db := Without(s.db, uid), principals := OthersPrincipals(s.principals, uid))
  }

  function OthersBurned(burned: map<nat, Digest>, tokens: map<Digest, Token>, uid: Id): map<nat, Digest> {
    map t | t in burned && !(burned[t] in tokens && tokens[burned[t]].user == uid) :: burned[t]
  }

  function WorldWithout(w: World, uid: Id): World {
    World(StoreWithout(w.store, uid), w.procs, OthersBurned(w.burned, w.store.db.tokens, uid), w.created - {uid})
  }

  /** What only the account itself, or whoever holds its secrets, could name. */
  datatype Own = Own(sids: set<Id>, digests: set<Digest>)

  function OwnSids(db: DB, uid: Id): set<Id> {
    set s | s in db.sessions && db.sessions[s].user == uid
  }

  function OwnOf(db: DB, uid: Id): Own {
    Own(OwnSids(db, uid),
        (set s | s in OwnSids(db, uid) :: db.sessions[s].digest) + (set d | d in db.tokens && db.tokens[d].user == uid))
  }

  /** A live account at `e`, the form callers' addresses are looked up in. */
  predicate AccountAt(db: DB, e: string, uid: Id) {
    uid in db.users && LiveAddress(db.users[uid], e) && Normalize(db.users[uid].email) == e
  }

  // ---- calls that are not about the account ----

  /** Wrong guesses are what the two stores must treat alike; a stored hash nobody can parse is an
      error on one side only. */
  predicate Withstands(hash: Option<Encoded>, password: string) {
    hash.Some? ==> !hash.value.Unreadable? && !Accepts(hash.value, password)
  }

  /** The pre-auth parameters of the address are those of an address nobody enrolled. */
  predicate Plain(cfg: Config, db: DB, uid: Id) {
    uid in db.vaults ==> db.vaults[uid].kdf == cfg.kdfDefault
  }

  predicate Stranger(caller: Option<Principal>, own: Own) {
    caller.Some? ==> caller.value.session !in own.sids
  }

  /** What the account is known by, as far as a stranger can tell: fixed while nobody acts for it. */
  datatype Target = Target(e: string, uid: Id, own: Own, hash: Option<Encoded>, plain: bool)

  function TargetOf(cfg: Config, db: DB, e: string, uid: Id): Target
    requires uid in db.users
  {
    Target(e, uid, OwnOf(db, uid), db.users[uid].hash, Plain(cfg, db, uid))
  }

  /** A call that is not about the account: it may attempt to log in there, with a wrong password, and
      ask for its parameters where they are the default ones. */
  predicate Elsewhere(p: Proc, t: Target) {
    match p
    case LoginCheck(email, _, password, caller) => (email == t.e ==> Withstands(t.hash, password))
      && Stranger(caller, t.own)
    case LoginRead(email, _, password, caller) => (email == t.e ==> Withstands(t.hash, password))
      && Stranger(caller, t.own)
    case LoginRehash(user, _, _, _, _, caller) => user != t.uid && Stranger(caller, t.own)
    case LoginReset(user, _, _, caller) => user != t.uid && Stranger(caller, t.own)
    case LoginRevoke(user, arrived) => user != t.uid && arrived.session !in t.own.sids
    case LoginIssue(user) => user != t.uid
    case LoginLookup(token) => Sha256(token) !in t.own.digests
    case ChangeRead(p, _, _, _) => p.user != t.uid && p.session !in t.own.sids
    case ChangeWrite(p, _, _, _) => p.user != t.uid && p.session !in t.own.sids
    case ChangeRotate(p) => p.session !in t.own.sids
    case RegisterInsert(email, _) => Lower(email) != t.e
    case RegisterToken(user) => user != t.uid
    case ResetAsk(email) => email != t.e
    case ResetToken(user) => user != t.uid
    case ResetConsume(token, _) => Sha256(token) !in t.own.digests
    case ResetWrite(user, _) => user != t.uid
    case ResetRevoke(user) => user != t.uid
    case ResetMail(user) => user != t.uid
    case VerifyConsume(token) => Sha256(token) !in t.own.digests
    case VerifyMark(user) => user != t.uid
    case InviteInsert(email) => Lower(email) != t.e && email != t.e
    case InviteFind(email) => email != t.e
    case InviteToken(user) => user != t.uid
    case AcceptConsume(token, _) => Sha256(token) !in t.own.digests
    case AcceptWrite(user, _) => user != t.uid
    case AcceptMark(user) => user != t.uid
    case DrawIssue(user) => user != t.uid
    case DrawRotate(sid) => sid !in t.own.sids
    case ParamsRead(email) => email == t.e ==> t.plain
    case VaultWrite(p, _) => p.user != t.uid
    case Single(stmt) => ElsewhereStmt(stmt, t)
    case _ => true
  }

  predicate ElsewhereStmt(st: Stmt, t: Target) {
    match st
    case Issue(sid, token, user) => user != t.uid && sid !in t.own.sids && Sha256(token) !in t.own.digests
    case Lookup(token) => Sha256(token) !in t.own.digests
    case Rotate(token, sid) => sid !in t.own.sids && Sha256(token) !in t.own.digests
    case RecordMFA(sid, _) => sid !in t.own.sids
    case Revoke(sid) => sid !in t.own.sids
    case RevokeAll(user) => user != t.uid
    case LoginSelect(email) => email != t.e
    case HashById(user) => user != t.uid
    case UpdatePassword(_, user, _) => user != t.uid
    case InsertUser(user, email, _) => user != t.uid && Lower(email) != t.e
    case InsertInvitee(user, email) => user != t.uid && Lower(email) != t.e
    case UserIdByEmail(email) => email != t.e
    case EmailById(user) => user != t.uid
    case InsertToken(token, user, _, _) => user != t.uid && Sha256(token) !in t.own.digests
    case ConsumeToken(token, _) => Sha256(token) !in t.own.digests
    case SetPassword(_, user) => user != t.uid
    case MarkVerified(user) => user != t.uid
    case PutVault(user, _, _, _, _, _) => user != t.uid
    case ParamsByEmail(email) => email != t.e
    case VaultByUser(user) => user != t.uid
    case DeleteVault(user) => user != t.uid
    case _ => true
  }

  /** The two reads at the address itself. */
  predicate Probes(st: Stmt, t: Target) {
    st == LoginSelect(t.e) || st == ParamsByEmail(t.e)
  }

  /** An act by someone else: it comes from no session of the account, and names none of its sessions
      or emailed tokens. Registering, inviting or resetting the address is about the account. */
  predicate ElsewhereAct(act: Act, t: Target) {
    match act
    case Start(_, call) =>
      && (CallerOf(call).Some? ==> CallerOf(call).value.user != t.uid)
      && (match call
          case Login(email, _, password, _) => Normalize(email) == t.e ==> Withstands(t.hash, password)
          case Register(email, _) => Normalize(email) != t.e
          case RequestPasswordReset(email) => Normalize(email) != t.e
          case Invite(email) => Normalize(email) != t.e
          case ResetPassword(token, _) => Sha256(token) !in t.own.digests
          case VerifyEmail(token) => Sha256(token) !in t.own.digests
          case AcceptInvite(token, _) => Sha256(token) !in t.own.digests
          case VaultParams(email) => Normalize(email) == t.e ==> t.plain
          case SessionIssue(user) => user != t.uid
          case SessionLookup(token) => Sha256(token) !in t.own.digests
          case SessionRotate(sid) => sid !in t.own.sids
          case SessionRecordMFA(sid, _) => sid !in t.own.sids
          case SessionRevoke(sid) => sid !in t.own.sids
          case SessionRevokeAll(user) => user != t.uid
          case _ => true)
    case Advance(_, ch) => ch.id != t.uid && ch.id !in t.own.sids
    case Disable(user) => user != t.uid
    case _ => true
  }

  ghost predicate Aloof(w: World, t: Target) {
    forall tid :: tid in w.procs ==> Elsewhere(w.procs[tid], t)
  }

  // ---- one statement: what it answers ----

  lemma SameAddress(db: DB, email: string, e: string, uid: Id)
    requires AccountAt(db, e, uid) && email != e
    ensures forall u :: (u in db.users && LiveAddress(db.users[u], email)) <==>
              (u in Without(db, uid).users && LiveAddress(Without(db, uid).users[u], email))
    ensures AddressTaken(db.users, email) <==> AddressTaken(Without(db, uid).users, email)
  {
    hide Lower, Normalize;
    var b := Without(db, uid);
    forall u
      ensures (u in db.users && LiveAddress(db.users[u], email)) <==> (u in b.users && LiveAddress(b.users[u], email))
    {
    }
    if u :| u in db.users && LiveAddress(db.users[u], email) {
      assert u in b.users && LiveAddress(b.users[u], email);
    }
    if u :| u in b.users && LiveAddress(b.users[u], email) {
      assert u in db.users && LiveAddress(db.users[u], email);
    }
  }

  lemma NobodyLeftAt(db: DB, e: string, uid: Id)
    requires AccountAt(db, e, uid) && UniqueAddresses(db.users)
    ensures forall u :: u in db.users && LiveAddress(db.users[u], e) ==> u == uid
    ensures !AddressTaken(Without(db, uid).users, e)
  {
  }

  lemma OwnDigestsListed(db: DB, uid: Id)
    ensures forall s :: s in db.sessions && db.sessions[s].user == uid ==>
              db.sessions[s].digest in OwnOf(db, uid).digests
    ensures forall d :: d in db.tokens && db.tokens[d].user == uid ==> d in OwnOf(db, uid).digests
  {
    forall s | s in db.sessions && db.sessions[s].user == uid
      ensures db.sessions[s].digest in OwnOf(db, uid).digests
    {
      assert s in OwnSids(db, uid);
    }
  }

  lemma SameFinds(db: DB, token: string, uid: Id)
    requires Sha256(token) !in OwnOf(db, uid).digests
    ensures forall sid :: Finds(db, token, sid) ==> db.sessions[sid].user != uid
    ensures forall sid :: Finds(db, token, sid) <==> Finds(Without(db, uid), token, sid)
    ensures forall sid :: Resolves(db, token, sid) <==> Resolves(Without(db, uid), token, sid)
    ensures forall sid :: Resolves(db, token, sid) ==>
              PrincipalOf(db, sid) == PrincipalOf(Without(db, uid), sid) && PrincipalOf(db, sid).user != uid
  {
    OwnDigestsListed(db, uid);
  }

  lemma SameLookup(cfg: Config, db: DB, token: string, uid: Id)
    requires Sha256(token) !in OwnOf(db, uid).digests && UniqueDigests(db.sessions)
    ensures Answer(cfg, Without(db, uid), Stmt.Lookup(token)) == Answer(cfg, db, Stmt.Lookup(token))
  {
    SameFinds(db, token, uid);
    if sid :| Resolves(db, token, sid) {
      assert Resolves(Without(db, uid), token, sid);
    }
  }

  lemma SameTaken(db: DB, d: Digest, except: Option<Id>, uid: Id)
    requires d !in OwnOf(db, uid).digests
    ensures DigestTaken(db.sessions, d, except) <==> DigestTaken(Without(db, uid).sessions, d, except)
  {
    OwnDigestsListed(db, uid);
    var b := Without(db, uid);
    if s :| s in db.sessions && db.sessions[s].digest == d && except != Some(s) {
      assert s in b.sessions && b.sessions[s].digest == d;
    }
    if s :| s in b.sessions && b.sessions[s].digest == d && except != Some(s) {
      assert s in db.sessions && db.sessions[s].digest == d;
    }
  }

  lemma SameSessionAnswer(cfg: Config, db: DB, st: Stmt, t: Target)
    requires t.own == OwnOf(db, t.uid) && ElsewhereStmt(st, t)
    requires st.Issue? || st.Rotate? || st.RecordMFA? || st.Revoke? || st.RevokeAll?
    ensures Answer(cfg, Without(db, t.uid), st) == Answer(cfg, db, st)
  {
    match st
    case Issue(sid, token, _) => SameTaken(db, Sha256(token), None, t.uid);
    case Rotate(token, sid) => SameTaken(db, Sha256(token), Some(sid), t.uid);
    case RecordMFA(_, _) =>
    case Revoke(_) =>
    case RevokeAll(user) => assert OpenSessions(Without(db, t.uid).sessions, user) == OpenSessions(db.sessions, user);
  }

  lemma SameInsert(cfg: Config, db: DB, st: Stmt, t: Target)
    requires AccountAt(db, t.e, t.uid) && ElsewhereStmt(st, t) && (st.InsertUser? || st.InsertInvitee?)
    ensures Answer(cfg, Without(db, t.uid), st) == Answer(cfg, db, st)
    ensures UsersAfter(Without(db, t.uid), st) == UsersAfter(db, st) - {t.uid}
    ensures t.uid in UsersAfter(db, st) && UsersAfter(db, st)[t.uid] == db.users[t.uid]
  {
    hide Lower, Normalize, LiveAddress;
    SameAddress(db, Lower(st.email), t.e, t.uid);
  }

  lemma SameUserAnswer(cfg: Config, db: DB, st: Stmt, t: Target)
    requires ElsewhereStmt(st, t)
    requires st.HashById? || st.UpdatePassword? || st.EmailById? || st.SetPassword? || st.MarkVerified?
    ensures Answer(cfg, Without(db, t.uid), st) == Answer(cfg, db, st)
  {
  }

  lemma SameTokenAnswer(cfg: Config, db: DB, st: Stmt, t: Target)
    requires t.own == OwnOf(db, t.uid) && ElsewhereStmt(st, t)
    requires st.InsertToken? || st.ConsumeToken?
    ensures Answer(cfg, Without(db, t.uid), st) == Answer(cfg, db, st)
  {
    if st.ConsumeToken? {
      var d := Sha256(st.token);
      assert d in db.tokens && db.tokens[d].user == t.uid ==> d in t.own.digests;
    }
  }

  lemma SameOtherAnswer(cfg: Config, db: DB, st: Stmt, t: Target)
    requires ElsewhereStmt(st, t)
    requires st.Attempts? || st.RecordBoth? || st.RecordUser? || st.ResetAttempts? || st.PutVault? || st.DeleteVault?
             || st.VaultByUser?
    ensures Answer(cfg, Without(db, t.uid), st) == Answer(cfg, db, st)
  {
  }

  lemma SameParams(cfg: Config, db: DB, email: string, e: string, uid: Id)
    requires AccountAt(db, e, uid) && UniqueAddresses(db.users) && email != e
    ensures Answer(cfg, Without(db, uid), ParamsByEmail(email)) == Answer(cfg, db, ParamsByEmail(email))
  {
    hide Normalize;
    SameAddress(db, email, e, uid);
    var b := Without(db, uid);
    forall u
      ensures StoredParams(db, email, u) <==> StoredParams(b, email, u)
    {
    }
    if u :| StoredParams(b, email, u) {
      assert StoredParams(db, email, u);
    }
  }

  lemma SameSelect(cfg: Config, db: DB, email: string, e: string, uid: Id)
    requires AccountAt(db, e, uid) && UniqueAddresses(db.users) && email != e
    ensures Answer(cfg, Without(db, uid), LoginSelect(email)) == Answer(cfg, db, LoginSelect(email))
    ensures Answer(cfg, Without(db, uid), UserIdByEmail(email)) == Answer(cfg, db, UserIdByEmail(email))
  {
    hide Normalize;
    SameAddress(db, email, e, uid);
  }

  /** Statements that do not name the account or anything it owns answer the same without it. */
  lemma SameAnswer(cfg: Config, db: DB, st: Stmt, t: Target)
    requires AccountAt(db, t.e, t.uid) && UniqueAddresses(db.users) && UniqueDigests(db.sessions)
    requires t.own == OwnOf(db, t.uid) && ElsewhereStmt(st, t)
    ensures Answer(cfg, Without(db, t.uid), st) == Answer(cfg, db, st)
  {
    hide Answer, Without, OwnOf, UniqueAddresses, UniqueDigests, AccountAt;
    match st
    case Lookup(token) => SameLookup(cfg, db, token, t.uid);
    case LoginSelect(email) => SameSelect(cfg, db, email, t.e, t.uid);
    case UserIdByEmail(email) => SameSelect(cfg, db, email, t.e, t.uid);
    case ParamsByEmail(email) => SameParams(cfg, db, email, t.e, t.uid);
    case Issue(_, _, _) => SameSessionAnswer(cfg, db, st, t);
    case Rotate(_, _) => SameSessionAnswer(cfg, db, st, t);
    case RecordMFA(_, _) => SameSessionAnswer(cfg, db, st, t);
    case Revoke(_) => SameSessionAnswer(cfg, db, st, t);
    case RevokeAll(_) => SameSessionAnswer(cfg, db, st, t);
    case HashById(_) => SameUserAnswer(cfg, db, st, t);
    case UpdatePassword(_, _, _) => SameUserAnswer(cfg, db, st, t);
    case EmailById(_) => SameUserAnswer(cfg, db, st, t);
    case SetPassword(_, _) => SameUserAnswer(cfg, db, st, t);
    case MarkVerified(_) => SameUserAnswer(cfg, db, st, t);
    case InsertUser(_, _, _) => SameInsert(cfg, db, st, t);
    case InsertInvitee(_, _) => SameInsert(cfg, db, st, t);
    case InsertToken(_, _, _, _) => SameTokenAnswer(cfg, db, st, t);
    case ConsumeToken(_, _) => SameTokenAnswer(cfg, db, st, t);
    case _ => SameOtherAnswer(cfg, db, st, t);
  }

  // ---- one statement: what it leaves behind ----

  /** What the other accounts' sessions become, and that its own stay. */
  ghost predicate SessionsApart(cfg: Config, db: DB, st: Stmt, t: Target) {
    var after := SessionsAfter(cfg, db, st);
    && SessionsAfter(cfg, Without(db, t.uid), st) == OthersSessions(after, t.uid)
    && (forall s :: s in t.own.sids ==> s in db.sessions && s in after && after[s] == db.sessions[s])
    && (forall s :: s in after && after[s].user == t.uid ==> s in t.own.sids)
  }

  lemma SameInstalls(cfg: Config, db: DB, st: Stmt, t: Target)
    requires t.own == OwnOf(db, t.uid) && ElsewhereStmt(st, t) && (st.Issue? || st.Rotate?)
    ensures SessionsApart(cfg, db, st, t)
  {
    hide OwnOf, DigestTaken;
    assert t.own.sids == OwnSids(db, t.uid) by { OwnSidsAre(db, t.uid); }
    SameTaken(db, Sha256(st.token), if st.Issue? then None else Some(st.sid), t.uid);
  }

  lemma OwnSidsAre(db: DB, uid: Id)
    ensures OwnOf(db, uid).sids == OwnSids(db, uid)
  {
  }

  lemma SameTouches(cfg: Config, db: DB, st: Stmt, t: Target)
    requires t.own == OwnOf(db, t.uid) && ElsewhereStmt(st, t) && st.Lookup?
    ensures SessionsApart(cfg, db, st, t)
  {
    hide OwnOf, Resolves;
    OwnSidsAre(db, t.uid);
    SameFinds(db, st.token, t.uid);
  }

  lemma SameRevokes(cfg: Config, db: DB, st: Stmt, t: Target)
    requires t.own == OwnOf(db, t.uid) && ElsewhereStmt(st, t) && st.RevokeAll?
    ensures SessionsApart(cfg, db, st, t)
  {
    assert OpenSessions(Without(db, t.uid).sessions, st.user) == OpenSessions(db.sessions, st.user);
  }

  lemma SameStamps(cfg: Config, db: DB, st: Stmt, t: Target)
    requires t.own == OwnOf(db, t.uid) && ElsewhereStmt(st, t) && (st.RecordMFA? || st.Revoke?)
    ensures SessionsApart(cfg, db, st, t)
  {
    hide OwnOf;
    OwnSidsAre(db, t.uid);
  }

  lemma SameSessions(cfg: Config, db: DB, st: Stmt, t: Target)
    requires t.own == OwnOf(db, t.uid) && (ElsewhereStmt(st, t) || Probes(st, t))
    ensures SessionsApart(cfg, db, st, t)
  {
    hide OwnOf, ElsewhereStmt, DigestTaken, Touch;
    if st.Issue? || st.Rotate? {
      SameInstalls(cfg, db, st, t);
    } else if st.Lookup? {
      SameTouches(cfg, db, st, t);
    } else if st.RevokeAll? {
      SameRevokes(cfg, db, st, t);
    } else if st.RecordMFA? || st.Revoke? {
      SameStamps(cfg, db, st, t);
    } else {
      OwnSidsAre(db, t.uid);
    }
  }

  lemma SameTokens(db: DB, st: Stmt, t: Target)
    requires t.own == OwnOf(db, t.uid) && (ElsewhereStmt(st, t) || Probes(st, t))
    ensures TokensAfter(Without(db, t.uid), st) == OthersTokens(TokensAfter(db, st), t.uid)
    ensures forall d :: d in db.tokens && db.tokens[d].user == t.uid ==>
              d in TokensAfter(db, st) && TokensAfter(db, st)[d] == db.tokens[d]
    ensures forall d :: d in TokensAfter(db, st) && TokensAfter(db, st)[d].user == t.uid ==>
              d in db.tokens && db.tokens[d].user == t.uid
  {
    hide OthersSessions, OwnOf;
    if st.InsertToken? || st.ConsumeToken? {
      OwnDigestsListed(db, t.uid);
    }
  }

  lemma SameUpdate(db: DB, st: Stmt, t: Target)
    requires t.uid in db.users && ElsewhereStmt(st, t) && (st.UpdatePassword? || st.SetPassword? || st.MarkVerified?)
    ensures UsersAfter(Without(db, t.uid), st) == UsersAfter(db, st) - {t.uid}
    ensures t.uid in UsersAfter(db, st) && UsersAfter(db, st)[t.uid] == db.users[t.uid]
  {
  }

  lemma SameUsers(cfg: Config, db: DB, st: Stmt, t: Target)
    requires AccountAt(db, t.e, t.uid) && (ElsewhereStmt(st, t) || Probes(st, t))
    ensures UsersAfter(Without(db, t.uid), st) == UsersAfter(db, st) - {t.uid}
    ensures t.uid in UsersAfter(db, st) && UsersAfter(db, st)[t.uid] == db.users[t.uid]
  {
    hide Lower, Normalize, LiveAddress;
    if st.InsertUser? || st.InsertInvitee? {
      SameInsert(cfg, db, st, t);
    } else if st.UpdatePassword? || st.SetPassword? || st.MarkVerified? {
      SameUpdate(db, st, t);
    }
  }

  lemma SameVaults(db: DB, st: Stmt, t: Target)
    requires ElsewhereStmt(st, t) || Probes(st, t)
    ensures VaultsAfter(Without(db, t.uid), st) == VaultsAfter(db, st) - {t.uid}
    ensures t.uid in VaultsAfter(db, st) <==> t.uid in db.vaults
    ensures t.uid in db.vaults ==> VaultsAfter(db, st)[t.uid] == db.vaults[t.uid]
  {
  }

  /** Executing and leaving the account out commute, and the account's own rows stay as they are. */
  lemma SameEffect(cfg: Config, db: DB, st: Stmt, t: Target)
    requires AccountAt(db, t.e, t.uid) && t == TargetOf(cfg, db, t.e, t.uid) && (ElsewhereStmt(st, t) || Probes(st, t))
    ensures Exec(cfg, Without(db, t.uid), st) == Without(Exec(cfg, db, st), t.uid)
    ensures AccountAt(Exec(cfg, db, st), t.e, t.uid) && t == TargetOf(cfg, Exec(cfg, db, st), t.e, t.uid)
    ensures forall d :: (d in db.tokens && db.tokens[d].user == t.uid) <==>
              (d in Exec(cfg, db, st).tokens && Exec(cfg, db, st).tokens[d].user == t.uid)
  {
    hide SessionsAfter, UsersAfter, TokensAfter, VaultsAfter, ElsewhereStmt, Lower, Normalize;
    SameUsers(cfg, db, st, t);
    SameSessions(cfg, db, st, t);
    SameTokens(db, st, t);
    SameVaults(db, st, t);
    var after := Exec(cfg, db, st);
    assert AttemptsAfter(Without(db, t.uid), st) == AttemptsAfter(db, st);
    SameOwn(db, after, t.uid);
  }

  lemma SameOwn(db: DB, after: DB, uid: Id)
    requires forall s :: s in OwnSids(db, uid) ==> s in after.sessions && after.sessions[s] == db.sessions[s]
    requires forall s :: s in after.sessions && after.sessions[s].user == uid ==> s in OwnSids(db, uid)
    requires forall d :: (d in db.tokens && db.tokens[d].user == uid) <==>
               (d in after.tokens && after.tokens[d].user == uid)
    ensures OwnOf(after, uid) == OwnOf(db, uid)
  {
    assert OwnSids(after, uid) == OwnSids(db, uid);
  }

  // ---- at the address itself ----

  lemma OnlyAccountAt(cfg: Config, db: DB, e: string, uid: Id)
    requires AccountAt(db, e, uid) && UniqueAddresses(db.users)
    ensures Answer(cfg, db, LoginSelect(e)) == RowAccount(uid, db.users[uid].hash, db.users[uid].verified)
    ensures Answer(cfg, Without(db, uid), LoginSelect(e)) == NoRows
  {
    NobodyLeftAt(db, e, uid);
    assert AddressTaken(db.users, e);
  }

  /** A wrong guess and an absent account take the same next step. */
  lemma SameVerdict(cfg: Config, db: DB, p: Proc, ch: Choice, uid: Id)
    requires p.LoginRead? && AccountAt(db, p.email, uid) && UniqueAddresses(db.users)
    requires Withstands(db.users[uid].hash, p.password)
    ensures Resume(cfg, p, Answer(cfg, Without(db, uid), LoginSelect(p.email)), ch)
            == Resume(cfg, p, Answer(cfg, db, LoginSelect(p.email)), ch)
  {
    OnlyAccountAt(cfg, db, p.email, uid);
  }

  /** The hypothesis on guesses is exact: with the bound free, the two worlds part at a login there
      precisely when the stored hash is unreadable or accepts the guess. */
  lemma ExactlyWhenTheyPart(cfg: Config, db: DB, p: Proc, ch: Choice, uid: Id)
    requires p.LoginRead? && AccountAt(db, p.email, uid) && UniqueAddresses(db.users) && !ch.busy
    ensures Resume(cfg, p, Answer(cfg, Without(db, uid), LoginSelect(p.email)), ch)
            == Resume(cfg, p, Answer(cfg, db, LoginSelect(p.email)), ch)
            <==> Withstands(db.users[uid].hash, p.password)
  {
    OnlyAccountAt(cfg, db, p.email, uid);
  }

  lemma OnlyParamsAt(cfg: Config, s: Store, e: string, uid: Id)
    requires Inv(cfg, s) && AccountAt(s.db, e, uid)
    ensures Answer(cfg, Without(s.db, uid), ParamsByEmail(e)) == NoRows
    ensures Answer(cfg, s.db, ParamsByEmail(e)) ==
            if uid in s.db.vaults then RowParams(s.db.vaults[uid].kdf, Derived(e)) else NoRows
  {
    hide Normalize, SessionsOk, TokensOk, PrincipalsOk, CountersOk, SaltKnown;
    NobodyLeftAt(s.db, e, uid);
    if uid in s.db.vaults {
      assert StoredParams(s.db, e, uid);
    }
  }

  /** The pre-auth parameters give an account away exactly when it enrolled under others than the
      default ones now configured: the salt never does. */
  lemma ParamsTellApartIff(cfg: Config, s: Store, e: string, uid: Id, ch: Choice)
    requires Inv(cfg, s) && AccountAt(s.db, e, uid)
    ensures Resume(cfg, ParamsRead(e), Answer(cfg, Without(s.db, uid), ParamsByEmail(e)), ch)
            == Resume(cfg, ParamsRead(e), Answer(cfg, s.db, ParamsByEmail(e)), ch)
            <==> Plain(cfg, s.db, uid)
  {
    hide Inv, AccountAt, Answer, Without;
    OnlyParamsAt(cfg, s, e, uid);
  }

  /** A Put under other parameters is enough: from then on one unauthenticated call shows the account. */
  lemma EnrolmentCanShow(cfg: Config, s: Store, p: Principal, input: VaultInput, e: string, ch: Choice)
    requires Inv(cfg, s) && AccountAt(s.db, e, p.user) && p in s.principals && p.user !in s.db.vaults
    requires WithDefaults(input.kdf, cfg.kdfDefault) != cfg.kdfDefault
    ensures var db := Next(cfg, s, Run(PutStmt(cfg, p, input))).db;
            Resume(cfg, ParamsRead(e), Answer(cfg, Without(db, p.user), ParamsByEmail(e)), ch)
            != Resume(cfg, ParamsRead(e), Answer(cfg, db, ParamsByEmail(e)), ch)
  {
    hide Normalize, WithDefaults, Resume, SessionsOk, TokensOk, VaultsOk, CountersOk, UsersOk, SessionsAfter, Without;
    var st := PutStmt(cfg, p, input);
    assert Enabled(s, Run(st));
    NextKeepsInv(cfg, s, Run(st));
    var t := Next(cfg, s, Run(st));
    assert AccountAt(t.db, e, p.user) && t.db.vaults[p.user].kdf == WithDefaults(input.kdf, cfg.kdfDefault);
    ParamsTellApartIff(cfg, t, e, p.user, ch);
  }

  // ---- one step ----

  ghost predicate Facing(cfg: Config, w: World, t: Target) {
    AccountAt(w.store.db, t.e, t.uid) && t == TargetOf(cfg, w.store.db, t.e, t.uid)
  }

  lemma FreshIsForeign(cfg: Config, s: Store, token: string, uid: Id)
    requires SessionsOk(cfg, s) && TokensOk(s) && token !in s.minted
    ensures Sha256(token) !in OwnOf(s.db, uid).digests
  {
  }

  predicate DrawsToken(p: Proc) {
    p.LoginIssue? || p.DrawIssue? || p.ChangeRotate? || p.DrawRotate? || p.RegisterToken? || p.ResetToken?
      || p.InviteToken?
  }

  lemma DrawElsewhere(cfg: Config, p: Proc, ch: Choice, t: Target)
    requires Elsewhere(p, t) && DrawsToken(p) && ch.id !in t.own.sids && Request(cfg, p, ch).Some?
    requires forall token :: token in MintedBy(Request(cfg, p, ch).value) ==> Sha256(token) !in t.own.digests
    ensures ElsewhereStmt(Request(cfg, p, ch).value, t)
  {
    assert ch.token in MintedBy(Request(cfg, p, ch).value);
  }

  lemma RequestElsewhere(cfg: Config, p: Proc, ch: Choice, t: Target)
    requires Elsewhere(p, t) && ch.id != t.uid && ch.id !in t.own.sids && Request(cfg, p, ch).Some?
    requires forall token :: token in MintedBy(Request(cfg, p, ch).value) ==> Sha256(token) !in t.own.digests
    ensures var st := Request(cfg, p, ch).value;
            ElsewhereStmt(st, t) || (p.LoginRead? && p.email == t.e && st == LoginSelect(t.e))
            || (p.ParamsRead? && p.email == t.e && st == ParamsByEmail(t.e))
  {
    hide HashWith, WithDefaults, Normalize, MintedBy;
    if DrawsToken(p) {
      DrawElsewhere(cfg, p, ch, t);
    }
  }

  /** Without the account no reply names it. */
  lemma RepliesForeign(cfg: Config, db: DB, st: Stmt, uid: Id)
    ensures var r := Answer(cfg, Without(db, uid), st);
            && (r.RowAccount? ==> r.account != uid)
            && (r.RowId? && (st.UserIdByEmail? || st.ConsumeToken?) ==> r.id != uid)
            && (r.RowId? && (st.InsertUser? || st.InsertInvitee?) ==> r.id == st.user)
  {
  }

  /** The steps whose reply is the id of an account. */
  predicate LearnsAnAccount(p: Proc) {
    TokenBurnedBy(p).Some? || p.ResetAsk? || p.InviteFind? || p.RegisterInsert? || p.InviteInsert?
  }

  lemma VerdictElsewhere(cfg: Config, p: Proc, r: Reply, ch: Choice, t: Target)
    requires Elsewhere(p, t) && (p.LoginRead? || p.ChangeRead?) && (r.RowAccount? ==> r.account != t.uid)
    ensures Elsewhere(Resume(cfg, p, r, ch), t)
  {
    hide Verify, Withstands;
  }

  predicate SigningIn(p: Proc) {
    p.LoginCheck? || p.LoginFail? || p.LoginRehash? || p.LoginReset? || p.LoginRevoke? || p.LoginIssue?
      || p.LoginLookup?
  }

  lemma SignInElsewhere(cfg: Config, p: Proc, r: Reply, ch: Choice, t: Target)
    requires Elsewhere(p, t) && SigningIn(p)
    requires r.RowId? && p.LoginIssue? ==> Sha256(ch.token) !in t.own.digests
    ensures Elsewhere(Resume(cfg, p, r, ch), t)
  {
    hide Withstands, ElsewhereStmt;
  }

  predicate Mailing(p: Proc) {
    p.RegisterInsert? || p.RegisterToken? || p.ResetAsk? || p.ResetToken? || p.ResetConsume? || p.ResetWrite?
      || p.ResetRevoke?
    || p.VerifyConsume? || p.InviteInsert? || p.InviteFind? || p.AcceptConsume? || p.AcceptWrite?
  }

  lemma MailElsewhere(cfg: Config, p: Proc, r: Reply, ch: Choice, t: Target)
    requires Elsewhere(p, t) && Mailing(p)
    requires r.RowId? && LearnsAnAccount(p) ==> r.id != t.uid
    ensures Elsewhere(Resume(cfg, p, r, ch), t)
  {
    hide Withstands, ElsewhereStmt;
  }

  lemma ResumeElsewhere(cfg: Config, p: Proc, r: Reply, ch: Choice, t: Target)
    requires Elsewhere(p, t)
    requires r.RowAccount? ==> r.account != t.uid
    requires r.RowId? && LearnsAnAccount(p) ==> r.id != t.uid
    requires r.RowId? && p.LoginIssue? ==> Sha256(ch.token) !in t.own.digests
    ensures Elsewhere(Resume(cfg, p, r, ch), t)
  {
    hide AfterVerdict, AfterCurrent, Withstands, Present, ElsewhereStmt;
    if p.LoginRead? || p.ChangeRead? {
      VerdictElsewhere(cfg, p, r, ch, t);
    } else if SigningIn(p) {
      SignInElsewhere(cfg, p, r, ch, t);
    } else if Mailing(p) {
      MailElsewhere(cfg, p, r, ch, t);
    }
  }

  /** What a call does in both worlds at one step. */
  ghost predicate StepsAlike(cfg: Config, s: Store, p: Proc, ch: Choice, t: Target) {
    var (s1, r1) := Perform(cfg, s, p, ch);
    var (s2, r2) := Perform(cfg, StoreWithout(s, t.uid), p, ch);
    && s2 == StoreWithout(s1, t.uid) && Resume(cfg, p, r2, ch) == Resume(cfg, p, r1, ch)
    && (r1 == r2 || p.LoginRead? || p.ParamsRead?)
    && (r2.RowAccount? ==> r2.account != t.uid)
    && (r2.RowId? && LearnsAnAccount(p) ==> r2.id != t.uid)
    && (r2.RowId? && p.LoginIssue? ==> Sha256(ch.token) !in t.own.digests)
    && AccountAt(s1.db, t.e, t.uid) && t == TargetOf(cfg, s1.db, t.e, t.uid)
    && forall d :: (d in s.db.tokens && s.db.tokens[d].user == t.uid) <==>
         (d in s1.db.tokens && s1.db.tokens[d].user == t.uid)
  }

  lemma NextWithout(cfg: Config, s: Store, st: Stmt, t: Target)
    requires AccountAt(s.db, t.e, t.uid) && t == TargetOf(cfg, s.db, t.e, t.uid)
    requires ElsewhereStmt(st, t) || Probes(st, t)
    requires st.Lookup? ==> Answer(cfg, Without(s.db, t.uid), st) == Answer(cfg, s.db, st)
    ensures Next(cfg, StoreWithout(s, t.uid), Run(st)) == StoreWithout(Next(cfg, s, Run(st)), t.uid)
  {
    hide Exec, Without, AccountAt, ElsewhereStmt, OwnOf;
    SameEffect(cfg, s.db, st, t);
    OnlyLookupsHandOut(cfg, s.db, st);
    OnlyLookupsHandOut(cfg, Without(s.db, t.uid), st);
    if st.Lookup? {
      LookupForeign(cfg, s.db, st.token, t.uid);
    }
    assert OthersPrincipals(s.principals + {}, t.uid) == OthersPrincipals(s.principals, t.uid) + {};
  }

  lemma OnlyLookupsHandOut(cfg: Config, db: DB, st: Stmt)
    ensures Answer(cfg, db, st).RowPrincipal? ==> st.Lookup?
  {
  }

  lemma LookupForeign(cfg: Config, db: DB, token: string, uid: Id)
    ensures var r := Answer(cfg, Without(db, uid), Stmt.Lookup(token)); r.RowPrincipal? ==> r.principal.user != uid
  {
  }

  lemma AdvanceAlike(cfg: Config, w: World, tid: nat, ch: Choice, t: Target)
    requires WorldOk(cfg, w) && Facing(cfg, w, t) && tid in w.procs && Elsewhere(w.procs[tid], t)
    requires Possible(cfg, w, Advance(tid, ch)) && ElsewhereAct(Advance(tid, ch), t)
    ensures StepsAlike(cfg, w.store, w.procs[tid], ch, t)
  {
    hide Exec, Answer, Resume, Request, ElsewhereStmt, Without, OwnOf, AccountAt, Elsewhere, ProcsOk, BurnsOk,
      Provenance, VaultsOk, PrincipalsOk, CountersOk, MintedBy;
    var p := w.procs[tid];
    var st := Request(cfg, p, ch);
    if st.Some? && !ch.fault {
      forall token | token in MintedBy(st.value)
        ensures Sha256(token) !in t.own.digests
      {
        FreshIsForeign(cfg, w.store, token, t.uid);
      }
      StatementAlike(cfg, w.store, p, ch, t);
    }
  }

  lemma KindOfRequest(cfg: Config, p: Proc, ch: Choice)
    requires Request(cfg, p, ch).Some?
    ensures var st := Request(cfg, p, ch).value;
            && (LearnsAnAccount(p) ==> st.ConsumeToken? || st.UserIdByEmail?
                                       || ((st.InsertUser? || st.InsertInvitee?) && st.user == ch.id))
            && (p.LoginIssue? ==> MintedBy(st) == {ch.token})
  {
  }

  lemma ReplyAlike(cfg: Config, s: Store, p: Proc, ch: Choice, t: Target)
    requires Inv(cfg, s) && AccountAt(s.db, t.e, t.uid) && t == TargetOf(cfg, s.db, t.e, t.uid)
    requires Elsewhere(p, t) && Request(cfg, p, ch).Some? && ElsewhereAct(Advance(0, ch), t)
    requires forall token :: token in MintedBy(Request(cfg, p, ch).value) ==> Sha256(token) !in t.own.digests
    ensures var st := Request(cfg, p, ch).value; var r1 := Answer(cfg, s.db, st);
            var r2 := Answer(cfg, Without(s.db, t.uid), st);
            && (ElsewhereStmt(st, t) || Probes(st, t)) && (st.Lookup? ==> r1 == r2)
            && Resume(cfg, p, r2, ch) == Resume(cfg, p, r1, ch) && (r1 == r2 || p.LoginRead? || p.ParamsRead?)
  {
    RequestElsewhere(cfg, p, ch, t);
    hide Answer, Resume, Request, ElsewhereStmt, Without, OwnOf, AccountAt, Elsewhere, TokensOk, VaultsOk, PrincipalsOk,
      CountersOk, MintedBy, SessionRowOk, SaltKnown, UniqueAddresses, UniqueDigests;
    var st := Request(cfg, p, ch).value;
    if ElsewhereStmt(st, t) {
      SameAnswer(cfg, s.db, st, t);
    } else {
      ProbeIsWrong(p, t);
      if p.LoginRead? {
        SameVerdict(cfg, s.db, p, ch, t.uid);
      } else {
        ParamsTellApartIff(cfg, s, t.e, t.uid, ch);
      }
    }
  }

  lemma StatementAlike(cfg: Config, s: Store, p: Proc, ch: Choice, t: Target)
    requires Inv(cfg, s) && AccountAt(s.db, t.e, t.uid) && t == TargetOf(cfg, s.db, t.e, t.uid)
    requires Elsewhere(p, t) && Request(cfg, p, ch).Some? && !ch.fault && ElsewhereAct(Advance(0, ch), t)
    requires forall token :: token in MintedBy(Request(cfg, p, ch).value) ==> Sha256(token) !in t.own.digests
    ensures StepsAlike(cfg, s, p, ch, t)
  {
    hide Inv, Exec, Answer, Resume, Request, Next, ElsewhereStmt, Without, TargetOf, AccountAt, Elsewhere, MintedBy,
      OthersPrincipals, LearnsAnAccount, TokenBurnedBy;
    var st := Request(cfg, p, ch).value;
    assert ch.id != t.uid;
    KindOfRequest(cfg, p, ch);
    RepliesForeign(cfg, s.db, st, t.uid);
    ReplyAlike(cfg, s, p, ch, t);
    SameEffect(cfg, s.db, st, t);
    NextIsExec(cfg, s, st);
    NextWithout(cfg, s, st, t);
  }

  lemma NextIsExec(cfg: Config, s: Store, st: Stmt)
    ensures Next(cfg, s, Run(st)).db == Exec(cfg, s.db, st)
  {
  }

  lemma ProbeIsWrong(p: Proc, t: Target)
    requires Elsewhere(p, t) && (p.LoginRead? || p.ParamsRead?) && p.email == t.e
    ensures p.LoginRead? ==> Withstands(t.hash, p.password)
    ensures p.ParamsRead? ==> t.plain
  {
  }

  lemma NormalizeIsLower(s: string)
    ensures Lower(Normalize(s)) == Normalize(s)
  {
  }

  lemma StrangersSession(cfg: Config, w: World, p: Principal, t: Target)
    requires PrincipalsOk(w.store) && Facing(cfg, w, t) && p in w.store.principals && p.user != t.uid
    ensures p.session !in t.own.sids
  {
  }

  lemma BeginElsewhere(cfg: Config, w: World, call: Call, t: Target)
    requires PrincipalsOk(w.store) && Facing(cfg, w, t)
    requires Possible(cfg, w, Start(0, call)) && ElsewhereAct(Start(0, call), t)
    ensures Elsewhere(Begin(cfg, call), t)
  {
    hide OwnOf, AccountAt, Plain, Withstands, PlausibleAddress, Normalize, VaultPolicy, Lower, PrincipalsOk, TargetOf,
      Facing;
    if CallerOf(call).Some? {
      StrangersSession(cfg, w, CallerOf(call).value, t);
    }
    match call
    case Register(email, _) => NormalizeIsLower(email);
    case Invite(email) => NormalizeIsLower(email);
    case _ =>
  }

  /** The same step in both worlds, and nobody has turned to the account. */
  ghost predicate Commutes(cfg: Config, w: World, act: Act, t: Target) {
    && Step(cfg, WorldWithout(w, t.uid), act) == WorldWithout(Step(cfg, w, act), t.uid)
    && Facing(cfg, Step(cfg, w, act), t) && Aloof(Step(cfg, w, act), t)
  }

  lemma AnyCall(tid: nat, call: Call, t: Target)
    requires ElsewhereAct(Start(tid, call), t)
    ensures ElsewhereAct(Start(0, call), t)
  {
  }

  lemma StartCommutes(cfg: Config, w: World, tid: nat, call: Call, t: Target)
    requires WorldOk(cfg, w) && Facing(cfg, w, t) && Aloof(w, t)
    requires Possible(cfg, w, Start(tid, call)) && ElsewhereAct(Start(tid, call), t)
    ensures Commutes(cfg, w, Start(tid, call), t)
  {
    hide Begin, StoreWithout, TargetOf, AccountAt, Elsewhere, Inv, ProcsOk, BurnsOk, Provenance, OthersBurned,
      ElsewhereAct;
    PrincipalsOfInv(cfg, w.store);
    assert ElsewhereAct(Start(0, call), t) by { AnyCall(tid, call, t); }
    BeginElsewhere(cfg, w, call, t);
  }

  lemma AdvanceCommutes(cfg: Config, w: World, tid: nat, ch: Choice, t: Target)
    requires WorldOk(cfg, w) && Facing(cfg, w, t) && Aloof(w, t)
    requires Possible(cfg, w, Advance(tid, ch)) && ElsewhereAct(Advance(tid, ch), t)
    ensures Commutes(cfg, w, Advance(tid, ch), t)
  {
    hide Perform, Resume, OwnOf, AccountAt, Without, Elsewhere, WorldOk, Possible;
    if tid in w.procs {
      var p := w.procs[tid];
      AdvanceAlike(cfg, w, tid, ch, t);
      var (s1, r1) := Perform(cfg, w.store, p, ch);
      var (s2, r2) := Perform(cfg, StoreWithout(w.store, t.uid), p, ch);
      ResumeElsewhere(cfg, p, r2, ch, t);
      OwnDigestsListed(s1.db, t.uid);
      BurnsCommute(w.burned, w.store.db.tokens, s1.db.tokens, tid, p, r1, t);
    }
  }

  lemma BurnsCommute(burned: map<nat, Digest>, before: map<Digest, Token>, after: map<Digest, Token>, tid: nat, p: Proc,
                     r: Reply, t: Target)
    requires Elsewhere(p, t)
    requires forall d :: (d in before && before[d].user == t.uid) <==> (d in after && after[d].user == t.uid)
    requires forall d :: d in after && after[d].user == t.uid ==> d in t.own.digests
    ensures TokenBurnedBy(p).None? || !r.RowId? ==>
              OthersBurned(burned, after, t.uid) == OthersBurned(burned, before, t.uid)
    ensures TokenBurnedBy(p).Some? && r.RowId? ==>
              OthersBurned(burned[tid := TokenBurnedBy(p).value], after, t.uid)
                == OthersBurned(burned, before, t.uid)[tid := TokenBurnedBy(p).value]
  {
  }

  lemma OutsideEvents(cfg: Config, s: Store, ev: Event, t: Target)
    requires AccountAt(s.db, t.e, t.uid) && t == TargetOf(cfg, s.db, t.e, t.uid)
    requires ev.Tick? || ev.SetRoles? || (ev.SoftDelete? && ev.user != t.uid)
    ensures Next(cfg, StoreWithout(s, t.uid), ev) == StoreWithout(Next(cfg, s, ev), t.uid)
    ensures var db := Next(cfg, s, ev).db;
            && AccountAt(db, t.e, t.uid) && t == TargetOf(cfg, db, t.e, t.uid) && db.tokens == s.db.tokens
  {
    hide OwnOf, Normalize, Lower;
    SameOwn(s.db, Next(cfg, s, ev).db, t.uid);
    if ev.SoftDelete? {
      assert Next(cfg, StoreWithout(s, t.uid), ev).db.users == Without(Next(cfg, s, ev).db, t.uid).users;
    }
  }

  lemma OutsideCommutes(cfg: Config, w: World, act: Act, t: Target)
    requires Facing(cfg, w, t) && Aloof(w, t) && ElsewhereAct(act, t) && (act.Elapse? || act.Grant? || act.Disable?)
    ensures Commutes(cfg, w, act, t)
  {
    hide Elsewhere, TargetOf, AccountAt, Next, Without, OthersPrincipals;
    OutsideEvents(cfg, w.store, EventsOf(cfg, w, act)[0], t);
  }

  lemma StepCommutes(cfg: Config, w: World, act: Act, t: Target)
    requires WorldOk(cfg, w) && Facing(cfg, w, t) && Aloof(w, t)
    requires Possible(cfg, w, act) && ElsewhereAct(act, t)
    ensures Commutes(cfg, w, act, t)
  {
    match act
    case Start(tid, call) => StartCommutes(cfg, w, tid, call, t);
    case Advance(tid, ch) => AdvanceCommutes(cfg, w, tid, ch, t);
    case _ => OutsideCommutes(cfg, w, act, t);
  }

  // ---- every run ----

  lemma PossibleWithout(cfg: Config, w: World, act: Act, uid: Id)
    requires Possible(cfg, w, act) && (act.Start? && CallerOf(act.call).Some? ==> CallerOf(act.call).value.user != uid)
    ensures Possible(cfg, WorldWithout(w, uid), act)
  {
  }

  /** Take any reachable world with a live account at an address, whatever it owns: sessions, emailed
      tokens, a vault. Let any calls be made, in any order and interleaving, by anyone but the account
      itself, with wrong guesses at its address. The run is also a run of the world without the
      account: every call stands at the same point with the same result at every moment, the login
      counters agree, and the worlds go on differing by the account's own rows and nothing else. */
  lemma {:induction false} AccountsAreIndistinguishable(cfg: Config, w: World, acts: seq<Act>, t: Target)
    requires WorldOk(cfg, w) && CanPlay(cfg, w, acts) && Facing(cfg, w, t) && Aloof(w, t)
    requires forall i :: 0 <= i < |acts| ==> ElsewhereAct(acts[i], t)
    ensures CanPlay(cfg, WorldWithout(w, t.uid), acts)
    ensures Play(cfg, WorldWithout(w, t.uid), acts) == WorldWithout(Play(cfg, w, acts), t.uid)
    ensures Play(cfg, WorldWithout(w, t.uid), acts).procs == Play(cfg, w, acts).procs
    ensures Play(cfg, WorldWithout(w, t.uid), acts).store.db.attempts == Play(cfg, w, acts).store.db.attempts
    ensures Facing(cfg, Play(cfg, w, acts), t)
    decreases |acts|
  {
    hide Step, Possible, WorldOk, Facing, Aloof, ElsewhereAct;
    if acts != [] {
      assert ElsewhereAct(acts[0], t);
      StepCommutes(cfg, w, acts[0], t);
      StepKeepsWorld(cfg, w, acts[0]);
      assert Possible(cfg, WorldWithout(w, t.uid), acts[0]) by {
        StartersAreStrangers(acts[0], t);
        PossibleWithout(cfg, w, acts[0], t.uid);
      }
      AccountsAreIndistinguishable(cfg, Step(cfg, w, acts[0]), acts[1..], t);
    }
  }

  lemma StartersAreStrangers(act: Act, t: Target)
    requires ElsewhereAct(act, t)
    ensures act.Start? && CallerOf(act.call).Some? ==> CallerOf(act.call).value.user != t.uid
  {
  }

  // ---- the other world is a world ----

  lemma FewerUsersOk(s: Store, uid: Id)
    requires UsersOk(s)
    ensures UsersOk(StoreWithout(s, uid))
  {
    hide Lower;
  }

  lemma StoreWithoutOk(cfg: Config, s: Store, uid: Id)
    requires Inv(cfg, s)
    ensures Inv(cfg, StoreWithout(s, uid))
  {
    hide Normalize, Lower, SaltKnown;
    assert SessionsOk(cfg, StoreWithout(s, uid));
    assert UsersOk(StoreWithout(s, uid)) by { FewerUsersOk(s, uid); }
  }

  lemma BurnedWithout(w: World, tid: nat, user: Id, purposes: set<Purpose>, uid: Id)
    requires Burned(w, tid, user, purposes) && user != uid
    ensures Burned(WorldWithout(w, uid), tid, user, purposes)
  {
  }

  lemma CallersStay(cfg: Config, w: World, t: Target)
    requires Facing(cfg, w, t) && PrincipalsOk(w.store)
    ensures forall p :: p in w.store.principals && (p.user != t.uid || p.session !in t.own.sids) ==>
              p in OthersPrincipals(w.store.principals, t.uid)
  {
  }

  lemma FewerBurned(w: World, uid: Id)
    ensures forall tid :: tid in WorldWithout(w, uid).burned ==> tid in w.burned
  {
  }

  lemma ProcWithoutOk(cfg: Config, w: World, tid: nat, p: Proc, t: Target)
    requires Facing(cfg, w, t) && PrincipalsOk(w.store) && ProcOk(cfg, w, tid, p) && Elsewhere(p, t)
    ensures ProcOk(cfg, WorldWithout(w, t.uid), tid, p)
  {
    hide AccountAt, Plain, Accepts, Withstands, Evidence, ElsewhereStmt, Without, VaultPolicy, OthersBurned;
    CallersStay(cfg, w, t);
    FewerBurned(w, t.uid);
    match p
    case ResetWrite(user, _) => BurnedWithout(w, tid, user, {ForReset}, t.uid);
    case ResetRevoke(user) => BurnedWithout(w, tid, user, {ForReset}, t.uid);
    case AcceptWrite(user, _) => BurnedWithout(w, tid, user, {ForInvite}, t.uid);
    case AcceptMark(user) => BurnedWithout(w, tid, user, {ForInvite}, t.uid);
    case VerifyMark(user) => BurnedWithout(w, tid, user, {ForVerify}, t.uid);
    case _ =>
  }

  /** The world without the account satisfies everything a reachable world does. */
  lemma WorldWithoutIsAWorld(cfg: Config, w: World, t: Target)
    requires WorldOk(cfg, w) && Facing(cfg, w, t) && Aloof(w, t)
    ensures WorldOk(cfg, WorldWithout(w, t.uid))
  {
    hide ProcOk, Elsewhere, Inv, AccountAt, TargetOf;
    var o := WorldWithout(w, t.uid);
    StoreWithoutOk(cfg, w.store, t.uid);
    assert PrincipalsOk(w.store) by { PrincipalsOfInv(cfg, w.store); }
    forall tid | tid in o.procs
      ensures ProcOk(cfg, o, tid, o.procs[tid])
    {
      ProcWithoutOk(cfg, w, tid, w.procs[tid], t);
    }
    forall u | u in o.created && o.store.db.users[u].verified
      ensures exists d :: Evidence(o.store.db, d, u, {ForVerify, ForInvite})
    {
      var d :| Evidence(w.store.db, d, u, {ForVerify, ForInvite});
      assert Evidence(o.store.db, d, u, {ForVerify, ForInvite});
    }
  }

  lemma PrincipalsOfInv(cfg: Config, s: Store)
    requires Inv(cfg, s)
    ensures PrincipalsOk(s)
  {
  }
}
