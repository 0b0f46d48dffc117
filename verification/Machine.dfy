/** Any number of calls in progress at once over one database, one statement at a time. */
module Machine {
  import opened Prelude
  import opened Passwords
  import opened Tables
  import opened Sql
  import opened Invariants
  import opened Programs

  /** `burned` and `created` are history: the emailed token each call consumed, and the accounts
      this library inserted. */
  datatype World = World(store: Store, procs: map<nat, Proc>, burned: map<nat, Digest>, created: set<Id>)

  datatype Act =
    | Elapse(time: nat)
    | Disable(user: Id)
    | Grant(user: Id, roles: seq<string>)
    | Start(tid: nat, call: Call)
    | Advance(tid: nat, choice: Choice)

  function CallerOf(call: Call): Option<Principal> {
    match call
    case Login(_, _, _, caller) => caller
    case Logout(caller) => caller
    case ChangePassword(caller, _, _, _) => caller
    case VaultGet(caller) => caller
    case VaultPut(caller, _) => caller
    case VaultDiscard(caller) => caller
    case _ => None
  }

  function TokenBurnedBy(p: Proc): Option<Digest> {
    match p
    case ResetConsume(token, _) => Some(Sha256(token))
    case VerifyConsume(token) => Some(Sha256(token))
    case AcceptConsume(token, _) => Some(Sha256(token))
    case _ => None
  }

  /** The statement an act executes, if it executes one. */
  function StatementOf(cfg: Config, w: World, act: Act): Option<Stmt> {
    if act.Advance? && act.tid in w.procs && !act.choice.fault
    then Request(cfg, w.procs[act.tid], act.choice) else None
  }

  function EventsOf(cfg: Config, w: World, act: Act): seq<Event> {
    match act
    case Elapse(time) => [Tick(time)]
    case Disable(user) => [SoftDelete(user)]
    case Grant(user, roles) => [SetRoles(user, roles)]
    case Start(_, _) => []
    case Advance(_, _) => var st := StatementOf(cfg, w, act); if st.Some? then [Run(st.value)] else []
  }

  ghost function Step(cfg: Config, w: World, act: Act): World {
    match act
    case Start(tid, call) => if tid in w.procs then w else w.(procs := w.procs[tid := Begin(cfg, call)])
    case Advance(tid, choice) =>
      if tid !in w.procs then w
      else
        var p := w.procs[tid];
        var (store, reply) := Perform(cfg, w.store, p, choice);
        World(store, w.procs[tid := Resume(cfg, p, reply, choice)],
              if TokenBurnedBy(p).Some? && reply.RowId? then w.burned[tid := TokenBurnedBy(p).value] else w.burned,
              if (p.RegisterInsert? || p.InviteInsert?) && reply.RowId? then w.created + {reply.id} else w.created)
    case _ => w.(store := Next(cfg, w.store, EventsOf(cfg, w, act)[0]))
  }

  /** What is assumed of an act: draws are fresh, and a principal on a request came from a lookup. */
  ghost predicate Possible(cfg: Config, w: World, act: Act) {
    match act
    case Start(_, call) => CallerOf(call).Some? ==> CallerOf(call).value in w.store.principals
    case Advance(_, _) =>
      var st := StatementOf(cfg, w, act);
      st.Some? ==> MintedBy(st.value) !! w.store.minted && SaltsOf(st.value) !! w.store.salts
    case _ => true
  }

  ghost function Play(cfg: Config, w: World, acts: seq<Act>): World
    decreases |acts|
  {
    if acts == [] then w else Play(cfg, Step(cfg, w, acts[0]), acts[1..])
  }

  ghost predicate CanPlay(cfg: Config, w: World, acts: seq<Act>)
    decreases |acts|
  {
    acts == [] || (Possible(cfg, w, acts[0]) && CanPlay(cfg, Step(cfg, w, acts[0]), acts[1..]))
  }

  /** The statements the acts execute, in order. */
  ghost function Trace(cfg: Config, w: World, acts: seq<Act>): seq<Event>
    decreases |acts|
  {
    if acts == [] then [] else EventsOf(cfg, w, acts[0]) + Trace(cfg, Step(cfg, w, acts[0]), acts[1..])
  }

  // ---- what the calls in progress know ----

  /** A consumed, unexpired-at-consumption emailed token of one of these purposes, for this user. */
  predicate Evidence(db: DB, d: Digest, user: Id, purposes: set<Purpose>) {
    && d in db.tokens && db.tokens[d].user == user && db.tokens[d].purpose in purposes
    && db.tokens[d].consumed.Some? && db.tokens[d].consumed.value < db.tokens[d].expires
  }

  ghost predicate Burned(w: World, tid: nat, user: Id, purposes: set<Purpose>) {
    tid in w.burned && Evidence(w.store.db, w.burned[tid], user, purposes)
  }

  ghost predicate ProcOk(cfg: Config, w: World, tid: nat, p: Proc) {
    match p
    case LoginCheck(_, _, _, caller) => caller.Some? ==> caller.value in w.store.principals
    case LoginRead(_, _, _, caller) => caller.Some? ==> caller.value in w.store.principals
    case LoginRehash(_, _, _, password, prior, caller) => Accepts(prior, password)
    case ChangeRead(p, _, _, next) => p in w.store.principals && cfg.shape(next)
    case ChangeWrite(p, current, next, prior) =>
      p in w.store.principals && Accepts(prior, current) && cfg.shape(next)
    case RegisterInsert(_, password) => cfg.shape(password)
    case ResetConsume(_, password) => cfg.shape(password) && tid !in w.burned
    case ResetWrite(user, password) => cfg.shape(password) && Burned(w, tid, user, {ForReset})
    case ResetRevoke(user) => Burned(w, tid, user, {ForReset})
    case AcceptConsume(_, password) => cfg.shape(password) && tid !in w.burned
    case AcceptWrite(user, password) => cfg.shape(password) && Burned(w, tid, user, {ForInvite})
    case VerifyConsume(_) => tid !in w.burned
    case VerifyMark(user) => Burned(w, tid, user, {ForVerify})
    case AcceptMark(user) => Burned(w, tid, user, {ForInvite})
    case VaultWrite(p, input) => p in w.store.principals && VaultPolicy(cfg, input)
    case Single(stmt) =>
      && MintedBy(stmt) == {} && HashOf(stmt).None? && !stmt.PutVault? && !stmt.ConsumeToken?
      && !stmt.MarkVerified? && !stmt.InsertInvitee?
    case _ => true
  }

  ghost predicate ProcsOk(cfg: Config, w: World) {
    && (forall tid :: tid in w.procs ==> ProcOk(cfg, w, tid, w.procs[tid]))
    && (forall tid :: tid in w.burned ==> tid in w.procs)
  }

  /** Each burned token was burned by one call only, and is consumed for good. */
  ghost predicate BurnsOk(w: World) {
    && (forall tid :: tid in w.burned ==>
          w.burned[tid] in w.store.db.tokens && w.store.db.tokens[w.burned[tid]].consumed.Some?)
    && (forall a, b :: a in w.burned && b in w.burned && w.burned[a] == w.burned[b] ==> a == b)
  }

  /** An account this library inserted is verified only on the strength of a redeemed link. */
  ghost predicate Provenance(w: World) {
    && w.created <= w.store.db.users.Keys
    && forall u :: u in w.created && w.store.db.users[u].verified ==>
         exists d :: Evidence(w.store.db, d, u, {ForVerify, ForInvite})
  }

  ghost predicate WorldOk(cfg: Config, w: World) {
    Inv(cfg, w.store) && ProcsOk(cfg, w) && BurnsOk(w) && Provenance(w)
  }

  // ---- every step is a statement of the store machine, or none ----

  lemma StepIsEnabled(cfg: Config, w: World, act: Act)
    requires ProcsOk(cfg, w) && Possible(cfg, w, act)
    ensures forall i :: 0 <= i < |EventsOf(cfg, w, act)| ==> Enabled(w.store, EventsOf(cfg, w, act)[i])
  {
    var st := StatementOf(cfg, w, act);
    if act.Advance? && st.Some? {
      assert ProcOk(cfg, w, act.tid, w.procs[act.tid]);
    }
  }

  lemma StepProjects(cfg: Config, w: World, act: Act)
    requires ProcsOk(cfg, w) && Possible(cfg, w, act)
    ensures Step(cfg, w, act).store == After(cfg, w.store, EventsOf(cfg, w, act))
    ensures ValidRun(cfg, w.store, EventsOf(cfg, w, act))
  {
    StepIsEnabled(cfg, w, act);
    var evs := EventsOf(cfg, w, act);
    if evs != [] {
      assert evs == [evs[0]] && evs[1..] == [];
      assert After(cfg, w.store, evs) == After(cfg, Next(cfg, w.store, evs[0]), []);
      assert ValidRun(cfg, Next(cfg, w.store, evs[0]), []);
    }
  }

  /** Token rows keep user, purpose and expiry, and a consumption is never undone or moved. */
  ghost predicate TokenKept(a: Token, b: Token) {
    a.user == b.user && a.purpose == b.purpose && a.expires == b.expires
      && (a.consumed.Some? ==> b.consumed == a.consumed)
  }

  lemma NextKeepsTokenRows(cfg: Config, s: Store, ev: Event, d: Digest)
    requires TokensOk(s) && Enabled(s, ev) && d in s.db.tokens
    ensures d in Next(cfg, s, ev).db.tokens && TokenKept(s.db.tokens[d], Next(cfg, s, ev).db.tokens[d])
  {
  }

  lemma EvidenceStays(cfg: Config, s: Store, ev: Event, d: Digest, user: Id, purposes: set<Purpose>)
    requires TokensOk(s) && Enabled(s, ev) && Evidence(s.db, d, user, purposes)
    ensures Evidence(Next(cfg, s, ev).db, d, user, purposes)
  {
    NextKeepsTokenRows(cfg, s, ev, d);
  }

  lemma ConsumedIsEvidence(cfg: Config, db: DB, token: string, purpose: Purpose)
    requires CanConsume(db, token, purpose)
    ensures Evidence(Exec(cfg, db, ConsumeToken(token, purpose)), Sha256(token), db.tokens[Sha256(token)].user,
                     {purpose})
  {
  }
}
