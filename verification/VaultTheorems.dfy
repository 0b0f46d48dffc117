/** The vault row over whole runs: the version chain, the salt an address sees, and staleness. */
module VaultTheorems {
  import opened Prelude
  import opened Passwords
  import opened Tables
  import opened Text
  import opened Sql
  import opened Invariants
  import opened Programs
  import opened CredentialTheorems
  import opened Machine
  import opened MachineInvariants

  function VersionOf(db: DB, user: Id): int {
    if user in db.vaults then db.vaults[user].version else 0
  }

  ghost predicate Puts(s: Store, ev: Event, user: Id) {
    ev.Run? && ev.stmt.PutVault? && ev.stmt.user == user && CanPut(s.db, user, ev.stmt.version)
  }

  predicate Discards(ev: Event, user: Id) {
    ev == Run(DeleteVault(user))
  }

  ghost function CountPuts(cfg: Config, s: Store, evs: seq<Event>, user: Id): nat
    decreases |evs|
  {
    if evs == [] then 0
    else (if Puts(s, evs[0], user) then 1 else 0) + CountPuts(cfg, Next(cfg, s, evs[0]), evs[1..], user)
  }

  lemma VaultMoves(cfg: Config, s: Store, ev: Event, user: Id)
    requires !Discards(ev, user)
    ensures VersionOf(Next(cfg, s, ev).db, user) == VersionOf(s.db, user) + (if Puts(s, ev, user) then 1 else 0)
    ensures user in s.db.vaults ==> user in Next(cfg, s, ev).db.vaults
    ensures !Puts(s, ev, user) && user in s.db.vaults ==> Next(cfg, s, ev).db.vaults[user] == s.db.vaults[user]
  {
  }

  /** Between discards the version counts the successful writes: 1 for the first, then one more each. */
  lemma {:induction false} VersionCountsWrites(cfg: Config, s: Store, evs: seq<Event>, user: Id)
    requires forall i :: 0 <= i < |evs| ==> !Discards(evs[i], user)
    ensures VersionOf(After(cfg, s, evs).db, user) == VersionOf(s.db, user) + CountPuts(cfg, s, evs, user)
    ensures user in s.db.vaults ==> user in After(cfg, s, evs).db.vaults
    decreases |evs|
  {
    if evs != [] {
      VaultMoves(cfg, s, evs[0], user);
      VersionCountsWrites(cfg, Next(cfg, s, evs[0]), evs[1..], user);
    }
  }

  /** Of all re-wraps expecting the same version, at most one succeeds in any interleaving without a
      discard; the others are told CONFLICT and change no column. */
  lemma OneRewrapPerVersion(cfg: Config, s: Store, won: Stmt, evs: seq<Event>, lost: Stmt)
    requires won.PutVault? && lost.PutVault? && won.user == lost.user && won.version == lost.version
    requires won.user in s.db.vaults && CanPut(s.db, won.user, won.version)
    requires forall i :: 0 <= i < |evs| ==> !Discards(evs[i], won.user)
    ensures var t := After(cfg, Next(cfg, s, Run(won)), evs).db;
            Answer(cfg, t, lost) == NoRows && Exec(cfg, t, lost) == t
  {
    VaultMoves(cfg, s, Run(won), won.user);
    VersionCountsWrites(cfg, Next(cfg, s, Run(won)), evs, won.user);
  }

  lemma PutEffect(cfg: Config, db: DB, st: Stmt)
    requires st.PutVault?
    ensures if CanPut(db, st.user, st.version) then Answer(cfg, db, st).RowVersion?
            else Answer(cfg, db, st).NoRows? && Exec(cfg, db, st) == db
  {
  }

  /** A refused Put leaves every row as it was, and says CONFLICT; a Put the policy rejects never
      reaches the database. */
  lemma RefusedPutChangesNothing(cfg: Config, s: Store, p: Principal, input: VaultInput, ch: Choice)
    ensures var (t, r) := Perform(cfg, s, VaultWrite(p, input), ch);
            && (Resume(cfg, VaultWrite(p, input), r, ch) != Done(Ok(Nil)) ==> t.db == s.db)
            && (!ch.fault ==> (Resume(cfg, VaultWrite(p, input), r, ch) == Done(Err(Conflict)) <==>
                                 !CanPut(s.db, p.user, input.version)))
    ensures Begin(cfg, VaultPut(Some(p), input)) == Done(Err(InvalidInput)) <==> !VaultPolicy(cfg, input)
  {
    hide VaultPolicy, PutStmt, Exec, Answer, CanPut;
    var st := PutStmt(cfg, p, input);
    assert st.PutVault? && st.user == p.user && st.version == input.version by { PutsAsAsked(cfg, p, input); }
    PutEffect(cfg, s.db, st);
  }

  lemma PutsAsAsked(cfg: Config, p: Principal, input: VaultInput)
    ensures var st := PutStmt(cfg, p, input); st.PutVault? && st.user == p.user && st.version == input.version
  {
  }

  /** KeyVersion is not consulted while there is no row: any expected version enrols at version 1. */
  lemma EnrolmentIgnoresVersion(cfg: Config, db: DB, st: Stmt)
    requires st.PutVault? && st.user in db.users && !db.users[st.user].deleted && st.user !in db.vaults
    ensures Answer(cfg, db, st) == RowVersion(1)
    ensures VersionOf(Exec(cfg, db, st), st.user) == 1 && Exec(cfg, db, st).vaults[st.user].salt == st.salt
  {
  }

  // ---- the salt ----

  lemma StoredSaltIsDerived(cfg: Config, s: Store, asked: string)
    requires Inv(cfg, s)
    ensures var r := Answer(cfg, s.db, ParamsByEmail(Normalize(asked)));
            r.NoRows? || (r.RowParams? && r.salt == Derived(Normalize(asked)))
  {
    hide Normalize, Lower;
    forall u | StoredParams(s.db, Normalize(asked), u)
      ensures s.db.vaults[u].salt == Derived(Normalize(asked))
    {
      StoredFormIsNormal(s.db.users[u].email, asked);
    }
  }

  lemma ParamsResume(cfg: Config, asked: string, r: Reply, ch: Choice)
    requires r.NoRows? || (r.RowParams? && r.salt == Derived(Normalize(asked)))
    ensures exists kdf ::
              Resume(cfg, ParamsRead(Normalize(asked)), r, ch) == Done(Ok(KdfAnswer(kdf, Derived(Normalize(asked)))))
  {
    var kdf := if r.NoRows? then cfg.kdfDefault else r.kdf;
    assert Resume(cfg, ParamsRead(Normalize(asked)), r, ch) == Done(Ok(KdfAnswer(kdf, Derived(Normalize(asked)))));
  }

  /** The account lives at this address. */
  predicate LivesAt(db: DB, user: Id, email: string) {
    user in db.users && !db.users[user].deleted && Lower(db.users[user].email) == email
  }

  lemma ParamsReply(cfg: Config, s: Store, email: string)
    requires UsersOk(s)
    ensures var r := Answer(cfg, s.db, ParamsByEmail(email));
            && (forall u :: LivesAt(s.db, u, email) && u in s.db.vaults ==>
                  r == RowParams(s.db.vaults[u].kdf, s.db.vaults[u].salt))
            && ((forall u :: LivesAt(s.db, u, email) ==> u !in s.db.vaults) ==> r == NoRows)
  {
    hide Lower;
    forall u | LivesAt(s.db, u, email) && u in s.db.vaults
      ensures Answer(cfg, s.db, ParamsByEmail(email)) == RowParams(s.db.vaults[u].kdf, s.db.vaults[u].salt)
    {
      assert StoredParams(s.db, email, u);
    }
    if u :| StoredParams(s.db, email, u) {
      assert LivesAt(s.db, u, email);
    }
  }

  /** What Params answers before anybody signs in: the parameters a live account at the address enrolled
      under, and to every other address the configured default with the salt derived from it. */
  lemma ParamsAnswers(cfg: Config, s: Store, asked: string, oracle: nat -> Choice)
    requires !oracle(0).fault && UsersOk(After(cfg, s, oracle(0).env))
    ensures var met := After(cfg, s, oracle(0).env).db; var e := Normalize(asked);
            var end := Drive(cfg, s, Begin(cfg, VaultParams(asked)), oracle, 0);
            && (forall u :: LivesAt(met, u, e) && u in met.vaults ==>
                  end.1 == Ok(KdfAnswer(met.vaults[u].kdf, met.vaults[u].salt)))
            && ((forall u :: LivesAt(met, u, e) ==> u !in met.vaults) ==>
                  end.1 == Ok(KdfAnswer(cfg.kdfDefault, Derived(e))))
  {
    hide After, UsersOk, Answer, Next, Normalize, LivesAt;
    DriveDone(cfg, oracle);
    ParamsReply(cfg, After(cfg, s, oracle(0).env), Normalize(asked));
    DriveRuns(cfg, s, ParamsRead(Normalize(asked)), ParamsByEmail(Normalize(asked)), oracle, 0);
  }

  /** Whatever has happened to the account, or not happened yet, Params answers the same salt for an
      address: the one derived from its normal form. */
  lemma SaltIsConstant(cfg: Config, s: Store, evs: seq<Event>, asked: string, ch: Choice)
    requires Inv(cfg, s) && ValidRun(cfg, s, evs)
    ensures var answer := Resume(cfg, ParamsRead(Normalize(asked)),
                                 Answer(cfg, After(cfg, s, evs).db, ParamsByEmail(Normalize(asked))), ch);
            answer.Done? && answer.result.Ok? && answer.result.value.KdfAnswer?
            && answer.result.value.salt == Derived(Normalize(asked))
  {
    var t := After(cfg, s, evs);
    assert Inv(cfg, t) by { RunKeepsInv(cfg, s, evs); }
    StoredSaltIsDerived(cfg, t, asked);
    ParamsResume(cfg, asked, Answer(cfg, t.db, ParamsByEmail(Normalize(asked))), ch);
  }

  // ---- staleness ----

  /** The account's hash at the instant of the last successful Put of the run. */
  ghost function HashAtLastPut(cfg: Config, s: Store, evs: seq<Event>, user: Id,
                               since: Option<Encoded>): Option<Encoded>
    decreases |evs|
  {
    if evs == [] then since
    else HashAtLastPut(cfg, Next(cfg, s, evs[0]), evs[1..], user,
                       if Puts(s, evs[0], user) then s.db.users[user].hash else since)
  }

  ghost predicate Fingerprinted(db: DB, user: Id, hash: Option<Encoded>) {
    user in db.vaults ==> db.vaults[user].wrappedFor == Some(HashDigest(hash))
  }

  lemma {:induction false} RunKeepsFingerprint(cfg: Config, s: Store, evs: seq<Event>, user: Id, since: Option<Encoded>)
    requires Fingerprinted(s.db, user, since)
    ensures Fingerprinted(After(cfg, s, evs).db, user, HashAtLastPut(cfg, s, evs, user, since))
    decreases |evs|
  {
    if evs != [] {
      RunKeepsFingerprint(cfg, Next(cfg, s, evs[0]), evs[1..], user,
                          if Puts(s, evs[0], user) then s.db.users[user].hash else since);
    }
  }

  /** Get reports Stale exactly when the stored hash is not the one of the last successful Put, in
      every interleaving with password changes, resets and rehashes. */
  lemma StaleExactlyWhenHashMoved(cfg: Config, s: Store, evs: seq<Event>, user: Id, since: Option<Encoded>)
    requires Fingerprinted(s.db, user, since)
    requires user in After(cfg, s, evs).db.vaults && user in After(cfg, s, evs).db.users
    ensures var db := After(cfg, s, evs).db;
            Answer(cfg, db, VaultByUser(user)) ==
              RowVault(db.vaults[user], db.users[user].hash != HashAtLastPut(cfg, s, evs, user, since))
  {
    RunKeepsFingerprint(cfg, s, evs, user, since);
  }

  lemma {:induction false} HashStaysSet(cfg: Config, s: Store, evs: seq<Event>, user: Id)
    requires user in s.db.users && s.db.users[user].hash.Some?
    ensures var t := After(cfg, s, evs).db; user in t.users && t.users[user].hash.Some?
    decreases |evs|
  {
    if evs != [] {
      if evs[0].Run? {
        HashMoves(s.db, evs[0].stmt, user);
      }
      HashStaysSet(cfg, Next(cfg, s, evs[0]), evs[1..], user);
    }
  }

  /** Stale = false is a statement about the whole time since the Put: the account has had the very
      hash, hence accepted the very password, of that Put at every moment in between. */
  lemma FreshMeansUntouched(cfg: Config, s: Store, evs: seq<Event>, user: Id, k: nat)
    requires Inv(cfg, s) && ValidRun(cfg, s, evs) && user in s.db.users && k <= |evs|
    requires user in After(cfg, s, evs).db.users && After(cfg, s, evs).db.users[user].hash == s.db.users[user].hash
    ensures var mid := After(cfg, s, evs[..k]).db;
            user in mid.users && mid.users[user].hash == s.db.users[user].hash
  {
    assert evs == evs[..k] + evs[k..];
    AfterConcat(cfg, s, evs[..k], evs[k..]);
    RunKeepsInv(cfg, s, evs[..k]);
    var mid := After(cfg, s, evs[..k]);
    if s.db.users[user].hash.Some? {
      MatchMeansUndisturbed(cfg, s, evs, user, s.db.users[user].hash.value, k);
    } else if mid.db.users[user].hash.Some? {
      HashStaysSet(cfg, mid, evs[k..], user);
    }
  }

  lemma {:induction false} NoPutKeepsHash(cfg: Config, s: Store, evs: seq<Event>, user: Id, since: Option<Encoded>)
    requires forall i :: 0 <= i < |evs| ==> !Puts(After(cfg, s, evs[..i]), evs[i], user)
    ensures HashAtLastPut(cfg, s, evs, user, since) == since
    decreases |evs|
  {
    hide Puts, Next;
    if evs != [] {
      assert evs[..0] == [] && !Puts(After(cfg, s, evs[..0]), evs[0], user);
      var rest := evs[1..];
      forall i | 0 <= i < |rest|
        ensures !Puts(After(cfg, Next(cfg, s, evs[0]), rest[..i]), rest[i], user)
      {
        assert evs[..i + 1][1..] == rest[..i] && !Puts(After(cfg, s, evs[..i + 1]), evs[i + 1], user);
      }
      NoPutKeepsHash(cfg, Next(cfg, s, evs[0]), rest, user, since);
    }
  }

  lemma PutStampsHash(cfg: Config, s: Store, ev: Event, user: Id)
    requires Puts(s, ev, user)
    ensures var t := Next(cfg, s, ev);
            user in s.db.users && user in t.db.users && t.db.users[user].hash == s.db.users[user].hash
              && Fingerprinted(t.db, user, s.db.users[user].hash)
  {
  }

  /** The rest of a run after its j-th event is a run of its own. */
  lemma RestIsARun(cfg: Config, s: Store, evs: seq<Event>, j: nat)
    requires Inv(cfg, s) && ValidRun(cfg, s, evs) && j < |evs|
    ensures var mid := Next(cfg, After(cfg, s, evs[..j]), evs[j]);
            Inv(cfg, mid) && ValidRun(cfg, mid, evs[j + 1..]) && After(cfg, s, evs) == After(cfg, mid, evs[j + 1..])
  {
    hide Next, Enabled, Inv;
    var rest := evs[j + 1..];
    assert evs == evs[..j] + ([evs[j]] + rest) && ([evs[j]] + rest)[1..] == rest;
    AfterConcat(cfg, s, evs[..j], [evs[j]] + rest);
    RunKeepsInv(cfg, s, evs[..j]);
    NextKeepsInv(cfg, After(cfg, s, evs[..j]), evs[j]);
  }

  lemma AfterFirst(cfg: Config, s: Store, ev: Event, rest: seq<Event>)
    ensures After(cfg, s, [ev] + rest) == After(cfg, Next(cfg, s, ev), rest)
  {
    hide Next;
    assert ([ev] + rest)[1..] == rest;
  }

  lemma SplitAt(cfg: Config, s: Store, evs: seq<Event>, j: nat, i: nat)
    requires j < |evs| && j + 1 + i <= |evs|
    ensures After(cfg, s, evs[..j + 1 + i]) == After(cfg, Next(cfg, After(cfg, s, evs[..j]), evs[j]), evs[j + 1..][..i])
  {
    hide After, Next;
    var rest := evs[j + 1..][..i];
    assert evs[..j + 1 + i] == evs[..j] + ([evs[j]] + rest);
    AfterConcat(cfg, s, evs[..j], [evs[j]] + rest);
    AfterFirst(cfg, After(cfg, s, evs[..j]), evs[j], rest);
  }

  lemma NoPutInRest(cfg: Config, s: Store, evs: seq<Event>, user: Id, j: nat)
    requires j < |evs| && forall i :: j < i < |evs| ==> !Puts(After(cfg, s, evs[..i]), evs[i], user)
    ensures var mid := Next(cfg, After(cfg, s, evs[..j]), evs[j]); var rest := evs[j + 1..];
            forall i :: 0 <= i < |rest| ==> !Puts(After(cfg, mid, rest[..i]), rest[i], user)
  {
    hide Puts, Next, After;
    var rest := evs[j + 1..];
    forall i | 0 <= i < |rest|
      ensures !Puts(After(cfg, Next(cfg, After(cfg, s, evs[..j]), evs[j]), rest[..i]), rest[i], user)
    {
      SplitAt(cfg, s, evs, j, i);
      assert !Puts(After(cfg, s, evs[..j + 1 + i]), evs[j + 1 + i], user);
    }
  }

  lemma NotStaleIsSameHash(cfg: Config, s: Store, evs: seq<Event>, user: Id, hash: Option<Encoded>)
    requires Fingerprinted(s.db, user, hash) && HashAtLastPut(cfg, s, evs, user, hash) == hash
    requires var answer := Answer(cfg, After(cfg, s, evs).db, VaultByUser(user)); answer.RowVault? && !answer.stale
    ensures var t := After(cfg, s, evs).db; user in t.users && t.users[user].hash == hash
  {
    StaleExactlyWhenHashMoved(cfg, s, evs, user, hash);
  }

  /** When Get answers a vault that is not stale, the account has had the very hash of the last
      successful Put, hence accepted the very password, at every moment since. */
  lemma NotStaleMeansUntouched(cfg: Config, s: Store, evs: seq<Event>, user: Id, j: nat, k: nat)
    requires Inv(cfg, s) && ValidRun(cfg, s, evs) && j < |evs| && j < k <= |evs|
    requires Puts(After(cfg, s, evs[..j]), evs[j], user)
    requires forall i :: j < i < |evs| ==> !Puts(After(cfg, s, evs[..i]), evs[i], user)
    requires var answer := Answer(cfg, After(cfg, s, evs).db, VaultByUser(user)); answer.RowVault? && !answer.stale
    ensures var put := After(cfg, s, evs[..j]).db; var later := After(cfg, s, evs[..k]).db;
            user in put.users && user in later.users && later.users[user].hash == put.users[user].hash
  {
    hide Puts, Next, After, ValidRun, Inv, Fingerprinted, HashAtLastPut, Answer;
    var before := After(cfg, s, evs[..j]);
    var mid := Next(cfg, before, evs[j]);
    var rest := evs[j + 1..];
    RestIsARun(cfg, s, evs, j);
    PutStampsHash(cfg, before, evs[j], user);
    NoPutInRest(cfg, s, evs, user, j);
    NoPutKeepsHash(cfg, mid, rest, user, before.db.users[user].hash);
    NotStaleIsSameHash(cfg, mid, rest, user, before.db.users[user].hash);
    SplitAt(cfg, s, evs, j, k - j - 1);
    FreshMeansUntouched(cfg, mid, rest, user, k - j - 1);
  }

  // ---- the write policy ----

  /** What every stored row owes to the configuration. */
  predicate MeetsPolicy(cfg: Config, kdf: Kdf, wrapped: seq<int>, recovery: seq<int>) {
    && 0 < |wrapped| <= cfg.maxBlob && |recovery| <= cfg.maxBlob && (cfg.allowNoRecovery || recovery != [])
    && kdf.name in {"argon2id", "pbkdf2"} && kdf.memory >= cfg.kdfFloor.memory
    && kdf.iterations >= cfg.kdfFloor.iterations
  }

  ghost predicate RowsMeetPolicy(cfg: Config, db: DB) {
    forall u :: u in db.vaults ==> MeetsPolicy(cfg, db.vaults[u].kdf, db.vaults[u].wrapped, db.vaults[u].recovery)
  }

  lemma StatementKeepsPolicy(cfg: Config, db: DB, st: Stmt)
    requires RowsMeetPolicy(cfg, db) && (st.PutVault? ==> MeetsPolicy(cfg, st.kdf, st.wrapped, st.recovery))
    ensures RowsMeetPolicy(cfg, Exec(cfg, db, st))
  {
    hide MeetsPolicy;
  }

  lemma OnlyVaultWritePuts(cfg: Config, w: World, act: Act)
    requires ProcsOk(cfg, w)
    ensures var st := StatementOf(cfg, w, act);
            st.Some? && st.value.PutVault? ==> MeetsPolicy(cfg, st.value.kdf, st.value.wrapped, st.value.recovery)
  {
    var st := StatementOf(cfg, w, act);
    if st.Some? && st.value.PutVault? {
      var p := w.procs[act.tid];
      assert ProcOk(cfg, w, act.tid, p) && p.VaultWrite?;
    }
  }

  /** In every reachable state no vault is wrapped under parameters below the floor, over the blob
      ceiling, or, where it is required, without a recovery copy. */
  lemma {:induction false} PlayKeepsPolicy(cfg: Config, w: World, acts: seq<Act>)
    requires WorldOk(cfg, w) && CanPlay(cfg, w, acts) && RowsMeetPolicy(cfg, w.store.db)
    ensures RowsMeetPolicy(cfg, Play(cfg, w, acts).store.db)
    decreases |acts|
  {
    hide MeetsPolicy, Exec, Answer, Request, Resume, Begin, Inv, BurnsOk, Provenance, ProcOk;
    if acts != [] {
      var st := StatementOf(cfg, w, acts[0]);
      OnlyVaultWritePuts(cfg, w, acts[0]);
      if st.Some? {
        StatementKeepsPolicy(cfg, w.store.db, st.value);
      }
      StepKeepsWorld(cfg, w, acts[0]);
      PlayKeepsPolicy(cfg, Step(cfg, w, acts[0]), acts[1..]);
    }
  }

  /** A client that enrols under the parameters Params hands an address without a vault is refused,
      whatever it sends, exactly when the configured default is itself below the floor or of no known
      kind: nothing compares the two when they are configured. */
  lemma DefaultIsAcceptedIffAboveFloor(cfg: Config, input: VaultInput)
    requires input.kdf == cfg.kdfDefault
             && MeetsPolicy(cfg, Kdf(KDF_ARGON2ID, cfg.kdfFloor.memory, cfg.kdfFloor.iterations), input.wrapped,
                            input.recovery)
    ensures VaultPolicy(cfg, input) <==>
              && cfg.kdfDefault.name in {KDF_ARGON2ID, KDF_PBKDF2}
              && cfg.kdfDefault.memory >= cfg.kdfFloor.memory && cfg.kdfDefault.iterations >= cfg.kdfFloor.iterations
  {
  }

  // ---- what was put is what is got ----

  /** No successful Put and no Discard of this user's. */
  ghost predicate Untouched(cfg: Config, s: Store, evs: seq<Event>, user: Id)
    decreases |evs|
  {
    evs == [] || (!Puts(s, evs[0], user) && !Discards(evs[0], user)
                  && Untouched(cfg, Next(cfg, s, evs[0]), evs[1..], user))
  }

  lemma {:induction false} UntouchedStays(cfg: Config, s: Store, evs: seq<Event>, user: Id)
    requires user in s.db.vaults && Untouched(cfg, s, evs, user)
    ensures user in After(cfg, s, evs).db.vaults && After(cfg, s, evs).db.vaults[user] == s.db.vaults[user]
    decreases |evs|
  {
    hide Next, Puts, Discards;
    if evs != [] {
      VaultMoves(cfg, s, evs[0], user);
      UntouchedStays(cfg, Next(cfg, s, evs[0]), evs[1..], user);
    }
  }

  /** The row holds the client's bytes and its parameters, the unset ones filled from the configuration. */
  ghost predicate Holds(cfg: Config, v: Vault, input: VaultInput) {
    && v.wrapped == input.wrapped && v.recovery == input.recovery
    && v.kdf.name == (if input.kdf.name == "" then cfg.kdfDefault.name else input.kdf.name)
    && v.kdf.memory == (if input.kdf.memory == 0 then cfg.kdfDefault.memory else input.kdf.memory)
    && v.kdf.iterations == (if input.kdf.iterations == 0 then cfg.kdfDefault.iterations else input.kdf.iterations)
  }

  lemma PutStatement(cfg: Config, p: Principal, input: VaultInput, ch: Choice)
    ensures Begin(cfg, VaultPut(Some(p), input)) == VaultWrite(p, input) || Begin(cfg, VaultPut(Some(p), input)).Done?
    ensures Begin(cfg, VaultPut(Some(p), input)) != Done(Ok(Nil))
    ensures Request(cfg, VaultWrite(p, input), ch) == Some(PutStmt(cfg, p, input))
    ensures forall r: Reply ::
              Resume(cfg, VaultWrite(p, input), r, ch)
              == Done(if r.RowVersion? then Ok(Nil) else Err(if r.NoRows? then Conflict else Internal))
  {
    hide VaultPolicy, PutStmt;
  }

  lemma PutStores(cfg: Config, s: Store, p: Principal, input: VaultInput)
    requires Answer(cfg, s.db, PutStmt(cfg, p, input)).RowVersion?
    ensures var t := Next(cfg, s, Run(PutStmt(cfg, p, input))).db;
            p.user in t.users && p.user in t.vaults && Holds(cfg, t.vaults[p.user], input)
  {
    hide Normalize;
  }

  /** The parameters a Put stores: the client's where it names them, the configuration's elsewhere. */
  predicate Accepted(cfg: Config, input: VaultInput) {
    MeetsPolicy(cfg, Kdf(if input.kdf.name == "" then cfg.kdfDefault.name else input.kdf.name,
                         if input.kdf.memory == 0 then cfg.kdfDefault.memory else input.kdf.memory,
                         if input.kdf.iterations == 0 then cfg.kdfDefault.iterations else input.kdf.iterations),
                input.wrapped, input.recovery)
  }

  lemma PutBegins(cfg: Config, p: Principal, input: VaultInput)
    ensures Begin(cfg, VaultPut(Some(p), input))
            == if Accepted(cfg, input) then VaultWrite(p, input) else Done(Err(InvalidInput))
  {
  }

  lemma PutReplies(cfg: Config, s: Store, p: Principal, input: VaultInput)
    ensures var st := PutStmt(cfg, p, input); var r := Answer(cfg, s.db, st);
            if p.user in s.db.users && !s.db.users[p.user].deleted
               && (p.user in s.db.vaults ==> s.db.vaults[p.user].version == input.version)
            then r.RowVersion? else r.NoRows? && Next(cfg, s, Run(st)).db == s.db
  {
    hide Normalize;
  }

  /** What a Put answers: INVALID_INPUT exactly for what the policy refuses, and nothing has run; otherwise nil
      exactly for a live account that has no vault yet or whose version is the one expected, and CONFLICT,
      with nothing changed, for every other. */
  lemma PutAnswers(cfg: Config, s: Store, p: Principal, input: VaultInput, oracle: nat -> Choice)
    requires !oracle(0).fault
    ensures var met := After(cfg, s, oracle(0).env);
            var end := Drive(cfg, s, Begin(cfg, VaultPut(Some(p), input)), oracle, 0);
            if !Accepted(cfg, input) then end == (s, Err(InvalidInput))
            else if p.user in met.db.users && !met.db.users[p.user].deleted
                    && (p.user in met.db.vaults ==> met.db.vaults[p.user].version == input.version)
            then end.1 == Ok(Nil) else end.1 == Err(Conflict) && end.0.db == met.db
  {
    hide *;
    PutBegins(cfg, p, input);
    DriveDone(cfg, oracle);
    if Accepted(cfg, input) {
      PutStatement(cfg, p, input, oracle(0));
      DriveRuns(cfg, s, VaultWrite(p, input), PutStmt(cfg, p, input), oracle, 0);
      PutReplies(cfg, After(cfg, s, oracle(0).env), p, input);
    }
  }

  lemma PutLeaves(cfg: Config, s: Store, p: Principal, input: VaultInput, oracle: nat -> Choice)
    requires Drive(cfg, s, Begin(cfg, VaultPut(Some(p), input)), oracle, 0).1 == Ok(Nil)
    ensures var t := Drive(cfg, s, Begin(cfg, VaultPut(Some(p), input)), oracle, 0).0.db;
            p.user in t.users && p.user in t.vaults && Holds(cfg, t.vaults[p.user], input)
  {
    hide *;
    PutStatement(cfg, p, input, oracle(0));
    DriveDone(cfg, oracle);
    var q := VaultWrite(p, input);
    var met := After(cfg, s, oracle(0).env);
    if oracle(0).fault {
      PutFaults(cfg, s, p, input, oracle);
    } else if Begin(cfg, VaultPut(Some(p), input)) == q {
      DriveRuns(cfg, s, q, PutStmt(cfg, p, input), oracle, 0);
      PutStores(cfg, met, p, input);
    } else {
      DoneGives(cfg, s, Begin(cfg, VaultPut(Some(p), input)), oracle);
    }
  }

  lemma DoneGives(cfg: Config, s: Store, p: Proc, oracle: nat -> Choice)
    requires p.Done?
    ensures Drive(cfg, s, p, oracle, 0) == (s, p.result)
  {
  }

  lemma PutFaults(cfg: Config, s: Store, p: Principal, input: VaultInput, oracle: nat -> Choice)
    requires oracle(0).fault
    ensures Drive(cfg, s, Begin(cfg, VaultPut(Some(p), input)), oracle, 0).1.Err?
  {
    hide VaultPolicy, PutStmt, Drive;
    DriveDone(cfg, oracle);
    if VaultPolicy(cfg, input) {
      DriveOnce(cfg, s, VaultWrite(p, input), oracle, 0);
    }
  }

  lemma GetStatement(cfg: Config, caller: Principal, ch: Choice)
    ensures var p := Begin(cfg, VaultGet(Some(caller)));
            && !p.Done? && Request(cfg, p, ch) == Some(VaultByUser(caller.user))
            && (forall v, stale :: Resume(cfg, p, RowVault(v, stale), ch) == Done(Ok(VaultAnswer(v, stale))))
            && Resume(cfg, p, NoRows, ch) == Done(Ok(NoVault))
  {
  }

  lemma VaultIsRead(cfg: Config, db: DB, user: Id)
    ensures Answer(cfg, db, VaultByUser(user))
            == if user in db.vaults && user in db.users
               then RowVault(db.vaults[user], db.vaults[user].wrappedFor != Some(HashDigest(db.users[user].hash)))
               else NoRows
  {
  }

  lemma GetAnswers(cfg: Config, s: Store, caller: Principal, oracle: nat -> Choice)
    requires !oracle(0).fault
    ensures var met := After(cfg, s, oracle(0).env).db; var u := caller.user;
            Drive(cfg, s, Begin(cfg, VaultGet(Some(caller))), oracle, 0).1
            == if u in met.vaults && u in met.users
               then Ok(VaultAnswer(met.vaults[u], met.vaults[u].wrappedFor != Some(HashDigest(met.users[u].hash))))
               else Ok(NoVault)
  {
    hide *;
    GetStatement(cfg, caller, oracle(0));
    VaultIsRead(cfg, After(cfg, s, oracle(0).env).db, caller.user);
    DriveRuns(cfg, s, Begin(cfg, VaultGet(Some(caller))), VaultByUser(caller.user), oracle, 0);
    DriveDone(cfg, oracle);
  }

  /** After a Put that answered nil, every Get of that user answers exactly what was put, until the next
      successful Put or Discard, whatever else runs. */
  lemma PutIsRead(cfg: Config, s: Store, p: Principal, input: VaultInput, putting: nat -> Choice, evs: seq<Event>,
                  caller: Principal, getting: nat -> Choice)
    requires Drive(cfg, s, Begin(cfg, VaultPut(Some(p), input)), putting, 0).1 == Ok(Nil) && caller.user == p.user
    requires var put := Drive(cfg, s, Begin(cfg, VaultPut(Some(p), input)), putting, 0).0;
             Untouched(cfg, put, evs + getting(0).env, p.user) && !getting(0).fault
    ensures var put := Drive(cfg, s, Begin(cfg, VaultPut(Some(p), input)), putting, 0).0;
            var got := Drive(cfg, After(cfg, put, evs), Begin(cfg, VaultGet(Some(caller))), getting, 0).1;
            got.Ok? && got.value.VaultAnswer? && Holds(cfg, got.value.vault, input)
  {
    hide *;
    PutLeaves(cfg, s, p, input, putting);
    var put := Drive(cfg, s, Begin(cfg, VaultPut(Some(p), input)), putting, 0).0;
    UntouchedStays(cfg, put, evs + getting(0).env, p.user);
    AfterConcat(cfg, put, evs, getting(0).env);
    AccountStays(cfg, put, evs + getting(0).env, p.user);
    GetAnswers(cfg, After(cfg, put, evs), caller, getting);
  }

  lemma {:induction false} AccountStays(cfg: Config, s: Store, evs: seq<Event>, user: Id)
    requires user in s.db.users
    ensures user in After(cfg, s, evs).db.users
    decreases |evs|
  {
    if evs != [] {
      if evs[0].Run? {
        HashMoves(s.db, evs[0].stmt, user);
      }
      AccountStays(cfg, Next(cfg, s, evs[0]), evs[1..], user);
    }
  }

  /** After a Discard that answered nil the user has no vault, until the next Put. */
  lemma DiscardIsRead(cfg: Config, s: Store, p: Principal, discarding: nat -> Choice, caller: Principal,
                      getting: nat -> Choice)
    requires caller.user == p.user && !discarding(0).fault && !getting(0).fault && getting(0).env == []
    ensures var gone := Drive(cfg, s, Begin(cfg, VaultDiscard(Some(p))), discarding, 0);
            && gone.1 == Ok(Nil)
            && Drive(cfg, gone.0, Begin(cfg, VaultGet(Some(caller))), getting, 0).1 == Ok(NoVault)
  {
    hide *;
    var met := After(cfg, s, discarding(0).env);
    DiscardStatement(cfg, met, p, discarding(0));
    DriveRuns(cfg, s, Begin(cfg, VaultDiscard(Some(p))), DeleteVault(p.user), discarding, 0);
    DriveDone(cfg, discarding);
    var gone := Drive(cfg, s, Begin(cfg, VaultDiscard(Some(p))), discarding, 0).0;
    NothingRuns(cfg, gone);
    GetAnswers(cfg, gone, caller, getting);
  }

  lemma NothingRuns(cfg: Config, s: Store)
    ensures After(cfg, s, []) == s
  {
  }

  lemma DiscardStatement(cfg: Config, s: Store, p: Principal, ch: Choice)
    ensures var q := Begin(cfg, VaultDiscard(Some(p))); var st := DeleteVault(p.user);
            && !q.Done? && Request(cfg, q, ch) == Some(st) && Resume(cfg, q, Answer(cfg, s.db, st), ch) == Done(Ok(Nil))
            && p.user !in Next(cfg, s, Run(st)).db.vaults
  {
  }
}
