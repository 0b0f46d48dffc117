/** The session methods and Logout as calls, in any run: when each succeeds, and what its success means
    from then on. */
module SessionCalls {
  import opened Prelude
  import opened Tables
  import opened Sql
  import opened Invariants
  import opened SessionTheorems
  import opened Programs
  import opened Machine
  import opened MachineInvariants
  import opened Outcomes
  import opened Survivors
  import Directive
  import Sorting

  // ---- one statement, one answer ----

  /** The world call `tid` met at its move `j`. */
  ghost function At(cfg: Config, w: World, tid: nat, call: Call, acts: seq<Act>, j: nat): World
    requires j <= |acts|
  {
    Play(cfg, Step(cfg, w, Start(tid, call)), acts[..j])
  }

  ghost predicate Plays(cfg: Config, w: World, tid: nat, call: Call, acts: seq<Act>) {
    && WorldOk(cfg, w) && CanPlay(cfg, w, [Start(tid, call)] + acts) && tid !in w.procs
    && Ends(cfg, Step(cfg, w, Start(tid, call)), acts, tid)
  }

  ghost function ResultOf(cfg: Config, w: World, tid: nat, call: Call, acts: seq<Act>): Result<Value>
    requires Ends(cfg, Step(cfg, w, Start(tid, call)), acts, tid)
  {
    Play(cfg, Step(cfg, w, Start(tid, call)), acts).procs[tid].result
  }

  /** Act `j` is the call's one statement and decides its answer; the rest of the run is `acts[j + 1..]`. */
  ghost predicate OnlyMove(cfg: Config, w: World, tid: nat, call: Call, acts: seq<Act>, j: nat) {
    && Ends(cfg, Step(cfg, w, Start(tid, call)), acts, tid) && j < |acts| && acts[j].Advance? && acts[j].tid == tid
    && var u := At(cfg, w, tid, call, acts, j); var t := Step(cfg, u, acts[j]);
       var (store, r) := Perform(cfg, u.store, Begin(cfg, call), acts[j].choice);
    && WorldOk(cfg, u) && Possible(cfg, u, acts[j]) && tid in u.procs && u.procs[tid] == Begin(cfg, call)
    && Resume(cfg, Begin(cfg, call), r, acts[j].choice) == Done(ResultOf(cfg, w, tid, call, acts))
    && t.store == store && WorldOk(cfg, t) && CanPlay(cfg, t, acts[j + 1..])
    && Play(cfg, t, acts[j + 1..]) == Play(cfg, Step(cfg, w, Start(tid, call)), acts)
  }

  lemma Started(cfg: Config, w: World, tid: nat, call: Call, acts: seq<Act>)
    requires Plays(cfg, w, tid, call, acts)
    ensures var t := Step(cfg, w, Start(tid, call));
            && WorldOk(cfg, t) && CanPlay(cfg, t, acts) && t.store == w.store && tid !in t.burned
            && tid in t.procs && t.procs[tid] == Begin(cfg, call) && Ends(cfg, t, acts, tid)
            && (CallerOf(call).Some? ==> CallerOf(call).value in w.store.principals)
  {
    var start := Start(tid, call);
    assert ([start] + acts)[1..] == acts && ([start] + acts)[0] == start;
    assert Possible(cfg, w, start) && CanPlay(cfg, Step(cfg, w, start), acts);
    assert tid !in w.burned;
    hide Possible, Inv, Provenance, BurnsOk, ProcsOk, Begin;
    StepKeepsWorld(cfg, w, start);
  }

  /** A call one move from its end: that move decides the result. */
  lemma MakesItsMove(cfg: Config, w: World, tid: nat, call: Call, acts: seq<Act>) returns (j: nat)
    requires Plays(cfg, w, tid, call, acts) && Left(Begin(cfg, call)) == 1
    ensures OnlyMove(cfg, w, tid, call, acts, j)
  {
    Started(cfg, w, tid, call, acts);
    var t := Step(cfg, w, Start(tid, call));
    hide Step, Begin, WorldOk, Possible, MovesAt, OnlyMove, CanPlay, Plays, Left, Ran, Met, Play;
    NotYetDone(Begin(cfg, call));
    j := NextMove(cfg, t, acts, tid);
    assert j < |acts| by { MovesInside(cfg, t, acts, tid, j); }
    PrefixOk(cfg, t, acts, j);
    MoveDecides(cfg, w, tid, call, acts, j);
  }

  lemma NotYetDone(p: Proc)
    requires Left(p) == 1
    ensures !p.Done?
  {
  }

  lemma MovesInside(cfg: Config, w: World, acts: seq<Act>, tid: nat, j: nat)
    requires MovesAt(cfg, w, acts, tid, j)
    ensures j < |acts|
  {
  }

  lemma MoveDecides(cfg: Config, w: World, tid: nat, call: Call, acts: seq<Act>, j: nat)
    requires var t := Step(cfg, w, Start(tid, call));
             && MovesAt(cfg, t, acts, tid, j) && Ends(cfg, t, acts, tid) && t.procs[tid] == Begin(cfg, call)
             && var u := Play(cfg, t, acts[..j]);
                WorldOk(cfg, u) && Possible(cfg, u, acts[j]) && CanPlay(cfg, Step(cfg, u, acts[j]), acts[j + 1..])
    requires Left(Begin(cfg, call)) == 1
    ensures OnlyMove(cfg, w, tid, call, acts, j)
  {
    var t := Step(cfg, w, Start(tid, call));
    var u := Play(cfg, t, acts[..j]);
    hide Step, Begin, Play, Perform, Resume, WorldOk, Possible, Request, RanNow, Ran, Met, CanPlay, Left;
    assert acts[j] == Advance(tid, acts[j].choice);
    var r := Perform(cfg, u.store, Begin(cfg, call), acts[j].choice).1;
    LastMoveEnds(cfg, Begin(cfg, call), r, acts[j].choice);
    NotYetDone(Begin(cfg, call));
    MoveIs(cfg, u, tid, acts[j].choice);
    StepKeepsWorld(cfg, u, acts[j]);
    EndedIsOver(cfg, Step(cfg, u, acts[j]), acts[j + 1..], tid);
  }

  lemma LastMoveEnds(cfg: Config, p: Proc, r: Reply, ch: Choice)
    requires Left(p) == 1
    ensures Resume(cfg, p, r, ch).Done?
  {
    hide Resume;
    ResumeProgresses(cfg, p, r, ch);
    OnlyDoneHasNothingLeft(Resume(cfg, p, r, ch));
  }

  lemma OnlyDoneHasNothingLeft(p: Proc)
    ensures Left(p) == 0 ==> p.Done?
  {
  }

  lemma BeginsToRevoke(cfg: Config, sid: Id, user: Id, p: Principal)
    ensures Begin(cfg, Logout(Some(p))) == Single(Revoke(p.session)) && Left(Single(Revoke(p.session))) == 1
    ensures Begin(cfg, SessionRevoke(sid)) == Single(Revoke(sid)) && Left(Single(Revoke(sid))) == 1
    ensures Begin(cfg, SessionRevokeAll(user)) == Single(RevokeAll(user)) && Left(Single(RevokeAll(user))) == 1
  {
  }

  lemma BeginsToStamp(cfg: Config, sid: Id, user: Id)
    ensures Begin(cfg, SessionRecordMFA(sid, user)) == Single(RecordMFA(sid, user))
            && Left(Single(RecordMFA(sid, user))) == 1
  {
  }

  lemma BeginsToLookUp(cfg: Config, token: string)
    ensures Begin(cfg, SessionLookup(token)) == Single(Lookup(token)) && Left(Single(Lookup(token))) == 1
  {
  }

  lemma BeginsToDraw(cfg: Config, sid: Id, user: Id)
    ensures Begin(cfg, SessionIssue(user)) == DrawIssue(user) && Left(DrawIssue(user)) == 1
    ensures Begin(cfg, SessionRotate(sid)) == DrawRotate(sid) && Left(DrawRotate(sid)) == 1
  {
  }

  /** What the deciding move is worth. */
  lemma MoveFacts(cfg: Config, w: World, tid: nat, call: Call, acts: seq<Act>, j: nat)
    requires OnlyMove(cfg, w, tid, call, acts, j)
    ensures j < |acts| && Ends(cfg, Step(cfg, w, Start(tid, call)), acts, tid)
    ensures var u := At(cfg, w, tid, call, acts, j); var t := Step(cfg, u, acts[j]); var ch := acts[j].choice;
            var (store, r) := Perform(cfg, u.store, Begin(cfg, call), ch);
            && acts[j].Advance? && SessionsOk(cfg, u.store) && t.store == store && WorldOk(cfg, t)
            && CanPlay(cfg, t, acts[j + 1..])
            && Resume(cfg, Begin(cfg, call), r, ch) == Done(ResultOf(cfg, w, tid, call, acts))
            && Play(cfg, t, acts[j + 1..]) == Play(cfg, Step(cfg, w, Start(tid, call)), acts)
            && (Begin(cfg, call).DrawIssue? || Begin(cfg, call).DrawRotate? ==> ch.fault || ch.token !in u.store.minted)
  {
    hide Perform, Resume, Begin, Play, CanPlay, Step, SessionRowOk, UniqueDigests, UsersOk, TokensOk, VaultsOk,
      PrincipalsOk, CountersOk, ProcsOk, BurnsOk, Provenance;
  }

  // ---- calls that end sessions ----

  /** No token resolves to the session, now or in any continuation. */
  ghost predicate Over(cfg: Config, s: Store, sid: Id) {
    forall evs, token :: !Resolves(After(cfg, s, evs).db, token, sid)
  }

  lemma GoneForGood(cfg: Config, s: Store, sid: Id)
    requires Dead(s.db, sid)
    ensures Over(cfg, s, sid)
  {
    forall evs
      ensures forall token :: !Resolves(After(cfg, s, evs).db, token, sid)
    {
      DeadStaysDead(cfg, s, evs, sid);
    }
  }

  lemma PlayedDead(cfg: Config, w: World, acts: seq<Act>, sid: Id)
    requires WorldOk(cfg, w) && CanPlay(cfg, w, acts) && Dead(w.store.db, sid)
    ensures Over(cfg, Play(cfg, w, acts).store, sid)
  {
    hide Over, Dead, WorldOk, CanPlay, Play;
    PlayProjects(cfg, w, acts);
    DeadStaysDead(cfg, w.store, Trace(cfg, w, acts), sid);
    GoneForGood(cfg, Play(cfg, w, acts).store, sid);
  }

  lemma SessionsStay(cfg: Config, w: World, acts: seq<Act>, sid: Id)
    requires WorldOk(cfg, w) && CanPlay(cfg, w, acts) && sid in w.store.db.sessions
    ensures sid in Play(cfg, w, acts).store.db.sessions
  {
    hide ProcsOk, BurnsOk, Provenance;
    PlayProjects(cfg, w, acts);
    RunKeepsInv(cfg, w.store, Trace(cfg, w, acts));
  }

  lemma RevokesNow(cfg: Config, s: Store, sid: Id, ch: Choice)
    requires sid in s.db.sessions
    ensures var st := Revoke(sid); var (t, r) := Perform(cfg, s, Single(st), ch);
            && Resume(cfg, Single(st), r, ch) == Done(if ch.fault then Err(Internal) else Ok(Nil))
            && (!ch.fault ==> Dead(t.db, sid))
  {
    hide Exec;
    RowMoves(cfg, s.db, Revoke(sid), sid);
    if !ch.fault {
      RevokedIsOver(cfg, s, sid);
    }
  }

  lemma RevokedIsOver(cfg: Config, s: Store, sid: Id)
    requires sid in s.db.sessions
    ensures Dead(Next(cfg, s, Run(Revoke(sid))).db, sid)
  {
  }

  lemma CallersSession(cfg: Config, w: World, tid: nat, p: Principal, acts: seq<Act>)
    requires Plays(cfg, w, tid, Logout(Some(p)), acts)
    ensures p.session in w.store.db.sessions
  {
    Started(cfg, w, tid, Logout(Some(p)), acts);
    CallersSessionIsThere(cfg, w, p);
  }

  lemma CallersSessionIsThere(cfg: Config, w: World, p: Principal)
    requires WorldOk(cfg, w) && p in w.store.principals
    ensures p.session in w.store.db.sessions
  {
  }

  /** Logout of an identified caller errs exactly when its statement meets a driver fault. When it
      answers nil, whatever else ran, no token resolves to that session then or in any continuation. */
  lemma LogoutIsFinal(cfg: Config, w: World, tid: nat, p: Principal, acts: seq<Act>) returns (j: nat)
    requires Plays(cfg, w, tid, Logout(Some(p)), acts)
    ensures OnlyMove(cfg, w, tid, Logout(Some(p)), acts, j)
    ensures var result := ResultOf(cfg, w, tid, Logout(Some(p)), acts);
            && result == (if acts[j].choice.fault then Err(Internal) else Ok(Nil))
            && var end := Play(cfg, Step(cfg, w, Start(tid, Logout(Some(p)))), acts).store;
               (result.Ok? ==> Over(cfg, end, p.session))
  {
    hide *;
    var call := Logout(Some(p));
    BeginsToRevoke(cfg, 0, 0, p);
    CallersSession(cfg, w, tid, p, acts);
    j := MakesItsMove(cfg, w, tid, call, acts);
    EndsSession(cfg, w, tid, call, acts, j, p.session);
  }

  lemma EndsSession(cfg: Config, w: World, tid: nat, call: Call, acts: seq<Act>, j: nat, sid: Id)
    requires Plays(cfg, w, tid, call, acts) && Begin(cfg, call) == Single(Revoke(sid)) && sid in w.store.db.sessions
    requires OnlyMove(cfg, w, tid, call, acts, j)
    ensures var result := ResultOf(cfg, w, tid, call, acts);
            var end := Play(cfg, Step(cfg, w, Start(tid, call)), acts).store;
            && result == (if acts[j].choice.fault then Err(Internal) else Ok(Nil))
            && (result.Ok? ==> Over(cfg, end, sid))
  {
    hide *;
    MoveFacts(cfg, w, tid, call, acts, j);
    StillThere(cfg, w, tid, call, acts, j, sid);
    var u := At(cfg, w, tid, call, acts, j);
    RevokesNow(cfg, u.store, sid, acts[j].choice);
    if !acts[j].choice.fault {
      PlayedDead(cfg, Step(cfg, u, acts[j]), acts[j + 1..], sid);
    }
  }

  lemma StillThere(cfg: Config, w: World, tid: nat, call: Call, acts: seq<Act>, j: nat, sid: Id)
    requires Plays(cfg, w, tid, call, acts) && j <= |acts| && sid in w.store.db.sessions
    ensures sid in At(cfg, w, tid, call, acts, j).store.db.sessions
  {
    Started(cfg, w, tid, call, acts);
    hide Step, WorldOk, CanPlay, Begin;
    var t := Step(cfg, w, Start(tid, call));
    CanPlayPrefix(cfg, t, acts, j);
    SessionsStay(cfg, t, acts[..j], sid);
  }

  /** Logout of an anonymous caller answers nil and runs no statement. */
  lemma LogoutWithoutCaller(cfg: Config, w: World, tid: nat, acts: seq<Act>)
    requires WorldOk(cfg, w) && tid !in w.procs
    ensures var t := Step(cfg, w, Start(tid, Logout(None))); var end := Play(cfg, t, acts);
            tid in end.procs && end.procs[tid] == Done(Ok(Nil)) && Ran(cfg, t, acts, tid) == []
  {
    var t := Step(cfg, w, Start(tid, Logout(None)));
    assert t.procs[tid] == Done(Ok(Nil));
    hide Step, Ran, Met;
    EndedIsOver(cfg, t, acts, tid);
  }

  /** So with Sessions.Revoke on a session that exists. */
  lemma RevokeCallIsFinal(cfg: Config, w: World, tid: nat, sid: Id, acts: seq<Act>) returns (j: nat)
    requires Plays(cfg, w, tid, SessionRevoke(sid), acts) && sid in w.store.db.sessions
    ensures OnlyMove(cfg, w, tid, SessionRevoke(sid), acts, j)
    ensures var result := ResultOf(cfg, w, tid, SessionRevoke(sid), acts);
            && result == (if acts[j].choice.fault then Err(Internal) else Ok(Nil))
            && var end := Play(cfg, Step(cfg, w, Start(tid, SessionRevoke(sid))), acts).store;
               (result.Ok? ==> Over(cfg, end, sid))
  {
    hide *;
    BeginsToRevoke(cfg, sid, 0, Principal(0, 0, "", false, 0, None, []));
    j := MakesItsMove(cfg, w, tid, SessionRevoke(sid), acts);
    EndsSession(cfg, w, tid, SessionRevoke(sid), acts, j, sid);
  }

  /** Sessions.RevokeAllForUser: no session the user had at its statement resolves in any continuation. */
  lemma RevokeAllCallIsFinal(cfg: Config, w: World, tid: nat, user: Id, acts: seq<Act>) returns (j: nat)
    requires Plays(cfg, w, tid, SessionRevokeAll(user), acts)
    ensures OnlyMove(cfg, w, tid, SessionRevokeAll(user), acts, j)
    ensures var call := SessionRevokeAll(user); var result := ResultOf(cfg, w, tid, call, acts);
            var met := At(cfg, w, tid, call, acts, j).store.db;
            var end := Play(cfg, Step(cfg, w, Start(tid, call)), acts).store;
            && result == (if acts[j].choice.fault then Err(Internal) else Ok(Nil))
            && (result.Ok? ==> forall sid :: Owns(met, sid, user) ==> Over(cfg, end, sid))
  {
    hide *;
    var call := SessionRevokeAll(user);
    BeginsToRevoke(cfg, 0, user, Principal(0, 0, "", false, 0, None, []));
    j := MakesItsMove(cfg, w, tid, call, acts);
    MoveFacts(cfg, w, tid, call, acts, j);
    var u := At(cfg, w, tid, call, acts, j);
    RevokesAllNow(cfg, u.store, user, acts[j].choice);
    var t := Step(cfg, u, acts[j]);
    if !acts[j].choice.fault {
      forall sid | Owns(u.store.db, sid, user)
        ensures Over(cfg, Play(cfg, t, acts[j + 1..]).store, sid)
      {
        PlayedDead(cfg, t, acts[j + 1..], sid);
      }
    }
  }

  lemma RevokesAllNow(cfg: Config, s: Store, user: Id, ch: Choice)
    ensures var st := RevokeAll(user); var (t, r) := Perform(cfg, s, Single(st), ch);
            && Resume(cfg, Single(st), r, ch) == Done(if ch.fault then Err(Internal) else Ok(Nil))
            && (!ch.fault ==> forall sid :: Owns(s.db, sid, user) ==> Dead(t.db, sid))
  {
    hide Exec, OpenSessions;
    if !ch.fault {
      forall sid | Owns(s.db, sid, user)
        ensures Dead(Next(cfg, s, Run(RevokeAll(user))).db, sid)
      {
        AllRevokedAreOver(cfg, s, user, sid);
      }
    }
  }

  lemma AllRevokedAreOver(cfg: Config, s: Store, user: Id, sid: Id)
    requires Owns(s.db, sid, user)
    ensures Dead(Next(cfg, s, Run(RevokeAll(user))).db, sid)
  {
  }

  // ---- step-up ----

  lemma StampsNow(cfg: Config, s: Store, sid: Id, user: Id, ch: Choice)
    ensures var st := RecordMFA(sid, user); var (t, r) := Perform(cfg, s, Single(st), ch);
            var live := Owns(s.db, sid, user) && Live(s.db.sessions[sid], s.db.now);
            && Resume(cfg, Single(st), r, ch)
               == Done(if ch.fault then Err(Internal) else if live then Ok(Nil) else Err(SessionGone))
            && (!ch.fault && live ==> Stamped(t.db, sid, s.db.now))
  {
    hide Next, Answer, Stamped, Live;
    StampEffect(cfg, s, sid, user);
  }

  lemma StampEffect(cfg: Config, s: Store, sid: Id, user: Id)
    ensures var st := RecordMFA(sid, user); var r := Answer(cfg, s.db, st);
            if Owns(s.db, sid, user) && Live(s.db.sessions[sid], s.db.now)
            then r.RowId? && Stamped(Next(cfg, s, Run(st)).db, sid, s.db.now) else r.NoRows?
  {
  }

  /** Sessions.RecordMFA answers nil exactly when its session is live and the user's own, and has then
      stamped it. */
  lemma RecordMFAStamps(cfg: Config, w: World, tid: nat, sid: Id, user: Id, acts: seq<Act>) returns (j: nat)
    requires Plays(cfg, w, tid, SessionRecordMFA(sid, user), acts)
    ensures OnlyMove(cfg, w, tid, SessionRecordMFA(sid, user), acts, j)
    ensures var call := SessionRecordMFA(sid, user); var result := ResultOf(cfg, w, tid, call, acts);
            var u := At(cfg, w, tid, call, acts, j); var met := u.store.db;
            var live := Owns(met, sid, user) && Live(met.sessions[sid], met.now);
            && result == (if acts[j].choice.fault then Err(Internal) else if live then Ok(Nil) else Err(SessionGone))
            && (result.Ok? ==> Stamped(Step(cfg, u, acts[j]).store.db, sid, met.now))
  {
    hide *;
    var call := SessionRecordMFA(sid, user);
    BeginsToStamp(cfg, sid, user);
    j := MakesItsMove(cfg, w, tid, call, acts);
    MoveFacts(cfg, w, tid, call, acts, j);
    StampsNow(cfg, At(cfg, w, tid, call, acts, j).store, sid, user, acts[j].choice);
  }

  lemma StepUpOnly(opts: Directive.Options, p: Principal, clock: int, at: int)
    requires p.mfaAt == Some(at)
    ensures Directive.Decide(opts, Some(p), clock, Directive.Args("AUTHENTICATED", [], Some(true), None)).None?
            <==> clock <= at + if opts.window == 0 then 15 * 60 * 1_000_000 else opts.window
  {
  }

  /** Then, until the next step-up on that session, every principal a lookup of it hands out carries that
      instant, and a field that asks for step-up and nothing else lets it through exactly while the process
      clock is no more than the window past it. */
  lemma StepUpIsHonoured(cfg: Config, w: World, tid: nat, sid: Id, user: Id, acts: seq<Act>, evs: seq<Event>,
                         token: string, opts: Directive.Options, clock: int) returns (j: nat)
    requires Plays(cfg, w, tid, SessionRecordMFA(sid, user), acts)
    requires ResultOf(cfg, w, tid, SessionRecordMFA(sid, user), acts).Ok?
    requires forall i :: 0 <= i < |evs| ==> !StepsUp(evs[i], sid)
    ensures OnlyMove(cfg, w, tid, SessionRecordMFA(sid, user), acts, j)
    ensures var u := At(cfg, w, tid, SessionRecordMFA(sid, user), acts, j); var at := u.store.db.now;
            var r := Answer(cfg, After(cfg, Step(cfg, u, acts[j]).store, evs).db, Lookup(token));
            var field := Directive.Args("AUTHENTICATED", [], Some(true), None);
            var window := if opts.window == 0 then 15 * 60 * 1_000_000 else opts.window;
            r.RowPrincipal? && r.principal.session == sid ==>
              && r.principal.mfaAt == Some(at)
              && (Directive.Decide(opts, Some(r.principal), clock, field).None? <==> clock <= at + window)
  {
    hide *;
    j := RecordMFAStamps(cfg, w, tid, sid, user, acts);
    MoveFacts(cfg, w, tid, SessionRecordMFA(sid, user), acts, j);
    var u := At(cfg, w, tid, SessionRecordMFA(sid, user), acts, j);
    var t := Step(cfg, u, acts[j]).store;
    StampIsHandedOut(cfg, t, evs, sid, u.store.db.now, token);
    var r := Answer(cfg, After(cfg, t, evs).db, Lookup(token));
    if r.RowPrincipal? && r.principal.session == sid {
      StepUpOnly(opts, r.principal, clock, u.store.db.now);
    }
  }

  // ---- issuing, rotating, looking up ----

  /** The principal says what the rows say: the owner's id, address and verification, the session's id, age
      and stamp, and the owner's roles in order. */
  ghost predicate Describes(p: Principal, db: DB, sid: Id)
    requires sid in db.sessions && db.sessions[sid].user in db.users
  {
    var row := db.sessions[sid]; var u := db.users[row.user];
    && p.user == row.user && p.session == sid && p.email == u.email && p.verified == u.verified
    && p.authAt == row.created && p.mfaAt == row.mfaAt
    && Sorting.InOrder(p.roles)
    && multiset(p.roles) == multiset(if row.user in db.roles then db.roles[row.user] else [])
  }

  lemma PrincipalDescribes(db: DB, sid: Id)
    requires sid in db.sessions && db.sessions[sid].user in db.users
    ensures Describes(PrincipalOf(db, sid), db, sid)
  {
    Sorting.SortedIsInOrder(RolesOf(db, db.sessions[sid].user));
  }

  lemma ResolvesIsJoined(db: DB, token: string, sid: Id)
    requires Resolves(db, token, sid)
    ensures sid in db.sessions && db.sessions[sid].user in db.users
  {
  }

  lemma LooksUpNow(cfg: Config, s: Store, token: string, ch: Choice)
    requires SessionsOk(cfg, s)
    ensures var st := Lookup(token); var r := Perform(cfg, s, Single(st), ch).1;
            var q := Resume(cfg, Single(st), r, ch);
            && q.Done?
            && (if ch.fault then q.result == Err(Internal)
                else if forall sid :: !Resolves(s.db, token, sid) then q.result == Ok(Anonymous)
                else q.result.Ok? && q.result.value.Caller?)
            && (!ch.fault ==> forall sid :: Resolves(s.db, token, sid) ==>
                  q.result == Ok(Caller(PrincipalOf(s.db, sid))))
  {
    hide PrincipalOf, SessionRowOk, Next;
  }

  /** Sessions.Lookup answers the principal of the session its token resolves to, and Anonymous, without an
      error, when there is none. */
  lemma LookupAnswersTheRow(cfg: Config, w: World, tid: nat, token: string, acts: seq<Act>) returns (j: nat)
    requires Plays(cfg, w, tid, SessionLookup(token), acts)
    ensures OnlyMove(cfg, w, tid, SessionLookup(token), acts, j)
    ensures var call := SessionLookup(token); var result := ResultOf(cfg, w, tid, call, acts);
            var met := At(cfg, w, tid, call, acts, j).store.db;
            if acts[j].choice.fault then result == Err(Internal)
            else
              && ((forall sid :: !Resolves(met, token, sid)) ==> result == Ok(Anonymous))
              && forall sid :: Resolves(met, token, sid) ==>
                   result.Ok? && result.value.Caller? && Describes(result.value.principal, met, sid)
  {
    hide *;
    var call := SessionLookup(token);
    BeginsToLookUp(cfg, token);
    j := MakesItsMove(cfg, w, tid, call, acts);
    MoveFacts(cfg, w, tid, call, acts, j);
    var met := At(cfg, w, tid, call, acts, j).store;
    LooksUpNow(cfg, met, token, acts[j].choice);
    forall sid | Resolves(met.db, token, sid)
      ensures sid in met.db.sessions && met.db.sessions[sid].user in met.db.users
      ensures Describes(PrincipalOf(met.db, sid), met.db, sid)
    {
      ResolvesIsJoined(met.db, token, sid);
      PrincipalDescribes(met.db, sid);
    }
  }

  /** The one change is a new session: this user's, unstamped, with the whole of both its windows ahead. */
  predicate HasNewSession(cfg: Config, db: DB, after: DB, sid: Id, token: string, user: Id) {
    after == db.(sessions := db.sessions[sid := Session(Sha256(token), user, db.now, db.now, db.now + cfg.idle,
                                                        db.now + cfg.absolute, None, None)])
  }

  lemma IssuesNow(cfg: Config, s: Store, user: Id, ch: Choice)
    requires SessionsOk(cfg, s) && ch.token !in s.minted && ch.id !in s.db.sessions
    ensures var (t, r) := Perform(cfg, s, DrawIssue(user), ch);
            && Resume(cfg, DrawIssue(user), r, ch)
               == Done(if ch.fault || user !in s.db.users then Err(Internal) else Ok(Secret(ch.token)))
            && (!ch.fault && user in s.db.users ==> HasNewSession(cfg, s.db, t.db, ch.id, ch.token, user))
  {
    assert user in s.db.users ==> CanIssue(s.db, ch.id, ch.token, user);
  }

  /** Sessions.Issue answers a fresh token exactly for a user that exists, and makes the session it stands
      for. */
  lemma IssueMakesASession(cfg: Config, w: World, tid: nat, user: Id, acts: seq<Act>) returns (j: nat)
    requires Plays(cfg, w, tid, SessionIssue(user), acts)
    ensures OnlyMove(cfg, w, tid, SessionIssue(user), acts, j)
    ensures var call := SessionIssue(user); var result := ResultOf(cfg, w, tid, call, acts); var ch := acts[j].choice;
            var u := At(cfg, w, tid, call, acts, j); var met := u.store.db; var t := Step(cfg, u, acts[j]).store.db;
            ch.id !in met.sessions && !ch.fault ==>
              && result == (if user in met.users then Ok(Secret(ch.token)) else Err(Internal))
              && (user in met.users ==> HasNewSession(cfg, met, t, ch.id, ch.token, user))
  {
    hide *;
    var call := SessionIssue(user);
    BeginsToDraw(cfg, 0, user);
    j := MakesItsMove(cfg, w, tid, call, acts);
    MoveFacts(cfg, w, tid, call, acts, j);
    var u := At(cfg, w, tid, call, acts, j);
    if acts[j].choice.id !in u.store.db.sessions && !acts[j].choice.fault {
      IssuesNow(cfg, u.store, user, acts[j].choice);
    }
  }

  /** The one change is to this session: another token stands for it, and its idle window starts again. */
  predicate HasNewToken(cfg: Config, db: DB, after: DB, sid: Id, token: string)
    requires sid in db.sessions
  {
    after == db.(sessions := db.sessions[sid := db.sessions[sid].(digest := Sha256(token), lastSeen := db.now,
                                                                  idleExpires := db.now + cfg.idle)])
  }

  lemma RotatesNow(cfg: Config, s: Store, sid: Id, ch: Choice)
    requires SessionsOk(cfg, s) && ch.token !in s.minted
    ensures var (t, r) := Perform(cfg, s, DrawRotate(sid), ch); var live := LiveAt(s.db, sid);
            && Resume(cfg, DrawRotate(sid), r, ch)
               == Done(if ch.fault then Err(Internal) else if live then Ok(Secret(ch.token)) else Err(SessionGone))
            && (!ch.fault && live ==> HasNewToken(cfg, s.db, t.db, sid, ch.token))
  {
    assert LiveAt(s.db, sid) ==> CanRotate(s.db, ch.token, sid);
  }

  /** Sessions.Rotate answers a fresh token exactly for a live session, which that token then stands for. */
  lemma RotateMovesTheToken(cfg: Config, w: World, tid: nat, sid: Id, acts: seq<Act>) returns (j: nat)
    requires Plays(cfg, w, tid, SessionRotate(sid), acts)
    ensures OnlyMove(cfg, w, tid, SessionRotate(sid), acts, j)
    ensures var call := SessionRotate(sid); var result := ResultOf(cfg, w, tid, call, acts); var ch := acts[j].choice;
            var u := At(cfg, w, tid, call, acts, j); var met := u.store.db; var t := Step(cfg, u, acts[j]).store.db;
            !ch.fault ==>
              && result == (if LiveAt(met, sid) then Ok(Secret(ch.token)) else Err(SessionGone))
              && (LiveAt(met, sid) ==> HasNewToken(cfg, met, t, sid, ch.token))
  {
    hide *;
    var call := SessionRotate(sid);
    BeginsToDraw(cfg, sid, 0);
    j := MakesItsMove(cfg, w, tid, call, acts);
    MoveFacts(cfg, w, tid, call, acts, j);
    if !acts[j].choice.fault {
      RotatesNow(cfg, At(cfg, w, tid, call, acts, j).store, sid, acts[j].choice);
    }
  }
}
