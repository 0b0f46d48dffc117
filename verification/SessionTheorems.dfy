/** Sessions over whole runs: deadlines, no resurrection, the error bound of the lazy idle refresh,
    the agreement between wire tokens and rows, and step-up. A run is any sequence of statements
    any number of callers issue, with the clock moving in between. */
module SessionTheorems {
  import opened Prelude
  import opened Tables
  import opened Sql
  import opened Invariants
  import Sorting

  ghost predicate Dead(db: DB, sid: Id) {
    sid in db.sessions && !Live(db.sessions[sid], db.now)
  }

  lemma NextKeepsDead(cfg: Config, s: Store, ev: Event, sid: Id)
    requires Dead(s.db, sid)
    ensures Dead(Next(cfg, s, ev).db, sid)
  {
    if ev.Run? {
      RowMoves(cfg, s.db, ev.stmt, sid);
    }
  }

  /** Revoked, idle-expired or past its deadline: no later interleaving brings a session back. */
  lemma {:induction false} DeadStaysDead(cfg: Config, s: Store, evs: seq<Event>, sid: Id)
    requires Dead(s.db, sid)
    ensures Dead(After(cfg, s, evs).db, sid)
    ensures forall token :: !Resolves(After(cfg, s, evs).db, token, sid)
    decreases |evs|
  {
    if evs != [] {
      NextKeepsDead(cfg, s, evs[0], sid);
      DeadStaysDead(cfg, Next(cfg, s, evs[0]), evs[1..], sid);
    }
  }

  /** After revoke-all, no session the user had at that moment ever resolves again. */
  lemma RevokeAllIsFinal(cfg: Config, s: Store, user: Id, evs: seq<Event>, sid: Id)
    requires sid in s.db.sessions && s.db.sessions[sid].user == user
    ensures forall token :: !Resolves(After(cfg, Next(cfg, s, Run(RevokeAll(user))), evs).db, token, sid)
  {
    DeadStaysDead(cfg, Next(cfg, s, Run(RevokeAll(user))), evs, sid);
  }

  lemma RevokeIsFinal(cfg: Config, s: Store, evs: seq<Event>, sid: Id)
    requires sid in s.db.sessions
    ensures forall token :: !Resolves(After(cfg, Next(cfg, s, Run(Revoke(sid))), evs).db, token, sid)
  {
    DeadStaysDead(cfg, Next(cfg, s, Run(Revoke(sid))), evs, sid);
  }

  /** The account is deleted, and its application never undeletes. */
  predicate IsDeleted(db: DB, user: Id) {
    user in db.users && db.users[user].deleted
  }

  lemma NextKeepsDeleted(cfg: Config, s: Store, ev: Event, user: Id)
    requires IsDeleted(s.db, user)
    ensures IsDeleted(Next(cfg, s, ev).db, user)
  {
    hide SessionsAfter, TokensAfter, AttemptsAfter, VaultsAfter, Answer, UsersAfter;
    if ev.Run? {
      AccountMoves(s.db, ev.stmt, user);
    }
  }

  /** No token resolves to a session of the account, and no statement that signs anybody in, resets anything
      or reads mail addresses answers with it. */
  ghost predicate ShutOut(cfg: Config, db: DB, user: Id) {
    && (forall token, sid :: sid in db.sessions && db.sessions[sid].user == user ==> !Resolves(db, token, sid))
    && (forall token ::
          var r := Answer(cfg, db, Lookup(token)); r.RowPrincipal? ==> r.principal.user != user)
    && (forall email ::
          var r := Answer(cfg, db, LoginSelect(email)); r.RowAccount? ==> r.account != user)
    && (forall email ::
          var r := Answer(cfg, db, UserIdByEmail(email)); r.RowId? ==> r.id != user)
    && Answer(cfg, db, HashById(user)).NoRows? && Answer(cfg, db, EmailById(user)).NoRows?
  }

  lemma DeletedIsShutOut(cfg: Config, db: DB, user: Id)
    requires IsDeleted(db, user)
    ensures ShutOut(cfg, db, user)
  {
  }

  /** From its deletion on an account is shut out, whatever runs, with every session it had. */
  lemma {:induction false} DeletionIsFinal(cfg: Config, s: Store, evs: seq<Event>, user: Id)
    requires IsDeleted(s.db, user)
    ensures IsDeleted(After(cfg, s, evs).db, user) && ShutOut(cfg, After(cfg, s, evs).db, user)
    decreases |evs|
  {
    hide ShutOut, IsDeleted, Next;
    if evs == [] {
      DeletedIsShutOut(cfg, s.db, user);
    } else {
      NextKeepsDeleted(cfg, s, evs[0], user);
      DeletionIsFinal(cfg, Next(cfg, s, evs[0]), evs[1..], user);
    }
  }

  /** Under an idle timeout of zero or less no session ever resolves, from the moment it is issued. */
  lemma DeadOnArrival(cfg: Config, s: Store, sid: Id, token: string, user: Id, evs: seq<Event>)
    requires cfg.idle <= 0 && CanIssue(s.db, sid, token, user)
    ensures forall wire :: !Resolves(After(cfg, Next(cfg, s, Run(Issue(sid, token, user))), evs).db, wire, sid)
  {
    DeadStaysDead(cfg, Next(cfg, s, Run(Issue(sid, token, user))), evs, sid);
  }

  /** Owner and age are those of the row as issued, and no refresh or rotation outlives the
      absolute deadline anchored there. */
  lemma ResolvesWithinAbsolute(cfg: Config, s: Store, evs: seq<Event>, sid: Id, token: string)
    requires Inv(cfg, s) && ValidRun(cfg, s, evs) && sid in s.db.sessions
    ensures var t := After(cfg, s, evs).db; var row := s.db.sessions[sid];
            Resolves(t, token, sid) ==>
              && t.now < row.created + cfg.absolute
              && PrincipalOf(t, sid).user == row.user && PrincipalOf(t, sid).authAt == row.created
  {
    RunKeepsInv(cfg, s, evs);
  }

  // ---- the lazy idle window ----

  /** The statements by which a client shows itself on session `sid`. */
  ghost predicate Hits(s: Store, ev: Event, sid: Id) {
    ev.Run? &&
    match ev.stmt
    case Lookup(token) => Finds(s.db, token, sid)
    case Rotate(token, id) => id == sid && CanRotate(s.db, token, sid)
    case _ => false
  }

  /** When an ideal session table, refreshed on every request, would last have seen the client. */
  ghost function LastHit(cfg: Config, s: Store, evs: seq<Event>, sid: Id, since: int): int
    decreases |evs|
  {
    if evs == [] then since
    else LastHit(cfg, Next(cfg, s, evs[0]), evs[1..], sid, if Hits(s, evs[0], sid) then s.db.now else since)
  }

  /** The simulation relation between the lazy row and the ideal one. */
  ghost predicate Tracks(cfg: Config, db: DB, sid: Id, lastHit: int) {
    sid in db.sessions &&
    var row := db.sessions[sid];
    && row.idleExpires == row.lastSeen + cfg.idle
    && row.lastSeen <= lastHit <= row.lastSeen + TOUCH_EVERY
    && lastHit <= db.now
  }

  lemma NextTracks(cfg: Config, s: Store, ev: Event, sid: Id, lastHit: int)
    requires Tracks(cfg, s.db, sid, lastHit)
    ensures Tracks(cfg, Next(cfg, s, ev).db, sid, if Hits(s, ev, sid) then s.db.now else lastHit)
  {
    if ev.Run? {
      RowMoves(cfg, s.db, ev.stmt, sid);
    }
  }

  lemma {:induction false} RunTracks(cfg: Config, s: Store, evs: seq<Event>, sid: Id, since: int)
    requires Tracks(cfg, s.db, sid, since)
    ensures Tracks(cfg, After(cfg, s, evs).db, sid, LastHit(cfg, s, evs, sid, since))
    decreases |evs|
  {
    if evs != [] {
      NextTracks(cfg, s, evs[0], sid, since);
      RunTracks(cfg, Next(cfg, s, evs[0]), evs[1..], sid, if Hits(s, evs[0], sid) then s.db.now else since);
    }
  }

  /** The lazy table refines the ideal idle timeout with a one-sided error under 60 seconds: idle
      for less than idle - 60 s is always alive, idle for the whole timeout is always dead. */
  lemma LazyIdleRefinesIdeal(cfg: Config, s: Store, evs: seq<Event>, sid: Id, since: int)
    requires Tracks(cfg, s.db, sid, since)
    ensures var t := After(cfg, s, evs).db; var quiet := t.now - LastHit(cfg, s, evs, sid, since);
            && sid in t.sessions
            && (quiet < cfg.idle - 60_000_000 ==> t.sessions[sid].idleExpires > t.now)
            && (quiet >= cfg.idle ==> forall token :: !Resolves(t, token, sid))
  {
    RunTracks(cfg, s, evs, sid, since);
  }

  /** A freshly issued row starts in the relation, so the bound holds from the first request on. */
  lemma IssueTracks(cfg: Config, s: Store, sid: Id, token: string, user: Id)
    requires CanIssue(s.db, sid, token, user)
    ensures Tracks(cfg, Next(cfg, s, Run(Issue(sid, token, user))).db, sid, s.db.now)
  {
  }

  /** The bound cannot be improved: a client quiet for exactly idle - 60 s can already be dead. */
  lemma LazyBoundIsTight(cfg: Config, s: Store, sid: Id, token: string, user: Id)
    requires GoodConfig(cfg) && cfg.idle > 60_000_000 && CanIssue(s.db, sid, token, user)
    ensures var issued := Next(cfg, s, Run(Issue(sid, token, user)));
            var evs := [Tick(60_000_000), Run(Lookup(token)), Tick(cfg.idle - 60_000_000)];
            var t := After(cfg, issued, evs).db;
            && t.now - LastHit(cfg, issued, evs, sid, s.db.now) == cfg.idle - 60_000_000
            && sid in t.sessions && t.sessions[sid].idleExpires <= t.now
  {
    var evs := [Tick(60_000_000), Run(Lookup(token)), Tick(cfg.idle - 60_000_000)];
    var s1 := Next(cfg, s, Run(Issue(sid, token, user)));
    var s2 := Next(cfg, s1, evs[0]);
    var s3 := Next(cfg, s2, evs[1]);
    var s4 := Next(cfg, s3, evs[2]);
    assert Hits(s2, evs[1], sid);
    RowMoves(cfg, s2.db, evs[1].stmt, sid);
    assert evs[1..][0] == evs[1] && evs[1..][1..] == [evs[2]];
    assert After(cfg, s1, evs) == After(cfg, s2, evs[1..]) == After(cfg, s3, [evs[2]]) == After(cfg, s4, []) == s4;
    assert LastHit(cfg, s1, evs, sid, s.db.now) == LastHit(cfg, s2, evs[1..], sid, s.db.now)
        == LastHit(cfg, s3, [evs[2]], sid, s2.db.now) == LastHit(cfg, s4, [], sid, s2.db.now);
  }

  // ---- refresh writes ----

  /** `Lookup` refreshes the row: the touched branch of the statement. */
  ghost predicate Refreshes(s: Store, ev: Event, sid: Id) {
    ev.Run? && ev.stmt.Lookup? && Finds(s.db, ev.stmt.token, sid) &&
    s.db.sessions[sid].lastSeen < s.db.now - TOUCH_EVERY
  }

  lemma RefreshIsSeen(cfg: Config, s: Store, ev: Event, sid: Id)
    requires Refreshes(s, ev, sid)
    ensures var t := Next(cfg, s, ev).db; sid in t.sessions && t.sessions[sid].lastSeen == s.db.now
  {
  }

  /** Two refreshes of one session are more than 60 seconds apart, in any run. */
  lemma RefreshesAreApart(cfg: Config, s: Store, first: Event, evs: seq<Event>, second: Event, sid: Id)
    requires Inv(cfg, s) && ValidRun(cfg, s, [first] + evs)
    requires Refreshes(s, first, sid) && Refreshes(After(cfg, s, [first] + evs), second, sid)
    ensures After(cfg, s, [first] + evs).db.now > s.db.now + 60_000_000
  {
    hide Next, Inv, Enabled;
    assert ([first] + evs)[1..] == evs;
    RefreshIsSeen(cfg, s, first, sid);
    NextKeepsInv(cfg, s, first);
    RunKeepsInv(cfg, Next(cfg, s, first), evs);
  }

  // ---- the principal ----

  /** The roles on a principal are the user's own, in order, and do not depend on the order the
      database aggregated them in. */
  lemma RolesAreDeterministic(a: DB, b: DB, sid: Id)
    requires sid in a.sessions && a.sessions[sid].user in a.users
    requires b == a.(roles := b.roles)
             && multiset(RolesOf(a, a.sessions[sid].user)) == multiset(RolesOf(b, a.sessions[sid].user))
    ensures Sorting.InOrder(PrincipalOf(a, sid).roles)
    ensures multiset(PrincipalOf(a, sid).roles) == multiset(RolesOf(a, a.sessions[sid].user))
    ensures PrincipalOf(a, sid) == PrincipalOf(b, sid)
  {
    Sorting.SortedIsInOrder(RolesOf(a, a.sessions[sid].user));
    Sorting.SortedIsInOrder(RolesOf(b, a.sessions[sid].user));
    Sorting.OrderIsUnique(PrincipalOf(a, sid).roles, PrincipalOf(b, sid).roles);
  }

  // ---- wire tokens ----

  lemma AtMostOneSession(cfg: Config, s: Store, token: string, a: Id, b: Id)
    requires Inv(cfg, s) && Resolves(s.db, token, a) && Resolves(s.db, token, b)
    ensures a == b
  {
  }

  /** The token `Issue` or the latest successful `Rotate` put on the row. */
  ghost function Installed(cfg: Config, s: Store, evs: seq<Event>, sid: Id, token: string): string
    decreases |evs|
  {
    if evs == [] then token
    else Installed(cfg, Next(cfg, s, evs[0]), evs[1..], sid,
                   if evs[0].Run? && evs[0].stmt.Rotate? && Hits(s, evs[0], sid) then evs[0].stmt.token else token)
  }

  lemma {:induction false} RowHoldsInstalledToken(cfg: Config, s: Store, evs: seq<Event>, sid: Id, token: string)
    requires sid in s.db.sessions && s.db.sessions[sid].digest == Sha256(token)
    ensures var t := After(cfg, s, evs).db;
            sid in t.sessions && t.sessions[sid].digest == Sha256(Installed(cfg, s, evs, sid, token))
    decreases |evs|
  {
    if evs != [] {
      if evs[0].Run? {
        RowMoves(cfg, s.db, evs[0].stmt, sid);
      }
      RowHoldsInstalledToken(cfg, Next(cfg, s, evs[0]), evs[1..], sid,
                             if evs[0].Run? && evs[0].stmt.Rotate? && Hits(s, evs[0], sid)
                             then evs[0].stmt.token else token);
    }
  }

  /** A token that resolves to a session is the one last installed on it, and no other session has it. */
  lemma TokenSessionAgreement(cfg: Config, s: Store, evs: seq<Event>, sid: Id, issued: string, presented: string,
                              other: Id)
    requires Inv(cfg, s) && ValidRun(cfg, s, evs)
    requires sid in s.db.sessions && s.db.sessions[sid].digest == Sha256(issued)
    ensures var t := After(cfg, s, evs).db;
            && (Resolves(t, presented, sid) ==> presented == Installed(cfg, s, evs, sid, issued))
            && (Resolves(t, presented, sid) && Resolves(t, presented, other) ==> other == sid)
  {
    RowHoldsInstalledToken(cfg, s, evs, sid, issued);
    RunKeepsInv(cfg, s, evs);
  }

  ghost predicate Retired(s: Store, token: string) {
    token in s.minted && !DigestTaken(s.db.sessions, Sha256(token), None)
  }

  lemma NextKeepsRetired(cfg: Config, s: Store, ev: Event, token: string)
    requires Enabled(s, ev) && Retired(s, token)
    ensures Retired(Next(cfg, s, ev), token)
  {
    if ev.Run? {
      var after := SessionsAfter(cfg, s.db, ev.stmt);
      forall sid | sid in after
        ensures after[sid].digest != Sha256(token)
      {
        if sid in s.db.sessions { RowMoves(cfg, s.db, ev.stmt, sid); } else { RowIssued(cfg, s.db, ev.stmt, sid); }
      }
    }
  }

  lemma {:induction false} RetiredStaysRetired(cfg: Config, s: Store, evs: seq<Event>, token: string)
    requires ValidRun(cfg, s, evs) && Retired(s, token)
    ensures Retired(After(cfg, s, evs), token)
    ensures forall sid :: !Resolves(After(cfg, s, evs).db, token, sid)
    decreases |evs|
  {
    if evs != [] {
      NextKeepsRetired(cfg, s, evs[0], token);
      RetiredStaysRetired(cfg, Next(cfg, s, evs[0]), evs[1..], token);
    }
  }

  /** A rotated-out token never resolves again, to this session or any other, while the session
      itself keeps owner, age and deadline and answers to the new token. */
  lemma RotationRetiresTheOldToken(cfg: Config, s: Store, sid: Id, stale: string, next: string, evs: seq<Event>)
    requires Inv(cfg, s) && CanRotate(s.db, next, sid) && s.db.sessions[sid].digest == Sha256(stale)
    requires ValidRun(cfg, s, [Run(Rotate(next, sid))] + evs)
    ensures var r := Next(cfg, s, Run(Rotate(next, sid))); var t := After(cfg, r, evs);
            && (forall other :: !Resolves(t.db, stale, other))
            && (GoodConfig(cfg) ==> Finds(r.db, next, sid))
            && (GoodConfig(cfg) && !s.db.users[s.db.sessions[sid].user].deleted ==> Resolves(r.db, next, sid))
            && sid in t.db.sessions && SameIdentity(s.db.sessions[sid], t.db.sessions[sid])
  {
    var ev := Run(Rotate(next, sid));
    var r := Next(cfg, s, ev);
    assert ([ev] + evs)[1..] == evs;
    forall other | other in r.db.sessions
      ensures r.db.sessions[other].digest != Sha256(stale)
    {
      RowMoves(cfg, s.db, ev.stmt, other);
    }
    RetiredStaysRetired(cfg, r, evs, stale);
    NextGrows(cfg, s, ev);
    NextKeepsInv(cfg, s, ev);
    RunKeepsInv(cfg, r, evs);
  }

  // ---- step-up ----

  /** Position `i` of the run is a RecordMFA on a then-live session and its own user, at time `at`. */
  ghost predicate StampedAt(cfg: Config, s: Store, evs: seq<Event>, i: int, sid: Id, user: Id, at: int) {
    && 0 <= i < |evs| && evs[i] == Run(RecordMFA(sid, user))
    && After(cfg, s, evs[..i]).db.now == at
    && CanRecordMFA(After(cfg, s, evs[..i]).db, sid, user)
  }

  lemma AfterSnoc(cfg: Config, s: Store, evs: seq<Event>)
    requires evs != []
    ensures After(cfg, s, evs) == Next(cfg, After(cfg, s, evs[..|evs| - 1]), evs[|evs| - 1])
  {
    var n := |evs| - 1;
    assert evs[..n] + [evs[n]] == evs;
    AfterConcat(cfg, s, evs[..n], [evs[n]]);
  }

  /** A stamp is there before the event, or the event is the RecordMFA that puts it there. */
  lemma StampMoves(cfg: Config, s: Store, ev: Event, sid: Id)
    requires sid in Next(cfg, s, ev).db.sessions && Next(cfg, s, ev).db.sessions[sid].mfaAt.Some?
    ensures sid in s.db.sessions
    ensures var row := Next(cfg, s, ev).db.sessions[sid];
            || (row.user == s.db.sessions[sid].user && row.mfaAt == s.db.sessions[sid].mfaAt)
            || (ev == Run(RecordMFA(sid, row.user)) && CanRecordMFA(s.db, sid, row.user) && row.mfaAt == Some(s.db.now))
  {
    hide Answer, SessionsAfter, UsersAfter, TokensAfter, AttemptsAfter, VaultsAfter;
    if ev.Run? {
      if sid in s.db.sessions {
        RowMoves(cfg, s.db, ev.stmt, sid);
      } else {
        RowIssued(cfg, s.db, ev.stmt, sid);
      }
    }
  }

  /** A stamp on a row was put there by a RecordMFA of this run, on this session and user, while live. */
  lemma {:induction false} StampHasACause(cfg: Config, s: Store, evs: seq<Event>, sid: Id) returns (i: int)
    requires forall x :: x in s.db.sessions ==> s.db.sessions[x].mfaAt.None?
    requires sid in After(cfg, s, evs).db.sessions && After(cfg, s, evs).db.sessions[sid].mfaAt.Some?
    ensures var row := After(cfg, s, evs).db.sessions[sid];
            StampedAt(cfg, s, evs, i, sid, row.user, row.mfaAt.value)
    decreases |evs|
  {
    hide Next, CanRecordMFA;
    if evs == [] {
      i := 0;
      assert false;
    } else {
      var n := |evs| - 1;
      AfterSnoc(cfg, s, evs);
      var b := After(cfg, s, evs[..n]);
      StampMoves(cfg, b, evs[n], sid);
      if b.db.sessions[sid].mfaAt == After(cfg, s, evs).db.sessions[sid].mfaAt
         && b.db.sessions[sid].user == After(cfg, s, evs).db.sessions[sid].user {
        i := StampHasACause(cfg, s, evs[..n], sid);
        assert evs[..n][..i] == evs[..i];
      } else {
        i := n;
      }
    }
  }

  /** Every principal a lookup hands out carries a stamp with such a cause. */
  lemma {:induction false} PrincipalStampHasACause(cfg: Config, s: Store, evs: seq<Event>, p: Principal)
    returns (i: int)
    requires s.principals == {} && forall x :: x in s.db.sessions ==> s.db.sessions[x].mfaAt.None?
    requires p in After(cfg, s, evs).principals && p.mfaAt.Some?
    ensures StampedAt(cfg, s, evs, i, p.session, p.user, p.mfaAt.value)
    decreases |evs|
  {
    if evs == [] {
      i := 0;
      assert false;
    } else {
      var n := |evs| - 1;
      AfterSnoc(cfg, s, evs);
      var b := After(cfg, s, evs[..n]);
      if p in b.principals {
        i := PrincipalStampHasACause(cfg, s, evs[..n], p);
      } else {
        NewPrincipal(cfg, b.db, evs[n].stmt);
        i := StampHasACause(cfg, s, evs[..n], p.session);
      }
      assert evs[..n][..i] == evs[..i];
    }
  }

  /** A step-up on this session. */
  predicate StepsUp(ev: Event, sid: Id) {
    ev.Run? && ev.stmt.RecordMFA? && ev.stmt.sid == sid
  }

  ghost predicate Stamped(db: DB, sid: Id, at: int) {
    sid in db.sessions && db.sessions[sid].mfaAt == Some(at)
  }

  lemma NextKeepsStamp(cfg: Config, s: Store, ev: Event, sid: Id, at: int)
    requires Stamped(s.db, sid, at) && !StepsUp(ev, sid)
    ensures Stamped(Next(cfg, s, ev).db, sid, at)
  {
    if ev.Run? {
      RowMoves(cfg, s.db, ev.stmt, sid);
    }
  }

  /** A stamp stays on the row until the next step-up on that session, whatever else happens. */
  lemma {:induction false} StampStays(cfg: Config, s: Store, evs: seq<Event>, sid: Id, at: int)
    requires Stamped(s.db, sid, at) && forall i :: 0 <= i < |evs| ==> !StepsUp(evs[i], sid)
    ensures Stamped(After(cfg, s, evs).db, sid, at)
    decreases |evs|
  {
    hide Next, Stamped, StepsUp;
    if evs != [] {
      NextKeepsStamp(cfg, s, evs[0], sid, at);
      StampStays(cfg, Next(cfg, s, evs[0]), evs[1..], sid, at);
    }
  }

  /** So every principal a lookup of the session hands out meanwhile carries it. */
  lemma StampIsHandedOut(cfg: Config, s: Store, evs: seq<Event>, sid: Id, at: int, token: string)
    requires Stamped(s.db, sid, at) && forall i :: 0 <= i < |evs| ==> !StepsUp(evs[i], sid)
    ensures var r := Answer(cfg, After(cfg, s, evs).db, Lookup(token));
            r.RowPrincipal? && r.principal.session == sid ==> r.principal.mfaAt == Some(at)
  {
    StampStays(cfg, s, evs, sid, at);
    if Answer(cfg, After(cfg, s, evs).db, Lookup(token)).RowPrincipal? {
      NewPrincipal(cfg, After(cfg, s, evs).db, Lookup(token));
    }
  }

  // ---- sessions nobody touches ----

  /** The time a run lets pass. */
  function Ticks(evs: seq<Event>): (t: nat)
    decreases |evs|
  {
    if evs == [] then 0 else (if evs[0].Tick? then evs[0].elapsed else 0) + Ticks(evs[1..])
  }

  /** Nothing that ends this session, moves its token or deletes its user. */
  predicate LeavesAlone(ev: Event, sid: Id, user: Id) {
    match ev
    case SoftDelete(u) => u != user
    case Run(st) => st != Revoke(sid) && st != RevokeAll(user) && !(st.Rotate? && st.sid == sid)
    case _ => true
  }

  /** The session resolves, and has this long left of both its windows. */
  ghost predicate ResolvesFor(db: DB, token: string, sid: Id, user: Id, left: int) {
    && Resolves(db, token, sid) && db.sessions[sid].user == user
    && db.now + left < db.sessions[sid].idleExpires && db.now + left < db.sessions[sid].expires
  }

  lemma NextResolves(cfg: Config, s: Store, ev: Event, token: string, sid: Id, user: Id, left: int)
    requires Inv(cfg, s) && LeavesAlone(ev, sid, user) && left >= Ticks([ev])
    requires ResolvesFor(s.db, token, sid, user, left)
    ensures ResolvesFor(Next(cfg, s, ev).db, token, sid, user, left - Ticks([ev]))
  {
    assert [ev][1..] == [];
    if ev.Run? {
      RowMoves(cfg, s.db, ev.stmt, sid);
      AccountMoves(s.db, ev.stmt, user);
    }
  }

  /** A session that is left alone goes on resolving to the same token for as long as it has left,
      whatever else runs. */
  lemma {:induction false} LeftAloneItResolves(cfg: Config, s: Store, evs: seq<Event>, token: string, sid: Id, user: Id)
    requires Inv(cfg, s) && ValidRun(cfg, s, evs) && ResolvesFor(s.db, token, sid, user, Ticks(evs))
    requires forall i :: 0 <= i < |evs| ==> LeavesAlone(evs[i], sid, user)
    ensures ResolvesFor(After(cfg, s, evs).db, token, sid, user, 0)
    decreases |evs|
  {
    hide Next, Inv, Enabled, ResolvesFor, LeavesAlone;
    if evs != [] {
      assert [evs[0]][1..] == [] && Ticks([evs[0]]) + Ticks(evs[1..]) == Ticks(evs);
      NextResolves(cfg, s, evs[0], token, sid, user, Ticks(evs));
      NextKeepsInv(cfg, s, evs[0]);
      LeftAloneItResolves(cfg, Next(cfg, s, evs[0]), evs[1..], token, sid, user);
    }
  }
}
