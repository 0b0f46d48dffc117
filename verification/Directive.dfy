/** authz/directive.go: the @auth decision, and what letting an mfa field through says about the run. */
module Directive {
  import opened Prelude
  import opened Tables
  import opened Sql
  import Scoped
  import SessionTheorems
  import Text

  const LEVEL_ANONYMOUS := "ANONYMOUS"
  const LEVEL_AUTHENTICATED := "AUTHENTICATED"
  const DEFAULT_MFA_WINDOW: int := 15 * 60 * SECOND

  /** `proves: None` is the absent argument, `Some([])` an explicit empty list. */
  datatype Args = Args(level: string, roles: seq<string>, mfa: Option<bool>, proves: Option<seq<string>>)

  /** `proofs` answers None when every claim is satisfied. */
  datatype Options = Options(window: int, bypass: string, proofs: Option<seq<string> -> Option<Failure>>)

  function Window(opts: Options): int {
    if opts.window == 0 then DEFAULT_MFA_WINDOW else opts.window
  }

  predicate AnyRole(held: seq<string>, want: seq<string>, bypass: string) {
    (bypass != "" && Scoped.HasRole(held, bypass)) || exists i :: 0 <= i < |want| && Scoped.HasRole(held, want[i])
  }

  /** None when the resolver runs; `clock` is the process clock. */
  function Decide(opts: Options, caller: Option<Principal>, clock: int, a: Args): Option<Failure> {
    if a.level != LEVEL_ANONYMOUS && a.level != LEVEL_AUTHENTICATED then Some(Forbidden)
    else if a.proves == Some([]) then Some(InvalidProof)
    else if caller.None? then
      if a.level == LEVEL_ANONYMOUS && |a.roles| == 0 && a.mfa != Some(true) && a.proves.None? then None
      else Some(Unauthenticated)
    else
      var p := caller.value;
      if |a.roles| > 0 && !AnyRole(p.roles, a.roles, opts.bypass) then Some(Forbidden)
      else if a.mfa == Some(true) && (p.mfaAt.None? || clock - p.mfaAt.value > Window(opts)) then Some(MfaRequired)
      else if a.proves.Some? then
        if opts.proofs.None? then Some(InvalidProof) else opts.proofs.value(a.proves.value)
      else None
  }

  /** `b` demands at least what `a` demands. */
  predicate Stricter(b: Args, a: Args) {
    && (b.level == a.level || (a.level == LEVEL_ANONYMOUS && b.level == LEVEL_AUTHENTICATED))
    && (a.roles == [] || (b.roles != [] && forall i :: 0 <= i < |b.roles| ==> b.roles[i] in a.roles))
    && (a.mfa == Some(true) ==> b.mfa == Some(true))
    && (a.proves.None? || b.proves == a.proves)
  }

  /** Adding a demand to a field never lets a caller through who was denied before: whatever the
      order of the checks, they are read as all-of. */
  lemma DemandsOnlyNarrow(opts: Options, caller: Option<Principal>, clock: int, a: Args, b: Args)
    requires Stricter(b, a) && Decide(opts, caller, clock, b).None?
    ensures Decide(opts, caller, clock, a).None?
  {
    if caller.Some? && a.roles != [] {
      var held := caller.value.roles;
      if i :| 0 <= i < |b.roles| && Scoped.HasRole(held, b.roles[i]) {
        var k :| 0 <= k < |a.roles| && a.roles[k] == b.roles[i];
        assert Scoped.HasRole(held, a.roles[k]);
      }
    }
  }

  /** Holding this role is enough: it is one of those asked for, or the bypass role, whatever its case. */
  predicate Suffices(held: string, want: seq<string>, bypass: string) {
    (bypass != "" && Text.Lower(held) == Text.Lower(bypass))
    || exists i :: 0 <= i < |want| && Text.Lower(held) == Text.Lower(want[i])
  }

  lemma RolesSuffice(held: seq<string>, want: seq<string>, bypass: string)
    ensures AnyRole(held, want, bypass) <==> exists i :: 0 <= i < |held| && Suffices(held[i], want, bypass)
  {
    if AnyRole(held, want, bypass) {
      if bypass != "" && Scoped.HasRole(held, bypass) {
        var i :| 0 <= i < |held| && Text.Lower(held[i]) == Text.Lower(bypass);
        assert Suffices(held[i], want, bypass);
      } else {
        var k :| 0 <= k < |want| && Scoped.HasRole(held, want[k]);
        var i :| 0 <= i < |held| && Text.Lower(held[i]) == Text.Lower(want[k]);
        assert Suffices(held[i], want, bypass);
      }
    }
    if i :| 0 <= i < |held| && Suffices(held[i], want, bypass) {
      if k :| 0 <= k < |want| && Text.Lower(held[i]) == Text.Lower(want[k]) {
        assert Scoped.HasRole(held, want[k]);
      }
    }
  }

  /** The demands of a field, each on its own. */
  predicate Meets(opts: Options, p: Principal, clock: int, a: Args) {
    && (a.roles == [] || exists i :: 0 <= i < |p.roles| && Suffices(p.roles[i], a.roles, opts.bypass))
    && (a.mfa == Some(true) ==>
          p.mfaAt.Some? && clock <= p.mfaAt.value + if opts.window == 0 then 900_000_000 else opts.window)
    && (a.proves.Some? ==> a.proves.value != [] && opts.proofs.Some? && opts.proofs.value(a.proves.value).None?)
  }

  /** An authenticated caller gets through exactly when every demand is met; one who lacks the role is
      told so whatever the state of the others, and one who lacks only the step-up is asked for it
      before any proof is looked at. */
  lemma EveryDemandIsMet(opts: Options, p: Principal, clock: int, a: Args)
    requires a.level in {"ANONYMOUS", "AUTHENTICATED"} && a.proves != Some([])
    ensures Decide(opts, Some(p), clock, a).None? <==> Meets(opts, p, clock, a)
    ensures !Meets(opts, p, clock, a.(mfa := None, proves := None)) ==>
              Decide(opts, Some(p), clock, a) == Some(Forbidden)
    ensures Meets(opts, p, clock, a.(mfa := None, proves := None)) && !Meets(opts, p, clock, a.(proves := None)) ==>
              Decide(opts, Some(p), clock, a) == Some(MfaRequired)
    ensures Meets(opts, p, clock, a.(proves := None)) && !Meets(opts, p, clock, a) ==>
              Decide(opts, Some(p), clock, a)
              == if opts.proofs.None? then Some(InvalidProof) else opts.proofs.value(a.proves.value)
  {
    hide AnyRole, Suffices;
    RolesSuffice(p.roles, a.roles, opts.bypass);
  }

  /** The anonymous caller reaches exactly the fields that say so and demand nothing else; an empty
      proof list is reached by nobody; and with no proof function installed neither is any claim. */
  lemma WhoIsKeptOut(opts: Options, caller: Option<Principal>, clock: int, a: Args)
    ensures Decide(opts, caller, clock, a) == Some(Forbidden)
            <== a.level != "ANONYMOUS" && a.level != "AUTHENTICATED"
    ensures a.proves == Some([]) ==> Decide(opts, caller, clock, a).Some?
    ensures opts.proofs.None? && a.proves.Some? ==> Decide(opts, caller, clock, a).Some?
    ensures caller.None? ==>
              (Decide(opts, caller, clock, a).None? <==>
                 a.level == "ANONYMOUS" && a.roles == [] && a.mfa != Some(true) && a.proves.None?)
    ensures a.level in {"ANONYMOUS", "AUTHENTICATED"} && Decide(opts, caller, clock, a).Some? ==>
              && (a.proves == Some([]) ==> Decide(opts, caller, clock, a) == Some(InvalidProof))
              && (a.proves != Some([]) && caller.None? ==> Decide(opts, caller, clock, a) == Some(Unauthenticated))
    ensures caller.Some? && caller.value.mfaAt.None? && a.mfa == Some(true) ==> Decide(opts, caller, clock, a).Some?
  {
  }

  /** Step-up across the whole run: when a field with `mfa: true` lets a principal some lookup handed
      out through, a RecordMFA ran on that very session and user, while the session was live, no
      longer ago on the database clock than the window plus the skew between the two clocks. */
  lemma StepUpIsBacked(cfg: Config, s: Store, evs: seq<Event>, p: Principal, opts: Options, a: Args, clock: int,
                       dbNow: int, skew: int)
    returns (i: int)
    requires s.principals == {} && forall x :: x in s.db.sessions ==> s.db.sessions[x].mfaAt.None?
    requires p in After(cfg, s, evs).principals
    requires a.mfa == Some(true) && Decide(opts, Some(p), clock, a).None?
    requires -skew <= clock - dbNow <= skew
    ensures p.mfaAt.Some? && SessionTheorems.StampedAt(cfg, s, evs, i, p.session, p.user, p.mfaAt.value)
    ensures dbNow - p.mfaAt.value <= Window(opts) + skew
  {
    hide After;
    i := SessionTheorems.PrincipalStampHasACause(cfg, s, evs, p);
  }

  /** The skew is paid in full: a process clock that runs behind admits a stamp that much older. */
  lemma SkewIsTight(opts: Options, p: Principal, dbNow: int, skew: nat)
    requires p.mfaAt == Some(dbNow - Window(opts) - skew)
    ensures var a := Args(LEVEL_AUTHENTICATED, [], Some(true), None);
            && Decide(opts, Some(p), dbNow - skew, a).None?
            && (skew > 0 ==> Decide(opts, Some(p), dbNow, a) == Some(MfaRequired))
  {
  }
}
