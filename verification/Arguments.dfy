/** What every call asks of its arguments, and of its caller, before it runs its first statement. */
module Arguments {
  import opened Prelude
  import opened Passwords
  import opened Tables
  import opened Text
  import opened Sql
  import opened Programs

  /** What these calls ask of their arguments before anything else: an address with an @ in it, a secret the
      shape check accepts. */
  predicate Acceptable(cfg: Config, call: Call) {
    match call
    case Register(email, password) => '@' in email && cfg.shape(password)
    case Invite(email) => '@' in email
    case ChangePassword(_, _, _, next) => cfg.shape(next)
    case ResetPassword(_, password) => cfg.shape(password)
    case AcceptInvite(_, password) => cfg.shape(password)
    case _ => true
  }

  predicate TakesArguments(call: Call) {
    call.Register? || call.Invite? || call.ResetPassword? || call.AcceptInvite?
    || (call.ChangePassword? && call.caller.Some?)
  }

  /** Past its argument checks. */
  predicate PastTheDoor(p: Proc) {
    match p
    case Done(result) => result != Err(InvalidInput)
    case VaultWrite(_, _) => false
    case _ => true
  }

  lemma StaysPast(cfg: Config, p: Proc, r: Reply, ch: Choice)
    requires PastTheDoor(p)
    ensures PastTheDoor(Resume(cfg, p, r, ch))
  {
    hide Verify;
    forall busy, password, e
      ensures Verify(cfg.cost, busy, password, e) != Err(InvalidInput)
    {
      VerdictIsNotInvalid(cfg.cost, busy, password, e);
    }
  }

  lemma VerdictIsNotInvalid(cost: Cost, busy: bool, password: string, e: Encoded)
    ensures Verify(cost, busy, password, e) != Err(InvalidInput)
  {
  }

  lemma {:induction false} NeverInvalid(cfg: Config, s: Store, p: Proc, oracle: nat -> Choice, k: nat)
    requires PastTheDoor(p)
    ensures Drive(cfg, s, p, oracle, k).1 != Err(InvalidInput)
    decreases Left(p)
  {
    hide Resume, Perform, After;
    if !p.Done? {
      var ch := oracle(k);
      var (t, r) := Perform(cfg, After(cfg, s, ch.env), p, ch);
      StaysPast(cfg, p, r, ch);
      ResumeProgresses(cfg, p, r, ch);
      NeverInvalid(cfg, t, Resume(cfg, p, r, ch), oracle, k + 1);
    }
  }

  lemma AtTheDoor(cfg: Config, call: Call)
    requires TakesArguments(call)
    ensures if Acceptable(cfg, call) then PastTheDoor(Begin(cfg, call)) else Begin(cfg, call) == Done(Err(InvalidInput))
  {
    hide Normalize;
    if call.Register? || call.Invite? {
      AtSignStays(call.email);
    }
  }

  /** A call answers INVALID_INPUT exactly when its arguments are unacceptable, and then nothing has run. */
  lemma InvalidInputIff(cfg: Config, s: Store, call: Call, oracle: nat -> Choice)
    requires TakesArguments(call)
    ensures Drive(cfg, s, Begin(cfg, call), oracle, 0).1 == Err(InvalidInput) <==> !Acceptable(cfg, call)
    ensures !Acceptable(cfg, call) ==> Drive(cfg, s, Begin(cfg, call), oracle, 0).0 == s
  {
    hide Begin, Acceptable, PastTheDoor;
    AtTheDoor(cfg, call);
    if Acceptable(cfg, call) {
      NeverInvalid(cfg, s, Begin(cfg, call), oracle, 0);
    }
  }

  predicate HasNoCaller(call: Call) {
    match call
    case ChangePassword(caller, _, _, _) => caller.None?
    case VaultGet(caller) => caller.None?
    case VaultPut(caller, _) => caller.None?
    case VaultDiscard(caller) => caller.None?
    case _ => false
  }

  /** These four answer UNAUTHENTICATED without a caller, whatever their arguments, and nothing has run. */
  lemma CallerIsNeeded(cfg: Config, s: Store, call: Call, oracle: nat -> Choice)
    requires HasNoCaller(call)
    ensures Drive(cfg, s, Begin(cfg, call), oracle, 0) == (s, Err(Unauthenticated))
  {
    DriveDone(cfg, oracle);
  }
}
