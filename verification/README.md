# kal: a verified model of the credential store

kal keeps users, sessions, emailed tokens, login counters and end-to-end-encryption vaults in Postgres.
Its safety argument is that every SQL statement carries its own full liveness or compare-and-swap
condition, so no interleaving of callers can break it. This project models the statements, the Go
methods built from them, and any number of those methods running at once, and proves that argument.
It also models the codecs, the query predicates, the document guard, the `@auth` directive, the
row-level-security statement and the reference client that sit around the store.

`dafny verify dfyconfig.toml` checks everything.

## How the model is laid out

- `Tables.dfy`, `Sql.dfy`: the rows, and each statement as one atomic step: `Exec` is what it leaves
  behind, `Answer` what it replies. A run is any sequence of statements with the clock advancing in
  between; the application's own soft deletes and role grants are events too.
- `Invariants.dfy`: what every statement keeps. `SessionTheorems.dfy`, `VaultTheorems.dfy`: whole runs.
- `Programs.dfy`: each Go method as a program of statements (`Request` is its next statement, `Resume`
  where it goes on the reply; `Drive` runs it alone, under interference). `Machine.dfy`,
  `MachineInvariants.dfy`: any number of them interleaved, and the invariant of every reachable state.
  `CredentialTheorems.dfy`, `LoginTheorems.dfy`, `Outcomes.dfy`, `Survivors.dfy`, `Enumeration.dfy`,
  `BackoffTheorems.dfy`, `Throttle.dfy` and `Bursts.dfy` say what can go wrong and what cannot;
  `LoginCompletes.dfy`, `ChangeCompletes.dfy`, `Links.dfy`, `SessionCalls.dfy`, `Arguments.dfy` and
  `Faults.dfy` say what each call achieves and answers, what hinders it, and what its caller can rely on
  from then on.
- `Database.dfy`, `Sessions.dfy`, `Accounts.dfy`, `Vaults.dfy`: the same statements and methods as
  classes that update tables in place. Each method is verified under interference: before each of its
  statements the other callers may have executed any statements at all. Its contract is that the tables
  and the result are those of its program run under that interference.
- `Simulation.dfy` joins the two: a call in any run of the machine ends with the result, and leaves the
  store, that its program gives under the interference it met. So the theorems about runs speak of what
  the methods return.
- `Base64.dfy`, `Phc.dfy`, `Passwords.dfy`, `Client.dfy`: codecs, hashes and the record format. `Sorting.dfy`: the string order.
- `Scoped.dfy`, `Guard.dfy`, `Rls.dfy`, `Directive.dfy`: the query algebra, the walk, the settings
  statement, the directive.

## What is assumed

- A statement is atomic; Postgres re-checks an UPDATE's condition on the locked row.
- `NewToken` values and Argon2id salts are fresh; SHA-256 is injective; the pepper-keyed HMAC of an
  address is an ideal function of the address.
- An Argon2id string accepts exactly one password; a bcrypt string accepts all that share 72 bytes.
  `Hashing.VerifyIsIdeal` links this to the printed form. The store holds no PHC string with zero passes or
  lanes: no hasher writes one, and verifying one would panic (`Hashing.PanicsExactlyWithoutWork`).
- Go's and Postgres's lower-casing agree (ASCII). No account's address is rewritten.
- A principal on a request came from a session lookup.
- go-pg parenthesises the text given to one `Where` or `WhereOr`, and `WhereGroup` saves and restores
  the WHERE list only. The clauses a scoped query adds to hold no top-level OR of their own.
- AES-GCM and HKDF are ideal; the text encoder is injective.
- The session middleware is installed, so writing the cookie succeeds.

## What the proofs turned up

- `KeyVersion` is not consulted while a user has no vault row: any expected version enrols at version 1
  (`VaultTheorems.EnrolmentIgnoresVersion`).
- `NewVaults` does not compare its default with its floor, so it can hand out parameters that `Put` refuses
  (`VaultTheorems.DefaultIsAcceptedIffAboveFloor`).
- The lazy idle refresh can end a session up to 60 seconds early, and that bound is met exactly
  (`SessionTheorems.LazyBoundIsTight`).
- `NewSessions` accepts a negative idle timeout (`Sessions.LimitsAreUsable`), under which every session is
  dead on arrival (`SessionTheorems.DeadOnArrival`).
- A stored hash that is neither `$2…` nor a parsable PHC string makes Login answer differently from an
  absent account; with readable hashes and wrong guesses the two are indistinguishable
  (`Enumeration.ExactlyWhenTheyPart`).
- The pre-auth parameters show that an address has an account exactly when it enrolled under parameters
  other than the default now configured, its own choice or an older default; the salt never shows it
  (`Enumeration.ParamsTellApartIff`, `Enumeration.EnrolmentCanShow`).
- The promised backoff curve holds for logins on an account made one after another. Logins that overlap
  all pass the check before any is recorded (`Throttle.OverlappingLoginsEscapeTheWindow`); with at most m in
  flight the n-th failure still comes a whole window after the (n − m)-th, whatever the counter started
  from and whatever ChangePassword adds to it (`Throttle.GuessingInFlightIsRateBound`), and bursts of m keep
  to that bound exactly (`Bursts.BurstsMeetTheBound`). A failed Login is counted inside a closed window
  exactly when one of its two counters was written after its check and that window is not over
  (`Throttle.LoginLandsInsideIff`).
- A wrong `current` in ChangePassword bumps the same counter with no check at all: any number of such calls
  at one instant are each answered INVALID_CREDENTIALS and each counted, a closed window staying closed and
  stopping none of them (`Throttle.ChangePasswordIgnoresTheWindow`).
- ResetPassword and AcceptInvite redeem their link before they hash. A call whose password write meets a full
  hashing bound or a driver fault, and no other, loses its link with no password written; a reset whose
  revoke-all fails has changed the password, left the sessions standing and reports an error
  (`Outcomes.LinkIsLostIff`).
- ChangePassword reports an error although the new password is in force exactly when, after its swap
  matched, its rotation meets a driver fault or a session that is no longer live
  (`Outcomes.ChangedButRefusedIff`).
- A reset ends the sessions of its revoke-all, not the logins under way: a Login that accepted the old
  password before the reset's write and issues after its revoke-all leaves a session that resolves
  (`Survivors.EarlyReaderOutlivesTheReset`). Beside such logins, only logins that read the account after
  the revoke-all and the application's own Issue can leave one (`Survivors.WhoOutlivesAReset`).
- `parsePHC` accepts zero passes and zero lanes, on which the derivation panics
  (`Hashing.PanicsExactlyWithoutWork`).
- `parsePHC` is described as parsing exactly the form `encodePHC` writes. It accepts more: white space
  before numbers, a sign on the version, leading zeros, text after the last number, line breaks and
  stray trailing bits in the base64 (`Phc.ParseWritten`, `Phc.AcceptedIsWrittenIffPlain`).
- A hasher configured with a salt outside 8–64 bytes or a key outside 16–128 bytes writes hashes it
  then refuses to read (`Hashing.HashThenVerify`), and two replicas whose costs are incomparable rehash
  an account back and forth (`Hashing.FleetSettlesIffComparable`).
- The recorded selection depth is not the depth after inlining: D levels and F fragments can reach
  D + F(D − 1) (`Guard.InlinedDepthIsBounded`, `Guard.DepthBoundIsMet`).
- The roles setting of row-level security reads back as the caller's roles exactly when there are some and
  none holds a comma; an empty list and a single empty role look alike (`Rls.RolesReadBack`).
- The client's additional data names its place uniquely exactly when no field holds a `|`
  (`Client.PlaceIsBoundIffBarFree`).
- migrations/0001_core.sql:84 describes a counter's key as the user id; the code writes the normalised
  address, and the model follows the code.

## Model

| member | source | states |
|---|---|---|
| SessionTheorems.DeadStaysDead | session/sql.go:45-107 | once revoked, idle-expired or past its deadline, a session resolves for no token after any further run |
| SessionTheorems.RevokeAllIsFinal | session/sql.go:105-107 | no session a user had at a revoke-all ever resolves again |
| SessionTheorems.RevokeIsFinal | session/session.go:261-274 | a revoked session never resolves again |
| SessionTheorems.DeletionIsFinal | session/sql.go:45-67 | from its deletion on, whatever runs, no token resolves to a session of the account and no statement that signs in, resets or reads an address answers with it |
| SessionTheorems.ResolvesWithinAbsolute | session/sql.go:45-83 | whenever a session resolves, now < created + absolute, with the owner and age it was issued with |
| SessionTheorems.LazyIdleRefinesIdeal | session/sql.go:45-67 | quiet for less than idle − 60 s since the last hit is always idle-live, quiet for idle or more never resolves |
| SessionTheorems.IssueTracks | session/sql.go:27-30 | a fresh session satisfies the relation the idle bound starts from |
| SessionTheorems.LazyBoundIsTight | session/sql.go:54-59 | a concrete run where a client quiet for exactly idle − 60 s is already dead |
| SessionTheorems.RefreshesAreApart | session/sql.go:54-60 | two refresh writes on one session are more than 60 s apart in every run |
| SessionTheorems.AtMostOneSession | migrations/0001_core.sql:36-48 | a wire token resolves to at most one session |
| SessionTheorems.TokenSessionAgreement | session/session.go:177-220 | a token that resolves is the one last installed on that row by Issue or Rotate |
| SessionTheorems.RotationRetiresTheOldToken | session/session.go:194-220 | after a rotation the old token never resolves anywhere, the new one finds the row, and resolves unless the owner is deleted, and identity, owner and deadline survive |
| SessionTheorems.StampHasACause | session/sql.go:91-96 | an MFA stamp on a row was put there by a RecordMFA on that session and user, live at that instant |
| SessionTheorems.PrincipalStampHasACause | session/session.go:177-192 | so was the stamp on every principal a lookup hands out |
| SessionTheorems.StampStays | session/sql.go:91-96 | a step-up stamp stays on its row, whatever runs, until the next step-up on that session |
| SessionTheorems.StampIsHandedOut | session/session.go:177-192 | and every principal a lookup of the session hands out meanwhile carries it |
| SessionTheorems.LeftAloneItResolves | session/sql.go:45-67 | a session that nobody revokes or rotates, and whose owner is not deleted, goes on resolving to its token for all the time it has left |
| SessionCalls.LogoutIsFinal | authn/accounts.go:288-295 | in any run, Logout of an identified caller errs exactly when its statement faults; when it answers nil, no token resolves to that session then or in any continuation |
| SessionCalls.LogoutWithoutCaller | authn/accounts.go:288-292 | for no caller it answers nil and runs no statement |
| SessionCalls.RevokeCallIsFinal | session/session.go:261-274 | the same of Sessions.Revoke for a session that exists |
| SessionCalls.RevokeAllCallIsFinal | session/session.go:281-291 | when Sessions.RevokeAllForUser answers nil, none of the sessions the user had at its statement resolves in any continuation |
| SessionCalls.RecordMFAStamps | session/session.go:245-255 | Sessions.RecordMFA answers nil exactly when, at its statement, the session is live and that user's own; the row then carries that instant |
| SessionCalls.StepUpIsHonoured | authz/directive.go:168-173 | after it, until the next step-up there, every principal a lookup of the session hands out carries that instant, and a field demanding step-up alone admits it exactly while the clock is at most the window past it |
| SessionCalls.LookupAnswersTheRow | session/session.go:177-192 | Sessions.Lookup answers the owner, address, verification, age, stamp and sorted roles of the session its token resolves to; Anonymous when there is none; an error exactly on a fault |
| SessionCalls.IssueMakesASession | session/session.go:145-164 | Sessions.Issue answers a fresh token exactly for a user that exists, and the one change is its session, both windows whole |
| SessionCalls.RotateMovesTheToken | session/session.go:205-220 | Sessions.Rotate answers a fresh token exactly for a live session, and the one change is that it now stands for it, the idle window whole again |
| SessionTheorems.RolesAreDeterministic | session/session.go:189-190 | a principal's roles are the user's own, in order, whatever order they were aggregated in |
| SessionTheorems.DeadOnArrival | session/session.go:91-102 | under an idle timeout of zero or less no issued session ever resolves |
| Invariants.NextKeepsInv | session/sql.go:27-107 | every enabled statement keeps the store invariant: unique digests and addresses, idle deadline = last seen + idle, known salts, derived vault salts |
| Invariants.RunKeepsInv | session/sql.go:27-107 | so does every valid run, and accounts, sessions and their identity only accumulate |
| Invariants.StatementKeepsDigestsUnique | migrations/0001_core.sql:38 | no statement makes two rows share a token digest |
| Invariants.StatementKeepsAddressesUnique | migrations/0001_core.sql:33-34 | no statement makes two live accounts share an address |
| Invariants.RowMoves | session/sql.go:45-107 | the complete list of what a statement can do to one session row |
| Invariants.ReportsRowsChanged | session/sql.go:99-107 | the count a revocation, a hash swap, a counter reset or a vault deletion reports is the number of rows it changed |
| Invariants.TakenTokenIsAFault | migrations/0001_core.sql:38 | issuing or rotating to a token another row has changes nothing and is a fault, not a session that is gone |
| Invariants.EmptyStoreOk | migrations/0001_core.sql:10-88 | the empty database satisfies the invariant |
| Sql.AfterConcat | session/sql.go:27-107 | runs compose |
| Database.Database.Issue | session/sql.go:27-30 | the in-place insert leaves and answers what the statement does, and keeps the constraints |
| Database.Database.Lookup | session/sql.go:45-67 | finds, joins and lazily refreshes the one row the set-based statement would |
| Database.Database.Rotate | session/sql.go:75-83 | swaps the digest of a live row only, refreshing its window |
| Database.Database.RecordMFA | session/sql.go:91-96 | stamps a live row of that user only |
| Database.Database.Revoke | session/sql.go:99-101 | revokes an open row once |
| Database.Database.RevokeAll | session/sql.go:105-107 | revokes every open row of the user and counts them |
| Database.Database.ListLive | session/sql.go:111-121 | returns exactly the user's live sessions, most recently seen first |
| Database.Database.UpdatePassword | authn/sql.go:67-70 | compare-and-swap on the stored hash |
| Database.Database.InsertUser | authn/sql.go:109-113 | inserts unless a live account holds the address |
| Database.Database.InsertInvitee | authn/sql.go:117-121 | the same without a password |
| Database.Database.SetPassword | authn/sql.go:161-162 | unconditional password write |
| Database.Database.MarkVerified | authn/sql.go:164-165 | verifies the address |
| Database.Database.InsertToken | authn/sql.go:135-142 | stores an unconsumed token with its expiry |
| Database.Database.ConsumeToken | authn/sql.go:151-158 | consumes an unconsumed, unexpired token of that purpose, or nothing |
| Database.Database.Record | authn/sql.go:84-94 | bumps one or both counters |
| Database.Database.ResetAttempts | authn/sql.go:98-100 | forgets both counters |
| Database.Database.PutVault | e2ee/sql.go:73-90 | inserts at version 1, or swaps on the expected version keeping the salt, stamping the current hash |
| Database.Database.DeleteVault | e2ee/sql.go:92-93 | removes the row |
| Database.Database.Select | authn/sql.go:50-59 | the reading statements answer and change nothing |
| Database.Database.Execute | session/sql.go:27-107 | one statement in place is one step of the store |
| Database.Database.Interfere | session/sql.go:27-107 | any run of other callers' statements in place is that run of the store |
| Database.Database.Query | authn/accounts.go:204-282 | one round trip is one unfolding of the call's program, after interference |
| Sessions.LimitsAreUsable | session/session.go:91-102 | accepted lifetimes satisfy idle ≤ absolute, and are usable exactly when the idle timeout asked for is not negative |
| Sessions.Sessions.Issue | session/session.go:145-164 | a fresh token's row is inserted and the token returned, or nothing changes and the fault is reported, whatever others ran before |
| Sessions.Sessions.Lookup | session/session.go:177-192 | the live row's principal, roles sorted, the row refreshed lazily; an unknown or dead token is anonymous, not an error, whatever others ran before |
| Sessions.Sessions.Rotate | session/session.go:205-220 | a live row gets a fresh token and window; a dead one is UNAUTHENTICATED and unchanged |
| Sessions.Sessions.RecordMFA | session/session.go:245-255 | a live row of that user is stamped; otherwise UNAUTHENTICATED and nothing changes |
| Sessions.Sessions.Revoke | session/session.go:261-274 | the row ends up revoked; an unknown or revoked one is no error |
| Sessions.Sessions.RevokeAllForUser | session/session.go:281-291 | all open rows of the user end up revoked; none is no error |
| Backoff.DelayIsCappedExponential | authn/backoff.go:36-53 | the shift and its early return compute min(30 s, 2^(over−1) s) for every count |
| Backoff.DelayMonotone | authn/backoff.go:36-53 | more failures never shorten the window |
| BackoffTheorems.GuessingIsRateBound | authn/accounts.go:368-412 | in any sequence of attempts on any addresses from anywhere, an account's counter at n ≥ 7 was last bumped at least 31 + 30(n−7) s after it was created, and a client's at n ≥ 16 at least 31 + 30(n−16) s, whatever accounts it tried |
| BackoffTheorems.LeastSpanIs | authn/backoff.go:12-53 | six failures past the allowance the windows come to 31 s, and to 30 s more for each one after, for an account and for a client |
| BackoffTheorems.SelfRecovers | authn/accounts.go:378-397 | 30 s after both last failures no attempt is rejected |
| BackoffTheorems.RecordClosesWindow | authn/accounts.go:378-396 | a failure on an account that already had one closes its window for every client |
| BackoffTheorems.FailedLoginIsATry | authn/accounts.go:204-240 | the attempts of the bound are what Login does on a wrong guess or an unknown address |
| Throttle.GuessingInFlightIsRateBound | authn/accounts.go:204-240 | in any run with no success and at most m logins on the account between check and record, failed login n is recorded a whole window after failed login n − m, whatever the counter started from and whatever ChangePassword adds; the counter holds them all, and nothing else if no ChangePassword gets `current` wrong |
| Throttle.GuessingInTurnIsRateBound | authn/accounts.go:368-412 | with one at a time, failed login n ≥ 7 of the run comes at least 31 + 30(n−7) s after the first |
| Throttle.FailuresAreSpaced | authn/accounts.go:368-397 | in a ledger with at most m in flight, failure n is a whole window after failure n − m |
| Throttle.LoginLandsInsideIff | authn/accounts.go:204-240 | at any point of any run after a Login passed its check, the window it is judged by is closed exactly when the account's or the client's counter was written since that check and its window is not over |
| Throttle.ChangePasswordIgnoresTheWindow | authn/accounts.go:308-336 | any number of ChangePassword calls with a wrong `current` at one instant are each answered INVALID_CREDENTIALS and counted, and a closed window stays closed and stops none |
| Bursts.BurstsMeetTheBound | authn/accounts.go:204-240 | for every n and m, and whatever is on record for the account, some run of Logins without a client address with at most m in flight records n failures in exactly the time the bound allows |
| Throttle.OverlappingLoginsEscapeTheWindow | authn/accounts.go:204-240 | two Logins that both check before either records both fail plainly, and the counter rises by two at one instant inside a closed window |
| Accounts.Accounts.CheckBackoff | authn/accounts.go:368-398 | the window is open exactly when no row blocks, in whatever order rows arrive; the count is the account's own |
| Accounts.Accounts.Login | authn/accounts.go:204-282 | tables and result are those of the login program, with any statements of other callers before each of its own |
| Accounts.Accounts.FailLogin | authn/accounts.go:402-412 | the failure is recorded, with or without a client address, and the answer does not depend on the write |
| Accounts.Accounts.RehashStored | authn/accounts.go:423-436 | best-effort rehash by compare-and-swap on the hash just verified |
| Accounts.Accounts.SignIn | authn/accounts.go:257-277 | counters reset, arriving session revoked, new session issued and resolved |
| Accounts.Accounts.Logout | authn/accounts.go:288-295 | revokes the arriving session, if any |
| Accounts.Accounts.ChangePassword | authn/accounts.go:308-364 | tables and result are those of the change program: shape check, read, verify, swap, rotate |
| Accounts.Accounts.StoreChange | authn/accounts.go:339-354 | hash, compare-and-swap, rotation; a lost race is reported |
| Accounts.Accounts.Register | authn/tokens.go:56-101 | tables and result are those of the register program: checks, hash, insert, then a token if the address was free |
| Accounts.Accounts.RequestPasswordReset | authn/tokens.go:121-154 | tables and result are those of the request program: a token for a live account, nil either way |
| Accounts.Accounts.ResetPassword | authn/tokens.go:170-198 | tables and result are those of the reset program: shape check, consume, write, revoke-all, in that order |
| Accounts.Accounts.VerifyEmail | authn/tokens.go:204-211 | tables and result are those of the verify program: consume, then mark |
| Accounts.Accounts.Invite | authn/tokens.go:223-256 | tables and result are those of the invite program: insert or find, then a token |
| Accounts.Accounts.AcceptInvite | authn/tokens.go:264-281 | tables and result are those of the accept program: shape check, consume, write, mark |
| Programs.ResumeProgresses | authn/accounts.go:204-364 | every reply moves a call strictly closer to its end |
| LoginTheorems.LoginAdmitsTheAccount | authn/accounts.go:204-282 | a successful Login is the principal of one account that was live at the address, accepted the password and was allowed in when read, whatever ran in between; the arriving session can never resolve again |
| LoginTheorems.VerdictEntitles | authn/accounts.go:213-249 | past the read, a call goes on only for the account entitled by that very row |
| LoginTheorems.RevokeAdmits | authn/accounts.go:261-277 | after the revocation step, success means the arriving session is dead |
| LoginCompletes.LoginSucceedsIff | authn/accounts.go:204-282 | a Login with no fault and a free hasher, beside callers that spare the account and the new session, signs this account in exactly when no counter blocks at its check and the account is entitled at its read; the new session's token then resolves |
| LoginCompletes.EntitledLoginSignsIn | authn/accounts.go:204-282 | then, where nobody else fails or writes that hash meanwhile, both counters are gone and the stored hash accepts the password at the configured cost |
| LoginCompletes.SuccessClearsCounters | authn/accounts.go:252-256 | a Login that succeeds leaves neither counter |
| LoginCompletes.SuccessSettlesHash | authn/accounts.go:423-436 | the account ends with a hash that asks for no rehash, rewritten if the one it had did |
| LoginCompletes.RefusedLoginAnswers | authn/accounts.go:204-249 | a closed window is RATE_LIMITED, an unreadable hash an error, the right password of an unverified address INVALID_CREDENTIALS, each touching nothing; a wrong password is INVALID_CREDENTIALS and counted once, on the account and on the client if known |
| LoginCompletes.UnknownLoginAnswers | authn/accounts.go:216-240 | behind an open window a full hashing bound is RATE_LIMITED with nothing counted, account or not; an address without an account that has a password is refused and counted as a wrong guess is |
| ChangeCompletes.ChangePasswordAnswers | authn/accounts.go:308-364 | for a caller with an acceptable new secret: UNAUTHENTICATED without a live account, INVALID_CREDENTIALS without a password or for a wrong `current`, which is counted once; otherwise the swap puts a hash of the new password in place exactly when the hash read still stands, and a live session then gets the token returned |
| Arguments.InvalidInputIff | authn/tokens.go:56-64 | Register, Invite, ResetPassword, AcceptInvite and an identified ChangePassword answer INVALID_INPUT exactly when the address has no @ or the shape check refuses the secret, and then nothing has run |
| Arguments.CallerIsNeeded | authn/accounts.go:308-316 | ChangePassword and the vault calls answer UNAUTHENTICATED without a caller, and nothing has run |
| Faults.FaultEndsTheCall | authn/accounts.go:204-436 | a driver fault at any statement ends the call with an error and nothing changed, except where a failure is being counted, the counters forgotten, a hash upgraded or an address read for a notice: there the answer does not depend on it |
| Faults.BusyEndsTheCall | authn/accounts.go:339-436 | a full hashing bound ends a call that has a password to store before its statement runs; only the rehash of a Login is given up for it |
| Simulation.EveryCallIsAMethod | authn/accounts.go:204-364 | every finished call of every run has an interference, fresh throughout, under which its method gives that result and store |
| Simulation.PlayIsADrive | authn/accounts.go:204-364 | so does every call from wherever it stands, what the others did being what the method met |
| Simulation.PlayedLoginAdmits | authn/accounts.go:204-282 | a Login that succeeds in a run had, at its own read, a live account at the address accepting the password, and returns that account |
| Machine.StepProjects | authn/accounts.go:204-364 | each step of the interleaved calls is an enabled statement of the store, or none |
| MachineInvariants.StepKeepsWorld | authn/tokens.go:170-305 | every step keeps what all calls in progress rely on: hashes that accepted their passwords, tokens they burned, verified addresses with a cause |
| MachineInvariants.PlayKeepsWorld | authn/tokens.go:170-305 | so does every interleaving |
| MachineInvariants.PlayProjects | session/sql.go:27-107 | an interleaving of calls is a valid run of statements, so every theorem about runs applies |
| CredentialTheorems.GoneStaysGone | authn/sql.go:67-70 | a hash that left a row never returns to it |
| CredentialTheorems.MatchMeansUndisturbed | authn/sql.go:61-70 | a matching compare-and-swap proves the hash stood there at every moment since it was read |
| CredentialTheorems.OneChangePerHash | authn/accounts.go:343-349 | of two changes verified against one hash the second changes no row |
| CredentialTheorems.HashChangesAreAuthorised | authn/accounts.go:308-436 | whoever replaces a hash holds, at that instant, a password the old hash accepts or a burned reset or invite token; a rehash accepts nothing the old hash did not |
| CredentialTheorems.ChangePasswordLinearises | authn/accounts.go:339-353 | the UPDATE overwrites a hash accepting `current`, or changes no row and the call fails |
| CredentialTheorems.FailedConsumeChangesNothing | authn/tokens.go:290-305 | a refused consume changes nothing, and says why |
| CredentialTheorems.SpentStaysSpent | authn/sql.go:151-158 | a consumption is never undone or moved |
| CredentialTheorems.ConsumedAtMostOnce | authn/sql.go:144-158 | a token redeems at most once, for any purpose, in any interleaving |
| Links.RedeemsExactly | authn/tokens.go:290-305 | a call presenting a known link succeeds exactly when the link is for that call, unspent and unexpired; otherwise it answers INVALID_TOKEN |
| Links.StandingLink | authn/tokens.go:144-305 | so for a link handed out earlier, in any continuation |
| Links.ResetLinkIsGiven | authn/tokens.go:121-154 | a reset asked for at a live account's address leaves a reset link for that account, good for 15 minutes |
| Links.ResetLinkRoundTrip | authn/tokens.go:121-198 | that link is redeemed by ResetPassword exactly while unspent and less than 15 minutes old, and by no other call, in every continuation |
| Links.RegistrationMakesAnAccount | authn/tokens.go:56-101 | registering a free address makes one unverified account with a hash of exactly that password, and a verify link for it, good for a day |
| Links.TakenAddressIsLeftAlone | authn/tokens.go:72-92 | registering an address where an account lives answers nil and touches no row |
| Links.VerifyLinkRoundTrip | authn/tokens.go:56-211 | that link is redeemed by VerifyEmail exactly while unspent and less than 24 hours old, and by no other call |
| Links.InvitationMakesAnAccount | authn/tokens.go:223-256 | inviting an unused address makes an account without a password and returns an invite link for it, good for seven days |
| Links.InvitationIsRenewed | authn/tokens.go:223-256 | inviting the address of a live account returns a fresh link for that account |
| Links.InviteLinkRoundTrip | authn/tokens.go:223-281 | the link returned is redeemed by AcceptInvite exactly while unspent and less than seven days old, and by no other call |
| Links.VerifyEmailTakes | authn/tokens.go:204-211 | VerifyEmail with a good link verifies that account and changes nothing else but the link |
| Links.AcceptInviteTakes | authn/tokens.go:264-281 | AcceptInvite with a good link gives that account this password and a verified address, and nothing else changes |
| Links.ResetPasswordTakes | authn/tokens.go:170-198 | ResetPassword with a good link gives that account this password and revokes each of its sessions, and nothing else changes |
| Links.ANewAccountSignsIn | authn/tokens.go:56-211 | whoever registers a free address, redeems the mailed link and logs in with that password is signed in as the account just made |
| CredentialTheorems.SetPasswordIsBacked | authn/tokens.go:264-278 | every unconditional password write is backed by a token its own call burned for that account, shared with no other call |
| CredentialTheorems.WritesOnce | authn/tokens.go:170-187 | and is made at most once per call |
| CredentialTheorems.VerifiedHasProvenance | authn/tokens.go:204-281 | a verified address on an account kal created goes back to a consumed, then unexpired verify or invite token of that account |
| CredentialTheorems.ResetPasswordKillsSessions | authn/tokens.go:170-198 | if ResetPassword returns nil, its revoke-all ran for the token's account and none of the sessions it had then resolves at the end |
| Outcomes.LinkIsLostIff | authn/tokens.go:170-281 | a ResetPassword or AcceptInvite that redeemed its link ends in an error with no password written exactly when its write met a busy hasher or a fault, and in an error with the password written exactly when the next statement failed; the link is spent for good, and one that redeemed nothing wrote nothing |
| Outcomes.BurnedLinkEnds | authn/tokens.go:170-281 | the answer, the password write and the revoke-all of such a call, as a function of what its second and third statements met |
| Outcomes.RefusedShapeBurnsNothing | authn/tokens.go:170-177 | a call whose new secret the shape check refuses answers INVALID_INPUT, runs no statement in any run and burns no link |
| Outcomes.ChangedButRefusedIff | authn/accounts.go:343-356 | past its checks a ChangePassword either loses its swap, changing nothing, or puts the new hash in place; then it reports an error exactly when its rotation meets a fault or a dead session |
| Survivors.WhoOutlivesAReset | authn/tokens.go:170-198 | after a reset that returned nil, a session of the account that resolves was issued after the revoke-all: to a Login past its read by then, to a Login that read later, when only the hash then in force or a newer one could accept, or by the application |
| Survivors.EarlyReaderOutlivesTheReset | authn/tokens.go:186-189 | a possible run in which a Login reads before the reset's write and issues after its revoke-all: the reset returns nil, the new hash is in force, and the old password's session resolves |
| Survivors.SignInSteps | authn/accounts.go:213-282 | every step into a sign-in is a read that found the account live, accepting the password and allowed in |
| CredentialTheorems.ResetRequestMutatesNoAccount | authn/tokens.go:121-154 | a reset request touches token rows only |
| CredentialTheorems.ResetRequestRevealsNothing | authn/tokens.go:121-154 | it answers nil for known and unknown addresses, under interference |
| CredentialTheorems.RegisterRevealsNothing | authn/tokens.go:40-101 | so does Register for taken and free addresses |
| Enumeration.AccountsAreIndistinguishable | authn/accounts.go:204-245 | for a live account with any sessions, tokens and vault: a run of calls by others, guesses at its address wrong, is also a run of the world without the account and all it owns, with every call at the same point with the same result, and equal counters |
| Enumeration.ExactlyWhenTheyPart | authn/accounts.go:213-240 | the two worlds part at a login there exactly when the stored hash is unreadable or accepts the guess |
| Enumeration.ParamsTellApartIff | e2ee/e2ee.go:234-249 | the pre-auth answer for an account's address equals that for no account exactly when it has no vault or enrolled under the parameters that are now the default |
| Enumeration.EnrolmentCanShow | e2ee/e2ee.go:296-315 | a Put under other parameters makes the two answers differ |
| Enumeration.SameParams | e2ee/sql.go:36-40 | the parameters of every other address answer alike in both worlds |
| Enumeration.SameAnswer | session/sql.go:27-121 | a statement naming neither the account nor anything it owns answers the same without it |
| Enumeration.SameEffect | session/sql.go:27-121 | and executing it commutes with leaving the account out, its own rows staying as they are |
| Enumeration.WorldWithoutIsAWorld | migrations/0001_core.sql:36-63 | the world without the account satisfies the machine invariant |
| Enumeration.SameVerdict | authn/accounts.go:216-240 | a wrong guess and an absent account take the same next step |
| VaultTheorems.VersionCountsWrites | e2ee/sql.go:73-90 | between discards the version is the number of successful writes |
| VaultTheorems.OneRewrapPerVersion | e2ee/sql.go:80-90 | of all re-wraps expecting one version at most one succeeds, and the losers change no column |
| VaultTheorems.RefusedPutChangesNothing | e2ee/e2ee.go:296-339 | CONFLICT exactly when the swap cannot apply, INVALID_INPUT exactly when the policy refuses, and neither changes a row |
| VaultTheorems.EnrolmentIgnoresVersion | e2ee/sql.go:73-79 | without a row any expected version enrols at version 1 |
| VaultTheorems.SaltIsConstant | e2ee/e2ee.go:213-249 | every answer for an address carries the one derived salt: before registration, before enrolment, after re-wraps naming other salts, after discard, after soft delete |
| VaultTheorems.StaleExactlyWhenHashMoved | e2ee/sql.go:29-54 | Stale exactly when the hash differs from the one at the last successful Put |
| VaultTheorems.NotStaleMeansUntouched | e2ee/sql.go:42-54 | an answer that is not stale means the account had the hash of the last successful Put at every moment since |
| VaultTheorems.FreshMeansUntouched | e2ee/sql.go:42-54 | a hash found equal at two moments stood at every moment between |
| VaultTheorems.PlayKeepsPolicy | e2ee/e2ee.go:317-339 | in every reachable state every vault row respects the parameter floor, the blob ceilings and the recovery requirement |
| VaultTheorems.PutAnswers | e2ee/e2ee.go:296-339 | a Put is INVALID_INPUT exactly for what the policy refuses; otherwise nil exactly for a live account with no vault or the expected version, CONFLICT and unchanged for any other |
| VaultTheorems.ParamsAnswers | e2ee/e2ee.go:234-249 | before sign-in an address gets the parameters a live account there enrolled under, and any other address the configured default with the salt derived from it |
| VaultTheorems.PutIsRead | e2ee/sql.go:73-90 | after a Put that answered nil, every Get of that user answers exactly the bytes, the recovery copy and the defaulted parameters that were put, until the next successful Put or Discard |
| VaultTheorems.DiscardIsRead | e2ee/e2ee.go:348-355 | after a Discard the user has no vault |
| VaultTheorems.DefaultIsAcceptedIffAboveFloor | e2ee/e2ee.go:177-201 | enrolling under the parameters that were handed out is refused exactly when the configured default is below the floor |
| Vaults.Vaults.Params | e2ee/e2ee.go:234-249 | the stored parameters of the live account at the address, or the defaults with the derived decoy; nothing changes |
| Vaults.Vaults.Get | e2ee/e2ee.go:259-277 | the caller's row with its staleness verdict; no row is no error, no caller is UNAUTHENTICATED |
| Vaults.Vaults.Put | e2ee/e2ee.go:296-315 | caller and policy are checked before the one statement; its refusal is CONFLICT |
| Vaults.Vaults.Discard | e2ee/e2ee.go:348-355 | the caller's row is removed, if there is one |
| Text.StoredFormIsNormal | e2ee/e2ee.go:235-307 | the salt derived from a stored address and from an asked one agree |
| Text.OnlyCaseAndPaddingGo | authn/accounts.go:204-212 | a normal form is the text without its padding, letters in lower case, and nothing else is changed |
| Sorting.BeforeIs | session/session.go:189-190 | the order roles come in is that of the first characters to differ, a prefix first |
| Base64.EncodesTheBits | authn/password.go:229-234 | the text is one character of RFC 4648's table for every six bits of the input in order, zeros filling the last |
| Base64.DecodeEncode | authn/password.go:254-259 | what is encoded decodes, strictly or not, in either alphabet |
| Base64.StrictIsCanonical | e2ee/e2ee.go:381-384 | strict decoding accepts only the canonical text, line breaks apart |
| AuthSecret.ValidIffCanonical | e2ee/e2ee.go:373-386 | accepted exactly when the string is "kal1." and the canonical unpadded base64url of some 32 bytes |
| AuthSecret.OneFormPerSecret | e2ee/e2ee.go:373-386 | one secret has one accepted form |
| AuthSecret.LineBreakPassesTheDecode | e2ee/e2ee.go:54-61 | a line break anywhere passes the strict decode, so the length check is needed |
| AuthSecret.DirtyBitsOfOne | e2ee/e2ee.go:365-369 | stray bits in the last of 4n + 2 characters pass the lenient decode |
| AuthSecret.DirtyBitsPassTheLength | e2ee/e2ee.go:365-369 | stray trailing bits pass the length check and the lenient decode, so strictness is needed |
| Phc.RoundTrip | authn/password.go:229-268 | the printed form parses back to the same values exactly when salt and key lengths are in the envelope |
| Phc.DefaultsArePrinted | authn/password.go:223-234 | the default parameters print as `$argon2id$v=19$m=19456,t=2,p=1$`, salt and key |
| Phc.ParseWritten | authn/password.go:242-268 | the parser reads the same values with any non-digit text after the numbers |
| Phc.FieldSpellings | authn/password.go:251-253 | a field reads its number in any spelling of digits, past blanks, and refuses one that does not fit |
| Phc.VersionSpellings | authn/password.go:247-250 | the version is 19, in any spelling, with or without a plus sign, and nothing else |
| Phc.AcceptedIsWrittenIffPlain | authn/password.go:236-268 | an accepted string is the printed form of its values exactly when its version, numbers and base64 are spelled plainly |
| Phc.PlainCostsIffWritten | authn/password.go:251-253 | the parameter field is the printed one exactly when it is three plain numerals and nothing else |
| Phc.NumberOfDecimal | authn/password.go:230-231 | printing and reading a decimal are inverse |
| Hashing.DefaultsAreUsable | authn/password.go:44-62 | no field is left zero, set fields stand, and the lengths are readable unless others were asked for |
| Hashing.Hasher.Hash | authn/password.go:149-155 | busy when no slot is free, and every path gives its slot back |
| Hashing.Hasher.Verify | authn/password.go:176-196 | the verdict on bcrypt, PHC and unreadable strings, or a panic for zero passes or lanes; busy when no slot is free, and every path gives its slot back |
| Hashing.PanicsExactlyWithoutWork | authn/password.go:187-191 | verifying a printed hash panics exactly when it parses and has zero passes or lanes |
| Hashing.VerifyWritten | authn/password.go:176-221 | a hash verifies exactly the passwords deriving the same key; rehash is asked exactly when its costs are weaker |
| Hashing.HashThenVerify | authn/password.go:149-196 | hash then verify succeeds without a rehash exactly when the lengths are in the envelope; no later verify under the configuration asks again |
| Hashing.ImportSettles | authn/password.go:176-196 | an imported bcrypt string asks whoever it accepts for a rehash, and the string then written does not ask again; any other string that does not parse is an error |
| Passwords.ImportsReadSeventyTwo | authn/password.go:176-186 | an imported bcrypt string accepts exactly its own password and whatever shares its first 72 characters |
| Hashing.VerifyIsIdeal | authn/password.go:176-196 | where the derivation confuses no two passwords the printed form is the ideal hash of the machine |
| Hashing.FleetSettlesIffComparable | authn/password.go:212-221 | two configurations rehash each other for ever exactly when neither is at least the other |
| Scoped.Query.Scoped | scoped.go:68-82 | the clause list is the ownership predicate and the options in one group |
| Scoped.Query.Scope | authz/scope.go:48-59 | anonymous, bypass and owner add their clause, or none |
| Scoped.Query.GroupOf | scoped.go:51-59 | the saved list is restored, the options' clauses follow as one group, or nothing if they added none |
| Scoped.ReadsList | docs/gotchas.md:77-87 | the rendered text, read with AND over OR, is the tree of its clause list |
| Scoped.ScopedSelectsExactly | scoped.go:68-82 | exactly the rows that meet the conditions already there, that are the caller's (any, for the exempt role) and of which the options, read left to right with AND binding tighter, hold |
| Scoped.OptionsSelect | scoped.go:51-59 | the options by themselves select a row exactly when, so read, they hold of it, groups nested to any depth |
| Scoped.AnonymousSelectsNothing | authz/scope.go:49-52 | whatever the options, an anonymous caller gets no row |
| Scoped.BypassNeedsTheRole | authz/scope.go:74-97 | the bypass goes exactly to identified callers holding the named role, and naming none installs none |
| Scoped.SiblingsAreSafeIffNoOr | docs/gotchas.md:77-87 | scope and options as siblings return only the caller's rows exactly when the options put no OR at the top level, and otherwise return a row of any other owner |
| Guard.Tally.Walk | guard.go:107-124 | counts, total and depth grow by the structural sums and maximum of the set |
| Guard.Intercept | guard.go:68-100 | refused exactly when a sensitive field occurs twice in the definitions, else too many fields, else too deep |
| Guard.ReadsOffTheText | guard.go:107-124 | the counts, the total and the height are those read off the document's text, brace by brace |
| Guard.OrderDoesNotMatter | guard.go:76-83 | the numbers do not depend on the order definitions are visited |
| Guard.InlinedFieldsAreCounted | guard.go:79-83 | a field name of the inlined document has a count of at least 1 |
| Guard.ExpansionIsComplete | guard.go:119-122 | for acyclic fragments the bounded expansion is the full inlining |
| Guard.SpreadInlinesItsFragment | guard.go:119-122 | for acyclic fragments a spread inlines to its fragment's own full inlining |
| Guard.InlinedDepthIsBounded | guard.go:102-124 | with recorded depth D and F fragments the inlined depth is at most D + F(D−1), cyclic spreads or not |
| Guard.DepthBoundIsMet | guard.go:95-98 | for every k and n, a chain of n fragments of k fields behind an operation of k fields is recorded at D = k + 1 and attains that bound |
| Rls.Build | authz/rls.go:110-140 | the loops build the specified statement, or refuse before a transaction |
| Rls.SettingsCarryTheCaller | authz/rls.go:110-146 | refused exactly for a malformed or reserved name; otherwise placeholders and arguments match one to one, app.user_id ends as the caller's id, app.roles as the caller's roles between commas, both empty for no caller, the extras as given, and everything else as it was |
| Rls.RolesReadBack | authz/rls.go:110-116 | splitting the setting at commas gives the caller's roles back exactly when there are some and none holds a comma |
| Rls.NamesAre | authz/rls.go:74 | the names accepted for extras, character by character |
| Rls.StatementIs | authz/rls.go:132-140 | the text of the statement, spelled out for any number of extras |
| Rls.MapOrderIsInvisible | authz/rls.go:103-130 | the outcome does not depend on map iteration order |
| Rls.PlaceholdersMatch | authz/rls.go:134-139 | a statement for n extras has 2 + 2n placeholders |
| Directive.StepUpIsBacked | authz/directive.go:168-173 | letting an mfa field through implies a RecordMFA on that session and user, live then, within window + skew |
| Directive.SkewIsTight | authz/directive.go:121-122 | a lagging process clock admits a stamp older by the whole skew |
| Directive.EveryDemandIsMet | authz/directive.go:153-187 | an authenticated caller passes exactly when role, step-up and proofs are all met; a missing role is reported first, a missing step-up before any proof, and then what the proofs say |
| Directive.DemandsOnlyNarrow | authz/directive.go:126-187 | adding demands to a field never admits a caller denied before |
| Directive.WhoIsKeptOut | authz/directive.go:131-186 | anonymous callers reach only fields that say so and demand nothing; an empty proof list admits nobody |
| Client.PlaceIsBoundIffBarFree | docs/e2ee-client.ts:107-112 | a place's string belongs to it alone exactly when no field holds a bar |
| Client.Seal | docs/e2ee-client.ts:114-125 | the buffer is version, algorithm, nonce, ciphertext |
| Client.OpenSealed | docs/e2ee-client.ts:114-141 | a blob opens exactly under its key and at its place |
| Client.HeaderIsChecked | docs/e2ee-client.ts:127-141 | another version or algorithm byte, or another nonce, is refused |
| Client.EncryptRecord | docs/e2ee-client.ts:79-92 | the record is sealed under the data key, the data key under the vault key, and the data key is wiped |
| Client.RecordOpensExactly | docs/e2ee-client.ts:94-105 | a record opens exactly under its vault key and place, its data key being 16, 24 or 32 bytes; parts of two records never open together |
| Client.MovedRecordStaysShut | docs/e2ee-client.ts:107-112 | a record moved to another row, field or owner does not open |
| Client.WrapVaultKey | docs/e2ee-client.ts:63-65 | the wrapped vault key is bound to its owner |
| Client.RewrapKeepsRecords | docs/e2ee-client.ts:57-69 | after a password change the new key opens the vault key, the old one does not, and every record still decrypts |
| Client.B64UrlIsCanonical | docs/e2ee-client.ts:169-176 | the client's base64url is the canonical unpadded form and reads back |
| Client.Derive | docs/e2ee-client.ts:35-55 | the derived secret always passes the server's shape check, and the master key is wiped |

## Left out

- HTTP: middleware, transport guard, cookies, `session/jar.go`, gqlgen and luima wiring, error presenters.
- `session/jwt.go`: its verification loop is inside a library.
- Mail, audit events and logging: best-effort side channels outside the caller's answer.
- Time costs: `VerifyDummy` as a cost and the queueing of the hashing bound; only its refusal is modelled.
- Argon2, bcrypt, SHA-256, HMAC, HKDF and AES-GCM internals: ideal functions, as said above.
- `user_agent` and `ip` columns of sessions, `updated_at`, `created_at` of users and tokens: never read back by a decision.
- Hard deletion and its cascades, address changes and undeletion: the library has no such statement; a soft delete is an event.
- `ValidatePassword`'s rune count: the shape check is a parameter of the configuration.
- Unicode: lower-casing, trimming and white space are ASCII; password length for bcrypt is counted in characters.
- Rounding of counter ages and `make_interval` seconds to floating point: times are whole microseconds.
- `Accounts` and `Vaults` options, `NewVaults` validation, `ValidateBaseURL`, links in mail: one-branch checks.
- `0002` and `0004` migrations, the migrations runner, `AssertAuthCoverage`, `AssertDirectivesWired`, the re-export shim.
- `WhereNotGroup`, join conditions and options that rewrite a query's earlier clauses.
- `RunInTransaction` and what the callback does: the settings statement ends the model.
- The two refusal messages of `WithRLSSettings` are one outcome; which one a map with both kinds of bad key gives depends on iteration order.
- `recoveryKey`, `newVaultKey` and the choice between Argon2id and PBKDF2 in the client: calls into ideal functions.
- Scoped.ScopedSelectsExactly: asks that the clauses already on the query hold no top-level OR, because the library's own callers start from an empty list.
- Enumeration.AccountsAreIndistinguishable: leaves out calls that are about the account itself. Its own requests name what it owns; registering, inviting or resetting its address takes one statement more where it exists, so the calls do not stay in step, and for Register and RequestPasswordReset the answers are compared by `RegisterRevealsNothing` and `ResetRequestRevealsNothing` instead. Invite returns its link to a caller who is trusted with it.
