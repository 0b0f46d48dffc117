/** The login counters over whole runs of attempts. */
module BackoffTheorems {
  import opened Prelude
  import opened Tables
  import opened Sql
  import opened Backoff
  import opened Passwords
  import opened Programs

  /** One login attempt that does not succeed: it waits, reads both counters, takes `thinking` to
      verify the guess, and records the failure. A closed window ends it at the first step. */
  datatype Attempt = Attempt(wait: nat, email: string, ip: string, thinking: nat)

  predicate Closed(db: DB, email: string, ip: string) {
    exists i :: 0 <= i < |CounterRows(db, email, ip)| && Blocks(CounterRows(db, email, ip)[i])
  }

  function Elapsed(db: DB, time: nat): DB {
    db.(now := db.now + time)
  }

  ghost function Try(cfg: Config, db: DB, a: Attempt): DB {
    var waited := Elapsed(db, a.wait);
    if Closed(waited, a.email, a.ip) then waited
    else Exec(cfg, Elapsed(waited, a.thinking), FailureStmt(a.email, a.ip))
  }

  ghost function TryAll(cfg: Config, db: DB, attempts: seq<Attempt>): DB
    decreases |attempts|
  {
    if attempts == [] then db else TryAll(cfg, Try(cfg, db, attempts[0]), attempts[1..])
  }

  /** The least time between the first and the n-th recorded failure on one account, or from one client. */
  function LeastSpan(scope: Scope, n: nat): int {
    if n <= 1 then 0 else LeastSpan(scope, n - 1) + DelayFor(scope, n - 1)
  }

  /** Failures that cost nothing: the first on an account, the first ten from a client. */
  function Allowance(scope: Scope): nat {
    if scope == ByUser then 1 else 10
  }

  lemma {:induction false} FreeOfCharge(scope: Scope, n: nat)
    requires n <= Allowance(scope) + 1
    ensures LeastSpan(scope, n) == 0
  {
    if n > 1 {
      FreeOfCharge(scope, n - 1);
    }
  }

  lemma FirstWindows(scope: Scope)
    ensures DelayFor(scope, Allowance(scope) + 1) == 1_000_000 && DelayFor(scope, Allowance(scope) + 2) == 2_000_000
    ensures DelayFor(scope, Allowance(scope) + 3) == 4_000_000 && DelayFor(scope, Allowance(scope) + 4) == 8_000_000
    ensures DelayFor(scope, Allowance(scope) + 5) == 16_000_000
  {
    assert Pow2(4) == 2 * Pow2(3) == 4 * Pow2(2) == 8 * Pow2(1) == 16;
  }

  /** Six failures past the allowance 31 seconds have gone by, and 30 more for each one after. */
  lemma {:induction false} LeastSpanIs(scope: Scope, n: nat)
    requires n >= Allowance(scope) + 6
    ensures LeastSpan(scope, n) == 31_000_000 + 30_000_000 * (n - Allowance(scope) - 6)
  {
    var a := Allowance(scope);
    if n == a + 6 {
      hide DelayFor;
      FirstWindows(scope);
      FreeOfCharge(scope, a + 1);
      assert LeastSpan(scope, a + 3) == 3_000_000;
      assert LeastSpan(scope, a + 5) == 15_000_000;
    } else {
      LeastSpanIs(scope, n - 1);
    }
  }

  /** What an attempt is counted under: its account, and its client where one is known. */
  predicate CountsUnder(a: Attempt, key: (Scope, string)) {
    if key.0 == ByUser then a.email == key.1 else a.ip == key.1 && a.ip != ""
  }

  /** The counter shows n failures, the last of them LeastSpan(n) or more after `first`. */
  ghost predicate Paced(db: DB, key: (Scope, string), first: int) {
    key in db.attempts ==>
      var c := db.attempts[key];
      c.failures >= 1 && c.lastFail <= db.now && c.lastFail >= first + LeastSpan(key.0, c.failures)
  }

  lemma OpenForKey(db: DB, a: Attempt, key: (Scope, string))
    requires !Closed(db, a.email, a.ip) && CountsUnder(a, key)
    requires key in db.attempts && db.attempts[key].lastFail <= db.now
    ensures db.now - db.attempts[key].lastFail >= DelayFor(key.0, db.attempts[key].failures)
  {
    hide DelayFor;
    var rows := CounterRows(db, a.email, a.ip);
    var row := CounterRow(key.0, db.attempts[key], db.now - db.attempts[key].lastFail);
    assert rows[if key.0 == ByUser then 0 else |rows| - 1] == row;
    assert !Blocks(row);
    DelayMonotone(key.0, 0, db.attempts[key].failures);
  }

  lemma FailureBumps(cfg: Config, db: DB, a: Attempt, key: (Scope, string))
    ensures var after := Exec(cfg, db, FailureStmt(a.email, a.ip));
            && after.now == db.now
            && (if CountsUnder(a, key)
                then && key in after.attempts
                     && after.attempts[key]
                        == Counter(if key in db.attempts then db.attempts[key].failures + 1 else 1, db.now)
                else (key in after.attempts <==> key in db.attempts)
                     && (key in db.attempts ==> after.attempts[key] == db.attempts[key]))
  {
  }

  lemma TryKeepsPace(cfg: Config, db: DB, a: Attempt, key: (Scope, string), first: int)
    requires Paced(db, key, first) && key in db.attempts
    ensures Paced(Try(cfg, db, a), key, first) && key in Try(cfg, db, a).attempts
    ensures Try(cfg, db, a).attempts[key].failures >= db.attempts[key].failures
  {
    hide DelayFor, Exec, Closed, FailureStmt;
    var waited := Elapsed(db, a.wait);
    if !Closed(waited, a.email, a.ip) {
      FailureBumps(cfg, Elapsed(waited, a.thinking), a, key);
      if CountsUnder(a, key) {
        OpenForKey(waited, a, key);
        var n := db.attempts[key].failures;
        assert LeastSpan(key.0, n + 1) == LeastSpan(key.0, n) + DelayFor(key.0, n);
      }
    }
  }

  lemma {:induction false} RunKeepsPace(cfg: Config, db: DB, attempts: seq<Attempt>, key: (Scope, string), first: int)
    requires Paced(db, key, first) && key in db.attempts
    ensures Paced(TryAll(cfg, db, attempts), key, first) && key in TryAll(cfg, db, attempts).attempts
    decreases |attempts|
  {
    hide Paced, Try;
    if attempts != [] {
      TryKeepsPace(cfg, db, attempts[0], key, first);
      RunKeepsPace(cfg, Try(cfg, db, attempts[0]), attempts[1..], key, first);
    }
  }

  /** However attempts on any addresses from anywhere are ordered, one after the other: once the counter of
      an account shows n >= 7 failures, at least 31 + 30 (n - 7) seconds have passed since the failure that
      created it; and once that of a client shows n >= 16, whatever accounts it tried, 31 + 30 (n - 16). */
  lemma GuessingIsRateBound(cfg: Config, db: DB, first: Attempt, attempts: seq<Attempt>, key: (Scope, string))
    requires CountsUnder(first, key) && key !in db.attempts && !Closed(Elapsed(db, first.wait), first.email, first.ip)
    ensures var start := Try(cfg, db, first);
            var end := TryAll(cfg, start, attempts);
            var a := if key.0 == ByUser then 7 else 16;
            && key in end.attempts
            && var n := end.attempts[key].failures;
               n >= a ==> end.attempts[key].lastFail >= start.now + 31_000_000 + 30_000_000 * (n - a)
  {
    var start := Try(cfg, db, first);
    FailureBumps(cfg, Elapsed(Elapsed(db, first.wait), first.thinking), first, key);
    assert LeastSpan(key.0, 1) == 0;
    hide Try, TryAll, Exec, DelayFor, Closed;
    RunKeepsPace(cfg, start, attempts, key, start.now);
    var n := TryAll(cfg, start, attempts).attempts[key].failures;
    if n >= Allowance(key.0) + 6 {
      LeastSpanIs(key.0, n);
    }
  }

  /** No lockout: thirty seconds after both last recorded failures, the window is open. */
  lemma SelfRecovers(db: DB, email: string, ip: string)
    requires (ByUser, email) in db.attempts ==> db.now - db.attempts[(ByUser, email)].lastFail >= 30_000_000
    requires (ByIP, ip) in db.attempts ==> db.now - db.attempts[(ByIP, ip)].lastFail >= 30_000_000
    ensures !Closed(db, email, ip)
  {
    forall i | 0 <= i < |CounterRows(db, email, ip)|
      ensures !Blocks(CounterRows(db, email, ip)[i])
    {
      DelayMonotone(CounterRows(db, email, ip)[i].scope, 0, CounterRows(db, email, ip)[i].counter.failures);
    }
  }

  /** A failure on an account that already had one closes its window for everyone. */
  lemma RecordClosesWindow(cfg: Config, db: DB, email: string, ip: string, other: string)
    requires (ByUser, email) in db.attempts && db.attempts[(ByUser, email)].failures >= 1
    ensures Closed(Exec(cfg, db, FailureStmt(email, ip)), email, other)
  {
    var once := Exec(cfg, db, FailureStmt(email, ip));
    assert CounterRows(once, email, other)[0] == CounterRow(ByUser, once.attempts[(ByUser, email)], 0);
    DelayMonotone(ByUser, 2, once.attempts[(ByUser, email)].failures);
    assert DelayFor(ByUser, 2) == SECOND * Pow2(0) == SECOND;
    assert Blocks(CounterRows(once, email, other)[0]);
  }

  /** An attempt is what a Login with a wrong guess, or at an address without an account, does. */
  lemma FailedLoginIsATry(cfg: Config, s: Store, a: Attempt, password: string, caller: Option<Principal>,
                          oracle: nat -> Choice)
    requires oracle(0).env == [Tick(a.wait)] && oracle(1).env == [] && oracle(2).env == [Tick(a.thinking)]
    requires !oracle(0).fault && !oracle(1).fault && !oracle(2).fault && !oracle(1).busy
    requires forall u :: u in s.db.users && LiveAddress(s.db.users[u], a.email) && s.db.users[u].hash.Some? ==>
               !s.db.users[u].hash.value.Unreadable? && !Accepts(s.db.users[u].hash.value, password)
    ensures var end := Drive(cfg, s, LoginCheck(a.email, a.ip, password, caller), oracle, 0);
            && end.0.db == Try(cfg, s.db, a)
            && end.1 == Err(if Closed(Elapsed(s.db, a.wait), a.email, a.ip) then WindowOpen else InvalidCredentials)
  {
    hide Exec, CounterRows, LiveAddress, Accepts, Drive;
    DriveDone(cfg, oracle);
    var waited := Next(cfg, s, Tick(a.wait));
    assert After(cfg, s, oracle(0).env) == After(cfg, waited, []) == waited;
    DriveOnce(cfg, s, LoginCheck(a.email, a.ip, password, caller), oracle, 0);
    ReadEffects(cfg, waited.db, a.email, a.ip);
    if !Closed(waited.db, a.email, a.ip) {
      WrongGuessIsRecorded(cfg, Next(cfg, waited, Run(Attempts(a.email, a.ip))), a, password, caller, oracle);
    }
  }

  lemma WrongGuessIsRecorded(cfg: Config, s: Store, a: Attempt, password: string, caller: Option<Principal>,
                             oracle: nat -> Choice)
    requires oracle(1).env == [] && oracle(2).env == [Tick(a.thinking)]
    requires !oracle(1).fault && !oracle(2).fault && !oracle(1).busy
    requires forall u :: u in s.db.users && LiveAddress(s.db.users[u], a.email) && s.db.users[u].hash.Some? ==>
               !s.db.users[u].hash.value.Unreadable? && !Accepts(s.db.users[u].hash.value, password)
    ensures var end := Drive(cfg, s, LoginRead(a.email, a.ip, password, caller), oracle, 1);
            && end.0.db == Exec(cfg, Elapsed(s.db, a.thinking), FailureStmt(a.email, a.ip))
            && end.1 == Err(InvalidCredentials)
  {
    hide Exec, Answer, Drive, LiveAddress, Accepts;
    DriveDone(cfg, oracle);
    var p1, p2 := LoginRead(a.email, a.ip, password, caller), LoginFail(a.email, a.ip);
    DriveOnce(cfg, s, p1, oracle, 1);
    WrongGuess(cfg, s.db, p1, oracle(1));
    ReadEffects(cfg, s.db, a.email, a.ip);
    var selected := Next(cfg, s, Run(LoginSelect(a.email)));
    var thought := Next(cfg, selected, Tick(a.thinking));
    assert After(cfg, selected, oracle(2).env) == After(cfg, thought, []) == thought;
    DriveOnce(cfg, selected, p2, oracle, 2);
  }

  lemma ReadEffects(cfg: Config, db: DB, email: string, ip: string)
    ensures Exec(cfg, db, Attempts(email, ip)) == db && Exec(cfg, db, LoginSelect(email)) == db
  {
  }

  lemma WrongGuess(cfg: Config, db: DB, p: Proc, ch: Choice)
    requires p.LoginRead? && !ch.busy
    requires forall u :: u in db.users && LiveAddress(db.users[u], p.email) && db.users[u].hash.Some? ==>
               !db.users[u].hash.value.Unreadable? && !Accepts(db.users[u].hash.value, p.password)
    ensures Resume(cfg, p, Answer(cfg, db, LoginSelect(p.email)), ch) == LoginFail(p.email, p.ip)
  {
  }
}
