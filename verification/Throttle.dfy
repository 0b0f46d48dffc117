/** The login counters under concurrency: what the backoff windows still guarantee when several logins
    on one account are in flight between their check and their record. */
module Throttle {
  import opened Prelude
  import opened Passwords
  import opened Tables
  import opened Text
  import opened Sql
  import opened Backoff
  import opened Programs
  import opened Machine
  import opened MachineInvariants
  import opened BackoffTheorems

  // ---- the ledger of one account ----

  /** The count the counter started from; when each failed login was recorded, how many of them were
      on record when it checked the window, and the same for the logins still in flight. */
  datatype Ledger = Ledger(base: nat, times: seq<int>, saw: seq<nat>, open: map<nat, nat>)

  /** Past its check and not yet past its record. */
  predicate InFlight(p: Proc, e: string) {
    (p.LoginRead? || p.LoginFail?) && p.email == e
  }

  function Flying(w: World, e: string): set<nat> {
    set tid | tid in w.procs && InFlight(w.procs[tid], e)
  }

  /** The logins in flight before `k` failures were on record. */
  function Early(open: map<nat, nat>, k: nat): set<nat> {
    set tid | tid in open && open[tid] < k
  }

  /** The failures past the k-th whose logins had checked before it. */
  function Late(saw: seq<nat>, k: nat): set<nat> {
    set i | k <= i < |saw| && saw[i] < k
  }

  /** A login that saw `j` failures had waited out the window they left. */
  predicate Waited(base: nat, times: seq<int>, j: nat, at: int) {
    j <= |times| && (j > 0 ==> at >= times[j - 1] + DelayFor(ByUser, base + j))
  }

  ghost predicate Booked(l: Ledger, now: int, m: nat) {
    && |l.saw| == |l.times|
    && (forall i, j :: 0 <= i <= j < |l.times| ==> l.times[i] <= l.times[j] <= now)
    && (forall tid :: tid in l.open ==> Waited(l.base, l.times, l.open[tid], now))
    && (forall i :: 0 <= i < |l.times| ==> l.saw[i] <= i && Waited(l.base, l.times, l.saw[i], l.times[i]))
    && (forall k :: 1 <= k <= |l.times| ==> |Early(l.open, k)| + |Late(l.saw, k)| < m)
  }

  function Checked(l: Ledger, tid: nat): Ledger {
    l.(open := l.open[tid := |l.times|])
  }

  function Recorded(l: Ledger, tid: nat, now: int): Ledger
    requires tid in l.open
  {
    Ledger(l.base, l.times + [now], l.saw + [l.open[tid]], l.open - {tid})
  }

  function Dropped(l: Ledger, tid: nat): Ledger {
    l.(open := l.open - {tid})
  }

  lemma PassKeepsBooks(l: Ledger, now: int, later: int, m: nat)
    requires Booked(l, now, m) && now <= later
    ensures Booked(l, later, m)
  {
  }

  lemma CheckKeepsBooks(l: Ledger, now: int, m: nat, tid: nat)
    requires Booked(l, now, m) && tid !in l.open
    requires |l.times| > 0 ==> now >= l.times[|l.times| - 1] + DelayFor(ByUser, l.base + |l.times|)
    ensures Booked(Checked(l, tid), now, m)
  {
    hide DelayFor;
    forall k | 1 <= k <= |l.times|
      ensures Early(Checked(l, tid).open, k) == Early(l.open, k)
    {
    }
  }

  lemma DropKeepsBooks(l: Ledger, now: int, m: nat, tid: nat)
    requires Booked(l, now, m)
    ensures Booked(Dropped(l, tid), now, m)
  {
    hide DelayFor;
    forall k | 1 <= k <= |l.times|
      ensures |Early(Dropped(l, tid).open, k)| <= |Early(l.open, k)|
    {
      SubsetSize(Early(Dropped(l, tid).open, k), Early(l.open, k));
    }
  }

  lemma SubsetSize<T>(a: set<T>, b: set<T>)
    requires a <= b
    ensures |a| <= |b|
  {
    assert b == a + (b - a);
  }

  lemma EarlyAfter(l: Ledger, now: int, tid: nat, k: nat)
    requires tid in l.open
    ensures |Early(Recorded(l, tid, now).open, k)| == |Early(l.open, k)| - if l.open[tid] < k then 1 else 0
  {
    var after := Early(Recorded(l, tid, now).open, k);
    if l.open[tid] < k {
      assert Early(l.open, k) == after + {tid};
    } else {
      assert Early(l.open, k) == after;
    }
  }

  lemma LateAfter(saw: seq<nat>, j: nat, k: nat)
    requires k <= |saw|
    ensures |Late(saw + [j], k)| == |Late(saw, k)| + if j < k then 1 else 0
  {
    if j < k {
      assert Late(saw + [j], k) == Late(saw, k) + {|saw|};
    } else {
      assert Late(saw + [j], k) == Late(saw, k);
    }
  }

  lemma RecordKeepsCounts(l: Ledger, now: int, m: nat, tid: nat, k: nat)
    requires Booked(l, now, m) && tid in l.open && |l.open| <= m && 1 <= k <= |l.times| + 1
    ensures var r := Recorded(l, tid, now); |Early(r.open, k)| + |Late(r.saw, k)| < m
  {
    hide DelayFor, Waited;
    var r := Recorded(l, tid, now);
    if k <= |l.times| {
      EarlyAfter(l, now, tid, k);
      LateAfter(l.saw, l.open[tid], k);
    } else {
      assert Late(r.saw, k) == {};
      assert Early(r.open, k) <= l.open.Keys - {tid};
      SubsetSize(Early(r.open, k), l.open.Keys - {tid});
      assert |l.open.Keys| == |l.open|;
    }
  }

  lemma RecordKeepsBooks(l: Ledger, now: int, m: nat, tid: nat)
    requires Booked(l, now, m) && tid in l.open && |l.open| <= m
    ensures Booked(Recorded(l, tid, now), now, m)
  {
    hide DelayFor, Early, Late;
    var r := Recorded(l, tid, now);
    forall k | 1 <= k <= |r.times|
      ensures |Early(r.open, k)| + |Late(r.saw, k)| < m
    {
      RecordKeepsCounts(l, now, m, tid, k);
    }
  }

  function Range(k: nat, n: nat): (r: set<nat>)
    requires k <= n
    ensures |r| == n - k && forall i :: i in r <==> k <= i < n
    decreases n
  {
    if k == n then {} else Range(k, n - 1) + {n - 1}
  }

  /** The n-th failure came a whole window after the (n − m)-th. */
  predicate Spaced(l: Ledger, m: nat, n: nat)
    requires m < n <= |l.times|
  {
    l.times[n - 1] >= l.times[n - 1 - m] + DelayFor(ByUser, l.base + n - m)
  }

  /** With at most m logins in flight at a time, the n-th failure comes a whole window after the
      (n − m)-th: one of any m failures in a row had checked after the failure before them. */
  lemma FailuresAreSpaced(l: Ledger, now: int, m: nat, n: nat)
    requires Booked(l, now, m) && m < n <= |l.times|
    ensures Spaced(l, m, n)
  {
    hide DelayFor;
    var k := n - m;
    assert |Early(l.open, k)| + |Late(l.saw, k)| < m;
    if Range(k, n) <= Late(l.saw, k) {
      SubsetSize(Range(k, n), Late(l.saw, k));
    }
    var i :| i in Range(k, n) && i !in Late(l.saw, k);
    DelayMonotone(ByUser, l.base + k, l.base + l.saw[i]);
    assert Waited(l.base, l.times, l.saw[i], l.times[i]);
  }

  /** The least time from the first failure to the n-th with m logins in flight. */
  function LeastSpanOf(base: nat, n: nat, m: nat): int
    requires m > 0
    decreases n
  {
    if n <= m then 0 else LeastSpanOf(base, n - m, m) + DelayFor(ByUser, base + n - m)
  }

  lemma {:induction false} SpansAddUp(l: Ledger, now: int, m: nat, n: nat)
    requires Booked(l, now, m) && m > 0 && 1 <= n <= |l.times|
    ensures l.times[n - 1] >= l.times[0] + LeastSpanOf(l.base, n, m)
    decreases n
  {
    hide DelayFor;
    if n > m {
      SpansAddUp(l, now, m, n - m);
      FailuresAreSpaced(l, now, m, n);
    }
  }

  /** One at a time, failures already on record only lengthen the curve. */
  lemma {:induction false} OneInFlightIsSequential(base: nat, n: nat)
    ensures LeastSpanOf(base, n, 1) >= LeastSpan(ByUser, n)
    ensures base == 0 ==> LeastSpanOf(base, n, 1) == LeastSpan(ByUser, n)
  {
    if n > 1 {
      OneInFlightIsSequential(base, n - 1);
      DelayMonotone(ByUser, n - 1, base + n - 1);
    }
  }

  // ---- the ledger kept along a run ----

  /** No login on the account succeeds at this step: a success is what clears the counter. */
  predicate NoSuccess(cfg: Config, w: World, act: Act, e: string) {
    var st := StatementOf(cfg, w, act);
    st.Some? && st.value.ResetAttempts? ==> st.value.email != e
  }

  /** Nothing but failing logins writes the account's counter at this step. */
  predicate OnlyLogins(cfg: Config, w: World, act: Act, e: string) {
    var st := StatementOf(cfg, w, act);
    st.Some? && (st.value.RecordBoth? || st.value.RecordUser?) && st.value.email == e ==> w.procs[act.tid].LoginFail?
  }

  /** Every state of the run has at most m logins on the account in flight, and none succeeds. */
  ghost predicate Guessing(cfg: Config, w: World, acts: seq<Act>, e: string, m: nat)
    decreases |acts|
  {
    && |Flying(w, e)| <= m
    && (acts == [] || (NoSuccess(cfg, w, acts[0], e) && Guessing(cfg, Step(cfg, w, acts[0]), acts[1..], e, m)))
  }

  ghost predicate NoChangeFails(cfg: Config, w: World, acts: seq<Act>, e: string)
    decreases |acts|
  {
    acts == [] || (OnlyLogins(cfg, w, acts[0], e) && NoChangeFails(cfg, Step(cfg, w, acts[0]), acts[1..], e))
  }

  ghost function Booking(cfg: Config, w: World, act: Act, e: string, l: Ledger): Ledger {
    if !act.Advance? || act.tid !in w.procs then l
    else
      var p := w.procs[act.tid];
      if InFlight(Step(cfg, w, act).procs[act.tid], e) then if InFlight(p, e) then l else Checked(l, act.tid)
      else if !InFlight(p, e) then l
      else if p.LoginFail? && !act.choice.fault && act.tid in l.open then Recorded(l, act.tid, w.store.db.now)
      else Dropped(l, act.tid)
  }

  ghost function LedgerAfter(cfg: Config, w: World, acts: seq<Act>, e: string, l: Ledger): Ledger
    decreases |acts|
  {
    if acts == [] then l else LedgerAfter(cfg, Step(cfg, w, acts[0]), acts[1..], e, Booking(cfg, w, acts[0], e, l))
  }

  function CounterOf(db: DB, e: string): Option<Counter> {
    if (ByUser, e) in db.attempts then Some(db.attempts[(ByUser, e)]) else None
  }

  function CountOf(db: DB, e: string): nat {
    if (ByUser, e) in db.attempts then db.attempts[(ByUser, e)].failures else 0
  }

  /** The counter row has every failure of the ledger, and perhaps more from elsewhere. */
  ghost predicate Tells(l: Ledger, db: DB, e: string) {
    l.times != [] ==>
      && (ByUser, e) in db.attempts && db.attempts[(ByUser, e)].failures >= l.base + |l.times|
      && db.attempts[(ByUser, e)].lastFail >= l.times[|l.times| - 1]
  }

  /** The counter row has just what it started with and the failures of the ledger. */
  ghost predicate TellsExactly(l: Ledger, db: DB, e: string, start: Option<Counter>) {
    CounterOf(db, e) == if l.times == [] then start else Some(Counter(l.base + |l.times|, l.times[|l.times| - 1]))
  }

  ghost predicate LedgerOk(l: Ledger, w: World, e: string, m: nat) {
    && Booked(l, w.store.db.now, m) && Tells(l, w.store.db, e) && CountOf(w.store.db, e) >= l.base
    && l.open.Keys == Flying(w, e)
  }

  /** What one statement does to the counter: nothing, or one more failure now. */
  lemma CounterSteps(cfg: Config, db: DB, st: Stmt, e: string)
    requires st.ResetAttempts? ==> st.email != e
    ensures var after := Exec(cfg, db, st);
            && after.now == db.now
            && CounterOf(after, e) == if (st.RecordBoth? || st.RecordUser?) && st.email == e
                                      then Some(Counter(CountOf(db, e) + 1, db.now)) else CounterOf(db, e)
  {
  }

  predicate Records(w: World, act: Act, e: string) {
    act.Advance? && act.tid in w.procs && w.procs[act.tid].LoginFail? && w.procs[act.tid].email == e
      && !act.choice.fault
  }

  /** How the step of one call moves the clock and the account's counter. */
  lemma CounterMoves(cfg: Config, w: World, act: Act, e: string)
    requires NoSuccess(cfg, w, act, e)
    ensures var db := w.store.db; var after := Step(cfg, w, act).store.db;
            && db.now <= after.now && (act.Advance? ==> after.now == db.now)
            && (|| CounterOf(after, e) == CounterOf(db, e)
                || CounterOf(after, e) == Some(Counter(CountOf(db, e) + 1, db.now)))
            && (Records(w, act, e) ==> CounterOf(after, e) == Some(Counter(CountOf(db, e) + 1, db.now)))
            && (OnlyLogins(cfg, w, act, e) && !Records(w, act, e) ==> CounterOf(after, e) == CounterOf(db, e))
  {
    hide Exec, Answer, Resume, CounterOf, CountOf;
    var st := StatementOf(cfg, w, act);
    if st.Some? {
      CounterSteps(cfg, w.store.db, st.value, e);
    } else {
      OutsideCounter(cfg, w, act, e);
    }
  }

  lemma OutsideCounter(cfg: Config, w: World, act: Act, e: string)
    requires StatementOf(cfg, w, act).None?
    ensures CounterOf(Step(cfg, w, act).store.db, e) == CounterOf(w.store.db, e)
  {
  }

  /** What takes a call into the air, and out of it. */
  lemma Takeoffs(cfg: Config, p: Proc, r: Reply, ch: Choice, e: string)
    ensures var q := Resume(cfg, p, r, ch);
            && (InFlight(q, e) && !InFlight(p, e) ==>
                 p.LoginCheck? && p.email == e && r.RowCounters? && forall i :: 0 <= i < |r.rows| ==>
                     !Blocks(r.rows[i]))
            && (InFlight(p, e) && p.LoginFail? ==> !InFlight(q, e))
  {
    hide Verify, DelayFor;
  }

  lemma NoTakeoffAtStart(cfg: Config, call: Call, e: string)
    ensures !InFlight(Begin(cfg, call), e)
  {
  }

  /** A call that gets past the check had both windows open before it. */
  lemma TakeoffOpens(cfg: Config, w: World, tid: nat, ch: Choice, e: string)
    requires tid in w.procs
    requires !InFlight(w.procs[tid], e) && InFlight(Step(cfg, w, Advance(tid, ch)).procs[tid], e)
    ensures w.procs[tid].LoginCheck? && w.procs[tid].email == e && !Closed(w.store.db, e, w.procs[tid].ip)
  {
    hide Resume, Exec, DelayFor;
    var p := w.procs[tid];
    var r := Perform(cfg, w.store, p, ch).1;
    Takeoffs(cfg, p, r, ch, e);
    assert r == RowCounters(CounterRows(w.store.db, e, p.ip));
  }

  /** So it had waited out the account's window, whoever's failures left it. */
  lemma TakeoffWaits(cfg: Config, w: World, tid: nat, ch: Choice, e: string, l: Ledger)
    requires tid in w.procs && Tells(l, w.store.db, e)
    requires l.times != [] ==> l.times[|l.times| - 1] <= w.store.db.now
    requires !InFlight(w.procs[tid], e) && InFlight(Step(cfg, w, Advance(tid, ch)).procs[tid], e)
    ensures l.times != [] ==> w.store.db.now >= l.times[|l.times| - 1] + DelayFor(ByUser, l.base + |l.times|)
  {
    hide Step, DelayFor;
    TakeoffOpens(cfg, w, tid, ch, e);
    var db := w.store.db;
    if l.times != [] {
      var c := db.attempts[(ByUser, e)];
      assert CounterRows(db, e, w.procs[tid].ip)[0] == CounterRow(ByUser, c, db.now - c.lastFail);
      DelayMonotone(ByUser, l.base + |l.times|, c.failures);
    }
  }

  lemma AdvanceFlies(cfg: Config, w: World, tid: nat, ch: Choice, e: string)
    requires tid in w.procs
    ensures var t := Step(cfg, w, Advance(tid, ch));
            && tid in t.procs
            && Flying(t, e) == if InFlight(t.procs[tid], e) then Flying(w, e) + {tid} else Flying(w, e) - {tid}
  {
    hide Perform, Resume, InFlight;
  }

  lemma AdvanceKeepsBooks(cfg: Config, w: World, tid: nat, ch: Choice, e: string, m: nat, l: Ledger)
    requires LedgerOk(l, w, e, m) && |Flying(w, e)| <= m && tid in w.procs
    ensures Booked(Booking(cfg, w, Advance(tid, ch), e, l), w.store.db.now, m)
  {
    var now := w.store.db.now;
    assert l.times != [] ==> l.times[|l.times| - 1] <= now;
    hide Booked, DelayFor, Step, Tells;
    var p := w.procs[tid];
    var q := Step(cfg, w, Advance(tid, ch)).procs[tid];
    assert tid in Flying(w, e) <==> InFlight(p, e);
    assert |l.open.Keys| == |l.open|;
    if InFlight(q, e) {
      if !InFlight(p, e) {
        TakeoffWaits(cfg, w, tid, ch, e, l);
        CheckKeepsBooks(l, now, m, tid);
      }
    } else if InFlight(p, e) {
      if p.LoginFail? && !ch.fault {
        RecordKeepsBooks(l, now, m, tid);
      } else {
        DropKeepsBooks(l, now, m, tid);
      }
    }
  }

  lemma FailureLands(cfg: Config, w: World, tid: nat, ch: Choice, e: string)
    requires tid in w.procs && w.procs[tid].LoginFail?
    ensures !InFlight(Step(cfg, w, Advance(tid, ch)).procs[tid], e)
  {
  }

  lemma AdvanceKeepsKeys(cfg: Config, w: World, tid: nat, ch: Choice, e: string, l: Ledger)
    requires l.open.Keys == Flying(w, e) && tid in w.procs
    ensures Booking(cfg, w, Advance(tid, ch), e, l).open.Keys == Flying(Step(cfg, w, Advance(tid, ch)), e)
  {
    AdvanceFlies(cfg, w, tid, ch, e);
    hide Step;
    assert tid in Flying(w, e) <==> InFlight(w.procs[tid], e);
  }

  /** The books take a step's record exactly when the counter does so for a login of the account. */
  lemma BookingRecords(cfg: Config, w: World, tid: nat, ch: Choice, e: string, l: Ledger)
    requires l.open.Keys == Flying(w, e) && tid in w.procs
    ensures var act := Advance(tid, ch); var b := Booking(cfg, w, act, e, l);
            b.base == l.base && b.times == if Records(w, act, e) then l.times + [w.store.db.now] else l.times
  {
    var p := w.procs[tid];
    assert tid in l.open <==> InFlight(p, e);
    if p.LoginFail? {
      FailureLands(cfg, w, tid, ch, e);
    }
    hide Step, Flying;
  }

  lemma LedgerParts(l: Ledger, w: World, e: string, m: nat)
    requires LedgerOk(l, w, e, m)
    ensures Booked(l, w.store.db.now, m) && Tells(l, w.store.db, e) && CountOf(w.store.db, e) >= l.base
    ensures l.open.Keys == Flying(w, e) && (l.times != [] ==> l.times[|l.times| - 1] <= w.store.db.now)
  {
  }

  lemma LedgerFits(l: Ledger, w: World, e: string, m: nat)
    requires Booked(l, w.store.db.now, m) && Tells(l, w.store.db, e) && CountOf(w.store.db, e) >= l.base
    requires l.open.Keys == Flying(w, e)
    ensures LedgerOk(l, w, e, m)
  {
  }

  /** A counter that only grows goes on telling a ledger that grows no faster. */
  lemma TellsOn(l: Ledger, b: Ledger, db: DB, after: DB, e: string, records: bool)
    requires Tells(l, db, e) && CountOf(db, e) >= l.base && (l.times != [] ==> l.times[|l.times| - 1] <= db.now)
    requires b.base == l.base && b.times == if records then l.times + [db.now] else l.times
    requires CounterOf(after, e) == CounterOf(db, e) || CounterOf(after, e) == Some(Counter(CountOf(db, e) + 1, db.now))
    requires records ==> CounterOf(after, e) == Some(Counter(CountOf(db, e) + 1, db.now))
    ensures Tells(b, after, e) && CountOf(after, e) >= b.base
  {
  }

  lemma AdvanceKeepsLedger(cfg: Config, w: World, tid: nat, ch: Choice, e: string, m: nat, l: Ledger)
    requires LedgerOk(l, w, e, m) && NoSuccess(cfg, w, Advance(tid, ch), e) && |Flying(w, e)| <= m && tid in w.procs
    ensures LedgerOk(Booking(cfg, w, Advance(tid, ch), e, l), Step(cfg, w, Advance(tid, ch)), e, m)
  {
    hide *;
    var act := Advance(tid, ch);
    LedgerParts(l, w, e, m);
    AdvanceKeepsBooks(cfg, w, tid, ch, e, m, l);
    AdvanceKeepsKeys(cfg, w, tid, ch, e, l);
    BookingRecords(cfg, w, tid, ch, e, l);
    CounterMoves(cfg, w, act, e);
    TellsOn(l, Booking(cfg, w, act, e, l), w.store.db, Step(cfg, w, act).store.db, e, Records(w, act, e));
    LedgerFits(Booking(cfg, w, act, e, l), Step(cfg, w, act), e, m);
  }

  lemma OthersFly(cfg: Config, w: World, act: Act, e: string)
    requires !act.Advance? || act.tid !in w.procs
    ensures Flying(Step(cfg, w, act), e) == Flying(w, e)
  {
    hide Begin, InFlight;
    if act.Start? {
      NoTakeoffAtStart(cfg, act.call, e);
    }
  }

  lemma OthersKeepLedger(cfg: Config, w: World, act: Act, e: string, m: nat, l: Ledger)
    requires LedgerOk(l, w, e, m) && NoSuccess(cfg, w, act, e) && (!act.Advance? || act.tid !in w.procs)
    ensures LedgerOk(l, Step(cfg, w, act), e, m)
  {
    hide *;
    LedgerParts(l, w, e, m);
    CounterMoves(cfg, w, act, e);
    PassKeepsBooks(l, w.store.db.now, Step(cfg, w, act).store.db.now, m);
    OthersFly(cfg, w, act, e);
    TellsOn(l, l, w.store.db, Step(cfg, w, act).store.db, e, false);
    LedgerFits(l, Step(cfg, w, act), e, m);
  }

  lemma {:induction false} RunKeepsLedger(cfg: Config, w: World, acts: seq<Act>, e: string, m: nat, l: Ledger)
    requires LedgerOk(l, w, e, m) && Guessing(cfg, w, acts, e, m)
    ensures LedgerOk(LedgerAfter(cfg, w, acts, e, l), Play(cfg, w, acts), e, m)
    ensures LedgerAfter(cfg, w, acts, e, l).base == l.base
    decreases |acts|
  {
    hide LedgerOk, NoSuccess, Step;
    if acts != [] {
      var act := acts[0];
      if act.Advance? && act.tid in w.procs {
        AdvanceKeepsLedger(cfg, w, act.tid, act.choice, e, m, l);
      } else {
        OthersKeepLedger(cfg, w, act, e, m, l);
      }
      RunKeepsLedger(cfg, Step(cfg, w, act), acts[1..], e, m, Booking(cfg, w, act, e, l));
    }
  }

  lemma ExactStep(cfg: Config, w: World, act: Act, e: string, l: Ledger, start: Option<Counter>)
    requires NoSuccess(cfg, w, act, e) && OnlyLogins(cfg, w, act, e) && l.open.Keys == Flying(w, e)
    requires TellsExactly(l, w.store.db, e, start) && l.base == (if start.Some? then start.value.failures else 0)
    ensures TellsExactly(Booking(cfg, w, act, e, l), Step(cfg, w, act).store.db, e, start)
  {
    hide NoSuccess, OnlyLogins, Step, Flying;
    CounterMoves(cfg, w, act, e);
    if act.Advance? && act.tid in w.procs {
      BookingRecords(cfg, w, act.tid, act.choice, e, l);
    }
  }

  lemma KeysStep(cfg: Config, w: World, act: Act, e: string, l: Ledger)
    requires l.open.Keys == Flying(w, e)
    ensures Booking(cfg, w, act, e, l).open.Keys == Flying(Step(cfg, w, act), e)
    ensures Booking(cfg, w, act, e, l).base == l.base
  {
    hide Step, Flying;
    if act.Advance? && act.tid in w.procs {
      AdvanceKeepsKeys(cfg, w, act.tid, act.choice, e, l);
    } else {
      OthersFly(cfg, w, act, e);
    }
  }

  lemma {:induction false} RunTellsExactly(cfg: Config, w: World, acts: seq<Act>, e: string, m: nat, l: Ledger,
                                          start: Option<Counter>)
    requires Guessing(cfg, w, acts, e, m) && NoChangeFails(cfg, w, acts, e) && l.open.Keys == Flying(w, e)
    requires TellsExactly(l, w.store.db, e, start) && l.base == (if start.Some? then start.value.failures else 0)
    ensures TellsExactly(LedgerAfter(cfg, w, acts, e, l), Play(cfg, w, acts).store.db, e, start)
    decreases |acts|
  {
    hide TellsExactly, NoSuccess, OnlyLogins, Step, Booking, Flying;
    if acts != [] {
      ExactStep(cfg, w, acts[0], e, l, start);
      KeysStep(cfg, w, acts[0], e, l);
      RunTellsExactly(cfg, Step(cfg, w, acts[0]), acts[1..], e, m, Booking(cfg, w, acts[0], e, l), start);
    }
  }

  /** The ledger a run starts from: the count on record, and the logins caught in flight, which have
      none of its failures to have waited for. */
  function Opening(w: World, e: string): Ledger {
    Ledger(CountOf(w.store.db, e), [], [], map tid | tid in Flying(w, e) :: 0)
  }

  /** In any run of any calls in which no login on the account succeeds and at most m on it are ever in
      flight between check and record, the n-th failed login is recorded a whole window after the
      (n − m)-th, so at least LeastSpanOf(base, n, m) after the first; whatever is on record at the
      start, and whatever ChangePassword adds to the counter in between. The counter holds all of them,
      and nothing else where no ChangePassword on the account gets `current` wrong. */
  lemma GuessingInFlightIsRateBound(cfg: Config, w: World, acts: seq<Act>, e: string, m: nat)
    requires m > 0 && Guessing(cfg, w, acts, e, m)
    ensures var l := LedgerAfter(cfg, w, acts, e, Opening(w, e)); var db := Play(cfg, w, acts).store.db;
            var n := |l.times|;
            && l.base == CountOf(w.store.db, e) && CountOf(db, e) >= l.base + n
            && (n > 0 ==> l.times[n - 1] >= l.times[0] + LeastSpanOf(l.base, n, m))
            && (forall i :: m < i <= n ==> Spaced(l, m, i))
            && (NoChangeFails(cfg, w, acts, e) ==>
                 CounterOf(db, e) == if n == 0 then CounterOf(w.store.db, e)
                   else Some(Counter(l.base + n, l.times[n - 1])))
  {
    hide Guessing, NoChangeFails, Play, LedgerAfter, DelayFor;
    var open := Opening(w, e);
    assert LedgerOk(open, w, e, m);
    RunKeepsLedger(cfg, w, acts, e, m, open);
    var l := LedgerAfter(cfg, w, acts, e, open);
    var now := Play(cfg, w, acts).store.db.now;
    forall i | m < i <= |l.times|
      ensures Spaced(l, m, i)
    {
      FailuresAreSpaced(l, now, m, i);
    }
    if l.times != [] {
      SpansAddUp(l, now, m, |l.times|);
    }
    if NoChangeFails(cfg, w, acts, e) {
      RunTellsExactly(cfg, w, acts, e, m, open, CounterOf(w.store.db, e));
    }
  }

  /** One login at a time gives the promised curve: the n-th failed login of a run, n >= 7, no sooner
      than 31 + 30 (n − 7) seconds after the first. */
  lemma GuessingInTurnIsRateBound(cfg: Config, w: World, acts: seq<Act>, e: string)
    requires Guessing(cfg, w, acts, e, 1)
    ensures var l := LedgerAfter(cfg, w, acts, e, Opening(w, e)); var n := |l.times|;
            n >= 7 ==> l.times[n - 1] >= l.times[0] + 31 * SECOND + 30 * SECOND * (n - 7)
  {
    hide Guessing, NoChangeFails, Play, LedgerAfter, DelayFor;
    GuessingInFlightIsRateBound(cfg, w, acts, e, 1);
    var l := LedgerAfter(cfg, w, acts, e, Opening(w, e));
    if |l.times| >= 7 {
      OneInFlightIsSequential(l.base, |l.times|);
      LeastSpanIs(ByUser, |l.times|);
    }
  }

  // ---- overlapping logins do escape the window ----

  predicate GuessIsWrong(db: DB, email: string, password: string) {
    forall u :: u in db.users && LiveAddress(db.users[u], email) && db.users[u].hash.Some? ==>
      !db.users[u].hash.value.Unreadable? && !Accepts(db.users[u].hash.value, password)
  }

  lemma CheckPasses(cfg: Config, w: World, tid: nat, ch: Choice)
    requires tid in w.procs && w.procs[tid].LoginCheck? && !ch.fault
             && !Closed(w.store.db, w.procs[tid].email, w.procs[tid].ip)
    ensures var p := w.procs[tid]; var t := Step(cfg, w, Advance(tid, ch));
            t.store.db == w.store.db && t.procs == w.procs[tid := LoginRead(p.email, p.ip, p.password, p.caller)]
  {
    hide DelayFor;
  }

  lemma GuessFails(cfg: Config, w: World, tid: nat, ch: Choice)
    requires tid in w.procs && w.procs[tid].LoginRead? && !ch.fault && !ch.busy
             && GuessIsWrong(w.store.db, w.procs[tid].email, w.procs[tid].password)
    ensures var p := w.procs[tid]; var t := Step(cfg, w, Advance(tid, ch));
            t.store.db == w.store.db && t.procs == w.procs[tid := LoginFail(p.email, p.ip)]
  {
    ReadEffects(cfg, w.store.db, w.procs[tid].email, w.procs[tid].ip);
    WrongGuess(cfg, w.store.db, w.procs[tid], ch);
  }

  lemma FailureIsRecorded(cfg: Config, w: World, tid: nat, ch: Choice)
    requires tid in w.procs && w.procs[tid].LoginFail? && !ch.fault
    ensures var p := w.procs[tid]; var t := Step(cfg, w, Advance(tid, ch));
            t.store.db == Exec(cfg, w.store.db, FailureStmt(p.email, p.ip))
              && t.procs == w.procs[tid := Done(Err(InvalidCredentials))]
  {
    hide Exec;
  }

  /** Two Logins with wrong guesses on one account, both checked before either records: both end as
      plain failures, the counter rises by two at one instant, and the second was recorded although the
      first had closed the window. */
  lemma OverlappingLoginsEscapeTheWindow(cfg: Config, w: World, a: nat, b: nat, ch: Choice)
    requires a != b && a in w.procs && b in w.procs && w.procs[a].LoginCheck? && w.procs[b].LoginCheck? && !ch.fault
             && !ch.busy
    requires var e := w.procs[a].email; var db := w.store.db;
             && w.procs[b].email == e && (ByUser, e) in db.attempts && db.attempts[(ByUser, e)].failures >= 1
             && !Closed(db, e, w.procs[a].ip) && !Closed(db, e, w.procs[b].ip)
             && GuessIsWrong(db, e, w.procs[a].password) && GuessIsWrong(db, e, w.procs[b].password)
    ensures var acts := [Advance(a, ch), Advance(b, ch), Advance(a, ch), Advance(b, ch), Advance(a, ch),
                         Advance(b, ch)];
            var e := w.procs[a].email; var db := w.store.db; var end := Play(cfg, w, acts);
            && a in end.procs && end.procs[a] == Done(Err(InvalidCredentials))
            && b in end.procs && end.procs[b] == Done(Err(InvalidCredentials))
            && (ByUser, e) in end.store.db.attempts
            && end.store.db.attempts[(ByUser, e)] == Counter(db.attempts[(ByUser, e)].failures + 2, db.now)
            && Closed(Play(cfg, w, acts[..5]).store.db, e, w.procs[b].ip)
  {
    hide Step, Exec, Closed, GuessIsWrong;
    var e := w.procs[a].email;
    var x, y := Advance(a, ch), Advance(b, ch);
    CheckPasses(cfg, w, a, ch);
    var w1 := Step(cfg, w, x);
    CheckPasses(cfg, w1, b, ch);
    var w2 := Step(cfg, w1, y);
    GuessFails(cfg, w2, a, ch);
    var w3 := Step(cfg, w2, x);
    GuessFails(cfg, w3, b, ch);
    var w4 := Step(cfg, w3, y);
    FailureIsRecorded(cfg, w4, a, ch);
    var w5 := Step(cfg, w4, x);
    FailureIsRecorded(cfg, w5, b, ch);
    FailureKeepsUsers(cfg, w4.store.db, e, w.procs[a].ip);
    FailureKeepsUsers(cfg, w5.store.db, e, w.procs[b].ip);
    RecordClosesWindow(cfg, w4.store.db, e, w.procs[a].ip, w.procs[b].ip);
    PlaySix(cfg, w, x, y);
  }

  lemma PlaySix(cfg: Config, w: World, x: Act, y: Act)
    ensures var w5 := Step(cfg, Step(cfg, Step(cfg, Step(cfg, Step(cfg, w, x), y), x), y), x);
            && Play(cfg, w, [x, y, x, y, x, y]) == Step(cfg, w5, y) && Play(cfg, w, [x, y, x, y, x, y][..5]) == w5
  {
    hide Step;
    assert [x, y, x, y, x, y][..5] == [x, y, x, y, x];
    PlayTwo(cfg, w, x, y, [x, y, x, y]);
    var w2 := Step(cfg, Step(cfg, w, x), y);
    PlayTwo(cfg, w2, x, y, [x, y]);
    var w4 := Step(cfg, Step(cfg, w2, x), y);
    PlayTwo(cfg, w4, x, y, []);
    PlayTwo(cfg, w, x, y, [x, y, x]);
    PlayTwo(cfg, w2, x, y, [x]);
    assert [x, y] + [x, y, x, y] == [x, y, x, y, x, y] && [x, y] + [x, y] == [x, y, x, y] && [x, y] + [] == [x, y];
    assert [x, y] + [x, y, x] == [x, y, x, y, x] && [x, y] + [x] == [x, y, x] && [x][1..] == [];
    assert Play(cfg, w4, [x]) == Play(cfg, Step(cfg, w4, x), []);
  }

  lemma PlayTwo(cfg: Config, w: World, x: Act, y: Act, rest: seq<Act>)
    ensures Play(cfg, w, [x, y] + rest) == Play(cfg, Step(cfg, Step(cfg, w, x), y), rest)
  {
    hide Step;
    assert ([x, y] + rest)[1..] == [y] + rest && ([y] + rest)[1..] == rest;
  }

  // ---- when a counted failure lands inside a closed window ----

  /** A counter this login is judged by was written after `then`, and its window is not over. */
  predicate ClosedSince(before: DB, db: DB, scope: Scope, key: string) {
    && (scope, key) in db.attempts
    && ((scope, key) !in before.attempts || before.attempts[(scope, key)] != db.attempts[(scope, key)])
    && db.now - db.attempts[(scope, key)].lastFail < DelayFor(scope, db.attempts[(scope, key)].failures)
  }

  lemma RowsBlock(db: DB, e: string, ip: string)
    ensures Closed(db, e, ip) <==>
              || ((ByUser, e) in db.attempts
                  && db.now - db.attempts[(ByUser, e)].lastFail < DelayFor(ByUser, db.attempts[(ByUser, e)].failures)
                  && DelayFor(ByUser, db.attempts[(ByUser, e)].failures) > 0)
              || ((ByIP, ip) in db.attempts
                  && db.now - db.attempts[(ByIP, ip)].lastFail < DelayFor(ByIP, db.attempts[(ByIP, ip)].failures)
                  && DelayFor(ByIP, db.attempts[(ByIP, ip)].failures) > 0)
  {
    hide DelayFor;
    var rows := CounterRows(db, e, ip);
    if (ByUser, e) in db.attempts {
      assert rows[0].scope == ByUser;
    }
    if (ByIP, ip) in db.attempts {
      assert rows[|rows| - 1].scope == ByIP;
    }
  }

  /** A window that was open closes by being written to, not by time. */
  lemma ClosesOnlyByWriting(before: DB, db: DB, e: string, ip: string)
    requires before.now <= db.now && !Closed(before, e, ip)
    requires forall k :: k in db.attempts ==> db.attempts[k].lastFail <= db.now
    ensures Closed(db, e, ip) <==> ClosedSince(before, db, ByUser, e) || ClosedSince(before, db, ByIP, ip)
  {
    hide Closed, DelayFor;
    RowsBlock(before, e, ip);
    RowsBlock(db, e, ip);
  }

  lemma {:induction false} TimeFlows(cfg: Config, w: World, acts: seq<Act>)
    ensures w.store.db.now <= Play(cfg, w, acts).store.db.now
    decreases |acts|
  {
    hide Step;
    if acts != [] {
      StepFlows(cfg, w, acts[0]);
      TimeFlows(cfg, Step(cfg, w, acts[0]), acts[1..]);
    }
  }

  lemma StepFlows(cfg: Config, w: World, act: Act)
    ensures w.store.db.now <= Step(cfg, w, act).store.db.now
  {
  }

  /** A failed Login is counted inside a closed window exactly when the account's counter, or its
      client's, was written after its check and that window is not over. */
  lemma LoginLandsInsideIff(cfg: Config, w: World, tid: nat, ch: Choice, acts: seq<Act>, e: string)
    requires WorldOk(cfg, w) && Possible(cfg, w, Advance(tid, ch)) && CanPlay(cfg, Step(cfg, w, Advance(tid, ch)), acts)
    requires tid in w.procs && w.procs[tid].LoginCheck? && w.procs[tid].email == e
    requires Step(cfg, w, Advance(tid, ch)).procs[tid].LoginRead?
    ensures var db := Play(cfg, Step(cfg, w, Advance(tid, ch)), acts).store.db; var ip := w.procs[tid].ip;
            Closed(db, e, ip) <==> ClosedSince(w.store.db, db, ByUser, e) || ClosedSince(w.store.db, db, ByIP, ip)
  {
    var t := Step(cfg, w, Advance(tid, ch));
    LoginReadKeepsAddress(cfg, w, tid, ch);
    TakeoffOpens(cfg, w, tid, ch, e);
    StepFlows(cfg, w, Advance(tid, ch));
    TimeFlows(cfg, t, acts);
    CountersArePast(cfg, w, Advance(tid, ch), acts);
    hide Step, Closed, ClosedSince, Play, WorldOk, CanPlay, Possible;
    ClosesOnlyByWriting(w.store.db, Play(cfg, t, acts).store.db, e, w.procs[tid].ip);
  }

  lemma CountersArePast(cfg: Config, w: World, act: Act, acts: seq<Act>)
    requires WorldOk(cfg, w) && Possible(cfg, w, act) && CanPlay(cfg, Step(cfg, w, act), acts)
    ensures var db := Play(cfg, Step(cfg, w, act), acts).store.db;
            forall k :: k in db.attempts ==> db.attempts[k].lastFail <= db.now
  {
    StepKeepsWorld(cfg, w, act);
    PlayKeepsWorld(cfg, Step(cfg, w, act), acts);
  }

  lemma LoginReadKeepsAddress(cfg: Config, w: World, tid: nat, ch: Choice)
    requires tid in w.procs && w.procs[tid].LoginCheck? && Step(cfg, w, Advance(tid, ch)).procs[tid].LoginRead?
    ensures Step(cfg, w, Advance(tid, ch)).procs[tid].email == w.procs[tid].email
  {
  }

  // ---- ChangePassword counts failures without looking at the window ----

  /** A ChangePassword about to read the hash, with the wrong `current`. */
  predicate Mistaken(db: DB, p: Proc, user: Id) {
    && p.ChangeRead? && p.p.user == user && user in db.users && !db.users[user].deleted && db.users[user].hash.Some?
    && !db.users[user].hash.value.Unreadable? && !Accepts(db.users[user].hash.value, p.current)
  }

  lemma ReadsWrong(cfg: Config, w: World, tid: nat, ch: Choice, user: Id)
    requires tid in w.procs && Mistaken(w.store.db, w.procs[tid], user) && !ch.fault && !ch.busy
    ensures var t := Step(cfg, w, Advance(tid, ch));
            && t.store.db == w.store.db
            && t.procs == w.procs[tid := ChangeFail(Lower(w.store.db.users[user].email), w.procs[tid].ip)]
  {
    hide Lower;
  }

  lemma ChangeFailureIsRecorded(cfg: Config, w: World, tid: nat, ch: Choice)
    requires tid in w.procs && w.procs[tid].ChangeFail? && !ch.fault
    ensures var p := w.procs[tid]; var t := Step(cfg, w, Advance(tid, ch));
            && t.store.db == Exec(cfg, w.store.db, FailureStmt(p.email, p.ip))
            && t.procs == w.procs[tid := Done(Err(InvalidCredentials))]
  {
    hide Exec;
  }

  lemma FailureKeepsUsers(cfg: Config, db: DB, e: string, ip: string)
    ensures var after := Exec(cfg, db, FailureStmt(e, ip)); after.users == db.users && after.now == db.now
    ensures CounterOf(Exec(cfg, db, FailureStmt(e, ip)), e) == Some(Counter(CountOf(db, e) + 1, db.now))
  {
  }

  /** A failure recorded inside a closed window keeps it closed, for whichever client. */
  lemma FailureKeepsClosed(cfg: Config, db: DB, e: string, ip: string, client: string)
    requires Closed(db, e, client)
    ensures Closed(Exec(cfg, db, FailureStmt(e, ip)), e, client)
  {
    hide Closed, DelayFor;
    var after := Exec(cfg, db, FailureStmt(e, ip));
    RowsBlock(db, e, client);
    RowsBlock(after, e, client);
    DelayMonotone(ByUser, CountOf(db, e), CountOf(db, e) + 1);
    if (ByIP, client) in db.attempts {
      DelayMonotone(ByIP, db.attempts[(ByIP, client)].failures, db.attempts[(ByIP, client)].failures + 1);
    }
  }

  function TwoMovesEach(tids: seq<nat>, ch: Choice): seq<Act> {
    if tids == [] then [] else [Advance(tids[0], ch), Advance(tids[0], ch)] + TwoMovesEach(tids[1..], ch)
  }

  /** What a run of such calls at one instant leaves of the account's counter and windows. */
  ghost predicate Counted(db: DB, after: DB, e: string, n: nat) {
    && after.now == db.now && after.users == db.users
    && CounterOf(after, e) == (if n == 0 then CounterOf(db, e) else Some(Counter(CountOf(db, e) + n, db.now)))
    && (forall client :: Closed(db, e, client) ==> Closed(after, e, client))
  }

  lemma OneIsCounted(cfg: Config, db: DB, e: string, ip: string)
    ensures Counted(db, Exec(cfg, db, FailureStmt(e, ip)), e, 1)
  {
    hide Closed, Exec, FailureStmt, CounterOf;
    FailureKeepsUsers(cfg, db, e, ip);
    forall client | Closed(db, e, client)
      ensures Closed(Exec(cfg, db, FailureStmt(e, ip)), e, client)
    {
      FailureKeepsClosed(cfg, db, e, ip, client);
    }
  }

  lemma CountsAdd(a: DB, b: DB, c: DB, e: string, n: nat)
    requires Counted(a, b, e, 1) && Counted(b, c, e, n)
    ensures Counted(a, c, e, n + 1)
  {
    hide Closed;
  }

  lemma OneMistake(cfg: Config, w: World, tid: nat, ch: Choice, user: Id)
    requires tid in w.procs && Mistaken(w.store.db, w.procs[tid], user) && !ch.fault && !ch.busy
    ensures var t := Step(cfg, Step(cfg, w, Advance(tid, ch)), Advance(tid, ch));
            && t.procs == w.procs[tid := Done(Err(InvalidCredentials))]
            && Counted(w.store.db, t.store.db, Lower(w.store.db.users[user].email), 1)
  {
    hide Step, Exec, Lower, FailureStmt, Counted;
    ReadsWrong(cfg, w, tid, ch, user);
    ChangeFailureIsRecorded(cfg, Step(cfg, w, Advance(tid, ch)), tid, ch);
    OneIsCounted(cfg, w.store.db, Lower(w.store.db.users[user].email), w.procs[tid].ip);
  }

  /** However many ChangePassword calls get `current` wrong at one instant, each is answered plainly and
      each is counted, and a window that was closed before them stays closed throughout and stops none. */
  lemma {:induction false} ChangePasswordIgnoresTheWindow(cfg: Config, w: World, tids: seq<nat>, ch: Choice, user: Id)
    requires !ch.fault && !ch.busy && user in w.store.db.users
    requires forall i :: 0 <= i < |tids| ==> tids[i] in w.procs && Mistaken(w.store.db, w.procs[tids[i]], user)
    requires forall i, j :: 0 <= i < j < |tids| ==> tids[i] != tids[j]
    ensures var e := Lower(w.store.db.users[user].email); var end := Play(cfg, w, TwoMovesEach(tids, ch));
            && (forall i :: 0 <= i < |tids| ==>
                  tids[i] in end.procs && end.procs[tids[i]] == Done(Err(InvalidCredentials)))
            && (forall t :: t in w.procs && t !in tids ==> t in end.procs && end.procs[t] == w.procs[t])
            && Counted(w.store.db, end.store.db, e, |tids|)
    decreases |tids|
  {
    hide Step, Closed, Lower, Counted;
    var e := Lower(w.store.db.users[user].email);
    if tids == [] {
      NoneIsCounted(w.store.db, e);
    } else {
      var tid, rest := tids[0], tids[1..];
      var x := Advance(tid, ch);
      OneMistake(cfg, w, tid, ch, user);
      var t := Step(cfg, Step(cfg, w, x), x);
      PlayTwo(cfg, w, x, x, TwoMovesEach(rest, ch));
      assert t.store.db.users == w.store.db.users by { CountedKeepsUsers(w.store.db, t.store.db, e, 1); }
      ChangePasswordIgnoresTheWindow(cfg, t, rest, ch, user);
      CountsAdd(w.store.db, t.store.db, Play(cfg, t, TwoMovesEach(rest, ch)).store.db, e, |rest|);
      assert tids == [tid] + rest;
    }
  }

  lemma NoneIsCounted(db: DB, e: string)
    ensures Counted(db, db, e, 0)
  {
  }

  lemma CountedKeepsUsers(db: DB, after: DB, e: string, n: nat)
    requires Counted(db, after, e, n)
    ensures after.users == db.users
  {
  }
}
