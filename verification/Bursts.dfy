/** The rate bound of Throttle is the best there is: logins in bursts of m keep to it exactly. */
module Bursts {
  import opened Prelude
  import opened Tables
  import opened Sql
  import opened Backoff
  import opened Programs
  import opened Machine
  import opened BackoffTheorems
  import opened Throttle

  // ---- one burst ----

  function MoveEach(tids: seq<nat>, ch: Choice): seq<Act> {
    if tids == [] then [] else [Advance(tids[0], ch)] + MoveEach(tids[1..], ch)
  }

  function Burst(tids: seq<nat>, ch: Choice): seq<Act> {
    MoveEach(tids, ch) + (MoveEach(tids, ch) + MoveEach(tids, ch))
  }

  predicate Distinct(tids: seq<nat>) {
    forall i, j :: 0 <= i < j < |tids| ==> tids[i] != tids[j]
  }

  /** Logins on `e` with wrong guesses, from no known client. */
  predicate Waiting(db: DB, p: Proc, e: string) {
    p.LoginCheck? && p.email == e && p.ip == "" && GuessIsWrong(db, e, p.password)
  }

  predicate AllWaiting(w: World, tids: seq<nat>, e: string) {
    forall i :: 0 <= i < |tids| ==> tids[i] in w.procs && Waiting(w.store.db, w.procs[tids[i]], e)
  }

  predicate AllReading(w: World, tids: seq<nat>, e: string) {
    forall i :: 0 <= i < |tids| ==>
      && tids[i] in w.procs && w.procs[tids[i]].LoginRead? && w.procs[tids[i]].email == e && w.procs[tids[i]].ip == ""
      && GuessIsWrong(w.store.db, e, w.procs[tids[i]].password)
  }

  predicate AllFailing(w: World, tids: seq<nat>, e: string) {
    forall i :: 0 <= i < |tids| ==> tids[i] in w.procs && w.procs[tids[i]] == LoginFail(e, "")
  }

  /** The other calls stand where they stood. */
  ghost predicate Others(w: World, t: World, tids: seq<nat>) {
    forall x :: x in w.procs && x !in tids ==> x in t.procs && t.procs[x] == w.procs[x]
  }

  /** Only these calls are in flight, and they are few enough. */
  ghost predicate Few(w: World, e: string, among: set<nat>, m: nat) {
    Flying(w, e) <= among && |among| <= m && among <= w.procs.Keys
  }

  lemma FewIsBounded(w: World, e: string, among: set<nat>, m: nat)
    requires Few(w, e, among, m)
    ensures |Flying(w, e)| <= m
  {
    SubsetSize(Flying(w, e), among);
  }

  lemma MoveStaysFew(cfg: Config, w: World, tid: nat, ch: Choice, e: string, among: set<nat>, m: nat)
    requires Few(w, e, among, m) && tid in among && tid in w.procs
    ensures Few(Step(cfg, w, Advance(tid, ch)), e, among, m)
  {
    AdvanceFlies(cfg, w, tid, ch, e);
    StepKeepsCalls(cfg, w, Advance(tid, ch));
    hide Step;
  }

  lemma StepKeepsCalls(cfg: Config, w: World, act: Act)
    ensures w.procs.Keys <= Step(cfg, w, act).procs.Keys
  {
  }

  lemma NotASuccess(cfg: Config, w: World, tid: nat, ch: Choice, e: string)
    requires tid in w.procs && (w.procs[tid].LoginCheck? || w.procs[tid].LoginRead? || w.procs[tid].LoginFail?)
    ensures NoSuccess(cfg, w, Advance(tid, ch), e)
  {
  }

  lemma {:induction false} GuessingConcat(cfg: Config, w: World, a: seq<Act>, b: seq<Act>, e: string, m: nat)
    requires Guessing(cfg, w, a, e, m) && Guessing(cfg, Play(cfg, w, a), b, e, m)
    ensures Guessing(cfg, w, a + b, e, m) && Play(cfg, w, a + b) == Play(cfg, Play(cfg, w, a), b)
    decreases |a|
  {
    hide Step, NoSuccess, Flying;
    if a == [] {
      assert a + b == b;
    } else {
      assert (a + b)[0] == a[0] && (a + b)[1..] == a[1..] + b;
      GuessingConcat(cfg, Step(cfg, w, a[0]), a[1..], b, e, m);
    }
  }

  lemma OneMore(cfg: Config, w: World, act: Act, rest: seq<Act>, e: string, m: nat)
    requires |Flying(w, e)| <= m && NoSuccess(cfg, w, act, e) && Guessing(cfg, Step(cfg, w, act), rest, e, m)
    ensures Guessing(cfg, w, [act] + rest, e, m) && Play(cfg, w, [act] + rest) == Play(cfg, Step(cfg, w, act), rest)
  {
    hide Step, NoSuccess, Flying;
    assert ([act] + rest)[1..] == rest;
  }

  /** The first of them moved; the rest stand as before, and its place is the last word on it. */
  lemma FirstMoved(w: World, t: World, u: World, tids: seq<nat>, to: Proc)
    requires Distinct(tids) && tids != [] && t.procs == w.procs[tids[0] := to] && Others(t, u, tids[1..])
    ensures Others(w, u, tids) && tids[0] in u.procs && u.procs[tids[0]] == to
  {
    assert tids == [tids[0]] + tids[1..] && tids[0] !in tids[1..];
  }

  lemma RestWait(w: World, t: World, tids: seq<nat>, to: Proc, e: string)
    requires Distinct(tids) && tids != [] && AllWaiting(w, tids, e)
    requires t.procs == w.procs[tids[0] := to] && t.store.db == w.store.db
    ensures AllWaiting(t, tids[1..], e)
  {
    hide Waiting;
  }

  lemma RestRead(w: World, t: World, tids: seq<nat>, to: Proc, e: string)
    requires Distinct(tids) && tids != [] && AllReading(w, tids, e)
    requires t.procs == w.procs[tids[0] := to] && t.store.db == w.store.db
    ensures AllReading(t, tids[1..], e)
  {
    hide GuessIsWrong;
  }

  lemma Nobody(cfg: Config, w: World, e: string, m: nat)
    requires |Flying(w, e)| <= m
    ensures Guessing(cfg, w, [], e, m) && Play(cfg, w, []) == w && Others(w, w, [])
  {
  }

  /** Everyone checks, and passes the open window. */
  lemma {:induction false} AllCheck(cfg: Config, w: World, tids: seq<nat>, ch: Choice, e: string, among: set<nat>,
                                    m: nat)
    requires Distinct(tids) && AllWaiting(w, tids, e) && !Closed(w.store.db, e, "") && !ch.fault && !ch.busy
    requires Few(w, e, among, m) && forall i :: 0 <= i < |tids| ==> tids[i] in among
    ensures var acts := MoveEach(tids, ch); var t := Play(cfg, w, acts);
            && Guessing(cfg, w, acts, e, m) && Few(t, e, among, m)
            && t.store.db == w.store.db && AllReading(t, tids, e) && Others(w, t, tids)
    decreases |tids|
  {
    hide Step, Closed, GuessIsWrong, NoSuccess, Flying, Few, Guessing, Others;
    FewIsBounded(w, e, among, m);
    if tids == [] {
      Nobody(cfg, w, e, m);
    } else {
      var tid, rest := tids[0], tids[1..];
      CheckPasses(cfg, w, tid, ch);
      NotASuccess(cfg, w, tid, ch, e);
      MoveStaysFew(cfg, w, tid, ch, e, among, m);
      var t := Step(cfg, w, Advance(tid, ch));
      RestWait(w, t, tids, t.procs[tid], e);
      AllCheck(cfg, t, rest, ch, e, among, m);
      OneMore(cfg, w, Advance(tid, ch), MoveEach(rest, ch), e, m);
      FirstMoved(w, t, Play(cfg, t, MoveEach(rest, ch)), tids, t.procs[tid]);
    }
  }

  /** Everyone guesses, and is wrong. */
  lemma {:induction false} AllGuess(cfg: Config, w: World, tids: seq<nat>, ch: Choice, e: string, among: set<nat>,
                                    m: nat)
    requires Distinct(tids) && AllReading(w, tids, e) && !ch.fault && !ch.busy
    requires Few(w, e, among, m) && forall i :: 0 <= i < |tids| ==> tids[i] in among
    ensures var acts := MoveEach(tids, ch); var t := Play(cfg, w, acts);
            && Guessing(cfg, w, acts, e, m) && Few(t, e, among, m)
            && t.store.db == w.store.db && AllFailing(t, tids, e) && Others(w, t, tids)
    decreases |tids|
  {
    hide Step, GuessIsWrong, NoSuccess, Flying, Few, Guessing, Others;
    FewIsBounded(w, e, among, m);
    if tids == [] {
      Nobody(cfg, w, e, m);
    } else {
      var tid, rest := tids[0], tids[1..];
      GuessFails(cfg, w, tid, ch);
      NotASuccess(cfg, w, tid, ch, e);
      MoveStaysFew(cfg, w, tid, ch, e, among, m);
      var t := Step(cfg, w, Advance(tid, ch));
      RestRead(w, t, tids, t.procs[tid], e);
      AllGuess(cfg, t, rest, ch, e, among, m);
      OneMore(cfg, w, Advance(tid, ch), MoveEach(rest, ch), e, m);
      FirstMoved(w, t, Play(cfg, t, MoveEach(rest, ch)), tids, t.procs[tid]);
    }
  }

  /** What `n` failures from no known client at one instant leave. */
  ghost predicate Bumped(db: DB, after: DB, e: string, n: nat) {
    && after.users == db.users && after.now == db.now && ((ByIP, "") in after.attempts <==> (ByIP, "") in db.attempts)
    && CounterOf(after, e) == (if n == 0 then CounterOf(db, e) else Some(Counter(CountOf(db, e) + n, db.now)))
  }

  lemma FailureBumps(cfg: Config, db: DB, e: string)
    ensures Bumped(db, Exec(cfg, db, FailureStmt(e, "")), e, 1)
  {
  }

  lemma BumpsAdd(a: DB, b: DB, c: DB, e: string, n: nat)
    requires Bumped(a, b, e, 1) && Bumped(b, c, e, n)
    ensures Bumped(a, c, e, n + 1)
  {
  }

  /** Everyone's failure is recorded. */
  lemma {:induction false} AllRecord(cfg: Config, w: World, tids: seq<nat>, ch: Choice, e: string, among: set<nat>,
                                     m: nat)
    requires Distinct(tids) && AllFailing(w, tids, e) && !ch.fault
    requires Few(w, e, among, m) && forall i :: 0 <= i < |tids| ==> tids[i] in among
    ensures var acts := MoveEach(tids, ch); var t := Play(cfg, w, acts);
            && Guessing(cfg, w, acts, e, m) && Few(t, e, among, m)
            && Bumped(w.store.db, t.store.db, e, |tids|) && Others(w, t, tids)
            && forall i :: 0 <= i < |tids| ==> tids[i] in t.procs && t.procs[tids[i]] == Done(Err(InvalidCredentials))
    decreases |tids|
  {
    hide Step, NoSuccess, Flying, Exec, FailureStmt, Bumped;
    FewIsBounded(w, e, among, m);
    if tids == [] {
      NoneBumps(w.store.db, e);
    } else {
      var tid, rest := tids[0], tids[1..];
      FailureIsRecorded(cfg, w, tid, ch);
      FailureBumps(cfg, w.store.db, e);
      NotASuccess(cfg, w, tid, ch, e);
      MoveStaysFew(cfg, w, tid, ch, e, among, m);
      var t := Step(cfg, w, Advance(tid, ch));
      AllRecord(cfg, t, rest, ch, e, among, m);
      BumpsAdd(w.store.db, t.store.db, Play(cfg, t, MoveEach(rest, ch)).store.db, e, |rest|);
      OneMore(cfg, w, Advance(tid, ch), MoveEach(rest, ch), e, m);
      assert tids == [tid] + rest && tid !in rest;
    }
  }

  lemma NoneBumps(db: DB, e: string)
    ensures Bumped(db, db, e, 0)
  {
  }

  function SetOf(tids: seq<nat>): (r: set<nat>)
    ensures |r| <= |tids|
    ensures forall t :: t in r <==> t in tids
  {
    if tids == [] then {} else {tids[0]} + SetOf(tids[1..])
  }

  lemma OthersChain(w: World, a: World, b: World, c: World, tids: seq<nat>)
    requires Others(w, a, tids) && Others(a, b, tids) && Others(b, c, tids)
    ensures Others(w, c, tids)
  {
  }

  /** What a burst leaves: everyone's failure on record at one instant, nobody in flight. */
  ghost predicate BurstLeaves(cfg: Config, w: World, tids: seq<nat>, ch: Choice, e: string, m: nat) {
    var t := Play(cfg, w, Burst(tids, ch));
    && Guessing(cfg, w, Burst(tids, ch), e, m) && Flying(t, e) == {}
    && Bumped(w.store.db, t.store.db, e, |tids|) && Others(w, t, tids)
  }

  lemma NobodyFlies(w: World, tids: seq<nat>, e: string)
    requires Flying(w, e) <= SetOf(tids)
    requires forall i :: 0 <= i < |tids| ==> tids[i] in w.procs && w.procs[tids[i]].Done?
    ensures Flying(w, e) == {}
  {
  }

  lemma OneBurst(cfg: Config, w: World, tids: seq<nat>, ch: Choice, e: string, m: nat)
    requires Distinct(tids) && |tids| <= m && AllWaiting(w, tids, e) && Flying(w, e) == {}
    requires !Closed(w.store.db, e, "") && !ch.fault && !ch.busy
    ensures BurstLeaves(cfg, w, tids, ch, e, m)
  {
    hide Step, Closed, Flying, Guessing, AllReading, AllFailing, Others, Bumped, MoveEach;
    var among := SetOf(tids);
    var moves := MoveEach(tids, ch);
    assert Few(w, e, among, m);
    AllCheck(cfg, w, tids, ch, e, among, m);
    var a := Play(cfg, w, moves);
    AllGuess(cfg, a, tids, ch, e, among, m);
    var b := Play(cfg, a, moves);
    AllRecord(cfg, b, tids, ch, e, among, m);
    var c := Play(cfg, b, moves);
    GuessingConcat(cfg, a, moves, moves, e, m);
    GuessingConcat(cfg, w, moves, moves + moves, e, m);
    NobodyFlies(c, tids, e);
    OthersChain(w, a, b, c, tids);
  }

  // ---- bursts of m, a window apart ----

  /** A first burst of `r`, then `q` bursts of m, each after the window the last one left. */
  function Rounds(tids: seq<nat>, r: nat, m: nat, q: nat, count: nat, ch: Choice): seq<Act>
    requires r <= |tids|
    decreases q
  {
    if q == 0 || |tids| < r + m then Burst(tids, ch)
    else Burst(tids[..r], ch) + ([Elapse(Window(count + r))] + Rounds(tids[r..], m, m, q - 1, count + r, ch))
  }

  function Window(n: nat): nat {
    DelayMonotone(ByUser, 0, n);
    DelayFor(ByUser, n)
  }

  lemma OneRoundLess(q: nat, m: nat)
    requires q > 0
    ensures q * m == (q - 1) * m + m && (q - 1) * m >= 0
  {
  }

  /** The bound counts the windows from the last failure down; a run meets them from the first up. */
  lemma {:induction false} SpanFromTheFront(base: nat, r: nat, m: nat, q: nat)
    requires 0 < r <= m && q > 0
    ensures q * m >= m
    ensures LeastSpanOf(base, r + q * m, m) == DelayFor(ByUser, base + r) + LeastSpanOf(base + r, q * m, m)
    decreases q
  {
    hide DelayFor;
    OneRoundLess(q, m);
    if q == 1 {
      assert LeastSpanOf(base, r, m) == 0 && LeastSpanOf(base + r, m, m) == 0;
    } else {
      SpanFromTheFront(base, r, m, q - 1);
    }
  }

  lemma WindowReopens(db: DB, later: DB, e: string)
    requires CounterOf(db, e).Some? && CounterOf(db, e).value.lastFail == db.now && (ByIP, "") !in db.attempts
    requires later == db.(now := db.now + Window(CountOf(db, e)))
    ensures !Closed(later, e, "")
  {
    RowsBlock(later, e, "");
  }

  lemma WaitIsQuiet(cfg: Config, w: World, time: nat, e: string)
    ensures var t := Step(cfg, w, Elapse(time));
            && t.store.db == w.store.db.(now := w.store.db.now + time) && t.procs == w.procs
            && Flying(t, e) == Flying(w, e)
    ensures NoSuccess(cfg, w, Elapse(time), e)
  {
  }

  lemma StillWaiting(w: World, t: World, tids: seq<nat>, r: nat, e: string)
    requires Distinct(tids) && AllWaiting(w, tids, e) && r <= |tids| && Others(w, t, tids[..r])
             && t.store.db.users == w.store.db.users
    ensures Distinct(tids[r..]) && AllWaiting(t, tids[r..], e)
  {
    forall i | 0 <= i < |tids[r..]|
      ensures tids[r..][i] in t.procs && Waiting(t.store.db, t.procs[tids[r..][i]], e)
    {
      assert tids[r..][i] == tids[r + i] && tids[r + i] !in tids[..r];
    }
  }

  /** Ready for a burst: everyone waits, nobody is in flight, the window is open. */
  ghost predicate Ready(w: World, tids: seq<nat>, e: string) {
    && Distinct(tids) && AllWaiting(w, tids, e) && Flying(w, e) == {}
    && (ByIP, "") !in w.store.db.attempts && !Closed(w.store.db, e, "")
  }

  /** What the rounds leave: one failure for each call, the last of them `span` after the first. */
  ghost predicate Spent(cfg: Config, w: World, acts: seq<Act>, e: string, m: nat, n: nat, span: int) {
    && Guessing(cfg, w, acts, e, m)
    && CounterOf(Play(cfg, w, acts).store.db, e)
       == Some(Counter(CountOf(w.store.db, e) + n, w.store.db.now + span))
  }

  lemma FirstBurst(cfg: Config, w: World, first: seq<nat>, ch: Choice, e: string, m: nat)
    requires Ready(w, first, e) && 0 < |first| <= m && !ch.fault && !ch.busy
    ensures BurstLeaves(cfg, w, first, ch, e, m) && Spent(cfg, w, Burst(first, ch), e, m, |first|, 0)
  {
    hide Step, Closed, Flying, Guessing, Others, Burst, DelayFor, GuessIsWrong, NoSuccess;
    OneBurst(cfg, w, first, ch, e, m);
  }

  lemma ReadyPrefix(w: World, tids: seq<nat>, r: nat, e: string)
    requires Ready(w, tids, e) && r <= |tids|
    ensures Ready(w, tids[..r], e)
  {
    hide Closed, Flying, Waiting;
  }

  /** After a burst and the window it left, the rest are ready. */
  lemma ReadyAgain(cfg: Config, w: World, tids: seq<nat>, r: nat, ch: Choice, e: string, m: nat)
    requires Ready(w, tids, e) && 0 < r <= |tids| && BurstLeaves(cfg, w, tids[..r], ch, e, m)
    ensures var t := Play(cfg, w, Burst(tids[..r], ch)); var wait := Elapse(Window(CountOf(w.store.db, e) + r));
            var u := Step(cfg, t, wait);
            && Ready(u, tids[r..], e) && NoSuccess(cfg, t, wait, e) && |Flying(t, e)| <= m
            && CountOf(u.store.db, e) == CountOf(w.store.db, e) + r
            && u.store.db.now == w.store.db.now + DelayFor(ByUser, CountOf(w.store.db, e) + r)
  {
    hide Step, Closed, Guessing, Others, Burst, DelayFor, GuessIsWrong, NoSuccess, Flying;
    var t := Play(cfg, w, Burst(tids[..r], ch));
    var window := Window(CountOf(w.store.db, e) + r);
    NobodyIsFew(t, e, m);
    WaitIsQuiet(cfg, t, window, e);
    var u := Step(cfg, t, Elapse(window));
    WindowReopens(t.store.db, u.store.db, e);
    StillWaiting(w, t, tids, r, e);
    WaitingOn(t, u, tids[r..], e);
  }

  lemma SpentInTwo(cfg: Config, w: World, a: seq<Act>, wait: Act, b: seq<Act>, e: string, m: nat, r: nat, n: nat,
                   gap: int, span: int)
    requires Spent(cfg, w, a, e, m, r, 0)
    requires var t := Play(cfg, w, a); var u := Step(cfg, t, wait);
             && |Flying(t, e)| <= m && NoSuccess(cfg, t, wait, e) && Spent(cfg, u, b, e, m, n, span)
             && CountOf(u.store.db, e) == CountOf(w.store.db, e) + r && u.store.db.now == w.store.db.now + gap
    ensures Spent(cfg, w, a + ([wait] + b), e, m, r + n, gap + span)
  {
    hide Step, Flying, Guessing, NoSuccess, CounterOf, CountOf;
    var t := Play(cfg, w, a);
    OneMore(cfg, t, wait, b, e, m);
    GuessingConcat(cfg, w, a, [wait] + b, e, m);
  }

  lemma {:induction false} RoundsMeetTheBound(cfg: Config, w: World, tids: seq<nat>, r: nat, m: nat, q: nat, ch: Choice,
                                              e: string)
    requires 0 < r <= m && |tids| == r + q * m && Ready(w, tids, e) && !ch.fault && !ch.busy
    ensures var count := CountOf(w.store.db, e);
            Spent(cfg, w, Rounds(tids, r, m, q, count, ch), e, m, |tids|, LeastSpanOf(count, |tids|, m))
    decreases q
  {
    hide Step, Flying, Guessing, Burst, DelayFor, NoSuccess, Ready, Spent, BurstLeaves, CountOf, CounterOf, Window;
    var count := CountOf(w.store.db, e);
    if q == 0 {
      FirstBurst(cfg, w, tids, ch, e, m);
    } else {
      OneRoundLess(q, m);
      var first, rest := tids[..r], tids[r..];
      ReadyPrefix(w, tids, r, e);
      FirstBurst(cfg, w, first, ch, e, m);
      ReadyAgain(cfg, w, tids, r, ch, e, m);
      var wait := Elapse(Window(count + r));
      var u := Step(cfg, Play(cfg, w, Burst(first, ch)), wait);
      RoundsMeetTheBound(cfg, u, rest, m, m, q - 1, ch, e);
      var more := Rounds(rest, m, m, q - 1, count + r, ch);
      var span := LeastSpanOf(count + r, |rest|, m);
      SpentInTwo(cfg, w, Burst(first, ch), wait, more, e, m, r, |rest|, DelayFor(ByUser, count + r), span);
      SpanFromTheFront(count, r, m, q);
    }
  }

  /** Whatever n and m, and whatever is on record: n failures on one account with m in flight can be
      recorded in LeastSpanOf(count, n, m), the least the bound allows. Bursts of m do it. */
  lemma BurstsMeetTheBound(cfg: Config, w: World, tids: seq<nat>, m: nat, ch: Choice, e: string)
    returns (acts: seq<Act>)
    requires m > 0 && tids != [] && !ch.fault && !ch.busy && Ready(w, tids, e)
    ensures Guessing(cfg, w, acts, e, m)
    ensures var count := CountOf(w.store.db, e);
            CounterOf(Play(cfg, w, acts).store.db, e)
            == Some(Counter(count + |tids|, w.store.db.now + LeastSpanOf(count, |tids|, m)))
  {
    hide Ready, Guessing, Play, CounterOf, CountOf, LeastSpanOf;
    var q := (|tids| - 1) / m;
    var r := |tids| - q * m;
    acts := Rounds(tids, r, m, q, CountOf(w.store.db, e), ch);
    RoundsMeetTheBound(cfg, w, tids, r, m, q, ch, e);
  }

  lemma WaitingOn(t: World, u: World, tids: seq<nat>, e: string)
    requires AllWaiting(t, tids, e) && u.procs == t.procs && u.store.db.users == t.store.db.users
    ensures AllWaiting(u, tids, e)
  {
  }

  lemma NobodyIsFew(w: World, e: string, m: nat)
    requires Flying(w, e) == {}
    ensures |Flying(w, e)| <= m
  {
  }
}
