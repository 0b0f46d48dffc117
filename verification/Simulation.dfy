/** A call in the machine is its program run alone under interference: whatever the other calls do
    between two of its statements is the `env` of the later one. */
module Simulation {
  import opened Prelude
  import Passwords
  import opened Tables
  import opened Text
  import opened Sql
  import opened Invariants
  import opened Programs
  import opened Machine
  import opened MachineInvariants
  import opened LoginTheorems

  predicate Moves(w: World, act: Act, tid: nat) {
    act.Advance? && act.tid == tid && tid in w.procs && !w.procs[tid].Done?
  }

  /** The choices call `tid` meets, each with what happened since its last statement. */
  ghost function Schedule(cfg: Config, w: World, acts: seq<Act>, tid: nat, env: seq<Event>): seq<Choice>
    decreases |acts|
  {
    if acts == [] then []
    else if Moves(w, acts[0], tid)
      then [acts[0].choice.(env := env)] + Schedule(cfg, Step(cfg, w, acts[0]), acts[1..], tid, [])
    else Schedule(cfg, Step(cfg, w, acts[0]), acts[1..], tid, env + EventsOf(cfg, w, acts[0]))
  }

  /** The store as `tid` left it at its last move, `since` before any. */
  ghost function LastStore(cfg: Config, w: World, acts: seq<Act>, tid: nat, since: Store): Store
    decreases |acts|
  {
    if acts == [] then since
    else LastStore(cfg, Step(cfg, w, acts[0]), acts[1..], tid,
                   if Moves(w, acts[0], tid) then Step(cfg, w, acts[0]).store else since)
  }

  ghost predicate Follows(oracle: nat -> Choice, chs: seq<Choice>, k: nat) {
    forall i :: 0 <= i < |chs| ==> oracle(k + i) == chs[i]
  }

  lemma StepIsEvents(cfg: Config, w: World, act: Act)
    ensures Step(cfg, w, act).store == After(cfg, w.store, EventsOf(cfg, w, act))
  {
    var evs := EventsOf(cfg, w, act);
    if evs != [] {
      assert evs == [evs[0]] && evs[1..] == [];
      assert After(cfg, w.store, evs) == After(cfg, Next(cfg, w.store, evs[0]), []);
    }
  }

  lemma OthersLeaveItAlone(cfg: Config, w: World, act: Act, tid: nat)
    requires tid in w.procs && !Moves(w, act, tid)
    ensures tid in Step(cfg, w, act).procs && Step(cfg, w, act).procs[tid] == w.procs[tid]
  {
  }

  /** The draws matter to a step, the interference before it does not. */
  lemma EnvIsSilent(cfg: Config, s: Store, p: Proc, ch: Choice, env: seq<Event>)
    ensures Request(cfg, p, ch.(env := env)) == Request(cfg, p, ch)
    ensures Perform(cfg, s, p, ch.(env := env)) == Perform(cfg, s, p, ch)
    ensures forall r :: Resume(cfg, p, r, ch.(env := env)) == Resume(cfg, p, r, ch)
  {
    hide Next, Answer;
    RequestIgnoresEnv(cfg, p, ch, env);
    forall r
      ensures Resume(cfg, p, r, ch.(env := env)) == Resume(cfg, p, r, ch)
    {
      ResumeIgnoresEnv(cfg, p, r, ch, env);
    }
  }

  lemma RequestIgnoresEnv(cfg: Config, p: Proc, ch: Choice, env: seq<Event>)
    ensures Request(cfg, p, ch.(env := env)) == Request(cfg, p, ch)
  {
  }

  lemma ResumeIgnoresEnv(cfg: Config, p: Proc, r: Reply, ch: Choice, env: seq<Event>)
    ensures Resume(cfg, p, r, ch.(env := env)) == Resume(cfg, p, r, ch)
  {
    hide Passwords.Verify;
  }

  /** The call's own move is one unfolding of Drive, with the interference so far as its `env`. */
  lemma MoveIsAnUnfolding(cfg: Config, s: Store, w: World, act: Act, tid: nat, env: seq<Event>, oracle: nat -> Choice,
                          k: nat)
    requires Moves(w, act, tid) && After(cfg, s, env) == w.store && oracle(k) == act.choice.(env := env)
    ensures var t := Step(cfg, w, act);
            tid in t.procs && Drive(cfg, s, w.procs[tid], oracle, k) == Drive(cfg, t.store, t.procs[tid], oracle, k + 1)
  {
    hide Perform, Resume, Request, Drive;
    var p := w.procs[tid];
    EnvIsSilent(cfg, w.store, p, act.choice, env);
    DriveOnce(cfg, s, p, oracle, k);
  }

  /** What a call has done when it ends is what its program computes, over the interference it met. */
  lemma {:induction false} PlayIsADrive(cfg: Config, s: Store, w: World, acts: seq<Act>, tid: nat, env: seq<Event>,
                                        oracle: nat -> Choice, k: nat)
    requires tid in w.procs && After(cfg, s, env) == w.store
    requires Follows(oracle, Schedule(cfg, w, acts, tid, env), k)
    ensures tid in Play(cfg, w, acts).procs
    ensures var end := Play(cfg, w, acts).procs[tid];
            end.Done? ==> Drive(cfg, s, w.procs[tid], oracle, k) == (LastStore(cfg, w, acts, tid, s), end.result)
    decreases |acts|
  {
    hide Drive, Step, EventsOf, Perform;
    if acts == [] {
      DriveDone(cfg, oracle);
    } else {
      var t := Step(cfg, w, acts[0]);
      var chs := Schedule(cfg, w, acts, tid, env);
      if Moves(w, acts[0], tid) {
        assert oracle(k + 0) == chs[0];
        MoveIsAnUnfolding(cfg, s, w, acts[0], tid, env, oracle, k);
        var rest := Schedule(cfg, t, acts[1..], tid, []);
        assert chs[1..] == rest;
        assert Follows(oracle, rest, k + 1) by {
          forall i | 0 <= i < |rest|
            ensures oracle(k + 1 + i) == rest[i]
          {
            assert oracle(k + (1 + i)) == chs[1 + i];
          }
        }
        PlayIsADrive(cfg, t.store, t, acts[1..], tid, [], oracle, k + 1);
      } else {
        OthersLeaveItAlone(cfg, w, acts[0], tid);
        StepIsEvents(cfg, w, acts[0]);
        AfterConcat(cfg, s, env, EventsOf(cfg, w, acts[0]));
        PlayIsADrive(cfg, s, t, acts[1..], tid, env + EventsOf(cfg, w, acts[0]), oracle, k);
      }
    }
  }

  /** A run that could happen gives a call interference and draws that are fresh. */
  lemma {:induction false} PlayIsAValidDrive(cfg: Config, s: Store, w: World, acts: seq<Act>, tid: nat, env: seq<Event>,
                                             oracle: nat -> Choice, k: nat)
    requires WorldOk(cfg, w) && CanPlay(cfg, w, acts)
    requires tid in w.procs && After(cfg, s, env) == w.store && ValidRun(cfg, s, env)
    requires Follows(oracle, Schedule(cfg, w, acts, tid, env), k)
    requires tid in Play(cfg, w, acts).procs && Play(cfg, w, acts).procs[tid].Done?
    ensures ValidDrive(cfg, s, w.procs[tid], oracle, k)
    decreases |acts|
  {
    hide Step, EventsOf, Perform, WorldOk, Possible, Request, Resume, Enabled, Next, After;
    if acts != [] {
      var act := acts[0];
      var t := Step(cfg, w, act);
      var chs := Schedule(cfg, w, acts, tid, env);
      StepKeepsWorld(cfg, w, act);
      if Moves(w, act, tid) {
        assert oracle(k + 0) == chs[0];
        var rest := Schedule(cfg, t, acts[1..], tid, []);
        assert chs[1..] == rest;
        assert Follows(oracle, rest, k + 1) by {
          forall i | 0 <= i < |rest|
            ensures oracle(k + 1 + i) == rest[i]
          {
            assert oracle(k + (1 + i)) == chs[1 + i];
          }
        }
        NoInterference(cfg, t.store);
        MovedTo(cfg, w, act, tid);
        PlayIsAValidDrive(cfg, t.store, t, acts[1..], tid, [], oracle, k + 1);
        EnvIsSilent(cfg, w.store, w.procs[tid], act.choice, env);
        MoveIsEnabled(cfg, w, act, tid);
      } else {
        OthersLeaveItAlone(cfg, w, act, tid);
        EventsAreValid(cfg, w, act);
        AfterConcat(cfg, s, env, EventsOf(cfg, w, act));
        PlayIsAValidDrive(cfg, s, t, acts[1..], tid, env + EventsOf(cfg, w, act), oracle, k);
      }
    }
  }

  lemma NoInterference(cfg: Config, s: Store)
    ensures After(cfg, s, []) == s && ValidRun(cfg, s, [])
  {
  }

  lemma MovedTo(cfg: Config, w: World, act: Act, tid: nat)
    requires Moves(w, act, tid)
    ensures var t := Step(cfg, w, act); var (store, r) := Perform(cfg, w.store, w.procs[tid], act.choice);
            tid in t.procs && t.store == store && t.procs[tid] == Resume(cfg, w.procs[tid], r, act.choice)
  {
  }

  lemma MoveIsEnabled(cfg: Config, w: World, act: Act, tid: nat)
    requires WorldOk(cfg, w) && Possible(cfg, w, act) && Moves(w, act, tid)
    ensures var st := Request(cfg, w.procs[tid], act.choice);
            st.Some? && !act.choice.fault ==> Enabled(w.store, Run(st.value))
  {
    hide Request, Enabled;
    StepIsEnabled(cfg, w, act);
    var st := Request(cfg, w.procs[tid], act.choice);
    if st.Some? && !act.choice.fault {
      assert EventsOf(cfg, w, act)[0] == Run(st.value);
    }
  }

  lemma EventsAreValid(cfg: Config, w: World, act: Act)
    requires WorldOk(cfg, w) && Possible(cfg, w, act)
    ensures ValidRun(cfg, w.store, EventsOf(cfg, w, act))
            && Step(cfg, w, act).store == After(cfg, w.store, EventsOf(cfg, w, act))
  {
    hide EventsOf, Step, After, ValidRun, Possible;
    StepProjects(cfg, w, act);
  }

  function Replay(chs: seq<Choice>): nat -> Choice {
    (n: nat) => if n < |chs| then chs[n] else Choice([], true, true, 0, "", 0)
  }

  /** Every finished call of every run: there is an interference, fresh throughout, under which the
      method returns what the call returned and leaves the store the call left at its last statement. */
  lemma EveryCallIsAMethod(cfg: Config, w: World, acts: seq<Act>, tid: nat, call: Call) returns (oracle: nat -> Choice)
    requires WorldOk(cfg, w) && CanPlay(cfg, w, [Start(tid, call)] + acts) && tid !in w.procs
    requires var end := Play(cfg, Step(cfg, w, Start(tid, call)), acts); tid in end.procs && end.procs[tid].Done?
    ensures var started := Step(cfg, w, Start(tid, call)); var end := Play(cfg, started, acts);
            && Follows(oracle, Schedule(cfg, started, acts, tid, []), 0)
            && Drive(cfg, w.store, Begin(cfg, call), oracle, 0)
               == (LastStore(cfg, started, acts, tid, w.store), end.procs[tid].result)
            && ValidDrive(cfg, w.store, Begin(cfg, call), oracle, 0)
  {
    var start := Start(tid, call);
    var started := Step(cfg, w, start);
    assert ([start] + acts)[1..] == acts;
    assert started.store == w.store && started.procs[tid] == Begin(cfg, call);
    hide Step, Begin, WorldOk, Possible, Drive, ValidDrive;
    StepKeepsWorld(cfg, w, start);
    NoInterference(cfg, w.store);
    oracle := Replay(Schedule(cfg, started, acts, tid, []));
    PlayIsADrive(cfg, w.store, started, acts, tid, [], oracle, 0);
    PlayIsAValidDrive(cfg, w.store, started, acts, tid, [], oracle, 0);
  }

  lemma {:induction false} Unmoved(cfg: Config, w: World, acts: seq<Act>, tid: nat, env: seq<Event>)
    requires tid in w.procs && Schedule(cfg, w, acts, tid, env) == []
    ensures tid in Play(cfg, w, acts).procs && Play(cfg, w, acts).procs[tid] == w.procs[tid]
    decreases |acts|
  {
    hide Step, EventsOf;
    if acts != [] {
      OthersLeaveItAlone(cfg, w, acts[0], tid);
      Unmoved(cfg, Step(cfg, w, acts[0]), acts[1..], tid, env + EventsOf(cfg, w, acts[0]));
    }
  }

  /** Where in the run a call makes its next move, and what the store is just then. */
  lemma {:induction false} NextMove(cfg: Config, s: Store, w: World, acts: seq<Act>, tid: nat, env: seq<Event>)
    returns (j: nat)
    requires tid in w.procs && After(cfg, s, env) == w.store && Schedule(cfg, w, acts, tid, env) != []
    ensures j < |acts|
    ensures var u := Play(cfg, w, acts[..j]); var chs := Schedule(cfg, w, acts, tid, env);
            && Moves(u, acts[j], tid) && u.procs[tid] == w.procs[tid] && After(cfg, s, chs[0].env) == u.store
            && chs[0] == acts[j].choice.(env := chs[0].env)
            && chs[1..] == Schedule(cfg, Step(cfg, u, acts[j]), acts[j + 1..], tid, [])
            && Play(cfg, w, acts) == Play(cfg, Step(cfg, u, acts[j]), acts[j + 1..])
    decreases |acts|
  {
    hide Step, EventsOf, After;
    var t := Step(cfg, w, acts[0]);
    if Moves(w, acts[0], tid) {
      j := 0;
      assert acts[..0] == [];
    } else {
      OthersLeaveItAlone(cfg, w, acts[0], tid);
      StepIsEvents(cfg, w, acts[0]);
      AfterConcat(cfg, s, env, EventsOf(cfg, w, acts[0]));
      var i := NextMove(cfg, s, t, acts[1..], tid, env + EventsOf(cfg, w, acts[0]));
      j := i + 1;
      assert acts[..j][1..] == acts[1..][..i] && acts[1..][i + 1..] == acts[j + 1..];
    }
  }

  lemma CheckLeads(cfg: Config, p: Proc, r: Reply, ch: Choice)
    requires p.LoginCheck?
    ensures var q := Resume(cfg, p, r, ch); q.LoginRead? || (q.Done? && q.result.Err?)
  {
  }

  /** The two moves at which a Login that got anywhere read the counters and the account. */
  lemma LoginReadsAt(cfg: Config, s: Store, w: World, acts: seq<Act>, tid: nat, oracle: nat -> Choice) returns (j: nat)
    requires tid in w.procs && w.procs[tid].LoginCheck? && w.store == s
    requires Follows(oracle, Schedule(cfg, w, acts, tid, []), 0)
    requires tid in Play(cfg, w, acts).procs && Play(cfg, w, acts).procs[tid].Done?
             && Play(cfg, w, acts).procs[tid].result.Ok?
    ensures j < |acts| && var u := Play(cfg, w, acts[..j]);
            && Moves(u, acts[j], tid) && u.procs[tid].LoginRead?
            && u.store == After(cfg, Perform(cfg, After(cfg, s, oracle(0).env), w.procs[tid], oracle(0)).0,
                                oracle(1).env)
  {
    hide Step, After, Perform, EventsOf, Resume, Request;
    var chs := Schedule(cfg, w, acts, tid, []);
    NoInterference(cfg, s);
    if chs == [] {
      Unmoved(cfg, w, acts, tid, []);
    }
    var i := NextMove(cfg, s, w, acts, tid, []);
    var u := Play(cfg, w, acts[..i]);
    var t := Step(cfg, u, acts[i]);
    assert oracle(0 + 0) == chs[0];
    MovedTo(cfg, u, acts[i], tid);
    EnvIsSilent(cfg, u.store, w.procs[tid], acts[i].choice, chs[0].env);
    CheckLeads(cfg, w.procs[tid], Perform(cfg, u.store, w.procs[tid], acts[i].choice).1, acts[i].choice);
    assert t.store == Perform(cfg, After(cfg, s, oracle(0).env), w.procs[tid], oracle(0)).0;
    var rest := acts[i + 1..];
    if t.procs[tid].Done? {
      Ended(cfg, t, rest, tid);
      assert false;
    }
    if chs[1..] == [] {
      Unmoved(cfg, t, rest, tid, []);
    }
    NoInterference(cfg, t.store);
    var i2 := NextMove(cfg, t.store, t, rest, tid, []);
    assert oracle(0 + 1) == chs[1] == chs[1..][0];
    j := i + 1 + i2;
    assert acts[j] == rest[i2];
    PlayConcat(cfg, w, acts[..i], [acts[i]] + rest[..i2]);
    assert acts[..i] + ([acts[i]] + rest[..i2]) == acts[..j];
    assert ([acts[i]] + rest[..i2])[1..] == rest[..i2];
  }

  lemma {:induction false} Ended(cfg: Config, w: World, acts: seq<Act>, tid: nat)
    requires tid in w.procs && w.procs[tid].Done?
    ensures tid in Play(cfg, w, acts).procs && Play(cfg, w, acts).procs[tid] == w.procs[tid]
    decreases |acts|
  {
    hide Step;
    if acts != [] {
      OthersLeaveItAlone(cfg, w, acts[0], tid);
      Ended(cfg, Step(cfg, w, acts[0]), acts[1..], tid);
    }
  }

  lemma {:induction false} PlayConcat(cfg: Config, w: World, a: seq<Act>, b: seq<Act>)
    ensures Play(cfg, w, a + b) == Play(cfg, Play(cfg, w, a), b)
    decreases |a|
  {
    hide Step;
    if a == [] {
      assert a + b == b;
    } else {
      assert (a + b)[1..] == a[1..] + b;
      PlayConcat(cfg, Step(cfg, w, a[0]), a[1..], b);
    }
  }

  /** So what is proved of a Login under interference holds of every Login of every run: when it
      succeeds there was a moment of the run, its own read, at which the account whose principal it
      returns was live at the address, accepted the password and was allowed in. */
  lemma PlayedLoginAdmits(cfg: Config, w: World, acts: seq<Act>, tid: nat, email: string, ip: string, password: string,
                          caller: Option<Principal>)
    returns (user: Id, j: nat)
    requires WorldOk(cfg, w) && CanPlay(cfg, w, [Start(tid, Login(email, ip, password, caller))] + acts)
             && tid !in w.procs
    requires var end := Play(cfg, Step(cfg, w, Start(tid, Login(email, ip, password, caller))), acts);
             tid in end.procs && end.procs[tid].Done? && end.procs[tid].result.Ok?
    ensures var started := Step(cfg, w, Start(tid, Login(email, ip, password, caller)));
            var end := Play(cfg, started, acts);
            && end.procs[tid].result.value.Caller? && end.procs[tid].result.value.principal.user == user
            && j < |acts| && Moves(Play(cfg, started, acts[..j]), acts[j], tid)
            && Play(cfg, started, acts[..j]).procs[tid].LoginRead?
            && Entitled(cfg, Play(cfg, started, acts[..j]).store.db, Normalize(email), password, user)
  {
    var call := Login(email, ip, password, caller);
    var started := Step(cfg, w, Start(tid, call));
    assert started.store == w.store && started.procs[tid] == Begin(cfg, call) && Begin(cfg, call).LoginCheck?;
    hide Play, Step, WorldOk, ValidDrive, Entitled, Drive, Begin, Schedule, Perform, After;
    FirstIsPossible(cfg, w, Start(tid, call), acts);
    var oracle := EveryCallIsAMethod(cfg, w, acts, tid, call);
    user := LoginAdmitsTheAccount(cfg, w.store, email, ip, password, caller, oracle);
    j := LoginReadsAt(cfg, w.store, started, acts, tid, oracle);
  }

  lemma FirstIsPossible(cfg: Config, w: World, act: Act, acts: seq<Act>)
    requires WorldOk(cfg, w) && CanPlay(cfg, w, [act] + acts)
    ensures Inv(cfg, w.store) && Possible(cfg, w, act)
    ensures act.Start? && CallerOf(act.call).Some? ==> CallerOf(act.call).value in w.store.principals
  {
  }
}
