/**
  Runs of the monitor: sequences of the events that drive its entry points,
  the invariant every reachable state keeps, and properties of whole runs.
 */
module Traces {
  import opened Supervisor

  /** One thing that can happen to the monitor. */
  datatype Event =
    | Terminate(signo: Signal, kill: KillResult)  // SIGTERM or SIGINT delivered; kill's outcome
    | Hangup(kill: KillResult)                     // SIGHUP delivered; kill's outcome
    | Alarm                                        // the pending SIGALRM fires
    | WaitReturns(result: WaitResult)              // wait returns in the main loop
    | SpawnDue(fork: ForkResult)                   // the main thread calls startchild; fork's outcome

  /**
    When an event can happen: nothing happens after exit, only SIGTERM and
    SIGINT reach `killchild`, SIGALRM only fires when armed, `wait` returns
    only while the main thread is in it and reaps only an existing child,
    `startchild` runs only when the main thread is about to call it, and a
    successful fork returns a positive pid.
   */
  predicate Enabled(s: State, e: Event) {
    Live(s) &&
    match e
    case Terminate(signo, _) => signo == SIGTERM || signo == SIGINT
    case Hangup(_) => true
    case Alarm => s.alarmArmed
    case WaitReturns(w) => s.mode == Waiting && (w.Reaped? ==> s.childpid > 0)
    case SpawnDue(fork) => s.mode == Spawning && (fork.Forked? ==> fork.pid > 0)
  }

  /** The entry point each event runs. */
  function Step(s: State, e: Event): Transition
    requires Enabled(s, e)
  {
    match e
    case Terminate(signo, kill) => KillChild(s, signo, kill)
    case Hangup(kill) => InterruptChild(s, SIGHUP, kill)
    case Alarm => EndStartup(s)
    case WaitReturns(w) => WaitStep(s, w)
    case SpawnDue(fork) => StartChild(s, fork)
  }

  predicate ValidTrace(s: State, es: seq<Event>)
    decreases |es|
  {
    es == [] || (Enabled(s, es[0]) && ValidTrace(Step(s, es[0]).next, es[1..]))
  }

  datatype Execution = Execution(final: State, actions: seq<Action>)

  /** The state a run ends in and the action of each of its events. */
  function Run(s: State, es: seq<Event>): (r: Execution)
    requires ValidTrace(s, es)
    ensures |r.actions| == |es|
    decreases |es|
  {
    if es == [] then Execution(s, [])
    else
      var t := Step(s, es[0]);
      var rest := Run(t.next, es[1..]);
      Execution(rest.final, [t.action] + rest.actions)
  }

  /** A run of `a + b` is a run of `a` followed by a run of `b`. */
  lemma {:induction false} RunAppend(s: State, a: seq<Event>, b: seq<Event>)
    ensures ValidTrace(s, a + b) <==> ValidTrace(s, a) && ValidTrace(Run(s, a).final, b)
    ensures ValidTrace(s, a + b) ==>
      Run(s, a + b) == Execution(Run(Run(s, a).final, b).final,
                                 Run(s, a).actions + Run(Run(s, a).final, b).actions)
    decreases |a|
  {
    if a == [] {
      assert a + b == b;
    } else {
      assert (a + b)[0] == a[0];
      assert (a + b)[1..] == a[1..] + b;
      if Enabled(s, a[0]) {
        var t := Step(s, a[0]);
        RunAppend(t.next, a[1..], b);
        if ValidTrace(s, a + b) {
          var ra := Run(t.next, a[1..]);
          var rb := Run(ra.final, b);
          assert [t.action] + (ra.actions + rb.actions) == ([t.action] + ra.actions) + rb.actions;
        }
      }
    }
  }

  /**
    What holds in every reachable state. While the main thread is about to
    spawn there is no child, no startup window and no kill in progress;
    while it waits there is a child or a failed fork's -1; a startup window
    is always backed by a pending alarm and never overlaps a kill.
   */
  predicate Inv(s: State) {
    (s.starting ==> s.alarmArmed && !s.killing) &&
    match s.mode
    case Spawning => s.childpid == 0 && !s.starting && !s.killing
    case Waiting => s.childpid != 0 && (s.starting ==> s.childpid > 0)
    case Exited(_) => true
  }

  lemma StepPreservesInv(s: State, e: Event)
    requires Inv(s) && Enabled(s, e)
    ensures Inv(Step(s, e).next)
  {
  }

  lemma {:induction false} RunPreservesInv(s: State, es: seq<Event>)
    requires Inv(s) && ValidTrace(s, es)
    ensures Inv(Run(s, es).final)
    decreases |es|
  {
    if es != [] {
      StepPreservesInv(s, es[0]);
      RunPreservesInv(Step(s, es[0]).next, es[1..]);
    }
  }

  /**
    `startchild` never clears `killing`, and need not: whenever the main
    thread is about to spawn, no kill is in progress, no startup window is
    open and there is no child.
   */
  lemma SpawnStateIsClean(es: seq<Event>)
    requires ValidTrace(Initial, es)
    ensures var f := Run(Initial, es).final;
      f.mode == Spawning ==> f.childpid == 0 && !f.killing && !f.starting
  {
    RunPreservesInv(Initial, es);
  }

  /**
    Infant death: in any reachable run, a child reaped while the startup
    window is open, whatever its exit status, makes the monitor exit 1.
   */
  lemma InfantDeathAbandons(es: seq<Event>, status: ChildStatus)
    requires ValidTrace(Initial, es)
    requires Run(Initial, es).final.mode == Waiting && Run(Initial, es).final.starting
    ensures Enabled(Run(Initial, es).final, WaitReturns(Reaped(status)))
    ensures Step(Run(Initial, es).final, WaitReturns(Reaped(status))).action == Exit(1)
  {
    RunPreservesInv(Initial, es);
  }

  /** Only `startchild` opens the startup window. */
  lemma {:induction false} StartingOnlySetBySpawn(s: State, es: seq<Event>)
    requires ValidTrace(s, es) && !s.starting
    requires forall i :: 0 <= i < |es| ==> !es[i].SpawnDue?
    ensures !Run(s, es).final.starting
    decreases |es|
  {
    if es != [] {
      StartingOnlySetBySpawn(Step(s, es[0]).next, es[1..]);
    }
  }

  /** Only a SIGHUP calls off a kill in progress. */
  lemma {:induction false} KillingOnlyClearedByHangup(s: State, es: seq<Event>)
    requires ValidTrace(s, es) && s.killing
    requires forall i :: 0 <= i < |es| ==> !es[i].Hangup?
    ensures Run(s, es).final.killing
    decreases |es|
  {
    if es != [] {
      KillingOnlyClearedByHangup(Step(s, es[0]).next, es[1..]);
    }
  }

  /**
    Repeated SIGTERM or SIGINT requests to a live child: the first sends
    SIGTERM (unless a kill was already in progress), every later one sends
    SIGKILL, and the kill stays in progress.
   */
  lemma {:induction false} TerminateEscalates(s: State, es: seq<Event>)
    requires s.mode == Waiting && s.childpid != 0
    requires forall i :: 0 <= i < |es| ==>
      es[i].Terminate? && es[i].kill != KillFailed && (es[i].signo == SIGTERM || es[i].signo == SIGINT)
    ensures ValidTrace(s, es)
    ensures forall i :: 0 <= i < |es| ==>
      Run(s, es).actions[i] == Sent(s.childpid, if i == 0 && !s.killing then SIGTERM else SIGKILL)
    ensures es != [] ==> Run(s, es).final.killing
    ensures Run(s, es).final.mode == Waiting && Run(s, es).final.childpid == s.childpid
    decreases |es|
  {
    if es != [] {
      var t := Step(s, es[0]);
      assert t.action == Sent(s.childpid, if s.killing then SIGKILL else SIGTERM);
      TerminateEscalates(t.next, es[1..]);
      var rest := Run(t.next, es[1..]);
      assert Run(s, es).actions == [t.action] + rest.actions;
      forall i | 1 <= i < |es|
        ensures Run(s, es).actions[i] == Sent(s.childpid, SIGKILL)
      {
        assert Run(s, es).actions[i] == rest.actions[i - 1];
      }
    }
  }

  /**
    A SIGHUP forwarded to a live child never stops a later restart: if the
    child then dies, it is restarted, even when a kill was in progress (the
    SIGHUP then escalated to SIGKILL and called the kill off).
   */
  lemma ReloadThenDeathRestarts(s: State, kill: KillResult, status: ChildStatus)
    requires s.mode == Waiting && s.childpid > 0 && kill != KillFailed
    ensures Enabled(s, Hangup(kill))
    ensures Step(s, Hangup(kill)).action == Sent(s.childpid, if s.killing then SIGKILL else SIGHUP)
    ensures Enabled(Step(s, Hangup(kill)).next, WaitReturns(Reaped(status)))
    ensures Step(Step(s, Hangup(kill)).next, WaitReturns(Reaped(status))).action == Restart
  {
  }

  /**
    After a failed fork `childpid` is -1, so a SIGTERM that arrives before
    the main loop gives up is forwarded as kill(-1, SIGTERM), which signals
    every process the monitor may signal. With no child to reap, the main
    loop can only retry an interrupted `wait` or exit 1.
   */
  lemma ForkFailureTargetsEveryProcess(s: State, w: WaitResult)
    requires Inv(s) && s.mode == Spawning
    ensures ValidTrace(s, [SpawnDue(ForkFailed), Terminate(SIGTERM, Delivered)])
    ensures Run(s, [SpawnDue(ForkFailed), Terminate(SIGTERM, Delivered)]).actions
            == [StartFailed, Sent(-1, SIGTERM)]
    ensures var s1 := Step(s, SpawnDue(ForkFailed)).next;
      Enabled(s1, WaitReturns(w)) ==>
        Step(s1, WaitReturns(w)).action == Retry || Step(s1, WaitReturns(w)).action == Exit(1)
  {
    var s1 := Step(s, SpawnDue(ForkFailed)).next;
    assert [SpawnDue(ForkFailed), Terminate(SIGTERM, Delivered)][1..] == [Terminate(SIGTERM, Delivered)];
    assert [Terminate(SIGTERM, Delivered)][1..] == [];
    assert Run(s1, [Terminate(SIGTERM, Delivered)]).actions == [Sent(-1, SIGTERM)];
  }

  /**
    The log line of a reaped child agrees with what happens next: a death
    logged as expected (notice) ends the monitor with status 0, and a death
    that leads to a restart, when logged, is logged as an error.
   */
  lemma DeathLogMatchesOutcome(s: State, status: ChildStatus)
    requires s.mode == Waiting && s.childpid > 0
    ensures Enabled(s, WaitReturns(Reaped(status)))
    ensures var e := DeathLog(status, s.killing);
      e.Entry? && e.severity == Notice ==> Step(s, WaitReturns(Reaped(status))).action == Exit(0)
    ensures var e := DeathLog(status, s.killing);
      e.Entry? && Step(s, WaitReturns(Reaped(status))).action == Restart ==> e.severity == Err
  {
  }

  /** One unprovoked death after the startup window, and the restart that follows. */
  function Round(status: ChildStatus, pid: int): seq<Event> {
    [Alarm, WaitReturns(Reaped(status)), SpawnDue(Forked(pid))]
  }

  function Rounds(statuses: seq<ChildStatus>, pids: seq<int>): seq<Event>
    requires |statuses| == |pids|
    decreases |pids|
  {
    if pids == [] then [] else Round(statuses[0], pids[0]) + Rounds(statuses[1..], pids[1..])
  }

  /** The number of "restarted" log lines among some actions. */
  function Restarts(acts: seq<Action>): nat
    decreases |acts|
  {
    if acts == [] then 0
    else (if acts[0].Started? && acts[0].restarted then 1 else 0) + Restarts(acts[1..])
  }

  lemma {:induction false} RestartsAppend(a: seq<Action>, b: seq<Action>)
    ensures Restarts(a + b) == Restarts(a) + Restarts(b)
    decreases |a|
  {
    if a == [] {
      assert a + b == b;
    } else {
      assert (a + b)[1..] == a[1..] + b;
      RestartsAppend(a[1..], b);
    }
  }

  /** The state one round leaves behind and the restart it logs. */
  lemma OneRound(s: State, status: ChildStatus, pid: int)
    requires s.mode == Waiting && s.childpid > 0 && !s.killing && s.alarmArmed && pid > 0
    ensures ValidTrace(s, Round(status, pid))
    ensures Run(s, Round(status, pid)).actions == [StartupEnded, Restart, Started(pid, true)]
    ensures var f := Run(s, Round(status, pid)).final;
      f.mode == Waiting && f.childpid == pid && !f.killing && f.alarmArmed && f.starting
  {
    var r := Round(status, pid);
    var s1 := Step(s, Alarm).next;
    var s2 := Step(s1, WaitReturns(Reaped(status))).next;
    var s3 := Step(s2, SpawnDue(Forked(pid))).next;
    assert r[1..] == [WaitReturns(Reaped(status)), SpawnDue(Forked(pid))];
    assert r[1..][1..] == [SpawnDue(Forked(pid))];
    assert r[1..][1..][1..] == [];
    assert ValidTrace(s2, r[1..][1..]);
    assert ValidTrace(s1, r[1..]);
    assert Run(s2, r[1..][1..]) == Execution(s3, [Started(pid, true)]);
    assert Run(s1, r[1..]) == Execution(s3, [Restart, Started(pid, true)]);
  }

  /**
    Children that die on their own after the startup window, with no
    signal from the monitor, are restarted one for one: as many "restarted"
    lines as deaths, and the monitor ends up waiting on the last new child.
   */
  lemma {:induction false} RestartsMatchDeaths(s: State, statuses: seq<ChildStatus>, pids: seq<int>)
    requires s.mode == Waiting && s.childpid > 0 && !s.killing && s.alarmArmed
    requires |statuses| == |pids| && forall i :: 0 <= i < |pids| ==> pids[i] > 0
    ensures ValidTrace(s, Rounds(statuses, pids))
    ensures Restarts(Run(s, Rounds(statuses, pids)).actions) == |pids|
    ensures var f := Run(s, Rounds(statuses, pids)).final;
      f.mode == Waiting && f.childpid > 0 && !f.killing && f.alarmArmed
    ensures pids != [] ==> Run(s, Rounds(statuses, pids)).final.childpid == pids[|pids| - 1]
    decreases |pids|
  {
    if pids != [] {
      var r := Round(statuses[0], pids[0]);
      var rest := Rounds(statuses[1..], pids[1..]);
      OneRound(s, statuses[0], pids[0]);
      var s1 := Run(s, r).final;
      RestartsMatchDeaths(s1, statuses[1..], pids[1..]);
      RunAppend(s, r, rest);
      RestartsAppend(Run(s, r).actions, Run(s1, rest).actions);
      var acts := [StartupEnded, Restart, Started(pids[0], true)];
      assert acts[1..] == [Restart, Started(pids[0], true)];
      assert acts[1..][1..] == [Started(pids[0], true)];
      assert acts[1..][1..][1..] == [];
      assert Restarts(acts[1..][1..]) == 1;
      assert Restarts(acts[1..]) == 1;
    }
  }
}
