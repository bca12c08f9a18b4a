/**
  The monitor process itself: its file-scope variables as the fields of one
  object, each entry point as a method that assigns them in the order the
  program does, and the main thread's run as a loop over the events that
  reach it. Every method is proved to make exactly the transition its
  counterpart in `Supervisor` describes.
 */
module Process {
  import opened Supervisor
  import opened Traces

  class Monitor {
    var childpid: int     // pid of the child, 0 when there is no live child
    var savepid: int      // pid of the child reaped last, for log lines
    var starting: bool    // inside the startup window
    var killing: bool     // a kill is in progress
    var alarmArmed: bool  // a SIGALRM is pending (kernel state)
    var mode: Mode        // where the main thread is, or the exit status

    /** The object's state as a value. */
    function Snapshot(): State
      reads this
    {
      State(childpid, savepid, starting, killing, alarmArmed, mode)
    }

    /** The globals' initializers; the main thread is about to start the first child. */
    constructor ()
      ensures Snapshot() == Initial
    {
      childpid, savepid := 0, 0;
      starting, killing := false, false;
      alarmArmed := false;
      mode := Spawning;
    }

    method KillChild(signo: Signal, kill: KillResult) returns (action: Action)
      requires Live(Snapshot())
      modifies this
      ensures Transition(Snapshot(), action) == Supervisor.KillChild(old(Snapshot()), signo, kill)
    {
      starting := false;
      var sig := SIGTERM;
      if signo == SIGHUP {
        sig := signo;
      }
      if childpid == 0 {
        mode := Exited(0);
        return Exit(0);
      }
      if killing {
        sig := SIGKILL;
      }
      if kill == KillFailed {
        mode := Exited(1);
        return Exit(1);
      }
      if sig != SIGHUP {
        killing := true;
      }
      action := Sent(childpid, sig);
    }

    method InterruptChild(signo: Signal, kill: KillResult) returns (action: Action)
      requires Live(Snapshot())
      modifies this
      ensures Transition(Snapshot(), action) == Supervisor.InterruptChild(old(Snapshot()), signo, kill)
    {
      action := KillChild(signo, kill);
      if !mode.Exited? {
        killing := false;
      }
    }

    method EndStartup() returns (action: Action)
      requires alarmArmed
      modifies this
      ensures Transition(Snapshot(), action) == Supervisor.EndStartup(old(Snapshot()))
    {
      alarmArmed := false;
      starting := false;
      action := StartupEnded;
    }

    method StartChild(fork: ForkResult) returns (action: Action)
      requires mode == Spawning
      requires fork.Forked? ==> fork.pid > 0
      modifies this
      ensures Transition(Snapshot(), action) == Supervisor.StartChild(old(Snapshot()), fork)
    {
      mode := Waiting;
      match fork
      case ForkFailed =>
        childpid := -1;
        action := StartFailed;
      case Forked(pid) =>
        childpid := pid;
        starting := true;
        action := Started(childpid, savepid != 0);
        alarmArmed := true;
    }

    method HandleDeath() returns (action: Action)
      requires Live(Snapshot())
      modifies this
      ensures Transition(Snapshot(), action) == Supervisor.HandleDeath(old(Snapshot()))
    {
      if killing {
        mode := Exited(0);
        return Exit(0);
      }
      if starting {
        mode := Exited(1);
        return Exit(1);
      }
      mode := Spawning;
      action := Restart;
    }

    /** The body of main's wait loop, once `wait` has returned `w`. */
    method WaitReturned(w: WaitResult) returns (action: Action)
      requires mode == Waiting
      modifies this
      ensures Transition(Snapshot(), action) == Supervisor.WaitStep(old(Snapshot()), w)
    {
      match w
      case Interrupted =>
        action := Retry;
      case WaitFailed =>
        mode := Exited(1);
        action := Exit(1);
      case Reaped(_) =>
        savepid := childpid;
        childpid := 0;
        action := HandleDeath();
    }

    /** Runs the entry point an event reaches. */
    method Deliver(e: Event) returns (action: Action)
      requires Enabled(Snapshot(), e)
      modifies this
      ensures Transition(Snapshot(), action) == Step(old(Snapshot()), e)
    {
      match e
      case Terminate(signo, kill) => action := KillChild(signo, kill);
      case Hangup(kill) => action := InterruptChild(SIGHUP, kill);
      case Alarm => action := EndStartup();
      case WaitReturns(w) => action := WaitReturned(w);
      case SpawnDue(fork) => action := StartChild(fork);
    }

    /**
      The monitor from its first `startchild` on: the main thread's calls
      to `startchild` and its endless `wait` loop, with the signal handlers
      run between its steps, over the events of one run.
     */
    method Supervise(events: seq<Event>) returns (actions: seq<Action>)
      requires ValidTrace(Snapshot(), events)
      modifies this
      ensures Execution(Snapshot(), actions) == Traces.Run(old(Snapshot()), events)
    {
      ghost var s0 := Snapshot();
      actions := [];
      var i := 0;
      RunAppend(s0, events[..0], events[0..]);
      while i < |events|
        invariant 0 <= i <= |events|
        invariant ValidTrace(s0, events[..i])
        invariant Traces.Run(s0, events[..i]) == Execution(Snapshot(), actions)
        invariant ValidTrace(Snapshot(), events[i..])
      {
        assert events[..i + 1] == events[..i] + [events[i]];
        RunAppend(s0, events[..i], [events[i]]);
        RunAppend(s0, events[..i], events[i..]);
        assert events[..i] + events[i..] == events;
        var a := Deliver(events[i]);
        assert events[i..][1..] == events[i + 1..];
        actions := actions + [a];
        i := i + 1;
      }
      assert events[..i] == events;
    }
  }
}
