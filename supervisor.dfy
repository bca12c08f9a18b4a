/**
  The monitor's control state and its entry points, each as one atomic
  transition on that state.

  The monitor keeps four file-scope variables (`childpid`, `savepid`,
  `starting`, `killing`) and changes them only in its signal handlers
  (`killchild`, `interruptchild`, `end_startup`), in `startchild` and in the
  main loop after `wait` returns. The handlers run with every other caught
  signal blocked (the mask leaves out only SIGTSTP, which the monitor does
  not catch), so each is one step here. System calls are not executed:
  their outcome is a parameter, and every call to `exit` becomes the
  terminal mode `Exited(status)`.
 */
module Supervisor {

  /** The signals the monitor catches or sends. */
  datatype Signal = SIGHUP | SIGINT | SIGTERM | SIGKILL

  /** What `kill` reported: success, ESRCH (the target is gone), or any other errno. */
  datatype KillResult = Delivered | NoSuchProcess | KillFailed

  /** What `fork` returned in the parent: a child pid, or -1. */
  datatype ForkResult = Forked(pid: int) | ForkFailed

  /** A reaped child's wait status, as WIFEXITED and WIFSIGNALED classify it. */
  datatype ChildStatus = ExitedWith(code: int) | KilledBy(signo: int) | Unclassified

  /** What `wait` returned in the main loop: a reaped child, EINTR, or any other failure. */
  datatype WaitResult = Reaped(status: ChildStatus) | Interrupted | WaitFailed

  /**
    Where the main thread is: about to call `startchild` (at startup, or
    after the two-second sleep in `handledeath`), blocked in `wait`, or gone
    through `exit` with the given status.
   */
  datatype Mode = Spawning | Waiting | Exited(status: int)

  /**
    The monitor's globals, the kernel's pending SIGALRM (`alarmArmed`) and
    the main thread's mode.
   */
  datatype State = State(
    childpid: int,
    savepid: int,
    starting: bool,
    killing: bool,
    alarmArmed: bool,
    mode: Mode)

  /** What one entry point did, as seen from outside the monitor. */
  datatype Action =
    | Sent(target: int, sig: Signal)      // kill(target, sig) was issued and the monitor went on
    | Exit(status: int)                   // exit(status)
    | Restart                             // sleep(2), then startchild
    | Started(pid: int, restarted: bool)  // syslog "<prog>[pid] started" or "restarted"
    | StartFailed                         // fork failed
    | StartupEnded                        // end_startup ran
    | Retry                               // wait was interrupted and is called again

  datatype Transition = Transition(next: State, action: Action)

  /** The globals' initial values, before the first `startchild`. */
  const Initial := State(0, 0, false, false, false, Spawning)

  predicate Live(s: State) {
    !s.mode.Exited?
  }

  /**
    The signal `killchild` sends: SIGHUP for a SIGHUP request, SIGTERM for
    any other request (SIGINT included), and SIGKILL whatever the request
    once a kill is in progress.
   */
  function SignalFor(signo: Signal, killing: bool): (sig: Signal)
    ensures sig != SIGINT
    ensures sig == SIGKILL <==> killing
    ensures sig == SIGHUP <==> !killing && signo == SIGHUP
    ensures sig == SIGTERM <==> !killing && signo != SIGHUP
  {
    var requested := if signo == SIGHUP then SIGHUP else SIGTERM;
    if killing then SIGKILL else requested
  }

  /** `killchild(signo)`: the SIGTERM and SIGINT handler, and the body of the SIGHUP one. */
  function KillChild(s: State, signo: Signal, kill: KillResult): (t: Transition)
    requires Live(s)
    // the startup window always ends here
    ensures !t.next.starting
    // no live child: exit 0 before any signal is sent
    ensures s.childpid == 0 ==> t.action == Exit(0)
    // a kill that fails for a reason other than ESRCH is fatal
    ensures s.childpid != 0 && kill == KillFailed ==> t.action == Exit(1)
    ensures s.childpid != 0 && kill != KillFailed ==> t.action == Sent(s.childpid, SignalFor(signo, s.killing))
    ensures t.next.mode == if t.action.Exit? then Exited(t.action.status) else s.mode
    // after a sent signal, a kill is in progress exactly when that signal was not SIGHUP
    ensures t.action.Sent? ==> (t.next.killing <==> t.action.sig != SIGHUP)
    // a kill in progress is never called off here
    ensures s.killing ==> t.next.killing
    ensures t.next.childpid == s.childpid && t.next.savepid == s.savepid
    ensures t.next.alarmArmed == s.alarmArmed
  {
    var s1 := s.(starting := false);
    if s.childpid == 0 then
      Transition(s1.(mode := Exited(0)), Exit(0))
    else
      var sig := SignalFor(signo, s.killing);
      if kill == KillFailed then
        Transition(s1.(mode := Exited(1)), Exit(1))
      else
        Transition(s1.(killing := if sig != SIGHUP then true else s.killing), Sent(s.childpid, sig))
  }

  /**
    `interruptchild(signo)`: the SIGHUP handler. It forwards through
    `killchild` and then clears `killing`, so the forwarded signal is
    SIGKILL when a kill was in progress, and that kill is then forgotten.
   */
  function InterruptChild(s: State, signo: Signal, kill: KillResult): (t: Transition)
    requires Live(s)
    ensures Live(t.next) ==> !t.next.killing
    ensures !t.next.starting
    ensures s.childpid == 0 ==> t.action == Exit(0)
    ensures s.childpid != 0 && kill == KillFailed ==> t.action == Exit(1)
    ensures signo == SIGHUP && s.childpid != 0 && kill != KillFailed ==>
      t.action == Sent(s.childpid, if s.killing then SIGKILL else SIGHUP)
    ensures t.next.mode == if t.action.Exit? then Exited(t.action.status) else s.mode
    ensures t.next.childpid == s.childpid && t.next.savepid == s.savepid
    ensures t.next.alarmArmed == s.alarmArmed
  {
    var t := KillChild(s, signo, kill);
    if t.next.mode.Exited? then t
    else Transition(t.next.(killing := false), t.action)
  }

  /** `end_startup`: the SIGALRM handler armed by `startchild`; the alarm is spent. */
  function EndStartup(s: State): (t: Transition)
    ensures !t.next.starting && !t.next.alarmArmed
    ensures t.next.childpid == s.childpid && t.next.savepid == s.savepid
    ensures t.next.killing == s.killing && t.next.mode == s.mode
    ensures t.action == StartupEnded
  {
    Transition(s.(starting := false, alarmArmed := false), StartupEnded)
  }

  /**
    `startchild`, parent side. On success the new pid is recorded, the
    startup window opens and the 60-second alarm is armed; the log line says
    "restarted" exactly when an earlier child was reaped. On failure
    `childpid` keeps fork's -1. Either way the main thread goes on to `wait`,
    and `killing` is left as it was.
   */
  function StartChild(s: State, fork: ForkResult): (t: Transition)
    requires fork.Forked? ==> fork.pid > 0
    ensures fork.Forked? ==> t.next.childpid == fork.pid > 0 && t.next.starting && t.next.alarmArmed
    ensures fork.Forked? ==> t.action == Started(fork.pid, s.savepid != 0)
    ensures fork.ForkFailed? ==> t.next.childpid == -1 && t.action == StartFailed
    ensures fork.ForkFailed? ==> t.next.starting == s.starting && t.next.alarmArmed == s.alarmArmed
    ensures t.next.killing == s.killing && t.next.savepid == s.savepid
    ensures t.next.mode == Waiting
  {
    match fork
    case ForkFailed =>
      Transition(s.(childpid := -1, mode := Waiting), StartFailed)
    case Forked(pid) =>
      Transition(s.(childpid := pid, starting := true, alarmArmed := true, mode := Waiting),
                 Started(pid, s.savepid != 0))
  }

  /**
    `handledeath`: what happens once the child is reaped. A kill in progress
    means the shutdown is done (exit 0); a death inside the startup window
    abandons the service (exit 1); otherwise the child is restarted after
    the sleep.
   */
  function HandleDeath(s: State): (t: Transition)
    requires Live(s)
    ensures t.action == Exit(0) <==> s.killing
    ensures t.action == Exit(1) <==> !s.killing && s.starting
    ensures t.action == Restart <==> !s.killing && !s.starting
    ensures t.next.mode == if t.action.Exit? then Exited(t.action.status) else Spawning
    ensures t.next.childpid == s.childpid && t.next.savepid == s.savepid
    ensures t.next.starting == s.starting && t.next.killing == s.killing
    ensures t.next.alarmArmed == s.alarmArmed
  {
    if s.killing then Transition(s.(mode := Exited(0)), Exit(0))
    else if s.starting then Transition(s.(mode := Exited(1)), Exit(1))
    else Transition(s.(mode := Spawning), Restart)
  }

  /**
    One turn of the main loop: `wait` interrupted by a signal is retried,
    any other failure exits 1, and a reaped child is recorded in `savepid`
    and cleared from `childpid` before `handledeath` decides.
   */
  function WaitStep(s: State, w: WaitResult): (t: Transition)
    requires Live(s)
    ensures w == Interrupted ==> t.next == s && t.action == Retry
    ensures w == WaitFailed ==> t.next == s.(mode := Exited(1)) && t.action == Exit(1)
    ensures w.Reaped? ==> t.next.savepid == s.childpid && t.next.childpid == 0
    ensures w.Reaped? ==> (t.action == Restart <==> !s.killing && !s.starting)
    ensures w.Reaped? ==> (t.action == Exit(0) <==> s.killing)
    ensures w.Reaped? ==> (t.action == Exit(1) <==> !s.killing && s.starting)
    ensures w.Reaped? ==> t.next.mode == if t.action.Exit? then Exited(t.action.status) else Spawning
    ensures w.Reaped? ==> t.next.killing == s.killing && t.next.starting == s.starting
  {
    match w
    case Interrupted => Transition(s, Retry)
    case WaitFailed => Transition(s.(mode := Exited(1)), Exit(1))
    case Reaped(_) => HandleDeath(s.(savepid := s.childpid, childpid := 0))
  }

  datatype Severity = Notice | Err

  datatype DeathMessage =
    | ExitedStatus(code: int)        // "<prog>[pid] exited status N"
    | TerminatedBy(signo: int)       // "<prog>[pid] terminated by SIG"
    | TerminatedByMonitor(signo: int) // "<prog>[pid] terminated by monitor SIG"

  datatype LogEntry = NoEntry | Entry(severity: Severity, message: DeathMessage)

  /**
    The syslog line `handledeath` writes for a reaped child. Only a death by
    signal while a kill is in progress is logged as expected (notice); an
    exit with any code, zero included, is an error.
   */
  function DeathLog(status: ChildStatus, killing: bool): (e: LogEntry)
    ensures e == NoEntry <==> status.Unclassified?
    ensures e.Entry? ==> (e.severity == Notice <==> status.KilledBy? && killing)
    ensures status.ExitedWith? ==> e == Entry(Err, ExitedStatus(status.code))
    ensures e.Entry? && e.message.TerminatedByMonitor? ==> killing
    ensures status.KilledBy? ==>
      e == (if killing then Entry(Notice, TerminatedByMonitor(status.signo))
            else Entry(Err, TerminatedBy(status.signo)))
  {
    match status
    case ExitedWith(code) => Entry(Err, ExitedStatus(code))
    case KilledBy(signo) =>
      if killing then Entry(Notice, TerminatedByMonitor(signo)) else Entry(Err, TerminatedBy(signo))
    case Unclassified => NoEntry
  }
}
