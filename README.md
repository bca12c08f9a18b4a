# A verified model of the `monitor` process supervisor

`monitor [-e] [-n service-name] command [arg ...]` starts a command as its
child and restarts it when it dies. SIGTERM and SIGINT stop it, and a second
request escalates to SIGKILL. SIGHUP is forwarded to the child. A child that
dies within a minute of starting, without a signal from the monitor, makes
the monitor give up with status 1.

The policy lives in four file-scope variables of `monitor.c`:
- `childpid`: the live child, or 0 when there is none;
- `savepid`: the child reaped last;
- `starting`: the 60-second startup window is open;
- `killing`: a stop is in progress.

Five entry points change them. `killchild` handles SIGTERM and SIGINT.
`interruptchild` handles SIGHUP. `end_startup` runs when the 60-second alarm
fires. `startchild` spawns the child. `handledeath` runs in the main loop
after `wait` reaps the child. Each handler runs with every other caught
signal blocked (the mask leaves out only SIGTSTP, which the monitor does
not catch), so each one is a single atomic transition here.

The project has four modules:

- `Supervisor` (supervisor.dfy) holds the state as a value and one pure
  transition per entry point. The properties of a single step are stated as
  `ensures` clauses:
  - which signal is sent, and the escalation to SIGKILL;
  - when the monitor exits 0 or 1;
  - what happens to `starting` and `killing`;
  - the restart priority.
- `Traces` (traces.dfy) defines the events that drive those entry points and
  runs over sequences of events. It proves:
  - the invariant that every reachable state keeps;
  - properties of whole runs: escalation, one restart per death,
    abandonment on infant death, and the effect of a SIGHUP.
- `Process` (monitor.dfy) is the program's own shape. A class `Monitor`
  holds the globals as fields and has one method per entry point. Each
  method assigns the fields in the order the C code does, and is proved to
  make exactly the transition that `Supervisor` describes. A loop,
  `Supervise`, runs the main thread's steps with the handlers in between.
- `Naming` (naming.dfy) covers what `main` derives before the first start:
  - the program's base name, taken after the last `/` of the command;
  - the service name;
  - the status file's name `/tmp/<service>.<pid>.status`, with snprintf's
    truncation to a PATH_MAX buffer, and a parser that reads it back.

System calls are not executed. Their outcomes are parameters:
- `fork` returns a positive pid or fails;
- `kill` succeeds, fails with ESRCH, or fails in another way;
- `wait` reaps the child, is interrupted (EINTR), or fails in another way.

Every `exit` becomes the terminal mode `Exited(status)`.

The model follows the code where the code and the usage comment differ:
- SIGINT is forwarded to the child as SIGTERM, not as SIGINT.
- A SIGHUP that arrives during a stop sends SIGKILL. `interruptchild` then
  clears `killing`, so the stop is called off and the child is restarted if
  it dies (`ReloadThenDeathRestarts`).
- `startchild` never clears `killing`. `SpawnStateIsClean` proves that it
  never needs to: whenever the main thread is about to spawn, `killing` is
  already false.
- When `fork` fails, `childpid` is left at -1, not 0. A SIGTERM that arrives
  next is then forwarded as kill(-1, SIGTERM), which signals every process
  the monitor is allowed to signal (`ForkFailureTargetsEveryProcess`). With
  no child left, `wait` can only fail, so the main loop exits 1.

## Model

| member | source | states |
|---|---|---|
| Supervisor.SignalFor | monitor.c:114-124 | SIGHUP is sent for a SIGHUP request and SIGTERM for any other request, SIGINT included; SIGKILL is sent exactly when a kill is already in progress; SIGINT is never sent |
| Supervisor.KillChild | monitor.c:110-135 | the startup window always closes; with no child the monitor exits 0 before sending anything; a failed kill exits 1 unless errno is ESRCH; otherwise the selected signal goes to `childpid`; afterwards `killing` is set exactly when that signal was not SIGHUP, and it is never cleared |
| Supervisor.InterruptChild | monitor.c:262-265 | forwards through `killchild` (SIGKILL if a kill was in progress, otherwise SIGHUP) and, whenever the monitor survives, leaves `killing` false |
| Supervisor.EndStartup | monitor.c:138-143 | the alarm closes the startup window and is spent; nothing else changes |
| Supervisor.StartChild | monitor.c:149-207 | after a successful fork, `childpid` is the new positive pid, the window opens, the alarm is armed, and the log says "restarted" exactly when `savepid` is not 0; after a failed fork, `childpid` is -1 and `starting` is unchanged; `killing` is never touched |
| Supervisor.HandleDeath | monitor.c:240-253 | exits 0 exactly when a kill is in progress, exits 1 exactly when the startup window is open and no kill is in progress, and restarts exactly when neither holds |
| Supervisor.WaitStep | monitor.c:374-388 | EINTR retries with no change; any other `wait` failure exits 1; a reap sets `savepid` to the old `childpid` and `childpid` to 0, then `handledeath` decides: exit 0 exactly when a kill is in progress, exit 1 exactly when the window is open and no kill is in progress, otherwise the main thread goes on to the sleep and the next `startchild` |
| Supervisor.DeathLog | monitor.c:222-239 | a death by signal during a kill is logged at notice level; any exit (code 0 included) and any other death by signal are logged as errors; an unclassifiable status is not logged; a death by signal names that signal, as "terminated by monitor" during a kill and "terminated by" otherwise |
| Traces.RunPreservesInv | monitor.c:80-101 | in every run, a state about to spawn has no child, no window and no kill in progress; a waiting state has a nonzero `childpid`; an open window always has a pending alarm and never overlaps a kill |
| Traces.SpawnStateIsClean | monitor.c:180-182 | in every run from the initial state, `killing` and `starting` are false whenever `startchild` is about to run, so its not clearing `killing` is harmless |
| Traces.InfantDeathAbandons | monitor.c:244-251 | in every run, a child reaped while the startup window is open makes the monitor exit 1, whatever its exit status |
| Traces.StartingOnlySetBySpawn | monitor.c:180 | a run with no `startchild` step never opens the startup window |
| Traces.KillingOnlyClearedByHangup | monitor.c:263-264 | a run with no SIGHUP never clears a kill in progress |
| Traces.TerminateEscalates | monitor.c:122-134 | repeated SIGTERM or SIGINT requests to a live child send SIGTERM once (unless a kill was already in progress) and SIGKILL every later time, and the kill stays in progress |
| Traces.ReloadThenDeathRestarts | monitor.c:257-265 | after a SIGHUP is forwarded, a death of the child leads to a restart, even if a kill was in progress before the SIGHUP |
| Traces.ForkFailureTargetsEveryProcess | monitor.c:153-156 | after a failed fork, the next SIGTERM is sent to pid -1, and every `wait` outcome left either retries or exits 1 |
| Traces.DeathLogMatchesOutcome | monitor.c:222-253 | a death logged at notice level always ends the monitor with status 0, and a death followed by a restart, when logged, is logged as an error |
| Traces.RestartsMatchDeaths | monitor.c:215-254 | children that die after the startup window, with no signal from the monitor, are restarted one for one: as many "restarted" lines as deaths, and the monitor ends up waiting on the last new child |
| Naming.LastIndex | monitor.c:316 | strrchr: the result is an occurrence of the character with no later occurrence, or there is no occurrence at all |
| Naming.BaseName | monitor.c:316-323 | the program name is the slash-free suffix of the command that follows its last '/', or the whole command when it has no '/' |
| Naming.Decimal | monitor.c:331-332 | `%d` of the pid is a non-empty string of digits with no leading zero: it starts with '0' exactly when the pid is 0 |
| Naming.DecimalRoundTrip | monitor.c:331-332 | reading the digits back gives the pid |
| Naming.StatusFileName | monitor.c:329-332 | the name fits a PATH_MAX buffer: it is the full name `/tmp/<service>.<pid>.status` when that fits, and otherwise its first PATH_MAX - 1 characters |
| Naming.StatusFileNameRoundTrip | monitor.c:331-332 | a status file name that was not truncated parses back to its service name and monitor pid |
| Naming.StatusFileNamesDistinct | monitor.c:331-332 | two monitors that differ in service or pid never share a status file |
| Naming.Configure | monitor.c:308-332 | the usage error happens exactly when no command operand remains; otherwise the program name is the command's base name, the service name is the `-n` value or else the program name, and the status file is named after the service and pid |
| Naming.OptionsOnlyPassUsageCheck | monitor.c:308-316 | `monitor -e` passes the check as written with no command left, and the corrected check refuses it |
| Process.Monitor.constructor | monitor.c:80-101 | the globals start at 0, with no window, no kill and no pending alarm |
| Process.Monitor.KillChild | monitor.c:110-135 | the handler's assignments make exactly the `Supervisor.KillChild` transition |
| Process.Monitor.InterruptChild | monitor.c:262-265 | the handler makes exactly the `Supervisor.InterruptChild` transition |
| Process.Monitor.EndStartup | monitor.c:138-143 | the alarm handler makes exactly the `Supervisor.EndStartup` transition |
| Process.Monitor.StartChild | monitor.c:149-207 | the parent side of `startchild` makes exactly the `Supervisor.StartChild` transition |
| Process.Monitor.HandleDeath | monitor.c:215-254 | makes exactly the `Supervisor.HandleDeath` decision |
| Process.Monitor.WaitReturned | monitor.c:374-388 | one turn of the wait loop makes exactly the `Supervisor.WaitStep` transition |
| Process.Monitor.Deliver | monitor.c:345-361 | each signal reaches the handler it is installed for: SIGTERM and SIGINT reach `killchild`, and SIGHUP reaches `interruptchild` |
| Process.Monitor.Supervise | monitor.c:366-388 | running the main thread with handlers in between ends in the state, with the actions, that `Traces.Run` gives for the same events |

## Findings

| source | as written | input that shows it | evidently intended | confidence | as-written member | corrected member |
|---|---|---|---|---|---|---|
| monitor.c:310-316 | the usage check tests `argc < 2`, not whether a command operand remains, so a command line of options only passes it and `args[0]` is argv's terminating null pointer, which goes to `strrchr` | `monitor -e` (argc 2, optind 2) | print the usage message and exit 1 when no command operand remains | high; not executed | Naming.UsageAccepted, Naming.OptionsOnlyPassUsageCheck | Naming.Configure |

## Left out

- logto.c and setuser.c: each is a straight-line sequence of system calls ending in `execvp`, with no state.
- Option parsing with `getopt` (monitor.c:284-306) is a library call. Its outcome (`optind` and the `-n` value) is a parameter of `Naming.Configure`. The `-e` flag only affects descriptor plumbing in the child.
- The child side of `fork` is not modelled: the `dup2` calls, `execvp`, and the exit 1 when exec fails (monitor.c:157-178).
- syslog, perror and the verbose printf calls are not modelled. Two log outputs are kept: the "started"/"restarted" choice (`Started.restarted`) and the classification of a death (`DeathLog`).
- Writing and removing the status file (monitor.c:186-193, 140-143) is best-effort file I/O. Only the file's name is modelled. A failed `fopen` followed by `fprintf` on the null stream is outside this model.
- Real time is not modelled. `sleep(2)` is the `Spawning` mode between the restart decision and the next `startchild`. `alarm(60)` is the `alarmArmed` flag, plus an event that may fire while it is set.
- Signal delivery inside the main thread's own steps is not modelled. `startchild`, and `handledeath` up to its sleep, run as single steps. For example, a signal that arrives between `fork` returning and `starting = 1` is not covered. Signals that arrive while the monitor is blocked in `wait` or sleeping in `handledeath` are covered.
- Failures of `sigaction` at startup (exit 1 at monitor.c:346-361) and the `dup2(1, 2)` after the first start are not modelled.
- The `on_exit(logexit)` hook is not modelled. It removes the status file and writes a log line at exit.
- Process.Monitor.EndStartup: requires a pending alarm, because it models only the SIGALRM handler. The second caller of `end_startup`, the `logexit` hook at exit, is not modelled.
- Each element of a Dafny string here stands for one C `char`, that is one byte. PATH_MAX truncation therefore counts bytes, and a name with multi-byte characters is outside this model.
- pids are unbounded integers. The monitor does no arithmetic on them, so the width of `int` does not matter.
