# Crafty Server Watcher: the hand-over protocol, verified in Dafny

The watcher puts idle Minecraft servers to sleep, holds their ports while they sleep, and hands the port
back when a player or Crafty itself starts the server.  This project models that behaviour for Java
servers and proves what it promises over every run.

| file | subject |
|---|---|
| `Common.dfy` | options, results, time-ordered logs |
| `ServerState.dfy` | the seven-state machine, its clocks and its 20-entry history; the `ServerStateMachine` object |
| `IdleMonitor.dfy` | what one poll decides; the `IdleMonitor` object |
| `PortControl.dfy` | listener, start lockout, rebind flag; the bind loop; the `ProxyManager` object for any number of servers |
| `Handover.dfy` | one server's coroutines as a step system: polls, listener passes, logins, events, bind loops, API replies |
| `HandoverSafety.dfy` | who may hold the port, the lockout, sockets and bind loops, over all runs |
| `SplitBind.dfy` | the same with a bind attempt in two steps: when that is safe, and when it makes no difference |
| `HandoverHistory.dfy` | machine invariant, bounded history, idle windows, shutdown rate, accounts, refusals, over all runs |
| `Shutdown.dfy` | bounded-time shutdown of an empty server, and exactly when it holds |
| `StateStore.dfy` | saving and loading through wall-clock time; the `StateStore` object |
| `Restart.dfy` | a watcher restarted any number of times against one that never restarts |
| `Lifetime.dfy` | idle windows, shutdown rate and bounded-time shutdown over a whole life with any number of restarts |
| `McProtocol.dfy` | VarInts, packets, handshakes; the readers and the writer as loops over a stream |
| `AccessControl.dfy` | the whitelist cached by mtime against a direct read; the `AccessController` object |
| `Webhook.dfy` | the rate limit on denied notifications; the `WebhookNotifier` object |
| `CraftyEvents.dfy` | finding the event in a webhook payload of any shape, and which fields are read |

How to read it.  Pure functions give each operation's effect on values; the classes' methods run as the
source does and are proved equal to those functions; the step system uses the same functions, so its
theorems speak about the methods.  `Handover.Step` takes one event with the environment's choices in it
(the reading, the socket the OS grants or refuses, the outcome of an API call) at a clock reading that
never goes back.  `Admissible` and `Exec` describe every finite interleaving.  `Trace` only records what an
observer would write down; no step reads it.

Six places where a promise holds only under a condition, each given exactly:

* Restoring a snapshot that says STARTING does not restore the start lockout.  The port of that server is
  safe from then on if and only if the port happens to be locked, or nothing is bound or waiting to bind,
  at that poll (`HandoverSafety.AdoptionIsSafeExactly`; `AdoptionCanUnguard` is a run that breaks it).
* The source promises never to re-bind a port during a start.  A bind is not one step: `start_server`
  suspends between the lockout check and the recording of the listener.  A run keeps the promise at every
  step if and only if no release goes through while a bind is open (`SplitBind.PortSafetyWithSplitBinds`;
  `LoginInsideABind` is a run that breaks it), and such a run ends where a run with whole binds does, so
  everything proved with whole binds holds of it (`SplitBind.DisciplinedRunsAreAtomic`).
* The whitelist is documented to fail open.  It does so for a file that cannot be found.  For one that is
  there and yields no list, a cached mtime that still matches answers from the names read earlier.  Otherwise
  everyone is let in if and only if the read ends in an OS error, a JSON decode error or another JSON value;
  every other error is not caught, such as for bytes that are not UTF-8 or an integer with too many digits
  (`AccessControl.FailsOpenExactly`; `UnreadableFileShutsOut` is a run that refuses a player).
* The state file is documented to load as an empty mapping whenever it is unusable.  The load raises instead,
  out of the poll loop that starts with it, for text whose reading raises past the two caught errors, and for
  a file of the right schema and age with a server table, a history or a count of the wrong type or a
  timestamp too large for a float (`StateStore.LoadRaisesExactly`).  The store never saves such a file
  (`StateStore.SavedFilesLoad`), and one bad entry takes every server with it (`StateStore.OneBadEntryRaises`).
* The flap guard sees only the last 20 starts and stops.  It answers as it would on the full log if and only
  if twice the cycle limit is at most 20 (`ServerState.BoundedHistoryExact`); above that it never holds a stop
  back (`ServerState.FlapGuardCanHoldExactly`).
* A recorded timestamp of exactly 0 reads as absent: a start time of 0 disables the start deadline
  (`Shutdown.ShutdownExactly`), a history entry that loads as 0 is dropped
  (`StateStore.HistorySurvivesExactly`).

"Booting" below means that the machine is STARTING.  A start call can still be in flight for a server that a
stop event has put back to sleep, and then the proxy may hold the port under it: the port is closed for the
call if the server has been awake since the login released it (`HandoverSafety.StartCallFindsThePortClosed`),
and if it sleeps during the pause some continuation binds it (`HandoverSafety.SleepUnderAPauseIsEnough`).

## Model

| member | source | states |
|---|---|---|
| HandoverSafety.PortSafety | crafty_server_watcher/proxy_listener.py:92-263 | in every interleaving from a fresh process, STARTING implies the lockout, and the lockout implies no listener and no open socket, so the proxy never holds the port of a server whose machine is STARTING |
| HandoverSafety.PortSafetyAfterRestore | crafty_server_watcher/server_state.py:147-183 | with a snapshot waiting, the same safety for every run that adopts a STARTING snapshot only while the port is locked or the proxy inactive |
| HandoverSafety.FirstPollIsClean | crafty_server_watcher/idle_monitor.py:144-149 | a snapshot reconciled before any other event always meets that condition |
| HandoverSafety.GuardIsExact | crafty_server_watcher/proxy_listener.py:233-240 | every continuation of a world is safe iff a booting server is locked out or nothing can bind in it |
| HandoverSafety.AdoptionIsSafeExactly | crafty_server_watcher/server_state.py:171 | after adopting a snapshot that leaves the server STARTING, every continuation is safe iff the port was locked or the proxy inactive |
| HandoverSafety.AdoptionCanUnguard | crafty_server_watcher/server_state.py:163-171 | a three-step run (stop event, rebind, first poll) after which the proxy holds the port of a restored STARTING server |
| HandoverSafety.StepKeepsWired | crafty_server_watcher/proxy_listener.py:219-276 | every step keeps listener, lockout, rebind flag, the single bind loop and the OS sockets consistent |
| HandoverSafety.StepKeepsGuard | crafty_server_watcher/proxy_listener.py:196-213 | every step but an unguarded adoption keeps a booting server protected |
| HandoverSafety.LockoutStep | crafty_server_watcher/proxy_listener.py:97-104 | the lockout is cleared only by a step that leaves STOPPED or CRASHED, and set only by a release |
| HandoverSafety.LockoutOutlivesTheServer | crafty_server_watcher/proxy_listener.py:55-57 | once set, the lockout lasts as long as the machine is neither STOPPED nor CRASHED, over any run |
| HandoverSafety.FailedBootGivesPortBack | crafty_server_watcher/idle_monitor.py:161-172 | a start that never comes up: the first poll past the deadline and the next listener pass unlock the port and bind it or leave a bind loop alive, and from there the first granted attempt of any sleeping run binds, whoever owns the loop |
| HandoverSafety.StopEventTakesPortBack | crafty_server_watcher/proxy_listener.py:153-187 | a stop, kill or crash event unlocks the port, an attempt is possible at once without a poll, by the spawned rebind or by the loop that is live, and the first granted one of any sleeping run binds |
| HandoverSafety.SleepingServerGetsItsPort | crafty_server_watcher/proxy_listener.py:219-257 | in every run in which an unlocked sleeping server stays asleep and the process stays up, a port once bound stays bound and the first attempt the OS grants binds it |
| HandoverSafety.StartCallFindsThePortClosed | crafty_server_watcher/proxy_listener.py:400-416 | at any point of a run that has kept the server awake since a login released its port, so also when the start call is sent, the port is locked with no listener and no socket |
| HandoverSafety.SleepUnderAPauseIsEnough | crafty_server_watcher/proxy_listener.py:146-187 | a server that sleeps while a login is in its pause can always have its port bound when a further start call is sent |
| HandoverSafety.SocketsAreConserved | crafty_server_watcher/proxy_listener.py:241-273 | a bind never replaces a live listener, and exactly one socket is open iff a listener is recorded |
| HandoverSafety.ShutdownLetsGo | crafty_server_watcher/proxy_listener.py:82-114 | a shutdown closes the recorded listener and its socket and changes nothing else |
| HandoverSafety.LoopProgress | crafty_server_watcher/proxy_listener.py:223-263 | a live bind loop is alone, only its own wake-ups change it, and each uses up one of its attempts |
| HandoverSafety.LoopEndsWithin15 | crafty_server_watcher/proxy_listener.py:233 | one loop survives at most 13 wake-ups after its first failed attempt, so it makes at most 15 attempts and 14 sleeps |
| HandoverHistory.MachineInvariant | crafty_server_watcher/server_state.py:103-183 | in every run, restored or not: IDLE has an idle clock, UNKNOWN, ONLINE, STOPPING and STOPPED have none, STARTING has a start time, nothing is in the future, the history is sorted and at most 20 long |
| HandoverHistory.IdleWindowSafety | crafty_server_watcher/idle_monitor.py:130-298 | behind every stop request there is a window of at least the idle timeout in which every poll found the server running, not crashed and empty, even across failed stops that raced with events |
| HandoverHistory.HistoryRefinesLog | crafty_server_watcher/server_state.py:209-214 | over any run, restored or not, the flap answer on the deque is the answer on the full log of starts and stops, which begins with the saved history once a snapshot is adopted |
| HandoverHistory.ShutdownRate | crafty_server_watcher/idle_monitor.py:245-278 | over any run, restored or not, completed idle shutdowns are at least the stop cooldown apart and every flap window holds at most twice the cycle limit of them; a snapshot taken while STOPPING adds its completion, which counts only if the limit allows none |
| HandoverHistory.StartGraceIsKept | crafty_server_watcher/idle_monitor.py:235-243 | over any run no stop is requested within the start grace of a recorded start, the last start of an adopted snapshot included |
| HandoverHistory.LastStartAndStopAreKnown | crafty_server_watcher/server_state.py:118-136 | over any run, restored or not, the machine's last start and last stop are the last entries into STARTING and STOPPED, and nothing else renews or clears them |
| HandoverHistory.PollStopsExactly | crafty_server_watcher/idle_monitor.py:225-278 | after any run a poll requests a stop iff it is quiet, the machine IDLE, and, read off the log of starts and stops alone, grace and cooldown are over, the flap window holds fewer than two marks per cycle and the idle clock is a timeout old, all in seconds |
| HandoverHistory.StartAccounting | crafty_server_watcher/proxy_listener.py:400-416 | over a fresh process starts counted equal releases, start calls plus pauses equal login releases, and starts plus the present sleep are at most the sleeps entered |
| HandoverHistory.OneReleasePerSleep | crafty_server_watcher/proxy_listener.py:116-144 | over every segment of a run the releases in it and the sleep it ends in are covered by the sleeps entered in it and the one it began in, so one sleep yields at most one release |
| HandoverHistory.StopCallsAreAnswered | crafty_server_watcher/idle_monitor.py:278-292 | over every run the stop requests are the answers received plus the one call in flight: the poll loop waits for each |
| HandoverHistory.TasksAreConserved | crafty_server_watcher/proxy_listener.py:183-415 | over every run start calls sent are answers plus calls in flight, and the rebinds spawned, one by each reclaim, are those that ran plus those still to run |
| HandoverHistory.OnlyVainCrashReadingsAreRefused | crafty_server_watcher/server_state.py:111-116 | over any run the refused transitions are exactly the crash readings of a server held to be STOPPED |
| HandoverHistory.StopFailedLandsIdle | crafty_server_watcher/idle_monitor.py:281-292 | the rollback of a failed stop is accepted from every state and leaves the captured idle time |
| ServerState.BoundedHistoryExact | crafty_server_watcher/server_state.py:88 | the 20-entry deque answers the flap question as the full log on every log iff twice the cycle limit fits in it |
| ServerState.FlapGuardCanHoldExactly | crafty_server_watcher/server_state.py:209-214 | some machine can be held back by the flap guard at some instant iff twice the cycle limit is at most 0, or fits in the deque with a window that is not empty |
| ServerState.GraphByTarget | crafty_server_watcher/server_state.py:30-49 | from which states each state can be entered: IDLE, ONLINE and STOPPED from all others, CRASHED from all but STOPPED, STARTING only from sleep, STOPPING only from IDLE, UNKNOWN never |
| ServerState.TransitionTouches | crafty_server_watcher/server_state.py:103-143 | field by field, which accepted transitions write a timestamp, count, history or idle clock, that no other does, and that a refused one changes nothing but the warning count |
| ServerState.BoundedCount | crafty_server_watcher/server_state.py:211-213 | the deque counts the smaller of 20 and what the time-ordered log counts |
| ServerState.MoveKeepsInv | crafty_server_watcher/server_state.py:103-143 | any requested transition keeps the machine invariant |
| ServerState.RestoreKeepsInv | crafty_server_watcher/server_state.py:147-183 | adopting or discarding a sound snapshot keeps it too |
| ServerState.AdoptedExactly | crafty_server_watcher/server_state.py:157-177 | by name: a running server adopts ONLINE, IDLE, STOPPING and STARTING, one that is not adopts UNKNOWN, STOPPED and CRASHED, with every saved field and the last 20 of the history, and any other snapshot leaves the machine as it was |
| ServerState.GuardsLetGoExactly | crafty_server_watcher/server_state.py:187-214 | grace and cooldown end their configured minutes after the last start and stop, the flap guard counts the history entries younger than its minutes, the timeout is reached its minutes after the idle clock's start |
| ServerState.StateNameRoundTrip | crafty_server_watcher/server_state.py:18-27 | a state saved by name is recognised as itself |
| ServerState.StateNamesAreFixed | crafty_server_watcher/server_state.py:18-27 | the seven names written, and that no other text is recognised |
| ServerState.ServerStateMachine.Transition | crafty_server_watcher/server_state.py:103-143 | the object's whole new state, and that the change callback fires exactly for an accepted change |
| ServerState.ServerStateMachine.Restore | crafty_server_watcher/server_state.py:147-183 | adopts iff the saved state is known and agrees with the live server, else changes nothing |
| IdleMonitor.StopRequestedExactly | crafty_server_watcher/idle_monitor.py:225-278 | a stop is requested iff the machine is IDLE, the reading quiet, and neither grace, cooldown, flap guard nor timeout holds it back |
| IdleMonitor.ReadingSettles | crafty_server_watcher/idle_monitor.py:151-227 | the state after a crash reading and after one that is not running, and after a running one of any machine not booting or stopping |
| IdleMonitor.BootEndsExactly | crafty_server_watcher/idle_monitor.py:161-200 | STARTING ends exactly at a crash, a ping of a running server, or past the deadline, and where it then leads |
| IdleMonitor.StoppingEndsExactly | crafty_server_watcher/idle_monitor.py:151-212 | a shutdown under way ends exactly when the server is down or crashed; until then a poll, whoever is on the server, changes nothing and requests nothing |
| IdleMonitor.FirstPollBelievesTheServer | crafty_server_watcher/idle_monitor.py:144-208 | after the first poll, whatever snapshot waited, a server that is not up is STOPPED or CRASHED and one that is up is neither these nor UNKNOWN |
| IdleMonitor.IdleAfterPoll | crafty_server_watcher/idle_monitor.py:202-227 | IDLE after a poll means a quiet reading, and a clock that is kept or starts now |
| IdleMonitor.PollRefusals | crafty_server_watcher/idle_monitor.py:152-154 | the only transition a poll requests in vain is a crash reading while STOPPED |
| IdleMonitor.FailedStopRetries | crafty_server_watcher/idle_monitor.py:281-292 | after a failed stop with no other event the next quiet poll requests the stop again, with the idle time carried over |
| IdleMonitor.StopFailedOutcome | crafty_server_watcher/idle_monitor.py:286-289 | from any state the rollback changes state and idle clock only |
| IdleMonitor.IdleMonitor.PollOne | crafty_server_watcher/idle_monitor.py:130-227 | the object's poll decides as modelled and consumes this server's snapshot only |
| IdleMonitor.IdleMonitor.CheckShutdown | crafty_server_watcher/idle_monitor.py:233-278 | the guards in order, and the idle time captured before the transition clears it |
| IdleMonitor.IdleMonitor.StopCallFailed | crafty_server_watcher/idle_monitor.py:281-292 | the rollback's whole effect |
| PortControl.ReleaseOutcome | crafty_server_watcher/proxy_listener.py:116-144 | a start event releases exactly a sleeping, unlocked server, closing its socket, and otherwise changes nothing and says why |
| PortControl.LoginOutcome | crafty_server_watcher/proxy_listener.py:400-402 | a login wakes a server that is STOPPED or CRASHED, whatever the lockout says, and no other |
| PortControl.PassOutcome | crafty_server_watcher/proxy_listener.py:92-109 | a listener pass lets go of an awake, unlocked server's port, unlocks and holds a sleeping one's, and leaves a locked, awake one alone |
| PortControl.AttemptOutcome | crafty_server_watcher/proxy_listener.py:233-263 | one attempt: given up at a lockout, recorded if granted, retried up to the fifteenth, the rebind flag held exactly as long as there is another |
| PortControl.StartFailedOutcome | crafty_server_watcher/proxy_listener.py:416-422 | the rollback of a failed start call from any port: STOPPED along an accepted edge, unlocked, a listener or loop left alone and otherwise an attempt made |
| PortControl.ReclaimOutcome | crafty_server_watcher/proxy_listener.py:146-194 | a stop, kill or crash event puts an awake server to sleep in the state it names, unlocked, and otherwise changes nothing |
| PortControl.FailedStartUndoesRelease | crafty_server_watcher/proxy_listener.py:416-422 | a failed start call undoes the login's release: asleep, unlocked, bound again if the OS allows |
| SplitBind.PortSafetyWithSplitBinds | crafty_server_watcher/proxy_listener.py:231-251 | with the bind in two steps, a run of a fresh process keeps every socket off a STARTING server's port at every step iff no release goes through while a bind is open |
| SplitBind.PortSafetyAfterRestoreWithSplitBinds | crafty_server_watcher/server_state.py:147-183 | a restored process is safe at every step of a disciplined run that adopts a STARTING snapshot only with no socket on the port and the port locked or nothing left that could bind |
| SplitBind.SafeIffDisciplined | crafty_server_watcher/proxy_listener.py:231-251 | the same from any guarded world without a waiting snapshot |
| SplitBind.SplitGuardIsExact | crafty_server_watcher/proxy_listener.py:233-251 | every disciplined continuation of a world is safe iff a STARTING server has no half-open or recorded bind and is locked, or nothing is left that could bind |
| SplitBind.UndisciplinedStepOccupies | crafty_server_watcher/proxy_listener.py:202-213 | a release inside an open bind, by login or start event and whatever came before, leaves the server STARTING with the socket open |
| SplitBind.LoginInsideABind | crafty_server_watcher/proxy_listener.py:238-247 | a four-step run of a fresh process that ends with a recorded listener on a STARTING server's port |
| SplitBind.DisciplinedRunsAreAtomic | crafty_server_watcher/proxy_listener.py:238-251 | every run without a release inside a bind ends, up to the bind still open, in the world of a run whose binds are single steps |
| SplitBind.AtomicRunsAreSplitRuns | crafty_server_watcher/proxy_listener.py:238-251 | every run with single-step binds is one in which each bind lands as it opens |
| SplitBind.SplitStepKeepsWired | crafty_server_watcher/proxy_listener.py:219-263 | every step keeps the rebind flag equal to a live loop or an open bind, never both, and one socket open iff a listener is recorded or a bind is open |
| PortControl.RebindLoop | crafty_server_watcher/proxy_listener.py:231-263 | the loop binds at the first granted attempt not preceded by a lockout, in at most 15 attempts and 14 sleeps, and always clears the rebind flag |
| PortControl.ProxyManager.EnsureOne | crafty_server_watcher/proxy_listener.py:94-109 | one server's listener pass, and that no other server is touched |
| PortControl.ProxyManager.OpenListener | crafty_server_watcher/proxy_listener.py:219-240 | does nothing for a bound or rebinding server, else makes the first attempt |
| PortControl.ProxyManager.TryBind | crafty_server_watcher/proxy_listener.py:238-263 | one attempt of a registered loop |
| PortControl.ProxyManager.CloseListener | crafty_server_watcher/proxy_listener.py:265-276 | closes exactly the recorded socket |
| PortControl.ProxyManager.OnStartEvent | crafty_server_watcher/proxy_listener.py:116-144 | the start event for any name, unknown ones included |
| PortControl.ProxyManager.OnStopEvent | crafty_server_watcher/proxy_listener.py:146-194 | the stop, kill and crash events for any name |
| PortControl.ProxyManager.OnLogin | crafty_server_watcher/proxy_listener.py:400-402 | a login releases the port iff the server sleeps |
| PortControl.ProxyManager.OnStartCallFailed | crafty_server_watcher/proxy_listener.py:416-422 | the rollback of a failed start call |
| Shutdown.ShutdownExactly | crafty_server_watcher/idle_monitor.py:178-292 | every schedule of quiet polls that keeps its pace up to its first stop request makes that request within start timeout + longest guard + 3 poll gaps, iff the cycle limit is at least 1, the machine is not STOPPING, and not STARTING with a start time of 0 |
| Shutdown.BoundedShutdown | crafty_server_watcher/idle_monitor.py:178-227 | the bound, from any other machine that satisfies its invariant |
| Shutdown.NeverStops | crafty_server_watcher/idle_monitor.py:190-212 | in the excepted cases no number of quiet polls with a failing ping requests a stop |
| Shutdown.EmptyServerIsStopped | crafty_server_watcher/idle_monitor.py:67-95 | from any reachable world, a world after a failed stop included, the run itself requests a stop within the bound, with listener passes, bind loops and start calls interleaved; quiet and pace are asked of the run only up to that request |
| StateStore.ElapsedSurvives | crafty_server_watcher/state_store.py:107-182 | every adopted timestamp has aged by exactly the wall-clock gap between save and load |
| StateStore.DumpThenLoad | crafty_server_watcher/state_store.py:111-182 | a saved machine loads as itself moved by the difference of the clock origins, less history entries at 0 |
| StateStore.HistorySurvivesExactly | crafty_server_watcher/state_store.py:177-179 | the history survives whole iff no entry lands on 0 |
| StateStore.RoundTripKeepsInv | crafty_server_watcher/state_store.py:155-182 | a machine satisfying its invariant loads as a snapshot that satisfies it, if the wall clock did not go back |
| StateStore.SaveThenLoad | crafty_server_watcher/state_store.py:59-189 | all servers are found again iff the age is between 0 and 24 hours, and a server saved before its snapshot was consumed is not adopted as running |
| StateStore.StateStore.Save | crafty_server_watcher/state_store.py:59-86 | the file is replaced whole or kept, and one failure turns the store off |
| StateStore.StateStore.Load | crafty_server_watcher/state_store.py:130-189 | the checks in order, and the loop over the saved servers: the error of any entry is the error of the load, else it yields exactly the entries that are objects |
| StateStore.LoadEntries | crafty_server_watcher/state_store.py:170-182 | the loop raises iff some entry does, and otherwise restores every object entry and nothing else |
| StateStore.LoadRaisesExactly | crafty_server_watcher/state_store.py:137-182 | the load raises iff the read raises past its handlers, or the schema fits and the save time is too large for a float, or schema and age fit and the table is no object or an entry has an oversized timestamp, a history that cannot be iterated or a count int() refuses; any other unusable file loads as an empty mapping |
| StateStore.SavedFilesLoad | crafty_server_watcher/state_store.py:72-86 | a file the store saved never raises |
| StateStore.OneBadEntryRaises | crafty_server_watcher/state_store.py:171-181 | one bad entry in a current file makes the whole load raise |
| StateStore.EntryRaisesExactly | crafty_server_watcher/state_store.py:165-182 | which types in which fields make an entry raise |
| StateStore.CountExactly | crafty_server_watcher/state_store.py:180-181 | what int(value or 0) refuses, and that it truncates towards zero |
| StateStore.ForeignEntryLoads | crafty_server_watcher/state_store.py:174-182 | what any entry that loads is read as, whoever wrote it: text as state, numbers as times, and of the history the numbers that do not land on 0 |
| StateStore.UsedExactly | crafty_server_watcher/state_store.py:146-173 | a file is used iff its schema equals 1 and its save time is NaN or a number from now back to 24 hours ago, and then exactly its object entries are restored |
| Restart.RestartsAreTransparent | crafty_server_watcher/state_store.py:1-15 | along any history of polls, transitions, failed stops and restarts with a usable file, the stops requested are those of a watcher that never restarted |
| Restart.FirstStartMirrors | crafty_server_watcher/state_store.py:130-141 | a first start without a file is a valid beginning of such a history |
| Restart.AnswersSurviveRestarts | crafty_server_watcher/server_state.py:187-214 | afterwards idle, grace, cooldown and flap answers agree at every instant |
| Restart.DecideShifts | crafty_server_watcher/idle_monitor.py:151-227 | a poll's decision does not depend on the clock's origin |
| Lifetime.IdleWindowAcrossRestarts | crafty_server_watcher/state_store.py:3-6 | over a whole life with any number of restarts, behind every stop lies a window at least the idle timeout long in which every poll of every process was quiet |
| Lifetime.ShutdownRateAcrossRestarts | crafty_server_watcher/idle_monitor.py:245-278 | over a whole life the shutdowns completed under all processes are at least the stop cooldown apart and every flap window holds at most twice the cycle limit of them |
| Lifetime.EmptyServerIsStoppedDespiteRestarts | crafty_server_watcher/state_store.py:3-6 | however often the watcher is restarted, an empty server whose polls keep their pace is asked to stop within the bound that holds without restarts |
| Lifetime.RestartKeepsTheCountdown | crafty_server_watcher/state_store.py:3-6 | a concrete life, on any clocks: one quiet poll, a restart, and the first poll of the new process requests the stop with the whole idle time |
| Lifetime.CompletionsAreLived | crafty_server_watcher/server_state.py:171-177 | each completed shutdown of the uninterrupted machine is seen by the process running at the time, and no other |
| McProtocol.VarintRoundTrip | crafty_server_watcher/mc_protocol.py:24-57 | every signed 32-bit value reads back consuming exactly what was written; 2^31 to 2^32 - 1 come back reduced by 2^32 |
| McProtocol.VarintIsMinimal | crafty_server_watcher/mc_protocol.py:43-57 | nothing shorter reads as the same value |
| McProtocol.VarintExactly | crafty_server_watcher/mc_protocol.py:24-40 | what any byte string reads as: the number ends at the first of five bytes below 128, its value is its 7-bit groups from the least significant on, less 2^32 if bit 31 is set; otherwise the end of input or the fifth byte refuses it |
| McProtocol.PacketRoundTrip | crafty_server_watcher/mc_protocol.py:88-125 | a built packet reads back before any trailing bytes iff its body is at most 2 MiB |
| McProtocol.PacketLayout | crafty_server_watcher/mc_protocol.py:122-125 | a built packet is a length that reads as the number of bytes after it, an id that reads as its own, and the payload |
| McProtocol.PacketRefusedExactly | crafty_server_watcher/mc_protocol.py:88-119 | which bytes are no packet and with which error: no length, one not positive, over 2 MiB or longer than what follows, or no id within the body |
| McProtocol.StreamRoundTrip | crafty_server_watcher/mc_protocol.py:88-125 | a stream of built packets reads back as the same list with the trailing bytes untouched |
| McProtocol.UtfRoundTrip | crafty_server_watcher/mc_protocol.py:60-72 | a length-prefixed text reads back, whatever follows (a login's name before its UUID) |
| McProtocol.UtfExactly | crafty_server_watcher/mc_protocol.py:60-66 | what any bytes read as a text: those the length counts, all that are left if it is negative, an error if there are fewer or they do not decode |
| McProtocol.HandshakeRoundTrip | crafty_server_watcher/mc_protocol.py:142-148 | an encoded handshake parses back to its four fields |
| McProtocol.HandshakeParts | crafty_server_watcher/mc_protocol.py:142-148 | any bytes that read as a version, an address, two bytes of a big-endian port and a state, in this order, read as that handshake |
| McProtocol.ReadVarint | crafty_server_watcher/mc_protocol.py:24-40 | the in-memory reader's value, error and consumption |
| McProtocol.ReadVarintAsync | crafty_server_watcher/mc_protocol.py:106-119 | the network reader agrees with it in value and consumption on everything either accepts |
| McProtocol.WriteVarint | crafty_server_watcher/mc_protocol.py:43-57 | the writer's loop produces the encoding, for every integer |
| McProtocol.ReadPacket | crafty_server_watcher/mc_protocol.py:88-103 | the reader's packet, errors and consumption |
| AccessControl.CacheAgreesWithDirectRead | crafty_server_watcher/access_control.py:55-129 | after any edits, disappearances, reloads and queries in which an mtime identifies a path's content, the cached answer is the uncached rule on the current file |
| AccessControl.FreshCacheAnswersDirectly | crafty_server_watcher/access_control.py:69-107 | a cache that agrees with the disk answers as the rule does |
| AccessControl.ListedPlayersOnly | crafty_server_watcher/access_control.py:77-88 | a whitelist that can be read lets in exactly the players whose folded name equals that of some entry of the file or of the configuration |
| AccessControl.EditKeepingMtimeIsMissed | crafty_server_watcher/access_control.py:106-107 | an edit that keeps the mtime is not noticed |
| AccessControl.FailsOpenExactly | crafty_server_watcher/access_control.py:72-75 | when the file yields no list, an unlisted player is let in iff the file is not found, or a cached mtime matches and the cached names hold the player, or none matches and the read raises no error beyond those the source catches |
| AccessControl.ShutOutOnlyBy | crafty_server_watcher/access_control.py:106-113 | after any history of edits, reloads and queries, such a player is kept out only by a read error the source does not catch or by a list without the player that an earlier query read at the mtime the file still has |
| AccessControl.UnreadableFileShutsOut | crafty_server_watcher/access_control.py:106-107 | a run in which an unreadable file with an unchanged mtime refuses a player the documented rule lets in |
| AccessControl.CachedNamesWereRead | crafty_server_watcher/access_control.py:119-129 | whatever the cache holds was read off its path, at its mtime, by an earlier query with no reload since |
| AccessControl.ProblemIsLoggedOnce | crafty_server_watcher/access_control.py:131-139 | repeating a failing query logs its problem at most once |
| AccessControl.QueryLogsExactly | crafty_server_watcher/access_control.py:96-139 | a query logs iff it has to look at the file and meets a problem other than the one logged last, and what it does to the cache then |
| AccessControl.ReloadStartsAfresh | crafty_server_watcher/access_control.py:55-62 | after a reload the next query answers and logs as a new controller would, a problem logged before included |
| AccessControl.AccessController.Load | crafty_server_watcher/access_control.py:90-129 | the cache's whole new state for every kind of file |
| AccessControl.AccessController.Allows | crafty_server_watcher/access_control.py:69-88 | the object's answer and cache effect |
| AccessControl.AccessController.Update | crafty_server_watcher/access_control.py:55-62 | a reload drops the cached list |
| Webhook.EveryAttemptIsAccountedFor | crafty_server_watcher/webhook.py:113-125 | per server, attempts equal messages plus the suppressed counts they report plus the pending count |
| Webhook.MessagesAreSpaced | crafty_server_watcher/webhook.py:118-125 | messages about one server are at least the cooldown apart |
| Webhook.SuppressedExactly | crafty_server_watcher/webhook.py:119-122 | a refusal goes unannounced iff the last message about its server is younger than 60 seconds per configured minute (0 for a negative setting), and otherwise the message names it and its time |
| Webhook.CooldownExactly | crafty_server_watcher/webhook.py:51 | the cooldown is the configured minutes in seconds, and none for zero or fewer |
| Webhook.WebhookNotifier.NotifyDenied | crafty_server_watcher/webhook.py:110-141 | the limiter's whole new state and the message sent, if any |
| CraftyEvents.EnvelopeIndependence | crafty_server_watcher/crafty_events.py:84-139 | when every carrier within depth six renders the same pair, the parser returns that pair wherever it is nested and whatever else is in the payload |
| CraftyEvents.TemplateIsRead | crafty_server_watcher/crafty_events.py:45-118 | the documented body template, rendered into a string anywhere within depth six, is read as exactly its server_id and event |
| CraftyEvents.TopLevelIsRead | crafty_server_watcher/crafty_events.py:119-125 | where no string carries anything the payload's own fields are read |
| CraftyEvents.PayloadAnswers | crafty_server_watcher/crafty_events.py:109-125 | each half is that of the first string of the walk whose object has it, whatever the other half is, and else the top-level object's |
| CraftyEvents.HalvesAreIndependent | crafty_server_watcher/crafty_events.py:127-139 | a half the payload gives is kept while the other is looked for in the raw text |
| CraftyEvents.PlainScan | crafty_server_watcher/crafty_events.py:127-137 | without a payload the event is the first of the seven names, in their order, that stands in the text, the id a known one that does, and None iff either is missing |
| CraftyEvents.FieldsRead | crafty_server_watcher/crafty_events.py:113-118 | the id is a text under server_id; the event is a text under event, or under event_type where event is missing or falsy |
| CraftyEvents.WalkIsExact | crafty_server_watcher/crafty_events.py:58-69 | the walk yields a string iff some path of at most six children leads to it |
| CraftyEvents.WalkInOrder | crafty_server_watcher/crafty_events.py:58-69 | the walk yields one string for each place at most six levels down, in the order of the text |
| CraftyEvents.FirstOfIsFirst | crafty_server_watcher/crafty_events.py:109-118 | the answer is that of the first string of the walk that has one |
| CraftyEvents.DepthIsExact | crafty_server_watcher/crafty_events.py:47-61 | a string wrapped in n lists is within a depth iff n does not exceed it |
| CraftyEvents.FirstIsTheOnly | crafty_server_watcher/crafty_events.py:109-118 | carriers that agree fix both answers, and without carriers there is none |
| CraftyEvents.ParseEvent | crafty_server_watcher/crafty_events.py:84-139 | which results are possible: payload first, then the plain scan, None iff a half is missing |
| CraftyEvents.ScanForEvent | crafty_server_watcher/crafty_events.py:129-130 | the first known event name that occurs, in the listed order |
| CraftyEvents.ScanForId | crafty_server_watcher/crafty_events.py:127-128 | some known id that occurs, if any does |

## Left out

- HandoverSafety.PortSafety: takes one bind attempt and one listener close as single steps; `SplitBind` splits a bind that is granted, with the socket open from the lockout check on, and no close.
- HandoverHistory.ShutdownRate: has fixed settings, and counts the completions of the current process only; `Lifetime.ShutdownRateAcrossRestarts` counts those of all processes, along histories whose files are used at each restart.
- HandoverHistory.IdleWindowSafety: speaks of the polls of the current process; `Lifetime.IdleWindowAcrossRestarts` covers those of all processes, along the same histories.
- Lifetime.IdleWindowAcrossRestarts: needs each restart to find its file usable and its first poll to agree with what was saved, as `Restart.Faithful` says, and the wall clock not to go back.
- Shutdown.EmptyServerIsStopped: excludes failing start calls left over from a login, which move the machine like an event does.
- Restart.RestartsAreTransparent: takes both clocks to run at the same rate, and each server's file to be its own last save; `StateStore.SaveThenLoad` says what a save does to a server whose snapshot still waits.
- Handover.Step: one clock reading serves a whole step, and the two-second sleeps and five-second pause may take any time.
- The poll loop's retries, failure counter and 403 handling: a failed poll changes no state and is not a step.
- Configuration reload: settings are constant, except for the whitelist.
- Log texts, webhook texts and the webhook's HTTP call; only refused transitions and whitelist problems are counted.
- Bedrock servers: their proxy moves to STARTING only after its pause, so these results do not carry over to it.
- The HTTP event endpoint, health and metrics pages, and the Crafty API client: their outcomes are event parameters.
- Status pings, the disconnect and pong builders: fixed layouts over `McProtocol.BuildPacket`.
- JSON text, UTF-8, case folding and what int() makes of a text are parameters; a parsed object is taken to have distinct keys.
- File paths hold no NUL character.
- Floating-point rounding: times are real numbers; a state file with an infinite or NaN timestamp loads, as `NotFinite`, and what a process then does with it is not modelled.
- Cached player counts, versions and icons: displayed only.
