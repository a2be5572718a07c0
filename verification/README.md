# TLM in Dafny

TLM (Tiny Login Manager) keeps a user session alive on each seat of a machine.  It is a handful of event-driven state
machines on one main loop: a seat creates, switches, ends and restarts sessions; a remote object brings a session process
down with ever stronger signals; an observer answers login, logout and switch requests over D-Bus one at a time; a manager
shuts everything down; and before seats start, a watcher waits for files to appear.  This project models those machines
and proves what they keep over every run.

Objects that the original updates in place are classes here, one class for each, whose methods follow the original's
branches and state the whole new state in terms of specification functions on values.  What is promised about those
functions is proved beside them as lemmas.  Callbacks are atomic steps.  Whatever comes from outside (clock readings,
whether a process could be spawned, a user looked up, a server started or a password accepted, which file appears next)
is a parameter, so every lemma holds for all of it.

| file | what it models |
|---|---|
| `Paths`, `Inotify` | normalised paths; the file system and one inotify descriptor as the watcher meets them |
| `WatchSpec`, `WatchIndex`, `Watcher`, `WatchDelivery` | waiting for files: the reports owed, the index as values, the code, and what its user gets |
| `Escalation`, `SessionRemote`, `Session` | SIGHUP, SIGTERM, SIGKILL, error, with a count of live timers; the daemon's end and the session process's end |
| `Relogin` | the throttle on fast logins |
| `SeatSpec`, `SeatProofs`, `SeatAnswers`, `SeatObject`, `SessionPool` | the life of a seat: a state machine on values, what every run of it keeps, what it answers case by case, the objects tied to it, and all session objects a seat has ever started |
| `DbusObserver`, `Requests` | the request queue; what a reply tells about the seat |
| `StopLoop`, `Drain`, `Leaving`, `DeferredLogins`, `Manager` | the shutdown loop and what happens after it, as values; which runs of a seat end it; logins that outlive it; the manager itself, with its virtual seats |
| `Decimal`, `UserName`, `CommandLine`, `ConfigStore` | numbers, user name templates, command lines and configuration values as text |
| `DeleteDir` | the recursive delete |

## Where the code does not meet what one would expect

For each of these an input or a run is given, or the condition under which the expected property holds, or both.

- A watched file that exists at registration, but is listed after a missing one that is awaited in the same directory, is
  put on that directory's list without a look at the file system and never reported (`WatchDelivery.CompleteIff`,
  `WatchDelivery.SwallowedExample`).
- When the default user's session ends by itself the default user stays marked active, and the next user to log in gets a
  session of the default user (`SeatProofs.UserAskedForIff`, `SeatProofs.StaleDefault`).
- The record of the next user survives a fatal session error, shutdown and X11 mode; after such an error and somebody
  else's session, the user recorded then is logged in (`SeatProofs.NextForgotten`, `SeatProofs.StaleNext`).
- A switch refused because of the password or because the user is there already is answered with success; and an observer
  made for one seat, which has not connected that seat's signals, answers every supported request with success
  (`Requests.RepliedSuccessIff`).
- A request that arrives while a dispatch is pending gets no dispatch of its own.  How many requests are left is exactly
  the number of such requests less the dispatches that schedule another; an observer made for one seat is done with its
  queue if and only if there never was such a request (`DbusObserver.Backlog`, `DbusObserver.LeftBehind`).
- During shutdown a seat leaves the manager's table only when it hears the end of a live session
  (`Drain.SeatLeavesIff`), and "manager-stopped" waits for the last one (`Drain.StoppedIff`).  A seat whose session is
  closed by a fatal error therefore stays, and for good if nothing starts another session on it
  (`Leaving.QuietLeavesIff`); a deferred, requested or switched login may, and when that session ends the seat leaves
  after all (`DeferredLogins.LeavesAfterFatal`).
- A seat is asked to end its session once more for each time the iterator comes to it after a restart of the shutdown
  loop, which also repeats "manager-stopped".  Every order asks each occupied seat exactly once if and only if all seats
  are occupied or none is (`StopLoop.AskedOnceIff`, `Manager.AskedTwice`).
- Deferred logins outlive the shutdown: a seat that was let go is occupied again if and only if one of them can start
  (`DeferredLogins.RetryOutlivesShutdown`).
- The end of a program is announced if and only if the program dies before the first timer tick after SIGKILL and before
  the session object is disposed of, which is the regular way down; after that tick nobody watches for it any more, and a
  disposal waits for ever (`Session.AnnouncedIff`, `Session.DeathUnnoticed`, `Session.DisposedInSilence`).
- The documentation of the configuration getters says that a null group means General; only the setters and the
  has-key question do that.  It also says that a missing key gives the default; a missing group gives null
  (`ConfigStore.GotBackIff`, `ConfigStore.HasKeyIff`, `ConfigStore.SetIntoGeneral`, `ConfigStore.DefaultIff`).
- The recursive delete follows a link given as its argument, though never one below it (`DeleteDir.FileSystem.DeleteDir`).

## Model

| member | source | states |
|---|---|---|
| Watcher.WatchInfo.AddWatch | src/common/tlm-utils.c:608-664 | the name goes on its directory's list; directories without a list get one, upwards until one has a list already or exists, and only an existing one gets a watch; "ready" exactly for an existing file in a directory that had no list, and then nothing has changed |
| Watcher.WatchInfo.TakeOff | src/common/tlm-utils.c:702-711 | the name is off its list; an emptied list goes together with its watch; the counter stays the number of watches |
| Watcher.WatchInfo.Reattach | src/common/tlm-utils.c:713-737 | the names that waited for a directory that has just appeared wait in it, with one watch, and nobody is called |
| Watcher.WatchInfo.MoveDown | src/common/tlm-utils.c:713-737 | a directory with a list has appeared: the index is exact again, nobody is called, and the source stays |
| Watcher.WatchInfo.HandleCreated | src/common/tlm-utils.c:683-742 | an index exact for the file system before a creation is exact for the one after it; the user is called if and only if a target was created, with the final flag exactly when all exist and none was lost |
| Watcher.WatchInfo.Callback | src/common/tlm-utils.c:666-748 | the same for the whole callback, records of removed watches included; the source stays exactly while some watch is left |
| Watcher.WatchInfo.WatchForFile | src/common/tlm-utils.c:804-815 | one more target registered: reported at once, or awaited and counted |
| Watcher.WatchInfo.WatchForFiles | src/common/tlm-utils.c:784-824 | for any list of targets in any order the index is exact afterwards, the existing ones are reported, and a source is set up exactly when some target is missing |
| Watcher.WatchInfo.HappenAll | src/common/tlm-utils.c:666-748 | any sequence of creations, each followed by its callback, produces exactly the reports that the simple description of the run calls for |
| Watcher.Watch | src/common/tlm-utils.c:608-824 | refinement over whole runs: the reports are the ones expected from targets, files and creations alone; the source is alive at the end exactly unless all targets exist and none was lost |
| WatchIndex.AddNameAwaits | src/common/tlm-utils.c:608-639 | registering a path adds it and the missing directories above it to the awaited names, and nothing else, although the recursion stops at the first directory that has a list |
| WatchIndex.AddNameWatching | src/common/tlm-utils.c:635-657 | afterwards the live watches are again exactly on the existing directories that have a list, one each |
| WatchIndex.ChainAwaited | src/common/tlm-utils.c:626-638 | every missing directory above a listed one is itself awaited |
| WatchIndex.SomeWatchAbove | src/common/tlm-utils.c:608-664 | above every listed directory there is a watched one: nothing is awaited in vain |
| WatchIndex.DropNameAwaits | src/common/tlm-utils.c:693-711 | a name that appears is off its list, and all else is awaited as before |
| WatchIndex.DropNameWatching | src/common/tlm-utils.c:702-730 | watches stay exact when an emptied list goes and a new directory gets its watch |
| WatchIndex.Creating | src/common/tlm-utils.c:683-742 | a creation step keeps the index exact, and the created path is a target if and only if it has no list |
| WatchIndex.CreatedIsTarget | src/common/tlm-utils.c:714-741 | an awaited path that appears is either a target or a directory that has a list, never both |
| WatchIndex.NotAwaited | src/common/tlm-utils.c:693-699 | a creation the index has no name for concerns no target |
| WatchIndex.NoWatchLeft | src/common/tlm-utils.c:747 | no watch is left if and only if every target exists and none was lost |
| WatchIndex.ListedWaits | src/common/tlm-utils.c:626-630 | during registration an existing directory has a list exactly when an earlier target waits in it |
| WatchIndex.RegisterStep | src/common/tlm-utils.c:804-815 | one turn of the registration loop keeps the index exact; a target is ready exactly when it exists and is not swallowed |
| WatchDelivery.ReportedExactlyOnce | src/common/tlm-utils.c:680-747 | at the end of every run exactly the existing targets have been reported, once each, less the lost ones |
| WatchDelivery.ReportedOnlyWhenExisting | src/common/tlm-utils.c:804-811 | after every prefix of a run the reports cover only targets that exist by then |
| WatchDelivery.FinalExactlyLast | src/common/tlm-utils.c:740 | a report is final if and only if it is the last one, all targets exist and none was lost |
| WatchDelivery.CompleteIff | src/common/tlm-utils.c:626-630 | every target gets reported if and only if no existing target is listed after a missing one that waits in its directory |
| WatchDelivery.SwallowedExample | src/common/tlm-utils.c:626-630 | with /b missing and /a present, asking for /b and /a never reports /a |
| WatchDelivery.IndexIsMissingTargets | src/common/tlm-utils.c:608-748 | the listed paths without a list of their own are exactly the missing and the lost targets; the watched directories are exactly their deepest existing ancestors |
| WatchDelivery.RegisteredPaths | src/common/tlm-utils.c:804-815 | registration reports the existing targets, once each, less the lost ones |
| WatchDelivery.DeliveredPaths | src/common/tlm-utils.c:680-742 | the callbacks report exactly the targets created during the run, once each |
| WatchDelivery.DeliveredFinal | src/common/tlm-utils.c:740 | of the callbacks' reports only the last can be final |
| Escalation.TerminateBalanced | src/daemon/tlm-session-remote.c:552-576 | a terminate call raises the potential (signals left plus live timers) by at most three |
| Escalation.TickBalanced | src/daemon/tlm-session-remote.c:168-218 | a timer tick lowers it by exactly one |
| Escalation.KillComesLast | src/daemon/tlm-session-remote.c:175-211 | in every history SIGTERM comes right after SIGHUP, and SIGKILL right after both |
| SessionRemote.Remote.Terminate | src/daemon/tlm-session-remote.c:552-576 | fails exactly without a process; else SIGHUP, and one more timer besides those alive; the object takes the machine's step |
| SessionRemote.Remote.TerminateTimeout | src/daemon/tlm-session-remote.c:168-218 | the machine's step for a tick: SIGTERM after SIGHUP, SIGKILL after SIGTERM, and after SIGKILL an error unless silenced and the end of this timer |
| SessionRemote.Remote.OnChildDown | src/daemon/tlm-session-remote.c:90-111 | only the timer remembered last is removed; "terminated" unless silenced |
| SessionRemote.Remote.OnProxySignal | src/daemon/tlm-session-remote.c:406-451 | end and error are passed on unless silenced, the creation always |
| SessionRemote.Remote.OnCreateFailed | src/daemon/tlm-session-remote.c:369-386 | the error of a failed creation call is passed on, even by a silenced object |
| SessionRemote.Remote.BeginDispose | src/daemon/tlm-session-remote.c:220-229 | silenced; a running process is asked to end, by one more terminate call |
| SessionRemote.Remote.EndDispose | src/daemon/tlm-session-remote.c:234-245 | the remembered timer and the last signal are gone; timers of earlier terminate calls are not |
| SessionRemote.Remote.Dispose | src/daemon/tlm-session-remote.c:220-278 | both, when the end of the process is all that happens in between |
| SessionRemote.Escalate | src/daemon/tlm-session-remote.c:90-278 | for every interleaving of n terminate calls and disposals, ticks, also those in the main loop inside a disposal, and the death of the process, the object is where the machine is, and that has cost at most 3n ticks, 2n SIGTERMs and SIGKILLs and n errors, with signals only in ladders |
| SessionRemote.RemoteStepKeeps | src/daemon/tlm-session-remote.c:90-218 | every step keeps signals, timers, ticks and errors within what the terminate calls have paid for |
| SessionRemote.RemoteAccount | src/daemon/tlm-session-remote.c:90-218 | so does every run |
| SessionRemote.UpUntilChildDown | src/daemon/tlm-session-remote.c:90-111 | the process counts as running exactly until its death is noticed, whatever else happens |
| SessionRemote.TickSends | src/daemon/tlm-session-remote.c:175-190 | a live timer that ticks after SIGHUP sends SIGTERM, after SIGTERM sends SIGKILL, and lives on; one left over without a last signal ends itself and sends nothing |
| SessionRemote.TickGivesUp | src/daemon/tlm-session-remote.c:191-218 | a tick after SIGKILL ends its timer, and counts and emits the termination error exactly unless the object is silenced |
| SessionRemote.ThreeTicks | src/daemon/tlm-session-remote.c:168-218 | a process that is asked to end and does not is sent SIGHUP, SIGTERM and SIGKILL by one timer, which then ends with one error |
| SessionRemote.TicksWork | src/daemon/tlm-session-remote.c:168-218 | over every run the ticks are exactly the SIGTERMs and SIGKILLs sent plus the timers ended by a tick of their own |
| SessionRemote.DeathLeavesTimers | src/daemon/tlm-session-remote.c:90-111 | the death of the process ends the timer started last and no other |
| SessionRemote.DisposalAsks | src/daemon/tlm-session-remote.c:220-245 | a disposal silences the object, sends SIGHUP to a running process and waits, and its death is then not announced; without a process nothing is sent |
| SessionRemote.WhatIsSaid | src/daemon/tlm-session-remote.c:406-451 | what the death, the word of the process and a failed call make an object emit, silenced or not |
| Session.UserSession.ClearSession | src/sessiond/tlm-session.c:490-522 | the remembered timer, the child watch and the session's details are gone, nothing else |
| Session.UserSession.Terminate | src/sessiond/tlm-session.c:923-952 | without a child the end is announced at once; else SIGHUP and one more timer |
| Session.UserSession.TerminateTimeout | src/sessiond/tlm-session.c:874-921 | one rung up; after SIGKILL the session is cleared under a child that counts as running |
| Session.UserSession.OnChildDown | src/sessiond/tlm-session.c:524-542 | the session is cleared and its end announced unless silenced |
| Session.UserSession.Announce | src/sessiond/tlm-session.c:540-541 | the end is announced unless the object is silenced |
| Session.SessionStepKeeps | src/sessiond/tlm-session.c:874-952 | every step keeps signals, timers, ticks and errors within what the terminate calls have paid for |
| Session.TickSends | src/sessiond/tlm-session.c:881-900 | a live timer that ticks after SIGHUP sends SIGTERM, after SIGTERM sends SIGKILL, and lives on, with nothing else touched |
| Session.TickGivesUp | src/sessiond/tlm-session.c:901-921 | a tick after SIGKILL ends its timer and clears the session, with one error exactly unless silenced; the program still counts as running |
| Session.ThreeTicks | src/sessiond/tlm-session.c:874-921 | a program that is asked to end and does not is sent SIGHUP, SIGTERM and SIGKILL by one timer, which then ends with one error |
| Session.TicksWork | src/sessiond/tlm-session.c:874-921 | over every run the ticks are exactly the SIGTERMs and SIGKILLs sent plus the timers ended by a tick of their own |
| Session.DeathClears | src/sessiond/tlm-session.c:524-542 | the death of the program clears the session, ends the timer started last and no other, and is announced unless silenced |
| Session.EndWithoutProgram | src/sessiond/tlm-session.c:923-935 | to end a session without a program clears and announces it and sends nothing |
| Session.DisposalAsks | src/sessiond/tlm-session.c:110-119 | a disposal silences the object and sends a running program SIGHUP; without a program the session is cleared unheard |
| Session.UserSession.BeginDispose | src/sessiond/tlm-session.c:110-119 | silenced; the program is asked to end, and the main loop inside goes on |
| Session.Standing | src/sessiond/tlm-session.c:505-542 | after any number of operations: whether the program counts as running, whether the object is silent, whether the end has been announced, and whether anybody watches for it |
| Session.AnnouncedIff | src/sessiond/tlm-session.c:110-119 | the end of the program is announced if and only if it dies before the first tick after SIGKILL and before any disposal; it counts as running exactly until it dies before such a tick |
| Session.DisposedInSilence | src/sessiond/tlm-session.c:110-119 | a disposal and the prompt death of the program: nobody is told |
| Session.DeathUnnoticed | src/sessiond/tlm-session.c:901-914 | a run in which it dies after that tick and never is |
| Session.Escalate | src/sessiond/tlm-session.c:874-952 | the object is where the machine is, disposals included: the same costs; whether the end has been announced; and it is abandoned exactly if the program counts as running after a tick at SIGKILL |
| Relogin.DeferredIff | src/daemon/tlm-seat.c:587-612 | an attempt is deferred if and only if the three gaps before it are all under a second |
| Relogin.RunLength | src/daemon/tlm-seat.c:589-612 | the counter is the length of the present run of short gaps |
| Relogin.Budget | src/daemon/tlm-seat.c:587-612 | admissions plus the room left are paid for by the whole seconds gone by |
| Relogin.WindowBound | src/daemon/tlm-seat.c:587-612 | in any window of L microseconds at most 3 * (L / 1000000 + 1) attempts are let through at once |
| Relogin.MonotonicRateBounded | src/daemon/tlm-seat.c:587-612 | the bound holds for all windows of any history on a clock that does not run backwards |
| SeatAnswers.FourAttempts | src/daemon/tlm-seat.c:587-612 | of four attempts on a fresh seat the first three are let through, and the fourth is deferred if and only if all three gaps are under 1000000 microseconds |
| SeatAnswers.WindowInFigures | src/daemon/tlm-seat.c:587-612 | the bound on every window, in figures |
| SeatProofs.CreateKeeps | src/daemon/tlm-seat.c:569-686 | a creation, whichever way it goes, keeps sessions conserved, the observer the occupant's, prepare signals paired, attempts accounted for, and leaves no auto-login seat silently idle |
| SeatProofs.StartKeeps | src/daemon/tlm-seat.c:655-685 | the same for the part behind the throttle, where the process or the observer may fail |
| SeatProofs.TerminateKeeps | src/daemon/tlm-seat.c:688-710 | the same for an ended login; the call fails if and only if there is no session, and no default user stays active |
| SeatProofs.SwitchKeeps | src/daemon/tlm-seat.c:471-504 | the same for a switch |
| SeatProofs.EndKeeps | src/daemon/tlm-seat.c:136-191 | the same for the end of a session and the login after it |
| SeatProofs.ErrorKeeps | src/daemon/tlm-seat.c:193-211 | the same for an error |
| SeatProofs.RetryKeeps | src/daemon/tlm-seat.c:542-567 | the same for a deferred creation |
| SeatProofs.StepKeeps | src/daemon/tlm-seat.c:125-211 | every event keeps all of it |
| SeatProofs.RunFromKeeps | src/daemon/tlm-seat.c:125-211 | so does every run, from any state |
| SeatProofs.RunKeeps | src/daemon/tlm-seat.c:125-211 | so everything holds in every state that can be reached |
| SeatProofs.SessionConservation | src/daemon/tlm-seat.c:125-211 | over every run, sessions started are "terminated" signals plus sessions closed on an error plus the live one, although a session has two sources of "terminated" |
| SeatProofs.StartsBounded | src/daemon/tlm-seat.c:587-612 | between any two points of a run, no more sessions start than attempts are let through at once |
| SeatProofs.SessionRate | src/daemon/tlm-seat.c:587-612 | between any two points of a run at most 3 * (L / 1000000 + 1) sessions start, L being the time from the first attempt between them to the last on a clock that does not run backwards, and none without an attempt; every attempt was let through, waits as one retry, or was tried again |
| SeatProofs.SwitchStays | src/daemon/tlm-seat.c:496-503 | while a session lives, its recorded switch is the one accepted last, and no default user is active |
| SeatProofs.HandOver | src/daemon/tlm-seat.c:176-190 | when that session ends there is one attempt, with exactly the recorded login; then the record is gone; served, it gives that user a session and an observer, deferred, it waits with that login |
| SeatProofs.SwitchLasts | src/daemon/tlm-seat.c:496-503 | through any events under one session the record is that of the last accepted switch |
| SeatProofs.SwitchedUserComes | src/daemon/tlm-seat.c:471-504 | the hand-over over whole runs: from any state, any switches and other events under one session, then its end |
| SeatProofs.NextForgotten | src/daemon/tlm-seat.c:158-190 | the record is gone after a session's end if and only if there was none or neither shutdown nor X11 mode holds; a fatal error never clears it |
| SeatProofs.StaleNext | src/daemon/tlm-seat.c:193-211 | a run in which a switch is recorded, its session fails, somebody else logs in, and at the end of that session the recorded user comes |
| SeatProofs.UserAskedForIff | src/daemon/tlm-seat.c:656-659 | a served login gives the user asked for if and only if no other, stale default user is marked active |
| SeatProofs.StaleDefault | src/daemon/tlm-seat.c:646-659 | a run in which a named user is given the default user's session |
| SeatProofs.LifeBalance | src/daemon/tlm-seat.c:125-134 | in a history of one session at a time, starts balance ends, closes and the live one |
| SeatAnswers.UnauthenticatedRefused | src/daemon/tlm-seat.c:483-488 | a switch that is not authenticated, or without a user or a password, is refused on any seat, and nothing at all happens |
| SeatAnswers.RefusalsLeaveNoTrace | src/daemon/tlm-seat.c:483-488 | so any run ends where the same run without such switches ends |
| SeatAnswers.AuthenticatedComes | src/daemon/tlm-seat.c:490-503 | an authenticated switch on a live session succeeds and is recorded, and when that session ends its user gets a session and an observer |
| SeatAnswers.AuthenticatedOnEmpty | src/daemon/tlm-seat.c:490-494 | an authenticated switch on an empty seat is a login at once |
| SeatAnswers.OccupiedRefuses | src/daemon/tlm-seat.c:577-585 | a seat with a session answers a login with SESSION_ALREADY_EXISTS and changes nothing else, the throttle included |
| SeatAnswers.FastLoginWaits | src/daemon/tlm-seat.c:587-628 | a login within a second after a third one within short gaps waits with all that was asked for, and nobody is prepared or told |
| SeatAnswers.NamedLogin | src/daemon/tlm-seat.c:655-685 | a named login that is let through and served gives a session and an observer of that user; the observer before is kept |
| SeatAnswers.DefaultLogin | src/daemon/tlm-seat.c:630-685 | a login without a name prepares the default user, whom the seat keeps, and gives a session of that user |
| SeatAnswers.FailedLogin | src/daemon/tlm-seat.c:655-680 | without a process, and without an observer, a login fails with its own error, and no session is left |
| SeatAnswers.NobodyToLogIn | src/daemon/tlm-seat.c:630-653 | without a default user a login without a name gives no session |
| SeatAnswers.DeferredLogin | src/daemon/tlm-seat.c:542-567 | a deferred login is tried with what was asked for then, and no longer waits |
| SeatAnswers.Logout | src/daemon/tlm-seat.c:688-710 | a logout keeps the session for the time being, says goodbye to an active default user, and fails with SESSION_NOT_VALID exactly without a session |
| SeatAnswers.EndsEmpty | src/daemon/tlm-seat.c:149-190 | the end of a session under shutdown, in X11 mode, or without auto-login and anybody recorded leaves the seat empty, with no attempt made |
| SeatAnswers.ComesBack | src/daemon/tlm-seat.c:149-190 | under auto-login with nobody recorded the default user comes back |
| SeatAnswers.ErrorsThatClose | src/daemon/tlm-seat.c:193-211 | PAM authentication, session creation and session termination failures close the session and its observer; every other error is only passed on |
| SeatAnswers.CreationHeard | src/daemon/tlm-seat.c:110-123 | the creation is announced and the observer of the session before goes |
| SeatAnswers.OthersUnheard | src/daemon/tlm-seat.c:213-242 | any signal but the live session's leaves the seat as it was |
| SeatObject.TlmSeat.CloseActiveSession | src/daemon/tlm-seat.c:125-134 | the session object is disconnected, down and silent, and the seat has none |
| SeatObject.TlmSeat.PassThrottle | src/daemon/tlm-seat.c:587-612 | the fields are those of the throttle's next state, and admission is its answer |
| SeatObject.TlmSeat.PrepareDefault | src/daemon/tlm-seat.c:630-653 | the default user, expanded once from the template, is marked active and announced |
| SeatObject.TlmSeat.NewRemote | src/daemon/tlm-seat.c:655-665 | the seat has a new session object of the user, running and not connected |
| SeatObject.TlmSeat.NewObserver | src/daemon/tlm-seat.c:670-671 | the observer there was becomes the previous one |
| SeatObject.TlmSeat.StartSession | src/daemon/tlm-seat.c:655-685 | without a process or an observer there is an error and no session; else a connected session of the user, and an observer for that user's uid |
| SeatObject.TlmSeat.CreateSession | src/daemon/tlm-seat.c:569-686 | the object takes the state machine's step, its live session always having a running process whose signals arrive |
| SeatObject.TlmSeat.TerminateSession | src/daemon/tlm-seat.c:688-710 | likewise; a live session gets SIGHUP and one more timer |
| SeatObject.TlmSeat.SwitchUser | src/daemon/tlm-seat.c:471-504 | likewise: the answer and the new state are those of the machine's switch, which `SeatAnswers` pins case by case |
| SeatObject.TlmSeat.HandleSessionCreated | src/daemon/tlm-seat.c:110-123 | the creation is announced and the observer of the session before goes |
| SeatObject.TlmSeat.HandleSessionTerminated | src/daemon/tlm-seat.c:136-191 | likewise; the new session, if any, is a fresh object |
| SeatObject.TlmSeat.HandleError | src/daemon/tlm-seat.c:193-211 | likewise; no new session |
| SeatObject.TlmSeat.DelayedSession | src/daemon/tlm-seat.c:542-567 | likewise |
| SeatObject.TlmSeat.Operate | src/daemon/tlm-session-remote.c:90-451 | what a session object emits, and whether its process is up |
| SeatObject.TlmSeat.Deliver | src/daemon/tlm-seat.c:213-242 | whatever a session object does, live or let go, the seat takes a step only if the live one emits something; an object that is replaced is disconnected |
| SeatObject.TlmSeat.Perform | src/daemon/tlm-seat.c:471-710 | every call on a valid seat takes the state machine's step and leaves it valid |
| SeatObject.TlmSeat.PerformRemote | src/daemon/tlm-seat.c:125-211 | so does every event of a session object |
| SessionPool.Pool.Perform | src/daemon/tlm-seat.c:471-710 | with all objects ever started: a call takes the state machine's step, and only the live object, the last, is connected |
| SessionPool.Pool.PerformRemote | src/daemon/tlm-seat.c:213-242 | whatever happens to the object started as number i, what it emits is what session i says to the seat in the state machine |
| SessionPool.Live | src/daemon/tlm-seat.c:125-242 | every run of the objects is a run of the state machine with the same calls, its remote signals being those the objects have emitted |
| DbusObserver.Observer.AddRequest | src/daemon/tlm-dbus-observer.c:553-560 | the request is last in the queue and a dispatch is pending |
| DbusObserver.Observer.ProcessNextRequestInIdle | src/daemon/tlm-dbus-observer.c:541-551 | a dispatch is pending if it was or if anybody waits |
| DbusObserver.Observer.HandleSeatSignal | src/daemon/tlm-dbus-observer.c:562-637 | the active request gets the one reply the signal means for its kind, or nothing happens |
| DbusObserver.Observer.SeatSignalBetween | src/daemon/tlm-dbus-observer.c:562-637 | a signal between dispatches touches no request, no reply and no dispatch |
| DbusObserver.Observer.ProcessRequest | src/daemon/tlm-dbus-observer.c:433-539 | the head of the queue gets exactly one reply, the due one: not supported, seat not found, what the seat's signals mean, or success; the next dispatch is pending exactly if a seat signal brought the reply and somebody waits; the observer takes the machine's step |
| DbusObserver.Observer.CallSeat | src/daemon/tlm-dbus-observer.c:502-523 | of all signals during the call the first completing one gives the reply |
| DbusObserver.Observer.Stop | src/daemon/tlm-dbus-observer.c:698-740 | the active request and all that wait are aborted, in order, and nothing else is said |
| DbusObserver.Serve | src/daemon/tlm-dbus-observer.c:433-740 | over every interleaving the observer is where the machine is, and stopping aborts exactly what waits: one reply for each request, in the order of arrival |
| DbusObserver.DeskStepKeeps | src/daemon/tlm-dbus-observer.c:541-637 | every step keeps the account: arrivals are replies followed by the queue; no dispatch is in vain; the queue is what came under a pending dispatch, less what was scheduled again, plus the pending one |
| DbusObserver.Account | src/daemon/tlm-dbus-observer.c:541-637 | so does every run |
| DbusObserver.Counted | src/daemon/tlm-dbus-observer.c:541-551 | the two counts are those of the steps that arrive under a pending dispatch and that schedule another |
| DbusObserver.Backlog | src/daemon/tlm-dbus-observer.c:541-551 | how many requests are left after any steps; an observer made for one seat is done if and only if no dispatch is pending and no request ever came under one |
| DbusObserver.LeftBehind | src/daemon/tlm-dbus-observer.c:541-551 | two requests and one dispatch leave one request and no dispatch |
| DbusObserver.Served | src/daemon/tlm-dbus-observer.c:698-710 | after any steps and a stop every request has had exactly one reply, in the order of arrival, those that still waited being told that they are aborted |
| DbusObserver.FirstAnswerIsFirst | src/daemon/tlm-dbus-observer.c:573-636 | the reply is that of the first completing signal |
| DbusObserver.NoAnswer | src/daemon/tlm-dbus-observer.c:525-527 | there is no signal's reply, and the clean-up gives one, if and only if no signal completes the request |
| DbusObserver.UnknownSeat | src/daemon/tlm-dbus-observer.c:486-491 | after any steps, a dispatch that finds no seat for a supported request appends SEAT_NOT_FOUND for it, schedules nothing and changes nothing else |
| DbusObserver.UnsupportedKind | src/daemon/tlm-dbus-observer.c:454-460 | one for a request that is not supported appends DBUS_REQ_NOT_SUPPORTED, whatever the seat |
| DbusObserver.SilentSeat | src/daemon/tlm-dbus-observer.c:525-539 | one that meets a silent seat appends success and schedules nothing |
| DbusObserver.TalkingSeat | src/daemon/tlm-dbus-observer.c:562-637 | which signal of a seat completes which kind of request, with what reply, and when the next dispatch is scheduled |
| Requests.RepliedSuccessIff | src/daemon/tlm-dbus-observer.c:417-527 | a supported request is answered with success if and only if it came through an observer made for the seat, or the call into the seat succeeded, or was a switch refused at the door, which changes nothing |
| Requests.SuccessMeans | src/daemon/tlm-dbus-observer.c:505-523 | through the common socket, success holds if and only if: a login started or deferred a session on an empty seat; a logout found a session; a switch did the first, was recorded, or changed nothing at all; through an observer made for the seat it always holds |
| Requests.ServiceKept | src/daemon/tlm-dbus-observer.c:433-539 | any sequence of requests, dispatches and events of a seat is a run of the observer and keeps the seat's invariant |
| Requests.OwnLogin | src/daemon/tlm-dbus-observer.c:502-523 | in every such sequence each request that waits is of the kind it came with and will be dispatched with the login it came with, whatever is answered or fails in between |
| Requests.EveryReply | src/daemon/tlm-dbus-observer.c:502-527 | in every such sequence each reply is the error for an unsupported kind or an unknown seat, or is made from what the seat emitted during the call for that very request |
| Requests.ReplyInRun | src/daemon/tlm-dbus-observer.c:502-527 | in every such sequence a request that is not supported, or whose seat is not found, gets just that error and leaves the seat as it was; any other is answered with success if and only if the observer was made for the seat, or its own call succeeded in the state the seat was in by then, or was a switch refused at the door |
| Requests.LoginCalled | src/daemon/tlm-dbus-observer.c:505-509 | a login request gives its named user a session on an empty seat, and on a taken one fails and leaves who is there |
| Requests.LogoutCalled | src/daemon/tlm-dbus-observer.c:510-512 | a logout request on a live session succeeds and leaves no default user active, with a goodbye if there was one |
| Requests.SwitchRefused | src/daemon/tlm-dbus-observer.c:417-431 | a switch that is not authenticated, has no password, or asks for the user who is there leaves the seat exactly as it was |
| Requests.SwitchTried | src/daemon/tlm-dbus-observer.c:417-431 | an authenticated switch to somebody else on a live session succeeds, is recorded and leaves no default user active |
| Requests.CreateSpoke | src/daemon/tlm-seat.c:569-686 | during a creation the seat emits an error, as the last signal, exactly when the call fails |
| Requests.AnswerToTalk | src/daemon/tlm-dbus-observer.c:617-637 | such talk makes a request of any kind fail exactly when the call did |
| Manager.TlmManager.CreateSeat | src/daemon/tlm-manager.c:484-519 | the table holds the new seat under its id, with a first login exactly under auto-login or an initial user |
| Manager.FirstOccupant | src/daemon/tlm-manager.c:507-518 | a new seat that can start a session begins with the initial user if there is one, else under auto-login with its default user, else as if never used |
| Manager.TlmManager.Start | src/daemon/tlm-manager.c:751-776 | the table is that of all virtual seats, each keeping the seat's invariant |
| Manager.VirtualSeatsHold | src/daemon/tlm-manager.c:760-767 | no virtual seat takes the place of another |
| Manager.DistinctOccupants | src/daemon/tlm-manager.c:760-767 | two virtual seats that start their default sessions hold different users if and only if the template mentions the seat |
| Manager.TlmManager.StopSeat | src/daemon/tlm-manager.c:808-818 | a seat is hooked and asked; it goes exactly if it has no session |
| Manager.TlmManager.StopAll | src/daemon/tlm-manager.c:802-819 | the loop that restarts on every removal ends, and has done exactly what visiting the seats in some order its iterator allows does |
| Manager.TlmManager.Stop | src/daemon/tlm-manager.c:795-826 | what stays is exactly the occupied seats, each asked as often as the iterator came to it, at least once and at most once more than there were removals; all others are let go, each hooked and asked once; "manager-stopped" at once exactly when none stays |
| StopLoop.LoopKeeps | src/daemon/tlm-manager.c:806-819 | for every order of the iterator: occupied seats stay, the others are let go, and each removal costs each seat at most one more visit |
| StopLoop.LoopEnds | src/daemon/tlm-manager.c:806-821 | for every order of the iterator: the seats left at the end are the occupied ones, and `delayed` tells whether there are any |
| StopLoop.NoneForgotten | src/daemon/tlm-manager.c:806-819 | for every order of the iterator and at any time in the loop: the seats let go are just those missing from the table, each hooked and asked exactly once |
| StopLoop.Turn | src/daemon/tlm-manager.c:807-819 | one turn of the loop, whichever way it goes, keeps the count of rounds against removals |
| StopLoop.AskedOnce | src/daemon/tlm-manager.c:806-819 | when every seat is occupied, the loop leaves each asked exactly once |
| StopLoop.Completes | src/daemon/tlm-manager.c:806-819 | whatever the iterator has come to so far, it comes to its end |
| StopLoop.AskedAgain | src/daemon/tlm-manager.c:813-815 | in any table with an occupied and an empty seat there is an order in which the occupied one is asked more than once |
| StopLoop.AskedOnceIff | src/daemon/tlm-manager.c:806-819 | every order asks each occupied seat exactly once if and only if all seats are occupied or none is |
| Manager.AskedTwice | src/daemon/tlm-manager.c:806-819 | a table of two seats and an order in which the occupied one is asked twice, so that its end emits "manager-stopped" twice |
| Manager.TlmManager.SessionTerminatedCb | src/daemon/tlm-manager.c:779-793 | the seat is out of the table; "manager-stopped" exactly if the table is then empty |
| Manager.TlmManager.CallHandlers | src/daemon/tlm-manager.c:779-793 | n connected handlers take the seat out once, and emit "manager-stopped" n times if that leaves the table empty |
| Manager.TlmManager.Happen | src/daemon/tlm-seat.c:149-161 | whatever happens to a seat, in the table or let go, it takes its step, and its handlers are called exactly when it emits "session-terminated" |
| Manager.TlmManager.Drain | src/daemon/tlm-manager.c:779-826 | any sequence of calls, timers and session signals brings the manager where the machine on values is |
| Manager.TlmManager.Shutdown | src/daemon/tlm-manager.c:779-826 | stop and drain together, from any state of the table and over any such sequence: "manager-stopped" is emitted if and only if the table empties, and what stays is exactly the seats occupied at the beginning that never hear the end of a live session |
| Drain.SeatLeavesIff | src/daemon/tlm-manager.c:779-793 | over any such sequence a seat leaves the table if and only if, in its own run, it hears the end of a live session; else it is where its own run has brought it |
| Drain.StoppedIff | src/daemon/tlm-manager.c:786-790 | over any such sequence "manager-stopped" is emitted if and only if the table empties |
| Leaving.LeavesIffTerminated | src/daemon/tlm-seat.c:149-157 | a run makes a seat leave if and only if the seat emits "session-terminated" in it |
| Leaving.QuietLeavesIff | src/daemon/tlm-seat.c:193-211 | while no login, switch or deferred login reaches a seat, it leaves if and only if what closes its session first is its end and not a fatal error |
| DeferredLogins.LeavesAfterFatal | src/daemon/tlm-seat.c:204-210 | a fatal error keeps a seat in the table only until a deferred login that can start has started another session and that ends |
| Drain.StepHooks | src/daemon/tlm-seat.c:149-161 | how many shutdown handlers are connected makes no difference to what a seat does, as long as there is one |
| Drain.DrainKeeps | src/daemon/tlm-manager.c:779-793 | every seat in the table keeps its invariant |
| Drain.LetGoRuns | src/daemon/tlm-manager.c:813-815 | a seat that has been let go runs on by its own events alone |
| Drain.LateEnd | src/daemon/tlm-manager.c:779-793 | when a session started on a seat that was let go ends, each of its handlers emits "manager-stopped" if the table is empty by then, and the table stays as it is |
| DeferredLogins.RetryStartsIff | src/daemon/tlm-seat.c:542-567 | a deferred login occupies an empty seat if and only if it is let through, process, user and server are there, and there is somebody to log in |
| DeferredLogins.RetriesStartIff | src/daemon/tlm-seat.c:600-607 | over any run of deferred logins an empty seat becomes occupied if and only if one of them can start |
| DeferredLogins.RetryOutlivesShutdown | src/daemon/tlm-seat.c:600-607 | the same for a seat that the shutdown has asked and let go |
| UserName.BuildUserName | src/daemon/tlm-seat.c:506-540 | the pointer loop computes the substitution of number and name |
| UserName.Fill | src/daemon/tlm-seat.c:518-537 | the same for any seat number |
| UserName.DistinctDefaultUsers | src/daemon/tlm-seat.c:506-540 | two virtual seats have different default users if and only if the template contains %S or %I |
| UserName.LongerName | src/daemon/tlm-seat.c:520-537 | a number with more digits makes a longer name |
| UserName.SameNameSameDigits | src/daemon/tlm-seat.c:520-537 | with equally many digits, equal names have equal digits |
| UserName.ExpandPieces | src/daemon/tlm-seat.c:518-537 | a template is expanded piece by piece |
| UserName.FieldsInFigures | src/daemon/tlm-seat.c:520-534 | %S is the number, %I the name of the seat, any other field nothing, and any other character itself |
| UserName.NumberInFigures | src/daemon/tlm-seat.c:512-515 | the number is read behind "seat", and is 0 for a name that does not begin so |
| UserName.VirtualSeatNumber | src/daemon/tlm-seat.c:514-515 | the number read from a virtual seat's id is the one printed into it |
| Decimal.AtoiPrint | src/common/tlm-config.c:370-406 | parsing gives back every integer that was printed |
| Decimal.PrintInFigures | src/common/tlm-config.c:389-406 | printing puts the last digit last, and a minus sign in front of a negative number |
| Decimal.AtoiInFigures | src/common/tlm-config.c:370-378 | parsing skips white space and one sign and stops at the first character that is no digit |
| CommandLine.SplitCommandLine | src/common/tlm-utils.c:451-510 | the loop yields the arguments of the pieces, and the array always has room for the null at its end; what these arguments are, `CommandLine.MeansItsTokens` says |
| CommandLine.MeansItsTokens | src/common/tlm-utils.c:451-510 | words without quotation marks, texts in single quotes and texts in double quotes, in any mixture and with any white space in front, between and behind, are split into exactly these words and texts |
| CommandLine.PlainCommand | src/common/tlm-utils.c:451-510 | words joined by spaces are split into exactly these words |
| CommandLine.TokenMatches | src/common/tlm-utils.c:490 | a word, a text in single quotes or one in double quotes is one match of the pattern |
| CommandLine.TokenMeans | src/common/tlm-utils.c:465-480 | and stands for its text |
| CommandLine.UnclosedQuotation | src/common/tlm-utils.c:490 | a quotation mark that is not closed is part of its word |
| CommandLine.EmptyArguments | src/common/tlm-utils.c:456-482 | a pair of quotation marks, or one alone, is an empty argument; white space is none |
| CommandLine.EscapesInFigures | src/common/tlm-utils.c:480 | what each escape stands for, one by one |
| CommandLine.OctalInFigures | src/common/tlm-utils.c:480 | what an octal escape stands for |
| CommandLine.RoomForTerminator | src/common/tlm-utils.c:456-482 | there are fewer arguments than pieces for every command line |
| CommandLine.RoundTrip | src/common/tlm-utils.c:451-510 | every list of arguments, with empty and padded ones, quotes, backslashes and line breaks, comes back exactly from its quoted command line |
| CommandLine.SimpleQuote | src/common/tlm-utils.c:488-510 | for arguments without double quote, backslash and line break, quoting is a pair of double quotes and nothing else |
| CommandLine.QuoteMatches | src/common/tlm-utils.c:490-505 | a quoted argument is one match of the pattern, whatever follows it |
| CommandLine.CompressEscape | src/common/tlm-utils.c:480 | undoing escapes inverts making them |
| ConfigStore.TlmConfig.SetString | src/common/tlm-config.c:330-357 | the table has the value stored, in a new group if need be, and the group without a name starts empty each time |
| ConfigStore.TlmConfig.SetInt | src/common/tlm-config.c:389-406 | likewise for a printed number |
| ConfigStore.SetChangesOne | src/common/tlm-config.c:274-357 | a set changes what is got for its own group and key, null group meaning General, and for no other |
| ConfigStore.GotBackIff | src/common/tlm-config.c:251-287 | the getter called like the setter returns the value if and only if group and key have names (or the value was there anyway) |
| ConfigStore.HasKeyIff | src/common/tlm-config.c:558-574 | after a set a key is there if and only if it was, or is the one set, null group meaning General on both sides |
| ConfigStore.SetIntoGeneral | src/common/tlm-config.c:263-287 | a value set with a null group is there, is got back from General by name, and is not got back with a null group |
| ConfigStore.DefaultIff | src/common/tlm-config.c:301-319 | for a missing value the default is returned if and only if the key has a name and the group exists |
| ConfigStore.DefaultUnused | src/common/tlm-config.c:301-319 | a value that is there is returned, whatever the default |
| ConfigStore.NamelessNothing | src/common/tlm-config.c:251-357 | nothing is stored or got under a key without a name, and nothing is got from a group without one |
| ConfigStore.NumbersGotBack | src/common/tlm-config.c:370-525 | every int, uint and boolean survives being stored as a printed number |
| ConfigStore.BooleanMeans | src/common/tlm-config.c:477-504 | a value that begins in any case with "true" or "yes" is 1, with "false" or "no" is 0, and one without digits and such a word is the default |
| ConfigStore.NumbersMean | src/common/tlm-config.c:370-504 | a missing value is the default for every getter; text without digits is 0 as an int and the default as a uint; a minus sign makes a uint the default |
| ConfigStore.Replay | src/common/tlm-config.c:330-357 | after any sequence of sets each get returns the value set last for its group and key |
| DeleteDir.FileSystem.DeleteDir | src/common/tlm-utils.c:232-277 | on a directory: TRUE if and only if it can be opened and removed and so can everything below it, none of which lstat fails on; then the tree and nothing else is gone; on FALSE the directory is there and only nodes strictly below it are gone; a link given as the argument is followed; a file or missing path fails and nothing happens |
| DeleteDir.FileSystem.DeleteEntries | src/common/tlm-utils.c:244-269 | all that is below the directory goes if and only if everything there can, whatever the order of the entries |
| DeleteDir.FileSystem.DeleteEntry | src/common/tlm-utils.c:251-264 | an entry goes with its tree if and only if all of it can; a link goes itself |
| DeleteDir.AllEntries | src/common/tlm-utils.c:244-269 | the trees under a directory's entries are all that is below it |
| DeleteDir.TreeUntouched | src/common/tlm-utils.c:244-269 | deleting some entries leaves the trees of the others as they were |

## Left out

- PAM, logind, the D-Bus transport, pipes, fork and exec, terminal handling and passwd lookups: their answers are parameters.
- Reference counts, weak references and object lifetime; each callback is one atomic step.
- Watcher.WatchInfo.AddWatch: a failing inotify_add_watch and the failure results are not modelled; every existing directory can be watched.
- Watcher.WatchInfo.WatchForFiles: targets are distinct and none lies below another; environment variables in paths are expanded beforehand; a failing inotify_init1 is not modelled.
- Watcher.WatchInfo.Reattach: states what happens when nothing exists below the new directory yet, as each creation has its own callback; entries created before the callback gets to look, and several creations in one read, are not modelled.
- Deletion of watched directories and overflow of the inotify queue.
- SeatObject.TlmSeat.CloseActiveSession: the disposal of a session object is one step of the seat; what else may happen to the seat while the main loop inside dispose runs is not modelled.
- SessionRemote.Remote.OnProxySignal: the "authenticated" signal, which the daemon does not listen to, is not modelled.
- Session.UserSession.ClearSession: closing the PAM session, the terminal and the runtime directory are one flag.
- SeatObject.TlmSeat.CreateSession: the PAM service looked up for a null service is not modelled, nor is failing allocation of a deferred creation; the counter of fast logins has no upper bound.
- SeatObject.TlmSeat.PrepareDefault: the template, looked up for the seat and then in General, is one optional value of the configuration.
- SeatObject.TlmSeat.HandleSessionTerminated: killing the process group in X11 mode is not modelled.
- Manager.TlmManager.Start: seats in the table are values of the seat state machine, not seat objects, so sharing of a seat between the table and others is not modelled; waiting for a seat's device files before it is created, which may also add a seat after a stop, and starting again after a stop are not modelled.
- Seats added and removed by logind, pausing of sessions, and the guest user set-up.
- DbusObserver.Observer.ProcessRequest: dispatches do not nest, and disconnecting or disposing adapters, which purges the queue, is not modelled; requests hold their adapters while queued.
- CommandLine.RoundTrip: NUL and the Unicode line separators are excluded, as the pattern's dot does not match the latter and octal escapes stand for single bytes; white space is PCRE's before version 8.34.
- CommandLine.SplitCommandLine: the fallback that splits at spaces when the pattern does not compile is not modelled.
- UserName.BuildUserName: a template that ends in a lone percent sign makes the original read past its end and is excluded; seat numbers beyond an int are not modelled.
- ConfigStore.NumbersGotBack: numbers are unbounded, so what atoi and sscanf do with text beyond their width is not modelled; loading key files is not modelled.
- DeleteDir.FileSystem.DeleteDir: a link is given by the path it finally leads to; concurrent changes of the file system are not modelled.
- tlm-launcher, tlm-client, tlm-ui, the account and authentication plug-ins, utmp entries and logging: I/O or thin wrappers.
