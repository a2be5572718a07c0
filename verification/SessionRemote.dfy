/** src/daemon/tlm-session-remote.c: the daemon's end of a session process. */
module SessionRemote {
  import opened Wrappers
  import opened Escalation

  /** Error codes of src/common/tlm-error.h that reach a seat. */
  datatype Error =
    | SeatNotFound | SessionCreationFailure | SessionAlreadyExists | SessionNotValid | SessionTerminationFailure
    | DbusServerStartFailure | PamAuthFailure | DbusReqAborted | DbusReqNotSupported | OtherError

  datatype RemoteSignal = SessionCreated | SessionTerminated | SessionError(error: Error)

  class Remote {
    const seatId: string
    const username: Option<string>
    var isSessiondUp: bool
    var childWatch: bool
    var lastSig: Sig
    var timerId: nat           // 0: none
    var canEmitSignal: bool
    var connected: bool        // the seat's signal handlers are connected
    var disposing: bool        // dispose is waiting for the process to end
    var timers: set<nat>       // the timeout sources alive on this object
    var nextTimer: nat
    var trace: Trace

    ghost predicate Valid()
      reads this
    {
      && nextTimer > 0
      && (forall id :: id in timers ==> 0 < id < nextTimer)
      && (timerId != 0 ==> timerId in timers && lastSig != NoSig)
      && (isSessiondUp <==> childWatch)
    }

    /** The state the machine below speaks of. */
    ghost function State(): RemoteState
      reads this
    {
      RemoteState(isSessiondUp, canEmitSignal, disposing, lastSig, timerId, timers, nextTimer, trace)
    }

    /** tlm_session_remote_new, when it succeeds. */
    constructor (seatId: string, username: Option<string>)
      ensures Valid() && isSessiondUp && canEmitSignal && !connected
      ensures this.seatId == seatId && this.username == username
      ensures State() == STARTED
    {
      this.seatId, this.username := seatId, username;
      isSessiondUp, childWatch, lastSig, timerId, canEmitSignal, connected := true, true, NoSig, 0, true, false;
      timers, nextTimer, trace, disposing := {}, 1, NOTHING, false;
    }

    method Terminate() returns (ok: bool)
      requires Valid()
      modifies this
      ensures Valid() && ok == old(isSessiondUp) && State() == RemoteStep(old(State()), OpTerminate)
      ensures connected == old(connected)
      ensures ok ==> timerId !in old(timers)
    {
      if !isSessiondUp {
        return false;
      }
      lastSig := Hup;
      timerId := nextTimer;
      timers, nextTimer := timers + {nextTimer}, nextTimer + 1;
      trace := Terminated(trace);
      return true;
    }

    /** _terminate_timeout, run by the source `id`. */
    method TerminateTimeout(id: nat) returns (emitted: Option<RemoteSignal>)
      requires Valid() && id in timers
      modifies this
      ensures Valid() && connected == old(connected)
      ensures State() == RemoteStep(old(State()), OpTick(id))
      ensures emitted == if old(lastSig) == Kill && canEmitSignal then Some(SessionError(SessionTerminationFailure)) else None
    {
      emitted := None;
      var last := lastSig;
      match lastSig {
        case Hup => lastSig := Term;
        case Term => lastSig := Kill;
        case Kill =>
          timerId, timers := 0, timers - {id};
          if canEmitSignal {
            emitted := Some(SessionError(SessionTerminationFailure));
          }
        case NoSig => timers := timers - {id};
      }
      trace := Ticked(trace, last, emitted.Some?);
    }

    method OnChildDown() returns (emitted: Option<RemoteSignal>)
      requires Valid() && childWatch
      modifies this
      ensures Valid() && !isSessiondUp && State() == Down(old(State()))
      ensures connected == old(connected)
      ensures emitted == if canEmitSignal then Some(SessionTerminated) else None
    {
      isSessiondUp, childWatch := false, false;
      if timerId != 0 {
        timers := timers - {timerId};
        timerId := 0;
      }
      emitted := if canEmitSignal then Some(SessionTerminated) else None;
    }

    /** The session process announces over D-Bus that its session is created, has ended or has failed. */
    method OnProxySignal(signal: RemoteSignal) returns (emitted: Option<RemoteSignal>)
      ensures emitted == if signal.SessionCreated? || canEmitSignal then Some(signal) else None
    {
      emitted := if signal.SessionCreated? || canEmitSignal then Some(signal) else None;
    }

    /** The call that asks the process to create the session has failed: this is passed on whatever the state. */
    method OnCreateFailed(error: Error) returns (emitted: Option<RemoteSignal>)
      ensures emitted == Some(SessionError(error))
    {
      emitted := Some(SessionError(error));
    }

    /** The first half of dispose: the object falls silent and the process, if there is one, is to end. */
    method BeginDispose()
      requires Valid()
      modifies this
      ensures Valid() && connected == old(connected)
      ensures isSessiondUp == old(isSessiondUp) && disposing == isSessiondUp
      ensures isSessiondUp ==> State() == RemoteStep(old(State()), OpDispose)
      ensures !isSessiondUp ==> State() == old(State()).(emits := false, disposing := false)
    {
      canEmitSignal, disposing := false, isSessiondUp;
      if isSessiondUp {
        var _ := Terminate();
      }
    }

    /** The second half, when the main loop inside dispose has seen the process end. */
    method EndDispose()
      requires Valid() && !isSessiondUp
      modifies this
      ensures Valid() && connected == old(connected) && State() == Disposed(old(State()))
    {
      if timerId != 0 {
        timers, timerId := timers - {timerId}, 0;
      }
      lastSig, disposing := NoSig, false;
    }

    /** Dispose, when nothing but the end of the process happens while it waits. */
    method Dispose()
      requires Valid()
      modifies this
      ensures Valid() && !isSessiondUp && !canEmitSignal && connected == old(connected)
      ensures State() == if old(isSessiondUp) then RemoteStep(RemoteStep(old(State()), OpDispose), OpChildDown)
                         else RemoteStep(old(State()), OpDispose)
    {
      BeginDispose();
      if isSessiondUp {
        var _ := OnChildDown();
      }
      EndDispose();
    }
  }

  // ----- Every run of one session -----

  datatype Op =
    | OpTerminate
    | OpDispose
    | OpTick(id: nat)
    | OpChildDown
    | OpProxy(signal: RemoteSignal)
    | OpCreateFailed(error: Error)

  /** A remote session as a value; timers are numbered in the order in which they are started. */
  datatype RemoteState = RemoteState(up: bool, emits: bool, disposing: bool, last: Sig, timer: nat,
                                     timers: set<nat>, next: nat, trace: Trace)

  const STARTED := RemoteState(true, true, false, NoSig, 0, {}, 1, NOTHING)

  function HungUp(s: RemoteState): RemoteState {
    s.(last := Hup, timer := s.next, timers := s.timers + {s.next}, next := s.next + 1, trace := Terminated(s.trace))
  }

  function Down(s: RemoteState): RemoteState {
    s.(up := false, timer := 0, timers := s.timers - {s.timer})
  }

  function Disposed(s: RemoteState): RemoteState {
    s.(timer := 0, timers := s.timers - {s.timer}, last := NoSig, disposing := false)
  }

  /** What happens between a disposal and the end of the process happens in the main loop inside dispose. */
  function RemoteStep(s: RemoteState, op: Op): RemoteState {
    match op
    case OpTerminate => if s.up then HungUp(s) else s
    case OpDispose =>
      if s.up then HungUp(s).(emits := false, disposing := true) else Disposed(s.(emits := false))
    case OpTick(id) =>
      if id !in s.timers then s
      else if s.last in {Hup, Term} then s.(last := Next(s.last), trace := Ticked(s.trace, s.last, false))
      else s.(timer := if s.last == Kill then 0 else s.timer, timers := s.timers - {id},
              trace := Ticked(s.trace, s.last, s.last == Kill && s.emits))
    case OpChildDown => if !s.up then s else if s.disposing then Disposed(Down(s)) else Down(s)
    case _ => s
  }

  /** What an operation makes a session object emit. */
  function Says(s: RemoteState, op: Op): Option<RemoteSignal> {
    match op
    case OpTick(id) =>
      if id in s.timers && s.last == Kill && s.emits then Some(SessionError(SessionTerminationFailure)) else None
    case OpChildDown => if s.up && s.emits then Some(SessionTerminated) else None
    case OpProxy(signal) => if signal.SessionCreated? || s.emits then Some(signal) else None
    case OpCreateFailed(error) => Some(SessionError(error))
    case _ => None
  }

  function RemoteAfter(ops: seq<Op>): RemoteState {
    if ops == [] then STARTED else RemoteStep(RemoteAfter(ops[..|ops| - 1]), ops[|ops| - 1])
  }

  /** A disposal begins with a terminate call. */
  predicate Terminates(op: Op) {
    op.OpTerminate? || op.OpDispose?
  }

  function TerminateCalls(ops: seq<Op>): nat {
    if ops == [] then 0
    else TerminateCalls(ops[..|ops| - 1]) + if Terminates(ops[|ops| - 1]) then 1 else 0
  }

  ghost predicate Numbered(timers: set<nat>, next: nat) {
    next > 0 && forall id :: id in timers ==> 0 < id < next
  }

  lemma RemoteTickKeeps(s: RemoteState, id: nat)
    requires Numbered(s.timers, s.next) && Balanced(s.trace, s.last, |s.timers|) && id in s.timers
    ensures var t := RemoteStep(s, OpTick(id));
            Numbered(t.timers, t.next) && Balanced(t.trace, t.last, |t.timers|)
  {
    hide Balanced;
    FewerTimers(s.trace, s.last, s.timers, id);
    TickBalanced(s.trace, s.last, |s.timers|, s.last == Kill && s.emits);
  }

  lemma HungUpKeeps(s: RemoteState)
    requires Numbered(s.timers, s.next) && Balanced(s.trace, s.last, |s.timers|)
    ensures var t := HungUp(s); Numbered(t.timers, t.next) && Balanced(t.trace, t.last, |t.timers|)
  {
    hide Balanced;
    TerminateBalanced(s.trace, s.last, |s.timers|);
    assert |s.timers + {s.next}| == |s.timers| + 1;
  }

  lemma DownKeeps(s: RemoteState)
    requires Numbered(s.timers, s.next) && Balanced(s.trace, s.last, |s.timers|)
    ensures var t := Down(s); Numbered(t.timers, t.next) && Balanced(t.trace, t.last, |t.timers|)
    ensures var t := Disposed(s); Numbered(t.timers, t.next) && Balanced(t.trace, t.last, |t.timers|)
  {
    FewerTimersIf(s.trace, s.last, s.timers, s.timer);
    NoLastBalanced(s.trace, s.last, |s.timers - {s.timer}|);
    hide Balanced;
  }

  lemma NoLastBalanced(t: Trace, last: Sig, live: nat)
    requires Balanced(t, last, live)
    ensures Balanced(t, NoSig, live)
  {
  }

  lemma RemoteStepKeeps(s: RemoteState, op: Op)
    requires Numbered(s.timers, s.next) && Balanced(s.trace, s.last, |s.timers|)
    ensures var t := RemoteStep(s, op);
            && Numbered(t.timers, t.next) && Balanced(t.trace, t.last, |t.timers|)
            && t.trace.terminates <= s.trace.terminates + if Terminates(op) then 1 else 0
  {
    hide Balanced, Numbered;
    match op
    case OpTerminate => HungUpKeeps(s);
    case OpDispose =>
      HungUpKeeps(s);
      DownKeeps(s);
    case OpTick(id) =>
      if id in s.timers {
        RemoteTickKeeps(s, id);
      }
    case OpChildDown =>
      DownKeeps(s);
      DownKeeps(Down(s));
    case _ =>
  }

  lemma {:induction false} RemoteAccount(ops: seq<Op>)
    ensures var s := RemoteAfter(ops);
            && Numbered(s.timers, s.next) && Balanced(s.trace, s.last, |s.timers|)
            && s.trace.terminates <= TerminateCalls(ops)
  {
    if ops != [] {
      RemoteAccount(ops[..|ops| - 1]);
      RemoteStepKeeps(RemoteAfter(ops[..|ops| - 1]), ops[|ops| - 1]);
    }
  }

  /** The process counts as running exactly as long as its death has not been noticed. */
  lemma {:induction false} UpUntilChildDown(ops: seq<Op>)
    ensures RemoteAfter(ops).up <==> forall n :: 0 <= n < |ops| ==> !ops[n].OpChildDown?
  {
    if ops != [] {
      UpUntilChildDown(ops[..|ops| - 1]);
    }
  }

  // ----- The climb -----

  /** A timer that ticks sends SIGTERM after SIGHUP and SIGKILL after SIGTERM, and goes on; one left over ends itself. */
  lemma TickSends(s: RemoteState, id: nat)
    requires id in s.timers
    ensures var t := RemoteStep(s, OpTick(id));
            && t.trace.ticks == s.trace.ticks + 1 && t.trace.terminates == s.trace.terminates
            && t.up == s.up && t.emits == s.emits
            && (s.last == Hup ==>
                  t.last == Term && t.trace.sent == s.trace.sent + [Term] && t.timers == s.timers && t.timer == s.timer
                  && t.trace.errors == s.trace.errors && Says(s, OpTick(id)).None?)
            && (s.last == Term ==>
                  t.last == Kill && t.trace.sent == s.trace.sent + [Kill] && t.timers == s.timers && t.timer == s.timer
                  && t.trace.errors == s.trace.errors && Says(s, OpTick(id)).None?)
            && (s.last == NoSig ==>
                  t.last == NoSig && t.trace.sent == s.trace.sent && t.timers == s.timers - {id} && t.timer == s.timer
                  && t.trace.errors == s.trace.errors && Says(s, OpTick(id)).None?)
  {
  }

  /** After SIGKILL it ends itself and reports that the process is stuck, unless the object is silenced. */
  lemma TickGivesUp(s: RemoteState, id: nat)
    requires id in s.timers && s.last == Kill
    ensures var t := RemoteStep(s, OpTick(id));
            && t.timers == s.timers - {id} && t.trace.sent == s.trace.sent && t.last == Kill
            && t.trace.ticks == s.trace.ticks + 1
            && t.trace.errors == s.trace.errors + (if s.emits then 1 else 0)
            && Says(s, OpTick(id)) == if s.emits then Some(SessionError(SessionTerminationFailure)) else None
  {
  }

  /** A process that is asked to end and does not is sent all three signals by three ticks of one timer, and reported. */
  lemma ThreeTicks(s: RemoteState)
    requires s.up && s.emits && Numbered(s.timers, s.next)
    ensures var asked := RemoteStep(s, OpTerminate);
            var t := RemoteStep(RemoteStep(RemoteStep(asked, OpTick(s.next)), OpTick(s.next)), OpTick(s.next));
            && asked.trace.sent == s.trace.sent + [Hup] && asked.timers == s.timers + {s.next}
            && t.trace.sent == s.trace.sent + [Hup, Term, Kill] && t.timers == s.timers
            && t.trace.errors == s.trace.errors + 1 && t.up
  {
    assert s.trace.sent + [Hup] + [Term] + [Kill] == s.trace.sent + [Hup, Term, Kill];
  }

  /** How many timers have been ended by a tick of their own. */
  function EndedByTick(ops: seq<Op>): nat {
    if ops == [] then 0
    else
      var before, op := ops[..|ops| - 1], ops[|ops| - 1];
      EndedByTick(before) +
      if op.OpTick? && op.id in RemoteAfter(before).timers && op.id !in RemoteAfter(ops).timers then 1 else 0
  }

  /** No tick is idle: over every run each one has sent a signal or ended its timer, and after SIGHUP or SIGTERM it sends. */
  lemma {:induction false} TicksWork(ops: seq<Op>)
    ensures var s := RemoteAfter(ops);
            s.trace.ticks == SentAmong(s.trace.sent, {Term, Kill}) + EndedByTick(ops)
  {
    if ops != [] {
      var before, op := ops[..|ops| - 1], ops[|ops| - 1];
      TicksWork(before);
      OneMoreTick(RemoteAfter(before), op);
    }
  }

  lemma OneMoreTick(s: RemoteState, op: Op)
    ensures var t := RemoteStep(s, op);
            t.trace.ticks - SentAmong(t.trace.sent, {Term, Kill}) ==
            s.trace.ticks - SentAmong(s.trace.sent, {Term, Kill}) +
            if op.OpTick? && op.id in s.timers && op.id !in t.timers then 1 else 0
  {
    SentMore(s.trace.sent, Hup);
    SentMore(s.trace.sent, Term);
    SentMore(s.trace.sent, Kill);
    hide SentAmong;
  }

  lemma SentMore(sent: seq<Sig>, s: Sig)
    ensures SentAmong(sent + [s], {Term, Kill}) == SentAmong(sent, {Term, Kill}) + if s == Term || s == Kill then 1 else 0
  {
    assert (sent + [s])[..|sent|] == sent;
  }

  /** What is heard of a process: its death, its word, and a failed call, but nothing that is silenced except the latter. */
  lemma WhatIsSaid(s: RemoteState, signal: RemoteSignal, error: Error)
    ensures Says(s, OpChildDown) == if s.up && s.emits then Some(SessionTerminated) else None
    ensures s.emits || signal.SessionCreated? ==> Says(s, OpProxy(signal)) == Some(signal)
    ensures !s.emits && !signal.SessionCreated? ==> Says(s, OpProxy(signal)) == None
    ensures Says(s, OpCreateFailed(error)) == Some(SessionError(error))
    ensures Says(s, OpTerminate) == None && Says(s, OpDispose) == None
  {
  }

  /** The death of the process ends the timer started last, and no other: earlier ones tick on. */
  lemma DeathLeavesTimers(s: RemoteState)
    requires s.up && Numbered(s.timers, s.next)
    ensures var t := RemoteStep(s, OpChildDown);
            !t.up && t.timers == s.timers - {s.timer} && t.timer == 0 && t.trace == s.trace && t.emits == s.emits
  {
  }

  /**
    A disposal silences the object for good.  It asks a running process to end and waits; its death then ends the timer
    and forgets the last signal.  Without a process there is nothing to wait for and nothing is sent.
  */
  lemma DisposalAsks(s: RemoteState)
    requires Numbered(s.timers, s.next)
    ensures var t := RemoteStep(s, OpDispose);
            var gone := RemoteStep(t, OpChildDown);
            && !t.emits && t.up == s.up && (t.disposing <==> s.up)
            && (s.up ==> t.trace.sent == s.trace.sent + [Hup] && t.timers == s.timers + {s.next} && t.last == Hup)
            && (s.up ==> !gone.up && gone.timers == s.timers && gone.last == NoSig && Says(t, OpChildDown) == None)
            && (!s.up ==> t.trace == s.trace && t.timers == s.timers - {s.timer} && t.last == NoSig)
  {
  }

  method Apply(remote: Remote, op: Op)
    requires remote.Valid()
    modifies remote
    ensures remote.Valid() && remote.State() == RemoteStep(old(remote.State()), op)
  {
    match op {
      case OpTerminate => var _ := remote.Terminate();
      case OpDispose =>
        remote.BeginDispose();
        if !remote.isSessiondUp {
          remote.EndDispose();
        }
      case OpTick(id) =>
        if id in remote.timers {
          var _ := remote.TerminateTimeout(id);
        }
      case OpChildDown =>
        if remote.childWatch {
          var _ := remote.OnChildDown();
          if remote.disposing {
            remote.EndDispose();
          }
        }
      case OpProxy(signal) => var _ := remote.OnProxySignal(signal);
      case OpCreateFailed(error) => var _ := remote.OnCreateFailed(error);
    }
  }

  /**
    However calls, a disposal, timer ticks and the death of the process interleave, n calls cost at most 3n ticks, 2n
    SIGTERMs and SIGKILLs and n errors, and the signals come in ladders.
  */
  method Escalate(ops: seq<Op>) returns (trace: Trace, live: set<nat>, up: bool)
    ensures RemoteAfter(ops).trace == trace && RemoteAfter(ops).timers == live && RemoteAfter(ops).up == up
    ensures trace.terminates <= TerminateCalls(ops)
    ensures trace.ticks + |live| <= 3 * TerminateCalls(ops)
    ensures SentAmong(trace.sent, {Term, Kill}) <= 2 * TerminateCalls(ops)
    ensures trace.errors + |live| <= TerminateCalls(ops)
    ensures Ladder(trace.sent) && SentAmong(trace.sent, {Hup}) == trace.terminates
  {
    var remote := new Remote("seat0", None);
    var i := 0;
    while i < |ops|
      invariant 0 <= i <= |ops| && fresh(remote) && remote.Valid()
      invariant remote.State() == RemoteAfter(ops[..i])
    {
      assert ops[..i + 1][..i] == ops[..i];
      Apply(remote, ops[i]);
      i := i + 1;
    }
    assert ops[..|ops|] == ops;
    RemoteAccount(ops);
    return remote.trace, remote.timers, remote.isSessiondUp;
  }
}
