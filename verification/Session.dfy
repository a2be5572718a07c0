/** src/sessiond/tlm-session.c: how the session process ends the user's program. */
module Session {
  import opened Wrappers
  import opened Escalation
  import opened SessionRemote

  class UserSession {
    var isChildUp: bool
    var childWatch: bool
    var lastSig: Sig
    var timerId: nat           // 0: none
    var canEmitSignal: bool
    var details: bool          // the PAM session, the environment and the names are still held
    var timers: set<nat>       // the timeout sources alive on this object
    var nextTimer: nat
    var trace: Trace
    var announced: nat         // how often the end of the session has been announced

    ghost predicate Valid()
      reads this
    {
      && nextTimer > 0
      && (forall id :: id in timers ==> 0 < id < nextTimer)
      && (timerId != 0 ==> timerId in timers)
      && (lastSig == NoSig ==> timers == {})
    }

    /** The state the machine below speaks of. */
    ghost function State(): SessionState
      reads this
    {
      SessionState(isChildUp, childWatch, details, canEmitSignal, lastSig, timerId, timers, nextTimer, trace, announced)
    }

    /** A session whose program has just been started. */
    constructor ()
      ensures Valid() && State() == RUNNING
    {
      isChildUp, childWatch, lastSig, timerId, canEmitSignal, details := true, true, NoSig, 0, true, true;
      timers, nextTimer, trace, announced := {}, 1, NOTHING, 0;
    }

    method ClearSession()
      requires Valid()
      modifies this
      ensures Valid() && State() == Cleared(old(State()))
    {
      if timerId != 0 {
        timers, timerId := timers - {timerId}, 0;
      }
      childWatch, details := false, false;
    }

    /** "session-terminated" is emitted unless the object is being disposed of. */
    method Announce() returns (emitted: Option<RemoteSignal>)
      modifies this`announced
      ensures State() == Announced(old(State()))
      ensures emitted == if canEmitSignal then Some(SessionTerminated) else None
    {
      emitted := None;
      if canEmitSignal {
        announced := announced + 1;
        emitted := Some(SessionTerminated);
      }
    }

    method Terminate() returns (emitted: Option<RemoteSignal>)
      requires Valid()
      modifies this
      ensures Valid() && State() == SessionStep(old(State()), OpTerminate)
      ensures emitted == if !isChildUp && canEmitSignal then Some(SessionTerminated) else None
    {
      if !isChildUp {
        ClearSession();
        emitted := Announce();
        return;
      }
      lastSig := Hup;
      timerId := nextTimer;
      timers, nextTimer := timers + {nextTimer}, nextTimer + 1;
      trace := Terminated(trace);
      return None;
    }

    method TerminateTimeout(id: nat) returns (emitted: Option<RemoteSignal>)
      requires Valid() && id in timers
      modifies this
      ensures Valid() && State() == SessionStep(old(State()), OpTick(id))
      ensures emitted == if old(lastSig) == Kill && canEmitSignal then Some(SessionError(SessionTerminationFailure)) else None
    {
      emitted := None;
      trace := Ticked(trace, lastSig, lastSig == Kill && canEmitSignal);
      match lastSig {
        case Hup => lastSig := Term;
        case Term => lastSig := Kill;
        case NoSig => assert false;
        case Kill =>
          timerId, timers := 0, timers - {id};
          ClearSession();
          if canEmitSignal {
            emitted := Some(SessionError(SessionTerminationFailure));
          }
      }
    }

    method OnChildDown() returns (emitted: Option<RemoteSignal>)
      requires Valid() && childWatch
      modifies this
      ensures Valid() && State() == SessionStep(old(State()), OpChildDown)
      ensures emitted == if canEmitSignal then Some(SessionTerminated) else None
    {
      isChildUp := false;
      ClearSession();
      emitted := Announce();
    }

    /** Dispose: the object falls silent, the program is to end, and a main loop inside waits until it has. */
    method BeginDispose()
      requires Valid()
      modifies this
      ensures Valid() && State() == SessionStep(old(State()), OpDispose)
    {
      canEmitSignal := false;
      var _ := Terminate();
    }
  }

  // ----- Every run of one session -----

  /** A session of the session process as a value; timers are numbered in the order in which they are started. */
  datatype SessionState = SessionState(up: bool, watch: bool, details: bool, emits: bool, last: Sig, timer: nat,
                                       timers: set<nat>, next: nat, trace: Trace, announced: nat)

  const RUNNING := SessionState(true, true, true, true, NoSig, 0, {}, 1, NOTHING, 0)

  function Cleared(s: SessionState): SessionState {
    s.(timer := 0, timers := s.timers - {s.timer}, watch := false, details := false)
  }

  function Announced(s: SessionState): SessionState {
    if s.emits then s.(announced := s.announced + 1) else s
  }

  function AskedToEnd(s: SessionState): SessionState {
    if !s.up then Announced(Cleared(s)) else
    s.(last := Hup, timer := s.next, timers := s.timers + {s.next}, next := s.next + 1, trace := Terminated(s.trace))
  }

  /** What happens between a disposal and the end of the program happens in the main loop inside dispose. */
  function SessionStep(s: SessionState, op: Op): SessionState {
    match op
    case OpTerminate => AskedToEnd(s)
    case OpDispose => AskedToEnd(s.(emits := false))
    case OpTick(id) =>
      if id !in s.timers then s
      else if s.last == Kill then Cleared(s.(timer := 0, timers := s.timers - {id}, trace := Ticked(s.trace, Kill, s.emits)))
      else s.(last := Next(s.last), trace := Ticked(s.trace, s.last, false))
    case OpChildDown => if !s.watch then s else Announced(Cleared(s.(up := false)))
    case _ => s
  }

  function SessionAfter(ops: seq<Op>): SessionState {
    if ops == [] then RUNNING else SessionStep(SessionAfter(ops[..|ops| - 1]), ops[|ops| - 1])
  }

  ghost predicate Timed(s: SessionState) {
    && Numbered(s.timers, s.next)
    && (s.timer != 0 ==> s.timer in s.timers)
    && (s.last == NoSig ==> s.timers == {})
    && Balanced(s.trace, s.last, |s.timers|)
  }

  lemma ClearedKeeps(s: SessionState)
    requires Timed(s)
    ensures Timed(Cleared(s))
  {
    hide Balanced;
    FewerTimersIf(s.trace, s.last, s.timers, s.timer);
  }

  lemma TickKeeps(s: SessionState, id: nat)
    requires Timed(s) && id in s.timers
    ensures Timed(SessionStep(s, OpTick(id)))
  {
    hide Balanced;
    FewerTimers(s.trace, s.last, s.timers, id);
    TickBalanced(s.trace, s.last, |s.timers|, s.last == Kill && s.emits);
    if s.last == Kill {
      ClearedKeeps(s.(timer := 0, timers := s.timers - {id}, trace := Ticked(s.trace, Kill, s.emits)));
    }
  }

  lemma HangUpKeeps(s: SessionState)
    requires Timed(s)
    ensures Timed(AskedToEnd(s))
  {
    hide Balanced;
    if s.up {
      TerminateBalanced(s.trace, s.last, |s.timers|);
      assert |s.timers + {s.next}| == |s.timers| + 1;
    } else {
      ClearedKeeps(s);
    }
  }

  lemma SilentKeeps(s: SessionState)
    requires Timed(s)
    ensures Timed(s.(emits := false))
  {
  }

  lemma EndKeeps(s: SessionState)
    requires Timed(s)
    ensures Timed(SessionStep(s, OpChildDown))
  {
    hide Balanced;
    ClearedKeeps(s.(up := false));
  }

  lemma SessionStepKeeps(s: SessionState, op: Op)
    requires Timed(s)
    ensures Timed(SessionStep(s, op))
    ensures SessionStep(s, op).trace.terminates <= s.trace.terminates + if Terminates(op) then 1 else 0
  {
    hide Timed;
    match op
    case OpTerminate => HangUpKeeps(s);
    case OpDispose =>
      SilentKeeps(s);
      HangUpKeeps(s.(emits := false));
    case OpTick(id) =>
      if id in s.timers {
        TickKeeps(s, id);
      }
    case OpChildDown => EndKeeps(s);
    case _ =>
  }

  lemma {:induction false} SessionAccount(ops: seq<Op>)
    ensures Timed(SessionAfter(ops)) && SessionAfter(ops).trace.terminates <= TerminateCalls(ops)
  {
    if ops != [] {
      SessionAccount(ops[..|ops| - 1]);
      SessionStepKeeps(SessionAfter(ops[..|ops| - 1]), ops[|ops| - 1]);
    }
  }

  // ----- The climb -----

  /** A timer that ticks sends SIGTERM after SIGHUP and SIGKILL after SIGTERM, and goes on. */
  lemma TickSends(s: SessionState, id: nat)
    requires id in s.timers
    ensures var t := SessionStep(s, OpTick(id));
            && t.trace.ticks == s.trace.ticks + 1 && t.up == s.up && t.emits == s.emits && t.announced == s.announced
            && (s.last == Hup ==>
                  t.last == Term && t.trace.sent == s.trace.sent + [Term] && t.timers == s.timers && t.timer == s.timer
                  && t.trace.errors == s.trace.errors && t.watch == s.watch && t.details == s.details)
            && (s.last == Term ==>
                  t.last == Kill && t.trace.sent == s.trace.sent + [Kill] && t.timers == s.timers && t.timer == s.timer
                  && t.trace.errors == s.trace.errors && t.watch == s.watch && t.details == s.details)
  {
  }

  /** After SIGKILL it ends itself, clears the session, and reports that the program is stuck unless silenced. */
  lemma TickGivesUp(s: SessionState, id: nat)
    requires Timed(s) && id in s.timers && s.last == Kill
    ensures var t := SessionStep(s, OpTick(id));
            && t.timers == s.timers - {id} && t.trace.sent == s.trace.sent && t.last == Kill && t.up == s.up
            && t.trace.ticks == s.trace.ticks + 1 && t.trace.errors == s.trace.errors + (if s.emits then 1 else 0)
            && !t.watch && !t.details && t.timer == 0
  {
    hide Balanced;
  }

  /** A program that is asked to end and does not is sent all three signals by three ticks of one timer, and reported. */
  lemma ThreeTicks(s: SessionState)
    requires s.up && s.emits && Timed(s)
    ensures var asked := SessionStep(s, OpTerminate);
            var t := SessionStep(SessionStep(SessionStep(asked, OpTick(s.next)), OpTick(s.next)), OpTick(s.next));
            && asked.trace.sent == s.trace.sent + [Hup] && asked.timers == s.timers + {s.next}
            && t.trace.sent == s.trace.sent + [Hup, Term, Kill] && t.timers == s.timers
            && t.trace.errors == s.trace.errors + 1 && t.up && !t.watch
  {
    hide Balanced;
    assert s.trace.sent + [Hup] + [Term] + [Kill] == s.trace.sent + [Hup, Term, Kill];
    assert s.timers + {s.next} - {s.next} - {0} == s.timers;
  }

  /** How many timers have been ended by a tick of their own. */
  function TimersEnded(ops: seq<Op>): nat {
    if ops == [] then 0
    else
      var before, op := ops[..|ops| - 1], ops[|ops| - 1];
      TimersEnded(before) +
      if op.OpTick? && op.id in SessionAfter(before).timers && op.id !in SessionAfter(ops).timers then 1 else 0
  }

  /** No tick is idle: over every run each one has sent a signal or ended its timer. */
  lemma {:induction false} TicksWork(ops: seq<Op>)
    ensures var s := SessionAfter(ops);
            s.trace.ticks == SentAmong(s.trace.sent, {Term, Kill}) + TimersEnded(ops)
  {
    if ops != [] {
      var before, op := ops[..|ops| - 1], ops[|ops| - 1];
      TicksWork(before);
      SessionAccount(before);
      OneMoreTick(SessionAfter(before), op);
    }
  }

  lemma OneMoreTick(s: SessionState, op: Op)
    requires Timed(s)
    ensures var t := SessionStep(s, op);
            t.trace.ticks - SentAmong(t.trace.sent, {Term, Kill}) ==
            s.trace.ticks - SentAmong(s.trace.sent, {Term, Kill}) +
            if op.OpTick? && op.id in s.timers && op.id !in t.timers then 1 else 0
  {
    hide Balanced;
    SentMore(s.trace.sent, Hup);
    SentMore(s.trace.sent, Term);
    SentMore(s.trace.sent, Kill);
    hide SentAmong;
  }

  /** The death of the program clears the session, ends the timer started last and no other, and is announced. */
  lemma DeathClears(s: SessionState)
    requires s.watch
    ensures var t := SessionStep(s, OpChildDown);
            && !t.up && !t.watch && !t.details && t.timers == s.timers - {s.timer} && t.timer == 0 && t.trace == s.trace
            && t.announced == s.announced + if s.emits then 1 else 0
  {
  }

  /** To end a session without a program is to clear it and to say so at once; nothing is sent. */
  lemma EndWithoutProgram(s: SessionState)
    requires !s.up
    ensures var t := SessionStep(s, OpTerminate);
            && !t.watch && !t.details && t.timer == 0 && t.timers == s.timers - {s.timer} && t.trace == s.trace
            && t.announced == s.announced + if s.emits then 1 else 0
  {
  }

  /** A disposal silences the object and asks a running program to end; one without a program is cleared unheard. */
  lemma DisposalAsks(s: SessionState)
    ensures var t := SessionStep(s, OpDispose);
            && !t.emits && t.up == s.up && t.announced == s.announced
            && (s.up ==> t.trace.sent == s.trace.sent + [Hup] && t.timers == s.timers + {s.next} && t.watch == s.watch)
            && (!s.up ==> t.trace == s.trace && t.timers == s.timers - {s.timer} && !t.watch && !t.details)
  {
  }

  // ----- Whether the end is ever announced -----

  /** Operation m is the tick of a live timer after SIGKILL has been sent. */
  predicate KillTick(ops: seq<Op>, m: nat)
    requires m < |ops|
  {
    ops[m].OpTick? && ops[m].id in SessionAfter(ops[..m]).timers && SessionAfter(ops[..m]).last == Kill
  }

  /** Operation n is the death of the program, before any such tick. */
  ghost predicate DownInTime(ops: seq<Op>, n: nat)
    requires n < |ops|
  {
    ops[n].OpChildDown? && forall m :: 0 <= m < n ==> !KillTick(ops, m)
  }

  ghost predicate AnyKillTick(ops: seq<Op>, k: nat)
    requires k <= |ops|
  {
    exists m :: 0 <= m < k && KillTick(ops, m)
  }

  ghost predicate AnyDownInTime(ops: seq<Op>, k: nat)
    requires k <= |ops|
  {
    exists n :: 0 <= n < k && DownInTime(ops, n)
  }

  ghost predicate AnyDisposal(ops: seq<Op>, k: nat)
    requires k <= |ops|
  {
    exists m :: 0 <= m < k && ops[m].OpDispose?
  }

  /** Operation n is the death of the program, in time and before any disposal. */
  ghost predicate DownAloud(ops: seq<Op>, n: nat)
    requires n < |ops|
  {
    DownInTime(ops, n) && !AnyDisposal(ops, n)
  }

  ghost predicate AnyDownAloud(ops: seq<Op>, k: nat)
    requires k <= |ops|
  {
    exists n :: 0 <= n < k && DownAloud(ops, n)
  }

  /** What one operation changes about all that. */
  lemma StepFacts(s: SessionState, op: Op)
    ensures var t, killed := SessionStep(s, op), op.OpTick? && op.id in s.timers && s.last == Kill;
            && (t.up <==> s.up && !(op.OpChildDown? && s.watch))
            && (t.emits <==> s.emits && !op.OpDispose?)
            && (t.watch <==> s.watch && !op.OpChildDown? && (s.up || !Terminates(op)) && !killed)
            && (t.announced > s.announced <==> t.emits && ((op.OpChildDown? && s.watch) || (op.OpTerminate? && !s.up)))
            && t.announced >= s.announced
  {
  }

  /** Where a session stands after k operations. */
  lemma {:induction false} Standing(ops: seq<Op>, k: nat)
    requires k <= |ops|
    ensures var s := SessionAfter(ops[..k]);
            && (s.up <==> !AnyDownInTime(ops, k)) && (s.emits <==> !AnyDisposal(ops, k))
            && (s.watch <==> s.up && !AnyKillTick(ops, k))
            && (s.announced > 0 <==> AnyDownAloud(ops, k))
  {
    hide SessionStep;
    if k > 0 {
      Standing(ops, k - 1);
      assert ops[..k][..k - 1] == ops[..k - 1];
      StepFacts(SessionAfter(ops[..k - 1]), ops[k - 1]);
      OneMoreOp(ops, k - 1);
      AloudIsInTime(ops, k - 1);
    }
  }

  lemma OneMoreOp(ops: seq<Op>, k: nat)
    requires k < |ops|
    ensures AnyKillTick(ops, k + 1) <==> AnyKillTick(ops, k) || KillTick(ops, k)
    ensures AnyDownInTime(ops, k + 1) <==> AnyDownInTime(ops, k) || (ops[k].OpChildDown? && !AnyKillTick(ops, k))
    ensures AnyDisposal(ops, k + 1) <==> AnyDisposal(ops, k) || ops[k].OpDispose?
    ensures AnyDownAloud(ops, k + 1) <==>
            AnyDownAloud(ops, k) || (ops[k].OpChildDown? && !AnyKillTick(ops, k) && !AnyDisposal(ops, k))
  {
    hide KillTick;
    assert DownInTime(ops, k) <==> ops[k].OpChildDown? && !AnyKillTick(ops, k);
    assert AnyDownAloud(ops, k + 1) <==> AnyDownAloud(ops, k) || DownAloud(ops, k);
  }

  /** A death in time that nobody has heard of came after a disposal. */
  lemma AloudIsInTime(ops: seq<Op>, k: nat)
    requires k <= |ops|
    ensures AnyDownAloud(ops, k) ==> AnyDownInTime(ops, k)
    ensures AnyDownInTime(ops, k) && !AnyDisposal(ops, k) ==> AnyDownAloud(ops, k)
  {
    if AnyDownInTime(ops, k) && !AnyDisposal(ops, k) {
      var n :| 0 <= n < k && DownInTime(ops, n);
      assert DownAloud(ops, n);
    }
  }

  /**
    The end of the program is announced if and only if the program dies before the ladder has been climbed to its end,
    that is, before the first tick after SIGKILL, and before any disposal.  It counts as running, and a disposal waits,
    until it dies in time.
  */
  lemma AnnouncedIff(ops: seq<Op>)
    ensures SessionAfter(ops).announced > 0 <==>
            exists n :: 0 <= n < |ops| && DownInTime(ops, n) && forall m :: 0 <= m < n ==> !ops[m].OpDispose?
    ensures SessionAfter(ops).up <==> !exists n :: 0 <= n < |ops| && DownInTime(ops, n)
  {
    Standing(ops, |ops|);
    assert ops[..|ops|] == ops;
    forall n | 0 <= n < |ops|
      ensures DownAloud(ops, n) <==> DownInTime(ops, n) && forall m :: 0 <= m < n ==> !ops[m].OpDispose? {
    }
  }

  /** The regular way down: the object is disposed of, and the program dies at once.  Nobody is told. */
  lemma DisposedInSilence()
    ensures var s := SessionAfter([OpDispose, OpChildDown]); !s.up && s.announced == 0
  {
    assert [OpDispose, OpChildDown][..1] == [OpDispose] && [OpDispose][..0] == [];
    assert SessionAfter([OpDispose]) == SessionStep(RUNNING, OpDispose);
  }

  /** It happens: SIGHUP, SIGTERM, SIGKILL, the error, and only then the program dies. */
  lemma DeathUnnoticed()
    ensures var ops := [OpTerminate, OpTick(1), OpTick(1), OpTick(1), OpChildDown];
            SessionAfter(ops).up && SessionAfter(ops).announced == 0 && SessionAfter(ops).timers == {}
  {
    var ops := [OpTerminate, OpTick(1), OpTick(1), OpTick(1), OpChildDown];
    assert ops[..4][..3][..2][..1][..0] == [];
    assert ops[..4] == [OpTerminate, OpTick(1), OpTick(1), OpTick(1)];
    assert ops[..4][..3] == [OpTerminate, OpTick(1), OpTick(1)];
    assert ops[..4][..3][..2] == [OpTerminate, OpTick(1)];
    assert ops[..4][..3][..2][..1] == [OpTerminate];
    assert SessionAfter([OpTerminate]).last == Hup && SessionAfter([OpTerminate]).timers == {1};
    assert SessionAfter([OpTerminate, OpTick(1)]).last == Term;
    assert SessionAfter([OpTerminate, OpTick(1), OpTick(1)]).last == Kill;
    assert SessionAfter(ops[..4]).timers == {} && !SessionAfter(ops[..4]).watch && SessionAfter(ops[..4]).up;
  }

  method Apply(session: UserSession, op: Op)
    requires session.Valid()
    modifies session
    ensures session.Valid() && session.State() == SessionStep(old(session.State()), op)
  {
    match op {
      case OpTerminate => var _ := session.Terminate();
      case OpDispose => session.BeginDispose();
      case OpTick(id) =>
        if id in session.timers {
          var _ := session.TerminateTimeout(id);
        }
      case OpChildDown =>
        if session.childWatch {
          var _ := session.OnChildDown();
        }
      case _ =>
    }
  }

  /**
    The same costs as for the daemon's end; and whether the end of the program has been announced, whether it counts as
    running, and whether it is abandoned: after a tick at SIGKILL under a running program nobody watches for its end any
    more, so a disposal that waits for that end does not return.
  */
  method Escalate(ops: seq<Op>) returns (trace: Trace, live: set<nat>, announced: nat, up: bool, abandoned: bool)
    ensures trace == SessionAfter(ops).trace && live == SessionAfter(ops).timers
    ensures trace.ticks + |live| <= 3 * TerminateCalls(ops)
    ensures SentAmong(trace.sent, {Term, Kill}) <= 2 * TerminateCalls(ops)
    ensures trace.errors + |live| <= TerminateCalls(ops)
    ensures Ladder(trace.sent) && SentAmong(trace.sent, {Hup}) == trace.terminates
    ensures announced > 0 <==> AnyDownAloud(ops, |ops|)
    ensures up <==> !AnyDownInTime(ops, |ops|)
    ensures abandoned <==> up && AnyKillTick(ops, |ops|)
  {
    var session := new UserSession();
    var i := 0;
    while i < |ops|
      invariant 0 <= i <= |ops| && fresh(session) && session.Valid()
      invariant session.State() == SessionAfter(ops[..i])
    {
      assert ops[..i + 1][..i] == ops[..i];
      Apply(session, ops[i]);
      i := i + 1;
    }
    assert ops[..|ops|] == ops;
    SessionAccount(ops);
    Standing(ops, |ops|);
    return session.trace, session.timers, session.announced, session.isChildUp, session.isChildUp && !session.childWatch;
  }
}
