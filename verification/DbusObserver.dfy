/** src/daemon/tlm-dbus-observer.c: the queue of login, logout and switch requests and how each gets its reply. */
module DbusObserver {
  import opened Wrappers
  import opened SessionRemote
  import opened SeatSpec

  datatype Kind = LoginUser | LogoutUser | SwitchUser

  datatype Request = Request(serial: nat, kind: Kind)

  datatype Outcome = Success | Failure(error: Error)

  datatype Reply = Reply(serial: nat, outcome: Outcome)

  /** What a dispatch meets: whether the manager knows the seat, and what the seat emits during the call. */
  datatype Meeting = Meeting(found: bool, emitted: seq<Signal>)

  // ----- The reply a request is owed -----

  /** A signal of the seat that completes a request: for a logout the end of the session, for others its creation. */
  function Answer(kind: Kind, signal: Signal): Option<Outcome> {
    match signal
    case Created => if kind == LogoutUser then None else Some(Success)
    case Terminated => if kind == LogoutUser then Some(Success) else None
    case Failed(error) => Some(Failure(error))
    case _ => None
  }

  /** The first completing signal. */
  function FirstAnswer(kind: Kind, signals: seq<Signal>): Option<Outcome> {
    if signals == [] then None
    else if Answer(kind, signals[0]).Some? then Answer(kind, signals[0])
    else FirstAnswer(kind, signals[1..])
  }

  /**
    The reply after the call into the seat: without a completing signal, the clean-up reports success.  An observer made
    for one seat has not connected that seat's signals.
  */
  function ReplyAfter(ownSeat: bool, kind: Kind, signals: seq<Signal>): Outcome {
    if !ownSeat && FirstAnswer(kind, signals).Some? then FirstAnswer(kind, signals).value else Success
  }

  class Observer {
    const ownSeat: bool      // made for one seat; else the manager is asked for the seat of each request
    const flags: set<Kind>   // the kinds of request that are supported
    var requestQueue: seq<Request>
    var activeRequest: Option<Request>
    var dispatchPending: bool   // request_id: an idle dispatch is scheduled
    var replies: seq<Reply>
    var arrivals: seq<Request>
    var overtaken: nat          // requests that came while a dispatch was pending
    var rescheduled: nat        // dispatches that scheduled the next one

    /** Between steps nothing is active and no dispatch is in vain. */
    ghost predicate Valid()
      reads this
    {
      activeRequest == None && (dispatchPending ==> requestQueue != [])
    }

    /** The state the machine below speaks of. */
    ghost function State(): Desk
      reads this
    {
      Desk(arrivals, requestQueue, dispatchPending, replies, overtaken, rescheduled)
    }

    constructor (ownSeat: bool, flags: set<Kind>)
      ensures Valid() && State() == OPENED && this.ownSeat == ownSeat && this.flags == flags
    {
      this.ownSeat, this.flags := ownSeat, flags;
      requestQueue, activeRequest, dispatchPending, replies, arrivals := [], None, false, [], [];
      overtaken, rescheduled := 0, 0;
    }

    method ProcessNextRequestInIdle()
      modifies this`dispatchPending
      ensures dispatchPending == (old(dispatchPending) || requestQueue != [])
    {
      if !dispatchPending && requestQueue != [] {
        dispatchPending := true;
      }
    }

    method AddRequest(kind: Kind)
      requires Valid()
      modifies this`requestQueue, this`dispatchPending, this`arrivals, this`overtaken
      ensures Valid() && State() == DeskStep(ownSeat, flags, old(State()), Arrive(kind))
    {
      var request := Request(|arrivals|, kind);
      overtaken := overtaken + if dispatchPending then 1 else 0;
      requestQueue, arrivals := requestQueue + [request], arrivals + [request];
      ProcessNextRequestInIdle();
    }

    method CompleteRequest(request: Request, outcome: Outcome)
      modifies this`replies
      ensures replies == old(replies) + [Reply(request.serial, outcome)]
    {
      replies := replies + [Reply(request.serial, outcome)];
    }

    /** _dispose_request: a request that still has its D-Bus part is answered without an error. */
    method DisposeRequest(request: Option<Request>)
      modifies this`replies
      ensures replies == old(replies) + if request.Some? then [Reply(request.value.serial, Success)] else []
    {
      if request.Some? {
        replies := replies + [Reply(request.value.serial, Success)];
      }
    }

    /** The three handlers of the seat's signals. */
    method HandleSeatSignal(signal: Signal)
      modifies this`activeRequest, this`dispatchPending, this`replies
      ensures if activeRequest == old(activeRequest)
              then replies == old(replies) && dispatchPending == old(dispatchPending)
              else activeRequest == None
      ensures old(activeRequest).None? || Answer(old(activeRequest).value.kind, signal).None? ==>
                activeRequest == old(activeRequest)
      ensures old(activeRequest).Some? && Answer(old(activeRequest).value.kind, signal).Some? ==>
                && activeRequest == None && dispatchPending == (old(dispatchPending) || requestQueue != [])
                && replies == old(replies) + [Reply(old(activeRequest).value.serial,
                                                    Answer(old(activeRequest).value.kind, signal).value)]
    {
      match signal {
        case Created =>
          if activeRequest.None? || activeRequest.value.kind == LogoutUser {
            return;
          }
          CompleteRequest(activeRequest.value, Success);
          activeRequest := None;
          ProcessNextRequestInIdle();
        case Terminated =>
          if activeRequest.None? || activeRequest.value.kind != LogoutUser {
            return;
          }
          CompleteRequest(activeRequest.value, Success);
          activeRequest := None;
          ProcessNextRequestInIdle();
        case Failed(error) =>
          if activeRequest.None? {
            return;
          }
          CompleteRequest(activeRequest.value, Failure(error));
          activeRequest := None;
          ProcessNextRequestInIdle();
        case _ =>
      }
    }

    /** A signal between two dispatches concerns no request. */
    method SeatSignalBetween(signal: Signal)
      requires Valid()
      modifies this`activeRequest, this`dispatchPending, this`replies
      ensures Valid() && State() == DeskStep(ownSeat, flags, old(State()), SeatSays(signal))
    {
      HandleSeatSignal(signal);
    }

    /**
      One idle dispatch.  The head of the queue is answered, once, whichever way the answer comes; the next dispatch is
      scheduled only if a signal of the seat brought the answer and somebody waits.
    */
    method ProcessRequest(m: Meeting)
      requires Valid() && dispatchPending
      modifies this`requestQueue, this`activeRequest, this`dispatchPending, this`replies, this`rescheduled
      ensures Valid() && State() == DeskStep(ownSeat, flags, old(State()), Idle(m))
    {
      hide FirstAnswer;
      dispatchPending := false;
      var req := requestQueue[0];
      requestQueue := requestQueue[1..];
      if req.kind !in flags {
        CompleteRequest(req, Failure(DbusReqNotSupported));
        return;
      }
      if !m.found {
        CompleteRequest(req, Failure(SeatNotFound));
        return;
      }
      activeRequest := Some(req);
      if !ownSeat {
        CallSeat(req, m.emitted);
      }
      DisposeRequest(activeRequest);
      activeRequest := None;
      rescheduled := rescheduled + if dispatchPending then 1 else 0;
    }

    /** The call into the seat, whose signals are connected meanwhile. */
    method CallSeat(req: Request, emitted: seq<Signal>)
      requires activeRequest == Some(req) && !dispatchPending
      modifies this`activeRequest, this`dispatchPending, this`replies
      ensures FirstAnswer(req.kind, emitted).None? ==>
                activeRequest == Some(req) && replies == old(replies) && !dispatchPending
      ensures FirstAnswer(req.kind, emitted).Some? ==>
                && activeRequest == None && dispatchPending == (requestQueue != [])
                && replies == old(replies) + [Reply(req.serial, FirstAnswer(req.kind, emitted).value)]
    {
      var i := 0;
      while i < |emitted|
        invariant 0 <= i <= |emitted|
        invariant activeRequest.Some? ==>
                    && activeRequest == Some(req) && replies == old(replies) && !dispatchPending
                    && FirstAnswer(req.kind, emitted) == FirstAnswer(req.kind, emitted[i..])
        invariant activeRequest.None? ==>
                    && FirstAnswer(req.kind, emitted).Some? && dispatchPending == (requestQueue != [])
                    && replies == old(replies) + [Reply(req.serial, FirstAnswer(req.kind, emitted).value)]
      {
        assert emitted[i..][1..] == emitted[i + 1..];
        HandleSeatSignal(emitted[i]);
        i := i + 1;
      }
    }

    /** The request a dispatch is serving, if any, and those behind it. */
    ghost function Waiting(): seq<Request>
      reads this
    {
      (if activeRequest.Some? then [activeRequest.value] else []) + requestQueue
    }

    /** _stop_dbus_server, and the removal of a pending dispatch before it: what waits is aborted, in order. */
    method Stop()
      modifies this`requestQueue, this`activeRequest, this`dispatchPending, this`replies
      ensures requestQueue == [] && activeRequest == None && !dispatchPending
      ensures replies == old(replies) + Aborts(old(Waiting()))
    {
      dispatchPending := false;
      ghost var rest, start := requestQueue, replies;
      if activeRequest.Some? {
        CompleteRequest(activeRequest.value, Failure(DbusReqAborted));
        AbortsCons(activeRequest.value, rest);
      }
      activeRequest := None;
      ghost var before := replies;
      var i := 0;
      while i < |requestQueue|
        invariant 0 <= i <= |requestQueue| && requestQueue == rest && activeRequest == None && !dispatchPending
        invariant replies == before + Aborts(rest)[..i]
      {
        CompleteRequest(requestQueue[i], Failure(DbusReqAborted));
        i := i + 1;
      }
      assert Aborts(rest)[..i] == Aborts(rest);
      requestQueue := [];
    }
  }

  /** The replies that abort some requests. */
  function Aborts(requests: seq<Request>): (replies: seq<Reply>)
    ensures |replies| == |requests|
    ensures forall i :: 0 <= i < |replies| ==> replies[i] == Reply(requests[i].serial, Failure(DbusReqAborted))
  {
    seq(|requests|, i requires 0 <= i < |requests| => Reply(requests[i].serial, Failure(DbusReqAborted)))
  }

  lemma AbortsCons(request: Request, rest: seq<Request>)
    ensures Aborts([request] + rest) == [Reply(request.serial, Failure(DbusReqAborted))] + Aborts(rest)
  {
  }

  // ----- The observer as a value -----

  /** The queue and its books. */
  datatype Desk = Desk(arrivals: seq<Request>, queue: seq<Request>, pending: bool, replies: seq<Reply>,
                       overtaken: nat, rescheduled: nat)

  const OPENED := Desk([], [], false, [], 0, 0)

  datatype Step = Arrive(kind: Kind) | Idle(meeting: Meeting) | SeatSays(signal: Signal)

  /** The reply the head of the queue gets from a dispatch, and whether a signal of the seat brings it. */
  function Due(ownSeat: bool, flags: set<Kind>, kind: Kind, m: Meeting): (Outcome, bool) {
    if kind !in flags then (Failure(DbusReqNotSupported), false)
    else if !m.found then (Failure(SeatNotFound), false)
    else (ReplyAfter(ownSeat, kind, m.emitted), !ownSeat && FirstAnswer(kind, m.emitted).Some?)
  }

  function DeskStep(ownSeat: bool, flags: set<Kind>, d: Desk, step: Step): Desk {
    match step
    case Arrive(kind) =>
      var request := Request(|d.arrivals|, kind);
      d.(arrivals := d.arrivals + [request], queue := d.queue + [request], pending := true,
         overtaken := d.overtaken + if d.pending then 1 else 0)
    case Idle(m) =>
      if !d.pending || d.queue == [] then d else
      var (outcome, bySignal) := Due(ownSeat, flags, d.queue[0].kind, m);
      var again := bySignal && |d.queue| > 1;
      d.(queue := d.queue[1..], replies := d.replies + [Reply(d.queue[0].serial, outcome)], pending := again,
         rescheduled := d.rescheduled + if again then 1 else 0)
    case SeatSays(_) => d
  }

  function DeskAfter(ownSeat: bool, flags: set<Kind>, steps: seq<Step>): Desk {
    if steps == [] then OPENED
    else DeskStep(ownSeat, flags, DeskAfter(ownSeat, flags, steps[..|steps| - 1]), steps[|steps| - 1])
  }

  function Arrivals(steps: seq<Step>): nat {
    if steps == [] then 0
    else Arrivals(steps[..|steps| - 1]) + if steps[|steps| - 1].Arrive? then 1 else 0
  }

  /** The requests that arrived are those replied to, in order, followed by those that wait. */
  ghost predicate Conserved(arrivals: seq<Request>, replies: seq<Reply>, queue: seq<Request>) {
    && |arrivals| == |replies| + |queue|
    && (forall i :: 0 <= i < |replies| ==> replies[i].serial == i)
    && (forall i :: 0 <= i < |arrivals| ==> arrivals[i].serial == i)
    && queue == arrivals[|replies|..]
  }

  /**
    The account: no request is lost or answered twice; no dispatch is in vain; and each request that came while a
    dispatch was pending is one more than there are dispatches, unless a dispatch scheduled another.
  */
  ghost predicate Accounted(ownSeat: bool, d: Desk) {
    && Conserved(d.arrivals, d.replies, d.queue)
    && (d.pending ==> d.queue != [])
    && |d.queue| + d.rescheduled == d.overtaken + (if d.pending then 1 else 0)
    && (ownSeat ==> d.rescheduled == 0)
  }

  lemma DeskStepKeeps(ownSeat: bool, flags: set<Kind>, d: Desk, step: Step)
    requires Accounted(ownSeat, d)
    ensures Accounted(ownSeat, DeskStep(ownSeat, flags, d, step))
  {
    hide ReplyAfter, FirstAnswer;
  }

  lemma {:induction false} Account(ownSeat: bool, flags: set<Kind>, steps: seq<Step>)
    ensures var d := DeskAfter(ownSeat, flags, steps); Accounted(ownSeat, d) && |d.arrivals| == Arrivals(steps)
  {
    hide Accounted, Due;
    if steps == [] {
      OpenedAccounted(ownSeat);
    } else {
      Account(ownSeat, flags, steps[..|steps| - 1]);
      DeskStepKeeps(ownSeat, flags, DeskAfter(ownSeat, flags, steps[..|steps| - 1]), steps[|steps| - 1]);
    }
  }

  lemma OpenedAccounted(ownSeat: bool)
    ensures Accounted(ownSeat, OPENED)
  {
  }

  /** Step n is a request that comes while a dispatch is pending. */
  predicate Overtakes(ownSeat: bool, flags: set<Kind>, steps: seq<Step>, n: nat)
    requires n < |steps|
  {
    steps[n].Arrive? && DeskAfter(ownSeat, flags, steps[..n]).pending
  }

  /** A dispatch that a signal of the seat completes while somebody waits. */
  predicate SchedulesAnother(ownSeat: bool, flags: set<Kind>, d: Desk, step: Step) {
    step.Idle? && d.pending && |d.queue| > 1 && Due(ownSeat, flags, d.queue[0].kind, step.meeting).1
  }

  /** How many of the steps are requests that come while a dispatch is pending. */
  function Overtakings(ownSeat: bool, flags: set<Kind>, steps: seq<Step>): nat {
    if steps == [] then 0
    else
      Overtakings(ownSeat, flags, steps[..|steps| - 1]) +
      if steps[|steps| - 1].Arrive? && DeskAfter(ownSeat, flags, steps[..|steps| - 1]).pending then 1 else 0
  }

  /** How many of them are dispatches that schedule another. */
  function Reschedulings(ownSeat: bool, flags: set<Kind>, steps: seq<Step>): nat {
    if steps == [] then 0
    else
      var before, last := steps[..|steps| - 1], steps[|steps| - 1];
      Reschedulings(ownSeat, flags, before) +
      if SchedulesAnother(ownSeat, flags, DeskAfter(ownSeat, flags, before), last) then 1 else 0
  }

  lemma {:induction false} Counted(ownSeat: bool, flags: set<Kind>, steps: seq<Step>)
    ensures var d := DeskAfter(ownSeat, flags, steps);
            && d.overtaken == Overtakings(ownSeat, flags, steps) && d.rescheduled == Reschedulings(ownSeat, flags, steps)
  {
    hide Due;
    if steps != [] {
      Counted(ownSeat, flags, steps[..|steps| - 1]);
    }
  }

  lemma {:induction false} NoOvertakings(ownSeat: bool, flags: set<Kind>, steps: seq<Step>, k: nat)
    requires k <= |steps|
    ensures Overtakings(ownSeat, flags, steps[..k]) == 0 <==>
            forall n :: 0 <= n < k ==> !Overtakes(ownSeat, flags, steps, n)
  {
    hide DeskAfter;
    if k > 0 {
      NoOvertakings(ownSeat, flags, steps, k - 1);
      assert steps[..k][..k - 1] == steps[..k - 1];
      assert Overtakes(ownSeat, flags, steps, k - 1) <==>
             steps[k - 1].Arrive? && DeskAfter(ownSeat, flags, steps[..k - 1]).pending;
    }
  }

  /**
    How many requests are left when no dispatch is pending any more: as many as came under a pending dispatch, less the
    dispatches that scheduled another.  An observer made for one seat schedules none, so it is done with its queue if and
    only if no request ever came under a pending dispatch.
  */
  lemma Backlog(ownSeat: bool, flags: set<Kind>, steps: seq<Step>)
    ensures var d := DeskAfter(ownSeat, flags, steps);
            && |d.queue| + Reschedulings(ownSeat, flags, steps) ==
               Overtakings(ownSeat, flags, steps) + (if d.pending then 1 else 0)
            && (ownSeat ==> Reschedulings(ownSeat, flags, steps) == 0)
            && (ownSeat ==>
                  (d.queue == [] <==>
                     !d.pending && forall n :: 0 <= n < |steps| ==> !Overtakes(ownSeat, flags, steps, n)))
  {
    hide DeskAfter, Overtakings, Reschedulings, Overtakes, Conserved;
    Account(ownSeat, flags, steps);
    Counted(ownSeat, flags, steps);
    NoOvertakings(ownSeat, flags, steps, |steps|);
    assert steps[..|steps|] == steps;
  }

  /** It happens: two requests, one dispatch, and one request is left without a dispatch. */
  lemma LeftBehind(flags: set<Kind>, kind: Kind, ownSeat: bool)
    ensures var d := DeskAfter(ownSeat, flags, [Arrive(kind), Arrive(kind), Idle(Meeting(true, []))]);
            d.queue == [Request(1, kind)] && !d.pending && |d.replies| == 1
  {
    var a, m := Arrive(kind), Idle(Meeting(true, []));
    assert [a, a, m][..2] == [a, a] && [a, a][..1] == [a] && [a][..0] == [];
    assert DeskAfter(ownSeat, flags, [a]) == DeskStep(ownSeat, flags, OPENED, a);
    assert DeskAfter(ownSeat, flags, [a, a]).queue == [Request(0, kind), Request(1, kind)];
  }

  lemma NoDispatch(ownSeat: bool, flags: set<Kind>, d: Desk, m: Meeting)
    requires !d.pending
    ensures DeskStep(ownSeat, flags, d, Idle(m)) == d
  {
  }

  /** What becomes of the requests when the observer stops after some steps. */
  lemma Served(ownSeat: bool, flags: set<Kind>, steps: seq<Step>)
    ensures var d := DeskAfter(ownSeat, flags, steps);
            var replies := d.replies + Aborts(d.queue);
            && |replies| == Arrivals(steps) && (forall i :: 0 <= i < |replies| ==> replies[i].serial == i)
            && (forall i :: |d.replies| <= i < |replies| ==> replies[i].outcome == Failure(DbusReqAborted))
            && |d.queue| + d.rescheduled == d.overtaken + (if d.pending then 1 else 0) && (ownSeat ==> d.rescheduled == 0)
  {
    hide DeskAfter, Arrivals;
    Account(ownSeat, flags, steps);
  }

  // ----- What a dispatch answers -----

  /** A supported request for a seat nobody knows is answered with just that, and schedules nothing. */
  lemma UnknownSeat(ownSeat: bool, flags: set<Kind>, steps: seq<Step>, emitted: seq<Signal>)
    requires var d := DeskAfter(ownSeat, flags, steps); d.pending && d.queue != [] && d.queue[0].kind in flags
    ensures var d := DeskAfter(ownSeat, flags, steps);
            DeskAfter(ownSeat, flags, steps + [Idle(Meeting(false, emitted))]) ==
            d.(queue := d.queue[1..], pending := false,
               replies := d.replies + [Reply(d.queue[0].serial, Failure(SeatNotFound))])
  {
    OneMoreStep(ownSeat, flags, steps, Idle(Meeting(false, emitted)));
  }

  /** A request of a kind that is not supported is answered with just that, whatever the seat. */
  lemma UnsupportedKind(ownSeat: bool, flags: set<Kind>, steps: seq<Step>, m: Meeting)
    requires var d := DeskAfter(ownSeat, flags, steps); d.pending && d.queue != [] && d.queue[0].kind !in flags
    ensures var d := DeskAfter(ownSeat, flags, steps);
            DeskAfter(ownSeat, flags, steps + [Idle(m)]) ==
            d.(queue := d.queue[1..], pending := false,
               replies := d.replies + [Reply(d.queue[0].serial, Failure(DbusReqNotSupported))])
  {
    OneMoreStep(ownSeat, flags, steps, Idle(m));
  }

  /** A dispatch that meets silence is answered with success, and schedules nothing. */
  lemma SilentSeat(ownSeat: bool, flags: set<Kind>, steps: seq<Step>)
    requires var d := DeskAfter(ownSeat, flags, steps); d.pending && d.queue != [] && d.queue[0].kind in flags
    ensures var d := DeskAfter(ownSeat, flags, steps);
            DeskAfter(ownSeat, flags, steps + [Idle(Meeting(true, []))]) ==
            d.(queue := d.queue[1..], pending := false, replies := d.replies + [Reply(d.queue[0].serial, Success)])
  {
    OneMoreStep(ownSeat, flags, steps, Idle(Meeting(true, [])));
  }

  /**
    Through the common socket, a seat that says one thing decides the reply: an error fails any request; a creation
    completes a login or a switch, an end a logout; and then the next dispatch is scheduled if somebody waits.
  */
  lemma TalkingSeat(flags: set<Kind>, steps: seq<Step>, signal: Signal)
    requires var d := DeskAfter(false, flags, steps); d.pending && d.queue != [] && d.queue[0].kind in flags
    requires signal == Created || signal == Terminated || signal.Failed?
    ensures var d := DeskAfter(false, flags, steps);
            var e := DeskAfter(false, flags, steps + [Idle(Meeting(true, [signal]))]);
            var logout := d.queue[0].kind == LogoutUser;
            var answers := signal.Failed? || (signal == Created && !logout) || (signal == Terminated && logout);
            && e.replies == d.replies + [Reply(d.queue[0].serial, if signal.Failed? then Failure(signal.error) else Success)]
            && (e.pending <==> answers && |d.queue| > 1) && e.queue == d.queue[1..]
  {
    OneMoreStep(false, flags, steps, Idle(Meeting(true, [signal])));
    assert [signal][1..] == [];
    assert FirstAnswer(DeskAfter(false, flags, steps).queue[0].kind, []).None?;
  }

  lemma OneMoreStep(ownSeat: bool, flags: set<Kind>, steps: seq<Step>, step: Step)
    ensures DeskAfter(ownSeat, flags, steps + [step]) == DeskStep(ownSeat, flags, DeskAfter(ownSeat, flags, steps), step)
    ensures Accounted(ownSeat, DeskAfter(ownSeat, flags, steps))
  {
    assert (steps + [step])[..|steps|] == steps;
    Account(ownSeat, flags, steps);
  }

  // ----- Every run -----

  /**
    However requests, dispatches and seat signals interleave, the observer is where the machine is, and stopping aborts
    exactly what waits: every request has then had exactly one reply, in the order of arrival.
  */
  method Serve(ownSeat: bool, flags: set<Kind>, steps: seq<Step>)
    returns (replies: seq<Reply>, aborted: nat, overtaken: nat, rescheduled: nat, pending: bool)
    ensures var d := DeskAfter(ownSeat, flags, steps);
            && replies == d.replies + Aborts(d.queue) && aborted == |d.queue|
            && overtaken == d.overtaken && rescheduled == d.rescheduled && pending == d.pending
    ensures |replies| == Arrivals(steps) && forall i :: 0 <= i < |replies| ==> replies[i].serial == i
    ensures aborted + rescheduled == overtaken + if pending then 1 else 0
    ensures ownSeat ==> rescheduled == 0
  {
    hide DeskStep, Accounted, Conserved, Arrivals;
    var observer := new Observer(ownSeat, flags);
    var i := 0;
    while i < |steps|
      invariant 0 <= i <= |steps| && fresh(observer) && observer.Valid()
      invariant observer.ownSeat == ownSeat && observer.flags == flags
      invariant observer.State() == DeskAfter(ownSeat, flags, steps[..i])
    {
      assert steps[..i + 1][..i] == steps[..i];
      match steps[i] {
        case Arrive(kind) => observer.AddRequest(kind);
        case Idle(meeting) =>
          if observer.dispatchPending {
            observer.ProcessRequest(meeting);
          } else {
            NoDispatch(ownSeat, flags, observer.State(), meeting);
          }
        case SeatSays(signal) => observer.SeatSignalBetween(signal);
      }
      i := i + 1;
    }
    assert steps[..|steps|] == steps;
    Served(ownSeat, flags, steps);
    aborted, overtaken, rescheduled := |observer.requestQueue|, observer.overtaken, observer.rescheduled;
    pending := observer.dispatchPending;
    assert observer.Waiting() == observer.requestQueue;
    observer.Stop();
    replies := observer.replies;
  }

  /** The answer is the first signal that completes the request. */
  lemma {:induction false} FirstAnswerIsFirst(kind: Kind, signals: seq<Signal>, i: nat)
    requires i < |signals| && Answer(kind, signals[i]).Some?
    requires forall j :: 0 <= j < i ==> Answer(kind, signals[j]).None?
    ensures FirstAnswer(kind, signals) == Answer(kind, signals[i])
    decreases i
  {
    if i > 0 {
      FirstAnswerIsFirst(kind, signals[1..], i - 1);
    }
  }

  lemma {:induction false} NoAnswer(kind: Kind, signals: seq<Signal>)
    ensures FirstAnswer(kind, signals).None? <==> forall j :: 0 <= j < |signals| ==> Answer(kind, signals[j]).None?
  {
    if signals != [] {
      NoAnswer(kind, signals[1..]);
      forall j | 0 < j < |signals| ensures signals[j] == signals[1..][j - 1] {
      }
    }
  }
}
