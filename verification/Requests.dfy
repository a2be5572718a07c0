/**
  src/daemon/tlm-dbus-observer.c meets src/daemon/tlm-seat.c: what the reply to a request, worked out from the signals
  that the seat emits during the call, says about what the call has done.
*/
module Requests {
  import opened Wrappers
  import opened Relogin
  import opened UserName
  import opened SessionRemote
  import opened SeatSpec
  import opened SeatProofs
  import opened DbusObserver

  /** The call into the seat that a dispatch makes; nobody may switch to the user who is there already. */
  function Call(cfg: Config, id: string, s: Seat, kind: Kind, login: Login, authenticated: bool, o: Outside)
    : (Seat, bool)
    requires GoodConfig(cfg)
  {
    match kind
    case LoginUser => CreateSession(cfg, id, s, login, o)
    case LogoutUser => TerminateSession(s)
    case SwitchUser =>
      if Occupies(s, login.username) then (s, false) else SeatSpec.SwitchUser(cfg, id, s, login, authenticated, o)
  }

  /** Without a session the seat has a null occupant. */
  predicate Occupies(s: Seat, username: Option<string>) {
    username == if s.session.Some? then s.session.value else None
  }

  /** A switch the seat does not even try. */
  predicate Refused(s: Seat, kind: Kind, login: Login, authenticated: bool) {
    kind == SwitchUser &&
    (Occupies(s, login.username) || !authenticated || login.username.None? || login.password.None?)
  }

  /** What the seat has emitted between two states. */
  function Emitted(s: Seat, t: Seat): seq<Signal>
    requires |s.signals| <= |t.signals|
  {
    t.signals[|s.signals|..]
  }

  /** From s to t: perhaps some prepare signal, and then an error exactly when the call failed. */
  ghost predicate Spoke(s: Seat, t: Seat, ok: bool) {
    && s.signals <= t.signals
    && (if ok then Emitted(s, t) == [] || SmallTalk(Emitted(s, t))
        else exists error: Error :: Emitted(s, t) == [Failed(error)] || PreparedThen(Emitted(s, t), error))
  }

  ghost predicate SmallTalk(signals: seq<Signal>) {
    |signals| == 1 && IsPrepare(signals[0])
  }

  ghost predicate PreparedThen(signals: seq<Signal>, error: Error) {
    |signals| == 2 && IsPrepare(signals[0]) && signals[1] == Failed(error)
  }

  function StartError(o: Outside): Error {
    if o.spawned then DbusServerStartFailure else SessionCreationFailure
  }

  lemma StartSpoke(s: Seat, username: Option<string>, o: Outside)
    ensures var (t, ok) := StartSession(s, username, o);
            t.signals == if ok then s.signals else s.signals + [Failed(StartError(o))]
  {
  }

  lemma CreateSpoke(cfg: Config, id: string, s: Seat, login: Login, o: Outside)
    requires GoodConfig(cfg)
    ensures var (t, ok) := CreateSession(cfg, id, s, login, o); Spoke(s, t, ok)
  {
    hide StartSession, Admits, Attempt, DefaultUser, Complete;
    var (t, ok) := CreateSession(cfg, id, s, login, o);
    if s.session.Some? {
      assert Emitted(s, t) == [Failed(SessionAlreadyExists)];
    } else if Admits(s.throttle, o.clock) {
      var s1 := s.(throttle := Attempt(s.throttle, o.clock), attempts := s.attempts + [o.clock], begun := true);
      StartSpoke(if login.username.None? then PrepareDefault(cfg, id, s1) else s1, login.username, o);
      if !ok {
        assert Emitted(s, t) == [Failed(StartError(o))] || PreparedThen(Emitted(s, t), StartError(o));
      }
    }
  }

  lemma TerminateSpoke(s: Seat)
    ensures var (t, ok) := TerminateSession(s); Spoke(s, t, ok)
  {
  }

  /** Whatever the kind of request, talk that ends in an error makes it fail, and other talk does not. */
  lemma AnswerToTalk(kind: Kind, s: Seat, t: Seat, ok: bool)
    requires Spoke(s, t, ok)
    ensures ReplyAfter(false, kind, Emitted(s, t)) == Success <==> ok
  {
    var signals := Emitted(s, t);
    if signals != [] && IsPrepare(signals[0]) {
      assert FirstAnswer(kind, signals) == FirstAnswer(kind, signals[1..]);
    }
  }

  /**
    A supported request is answered with success if and only if it came through an observer made for the seat, or the
    seat's call succeeded, or was a switch refused at the door: to the current user, or without the right password.
  */
  lemma RepliedSuccessIff(ownSeat: bool, cfg: Config, id: string, s: Seat, kind: Kind, login: Login,
                          authenticated: bool, o: Outside)
    requires GoodConfig(cfg)
    ensures var (t, ok) := Call(cfg, id, s, kind, login, authenticated, o);
            && s.signals <= t.signals
            && (ReplyAfter(ownSeat, kind, Emitted(s, t)) == Success <==>
                  ownSeat || ok || Refused(s, kind, login, authenticated))
            && (Refused(s, kind, login, authenticated) ==> t == s && !ok)
  {
    var (t, ok) := Call(cfg, id, s, kind, login, authenticated, o);
    if Refused(s, kind, login, authenticated) {
      assert Emitted(s, t) == [];
    } else {
      if kind == LogoutUser || (kind == SwitchUser && s.session.Some?) {
        var s1 := if kind == LogoutUser then s else s.(next := login, switching := Some(login));
        TerminateSpoke(s1);
      } else {
        CreateSpoke(cfg, id, s, login, o);
      }
      assert Spoke(s, t, ok);
      AnswerToTalk(kind, s, t, ok);
    }
  }

  /** A creation succeeds when there was no session and now there is one, or the attempt is put off. */
  lemma CreateSucceedsIff(cfg: Config, id: string, s: Seat, login: Login, o: Outside)
    requires GoodConfig(cfg)
    ensures var (t, ok) := CreateSession(cfg, id, s, login, o);
            && (ok <==> s.session.None? && (t.session.Some? || t.retries == s.retries + [login]))
            && (!ok ==> |t.signals| > |s.signals|)
  {
  }

  ghost predicate Achieved(s: Seat, t: Seat, kind: Kind, login: Login) {
    match kind
    case LoginUser => Installed(s, t, login)
    case LogoutUser => s.session.Some?
    case SwitchUser => t == s || Installed(s, t, login) || (s.session.Some? && t.switching == Some(login))
  }

  ghost predicate Installed(s: Seat, t: Seat, login: Login) {
    s.session.None? && (t.session.Some? || t.retries == s.retries + [login])
  }

  /**
    What success through the common socket tells about the seat, exactly: that a login or a switch on an empty seat has
    started a session process or is put off; that a logout found a session; that a switch has been recorded, or that
    nothing has happened at all.  Through the seat's own observer it tells nothing.
  */
  lemma SuccessMeans(ownSeat: bool, cfg: Config, id: string, s: Seat, kind: Kind, login: Login, authenticated: bool,
                     o: Outside)
    requires GoodConfig(cfg)
    ensures var t := Call(cfg, id, s, kind, login, authenticated, o).0;
            s.signals <= t.signals &&
            (ReplyAfter(ownSeat, kind, Emitted(s, t)) == Success <==> ownSeat || Achieved(s, t, kind, login))
  {
    RepliedSuccessIff(ownSeat, cfg, id, s, kind, login, authenticated, o);
    if !Refused(s, kind, login, authenticated) && (kind == LoginUser || (kind == SwitchUser && s.session.None?)) {
      CreateSucceedsIff(cfg, id, s, login, o);
    }
  }

  /** Nobody takes over a seat without the right password, nor switches to whom is there already: nothing happens. */
  lemma SwitchRefused(cfg: Config, id: string, s: Seat, login: Login, authenticated: bool, o: Outside)
    requires GoodConfig(cfg)
    requires !authenticated || login.password.None? || (s.session.Some? && s.session.value == login.username)
    ensures Call(cfg, id, s, SwitchUser, login, authenticated, o) == (s, false)
  {
  }

  /** With the right password, to somebody else, it is the seat's own switch. */
  lemma SwitchTried(cfg: Config, id: string, s: Seat, login: Login, o: Outside)
    requires GoodConfig(cfg) && login.username.Some? && login.password.Some?
    requires s.session.Some? && s.session.value != login.username
    ensures var (t, ok) := Call(cfg, id, s, SwitchUser, login, true, o);
            ok && t.next == login && t.session == s.session && !t.defaultActive
  {
  }

  /** A login request logs its user in on an empty seat, and on a taken one leaves the user there alone. */
  lemma LoginCalled(cfg: Config, id: string, s: Seat, login: Login, authenticated: bool, o: Outside)
    requires GoodConfig(cfg) && login.username.Some? && !s.defaultActive
    ensures var (t, ok) := Call(cfg, id, s, LoginUser, login, authenticated, o);
            && (s.session.Some? ==> !ok && t.session == s.session && t.signals == s.signals + [Failed(SessionAlreadyExists)])
            && (s.session.None? && Admits(s.throttle, o.clock) && Serves(o) ==> ok && t.session == Some(login.username))
  {
  }

  /** A logout request ends the login whoever asks for it: a default user is said goodbye to and no longer active. */
  lemma LogoutCalled(cfg: Config, id: string, s: Seat, login: Login, authenticated: bool, o: Outside)
    requires GoodConfig(cfg) && s.session.Some?
    ensures var (t, ok) := Call(cfg, id, s, LogoutUser, login, authenticated, o);
            && ok && t.session == s.session && !t.defaultActive && t.next == s.next
            && t.signals == s.signals + if s.defaultActive then [PrepareUserLogout(s.defaultUser)] else []
  {
  }

  // ----- Any sequence of requests, against the run of one seat -----

  /** An observer of a seat. */
  datatype Setting = Setting(cfg: Config, id: string, ownSeat: bool, flags: set<Kind>)

  /** A request comes, an idle dispatch runs, or the seat goes on by itself. */
  datatype Act =
    | Come(kind: Kind, login: Login)
    | Dispatch(found: bool, authenticated: bool, outside: Outside)
    | SeatEvent(event: Event)

  /** The observer, the logins of all requests so far, and the seat. */
  datatype Service = Service(desk: Desk, logins: seq<Login>, seat: Seat)

  predicate Busy(d: Desk) {
    d.pending && d.queue != []
  }

  function LoginOf(v: Service, request: Request): Login {
    if request.serial < |v.logins| then v.logins[request.serial] else NOBODY
  }

  /** What a dispatch does to the seat: an unsupported request, or one for a seat not found, does not get that far. */
  function Called(x: Setting, v: Service, found: bool, authenticated: bool, o: Outside): Seat
    requires GoodConfig(x.cfg) && Busy(v.desk)
  {
    var head := v.desk.queue[0];
    if found && head.kind in x.flags then Call(x.cfg, x.id, v.seat, head.kind, LoginOf(v, head), authenticated, o).0
    else v.seat
  }

  /** The signals the seat emits meanwhile. */
  function SaidDuring(x: Setting, v: Service, found: bool, authenticated: bool, o: Outside): seq<Signal>
    requires GoodConfig(x.cfg) && Busy(v.desk)
  {
    var t := Called(x, v, found, authenticated, o);
    if |v.seat.signals| <= |t.signals| then Emitted(v.seat, t) else []
  }

  /** What the act is to the observer. */
  function StepOf(x: Setting, v: Service, act: Act): DbusObserver.Step
    requires GoodConfig(x.cfg)
  {
    match act
    case Come(kind, _) => Arrive(kind)
    case Dispatch(found, authenticated, o) =>
      Idle(Meeting(found, if Busy(v.desk) then SaidDuring(x, v, found, authenticated, o) else []))
    case SeatEvent(_) => SeatSays(Created)
  }

  function ActStep(x: Setting, v: Service, act: Act): Service
    requires GoodConfig(x.cfg)
  {
    var desk := DeskStep(x.ownSeat, x.flags, v.desk, StepOf(x, v, act));
    match act
    case Come(_, login) => v.(desk := desk, logins := v.logins + [login])
    case Dispatch(found, authenticated, o) =>
      v.(desk := desk, seat := if Busy(v.desk) then Called(x, v, found, authenticated, o) else v.seat)
    case SeatEvent(e) => v.(desk := desk, seat := SeatSpec.Step(x.cfg, x.id, v.seat, e))
  }

  function ServiceAfter(x: Setting, seat: Seat, acts: seq<Act>): Service
    requires GoodConfig(x.cfg)
  {
    if acts == [] then Service(OPENED, [], seat)
    else ActStep(x, ServiceAfter(x, seat, acts[..|acts| - 1]), acts[|acts| - 1])
  }

  function StepsOf(x: Setting, seat: Seat, acts: seq<Act>): seq<DbusObserver.Step>
    requires GoodConfig(x.cfg)
  {
    if acts == [] then []
    else
      var before := acts[..|acts| - 1];
      StepsOf(x, seat, before) + [StepOf(x, ServiceAfter(x, seat, before), acts[|acts| - 1])]
  }

  /** The observer's part is a run of the observer, the seat keeps its invariant, and each request has its own login. */
  lemma {:induction false} ServiceKept(x: Setting, seat: Seat, acts: seq<Act>)
    requires GoodConfig(x.cfg) && Inv(x.cfg, seat)
    ensures var v := ServiceAfter(x, seat, acts);
            && v.desk == DeskAfter(x.ownSeat, x.flags, StepsOf(x, seat, acts))
            && Inv(x.cfg, v.seat) && |v.logins| == |v.desk.arrivals|
  {
    hide Inv, DeskStep, SeatSpec.Step, Call, StepOf;
    if acts != [] {
      var before, act := acts[..|acts| - 1], acts[|acts| - 1];
      var v := ServiceAfter(x, seat, before);
      ServiceKept(x, seat, before);
      assert StepsOf(x, seat, acts)[..|before|] == StepsOf(x, seat, before) by {
        StepsPerAct(x, seat, before);
      }
      StepsPerAct(x, seat, acts);
      StepsPerAct(x, seat, before);
      ArrivalsOf(x, v, act);
      match act
      case Come(_, _) =>
      case Dispatch(_, authenticated, o) =>
        if Busy(v.desk) {
          CallKeeps(x.cfg, x.id, v.seat, v.desk.queue[0].kind, LoginOf(v, v.desk.queue[0]), authenticated, o);
        }
      case SeatEvent(e) => StepKeeps(x.cfg, x.id, v.seat, e);
    }
  }

  lemma {:induction false} StepsPerAct(x: Setting, seat: Seat, acts: seq<Act>)
    requires GoodConfig(x.cfg)
    ensures |StepsOf(x, seat, acts)| == |acts|
  {
    hide ServiceAfter, StepOf;
    if acts != [] {
      StepsPerAct(x, seat, acts[..|acts| - 1]);
    }
  }

  lemma ArrivalsOf(x: Setting, v: Service, act: Act)
    requires GoodConfig(x.cfg)
    ensures var d := DeskStep(x.ownSeat, x.flags, v.desk, StepOf(x, v, act));
            |d.arrivals| == |v.desk.arrivals| + if act.Come? then 1 else 0
  {
    hide SaidDuring, Due;
  }

  lemma CallKeeps(cfg: Config, id: string, s: Seat, kind: Kind, login: Login, authenticated: bool, o: Outside)
    requires GoodConfig(cfg) && Inv(cfg, s)
    ensures Inv(cfg, Call(cfg, id, s, kind, login, authenticated, o).0)
  {
    hide Inv, CreateSession, TerminateSession, SeatSpec.SwitchUser;
    match kind
    case LoginUser =>
      InvIsAlmost(cfg, s);
      CreateKeeps(cfg, id, s, login, o);
    case LogoutUser => TerminateKeeps(cfg, s);
    case SwitchUser => SwitchKeeps(cfg, id, s, login, authenticated, o);
  }

  /** The requests that come, in order. */
  function Comes(acts: seq<Act>): (comes: seq<Act>)
    ensures forall i :: 0 <= i < |comes| ==> comes[i].Come?
  {
    if acts == [] then []
    else Comes(acts[..|acts| - 1]) + if acts[|acts| - 1].Come? then [acts[|acts| - 1]] else []
  }

  /** A request is of the kind, and is dispatched with the login, that it came with. */
  ghost predicate IsOwn(v: Service, comes: seq<Act>, request: Request) {
    && request.serial < |comes| && comes[request.serial].Come?
    && request.kind == comes[request.serial].kind && LoginOf(v, request) == comes[request.serial].login
  }

  ghost predicate OwnRequests(v: Service, comes: seq<Act>) {
    && |v.logins| == |comes| == |v.desk.arrivals|
    && (forall i :: 0 <= i < |v.desk.arrivals| ==> v.desk.arrivals[i].serial == i && IsOwn(v, comes, v.desk.arrivals[i]))
    && forall r :: r in v.desk.queue ==> IsOwn(v, comes, r)
  }

  lemma OneMoreCome(x: Setting, v: Service, act: Act, comes: seq<Act>)
    requires GoodConfig(x.cfg) && OwnRequests(v, comes)
    ensures OwnRequests(ActStep(x, v, act), if act.Come? then comes + [act] else comes)
  {
    hide SaidDuring, Called, SeatSpec.Step, Due;
    var w, more := ActStep(x, v, act), if act.Come? then comes + [act] else comes;
    forall r: Request | IsOwn(v, comes, r) ensures IsOwn(w, more, r) {
    }
    forall r | r in w.desk.queue ensures IsOwn(w, more, r) {
      if r in v.desk.queue {
        assert IsOwn(v, comes, r);
      }
    }
    forall i | 0 <= i < |w.desk.arrivals| ensures w.desk.arrivals[i].serial == i && IsOwn(w, more, w.desk.arrivals[i]) {
      if i < |v.desk.arrivals| {
        assert IsOwn(v, comes, v.desk.arrivals[i]);
      }
    }
  }

  /**
    Nobody is logged in with another's name or password: over every run the i-th request is of the kind it came with, and
    each that waits will be dispatched with its own login, however many are answered or fail in between.
  */
  lemma {:induction false} OwnLogin(x: Setting, seat: Seat, acts: seq<Act>)
    requires GoodConfig(x.cfg)
    ensures OwnRequests(ServiceAfter(x, seat, acts), Comes(acts))
  {
    hide ActStep, OwnRequests;
    if acts == [] {
      assert OwnRequests(Service(OPENED, [], seat), []) by {
        NothingCame(seat);
      }
    } else {
      var before, act := acts[..|acts| - 1], acts[|acts| - 1];
      OwnLogin(x, seat, before);
      OneMoreCome(x, ServiceAfter(x, seat, before), act, Comes(before));
      assert Comes(acts) == if act.Come? then Comes(before) + [act] else Comes(before);
    }
  }

  lemma NothingCame(seat: Seat)
    ensures OwnRequests(Service(OPENED, [], seat), [])
  {
  }

  /** What a dispatch answers to the head of the queue. */
  function OutcomeOf(x: Setting, v: Service, act: Act): Outcome
    requires GoodConfig(x.cfg) && Busy(v.desk) && act.Dispatch?
  {
    var kind := v.desk.queue[0].kind;
    if kind !in x.flags then Failure(DbusReqNotSupported)
    else if !act.found then Failure(SeatNotFound)
    else ReplyAfter(x.ownSeat, kind, SaidDuring(x, v, act.found, act.authenticated, act.outside))
  }

  /** Act n is the dispatch that made this reply, from what the seat said during just that call. */
  ghost predicate MadeBy(x: Setting, seat: Seat, acts: seq<Act>, n: nat, reply: Reply)
    requires GoodConfig(x.cfg) && n < |acts|
  {
    var v := ServiceAfter(x, seat, acts[..n]);
    acts[n].Dispatch? && Busy(v.desk) &&
    var head := v.desk.queue[0];
    && reply.serial == head.serial
    && reply.outcome == OutcomeOf(x, v, acts[n])
  }

  lemma RepliesOf(x: Setting, v: Service, act: Act)
    requires GoodConfig(x.cfg)
    ensures var replies := ActStep(x, v, act).desk.replies;
            if act.Dispatch? && Busy(v.desk) then
              replies == v.desk.replies + [Reply(v.desk.queue[0].serial, OutcomeOf(x, v, act))]
            else replies == v.desk.replies
  {
    hide SaidDuring, Called, SeatSpec.Step, ReplyAfter, FirstAnswer;
  }

  /** In every run, each reply comes from what the seat emitted during the call for that very request. */
  lemma {:induction false} EveryReply(x: Setting, seat: Seat, acts: seq<Act>, i: nat)
    requires GoodConfig(x.cfg) && i < |ServiceAfter(x, seat, acts).desk.replies|
    ensures exists n :: 0 <= n < |acts| && MadeBy(x, seat, acts, n, ServiceAfter(x, seat, acts).desk.replies[i])
  {
    hide SaidDuring, Called, SeatSpec.Step, ReplyAfter, ActStep;
    if acts != [] {
      var m := |acts| - 1;
      var v := ServiceAfter(x, seat, acts[..m]);
      var w := ServiceAfter(x, seat, acts);
      assert w == ActStep(x, v, acts[m]);
      RepliesOf(x, v, acts[m]);
      if i < |v.desk.replies| {
        EveryReply(x, seat, acts[..m], i);
        var n :| 0 <= n < m && MadeBy(x, seat, acts[..m], n, v.desk.replies[i]);
        assert acts[..m][..n] == acts[..n];
        assert w.desk.replies[i] == v.desk.replies[i];
        assert MadeBy(x, seat, acts, n, w.desk.replies[i]);
      } else {
        assert MadeBy(x, seat, acts, m, w.desk.replies[i]);
      }
    }
  }

  /**
    So in every run a request that is not supported, or whose seat is not found, is answered with just that and leaves the
    seat alone; any other is answered with success if and only if its own call into the seat succeeded in the state the
    seat was in by then, or was a switch refused at the door, or the observer was made for the seat.
  */
  lemma ReplyInRun(x: Setting, seat: Seat, acts: seq<Act>, n: nat, reply: Reply)
    requires GoodConfig(x.cfg) && n < |acts| && MadeBy(x, seat, acts, n, reply)
    ensures var v := ServiceAfter(x, seat, acts[..n]);
            var head, a := v.desk.queue[0], acts[n];
            var login := LoginOf(v, head);
            && (!a.found || head.kind !in x.flags ==>
                  Called(x, v, a.found, a.authenticated, a.outside) == v.seat
                  && reply.outcome == Failure(if head.kind !in x.flags then DbusReqNotSupported else SeatNotFound))
            && (a.found && head.kind in x.flags ==>
              (reply.outcome == Success <==>
                 || x.ownSeat || Refused(v.seat, head.kind, login, a.authenticated)
                 || Call(x.cfg, x.id, v.seat, head.kind, login, a.authenticated, a.outside).1))
  {
    hide Call, ServiceAfter, ReplyAfter, Refused;
    var v := ServiceAfter(x, seat, acts[..n]);
    var head, a := v.desk.queue[0], acts[n];
    RepliedSuccessIff(x.ownSeat, x.cfg, x.id, v.seat, head.kind, LoginOf(v, head), a.authenticated, a.outside);
  }
}
