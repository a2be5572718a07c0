/** src/daemon/tlm-seat.c: the seat object and its session object, tied to the state machine of SeatSpec. */
module SeatObject {
  import opened Wrappers
  import opened Relogin
  import opened SessionRemote
  import opened UserName
  import opened SeatSpec
  import opened SeatProofs

  class TlmSeat {
    const config: Config
    const id: string
    var defaultUser: Option<string>
    var next: Login
    var prevTime: int
    var prevCount: int
    var defaultActive: bool
    var session: SessionRemote.Remote?
    var dbusObserver: Option<UserObserver>
    var prevDbusObserver: Option<UserObserver>
    var retries: seq<Login>  // deferred creations whose timers run
    var hooks: nat           // shutdown handlers connected by the manager
    var signals: seq<Signal> // everything emitted
    var life: seq<Life>      // what has become of sessions
    ghost var attempts: seq<Clock>
    ghost var fired: nat
    ghost var switching: Option<Login>
    ghost var begun: bool

    /** The state the specification speaks of. */
    ghost function State(): Seat
      reads this
    {
      Seat(if session == null then None else Some(session.username), next, Throttle(prevTime, prevCount), defaultUser,
           defaultActive, dbusObserver, prevDbusObserver, retries, hooks, signals, life, attempts, fired, switching, begun)
    }

    /** The process of the live session runs, and its signals reach the seat. */
    ghost predicate Wired()
      reads this, session
    {
      session != null ==>
        session.Valid() && session.isSessiondUp && session.canEmitSignal && session.connected && session.seatId == id
    }

    /** How many sessions have been started. */
    function Starts(): nat
      reads this
    {
      LifeCount(life, Began)
    }

    /** A session object that has been replaced or closed is disconnected; a new one has been counted. */
    twostate predicate Replaced(before: SessionRemote.Remote?)
      reads this, before
    {
      && (before != null && session != before ==> before.Valid() && !before.connected)
      && (session != null ==> Starts() == old(Starts()) + if session == before then 0 else 1)
    }

    ghost predicate Valid()
      reads this, session
    {
      GoodConfig(config) && Wired() && Inv(config, State())
    }

    constructor (config: Config, id: string)
      requires GoodConfig(config)
      ensures Valid() && State() == EMPTY && this.config == config && this.id == id
    {
      this.config, this.id := config, id;
      defaultUser, next, prevTime, prevCount, defaultActive, session := None, NOBODY, 0, 0, false, null;
      dbusObserver, prevDbusObserver, retries, hooks, signals := None, None, [], 0, [];
      life, attempts, fired, switching, begun := [], [], 0, None, false;
      new;
      RunKeeps(config, id, []);
    }

    method Emit(signal: Signal)
      modifies this`signals
      ensures State() == SeatSpec.Emit(old(State()), signal)
    {
      signals := signals + [signal];
    }

    /** The signal handlers go, then the object: it is down and silent from here on. */
    method CloseActiveSession(how: Life)
      requires how != Began && (session != null ==> session.Valid())
      modifies this`session, this`life, this`switching, session
      ensures State() == SeatSpec.CloseActiveSession(old(State()), how) && session == null && Starts() == old(Starts())
      ensures old(session) != null ==>
                var r := old(session); r.Valid() && !r.isSessiondUp && !r.canEmitSignal && !r.connected
    {
      hide LifeCount, RemoteStep;
      if session != null {
        session.connected := false;
        session.Dispose();
        session := null;
        LifeOneMore(life, how, Began);
        life, switching := life + [how], None;
      }
    }

    /** A session process is started. */
    method NewRemote(user: Option<string>)
      requires session == null
      modifies this`session, this`life
      ensures State() == old(State()).(session := Some(user), life := old(life) + [Began])
      ensures session != null && fresh(session) && session.Valid()
      ensures session.isSessiondUp && session.canEmitSignal && session.seatId == id
    {
      session := new SessionRemote.Remote(id, user);
      life := life + [Began];
    }

    /** The observer there was becomes the previous one. */
    method NewObserver(observer: Option<UserObserver>)
      modifies this`prevDbusObserver, this`dbusObserver
      ensures State() == old(State()).(prevObserver := old(dbusObserver), observer := observer)
    {
      prevDbusObserver := dbusObserver;
      dbusObserver := observer;
    }

    /** A session process is started, but there is no observer for its user: the new object goes again. */
    method AbortStart(user: Option<string>)
      requires session == null
      modifies this`prevDbusObserver, this`dbusObserver, this`session, this`life
      ensures State() == old(State()).(prevObserver := old(dbusObserver), observer := None, life := old(life) + [Began, Closed])
    {
      NewRemote(user);
      NewObserver(None);
      session.Dispose();
      session := null;
      life := life + [Closed];
      assert old(life) + [Began] + [Closed] == old(life) + [Began, Closed];
    }

    /** A session process is started, its user gets an observer, and its signals are connected. */
    method CompleteStart(user: string, uid: nat)
      requires session == null
      modifies this`prevDbusObserver, this`dbusObserver, this`session, this`life
      ensures Wired() && session != null && fresh(session) && Starts() == old(Starts()) + 1
      ensures State() == old(State()).(prevObserver := old(dbusObserver), observer := Some(UserObserver(user, uid)),
                                       session := Some(Some(user)), life := old(life) + [Began])
    {
      LifeOneMore(life, Began, Began);
      NewRemote(Some(user));
      NewObserver(Some(UserObserver(user, uid)));
      session.connected := true;
    }

    /** The part of a creation behind the throttle and the default user. */
    method StartSession(username: Option<string>, o: Outside) returns (ok: bool)
      requires session == null
      modifies this
      ensures Wired() && (State(), ok) == SeatSpec.StartSession(old(State()), username, o)
      ensures session != null ==> fresh(session)
      ensures Replaced(old(session))
    {
      var user := if defaultActive then defaultUser else username;
      if !o.spawned {
        Emit(Failed(SessionCreationFailure));
        return false;
      }
      if user.None? || o.uid.None? || !o.serverStarted {
        AbortStart(user);
        Emit(Failed(DbusServerStartFailure));
        return false;
      }
      CompleteStart(user.value, o.uid.value);
      return true;
    }

    /** The throttle: whether the attempt may go on. */
    method PassThrottle(clock: Clock) returns (admitted: bool)
      modifies this`prevTime, this`prevCount, this`attempts
      ensures State() == old(State()).(throttle := Attempt(old(State()).throttle, clock), attempts := old(attempts) + [clock])
      ensures admitted == Admits(old(State()).throttle, clock)
    {
      attempts := attempts + [clock];
      if clock.read - prevTime < 1000000 {
        prevTime := clock.reread;
        prevCount := prevCount + 1;
        admitted := !(prevCount > 3);
      } else {
        prevTime := clock.reread;
        prevCount := 1;
        admitted := true;
      }
    }

    method PrepareDefault()
      requires GoodConfig(config)
      modifies this`defaultUser, this`defaultActive, this`signals
      ensures State() == SeatSpec.PrepareDefault(config, id, old(State()))
    {
      if defaultUser.None? && config.defaultUser.Some? {
        var name := BuildUserName(config.defaultUser.value, id);
        defaultUser := Some(name);
      }
      if defaultUser.Some? {
        defaultActive := true;
        Emit(PrepareUserLogin(defaultUser));
      }
    }

    method CreateSession(login: Login, o: Outside) returns (ok: bool)
      requires GoodConfig(config) && Wired()
      modifies this
      ensures Wired() && (State(), ok) == SeatSpec.CreateSession(config, id, old(State()), login, o)
      ensures session != old(session) ==> session != null && fresh(session)
      ensures Replaced(old(session))
    {
      hide SeatSpec.StartSession, SeatSpec.PrepareDefault, Attempt, Admits, Complete;
      begun := true;
      if session != null {
        Emit(Failed(SessionAlreadyExists));
        return false;
      }
      var admitted := PassThrottle(o.clock);
      if !admitted {
        retries := retries + [login];
        return true;
      }
      ok := StartFor(login.username, o);
    }

    /** The default user is prepared if nobody is asked for, and a session is started. */
    method StartFor(username: Option<string>, o: Outside) returns (ok: bool)
      requires GoodConfig(config) && session == null
      modifies this
      ensures var s := old(State());
              && Wired()
              && (State(), ok) ==
                 SeatSpec.StartSession(if username.None? then SeatSpec.PrepareDefault(config, id, s) else s, username, o)
      ensures session != null ==> fresh(session)
      ensures Replaced(old(session))
    {
      hide SeatSpec.StartSession, SeatSpec.PrepareDefault, Complete;
      if username.None? {
        PrepareDefault();
      }
      ok := StartSession(username, o);
    }

    method TerminateSession() returns (ok: bool)
      requires Wired()
      modifies this`defaultActive, this`signals, session
      ensures Wired() && (State(), ok) == SeatSpec.TerminateSession(old(State()))
      ensures session != null ==>
                session.trace.terminates == old(session.trace.terminates) + 1 && |session.timers| == |old(session.timers)| + 1
    {
      if defaultActive {
        defaultActive := false;
        Emit(PrepareUserLogout(defaultUser));
      }
      if session != null {
        ok := session.Terminate();
      } else {
        ok := false;
      }
      if !ok {
        Emit(Failed(SessionNotValid));
      }
    }

    method SwitchUser(login: Login, authenticated: bool, o: Outside) returns (ok: bool)
      requires GoodConfig(config) && Wired()
      modifies this, session
      ensures Wired() && (State(), ok) == SeatSpec.SwitchUser(config, id, old(State()), login, authenticated, o)
      ensures session != old(session) ==> session != null && fresh(session)
      ensures Replaced(old(session))
    {
      if !(authenticated && login.username.Some? && login.password.Some?) {
        return false;
      }
      if session == null {
        ok := CreateSession(login, o);
        return;
      }
      next := login;
      switching := Some(login);
      ok := TerminateSession();
    }

    method HandleSessionCreated()
      modifies this`signals, this`prevDbusObserver
      ensures State() == SeatSpec.HandleSessionCreated(old(State()))
    {
      Emit(Created);
      prevDbusObserver := None;
    }

    method HandleSessionTerminated(o: Outside)
      requires GoodConfig(config) && session != null && session.Valid()
      modifies this, session
      ensures Wired() && State() == SeatSpec.HandleSessionTerminated(config, id, old(State()), o)
      ensures session != null ==> fresh(session)
      ensures Replaced(old(session))
    {
      hide LifeCount, SeatSpec.CreateSession;
      CloseActiveSession(Ended);
      Emit(Terminated);
      var stop := hooks > 0;
      if stop {
        return;
      }
      dbusObserver := None;
      if config.x11Session {
        return;
      }
      if config.autoLogin || next.username.Some? {
        var _ := CreateSession(next, o);
        next := NOBODY;
      }
    }

    method HandleError(error: Error)
      requires Wired()
      modifies this, session
      ensures Wired() && State() == SeatSpec.HandleError(old(State()), error)
      ensures session == null || session == old(session)
      ensures Replaced(old(session))
    {
      Emit(Failed(error));
      if error in {PamAuthFailure, SessionCreationFailure, SessionTerminationFailure} {
        CloseActiveSession(Closed);
        dbusObserver := None;
      }
    }

    method DelayedSession(k: nat, o: Outside)
      requires GoodConfig(config) && Wired() && k < |retries|
      modifies this
      ensures Wired() && State() == SeatSpec.DelayedSession(config, id, old(State()), k, o)
      ensures session != old(session) ==> session != null && fresh(session)
      ensures Replaced(old(session))
    {
      var login := retries[k];
      retries := retries[..k] + retries[k + 1..];
      fired := fired + 1;
      var _ := CreateSession(login, o);
    }

    /**
      Something happens to a session object: the live one, or one the seat has let go of.  What it emits, if anything,
      reaches the seat only from the live one.
    */
    method Deliver(remote: SessionRemote.Remote, op: Op, o: Outside) returns (emitted: Option<RemoteSignal>)
      requires GoodConfig(config) && Wired() && remote.Valid() && (remote.connected ==> remote == session)
      modifies this, session, remote
      ensures Wired() && emitted == Says(old(remote.State()), op)
      ensures State() == if remote == old(session) && emitted.Some?
                         then Hear(config, id, old(State()), emitted.value, o) else old(State())
      ensures session != old(session) && session != null ==> fresh(session)
      ensures Replaced(old(session))
      ensures remote.Valid() && (remote.connected ==> remote == session)
      ensures old(remote.isSessiondUp) && !remote.isSessiondUp && remote == old(session) ==> session != remote
    {
      hide Says, SeatSpec.Hear, LifeCount;
      SaysDown(remote.State());
      emitted := Operate(remote, op);
      if emitted.Some? && remote.connected {
        Heard(emitted.value, o);
      }
    }

    /** What happens to the object itself.  Calls to it are the seat's own business. */
    static method Operate(remote: SessionRemote.Remote, op: Op) returns (emitted: Option<RemoteSignal>)
      requires remote.Valid()
      modifies remote
      ensures remote.Valid() && emitted == Says(old(remote.State()), op)
      ensures remote.connected == old(remote.connected) && remote.canEmitSignal == old(remote.canEmitSignal)
      ensures remote.isSessiondUp <==> old(remote.isSessiondUp) && !op.OpChildDown?
    {
      emitted := None;
      match op {
        case OpTick(timer) =>
          if timer in remote.timers {
            emitted := remote.TerminateTimeout(timer);
          }
        case OpChildDown =>
          if remote.childWatch {
            emitted := remote.OnChildDown();
          }
        case OpProxy(signal) => emitted := remote.OnProxySignal(signal);
        case OpCreateFailed(error) => emitted := remote.OnCreateFailed(error);
        case _ =>
      }
    }

    /** The handlers connected to the session object. */
    method Heard(signal: RemoteSignal, o: Outside)
      requires GoodConfig(config)
      requires session != null && session.Valid() && session.canEmitSignal && session.connected && session.seatId == id
      requires session.isSessiondUp || signal.SessionTerminated?
      modifies this, session
      ensures Wired() && State() == Hear(config, id, old(State()), signal, o)
      ensures session != old(session) && session != null ==> fresh(session)
      ensures Replaced(old(session))
      ensures signal.SessionTerminated? ==> session != old(session)
    {
      match signal {
        case SessionCreated => HandleSessionCreated();
        case SessionTerminated => HandleSessionTerminated(o);
        case SessionError(error) => HandleError(error);
      }
    }

    /** One event of a run that does not come from a session object: the state machine takes the step, and all is kept. */
    method Perform(e: Event)
      requires Valid() && !e.FromRemote?
      modifies this, session
      ensures Valid() && State() == Step(config, id, old(State()), e)
      ensures Replaced(old(session)) && (session != old(session) && session != null ==> fresh(session))
    {
      hide Inv, SeatSpec.CreateSession, SeatSpec.SwitchUser, SeatSpec.TerminateSession, SeatSpec.DelayedSession;
      StepKeeps(config, id, State(), e);
      match e {
        case Ask(login, o) => var _ := CreateSession(login, o);
        case Switch(login, authenticated, o) => var _ := SwitchUser(login, authenticated, o);
        case Leave => var _ := TerminateSession();
        case Retry(k, o) =>
          if k < |retries| {
            DelayedSession(k, o);
          }
        case Hook => hooks := hooks + 1;
      }
    }

    /** One event that does. */
    method PerformRemote(remote: SessionRemote.Remote, op: Op, o: Outside) returns (emitted: Option<RemoteSignal>)
      requires Valid() && remote.Valid() && (remote.connected ==> remote == session)
      modifies this, session, remote
      ensures Valid() && emitted == Says(old(remote.State()), op)
      ensures State() == if remote == old(session) && emitted.Some?
                         then Hear(config, id, old(State()), emitted.value, o) else old(State())
      ensures Replaced(old(session)) && (session != old(session) && session != null ==> fresh(session))
      ensures remote.Valid() && (remote.connected ==> remote == session)
    {
      ghost var s := State();
      ghost var live := remote == session;
      emitted := Deliver(remote, op, o);
      if live && emitted.Some? {
        HearKeeps(config, id, s, emitted.value, o);
      }
    }
  }

  /** The death of a live process is always heard, and heard as its end. */
  lemma SaysDown(s: RemoteState)
    ensures s.up && s.emits ==> Says(s, OpChildDown) == Some(SessionTerminated)
  {
  }
}
