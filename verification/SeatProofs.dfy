/** What every step of a seat keeps, and what follows for every run. */
module SeatProofs {
  import opened Wrappers
  import opened Relogin
  import opened SessionRemote
  import opened UserName
  import opened SeatSpec

  /** No session is lost, replaced or ended twice. */
  ghost predicate SessionsConserved(s: Seat) {
    && OneAtATime(s.life)
    && (Live(s.life) <==> s.session.Some?)
    && LifeCount(s.life, Ended) == Terminations(s.signals)
  }

  /** A live session's user is the one the seat's observer was made for. */
  ghost predicate ObserverIsOccupants(s: Seat) {
    s.session.Some? ==> s.observer.Some? && s.session.value == Some(s.observer.value.user)
  }

  /** The default user is prepared exactly while the last prepare signal is a login. */
  ghost predicate DefaultPrepared(s: Seat) {
    && PreparesPaired(s.signals, s.defaultUser)
    && (s.defaultActive <==> LastPrepare(s.signals) == Some(PrepareUserLogin(s.defaultUser)))
    && (s.defaultUser.None? ==> LastPrepare(s.signals) == None)
  }

  /** Each attempt is let through at once or waits as exactly one retry, and sessions start only from the former. */
  ghost predicate AttemptsAccounted(s: Seat) {
    && s.throttle == After(s.attempts)
    && |s.attempts| == Admissions(s.attempts, 0, |s.attempts|) + s.fired + |s.retries|
    && LifeCount(s.life, Began) <= Admissions(s.attempts, 0, |s.attempts|)
  }

  /** A switch that was accepted on the live session is what comes next. */
  ghost predicate SwitchRecorded(s: Seat) {
    && (s.next == NOBODY || s.next.username.Some?)
    && (s.switching.Some? ==>
          s.session.Some? && s.next == s.switching.value && s.next.username.Some? && !s.defaultActive)
  }

  /** Outside shutdown and X11 mode an auto-login seat is occupied, about to try again, or has reported an error last. */
  ghost predicate NeverSilentlyIdle(cfg: Config, s: Seat) {
    cfg.autoLogin && !cfg.x11Session && s.begun && s.hooks == 0 ==>
      s.session.Some? || s.retries != [] ||
      (LastSessionSignal(s.signals).Some? && LastSessionSignal(s.signals).value.Failed?)
  }

  ghost predicate Inv(cfg: Config, s: Seat) {
    && SessionsConserved(s) && ObserverIsOccupants(s) && DefaultPrepared(s) && AttemptsAccounted(s)
    && SwitchRecorded(s) && NeverSilentlyIdle(cfg, s)
  }

  // ----- Appending to the histories -----

  /** Signals that are not about the default user leave its account alone and are the last word on sessions. */
  lemma SessionSignal(s: Seat, x: Signal)
    requires DefaultPrepared(s) && !IsPrepare(x)
    ensures var t := Emit(s, x);
            && DefaultPrepared(t) && LastSessionSignal(t.signals) == Some(x)
            && Terminations(t.signals) == Terminations(s.signals) + if x == Terminated then 1 else 0
  {
  }

  lemma PrepareSignal(s: Seat, x: Signal)
    requires PreparesPaired(s.signals, s.defaultUser) && s.defaultUser.Some?
    requires IsPrepare(x) && x.user == s.defaultUser && s.defaultActive == x.PrepareUserLogin?
    requires x.PrepareUserLogout? ==> LastPrepare(s.signals) == Some(PrepareUserLogin(s.defaultUser))
    ensures var t := Emit(s, x);
            && DefaultPrepared(t) && LastSessionSignal(t.signals) == LastSessionSignal(s.signals)
            && Terminations(t.signals) == Terminations(s.signals)
  {
  }

  lemma LifeHistory(life: seq<Life>, x: Life)
    requires OneAtATime(life) && (x == Began <==> !Live(life))
    ensures OneAtATime(life + [x]) && (Live(life + [x]) <==> x == Began)
    ensures forall y :: LifeCount(life + [x], y) == LifeCount(life, y) + if x == y then 1 else 0
  {
  }

  /** Nobody was ever prepared: any user will do. */
  lemma {:induction false} UnpreparedPaired(signals: seq<Signal>, user: Option<string>)
    requires LastPrepare(signals) == None
    ensures PreparesPaired(signals, user)
  {
    if signals != [] {
      UnpreparedPaired(signals[..|signals| - 1], user);
    }
  }

  // ----- Steps -----

  lemma CloseKeeps(s: Seat, how: Life)
    requires SessionsConserved(s) && AttemptsAccounted(s) && s.session.Some? && how != Began
    ensures var t := CloseActiveSession(s, how);
            && OneAtATime(t.life) && !Live(t.life) && AttemptsAccounted(t)
            && LifeCount(t.life, Ended) == LifeCount(s.life, Ended) + if how == Ended then 1 else 0
  {
    hide Admissions;
  }

  lemma PrepareKeeps(cfg: Config, id: string, s: Seat)
    requires GoodConfig(cfg) && SessionsConserved(s) && DefaultPrepared(s) && AttemptsAccounted(s)
    ensures var t := PrepareDefault(cfg, id, s);
            && SessionsConserved(t) && DefaultPrepared(t) && AttemptsAccounted(t)
            && LastSessionSignal(t.signals) == LastSessionSignal(s.signals)
  {
    hide LifeCount, OneAtATime, Admissions, Terminations, PreparesPaired, LastSessionSignal;
    if s.defaultUser.None? && cfg.defaultUser.Some? {
      UnpreparedPaired(s.signals, Some(DefaultUser(cfg.defaultUser.value, id)));
    }
    var t := PrepareDefault(cfg, id, s);
    if t != s {
      PrepareSignal(s.(defaultUser := t.defaultUser, defaultActive := true), PrepareUserLogin(t.defaultUser));
    }
  }

  /** A seat without a session that serves an attempt: there is one admission more than sessions. */
  ghost predicate Serving(s: Seat) {
    && SessionsConserved(s) && DefaultPrepared(s) && AttemptsAccounted(s) && s.session.None? && s.switching.None?
    && LifeCount(s.life, Began) < Admissions(s.attempts, 0, |s.attempts|)
  }

  lemma SpawnFailureKeeps(cfg: Config, s: Seat)
    requires Serving(s) && SwitchRecorded(s)
    ensures Inv(cfg, Emit(s, Failed(SessionCreationFailure)))
  {
  }

  lemma ObserverFailureKeeps(cfg: Config, s: Seat)
    requires Serving(s) && SwitchRecorded(s)
    ensures Inv(cfg, Emit(s.(prevObserver := s.observer, observer := None, life := s.life + [Began, Closed]),
                          Failed(DbusServerStartFailure)))
  {
    hide LifeCount, OneAtATime, Live, Terminations, Admissions, PreparesPaired, LastPrepare, LastSessionSignal;
    LifeHistory(s.life, Began);
    LifeHistory(s.life + [Began], Closed);
    assert s.life + [Began] + [Closed] == s.life + [Began, Closed];
    SessionSignal(s.(prevObserver := s.observer, observer := None, life := s.life + [Began, Closed]),
                  Failed(DbusServerStartFailure));
  }

  lemma StartedKeeps(cfg: Config, s: Seat, user: string, uid: nat)
    requires Serving(s) && SwitchRecorded(s)
    ensures Inv(cfg, s.(prevObserver := s.observer, observer := Some(UserObserver(user, uid)), session := Some(Some(user)),
                        life := s.life + [Began]))
  {
  }

  /** Behind the throttle: a session starts, or an error is the last thing said. */
  lemma StartKeeps(cfg: Config, s: Seat, username: Option<string>, o: Outside)
    requires Serving(s) && SwitchRecorded(s)
    ensures Inv(cfg, StartSession(s, username, o).0)
  {
    var user := if s.defaultActive then s.defaultUser else username;
    if !o.spawned {
      SpawnFailureKeeps(cfg, s);
    } else if user.None? || o.uid.None? || !o.serverStarted {
      ObserverFailureKeeps(cfg, s);
    } else {
      StartedKeeps(cfg, s, user.value, o.uid.value);
    }
  }

  /** All of the invariant but the last part, which a creation restores. */
  ghost predicate AlmostInv(s: Seat) {
    SessionsConserved(s) && ObserverIsOccupants(s) && DefaultPrepared(s) && AttemptsAccounted(s) && SwitchRecorded(s)
  }

  lemma CreateKeeps(cfg: Config, id: string, s: Seat, login: Login, o: Outside)
    requires GoodConfig(cfg) && AlmostInv(s)
    ensures Inv(cfg, CreateSession(cfg, id, s, login, o).0)
  {
    hide LifeCount, OneAtATime, PreparesPaired, LastPrepare, LastSessionSignal, Terminations;
    if s.session.Some? {
      SessionSignal(s.(begun := true), Failed(SessionAlreadyExists));
    } else {
      var s1 := s.(throttle := Attempt(s.throttle, o.clock), attempts := s.attempts + [o.clock], begun := true);
      OneMoreAttempt(s.attempts, o.clock);
      if Admits(s.throttle, o.clock) {
        assert SessionsConserved(s1) && DefaultPrepared(s1);
        assert AttemptsAccounted(s1);
        if login.username.None? {
          PrepareKeeps(cfg, id, s1);
          StartKeeps(cfg, PrepareDefault(cfg, id, s1), login.username, o);
        } else {
          StartKeeps(cfg, s1, login.username, o);
        }
      }
    }
  }

  lemma TerminateKeeps(cfg: Config, s: Seat)
    requires Inv(cfg, s)
    ensures Inv(cfg, TerminateSession(s).0)
    ensures TerminateSession(s).1 == s.session.Some?
    ensures !TerminateSession(s).0.defaultActive
  {
    hide LifeCount, OneAtATime, Admissions, PreparesPaired, LastPrepare, LastSessionSignal, Terminations;
    var s1 := s;
    if s.defaultActive {
      PrepareSignal(s.(defaultActive := false), PrepareUserLogout(s.defaultUser));
      s1 := Emit(s.(defaultActive := false), PrepareUserLogout(s.defaultUser));
    }
    SessionSignal(s1, Failed(SessionNotValid));
  }

  lemma SwitchNoted(cfg: Config, s: Seat, login: Login)
    requires Inv(cfg, s) && s.session.Some? && s.next == login && login.username.Some? && !s.defaultActive
    ensures Inv(cfg, s.(switching := Some(login)))
  {
  }

  lemma SwitchForgotten(cfg: Config, s: Seat, login: Login)
    requires Inv(cfg, s) && login.username.Some?
    ensures Inv(cfg, s.(switching := None, next := login))
  {
  }

  lemma SwitchKeeps(cfg: Config, id: string, s: Seat, login: Login, authenticated: bool, o: Outside)
    requires GoodConfig(cfg) && Inv(cfg, s)
    ensures Inv(cfg, SwitchUser(cfg, id, s, login, authenticated, o).0)
  {
    hide CreateSession, SessionsConserved, DefaultPrepared, AttemptsAccounted, NeverSilentlyIdle;
    if Accepted(login, authenticated) {
      if s.session.None? {
        CreateKeeps(cfg, id, s, login, o);
      } else {
        SwitchForgotten(cfg, s, login);
        TerminateKeeps(cfg, s.(switching := None, next := login));
        SwitchNoted(cfg, TerminateSession(s.(switching := None, next := login)).0, login);
      }
    }
  }

  lemma ErrorKeeps(cfg: Config, s: Seat, error: Error)
    requires Inv(cfg, s) && s.session.Some?
    ensures Inv(cfg, HandleError(s, error))
  {
    hide LifeCount, OneAtATime, PreparesPaired, LastPrepare, LastSessionSignal, Admissions, Terminations;
    SessionSignal(s, Failed(error));
    CloseKeeps(Emit(s, Failed(error)), Closed);
  }

  /** The seat between the end of a session and the login after it. */
  function AfterEnd(s: Seat): Seat {
    Emit(CloseActiveSession(s, Ended), Terminated).(observer := None)
  }

  lemma AfterEndKeeps(s: Seat)
    requires AlmostInv(s) && s.session.Some?
    ensures AlmostInv(AfterEnd(s)) && AfterEnd(s).session.None?
    ensures AlmostInv(Emit(CloseActiveSession(s, Ended), Terminated))
  {
    hide LifeCount, OneAtATime, PreparesPaired, LastPrepare, Admissions, Terminations;
    CloseKeeps(s, Ended);
    SessionSignal(CloseActiveSession(s, Ended), Terminated);
  }

  lemma EndKeeps(cfg: Config, id: string, s: Seat, o: Outside)
    requires GoodConfig(cfg) && Inv(cfg, s) && s.session.Some?
    ensures Inv(cfg, HandleSessionTerminated(cfg, id, s, o))
  {
    hide CreateSession, SessionsConserved, DefaultPrepared, AttemptsAccounted;
    AfterEndKeeps(s);
    var s2 := AfterEnd(s);
    if s.hooks == 0 && !cfg.x11Session && (cfg.autoLogin || s2.next.username.Some?) {
      CreateKeeps(cfg, id, s2, s2.next, o);
      CreateLeavesNext(cfg, id, s2, s2.next, o);
      NextReset(cfg, CreateSession(cfg, id, s2, s2.next, o).0);
    }
  }

  lemma NextReset(cfg: Config, s: Seat)
    requires Inv(cfg, s) && s.switching.None?
    ensures Inv(cfg, s.(next := NOBODY))
  {
  }

  lemma CreateLeavesNext(cfg: Config, id: string, s: Seat, login: Login, o: Outside)
    requires GoodConfig(cfg)
    ensures var t := CreateSession(cfg, id, s, login, o).0;
            t.next == s.next && t.switching == s.switching && t.hooks == s.hooks
  {
    hide StartSession, Admits, Attempt;
    var s1 := s.(throttle := Attempt(s.throttle, o.clock), attempts := s.attempts + [o.clock], begun := true);
    StartLeavesNext(if login.username.None? then PrepareDefault(cfg, id, s1) else s1, login.username, o);
  }

  lemma StartLeavesNext(s: Seat, username: Option<string>, o: Outside)
    ensures var t := StartSession(s, username, o).0;
            t.next == s.next && t.switching == s.switching && t.hooks == s.hooks
  {
  }

  lemma InvIsAlmost(cfg: Config, s: Seat)
    requires Inv(cfg, s)
    ensures AlmostInv(s)
  {
  }

  lemma RetryTaken(s: Seat, k: nat)
    requires AlmostInv(s) && k < |s.retries|
    ensures AlmostInv(s.(retries := s.retries[..k] + s.retries[k + 1..], fired := s.fired + 1))
  {
  }

  lemma RetryKeeps(cfg: Config, id: string, s: Seat, k: nat, o: Outside)
    requires GoodConfig(cfg) && Inv(cfg, s)
    ensures k < |s.retries| ==> Inv(cfg, DelayedSession(cfg, id, s, k, o))
  {
    hide CreateSession, Inv, AlmostInv;
    if k < |s.retries| {
      InvIsAlmost(cfg, s);
      var s1 := s.(retries := s.retries[..k] + s.retries[k + 1..], fired := s.fired + 1);
      RetryTaken(s, k);
      CreateKeeps(cfg, id, s1, s.retries[k], o);
    }
  }

  lemma HearKeeps(cfg: Config, id: string, s: Seat, signal: RemoteSignal, o: Outside)
    requires GoodConfig(cfg) && Inv(cfg, s) && s.session.Some?
    ensures Inv(cfg, Hear(cfg, id, s, signal, o))
  {
    match signal
    case SessionCreated => SessionSignal(s, Created);
    case SessionTerminated => EndKeeps(cfg, id, s, o);
    case SessionError(error) => ErrorKeeps(cfg, s, error);
  }

  /** Every step keeps everything. */
  lemma StepKeeps(cfg: Config, id: string, s: Seat, e: Event)
    requires GoodConfig(cfg) && Inv(cfg, s)
    ensures Inv(cfg, Step(cfg, id, s, e))
  {
    match e
    case Ask(login, o) => CreateKeeps(cfg, id, s, login, o);
    case Switch(login, authenticated, o) => SwitchKeeps(cfg, id, s, login, authenticated, o);
    case Leave => TerminateKeeps(cfg, s);
    case Retry(k, o) => RetryKeeps(cfg, id, s, k, o);
    case FromRemote(i, signal, o) =>
      if s.session.Some? {
        HearKeeps(cfg, id, s, signal, o);
      }
    case Hook =>
  }

  lemma RunOneMore(cfg: Config, id: string, s: Seat, events: seq<Event>, e: Event)
    requires GoodConfig(cfg)
    ensures RunFrom(cfg, id, s, events + [e]) == Step(cfg, id, RunFrom(cfg, id, s, events), e)
  {
    hide Step;
    assert (events + [e])[..|events|] == events;
  }

  /** Every run keeps everything. */
  lemma {:induction false} RunFromKeeps(cfg: Config, id: string, s: Seat, events: seq<Event>)
    requires GoodConfig(cfg) && Inv(cfg, s)
    ensures Inv(cfg, RunFrom(cfg, id, s, events))
  {
    hide Step, Inv;
    if events != [] {
      RunFromKeeps(cfg, id, s, events[..|events| - 1]);
      StepKeeps(cfg, id, RunFrom(cfg, id, s, events[..|events| - 1]), events[|events| - 1]);
    }
  }

  /** So everything holds from the beginning on. */
  lemma RunKeeps(cfg: Config, id: string, events: seq<Event>)
    requires GoodConfig(cfg)
    ensures Inv(cfg, Run(cfg, id, events))
  {
    hide Step, RunFrom;
    RunFromKeeps(cfg, id, EMPTY, events);
  }

  // ----- What it means for users -----

  /** Sessions started are those that ended, those closed on an error, and the live one. */
  lemma {:induction false} LifeBalance(life: seq<Life>)
    requires OneAtATime(life)
    ensures LifeCount(life, Began) == LifeCount(life, Ended) + LifeCount(life, Closed) + if Live(life) then 1 else 0
  {
    if life != [] {
      LifeBalance(life[..|life| - 1]);
    }
  }

  lemma SessionConservation(cfg: Config, id: string, events: seq<Event>)
    requires GoodConfig(cfg)
    ensures var s := Run(cfg, id, events);
            LifeCount(s.life, Began) ==
            Terminations(s.signals) + LifeCount(s.life, Closed) + if s.session.Some? then 1 else 0
  {
    hide Step, RunFrom;
    RunKeeps(cfg, id, events);
    LifeBalance(Run(cfg, id, events).life);
  }

  /** From s to t: no attempt and no start, or one attempt and a start only if it is let through. */
  ghost predicate OneAttempt(s: Seat, t: Seat) {
    LifeCount(s.life, Began) <= LifeCount(t.life, Began) && NoMoreThanOneAttempt(s, t)
  }

  ghost predicate NoMoreThanOneAttempt(s: Seat, t: Seat) {
    || (t.attempts == s.attempts && LifeCount(t.life, Began) == LifeCount(s.life, Began))
    || (|t.attempts| == |s.attempts| + 1 && s.attempts <= t.attempts &&
        LifeCount(t.life, Began) <= LifeCount(s.life, Began) + if Admits(s.throttle, t.attempts[|s.attempts|]) then 1 else 0)
  }

  lemma LifeOneMore(life: seq<Life>, x: Life, y: Life)
    ensures LifeCount(life + [x], y) == LifeCount(life, y) + if x == y then 1 else 0
  {
    assert (life + [x])[..|life|] == life;
  }

  lemma StartLife(s: Seat, username: Option<string>, o: Outside)
    ensures var t := StartSession(s, username, o).0;
            t.attempts == s.attempts && LifeCount(s.life, Began) <= LifeCount(t.life, Began) <= LifeCount(s.life, Began) + 1
  {
    LifeOneMore(s.life, Began, Began);
    LifeOneMore(s.life + [Began], Closed, Began);
    assert s.life + [Began] + [Closed] == s.life + [Began, Closed];
  }

  lemma CreateAttempts(cfg: Config, id: string, s: Seat, login: Login, o: Outside)
    requires GoodConfig(cfg)
    ensures OneAttempt(s, CreateSession(cfg, id, s, login, o).0)
  {
    hide StartSession, LifeCount;
    if s.session.None? && Admits(s.throttle, o.clock) {
      var s1 := s.(throttle := Attempt(s.throttle, o.clock), attempts := s.attempts + [o.clock], begun := true);
      var s2 := if login.username.None? then PrepareDefault(cfg, id, s1) else s1;
      assert s2.attempts == s1.attempts && s2.life == s1.life;
      StartLife(s2, login.username, o);
    }
  }

  lemma CloseLife(s: Seat, how: Life)
    requires how != Began
    ensures LifeCount(CloseActiveSession(s, how).life, Began) == LifeCount(s.life, Began)
  {
    LifeOneMore(s.life, how, Began);
  }

  lemma HearAttempts(cfg: Config, id: string, s: Seat, signal: RemoteSignal, o: Outside)
    requires GoodConfig(cfg)
    ensures OneAttempt(s, Hear(cfg, id, s, signal, o))
  {
    hide CreateSession, LifeCount;
    match signal
    case SessionCreated =>
    case SessionTerminated =>
      CloseLife(s, Ended);
      CreateAttempts(cfg, id, AfterEnd(s), s.next, o);
    case SessionError(error) => CloseLife(Emit(s, Failed(error)), Closed);
  }

  lemma StepAttempts(cfg: Config, id: string, s: Seat, e: Event)
    requires GoodConfig(cfg)
    ensures OneAttempt(s, Step(cfg, id, s, e))
  {
    hide CreateSession, LifeCount, Hear;
    match e
    case Ask(login, o) => CreateAttempts(cfg, id, s, login, o);
    case Switch(login, _, o) => CreateAttempts(cfg, id, s, login, o);
    case Retry(k, o) =>
      if k < |s.retries| {
        CreateAttempts(cfg, id, s.(retries := s.retries[..k] + s.retries[k + 1..], fired := s.fired + 1), s.retries[k], o);
      }
    case FromRemote(_, signal, o) => HearAttempts(cfg, id, s, signal, o);
    case _ =>
  }

  /** Between any two points of a run, no more sessions start than attempts are let through at once. */
  lemma {:induction false} StartsBounded(cfg: Config, id: string, s: Seat, events: seq<Event>)
    requires GoodConfig(cfg) && Inv(cfg, s)
    ensures var t := RunFrom(cfg, id, s, events);
            && s.attempts <= t.attempts
            && LifeCount(s.life, Began) <= LifeCount(t.life, Began) <=
               LifeCount(s.life, Began) + Admissions(t.attempts, |s.attempts|, |t.attempts|)
  {
    hide Step;
    if events != [] {
      var n := |events| - 1;
      var m := RunFrom(cfg, id, s, events[..n]);
      StartsBounded(cfg, id, s, events[..n]);
      RunFromKeeps(cfg, id, s, events[..n]);
      StepAttempts(cfg, id, m, events[n]);
      AdmissionsOneMore(m, Step(cfg, id, m, events[n]), |s.attempts|);
    }
  }

  lemma AdmissionsOneMore(m: Seat, t: Seat, i: nat)
    requires AttemptsAccounted(m) && i <= |m.attempts| && OneAttempt(m, t)
    ensures LifeCount(t.life, Began) - LifeCount(m.life, Began) <=
            Admissions(t.attempts, i, |t.attempts|) - Admissions(m.attempts, i, |m.attempts|)
  {
    if t.attempts != m.attempts {
      assert t.attempts == m.attempts + [t.attempts[|m.attempts|]] && t.attempts[..|m.attempts|] == m.attempts;
      AdmissionsPrefix(m.attempts, t.attempts[|m.attempts|], i, |m.attempts|);
    }
  }

  /**
    However sessions crash and are asked for: between any two points of a run, sessions start at most three times for
    each second begun between the first and the last attempt.  Every attempt was let through, waits, or was tried again.
  */
  lemma SessionRate(cfg: Config, id: string, s: Seat, events: seq<Event>)
    requires GoodConfig(cfg) && Inv(cfg, s)
    ensures var t := RunFrom(cfg, id, s, events);
            var i, j := |s.attempts|, |t.attempts|;
            && s.attempts <= t.attempts
            && j == Admissions(t.attempts, 0, j) + t.fired + |t.retries|
            && (i == j ==> LifeCount(t.life, Began) == LifeCount(s.life, Began))
            && (i < j && Monotonic(t.attempts) ==>
                  LifeCount(t.life, Began) - LifeCount(s.life, Began) <=
                  LIMIT * ((t.attempts[j - 1].read - t.attempts[i].read) / SECOND + 1))
  {
    hide Step, RunFrom;
    var t := RunFrom(cfg, id, s, events);
    StartsBounded(cfg, id, s, events);
    RunFromKeeps(cfg, id, s, events);
    if |s.attempts| < |t.attempts| && Monotonic(t.attempts) {
      WindowBound(t.attempts, |s.attempts|, |t.attempts|, t.attempts[|t.attempts| - 1].read - t.attempts[|s.attempts|].read);
    }
  }

  predicate IsAcceptedSwitch(e: Event) {
    e.Switch? && e.authenticated && e.login.username.Some? && e.login.password.Some?
  }

  /** While the session lives on, the recorded switch is the one accepted last. */
  lemma SwitchStays(cfg: Config, id: string, s: Seat, e: Event)
    requires GoodConfig(cfg) && Inv(cfg, s) && s.session.Some?
    requires var t := Step(cfg, id, s, e); t.session.Some? && LifeCount(t.life, Began) == LifeCount(s.life, Began)
    ensures var t := Step(cfg, id, s, e);
            && t.switching == (if IsAcceptedSwitch(e) then Some(e.login) else s.switching)
            && (t.switching.Some? ==> t.next == t.switching.value && !t.defaultActive)
  {
    StepKeeps(cfg, id, s, e);
    if e.FromRemote? && e.i + 1 == LifeCount(s.life, Began) && e.signal.SessionTerminated? {
      EndStartsAnother(cfg, id, s, e.outside);
    }
  }

  lemma EndStartsAnother(cfg: Config, id: string, s: Seat, o: Outside)
    requires GoodConfig(cfg) && Inv(cfg, s) && s.session.Some?
    ensures var t := HandleSessionTerminated(cfg, id, s, o);
            t.session.Some? ==> LifeCount(t.life, Began) == LifeCount(s.life, Began) + 1
  {
    LifeHistory(s.life, Ended);
    LifeHistory(s.life + [Ended], Began);
    hide CreateSession;
    CreateLife(cfg, id, AfterEnd(s), s.next, o);
  }

  lemma CreateLife(cfg: Config, id: string, s: Seat, login: Login, o: Outside)
    requires GoodConfig(cfg) && s.session.None?
    ensures var t := CreateSession(cfg, id, s, login, o).0;
            t.session.Some? ==> t.life == s.life + [Began]
  {
  }

  /**
    The hand-over: when the session under a recorded switch ends, outside shutdown and X11 mode, one attempt is made
    with exactly the recorded login, and the record is gone.  Let through and served, it gives the user who was
    switched to; else it waits as a retry of exactly that login.
  */
  lemma HandOver(cfg: Config, id: string, s: Seat, o: Outside)
    requires GoodConfig(cfg) && Inv(cfg, s) && s.switching.Some? && s.hooks == 0 && !cfg.x11Session
    ensures HandedOver(s, HandleSessionTerminated(cfg, id, s, o), s.switching.value, o)
  {
  }

  ghost predicate HandedOver(s: Seat, t: Seat, login: Login, o: Outside) {
    && login.username.Some?
    && t.next == NOBODY && t.attempts == s.attempts + [o.clock] && !t.defaultActive
    && (!Admits(s.throttle, o.clock) ==> t.session == None && t.retries == s.retries + [login])
    && (Admits(s.throttle, o.clock) ==> t.retries == s.retries)
    && (Admits(s.throttle, o.clock) && o.spawned && o.uid.Some? && o.serverStarted ==>
          t.session == Some(login.username) && t.observer == Some(UserObserver(login.username.value, o.uid.value)))
  }

  /** The switch accepted last. */
  function LastSwitch(events: seq<Event>): Option<Login> {
    if events == [] then None
    else
      var e := events[|events| - 1];
      if IsAcceptedSwitch(e) then Some(e.login) else LastSwitch(events[..|events| - 1])
  }

  /** The session that is live in s is still live in t. */
  ghost predicate SameSession(s: Seat, t: Seat) {
    s.session.Some? && t.session.Some? && LifeCount(t.life, Began) == LifeCount(s.life, Began)
  }

  /** It stays through all of the events. */
  ghost predicate Undisturbed(cfg: Config, id: string, s: Seat, events: seq<Event>)
    requires GoodConfig(cfg)
  {
    forall k :: 0 <= k <= |events| ==> SameSession(s, RunFrom(cfg, id, s, events[..k]))
  }

  lemma {:induction false} SwitchLasts(cfg: Config, id: string, s: Seat, events: seq<Event>, k: nat)
    requires GoodConfig(cfg) && Inv(cfg, s) && Undisturbed(cfg, id, s, events) && k <= |events|
    ensures var t := RunFrom(cfg, id, s, events[..k]);
            LastSwitch(events[..k]).Some? ==> t.switching == LastSwitch(events[..k])
  {
    hide Step, Inv;
    if k > 0 {
      var m := RunFrom(cfg, id, s, events[..k - 1]);
      SwitchLasts(cfg, id, s, events, k - 1);
      RunFromKeeps(cfg, id, s, events[..k - 1]);
      assert events[..k][..k - 1] == events[..k - 1];
      assert SameSession(s, m) && SameSession(s, RunFrom(cfg, id, s, events[..k]));
      SwitchStays(cfg, id, m, events[k - 1]);
    }
  }

  /** A switch has been accepted under the session that was started as number i, outside shutdown and X11 mode. */
  ghost predicate SwitchPending(cfg: Config, id: string, s: Seat, events: seq<Event>, i: nat)
    requires GoodConfig(cfg)
  {
    && Undisturbed(cfg, id, s, events) && LastSwitch(events).Some? && !cfg.x11Session
    && var t := RunFrom(cfg, id, s, events);
       t.hooks == 0 && i + 1 == LifeCount(t.life, Began)
  }

  /**
    The hand-over over whole runs: whatever has happened before, and whatever happens between the last accepted switch
    and the end of the session it came to, that end is followed by one attempt with exactly that switch's login.
  */
  lemma SwitchedUserComes(cfg: Config, id: string, s: Seat, events: seq<Event>, i: nat, o: Outside)
    requires GoodConfig(cfg) && Inv(cfg, s)
    ensures SwitchPending(cfg, id, s, events, i) ==>
              HandedOver(RunFrom(cfg, id, s, events), RunFrom(cfg, id, s, events + [FromRemote(i, SessionTerminated, o)]),
                         LastSwitch(events).value, o)
  {
    hide Step, RunFrom, Inv, HandedOver;
    if SwitchPending(cfg, id, s, events, i) {
      var t := RunFrom(cfg, id, s, events);
      SwitchLasts(cfg, id, s, events, |events|);
      assert events[..|events|] == events && SameSession(s, RunFrom(cfg, id, s, events[..|events|]));
      RunFromKeeps(cfg, id, s, events);
      RunOneMore(cfg, id, s, events, FromRemote(i, SessionTerminated, o));
      HandOver(cfg, id, t, o);
      EndHeard(cfg, id, t, i, o);
    }
  }

  lemma EndHeard(cfg: Config, id: string, s: Seat, i: nat, o: Outside)
    requires GoodConfig(cfg) && s.session.Some? && i + 1 == LifeCount(s.life, Began)
    ensures Step(cfg, id, s, FromRemote(i, SessionTerminated, o)) == HandleSessionTerminated(cfg, id, s, o)
  {
  }

  /** The next_* record outlives the end of a session only through shutdown or X11 mode; a fatal error never clears it. */
  lemma NextForgotten(cfg: Config, id: string, s: Seat, o: Outside, error: Error)
    requires GoodConfig(cfg) && Inv(cfg, s) && s.session.Some?
    ensures HandleSessionTerminated(cfg, id, s, o).next == NOBODY <==>
            s.next == NOBODY || (s.hooks == 0 && !cfg.x11Session)
    ensures HandleError(s, error).next == s.next
  {
    hide CreateSession;
    CreateLeavesNext(cfg, id, AfterEnd(s), s.next, o);
  }

  /** A creation gives the user asked for exactly when no stale default user is still marked active. */
  lemma UserAskedForIff(cfg: Config, id: string, s: Seat, login: Login, o: Outside)
    requires GoodConfig(cfg) && Inv(cfg, s) && s.session.None? && login.username.Some?
    requires Admits(s.throttle, o.clock) && o.spawned && o.uid.Some? && o.serverStarted
    ensures var t := CreateSession(cfg, id, s, login, o).0;
            && t.session.Some?
            && (t.session == Some(login.username) <==> !s.defaultActive || s.defaultUser == login.username)
  {
  }

  predicate Serves(o: Outside) {
    o.spawned && o.uid.Some? && o.serverStarted
  }

  /**
    The other case happens: the default user's session ends by itself on a seat without auto-login, and whoever logs in
    next gets a session of the default user.
  */
  lemma StaleDefault(cfg: Config, id: string, login: Login, o: Outside)
    requires GoodConfig(cfg) && !cfg.autoLogin && !cfg.x11Session && cfg.defaultUser.Some?
    requires login.username.Some? && Serves(o)
    ensures var default := DefaultUser(cfg.defaultUser.value, id);
            Run(cfg, id, [Ask(NOBODY, o), FromRemote(0, SessionTerminated, o), Ask(login, o)]).session
            == Some(Some(default))
  {
    hide Step, RunFrom, Inv;
    var e1, e2, e3 := Ask(NOBODY, o), FromRemote(0, SessionTerminated, o), Ask(login, o);
    FirstDefault(cfg, id, o);
    var s1 := CreateSession(cfg, id, EMPTY, NOBODY, o).0;
    var s2 := HandleSessionTerminated(cfg, id, s1, o);
    ThreeSteps(cfg, id, e1, e2, e3);
    EndHeard(cfg, id, s1, 0, o);
    assert CreateSession(cfg, id, s2, login, o).0.session == Some(s2.defaultUser) by {
      assert Admits(s2.throttle, o.clock);
    }
    AskStep(cfg, id, EMPTY, NOBODY, o);
    AskStep(cfg, id, s2, login, o);
  }

  /** A named user logs in on an empty seat without an active default user. */
  lemma NamedStart(cfg: Config, id: string, s: Seat, login: Login, o: Outside)
    requires GoodConfig(cfg) && s.session.None? && !s.defaultActive && login.username.Some?
    requires Admits(s.throttle, o.clock) && Serves(o)
    ensures var t := CreateSession(cfg, id, s, login, o).0;
            && t.session == Some(login.username) && !t.defaultActive && t.next == s.next && t.hooks == s.hooks
            && t.throttle == Attempt(s.throttle, o.clock) && LifeCount(t.life, Began) == LifeCount(s.life, Began) + 1
  {
    hide LifeCount;
    LifeOneMore(s.life, Began, Began);
  }

  lemma SwitchStep(cfg: Config, id: string, s: Seat, login: Login, o: Outside)
    requires GoodConfig(cfg) && s.session.Some? && Accepted(login, true) && !s.defaultActive
    ensures Step(cfg, id, s, Switch(login, true, o)) == s.(next := login, switching := Some(login))
  {
  }

  /**
    The record of a switch does survive: the session under it is closed by a fatal error, somebody else logs in, and at
    the end of that session the seat logs in the user who was to be switched to then.
  */
  lemma StaleNext(cfg: Config, id: string, first: Login, later: Login, other: Login, o: Outside)
    requires GoodConfig(cfg) && !cfg.autoLogin && !cfg.x11Session && Serves(o)
    requires first.username.Some? && other.username.Some? && Accepted(later, true)
    ensures var e1, e2, e3 := Ask(first, o), Switch(later, true, o), FromRemote(0, SessionError(SessionTerminationFailure), o);
            var e4, e5 := Ask(other, o), FromRemote(1, SessionTerminated, o);
            && Run(cfg, id, [e1, e2, e3]).session == None
            && RunFrom(cfg, id, Run(cfg, id, [e1, e2, e3]), [e4]).session == Some(other.username)
            && RunFrom(cfg, id, Run(cfg, id, [e1, e2, e3]), [e4, e5]).session == Some(later.username)
  {
    hide Step, RunFrom, CreateSession, LifeCount;
    var e1, e2, e3 := Ask(first, o), Switch(later, true, o), FromRemote(0, SessionError(SessionTerminationFailure), o);
    var e4, e5 := Ask(other, o), FromRemote(1, SessionTerminated, o);
    NothingBegan();
    NamedStart(cfg, id, EMPTY, first, o);
    AskStep(cfg, id, EMPTY, first, o);
    var s1 := CreateSession(cfg, id, EMPTY, first, o).0;
    SwitchStep(cfg, id, s1, later, o);
    var s2 := s1.(next := later, switching := Some(later));
    ErrorHeard(cfg, id, s2, 0, SessionTerminationFailure, o);
    ThreeSteps(cfg, id, e1, e2, e3);
    var s3 := HandleError(s2, SessionTerminationFailure);
    CloseLife(Emit(s2, Failed(SessionTerminationFailure)), Closed);
    NamedStart(cfg, id, s3, other, o);
    AskStep(cfg, id, s3, other, o);
    var s4 := CreateSession(cfg, id, s3, other, o).0;
    EndHeard(cfg, id, s4, 1, o);
    NamedStart(cfg, id, AfterEnd(s4), later, o);
    TwoSteps(cfg, id, s3, e4, e5);
  }

  lemma NothingBegan()
    ensures LifeCount(EMPTY.life, Began) == 0
  {
  }

  lemma ErrorHeard(cfg: Config, id: string, s: Seat, i: nat, error: Error, o: Outside)
    requires GoodConfig(cfg) && s.session.Some? && i + 1 == LifeCount(s.life, Began)
    ensures Step(cfg, id, s, FromRemote(i, SessionError(error), o)) == HandleError(s, error)
  {
  }

  lemma TwoSteps(cfg: Config, id: string, s: Seat, e1: Event, e2: Event)
    requires GoodConfig(cfg)
    ensures RunFrom(cfg, id, s, [e1]) == Step(cfg, id, s, e1)
    ensures RunFrom(cfg, id, s, [e1, e2]) == Step(cfg, id, Step(cfg, id, s, e1), e2)
  {
    hide Step;
    RunOneMore(cfg, id, s, [], e1);
    RunOneMore(cfg, id, s, [e1], e2);
    assert [] + [e1] == [e1] && [e1] + [e2] == [e1, e2];
  }

  lemma AskStep(cfg: Config, id: string, s: Seat, login: Login, o: Outside)
    requires GoodConfig(cfg)
    ensures Step(cfg, id, s, Ask(login, o)) == CreateSession(cfg, id, s, login, o).0
  {
  }

  lemma ThreeSteps(cfg: Config, id: string, e1: Event, e2: Event, e3: Event)
    requires GoodConfig(cfg)
    ensures Run(cfg, id, [e1, e2, e3]) == Step(cfg, id, Step(cfg, id, Step(cfg, id, EMPTY, e1), e2), e3)
  {
    hide Step;
    RunOneMore(cfg, id, EMPTY, [], e1);
    RunOneMore(cfg, id, EMPTY, [e1], e2);
    RunOneMore(cfg, id, EMPTY, [e1, e2], e3);
    assert [] + [e1] == [e1] && [e1] + [e2] == [e1, e2] && [e1, e2] + [e3] == [e1, e2, e3];
  }

  lemma FirstDefault(cfg: Config, id: string, o: Outside)
    requires GoodConfig(cfg) && cfg.defaultUser.Some? && Serves(o)
    ensures var s, user := CreateSession(cfg, id, EMPTY, NOBODY, o).0, Some(DefaultUser(cfg.defaultUser.value, id));
            && s.session == Some(user) && s.defaultActive && s.defaultUser == user && s.next == NOBODY && s.hooks == 0
            && s.throttle == Throttle(o.clock.reread, 1) && LifeCount(s.life, Began) == 1
  {
    assert EMPTY.life + [Began] == [Began];
    assert LifeCount([Began], Began) == 1;
  }
}
