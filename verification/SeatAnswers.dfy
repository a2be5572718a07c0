/**
  src/daemon/tlm-seat.c: what a seat answers, case by case.  Nothing here is stated through the functions that the state
  machine decides by; only through what a caller sees before and after.
*/
module SeatAnswers {
  import opened Wrappers
  import opened Relogin
  import opened SessionRemote
  import opened UserName
  import opened SeatSpec
  import opened SeatProofs

  // ----- Switching -----

  /** Without the right password, or without a user or a password at all, a switch is refused and nothing happens. */
  lemma UnauthenticatedRefused(cfg: Config, id: string, s: Seat, login: Login, authenticated: bool, o: Outside)
    requires GoodConfig(cfg)
    requires !authenticated || login.username.None? || login.password.None?
    ensures SwitchUser(cfg, id, s, login, authenticated, o) == (s, false)
    ensures Step(cfg, id, s, Switch(login, authenticated, o)) == s
  {
  }

  /** An event that is not such a switch. */
  predicate Effective(e: Event) {
    e.Switch? ==> e.authenticated && e.login.username.Some? && e.login.password.Some?
  }

  function EffectiveOnly(events: seq<Event>): seq<Event> {
    if events == [] then []
    else EffectiveOnly(events[..|events| - 1]) + if Effective(events[|events| - 1]) then [events[|events| - 1]] else []
  }

  /** So over any run it makes no difference whether anybody tried. */
  lemma {:induction false} RefusalsLeaveNoTrace(cfg: Config, id: string, s: Seat, events: seq<Event>)
    requires GoodConfig(cfg)
    ensures RunFrom(cfg, id, s, events) == RunFrom(cfg, id, s, EffectiveOnly(events))
  {
    hide Step;
    if events != [] {
      var before, e := events[..|events| - 1], events[|events| - 1];
      RefusalsLeaveNoTrace(cfg, id, s, before);
      if Effective(e) {
        RunOneMore(cfg, id, s, EffectiveOnly(before), e);
      } else {
        assert EffectiveOnly(events) == EffectiveOnly(before);
        UnauthenticatedRefused(cfg, id, RunFrom(cfg, id, s, before), e.login, e.authenticated, e.outside);
      }
    }
  }

  /** With the right password a switch on a live session is recorded, and at the end of the session the user comes. */
  lemma AuthenticatedComes(cfg: Config, id: string, s: Seat, login: Login, o: Outside, o': Outside)
    requires GoodConfig(cfg) && s.session.Some? && login.username.Some? && login.password.Some?
    ensures var (t, ok) := SwitchUser(cfg, id, s, login, true, o);
            && ok && t.next == login && t.session == s.session && !t.defaultActive && t.life == s.life
            && (s.hooks == 0 && !cfg.x11Session && Admits(s.throttle, o'.clock) && Serves(o') ==>
                  var u := HandleSessionTerminated(cfg, id, t, o');
                  && u.session == Some(login.username) && u.next == NOBODY
                  && u.observer == Some(UserObserver(login.username.value, o'.uid.value)))
  {
  }

  /** On an empty seat it is a login at once. */
  lemma AuthenticatedOnEmpty(cfg: Config, id: string, s: Seat, login: Login, o: Outside)
    requires GoodConfig(cfg) && s.session.None? && login.username.Some? && login.password.Some?
    requires Admits(s.throttle, o.clock) && Serves(o) && !s.defaultActive
    ensures var (t, ok) := SwitchUser(cfg, id, s, login, true, o);
            ok && t.session == Some(login.username) && t.next == s.next && t.attempts == s.attempts + [o.clock]
  {
  }

  // ----- Creating -----

  /** A seat with a session refuses another with an error, and changes nothing else that matters. */
  lemma OccupiedRefuses(cfg: Config, id: string, s: Seat, login: Login, o: Outside)
    requires GoodConfig(cfg) && s.session.Some?
    ensures CreateSession(cfg, id, s, login, o) ==
            (s.(begun := true, signals := s.signals + [Failed(SessionAlreadyExists)]), false)
  {
  }

  /** The fourth attempt within short gaps waits, with all that was asked for, and nobody is prepared or told. */
  lemma FastLoginWaits(cfg: Config, id: string, s: Seat, login: Login, o: Outside)
    requires GoodConfig(cfg) && s.session.None?
    requires o.clock.read - s.throttle.prevTime < 1_000_000 && s.throttle.prevCount >= 3
    ensures var (t, ok) := CreateSession(cfg, id, s, login, o);
            && ok && t.session.None? && t.retries == s.retries + [login]
            && t.signals == s.signals && t.life == s.life && t.defaultActive == s.defaultActive && t.observer == s.observer
  {
  }

  /** A named user gets a session, and an observer for the uid; the observer there was is kept for a while. */
  lemma NamedLogin(cfg: Config, id: string, s: Seat, login: Login, o: Outside)
    requires GoodConfig(cfg) && s.session.None? && !s.defaultActive && login.username.Some?
    requires o.clock.read - s.throttle.prevTime >= 1_000_000 || s.throttle.prevCount < 3
    requires o.spawned && o.uid.Some? && o.serverStarted
    ensures var (t, ok) := CreateSession(cfg, id, s, login, o);
            && ok && t.session == Some(login.username) && t.signals == s.signals && t.retries == s.retries
            && t.observer == Some(UserObserver(login.username.value, o.uid.value)) && t.prevObserver == s.observer
            && t.throttle.prevTime == o.clock.reread
  {
  }

  /** Without a name it is the default user, who is announced first, and is the same one ever after. */
  lemma DefaultLogin(cfg: Config, id: string, s: Seat, login: Login, o: Outside)
    requires GoodConfig(cfg) && s.session.None? && login.username.None?
    requires o.clock.read - s.throttle.prevTime >= 1_000_000 || s.throttle.prevCount < 3
    requires o.spawned && o.uid.Some? && o.serverStarted
    requires s.defaultUser.Some? || cfg.defaultUser.Some?
    ensures var (t, ok) := CreateSession(cfg, id, s, login, o);
            var user := if s.defaultUser.Some? then s.defaultUser else Some(DefaultUser(cfg.defaultUser.value, id));
            && ok && t.session == Some(user) && t.defaultUser == user && t.defaultActive
            && t.signals == s.signals + [PrepareUserLogin(user)]
            && t.observer == Some(UserObserver(user.value, o.uid.value))
  {
    hide DefaultUser;
  }

  /** The three ways a login that is let through fails, with their errors. */
  lemma FailedLogin(cfg: Config, id: string, s: Seat, login: Login, o: Outside)
    requires GoodConfig(cfg) && s.session.None? && login.username.Some?
    requires o.clock.read - s.throttle.prevTime >= 1_000_000 || s.throttle.prevCount < 3
    ensures var (t, ok) := CreateSession(cfg, id, s, login, o);
            && (!o.spawned ==>
                  !ok && t.session.None? && t.signals == s.signals + [Failed(SessionCreationFailure)] && t.life == s.life
                  && t.observer == s.observer)
            && (o.spawned && (o.uid.None? || !o.serverStarted) ==>
                  !ok && t.session.None? && t.signals == s.signals + [Failed(DbusServerStartFailure)]
                  && t.life == s.life + [Began, Closed] && t.observer.None? && t.prevObserver == s.observer)
  {
  }

  /** A seat without a default user cannot log anybody in by default. */
  lemma NobodyToLogIn(cfg: Config, id: string, s: Seat, login: Login, o: Outside)
    requires GoodConfig(cfg) && s.session.None? && login.username.None? && !s.defaultActive
    requires s.defaultUser.None? && cfg.defaultUser.None?
    ensures CreateSession(cfg, id, s, login, o).0.session.None?
  {
  }

  /** A deferred login is tried with what was asked for then, and is not waiting any more. */
  lemma DeferredLogin(cfg: Config, id: string, s: Seat, k: nat, o: Outside)
    requires GoodConfig(cfg) && k < |s.retries| && s.session.None? && !s.defaultActive && s.retries[k].username.Some?
    requires Admits(s.throttle, o.clock) && Serves(o)
    ensures var t := DelayedSession(cfg, id, s, k, o);
            && t.session == Some(s.retries[k].username) && t.retries == s.retries[..k] + s.retries[k + 1..]
  {
  }

  // ----- Ending -----

  /** A logout announces that the default user goes, if it is the default user, and fails only without a session. */
  lemma Logout(s: Seat)
    ensures var (t, ok) := TerminateSession(s);
            var bye := if s.defaultActive then [PrepareUserLogout(s.defaultUser)] else [];
            && (ok <==> s.session.Some?) && t.session == s.session && t.next == s.next && !t.defaultActive
            && t.signals == s.signals + bye + if ok then [] else [Failed(SessionNotValid)]
  {
  }

  /** The end of a session that is followed by nothing: under shutdown, in X11 mode, or with nobody to come. */
  lemma EndsEmpty(cfg: Config, id: string, s: Seat, o: Outside)
    requires GoodConfig(cfg) && s.session.Some?
    requires s.hooks > 0 || cfg.x11Session || (!cfg.autoLogin && s.next.username.None?)
    ensures var t := HandleSessionTerminated(cfg, id, s, o);
            && t.session.None? && t.signals == s.signals + [Terminated] && t.attempts == s.attempts
            && t.retries == s.retries && t.next == s.next && t.life == s.life + [Ended]
            && t.observer == if s.hooks > 0 then s.observer else None
  {
  }

  /** Under auto-login the default user comes back, unless somebody else is recorded. */
  lemma ComesBack(cfg: Config, id: string, s: Seat, o: Outside)
    requires GoodConfig(cfg) && s.session.Some? && s.hooks == 0 && !cfg.x11Session && cfg.autoLogin
    requires s.next == NOBODY && s.defaultUser.Some? && Admits(s.throttle, o.clock) && Serves(o)
    ensures var t := HandleSessionTerminated(cfg, id, s, o);
            && t.session == Some(s.defaultUser) && t.signals == s.signals + [Terminated, PrepareUserLogin(s.defaultUser)]
            && t.attempts == s.attempts + [o.clock]
  {
    assert s.signals + [Terminated] + [PrepareUserLogin(s.defaultUser)] ==
           s.signals + [Terminated, PrepareUserLogin(s.defaultUser)];
  }

  /** Three errors close the session and its observer; every other one is only passed on. */
  lemma ErrorsThatClose(s: Seat, error: Error)
    requires s.session.Some?
    ensures var t := HandleError(s, error);
            && t.signals == s.signals + [Failed(error)] && t.next == s.next && t.attempts == s.attempts
            && (error == PamAuthFailure || error == SessionCreationFailure || error == SessionTerminationFailure ==>
                  t.session.None? && t.observer.None? && t.life == s.life + [Closed])
            && (error != PamAuthFailure && error != SessionCreationFailure && error != SessionTerminationFailure ==>
                  t.session == s.session && t.observer == s.observer && t.life == s.life)
  {
  }

  /** When the session is created the observer of the one before goes. */
  lemma CreationHeard(cfg: Config, id: string, s: Seat, i: nat, o: Outside)
    requires GoodConfig(cfg) && s.session.Some? && i + 1 == LifeCount(s.life, Began)
    ensures Step(cfg, id, s, FromRemote(i, SessionCreated, o)) ==
            s.(signals := s.signals + [Created], prevObserver := None)
  {
  }

  /** Only the session started last is heard, and only while it is live. */
  lemma OthersUnheard(cfg: Config, id: string, s: Seat, i: nat, signal: RemoteSignal, o: Outside)
    requires GoodConfig(cfg) && (s.session.None? || i + 1 != LifeCount(s.life, Began))
    ensures Step(cfg, id, s, FromRemote(i, signal, o)) == s
  {
  }

  // ----- The throttle in figures -----

  /** Four attempts with gaps just under a second: the fourth waits.  With one gap of a second it does not. */
  lemma FourAttempts(a: Clock, b: Clock, c: Clock, d: Clock)
    ensures b.read - a.reread < 1_000_000 && c.read - b.reread < 1_000_000 && d.read - c.reread < 1_000_000 <==>
            !Admitted([a, b, c, d], 3)
    ensures Admitted([a, b, c, d], 0) && Admitted([a, b, c, d], 1) && Admitted([a, b, c, d], 2)
  {
    DeferredIff([a, b, c, d], 0);
    DeferredIff([a, b, c, d], 1);
    DeferredIff([a, b, c, d], 2);
    DeferredIff([a, b, c, d], 3);
  }

  /** In any window of a given length in microseconds, in figures. */
  lemma WindowInFigures(attempts: seq<Clock>, i: nat, j: nat, window: int)
    requires Monotonic(attempts) && i < j <= |attempts|
    requires attempts[j - 1].read - attempts[i].read <= window
    ensures Admissions(attempts, i, j) <= 3 * (window / 1_000_000 + 1)
  {
    WindowBound(attempts, i, j, window);
  }
}
