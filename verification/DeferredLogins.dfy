/** src/daemon/tlm-seat.c: deferred creations, whose timers run on through the shutdown of the manager. */
module DeferredLogins {
  import opened Wrappers
  import opened Relogin
  import opened UserName
  import opened SessionRemote
  import opened SeatSpec
  import opened SeatProofs
  import opened StopLoop
  import opened Drain

  /** A login on an empty seat is let through, what it needs from outside is there, and somebody is to log in. */
  predicate Startable(cfg: Config, s: Seat, login: Login, o: Outside) {
    && Admits(s.throttle, o.clock) && Serves(o)
    && (login.username.Some? || s.defaultUser.Some? || cfg.defaultUser.Some?)
  }

  lemma RetryStartsIff(cfg: Config, id: string, s: Seat, k: nat, o: Outside)
    requires GoodConfig(cfg) && Inv(cfg, s) && s.session.None? && k < |s.retries|
    ensures DelayedSession(cfg, id, s, k, o).session.Some? <==> Startable(cfg, s, s.retries[k], o)
  {
    hide DefaultUser, LifeCount, OneAtATime, Admissions, PreparesPaired, LastSessionSignal, Terminations;
  }

  /** The retry that comes as event n can start. */
  predicate RetryCanStart(cfg: Config, id: string, s: Seat, events: seq<Event>, n: nat)
    requires GoodConfig(cfg) && n < |events| && events[n].Retry?
  {
    var t := RunFrom(cfg, id, s, events[..n]);
    events[n].k < |t.retries| && Startable(cfg, t, t.retries[events[n].k], events[n].outside)
  }

  lemma RetryStep(cfg: Config, id: string, s: Seat, e: Event)
    requires GoodConfig(cfg) && Inv(cfg, s) && e.Retry?
    ensures Step(cfg, id, s, e).session.Some? <==>
            s.session.Some? || (e.k < |s.retries| && Startable(cfg, s, s.retries[e.k], e.outside))
  {
    hide Inv;
    if s.session.None? && e.k < |s.retries| {
      RetryStartsIff(cfg, id, s, e.k, e.outside);
    }
  }

  /** When only timers of deferred creations are left, a session starts if and only if one of them can start one. */
  lemma {:induction false} RetriesStartIff(cfg: Config, id: string, s: Seat, events: seq<Event>, k: nat)
    requires GoodConfig(cfg) && Inv(cfg, s) && s.session.None? && k <= |events|
    requires forall n :: 0 <= n < |events| ==> events[n].Retry?
    ensures RunFrom(cfg, id, s, events[..k]).session.Some? <==>
            exists n :: 0 <= n < k && RetryCanStart(cfg, id, s, events, n)
  {
    hide Step, Inv, Startable;
    if k > 0 {
      RetriesStartIff(cfg, id, s, events, k - 1);
      assert events[..k][..k - 1] == events[..k - 1];
      RunFromKeeps(cfg, id, s, events[..k - 1]);
      RetryStep(cfg, id, RunFrom(cfg, id, s, events[..k - 1]), events[k - 1]);
      assert RetryCanStart(cfg, id, s, events, k - 1) ==> exists n :: 0 <= n < k && RetryCanStart(cfg, id, s, events, n);
    }
  }

  /**
    So it is with a seat that the shutdown has let go because it had no session: its timers run on, and it is occupied
    again if and only if one of its deferred logins can start.
  */
  lemma RetryOutlivesShutdown(cfg: Config, id: string, s: Seat, n: nat, events: seq<Event>)
    requires GoodConfig(cfg) && Inv(cfg, s) && s.session.None? && n > 0
    requires forall m :: 0 <= m < |events| ==> events[m].Retry?
    ensures RunFrom(cfg, id, AskedTimes(s, n), events).session.Some? <==>
            exists m :: 0 <= m < |events| && RetryCanStart(cfg, id, AskedTimes(s, n), events, m)
  {
    hide RunFrom, Inv, RetryCanStart;
    AskedKeeps(cfg, s, n);
    assert AskedTimes(s, n).session.None?;
    RetriesStartIff(cfg, id, AskedTimes(s, n), events, |events|);
    assert events[..|events|] == events;
  }

  /**
    But a fatal error is not the last word: on a hooked seat with a deferred login that can start, the error keeps the
    seat in the table, the login starts another session, and when that ends the seat leaves.
  */
  lemma LeavesAfterFatal(cfg: Config, id: string, s: Seat, i: nat, error: Error, o: Outside)
    requires GoodConfig(cfg) && Inv(cfg, s) && s.hooks > 0 && s.session.Some? && LifeCount(s.life, Began) == i + 1
    requires Fatal(error) && s.retries != [] && Startable(cfg, s, s.retries[0], o)
    ensures var e1, e2, e3 := FromRemote(i, SessionError(error), o), Retry(0, o), FromRemote(i + 1, SessionTerminated, o);
            !Leaves(cfg, id, s, [e1]) && !Leaves(cfg, id, s, [e1, e2]) && Leaves(cfg, id, s, [e1, e2, e3])
  {
    hide RunFrom, Step, HearsEnd, Leaves, Inv, LifeCount, DelayedSession;
    var e1, e2, e3 := FromRemote(i, SessionError(error), o), Retry(0, o), FromRemote(i + 1, SessionTerminated, o);
    var t1 := HandleError(s, error);
    var t2 := DelayedSession(cfg, id, t1, 0, o);
    ErrorHeard(cfg, id, s, i, error, o);
    RetryTried(cfg, id, t1, 0, o);
    ErrorKeeps(cfg, s, error);
    RetryStartsIff(cfg, id, t1, 0, o);
    RetryCounts(cfg, id, t1, 0, o);
    CloseLife(Emit(s, Failed(error)), Closed);
    NothingHappens(cfg, id, s);
    LeavesOneMore(cfg, id, s, [], e1);
    RunOneMore(cfg, id, s, [], e1);
    LeavesOneMore(cfg, id, s, [e1], e2);
    RunOneMore(cfg, id, s, [e1], e2);
    LeavesOneMore(cfg, id, s, [e1, e2], e3);
    assert [] + [e1] == [e1] && [e1] + [e2] == [e1, e2] && [e1, e2] + [e3] == [e1, e2, e3];
    NoEnd(s, e1);
    NoEnd(t1, e2);
    IsEnd(t2, e3);
  }

  lemma NoEnd(s: Seat, e: Event)
    requires e.Retry? || (e.FromRemote? && !e.signal.SessionTerminated?)
    ensures !HearsEnd(s, e)
  {
  }

  lemma IsEnd(s: Seat, e: Event)
    requires e.FromRemote? && e.signal.SessionTerminated? && s.session.Some? && e.i + 1 == LifeCount(s.life, Began)
    ensures HearsEnd(s, e)
  {
  }

  lemma RetryTried(cfg: Config, id: string, s: Seat, k: nat, o: Outside)
    requires GoodConfig(cfg) && k < |s.retries|
    ensures Step(cfg, id, s, Retry(k, o)) == DelayedSession(cfg, id, s, k, o)
  {
  }

  lemma RetryCounts(cfg: Config, id: string, s: Seat, k: nat, o: Outside)
    requires GoodConfig(cfg) && k < |s.retries| && s.session.None?
    ensures var t := DelayedSession(cfg, id, s, k, o);
            t.session.Some? ==> LifeCount(t.life, Began) == LifeCount(s.life, Began) + 1
  {
    hide CreateSession, LifeCount;
    var s1 := s.(retries := s.retries[..k] + s.retries[k + 1..], fired := s.fired + 1);
    CreateLife(cfg, id, s1, s.retries[k], o);
    LifeOneMore(s.life, Began, Began);
  }
}
