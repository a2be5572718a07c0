/** Which runs of a seat make it leave the table of a manager that has been stopped. */
module Leaving {
  import opened Wrappers
  import opened Relogin
  import opened UserName
  import opened SessionRemote
  import opened SeatSpec
  import opened SeatProofs
  import opened StopLoop
  import opened Drain

  lemma EmitTerminations(s: Seat, x: Signal)
    ensures Terminations(Emit(s, x).signals) == Terminations(s.signals) + if x == Terminated then 1 else 0
  {
  }

  lemma StartTerminations(s: Seat, username: Option<string>, o: Outside)
    ensures Terminations(StartSession(s, username, o).0.signals) == Terminations(s.signals)
  {
    hide Terminations;
    EmitTerminations(s, Failed(SessionCreationFailure));
    EmitTerminations(s, Failed(DbusServerStartFailure));
  }

  lemma CreateTerminations(cfg: Config, id: string, s: Seat, login: Login, o: Outside)
    requires GoodConfig(cfg)
    ensures Terminations(CreateSession(cfg, id, s, login, o).0.signals) == Terminations(s.signals)
  {
    hide Terminations, StartSession, Admits, Attempt, DefaultUser;
    EmitTerminations(s.(begun := true), Failed(SessionAlreadyExists));
    var s1 := s.(throttle := Attempt(s.throttle, o.clock), attempts := s.attempts + [o.clock], begun := true);
    var s2 := PrepareDefault(cfg, id, s1);
    EmitTerminations(s1, PrepareUserLogin(s2.defaultUser));
    StartTerminations(if login.username.None? then s2 else s1, login.username, o);
  }

  lemma EndingTerminations(s: Seat)
    ensures Terminations(TerminateSession(s).0.signals) == Terminations(s.signals)
  {
    hide Terminations;
    var s1 := if s.defaultActive then Emit(s.(defaultActive := false), PrepareUserLogout(s.defaultUser)) else s;
    EmitTerminations(s, PrepareUserLogout(s.defaultUser));
    EmitTerminations(s1, Failed(SessionNotValid));
  }

  lemma HearTerminations(cfg: Config, id: string, s: Seat, signal: RemoteSignal, o: Outside)
    requires GoodConfig(cfg)
    ensures Terminations(Hear(cfg, id, s, signal, o).signals) ==
            Terminations(s.signals) + if signal.SessionTerminated? then 1 else 0
  {
    hide Terminations, CreateSession;
    match signal
    case SessionCreated => EmitTerminations(s, Created);
    case SessionTerminated =>
      EmitTerminations(CloseActiveSession(s, Ended), Terminated);
      CreateTerminations(cfg, id, AfterEnd(s), s.next, o);
    case SessionError(error) => EmitTerminations(s, Failed(error));
  }

  lemma StepTerminations(cfg: Config, id: string, s: Seat, e: Event)
    requires GoodConfig(cfg)
    ensures Terminations(Step(cfg, id, s, e).signals) == Terminations(s.signals) + if HearsEnd(s, e) then 1 else 0
  {
    hide Terminations, CreateSession, TerminateSession, Hear, LifeCount;
    match e
    case Ask(login, o) => CreateTerminations(cfg, id, s, login, o);
    case Switch(login, _, o) =>
      CreateTerminations(cfg, id, s, login, o);
      EndingTerminations(s.(next := login, switching := Some(login)));
    case Leave => EndingTerminations(s);
    case Retry(k, o) =>
      if k < |s.retries| {
        CreateTerminations(cfg, id, s.(retries := s.retries[..k] + s.retries[k + 1..], fired := s.fired + 1), s.retries[k], o);
      }
    case FromRemote(_, signal, o) => HearTerminations(cfg, id, s, signal, o);
    case _ =>
  }

  /** A seat leaves the table exactly when it emits "session-terminated" at all. */
  lemma {:induction false} LeavesIffTerminated(cfg: Config, id: string, s: Seat, events: seq<Event>)
    requires GoodConfig(cfg)
    ensures var t := RunFrom(cfg, id, s, events);
            && Terminations(t.signals) >= Terminations(s.signals)
            && (Leaves(cfg, id, s, events) <==> Terminations(t.signals) > Terminations(s.signals))
  {
    hide Step, Terminations, Leaves, HearsEnd;
    if events == [] {
      NothingHappens(cfg, id, s);
    } else {
      var n := |events| - 1;
      LeavesIffTerminated(cfg, id, s, events[..n]);
      StepTerminations(cfg, id, RunFrom(cfg, id, s, events[..n]), events[n]);
      LeavesOneMore(cfg, id, s, events[..n], events[n]);
      assert events[..n] + [events[n]] == events;
    }
  }

  /** An event that may start a session. */
  predicate Creates(e: Event) {
    e.Ask? || e.Switch? || e.Retry?
  }

  /** Something that closes the session started as number i. */
  predicate Closes(e: Event, i: nat) {
    e.FromRemote? && e.i == i &&
    (e.signal.SessionTerminated? || (e.signal.SessionError? && Fatal(e.signal.error)))
  }

  lemma QuietStep(cfg: Config, id: string, s: Seat, e: Event, i: nat)
    requires GoodConfig(cfg) && s.hooks > 0 && LifeCount(s.life, Began) == i + 1 && !Creates(e)
    ensures var t := Step(cfg, id, s, e);
            && t.hooks > 0 && LifeCount(t.life, Began) == i + 1
            && (t.session.Some? <==> s.session.Some? && !Closes(e, i))
  {
    hide CreateSession, LifeCount;
    CloseLife(s, Ended);
    CloseLife(s, Closed);
  }

  lemma {:induction false} QuietRun(cfg: Config, id: string, s: Seat, events: seq<Event>, i: nat, k: nat)
    requires GoodConfig(cfg) && s.hooks > 0 && s.session.Some? && LifeCount(s.life, Began) == i + 1
    requires k <= |events| && forall e :: e in events ==> !Creates(e)
    ensures var t := RunFrom(cfg, id, s, events[..k]);
            && t.hooks > 0 && LifeCount(t.life, Began) == i + 1
            && (t.session.Some? <==> forall n :: 0 <= n < k ==> !Closes(events[n], i))
  {
    hide Step, LifeCount, Closes;
    if k > 0 {
      QuietRun(cfg, id, s, events, i, k - 1);
      assert events[..k][..k - 1] == events[..k - 1];
      QuietStep(cfg, id, RunFrom(cfg, id, s, events[..k - 1]), events[k - 1], i);
    }
  }

  /**
    As long as nothing may start another session, a seat leaves exactly if the first thing to close its session is its
    end.
  */
  lemma QuietLeavesIff(cfg: Config, id: string, s: Seat, events: seq<Event>, i: nat)
    requires GoodConfig(cfg) && s.hooks > 0 && s.session.Some? && LifeCount(s.life, Began) == i + 1
    requires forall e :: e in events ==> !Creates(e)
    ensures Leaves(cfg, id, s, events) <==> exists n :: 0 <= n < |events| && EndsFirst(events, n, i)
  {
    hide RunFrom, LifeCount, Step;
    forall n | 0 <= n < |events| ensures HearsEndAt(cfg, id, s, events, n) <==> EndsFirst(events, n, i) {
      QuietRun(cfg, id, s, events, i, n);
    }
  }

  ghost predicate EndsFirst(events: seq<Event>, n: nat, i: nat)
    requires n < |events|
  {
    Closes(events[n], i) && events[n].signal.SessionTerminated? && forall m :: 0 <= m < n ==> !Closes(events[m], i)
  }
}
