/** src/daemon/tlm-manager.c: what happens to the table of seats after the loop of tlm_manager_stop. */
module Drain {
  import opened Wrappers
  import opened Relogin
  import opened UserName
  import opened SessionRemote
  import opened SeatSpec
  import opened SeatProofs
  import opened StopLoop

  /** The table of seats, the seats let go, and the number of times "manager-stopped" has been emitted. */
  datatype Table = Table(seats: Seats, letGo: seq<(string, Seat)>, stopped: nat)

  /** An event of a seat in the table, or of the i-th seat let go. */
  datatype Happening = InTable(key: string, event: Event) | LetGo(i: nat, event: Event)

  /** The seat hears the end of its live session, and emits "session-terminated". */
  predicate HearsEnd(s: Seat, e: Event) {
    e.FromRemote? && e.signal.SessionTerminated? && s.session.Some? && e.i + 1 == LifeCount(s.life, Began)
  }

  function Happens(cfg: Config, t: Table, h: Happening): Table
    requires GoodConfig(cfg)
  {
    match h
    case InTable(key, e) =>
      if key !in t.seats then t else
      var last := Step(cfg, key, t.seats[key], e);
      if HearsEnd(t.seats[key], e) && last.hooks > 0 then Unlisted(t.(letGo := t.letGo + [(key, last)]), key, last.hooks)
      else t.(seats := t.seats[key := last])
    case LetGo(i, e) =>
      if i >= |t.letGo| then t else
      var (key, seat) := t.letGo[i];
      var last := Step(cfg, key, seat, e);
      var t' := t.(letGo := t.letGo[i := (key, last)]);
      if HearsEnd(seat, e) && last.hooks > 0 then Unlisted(t', key, last.hooks) else t'
  }

  /** The shutdown handler has been called n times for a seat. */
  function Unlisted(t: Table, key: string, n: nat): Table {
    t.(seats := t.seats - {key}, stopped := t.stopped + if t.seats.Keys <= {key} then n else 0)
  }

  function AllHappen(cfg: Config, t: Table, hs: seq<Happening>): Table
    requires GoodConfig(cfg)
  {
    if hs == [] then t else Happens(cfg, AllHappen(cfg, t, hs[..|hs| - 1]), hs[|hs| - 1])
  }

  ghost predicate AllHooked(t: Table) {
    forall k :: k in t.seats ==> t.seats[k].hooks > 0
  }

  /** What happens to seat k of the table. */
  function EventsOf(hs: seq<Happening>, k: string): seq<Event> {
    if hs == [] then []
    else
      var h := hs[|hs| - 1];
      EventsOf(hs[..|hs| - 1], k) + if h.InTable? && h.key == k then [h.event] else []
  }

  /** In its own run, seat id hears the end of a live session. */
  ghost predicate Leaves(cfg: Config, id: string, s: Seat, events: seq<Event>)
    requires GoodConfig(cfg)
  {
    exists n :: 0 <= n < |events| && HearsEndAt(cfg, id, s, events, n)
  }

  ghost predicate HearsEndAt(cfg: Config, id: string, s: Seat, events: seq<Event>, n: nat)
    requires GoodConfig(cfg) && n < |events|
  {
    HearsEnd(RunFrom(cfg, id, s, events[..n]), events[n])
  }

  lemma LeavesOneMore(cfg: Config, id: string, s: Seat, events: seq<Event>, e: Event)
    requires GoodConfig(cfg)
    ensures Leaves(cfg, id, s, events + [e]) <==> Leaves(cfg, id, s, events) || HearsEnd(RunFrom(cfg, id, s, events), e)
  {
    hide RunFrom, HearsEnd;
    var n := |events|;
    assert (events + [e])[..n] == events;
    forall m | 0 <= m < n ensures HearsEndAt(cfg, id, s, events + [e], m) <==> HearsEndAt(cfg, id, s, events, m) {
      assert (events + [e])[..m] == events[..m];
    }
    assert HearsEndAt(cfg, id, s, events + [e], n) <==> HearsEnd(RunFrom(cfg, id, s, events), e);
  }

  /** Handlers stay connected. */
  lemma HooksStay(cfg: Config, id: string, s: Seat, e: Event)
    requires GoodConfig(cfg)
    ensures Step(cfg, id, s, e).hooks == s.hooks + if e.Hook? then 1 else 0
  {
    hide CreateSession;
    match e
    case Ask(login, o) => CreateLeavesNext(cfg, id, s, login, o);
    case Switch(login, _, o) => CreateLeavesNext(cfg, id, s, login, o);
    case Retry(k, o) =>
      if k < |s.retries| {
        CreateLeavesNext(cfg, id, s.(retries := s.retries[..k] + s.retries[k + 1..], fired := s.fired + 1), s.retries[k], o);
      }
    case FromRemote(_, _, o) => CreateLeavesNext(cfg, id, AfterEnd(s), s.next, o);
    case _ =>
  }

  /** What one happening does to a table whose seats are hooked. */
  lemma HappensKeeps(cfg: Config, t: Table, h: Happening)
    requires GoodConfig(cfg) && AllHooked(t) && Apart(t.seats, t.letGo)
    ensures var u := Happens(cfg, t, h);
            && AllHooked(u) && Apart(u.seats, u.letGo) && u.seats.Keys <= t.seats.Keys && t.stopped <= u.stopped
            && (t.seats.Keys != {} ==> (u.stopped > t.stopped <==> u.seats.Keys == {}))
  {
    hide Step, HearsEnd;
    match h
    case InTable(key, e) =>
      if key in t.seats {
        HooksStay(cfg, key, t.seats[key], e);
      }
    case LetGo(i, e) =>
      if i < |t.letGo| {
        var (key, seat) := t.letGo[i];
        assert t.seats - {key} == t.seats;
      }
  }

  /** And to one seat of it. */
  lemma HappensTo(cfg: Config, t: Table, h: Happening, k: string)
    requires GoodConfig(cfg) && AllHooked(t) && Apart(t.seats, t.letGo) && k in t.seats
    ensures var u := Happens(cfg, t, h);
            if h.InTable? && h.key == k then
              && (k in u.seats <==> !HearsEnd(t.seats[k], h.event))
              && (k in u.seats ==> u.seats[k] == Step(cfg, k, t.seats[k], h.event))
            else k in u.seats && u.seats[k] == t.seats[k]
  {
    hide Step, HearsEnd;
    if h.InTable? && h.key in t.seats {
      HooksStay(cfg, h.key, t.seats[h.key], h.event);
    }
  }

  lemma {:induction false} AllHappenKeeps(cfg: Config, t: Table, hs: seq<Happening>)
    requires GoodConfig(cfg) && AllHooked(t) && Apart(t.seats, t.letGo)
    ensures var u := AllHappen(cfg, t, hs);
            && AllHooked(u) && Apart(u.seats, u.letGo) && u.seats.Keys <= t.seats.Keys && t.stopped <= u.stopped
            && (t.seats.Keys != {} ==> (u.stopped > t.stopped <==> u.seats.Keys == {}))
  {
    hide Happens, AllHooked, Apart;
    if hs != [] {
      AllHappenKeeps(cfg, t, hs[..|hs| - 1]);
      HappensKeeps(cfg, AllHappen(cfg, t, hs[..|hs| - 1]), hs[|hs| - 1]);
    }
  }

  /**
    After a shutdown, however its sessions end, fail, are asked for, switched or tried again: a seat leaves the table if
    and only if, in its own run, it hears the end of a live session; until then it is where its own run has brought it.
  */
  lemma {:induction false} SeatLeavesIff(cfg: Config, t: Table, hs: seq<Happening>, k: string)
    requires GoodConfig(cfg) && AllHooked(t) && Apart(t.seats, t.letGo) && k in t.seats
    ensures var u, events := AllHappen(cfg, t, hs), EventsOf(hs, k);
            && (k in u.seats <==> !Leaves(cfg, k, t.seats[k], events))
            && (k in u.seats ==> u.seats[k] == RunFrom(cfg, k, t.seats[k], events))
  {
    hide Step, Happens, AllHooked, Apart, Leaves, RunFrom;
    if hs == [] {
      NothingHappens(cfg, k, t.seats[k]);
    } else {
      var before, h := hs[..|hs| - 1], hs[|hs| - 1];
      var u := AllHappen(cfg, t, before);
      SeatLeavesIff(cfg, t, before, k);
      AllHappenKeeps(cfg, t, before);
      HappensKeeps(cfg, u, h);
      if k in u.seats {
        HappensTo(cfg, u, h, k);
      }
      if h.InTable? && h.key == k {
        LeavesOneMore(cfg, k, t.seats[k], EventsOf(before, k), h.event);
        RunOneMore(cfg, k, t.seats[k], EventsOf(before, k), h.event);
      } else {
        assert EventsOf(hs, k) == EventsOf(before, k);
      }
    }
  }

  lemma NothingHappens(cfg: Config, id: string, s: Seat)
    requires GoodConfig(cfg)
    ensures !Leaves(cfg, id, s, []) && RunFrom(cfg, id, s, []) == s
  {
  }

  /** "manager-stopped" is emitted after the loop if and only if the table empties, by the step that empties it. */
  lemma StoppedIff(cfg: Config, t: Table, hs: seq<Happening>)
    requires GoodConfig(cfg) && AllHooked(t) && Apart(t.seats, t.letGo)
    ensures var u := AllHappen(cfg, t, hs);
            t.seats.Keys != {} ==> (u.stopped > t.stopped <==> u.seats.Keys == {})
    ensures t.seats.Keys == {} ==> AllHappen(cfg, t, hs).seats.Keys == {} && AllHappen(cfg, t, hs).stopped >= t.stopped
  {
    AllHappenKeeps(cfg, t, hs);
  }

  lemma DrainKeeps(cfg: Config, t: Table, hs: seq<Happening>)
    requires GoodConfig(cfg) && AllHooked(t) && Apart(t.seats, t.letGo) && AllKept(cfg, t.seats)
    ensures var u := AllHappen(cfg, t, hs); AllKept(cfg, u.seats) && Apart(u.seats, u.letGo)
  {
    hide AllHappen, RunFrom, Leaves, Inv, AllHooked, Apart, EventsOf;
    AllHappenKeeps(cfg, t, hs);
    var u := AllHappen(cfg, t, hs);
    forall k | k in u.seats ensures Inv(cfg, u.seats[k]) {
      SeatLeavesIff(cfg, t, hs, k);
      RunFromKeeps(cfg, k, t.seats[k], EventsOf(hs, k));
    }
  }

  // ----- The number of handlers does not matter, as long as there is one -----

  lemma StartHooks(s: Seat, h: nat, username: Option<string>, o: Outside)
    ensures StartSession(s.(hooks := h), username, o) ==
            (StartSession(s, username, o).0.(hooks := h), StartSession(s, username, o).1)
  {
  }

  lemma CreateHooks(cfg: Config, id: string, s: Seat, h: nat, login: Login, o: Outside)
    requires GoodConfig(cfg)
    ensures CreateSession(cfg, id, s.(hooks := h), login, o) ==
            (CreateSession(cfg, id, s, login, o).0.(hooks := h), CreateSession(cfg, id, s, login, o).1)
  {
    hide StartSession, Admits, Attempt, DefaultUser;
    var s1 := s.(throttle := Attempt(s.throttle, o.clock), attempts := s.attempts + [o.clock], begun := true);
    StartHooks(if login.username.None? then PrepareDefault(cfg, id, s1) else s1, h, login.username, o);
  }

  lemma HearHooks(cfg: Config, id: string, s: Seat, h: nat, signal: RemoteSignal, o: Outside)
    requires GoodConfig(cfg) && s.hooks > 0 && h > 0
    ensures Hear(cfg, id, s.(hooks := h), signal, o) == Hear(cfg, id, s, signal, o).(hooks := h)
  {
    hide CreateSession, CloseActiveSession;
    CloseHooks(s, h, Ended);
    if signal.SessionError? {
      CloseHooks(Emit(s, Failed(signal.error)), h, Closed);
    }
  }

  lemma CloseHooks(s: Seat, h: nat, how: Life)
    ensures CloseActiveSession(s.(hooks := h), how) == CloseActiveSession(s, how).(hooks := h)
  {
  }

  lemma SwitchHooks(cfg: Config, id: string, s: Seat, h: nat, login: Login, authenticated: bool, o: Outside)
    requires GoodConfig(cfg)
    ensures SwitchUser(cfg, id, s.(hooks := h), login, authenticated, o).0 ==
            SwitchUser(cfg, id, s, login, authenticated, o).0.(hooks := h)
  {
    hide CreateSession;
    CreateHooks(cfg, id, s, h, login, o);
  }

  lemma RetryHooks(cfg: Config, id: string, s: Seat, h: nat, k: nat, o: Outside)
    requires GoodConfig(cfg) && k < |s.retries|
    ensures DelayedSession(cfg, id, s.(hooks := h), k, o) == DelayedSession(cfg, id, s, k, o).(hooks := h)
  {
    hide CreateSession;
    CreateHooks(cfg, id, s.(retries := s.retries[..k] + s.retries[k + 1..], fired := s.fired + 1), h, s.retries[k], o);
  }

  lemma StepHooks(cfg: Config, id: string, s: Seat, h: nat, e: Event)
    requires GoodConfig(cfg) && s.hooks > 0 && h > 0
    ensures Step(cfg, id, s.(hooks := h), e) == Step(cfg, id, s, e).(hooks := h + if e.Hook? then 1 else 0)
  {
    hide CreateSession, SwitchUser, DelayedSession, Hear, LifeCount;
    match e
    case Ask(login, o) => CreateHooks(cfg, id, s, h, login, o);
    case Switch(login, authenticated, o) => SwitchHooks(cfg, id, s, h, login, authenticated, o);
    case Retry(k, o) =>
      if k < |s.retries| {
        RetryHooks(cfg, id, s, h, k, o);
      }
    case FromRemote(_, signal, o) => HearHooks(cfg, id, s, h, signal, o);
    case _ =>
  }

  lemma {:induction false} RunHooks(cfg: Config, id: string, s: Seat, h: nat, events: seq<Event>)
    requires GoodConfig(cfg) && s.hooks > 0 && h > 0
    ensures var t := RunFrom(cfg, id, s, events);
            t.hooks >= s.hooks && RunFrom(cfg, id, s.(hooks := h), events) == t.(hooks := t.hooks - s.hooks + h)
  {
    hide Step;
    if events != [] {
      var n := |events| - 1;
      var t := RunFrom(cfg, id, s, events[..n]);
      RunHooks(cfg, id, s, h, events[..n]);
      StepHooks(cfg, id, t, t.hooks - s.hooks + h, events[n]);
      HooksStay(cfg, id, t, events[n]);
    }
  }

  lemma LeavesHooks(cfg: Config, id: string, s: Seat, h: nat, events: seq<Event>)
    requires GoodConfig(cfg) && s.hooks > 0 && h > 0
    ensures Leaves(cfg, id, s.(hooks := h), events) <==> Leaves(cfg, id, s, events)
  {
    hide RunFrom;
    forall n | 0 <= n < |events|
      ensures HearsEndAt(cfg, id, s.(hooks := h), events, n) <==> HearsEndAt(cfg, id, s, events, n) {
      RunHooks(cfg, id, s, h, events[..n]);
    }
  }

  /** The end of the last seat calls every handler connected to it, and each emits "manager-stopped". */
  lemma LastSeatEnds(cfg: Config, s: Seat, letGo: seq<(string, Seat)>, i: nat, o: Outside)
    requires GoodConfig(cfg) && s.session.Some? && i + 1 == LifeCount(s.life, Began)
    ensures forall n: nat ::
              Happens(cfg, Table(map["seat0" := s], letGo, n), InTable("seat0", FromRemote(i, SessionTerminated, o))).stopped
              == n + s.hooks
  {
    hide LifeCount, Step;
    HooksStay(cfg, "seat0", s, FromRemote(i, SessionTerminated, o));
  }

  /**
    A seat let go keeps its handlers: when a session started on it after all ends, each of them emits "manager-stopped"
    again if the table is empty, and none while another seat is in it.  The table stays as it is.
  */
  lemma LateEnd(cfg: Config, t: Table, i: nat, j: nat, o: Outside)
    requires GoodConfig(cfg) && i < |t.letGo| && Apart(t.seats, t.letGo)
    requires t.letGo[i].1.session.Some? && j + 1 == LifeCount(t.letGo[i].1.life, Began)
    ensures var u := Happens(cfg, t, LetGo(i, FromRemote(j, SessionTerminated, o)));
            && u.seats == t.seats
            && u.stopped == t.stopped + if t.seats == map[] then t.letGo[i].1.hooks else 0
  {
    hide LifeCount, Step;
    var (key, seat) := t.letGo[i];
    HooksStay(cfg, key, seat, FromRemote(j, SessionTerminated, o));
    assert t.seats - {key} == t.seats;
    assert t.seats.Keys <= {key} <==> t.seats == map[] by {
      if k :| k in t.seats {
        assert k in t.seats.Keys && k != key;
      }
    }
  }

  /** What happens to the i-th seat let go. */
  function EventsOfLetGo(hs: seq<Happening>, i: nat): seq<Event> {
    if hs == [] then []
    else
      var h := hs[|hs| - 1];
      EventsOfLetGo(hs[..|hs| - 1], i) + if h.LetGo? && h.i == i then [h.event] else []
  }

  /** Nothing but its own events touches a seat that has been let go. */
  lemma {:induction false} LetGoRuns(cfg: Config, t: Table, hs: seq<Happening>, i: nat)
    requires GoodConfig(cfg) && i < |t.letGo|
    ensures var u, (key, seat) := AllHappen(cfg, t, hs), t.letGo[i];
            |u.letGo| >= |t.letGo| && u.letGo[i] == (key, RunFrom(cfg, key, seat, EventsOfLetGo(hs, i)))
  {
    hide Step, RunFrom, Happens;
    var (key, seat) := t.letGo[i];
    if hs == [] {
      NothingHappens(cfg, key, seat);
    } else {
      var before, h := hs[..|hs| - 1], hs[|hs| - 1];
      LetGoRuns(cfg, t, before, i);
      HappensToLetGo(cfg, AllHappen(cfg, t, before), h, i);
      if h.LetGo? && h.i == i {
        RunOneMore(cfg, key, seat, EventsOfLetGo(before, i), h.event);
      } else {
        assert EventsOfLetGo(hs, i) == EventsOfLetGo(before, i);
      }
    }
  }

  lemma HappensToLetGo(cfg: Config, t: Table, h: Happening, i: nat)
    requires GoodConfig(cfg) && i < |t.letGo|
    ensures var u, (key, seat) := Happens(cfg, t, h), t.letGo[i];
            && |u.letGo| >= |t.letGo|
            && u.letGo[i] == if h.LetGo? && h.i == i then (key, Step(cfg, key, seat, h.event)) else (key, seat)
  {
    hide Step, HearsEnd;
  }
}
