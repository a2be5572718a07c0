/** A seat together with all the session objects it has ever started, dead or alive. */
module SessionPool {
  import Wrappers
  import opened Relogin
  import opened SessionRemote
  import opened UserName
  import opened SeatSpec
  import opened SeatProofs
  import opened SeatObject

  class Pool {
    const seat: TlmSeat
    var started: seq<SessionRemote.Remote?>   // null: gone again before anybody could listen

    /** Session i is the i-th object started; only the live one, which is the last, is connected. */
    ghost predicate Valid()
      reads this, seat, seat.session, set i | 0 <= i < |started| :: started[i]
    {
      seat.Valid() && Complete() && Quiet()
    }

    ghost predicate Complete()
      reads this, seat
    {
      && |started| == seat.Starts()
      && (seat.session != null ==> |started| > 0 && started[|started| - 1] == seat.session)
      && forall i, j :: 0 <= i < j < |started| && started[i] != null ==> started[i] != started[j]
    }

    ghost predicate Quiet()
      reads this, seat, set i | 0 <= i < |started| :: started[i]
    {
      forall i :: 0 <= i < |started| && started[i] != null ==>
        started[i].Valid() && (started[i].connected ==> started[i] == seat.session)
    }

    /** Objects are only ever added, and those are new. */
    twostate predicate OnlyNew()
      reads this, seat
    {
      && (seat.session != null && seat.session != old(seat.session) ==> fresh(seat.session))
      && forall i :: 0 <= i < |started| ==>
           if i < |old(started)| then started[i] == old(started)[i] else started[i] == null || fresh(started[i])
    }

    constructor (config: Config, id: string)
      requires GoodConfig(config)
      ensures Valid() && fresh(seat) && started == [] && seat.State() == EMPTY && seat.config == config && seat.id == id
    {
      seat := new TlmSeat(config, id);
      started := [];
    }

    /** The sessions started by the step that has just been taken are entered. */
    method Enter(before: SessionRemote.Remote?, starts: nat)
      requires starts <= seat.Starts() <= starts + 1 && seat.Valid() && Quiet()
      requires |started| == starts && (before != null ==> starts > 0 && started[starts - 1] == before)
      requires forall i, j :: 0 <= i < j < |started| && started[i] != null ==> started[i] != started[j]
      requires seat.session != null ==> seat.Starts() == starts + if seat.session == before then 0 else 1
      requires seat.session != null && seat.session != before ==> seat.session !in started
      modifies this`started
      ensures Valid() && old(started) <= started && forall i :: starts <= i < |started| ==> started[i] == seat.session
    {
      if seat.Starts() > starts {
        started := started + [seat.session];
      }
    }

    /** Anything that does not come from a session object. */
    method Perform(e: Event)
      requires Valid() && !e.FromRemote?
      modifies this`started, seat, seat.session
      ensures Valid() && seat.State() == Step(seat.config, seat.id, old(seat.State()), e)
      ensures OnlyNew()
    {
      hide Inv, Step;
      StepAttempts(seat.config, seat.id, seat.State(), e);
      var before, starts := seat.session, seat.Starts();
      seat.Perform(e);
      Enter(before, starts);
    }

    /** Anything that happens to session object i: if that makes it emit a signal, it is what session i says to the seat. */
    method PerformRemote(i: nat, op: Op, o: Outside) returns (emitted: Wrappers.Option<RemoteSignal>)
      requires Valid() && i < |started| && started[i] != null
      modifies this`started, seat, seat.session, started[i]
      ensures Valid() && emitted == Says(old(started[i].State()), op)
      ensures seat.State() ==
              if emitted.Some? then Step(seat.config, seat.id, old(seat.State()), FromRemote(i, emitted.value, o))
              else old(seat.State())
      ensures OnlyNew()
    {
      hide Inv, Hear, Step, LifeCount, Says, RemoteStep;
      var before, starts := seat.session, seat.Starts();
      ghost var s, live := seat.State(), started[i] == seat.session;
      assert live <==> s.session.Some? && i + 1 == |started|;
      emitted := seat.PerformRemote(started[i], op, o);
      if emitted.Some? {
        ReachesSeat(seat.config, seat.id, s, i, emitted.value, o);
        StepAttempts(seat.config, seat.id, s, FromRemote(i, emitted.value, o));
      }
      Enter(before, starts);
    }
  }

  lemma ReachesSeat(cfg: Config, id: string, s: Seat, i: nat, signal: RemoteSignal, o: Outside)
    requires GoodConfig(cfg)
    ensures Step(cfg, id, s, FromRemote(i, signal, o)) ==
            if s.session.Some? && i + 1 == LifeCount(s.life, Began) then Hear(cfg, id, s, signal, o) else s
  {
  }

  /** A call or timer of the seat, or something that happens to the session object started as number i. */
  datatype Doing = OnSeat(event: Event) | OnObject(i: nat, op: Op, outside: Outside)

  /**
    Every run of the objects is a run of the state machine, in which FromRemote(i, ..) are the signals that object i has
    emitted.  So all that is proved about runs holds of the seat's object, and objects let go never reach it.
  */
  method Live(config: Config, id: string, doings: seq<Doing>) returns (pool: Pool, ghost events: seq<Event>)
    requires GoodConfig(config)
    ensures pool.Valid() && pool.seat.State() == Run(config, id, events) && |pool.started| == pool.seat.Starts()
    ensures |events| <= |doings| && CallsIn(events) == CallsOf(doings)
  {
    hide Inv, Step, CallsIn, CallsOf;
    pool := new Pool(config, id);
    events := [];
    assert CallsIn(events) == [] == CallsOf(doings[..0]) by {
      NoCalls();
      assert doings[..0] == [];
    }
    var n := 0;
    while n < |doings|
      invariant 0 <= n <= |doings| && |events| <= n
      invariant fresh(pool) && fresh(pool.seat) && (pool.seat.session != null ==> fresh(pool.seat.session))
      invariant forall i :: 0 <= i < |pool.started| && pool.started[i] != null ==> fresh(pool.started[i])
      invariant pool.Valid() && pool.seat.config == config && pool.seat.id == id
      invariant pool.seat.State() == RunFrom(config, id, EMPTY, events)
      invariant CallsIn(events) == CallsOf(doings[..n])
    {
      assert doings[..n + 1][..n] == doings[..n];
      OneMoreDoing(doings[..n + 1]);
      match doings[n] {
        case OnSeat(e) =>
          if !e.FromRemote? {
            RunOneMore(config, id, EMPTY, events, e);
            OneMoreCall(events, e);
            pool.Perform(e);
            events := events + [e];
          }
        case OnObject(i, op, o) =>
          if i < |pool.started| && pool.started[i] != null {
            ghost var before := events;
            var emitted := pool.PerformRemote(i, op, o);
            if emitted.Some? {
              RunOneMore(config, id, EMPTY, before, FromRemote(i, emitted.value, o));
              OneMoreCall(before, FromRemote(i, emitted.value, o));
              events := events + [FromRemote(i, emitted.value, o)];
            }
          }
      }
      n := n + 1;
    }
    assert doings[..|doings|] == doings;
  }

  /** The events that are calls and timers of the seat. */
  function CallsIn(events: seq<Event>): seq<Event> {
    if events == [] then []
    else CallsIn(events[..|events| - 1]) + if events[|events| - 1].FromRemote? then [] else [events[|events| - 1]]
  }

  function CallsOf(doings: seq<Doing>): seq<Event> {
    if doings == [] then []
    else
      var last := doings[|doings| - 1];
      CallsOf(doings[..|doings| - 1]) + if last.OnSeat? && !last.event.FromRemote? then [last.event] else []
  }

  lemma NoCalls()
    ensures CallsIn([]) == [] && CallsOf([]) == []
  {
  }

  lemma OneMoreCall(events: seq<Event>, e: Event)
    ensures CallsIn(events + [e]) == CallsIn(events) + if e.FromRemote? then [] else [e]
  {
    assert (events + [e])[..|events|] == events;
  }

  lemma OneMoreDoing(doings: seq<Doing>)
    requires doings != []
    ensures var last := doings[|doings| - 1];
            CallsOf(doings) ==
            CallsOf(doings[..|doings| - 1]) + if last.OnSeat? && !last.event.FromRemote? then [last.event] else []
  {
  }
}
