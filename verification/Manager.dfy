/** src/daemon/tlm-manager.c: the table of seats, how it is filled with virtual seats, and how it is shut down. */
module Manager {
  import opened Wrappers
  import opened Decimal
  import opened Relogin
  import opened UserName
  import opened SessionRemote
  import opened SeatSpec
  import opened SeatProofs
  import opened StopLoop
  import opened Drain

  class TlmManager {
    const config: Config
    const initialUser: Option<string>
    var seats: Seats
    var isStarted: bool
    var stopped: nat                    // how often "manager-stopped" has been emitted
    var letGo: seq<(string, Seat)>      // seats taken out of the table, in order

    ghost predicate Valid()
      reads this
    {
      GoodConfig(config) && AllKept(config, seats) && Apart(seats, letGo)
    }

    /** What the shutdown is about, as a value. */
    ghost function World(): Table
      reads this
    {
      Table(seats, letGo, stopped)
    }

    constructor (config: Config, initialUser: Option<string>)
      requires GoodConfig(config)
      ensures Valid() && World() == Table(map[], [], 0)
      ensures this.config == config && this.initialUser == initialUser
    {
      this.config, this.initialUser := config, initialUser;
      seats, isStarted, stopped, letGo := map[], false, 0, [];
    }

    method CreateSeat(seatId: string, o: Outside)
      requires GoodConfig(config)
      modifies this`seats
      ensures seats == old(seats)[seatId := NewSeat(config, initialUser, seatId, o)]
    {
      var seat := EMPTY;
      if config.autoLogin || initialUser.Some? {
        seat := CreateSession(config, seatId, seat, Login(None, initialUser, None, None), o).0;
      }
      seats := seats[seatId := seat];
    }

    /** tlm_manager_start with a number of virtual seats; outside[i] is what seat i meets. */
    method Start(outside: seq<Outside>)
      requires Valid() && seats == map[] && letGo == []
      modifies this`seats, this`isStarted
      ensures Valid() && isStarted
      ensures seats == VirtualSeats(config, initialUser, outside, |outside|)
    {
      var i := 0;
      while i < |outside|
        invariant 0 <= i <= |outside| && seats == VirtualSeats(config, initialUser, outside, i)
      {
        CreateSeat(VirtualSeat(i), outside[i]);
        i := i + 1;
      }
      VirtualSeatsKept(config, initialUser, outside, |outside|);
      isStarted := true;
    }

    /** The manager connects its shutdown handler to a seat and asks for the end of its session; without one the seat goes. */
    method StopSeat(key: string) returns (ok: bool)
      requires key in seats
      modifies this`seats, this`letGo
      ensures var told := TerminateSession(Hooked(old(seats)[key]));
              && ok == told.1
              && seats == (if ok then old(seats)[key := told.0] else old(seats) - {key})
              && letGo == (if ok then old(letGo) else old(letGo) + [(key, told.0)])
      ensures if ok then |seats| == |old(seats)| else |seats| < |old(seats)|
    {
      assert (seats - {key}).Keys == seats.Keys - {key};
      var seat := Hooked(seats[key]);
      var (told, done) := TerminateSession(seat);
      ok := done;
      if !ok {
        seats, letGo := seats - {key}, letGo + [(key, told)];
      } else {
        seats := seats[key := told];
        assert seats.Keys == old(seats).Keys;
      }
    }

    /**
      tlm_manager_stop.  The iterator is the set of seats it has still ahead; taking a seat out of the table restarts it.
      `picks` are the seats in the order in which it comes to them.  Exactly the occupied seats stay, each asked to end
      as often as it was picked: at least once, and at most once more than there were unoccupied seats.  The others are
      let go, each of them asked once.
      "manager-stopped" comes at once exactly when none stays.
    */
    method Stop() returns (ghost picks: seq<string>)
      requires Valid()
      modifies this`seats, this`isStarted, this`stopped, this`letGo
      ensures Valid() && !isStarted
      ensures Possible(LoopStart(old(seats), old(letGo)), picks)
      ensures Iterated(LoopStart(old(seats), old(letGo)), picks) == Loop(seats, letGo, {}, seats.Keys != {})
      ensures seats.Keys == Occupied(old(seats))
      ensures forall k :: k in seats ==> AskedOften(old(seats)[k], seats[k], multiset(picks)[k], |old(seats)| - |seats| + 1)
      ensures AllLetGo(old(seats), seats, old(letGo), letGo)
      ensures stopped == old(stopped) + if seats == map[] then 1 else 0
    {
      hide Iterated, Possible, Inv, AskedOften, Occupied, LetGoApart, Apart, AllKept, AllLetGo;
      ghost var v, before := seats, letGo;
      var delayed;
      delayed, picks := StopAll();
      LoopEnds(v, before, picks);
      NoneForgotten(v, before, picks);
      StopKeeps(config, v, before, picks);
      if !delayed {
        stopped := stopped + 1;
      }
      isStarted := false;
    }

    /** The loop of tlm_manager_stop. */
    method StopAll() returns (delayed: bool, ghost picks: seq<string>)
      modifies this`seats, this`letGo
      ensures Possible(LoopStart(old(seats), old(letGo)), picks)
      ensures Iterated(LoopStart(old(seats), old(letGo)), picks) == Loop(seats, letGo, {}, delayed)
    {
      ghost var start := LoopStart(seats, letGo);
      delayed, picks := false, [];
      var iter := seats.Keys;
      while iter != {}
        invariant iter <= seats.Keys
        invariant Possible(start, picks) && Iterated(start, picks) == Loop(seats, letGo, iter, delayed)
        decreases |seats|, |iter|
      {
        var key :| key in iter;
        OneMorePick(start, picks, key);
        iter := iter - {key};
        var ok := StopSeat(key);
        if !ok {
          iter := seats.Keys;
        } else {
          delayed := true;
        }
        picks := picks + [key];
      }
    }

    /** _session_terminated_cb, the shutdown handler on a seat's "session-terminated". */
    method SessionTerminatedCb(seatId: string)
      modifies this`seats, this`stopped
      ensures seats == old(seats) - {seatId}
      ensures stopped == old(stopped) + if seats.Keys == {} then 1 else 0
    {
      seats := seats - {seatId};
      if |seats| == 0 {
        stopped := stopped + 1;
      }
    }

    /** "session-terminated" of a seat with n shutdown handlers: it is emitted once, and each of them is called. */
    method CallHandlers(seatId: string, n: nat)
      modifies this`seats, this`stopped
      ensures seats == if n == 0 then old(seats) else old(seats) - {seatId}
      ensures stopped == old(stopped) + if old(seats).Keys <= {seatId} then n else 0
    {
      ghost var table := seats;
      var i := 0;
      while i < n
        invariant 0 <= i <= n
        invariant seats == if i == 0 then table else table - {seatId}
        invariant stopped == old(stopped) + if table.Keys <= {seatId} then i else 0
      {
        SessionTerminatedCb(seatId);
        assert seats == table - {seatId} && seats.Keys == table.Keys - {seatId};
        i := i + 1;
      }
    }

    /**
      Anything that can happen to a seat, in the table or out of it: calls through D-Bus, timers of deferred creations,
      signals of sessions.  The seat takes its step, and when that makes it emit "session-terminated", the shutdown
      handlers connected to it are called.
    */
    method Happen(h: Happening)
      requires GoodConfig(config)
      modifies this`seats, this`stopped, this`letGo
      ensures World() == Happens(config, old(World()), h)
    {
      match h {
        case InTable(key, event) =>
          if key in seats {
            var last := Step(config, key, seats[key], event);
            if HearsEnd(seats[key], event) && last.hooks > 0 {
              letGo := letGo + [(key, last)];
              CallHandlers(key, last.hooks);
            } else {
              seats := seats[key := last];
            }
          }
        case LetGo(i, event) =>
          if i < |letGo| {
            var (key, seat) := letGo[i];
            var last := Step(config, key, seat, event);
            letGo := letGo[i := (key, last)];
            if HearsEnd(seat, event) {
              CallHandlers(key, last.hooks);
            }
          }
      }
    }

    /** The time after tlm_manager_stop. */
    method Drain(hs: seq<Happening>)
      requires GoodConfig(config)
      modifies this`seats, this`stopped, this`letGo
      ensures World() == AllHappen(config, old(World()), hs)
    {
      var i := 0;
      ghost var t := World();
      while i < |hs|
        invariant 0 <= i <= |hs| && World() == AllHappen(config, t, hs[..i])
      {
        assert hs[..i + 1][..i] == hs[..i];
        Happen(hs[i]);
        i := i + 1;
      }
      assert hs[..|hs|] == hs;
    }

    /**
      The whole shutdown.  Whatever the seats were doing, and whatever happens to them afterwards, "manager-stopped" is
      emitted if and only if the table empties, and what stays in it are the seats occupied at the beginning that never
      hear the end of a live session.
    */
    method Shutdown(hs: seq<Happening>)
      requires Valid()
      modifies this`seats, this`isStarted, this`stopped, this`letGo
      ensures Valid() && !isStarted
      ensures seats.Keys == Staying(config, old(seats), hs)
      ensures stopped > old(stopped) <==> seats.Keys == {}
    {
      ghost var v := seats;
      ghost var picks := Stop();
      ghost var t := World();
      AskedAreHooked(v, seats, picks, |v| - |seats| + 1);
      Drain(hs);
      DrainKeeps(config, t, hs);
      DrainStays(config, v, t, picks, |v| - |t.seats| + 1, hs);
      StoppedIff(config, t, hs);
    }
  }

  function NewSeat(cfg: Config, initialUser: Option<string>, id: string, o: Outside): Seat
    requires GoodConfig(cfg)
  {
    if cfg.autoLogin || initialUser.Some? then
      CreateSession(cfg, id, EMPTY, Login(None, initialUser, None, None), o).0
    else EMPTY
  }

  /**
    Who a new seat that can start its session begins with: the initial user where the manager has one, with or without
    auto-login; under auto-login alone the default user; and otherwise nobody, the seat being as if never used.
  */
  lemma FirstOccupant(cfg: Config, initialUser: Option<string>, id: string, o: Outside)
    requires GoodConfig(cfg) && Serves(o)
    ensures var s := NewSeat(cfg, initialUser, id, o);
            && (initialUser.Some? ==> s.session == Some(initialUser) && !s.defaultActive && s.signals == [])
            && (initialUser.None? && cfg.autoLogin && cfg.defaultUser.Some? ==>
                  var user := Some(DefaultUser(cfg.defaultUser.value, id));
                  s.session == Some(user) && s.defaultActive && s.signals == [PrepareUserLogin(user)])
            && (initialUser.None? && cfg.autoLogin && cfg.defaultUser.None? ==> s.session.None?)
            && (initialUser.None? && !cfg.autoLogin ==> s == EMPTY)
  {
    hide DefaultUser;
  }

  /** The first n virtual seats. */
  ghost function VirtualSeats(cfg: Config, initialUser: Option<string>, outside: seq<Outside>, n: nat): Seats
    requires GoodConfig(cfg) && n <= |outside|
  {
    if n == 0 then map[]
    else VirtualSeats(cfg, initialUser, outside, n - 1)
         [VirtualSeat(n - 1) := NewSeat(cfg, initialUser, VirtualSeat(n - 1), outside[n - 1])]
  }

  lemma {:induction false} VirtualSeatsKept(cfg: Config, initialUser: Option<string>, outside: seq<Outside>, n: nat)
    requires GoodConfig(cfg) && n <= |outside|
    ensures AllKept(cfg, VirtualSeats(cfg, initialUser, outside, n))
  {
    hide NewSeat, VirtualSeat, Inv;
    if n > 0 {
      VirtualSeatsKept(cfg, initialUser, outside, n - 1);
      NewSeatKept(cfg, initialUser, VirtualSeat(n - 1), outside[n - 1]);
    }
  }

  lemma NewSeatKept(cfg: Config, initialUser: Option<string>, id: string, o: Outside)
    requires GoodConfig(cfg)
    ensures Inv(cfg, NewSeat(cfg, initialUser, id, o))
  {
    RunKeeps(cfg, id, []);
    CreateKeeps(cfg, id, EMPTY, Login(None, initialUser, None, None), o);
  }

  lemma SeatsApart(n: nat, m: nat)
    requires VirtualSeat(n) == VirtualSeat(m)
    ensures n == m
  {
    VirtualSeatNumber(n);
    VirtualSeatNumber(m);
  }

  /** No virtual seat takes the place of another. */
  lemma {:induction false} VirtualSeatsHold(cfg: Config, initialUser: Option<string>, outside: seq<Outside>, n: nat, i: nat)
    requires GoodConfig(cfg) && i < n <= |outside|
    ensures VirtualSeat(i) in VirtualSeats(cfg, initialUser, outside, n)
    ensures VirtualSeats(cfg, initialUser, outside, n)[VirtualSeat(i)] == NewSeat(cfg, initialUser, VirtualSeat(i), outside[i])
    decreases n
  {
    hide NewSeat, VirtualSeat;
    if i < n - 1 {
      VirtualSeatsHold(cfg, initialUser, outside, n - 1, i);
      if VirtualSeat(i) == VirtualSeat(n - 1) {
        SeatsApart(i, n - 1);
      }
    }
  }

  /**
    With auto-login and one template for all, any two virtual seats that could start their sessions hold sessions of
    different users if and only if the template mentions the seat.
  */
  lemma DistinctOccupants(cfg: Config, outside: seq<Outside>, i: nat, j: nat)
    requires GoodConfig(cfg) && cfg.autoLogin && cfg.defaultUser.Some? && i < |outside| && j < |outside| && i != j
    requires Serves(outside[i]) && Serves(outside[j])
    ensures var seats := VirtualSeats(cfg, None, outside, |outside|);
            && VirtualSeat(i) in seats && VirtualSeat(j) in seats
            && seats[VirtualSeat(i)].session.Some? && seats[VirtualSeat(j)].session.Some?
            && (seats[VirtualSeat(i)].session != seats[VirtualSeat(j)].session <==> MentionsSeat(cfg.defaultUser.value))
  {
    hide CreateSession, VirtualSeats, DefaultUser, MentionsSeat, VirtualSeat;
    VirtualSeatsHold(cfg, None, outside, |outside|, i);
    VirtualSeatsHold(cfg, None, outside, |outside|, j);
    FirstDefault(cfg, VirtualSeat(i), outside[i]);
    FirstDefault(cfg, VirtualSeat(j), outside[j]);
    DistinctDefaultUsers(cfg.defaultUser.value, i, j);
  }

  /**
    Otherwise a seat may be asked more often: with an occupied and an empty seat, when the iterator comes to the occupied
    one first.  Its end then emits "manager-stopped" twice.
  */
  lemma AskedTwice(cfg: Config, occupied: Seat, empty: Seat, i: nat, o: Outside)
    requires GoodConfig(cfg) && occupied.session.Some? && empty.session.None? && occupied.hooks == 0
    requires i + 1 == LifeCount(occupied.life, Began)
    ensures var start, picks := LoopStart(map["seat0" := occupied, "seat1" := empty], []), ["seat0", "seat1", "seat0"];
            var l := Iterated(start, picks);
            && Possible(start, picks) && l.ahead == {} && l.seats == map["seat0" := AskedTimes(occupied, 2)]
            && forall n: nat ::
                 Happens(cfg, Table(l.seats, l.letGo, n), InTable("seat0", FromRemote(i, SessionTerminated, o))).stopped == n + 2
  {
    hide LifeCount, Happens, Visit, AskedTimes;
    var start := LoopStart(map["seat0" := occupied, "seat1" := empty], []);
    assert "seat0"[4] != "seat1"[4];
    assert start.ahead == {"seat0", "seat1"};
    AskedNever(occupied);
    AskedNever(empty);
    var l1 := Loop(map["seat0" := AskedTimes(occupied, 1), "seat1" := empty], [], {"seat1"}, true);
    VisitIs(occupied, 0, start, "seat0");
    assert Visit(start, "seat0") == l1;
    var l2 := Loop(map["seat0" := AskedTimes(occupied, 1)], [("seat1", AskedTimes(empty, 1))], {"seat0"}, true);
    VisitIs(empty, 0, l1, "seat1");
    assert Visit(l1, "seat1") == l2;
    var l3 := Loop(map["seat0" := AskedTimes(occupied, 2)], [("seat1", AskedTimes(empty, 1))], {}, true);
    VisitIs(occupied, 1, l2, "seat0");
    assert Visit(l2, "seat0") == l3;
    AskedSame(occupied, 2);
    ThreePicks(start, "seat0", "seat1", "seat0");
    LastSeatEnds(cfg, AskedTimes(occupied, 2), l3.letGo, i, o);
  }

  /** The occupied seats that never hear the end of a live session. */
  ghost function Staying(cfg: Config, v: Seats, hs: seq<Happening>): set<string>
    requires GoodConfig(cfg)
  {
    set k | k in Occupied(v) && !Leaves(cfg, k, AskedTimes(v[k], 1), EventsOf(hs, k))
  }

  lemma AskedMore(s: Seat, n: nat)
    requires n > 0
    ensures AskedTimes(s, n) == AskedTimes(s, 1).(hooks := s.hooks + n) && AskedTimes(s, 1).hooks > 0
  {
  }

  lemma AskedAreHooked(v: Seats, now: Seats, picks: seq<string>, most: int)
    requires now.Keys <= v.Keys
    requires forall k :: k in now ==> AskedOften(v[k], now[k], multiset(picks)[k], most)
    ensures forall k :: k in now ==> now[k].hooks > 0
  {
    hide AskedTimes;
    forall k | k in now ensures now[k].hooks > 0 {
      assert AskedOften(v[k], now[k], multiset(picks)[k], most);
      AskedMore(v[k], multiset(picks)[k]);
    }
  }

  lemma DrainStays(cfg: Config, v: Seats, t: Table, picks: seq<string>, most: int, hs: seq<Happening>)
    requires GoodConfig(cfg) && AllHooked(t) && Apart(t.seats, t.letGo) && t.seats.Keys == Occupied(v)
    requires forall k :: k in t.seats ==> AskedOften(v[k], t.seats[k], multiset(picks)[k], most)
    ensures AllHappen(cfg, t, hs).seats.Keys == Staying(cfg, v, hs)
  {
    hide AllHappen, AllHooked, Apart, AskedTimes, Leaves, RunFrom, EventsOf;
    AllHappenKeeps(cfg, t, hs);
    forall k | k in t.seats
      ensures k in AllHappen(cfg, t, hs).seats <==> !Leaves(cfg, k, AskedTimes(v[k], 1), EventsOf(hs, k)) {
      assert AskedOften(v[k], t.seats[k], multiset(picks)[k], most);
      SeatLeavesIff(cfg, t, hs, k);
      AskedMore(v[k], multiset(picks)[k]);
      LeavesHooks(cfg, k, AskedTimes(v[k], 1), v[k].hooks + multiset(picks)[k], EventsOf(hs, k));
    }
  }
}
