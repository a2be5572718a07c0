/** src/daemon/tlm-manager.c: the loop of tlm_manager_stop, on values. */
module StopLoop {
  import opened Wrappers
  import opened Relogin
  import opened UserName
  import opened SessionRemote
  import opened SeatSpec
  import opened SeatProofs

  type Seats = map<string, Seat>

  ghost predicate AllKept(cfg: Config, seats: Seats) {
    forall k :: k in seats ==> Inv(cfg, seats[k])
  }

  /** No seat let go bears the name of one in the table. */
  ghost predicate Apart(seats: Seats, letGo: seq<(string, Seat)>) {
    forall i :: 0 <= i < |letGo| ==> letGo[i].0 !in seats
  }

  /** The seats with a live session. */
  ghost function Occupied(v: Seats): set<string> {
    set k | k in v && v[k].session.Some?
  }

  /** One more shutdown handler is connected. */
  function Hooked(s: Seat): Seat {
    s.(hooks := s.hooks + 1)
  }

  /** Where the loop stands: the table, the seats let go, those the iterator has ahead, and whether a seat will be late. */
  datatype Loop = Loop(seats: Seats, letGo: seq<(string, Seat)>, ahead: set<string>, delayed: bool)

  function LoopStart(v: Seats, letGo: seq<(string, Seat)>): Loop {
    Loop(v, letGo, v.Keys, false)
  }

  function Visit(l: Loop, key: string): Loop {
    if key !in l.seats then l else
    var (told, ok) := TerminateSession(Hooked(l.seats[key]));
    if ok then Loop(l.seats[key := told], l.letGo, l.ahead - {key}, true)
    else Loop(l.seats - {key}, l.letGo + [(key, told)], l.seats.Keys - {key}, l.delayed)
  }

  function Iterated(start: Loop, picks: seq<string>): Loop {
    if picks == [] then start else Visit(Iterated(start, picks[..|picks| - 1]), picks[|picks| - 1])
  }

  /** The iterator, whose order is nobody's to choose, may come to the seats in this order. */
  ghost predicate Possible(start: Loop, picks: seq<string>) {
    picks != [] ==>
      && Possible(start, picks[..|picks| - 1])
      && picks[|picks| - 1] in Iterated(start, picks[..|picks| - 1]).ahead
  }

  lemma OneMorePick(start: Loop, picks: seq<string>, key: string)
    requires Possible(start, picks)
    ensures Iterated(start, picks + [key]) == Visit(Iterated(start, picks), key)
    ensures Possible(start, picks + [key]) <==> key in Iterated(start, picks).ahead
  {
    hide Visit;
    assert (picks + [key])[..|picks|] == picks;
  }

  /** A seat after n rounds of connecting the shutdown handler and asking for the end of the session. */
  ghost function AskedTimes(s: Seat, n: nat): Seat {
    if n == 0 then s else TerminateSession(s.(hooks := s.hooks + n)).0
  }

  ghost predicate AskedOften(before: Seat, after: Seat, n: nat, most: int) {
    1 <= n <= most && after == AskedTimes(before, n)
  }

  /** The rounds of the seats in the table: how often they have been picked. */
  ghost predicate AskedAll(v: Seats, now: Seats, rounds: map<string, nat>) {
    && now.Keys == rounds.Keys <= v.Keys
    && forall k :: k in now ==> IsAsked(v[k], rounds[k], now[k])
  }

  ghost predicate IsAsked(before: Seat, n: nat, after: Seat) {
    after == AskedTimes(before, n)
  }

  /** One more round for a seat: a session lives on, and without one the first round fails. */
  lemma AskAgain(s: Seat, n: nat)
    ensures var t := AskedTimes(s, n);
            && TerminateSession(Hooked(t)).1 == s.session.Some?
            && (s.session.Some? || n == 0 ==> TerminateSession(Hooked(t)).0 == AskedTimes(s, n + 1))
  {
  }

  /**
    How far the loop has come: `live` are the seats with a session among `total`, `rounds` counts the rounds of those
    still in the table, `iter` is ahead.  Every removal may cost each remaining seat one more round.
  */
  ghost predicate Progress(live: set<string>, total: nat, rounds: map<string, nat>, iter: set<string>, delayed: bool) {
    && iter <= rounds.Keys && live <= rounds.Keys
    && (delayed ==> live != {})
    && forall k :: k in rounds ==> Visited(k in live, rounds[k], k !in iter, total - |rounds|, delayed)
  }

  ghost predicate Visited(live: bool, rounds: nat, done: bool, gone: int, delayed: bool) {
    && (if done then 1 <= rounds <= gone + 1 else rounds <= gone)
    && (!live ==> rounds == 0)
    && (done ==> live && delayed)
  }

  ghost function NoRounds(v: Seats): map<string, nat> {
    map k | k in v :: 0
  }

  lemma StartProgress(v: Seats)
    ensures Progress(Occupied(v), |v|, NoRounds(v), v.Keys, false) && AskedAll(v, v, NoRounds(v))
  {
    assert NoRounds(v).Keys == v.Keys && |NoRounds(v)| == |v|;
  }

  /** One turn of the loop, whichever way it goes. */
  lemma Turn(live: set<string>, total: nat, rounds: map<string, nat>, iter: set<string>, key: string, delayed: bool)
    requires key !in iter && Progress(live, total, rounds, iter + {key}, delayed)
    ensures key in live ==> Progress(live, total, rounds[key := rounds[key] + 1], iter, true)
    ensures |rounds[key := rounds[key] + 1]| == |rounds| && |rounds - {key}| == |rounds| - 1 && |iter + {key}| == |iter| + 1
    ensures key !in live ==> rounds[key] == 0 && Progress(live, total, rounds - {key}, rounds.Keys - {key}, delayed)
  {
  }

  lemma EndProgress(live: set<string>, total: nat, rounds: map<string, nat>, delayed: bool)
    requires Progress(live, total, rounds, {}, delayed)
    ensures rounds.Keys == live && (delayed <==> live != {})
    ensures forall k :: k in rounds ==> 1 <= rounds[k] <= total - |rounds| + 1
  {
  }

  ghost function Rounds(v: Seats, picks: seq<string>): map<string, nat> {
    if picks == [] then NoRounds(v)
    else
      var before, key := Rounds(v, picks[..|picks| - 1]), picks[|picks| - 1];
      OneMoreRound(key in Occupied(v), before, key)
  }

  /** Seats without a session are let go under their own names. */
  ghost predicate LetGoApart(v: Seats, before: seq<(string, Seat)>, now: seq<(string, Seat)>) {
    && |before| <= |now|
    && forall i :: 0 <= i < |now| ==>
         if i < |before| then now[i] == before[i] else now[i].0 in v && now[i].0 !in Occupied(v)
  }

  /** What holds each time the loop looks at its iterator. */
  lemma {:induction false} LoopKeeps(v: Seats, letGo: seq<(string, Seat)>, picks: seq<string>)
    requires Possible(LoopStart(v, letGo), picks)
    ensures var l, rounds := Iterated(LoopStart(v, letGo), picks), Rounds(v, picks);
            && Progress(Occupied(v), |v|, rounds, l.ahead, l.delayed)
            && AskedAll(v, l.seats, rounds) && LetGoApart(v, letGo, l.letGo)
            && forall k :: k in rounds ==> rounds[k] == multiset(picks)[k]
  {
    hide Visit, Progress, Occupied, AskedAll, LetGoApart;
    if picks == [] {
      StartProgress(v);
      LetGoStart(v, letGo);
    } else {
      var n := |picks| - 1;
      LoopKeeps(v, letGo, picks[..n]);
      assert picks == picks[..n] + [picks[n]];
      VisitProgress(v, Iterated(LoopStart(v, letGo), picks[..n]), Rounds(v, picks[..n]), picks[n]);
      VisitAsked(v, letGo, Iterated(LoopStart(v, letGo), picks[..n]), Rounds(v, picks[..n]), picks[n]);
    }
  }

  lemma LetGoStart(v: Seats, letGo: seq<(string, Seat)>)
    ensures LetGoApart(v, letGo, letGo)
  {
  }

  /** A visit, in terms of the seat as it was. */
  lemma VisitIs(s: Seat, n: nat, l: Loop, key: string)
    requires key in l.seats && l.seats[key] == AskedTimes(s, n) && (s.session.Some? || n == 0)
    ensures Visit(l, key) ==
            if s.session.Some? then Loop(l.seats[key := AskedTimes(s, n + 1)], l.letGo, l.ahead - {key}, true)
            else Loop(l.seats - {key}, l.letGo + [(key, AskedTimes(s, 1))], l.seats.Keys - {key}, l.delayed)
  {
    AskAgain(s, n);
    hide AskedTimes, TerminateSession;
  }

  lemma AskedMoved(v: Seats, now: Seats, rounds: map<string, nat>, key: string)
    requires AskedAll(v, now, rounds) && key in now
    ensures AskedAll(v, now[key := AskedTimes(v[key], rounds[key] + 1)], rounds[key := rounds[key] + 1])
    ensures AskedAll(v, now - {key}, rounds - {key})
  {
    hide AskedTimes;
  }

  lemma LetGoMore(v: Seats, before: seq<(string, Seat)>, now: seq<(string, Seat)>, key: string, s: Seat)
    requires LetGoApart(v, before, now) && key in v && v[key].session.None?
    ensures LetGoApart(v, before, now + [(key, s)])
  {
  }

  function OneMoreRound(live: bool, rounds: map<string, nat>, key: string): map<string, nat> {
    if key !in rounds then rounds else if live then rounds[key := rounds[key] + 1] else rounds - {key}
  }

  lemma VisitProgress(v: Seats, l: Loop, rounds: map<string, nat>, key: string)
    requires Progress(Occupied(v), |v|, rounds, l.ahead, l.delayed) && key in l.ahead
    requires AskedAll(v, l.seats, rounds)
    ensures key in rounds && (key !in Occupied(v) ==> rounds[key] == 0)
    ensures var l' := Visit(l, key);
            Progress(Occupied(v), |v|, OneMoreRound(key in Occupied(v), rounds, key), l'.ahead, l'.delayed)
  {
    hide AskedTimes, Visited, TerminateSession;
    var ahead := l.ahead - {key};
    assert l.ahead == ahead + {key};
    Turn(Occupied(v), |v|, rounds, ahead, key, l.delayed);
    assert IsAsked(v[key], rounds[key], l.seats[key]);
    VisitIs(v[key], rounds[key], l, key);
  }

  lemma VisitAsked(v: Seats, letGo: seq<(string, Seat)>, l: Loop, rounds: map<string, nat>, key: string)
    requires key in rounds && (key !in Occupied(v) ==> rounds[key] == 0)
    requires AskedAll(v, l.seats, rounds) && LetGoApart(v, letGo, l.letGo)
    ensures var l' := Visit(l, key);
            && AskedAll(v, l'.seats, OneMoreRound(key in Occupied(v), rounds, key)) && LetGoApart(v, letGo, l'.letGo)
  {
    hide Visit, AskedTimes, LetGoApart;
    assert IsAsked(v[key], rounds[key], l.seats[key]);
    VisitIs(v[key], rounds[key], l, key);
    AskedMoved(v, l.seats, rounds, key);
    if key !in Occupied(v) {
      LetGoMore(v, letGo, l.letGo, key, AskedTimes(v[key], 1));
    }
  }

  /** What the loop comes to. */
  lemma LoopEnds(v: Seats, letGo: seq<(string, Seat)>, picks: seq<string>)
    requires Possible(LoopStart(v, letGo), picks) && Iterated(LoopStart(v, letGo), picks).ahead == {}
    ensures var l := Iterated(LoopStart(v, letGo), picks);
            && l.seats.Keys == Occupied(v) && (l.delayed <==> l.seats.Keys != {}) && (l.seats.Keys == {} <==> l.seats == map[])
            && LetGoApart(v, letGo, l.letGo)
            && forall k :: k in l.seats ==> AskedOften(v[k], l.seats[k], multiset(picks)[k], |v| - |l.seats| + 1)
  {
    hide Iterated, Rounds, AskedTimes, Occupied;
    var l, rounds := Iterated(LoopStart(v, letGo), picks), Rounds(v, picks);
    LoopKeeps(v, letGo, picks);
    EndProgress(Occupied(v), |v|, rounds, l.delayed);
    assert |l.seats| == |l.seats.Keys| == |rounds|;
    forall k | k in l.seats ensures AskedOften(v[k], l.seats[k], multiset(picks)[k], |v| - |l.seats| + 1) {
      assert IsAsked(v[k], rounds[k], l.seats[k]);
    }
  }

  /** Seat k of v has been let go, hooked and asked once. */
  ghost predicate IsLetGo(v: Seats, now: Seats, letGo: (string, Seat)) {
    letGo.0 in v && letGo.0 !in now && letGo.1 == AskedTimes(v[letGo.0], 1)
  }

  ghost predicate AllLetGo(v: Seats, now: Seats, before: seq<(string, Seat)>, letGo: seq<(string, Seat)>) {
    && |before| <= |letGo| && letGo[..|before|] == before
    && (forall i :: |before| <= i < |letGo| ==> IsLetGo(v, now, letGo[i]))
    && forall k :: k in v && k !in now ==> exists i :: |before| <= i < |letGo| && letGo[i].0 == k
  }

  lemma OneMoreLetGo(v: Seats, now: Seats, before: seq<(string, Seat)>, letGo: seq<(string, Seat)>, key: string,
                     s: Seat)
    requires AllLetGo(v, now, before, letGo) && key in v && key in now
    ensures AllLetGo(v, now - {key}, before, letGo + [(key, AskedTimes(v[key], 1))])
    ensures AllLetGo(v, now[key := s], before, letGo)
  {
    hide AskedTimes;
    var more := letGo + [(key, AskedTimes(v[key], 1))];
    assert more[..|before|] == before;
    forall k | k in v && k !in now - {key} ensures exists i :: |before| <= i < |more| && more[i].0 == k {
      if k == key {
        assert more[|letGo|].0 == k;
      } else {
        var i :| |before| <= i < |letGo| && letGo[i].0 == k;
        assert more[i].0 == k;
      }
    }
    forall i | |before| <= i < |letGo| ensures IsLetGo(v, now[key := s], letGo[i]) {
      assert IsLetGo(v, now, letGo[i]);
    }
  }

  /**
    A seat that leaves the table in the loop is not forgotten: at any time the seats let go are just those missing from
    the table, each hooked and asked to end exactly once.
  */
  lemma {:induction false} NoneForgotten(v: Seats, letGo: seq<(string, Seat)>, picks: seq<string>)
    requires Possible(LoopStart(v, letGo), picks)
    ensures var l := Iterated(LoopStart(v, letGo), picks);
            AllLetGo(v, l.seats, letGo, l.letGo)
  {
    hide Visit, Progress, Occupied, AskedAll, LetGoApart, AllLetGo, AskedTimes;
    if picks == [] {
      assert AllLetGo(v, v, letGo, letGo) by {
        NothingLetGo(v, letGo);
      }
    } else {
      var n := |picks| - 1;
      NoneForgotten(v, letGo, picks[..n]);
      LoopKeeps(v, letGo, picks[..n]);
      var l, rounds, key := Iterated(LoopStart(v, letGo), picks[..n]), Rounds(v, picks[..n]), picks[n];
      VisitProgress(v, l, rounds, key);
      AskedSeat(v, l.seats, rounds, key);
      VisitIs(v[key], rounds[key], l, key);
      OneMoreLetGo(v, l.seats, letGo, l.letGo, key, AskedTimes(v[key], rounds[key] + 1));
    }
  }

  lemma NothingLetGo(v: Seats, letGo: seq<(string, Seat)>)
    ensures AllLetGo(v, v, letGo, letGo)
  {
  }

  lemma AskedSeat(v: Seats, now: Seats, rounds: map<string, nat>, key: string)
    requires AskedAll(v, now, rounds) && key in rounds
    ensures key in v && key in now && now[key] == AskedTimes(v[key], rounds[key])
    ensures key in Occupied(v) <==> v[key].session.Some?
  {
    hide AskedTimes;
    assert IsAsked(v[key], rounds[key], now[key]);
  }

  lemma StopKeeps(cfg: Config, v: Seats, letGo: seq<(string, Seat)>, picks: seq<string>)
    requires Possible(LoopStart(v, letGo), picks) && Iterated(LoopStart(v, letGo), picks).ahead == {}
    requires AllKept(cfg, v) && Apart(v, letGo)
    ensures var l := Iterated(LoopStart(v, letGo), picks);
            AllKept(cfg, l.seats) && Apart(l.seats, l.letGo)
  {
    hide Iterated, AskedTimes, Inv, Possible;
    LoopEnds(v, letGo, picks);
    var l := Iterated(LoopStart(v, letGo), picks);
    forall k | k in l.seats ensures Inv(cfg, l.seats[k]) {
      assert AskedOften(v[k], l.seats[k], multiset(picks)[k], |v| - |l.seats| + 1);
      AskedKeeps(cfg, v[k], multiset(picks)[k]);
    }
  }

  lemma AskedKeeps(cfg: Config, s: Seat, n: nat)
    requires Inv(cfg, s) && n > 0
    ensures Inv(cfg, AskedTimes(s, n))
  {
    hide TerminateSession;
    HooksKeep(cfg, s, n);
    TerminateKeeps(cfg, s.(hooks := s.hooks + n));
  }

  lemma HooksKeep(cfg: Config, s: Seat, n: nat)
    requires Inv(cfg, s)
    ensures Inv(cfg, s.(hooks := s.hooks + n))
  {
  }

  /** When every seat is occupied, each is asked once. */
  lemma AskedOnce(v: Seats, letGo: seq<(string, Seat)>, picks: seq<string>)
    requires Possible(LoopStart(v, letGo), picks) && Iterated(LoopStart(v, letGo), picks).ahead == {}
    requires Occupied(v) == v.Keys
    ensures Iterated(LoopStart(v, letGo), picks).seats == map k | k in v :: AskedTimes(v[k], 1)
  {
    hide Iterated, AskedTimes, Possible;
    LoopEnds(v, letGo, picks);
    var l := Iterated(LoopStart(v, letGo), picks);
    assert |l.seats| == |l.seats.Keys| == |v.Keys| == |v|;
    forall k | k in v ensures l.seats[k] == AskedTimes(v[k], 1) {
      assert AskedOften(v[k], l.seats[k], multiset(picks)[k], |v| - |l.seats| + 1);
    }
  }

  lemma AskedNever(s: Seat)
    ensures AskedTimes(s, 0) == s
  {
  }

  lemma AskedSame(s: Seat, n: nat)
    ensures var t := AskedTimes(s, n); t.session == s.session && t.life == s.life && t.hooks == s.hooks + n
  {
  }

  lemma ThreePicks(start: Loop, a: string, b: string, c: string)
    ensures Iterated(start, [a, b, c]) == Visit(Visit(Visit(start, a), b), c)
    ensures Possible(start, [a, b, c]) <==>
            a in start.ahead && b in Visit(start, a).ahead && c in Visit(Visit(start, a), b).ahead
  {
    hide Visit;
    assert [a, b, c][..2] == [a, b] && [a, b][..1] == [a] && [a][..0] == [];
    assert Iterated(start, [a]) == Visit(start, a) && Iterated(start, [a, b]) == Visit(Visit(start, a), b);
    assert Possible(start, []) && (Possible(start, [a]) <==> a in start.ahead);
  }

  /** The iterator has come to its end. */
  ghost predicate Completed(v: Seats, letGo: seq<(string, Seat)>, picks: seq<string>) {
    Possible(LoopStart(v, letGo), picks) && Iterated(LoopStart(v, letGo), picks).ahead == {}
  }

  lemma VisitShrinks(l: Loop, key: string)
    requires key in l.ahead && l.ahead <= l.seats.Keys
    ensures var l' := Visit(l, key);
            && l'.ahead <= l'.seats.Keys
            && (|l'.seats| < |l.seats| || (|l'.seats| == |l.seats| && |l'.ahead| < |l.ahead|))
  {
    hide TerminateSession;
    var told := TerminateSession(Hooked(l.seats[key])).0;
    assert l.seats[key := told].Keys == l.seats.Keys && (l.seats - {key}).Keys == l.seats.Keys - {key};
    assert |l.seats[key := told]| == |l.seats| && |l.seats - {key}| == |l.seats.Keys - {key}| < |l.seats|;
  }

  /** Whatever the iterator has come to so far, it comes to its end. */
  lemma {:induction false} Completes(start: Loop, picks: seq<string>) returns (all: seq<string>)
    requires Possible(start, picks) && Iterated(start, picks).ahead <= Iterated(start, picks).seats.Keys
    ensures picks <= all && Possible(start, all) && Iterated(start, all).ahead == {}
    decreases |Iterated(start, picks).seats|, |Iterated(start, picks).ahead|
  {
    hide Visit, Iterated, Possible;
    all := picks;
    if Iterated(start, picks).ahead != {} {
      var key :| key in Iterated(start, picks).ahead;
      OneMorePick(start, picks, key);
      VisitShrinks(Iterated(start, picks), key);
      all := Completes(start, picks + [key]);
    }
  }

  /** The empty seat is still ahead after the occupied one, and then the iterator starts over. */
  lemma AskedBeforeEmpty(l: Loop, a: string, b: string)
    requires a in l.ahead && b in l.ahead && l.ahead <= l.seats.Keys
    requires l.seats[a].session.Some? && l.seats[b].session.None?
    ensures b in Visit(l, a).ahead && a in Visit(Visit(l, a), b).ahead
  {
    AskAgain(l.seats[a], 0);
    AskAgain(l.seats[b], 0);
    AskedNever(l.seats[a]);
    AskedNever(l.seats[b]);
    hide TerminateSession, AskedTimes;
  }

  /** With an occupied seat and an empty one there is an order in which the occupied one is asked more than once. */
  lemma AskedAgain(v: Seats, letGo: seq<(string, Seat)>, a: string, b: string) returns (picks: seq<string>)
    requires a in Occupied(v) && b in v && b !in Occupied(v)
    ensures Completed(v, letGo, picks) && multiset(picks)[a] >= 2
  {
    hide Visit, Iterated, Possible;
    var start := LoopStart(v, letGo);
    ThreePicks(start, a, b, a);
    AskedBeforeEmpty(start, a, b);
    VisitShrinks(start, a);
    VisitShrinks(Visit(start, a), b);
    VisitShrinks(Visit(Visit(start, a), b), a);
    picks := Completes(start, [a, b, a]);
    assert picks == [a, b, a] + picks[3..];
  }

  ghost predicate AlwaysOnce(v: Seats, letGo: seq<(string, Seat)>) {
    forall picks, a :: Completed(v, letGo, picks) && a in Occupied(v) ==> multiset(picks)[a] == 1
  }

  /** Every occupied seat is asked exactly once in every order if and only if all seats are occupied, or none is. */
  lemma AskedOnceIff(v: Seats, letGo: seq<(string, Seat)>)
    ensures AlwaysOnce(v, letGo) <==> Occupied(v) == {} || Occupied(v) == v.Keys
  {
    hide Iterated, Possible, AskedTimes;
    if Occupied(v) == v.Keys {
      forall picks, a | Completed(v, letGo, picks) && a in Occupied(v) ensures multiset(picks)[a] == 1 {
        LoopEnds(v, letGo, picks);
        var l := Iterated(LoopStart(v, letGo), picks);
        assert |l.seats| == |l.seats.Keys| == |v.Keys| == |v|;
        assert AskedOften(v[a], l.seats[a], multiset(picks)[a], |v| - |l.seats| + 1);
      }
    } else if a :| a in Occupied(v) {
      var b :| b in v && b !in Occupied(v);
      var picks := AskedAgain(v, letGo, a, b);
    }
  }
}
