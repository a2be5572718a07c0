/**
  The throttle on session creation (src/daemon/tlm-seat.c, tlm_seat_create_session): an attempt less than a second after
  the previous one belongs to the same run of attempts, and a run gets its first three through.  Each attempt reads the
  monotonic clock twice, in microseconds: once to compare and once to remember.
*/
module Relogin {
  const SECOND := 1_000_000
  const LIMIT := 3

  datatype Clock = Clock(read: int, reread: int)
  datatype Throttle = Throttle(prevTime: int, prevCount: int)

  const FRESH := Throttle(0, 0)

  function Attempt(t: Throttle, c: Clock): Throttle {
    if c.read - t.prevTime < SECOND then Throttle(c.reread, t.prevCount + 1) else Throttle(c.reread, 1)
  }

  function Admits(t: Throttle, c: Clock): bool {
    Attempt(t, c).prevCount <= LIMIT
  }

  /** The state after some attempts. */
  function After(attempts: seq<Clock>): Throttle {
    if attempts == [] then FRESH else Attempt(After(attempts[..|attempts| - 1]), attempts[|attempts| - 1])
  }

  function Admitted(attempts: seq<Clock>, k: nat): bool
    requires k < |attempts|
  {
    Admits(After(attempts[..k]), attempts[k])
  }

  /** How many of the attempts i, .., j - 1 are let through at once. */
  function Admissions(attempts: seq<Clock>, i: nat, j: nat): nat
    requires i <= j <= |attempts|
  {
    if i == j then 0 else Admissions(attempts, i, j - 1) + if Admitted(attempts, j - 1) then 1 else 0
  }

  /** The clock does not go backwards. */
  ghost predicate Monotonic(attempts: seq<Clock>) {
    forall k :: 0 <= k < |attempts| ==> Onwards(attempts, k)
  }

  ghost predicate Onwards(attempts: seq<Clock>, k: nat)
    requires k < |attempts|
  {
    0 <= attempts[k].read <= attempts[k].reread && (k > 0 ==> attempts[k - 1].reread <= attempts[k].read)
  }

  /** Attempt k came less than a second after the one before. */
  predicate Short(attempts: seq<Clock>, k: int) {
    0 < k < |attempts| && attempts[k].read - attempts[k - 1].reread < 1_000_000
  }

  lemma AfterStep(attempts: seq<Clock>, k: nat)
    requires k < |attempts|
    ensures After(attempts[..k + 1]) == Attempt(After(attempts[..k]), attempts[k])
    ensures After(attempts[..k + 1]).prevTime == attempts[k].reread && After(attempts[..k + 1]).prevCount >= 1
  {
    assert attempts[..k + 1][..k] == attempts[..k];
    CountPositive(attempts[..k]);
  }

  lemma {:induction false} CountPositive(attempts: seq<Clock>)
    ensures After(attempts).prevCount >= 0
  {
    if attempts != [] {
      CountPositive(attempts[..|attempts| - 1]);
    }
  }

  lemma AdmissionsPrefix(attempts: seq<Clock>, c: Clock, i: nat, j: nat)
    requires i <= j <= |attempts|
    ensures Admissions(attempts + [c], i, j) == Admissions(attempts, i, j)
  {
    if i < j {
      assert (attempts + [c])[..j - 1] == attempts[..j - 1];
      AdmissionsPrefix(attempts, c, i, j - 1);
    }
  }

  /** One more attempt. */
  lemma OneMoreAttempt(attempts: seq<Clock>, c: Clock)
    ensures After(attempts + [c]) == Attempt(After(attempts), c)
    ensures Admissions(attempts + [c], 0, |attempts| + 1) ==
            Admissions(attempts, 0, |attempts|) + if Admits(After(attempts), c) then 1 else 0
  {
    assert (attempts + [c])[..|attempts|] == attempts;
    AdmissionsPrefix(attempts, c, 0, |attempts|);
  }

  /** The counter is the length of the run of short gaps that ends with the last attempt. */
  lemma RunLength(attempts: seq<Clock>, k: nat)
    requires k < |attempts|
    ensures k == 0 || !Short(attempts, k) ==> After(attempts[..k + 1]).prevCount == 1
    ensures Short(attempts, k) ==> After(attempts[..k + 1]).prevCount == After(attempts[..k]).prevCount + 1
  {
    AfterStep(attempts, k);
    if k > 0 {
      AfterStep(attempts, k - 1);
    } else {
      assert attempts[..0] == [];
    }
  }

  /** Attempt k is deferred exactly when the three gaps before it are all under a second. */
  lemma DeferredIff(attempts: seq<Clock>, k: nat)
    requires k < |attempts|
    ensures !Admitted(attempts, k) <==> Short(attempts, k) && Short(attempts, k - 1) && Short(attempts, k - 2)
  {
    AfterStep(attempts, k);
    RunLength(attempts, k);
    if k >= 1 {
      AfterStep(attempts, k - 1);
      RunLength(attempts, k - 1);
    }
    if k >= 2 {
      AfterStep(attempts, k - 2);
      RunLength(attempts, k - 2);
    }
    if k >= 3 {
      AfterStep(attempts, k - 3);
    }
  }

  function Room(t: Throttle): (r: nat)
    ensures r <= LIMIT
  {
    if 0 <= t.prevCount < LIMIT then LIMIT - t.prevCount else 0
  }

  /** What an attempt takes: its own admission is paid from the room, and a new run costs a whole second. */
  lemma RoomStep(t: Throttle, c: Clock)
    requires t.prevCount >= 0
    ensures var paid := Room(Attempt(t, c)) + if Admits(t, c) then 1 else 0;
            paid <= if c.read - t.prevTime < SECOND then Room(t) else LIMIT
  {
  }

  lemma WholeSeconds(before: int, now: int)
    requires before <= now
    ensures before / SECOND <= now / SECOND
    ensures before + SECOND <= now ==> before / SECOND + 1 <= now / SECOND
  {
  }

  /** The clock has not gone back since the attempt before. */
  lemma ClockOnward(attempts: seq<Clock>, k: nat)
    requires Monotonic(attempts) && 0 < k < |attempts|
    ensures attempts[k - 1].read <= After(attempts[..k]).prevTime <= attempts[k].read
  {
    AfterStep(attempts, k - 1);
    assert Onwards(attempts, k) && Onwards(attempts, k - 1);
  }

  /** The amount let through and the room left in the present run are paid for by the seconds gone by. */
  lemma {:induction false} Budget(attempts: seq<Clock>, i: nat, j: nat)
    requires Monotonic(attempts) && i < j <= |attempts|
    ensures attempts[i].read <= attempts[j - 1].read
    ensures Admissions(attempts, i, j) + Room(After(attempts[..j])) <=
            LIMIT * ((attempts[j - 1].read - attempts[i].read) / SECOND) + LIMIT
    decreases j
  {
    hide Admits, Attempt, Room, Monotonic, After;
    var t, c := After(attempts[..j - 1]), attempts[j - 1];
    AfterStep(attempts, j - 1);
    CountPositive(attempts[..j - 1]);
    RoomStep(t, c);
    if j == i + 1 {
      assert Admissions(attempts, i, i) == 0;
      assert attempts[i].read - attempts[i].read == 0;
    } else {
      Budget(attempts, i, j - 1);
      ClockOnward(attempts, j - 1);
      WholeSeconds(attempts[j - 2].read - attempts[i].read, c.read - attempts[i].read);
    }
  }

  /** In any window of `window` microseconds at most 3 * (window / 1 s + 1) attempts are let through at once. */
  lemma WindowBound(attempts: seq<Clock>, i: nat, j: nat, window: int)
    requires Monotonic(attempts) && i < j <= |attempts|
    requires attempts[j - 1].read - attempts[i].read <= window
    ensures Admissions(attempts, i, j) <= LIMIT * (window / SECOND + 1)
  {
    Budget(attempts, i, j);
  }

  /** The bound, for every window of a history of attempts. */
  ghost predicate RateBounded(attempts: seq<Clock>) {
    forall i, j :: 0 <= i < j <= |attempts| ==>
      Admissions(attempts, i, j) <= LIMIT * ((attempts[j - 1].read - attempts[i].read) / SECOND + 1)
  }

  lemma MonotonicRateBounded(attempts: seq<Clock>)
    requires Monotonic(attempts)
    ensures RateBounded(attempts)
  {
    forall i, j | 0 <= i < j <= |attempts|
      ensures Admissions(attempts, i, j) <= LIMIT * ((attempts[j - 1].read - attempts[i].read) / SECOND + 1) {
      WindowBound(attempts, i, j, attempts[j - 1].read - attempts[i].read);
    }
  }
}
