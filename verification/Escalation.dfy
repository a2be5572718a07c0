/**
  The signals a terminating session is sent, and what they may cost.  Both the daemon's remote session and the session
  in tlm-sessiond climb the same ladder: SIGHUP at once, then SIGTERM, SIGKILL and an error, one rung per timer tick.
  A terminate call that comes while a ladder is being climbed starts over at SIGHUP and adds a second timer.
*/
module Escalation {
  datatype Sig = NoSig | Hup | Term | Kill

  /** What has been done on behalf of one session so far. */
  datatype Trace = Trace(sent: seq<Sig>, terminates: nat, ticks: nat, errors: nat)

  const NOTHING := Trace([], 0, 0, 0)

  function Next(s: Sig): Sig {
    match s
    case Hup => Term
    case Term => Kill
    case _ => NoSig
  }

  /** Signals still to come if nothing else happens. */
  function Left(s: Sig): nat {
    match s
    case Hup => 2
    case Term => 1
    case _ => 0
  }

  function SentAmong(sent: seq<Sig>, which: set<Sig>): nat {
    if sent == [] then 0
    else SentAmong(sent[..|sent| - 1], which) + if sent[|sent| - 1] in which then 1 else 0
  }

  /** Every ladder starts with SIGHUP and goes up one rung at a time: nothing steps down without a new SIGHUP. */
  ghost predicate Ladder(sent: seq<Sig>) {
    sent == [] ||
    var n := |sent| - 1;
    Ladder(sent[..n]) && (sent[n] == Hup || (n > 0 && sent[n] != NoSig && sent[n] == Next(sent[n - 1])))
  }

  /** The account of a session whose last signal is `last` and which has `live` timers. */
  ghost predicate Balanced(t: Trace, last: Sig, live: nat) {
    && Ladder(t.sent)
    && (last != NoSig ==> t.sent != [] && t.sent[|t.sent| - 1] == last)
    && SentAmong(t.sent, {Hup}) == t.terminates
    && t.ticks + Left(last) + live <= 3 * t.terminates
    && SentAmong(t.sent, {Term, Kill}) + Left(last) <= 2 * t.terminates
    && t.errors + live <= t.terminates
  }

  // ----- The three things that happen -----

  function Terminated(t: Trace): Trace {
    t.(sent := t.sent + [Hup], terminates := t.terminates + 1)
  }

  function Ticked(t: Trace, last: Sig, error: bool): Trace {
    t.(sent := if Next(last) == NoSig then t.sent else t.sent + [Next(last)], ticks := t.ticks + 1,
       errors := t.errors + if error then 1 else 0)
  }

  /** A terminate call raises the potential `Left + live` by at most three. */
  lemma TerminateBalanced(t: Trace, last: Sig, live: nat)
    requires Balanced(t, last, live)
    ensures Balanced(Terminated(t), Hup, live + 1)
  {
  }

  /** A tick lowers it by one: either the last signal goes up a rung, or the timer goes. */
  lemma TickBalanced(t: Trace, last: Sig, live: nat, error: bool)
    requires Balanced(t, last, live) && live > 0
    requires error ==> last == Kill
    ensures Next(last) != NoSig ==> Balanced(Ticked(t, last, error), Next(last), live)
    ensures Next(last) == NoSig ==> Balanced(Ticked(t, last, error), last, live - 1)
  {
  }

  /** A timer that is removed costs nothing. */
  lemma FewerTimers(t: Trace, last: Sig, timers: set<nat>, id: nat)
    requires Balanced(t, last, |timers|) && id in timers
    ensures |timers - {id}| == |timers| - 1
    ensures Balanced(t, last, |timers - {id}|)
  {
  }

  lemma FewerTimersIf(t: Trace, last: Sig, timers: set<nat>, id: nat)
    requires Balanced(t, last, |timers|)
    ensures Balanced(t, last, |timers - {id}|)
  {
  }

  /** A SIGKILL is never sent without a SIGTERM and a SIGHUP right before it. */
  lemma {:induction false} KillComesLast(sent: seq<Sig>, i: nat)
    requires Ladder(sent) && i < |sent|
    ensures sent[i] == Term ==> i >= 1 && sent[i - 1] == Hup
    ensures sent[i] == Kill ==> i >= 2 && sent[i - 1] == Term && sent[i - 2] == Hup
    decreases |sent|
  {
    var n := |sent| - 1;
    if i < n {
      KillComesLast(sent[..n], i);
    } else if sent[i] == Kill {
      KillComesLast(sent[..n], i - 1);
    }
  }
}
