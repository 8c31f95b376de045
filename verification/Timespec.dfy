/** Deadlines as (seconds, nanoseconds) pairs, updated in place. */
module Timespec {

  const NSEC := 1_000_000_000

  /** What clock_gettime reports. */
  datatype Instant = Instant(sec: int, nsec: int)

  predicate Normal(t: Instant) { 0 <= t.nsec < NSEC }

  function Ns(t: Instant): int { t.sec * NSEC + t.nsec }

  /** The normalised time `ns` nanoseconds from zero. */
  function InstantOf(ns: int): (t: Instant)
    ensures Normal(t) && Ns(t) == ns
  {
    Instant(ns / NSEC, ns % NSEC)
  }

  lemma SignOfSeconds(a: Instant)
    requires Normal(a)
    ensures Ns(a) >= 0 <==> a.sec >= 0
  {
  }

  class Spec {
    var sec: int
    var nsec: int

    constructor (t: Instant)
      ensures Value() == t
    {
      sec, nsec := t.sec, t.nsec;
    }

    function Value(): Instant
      reads this
    {
      Instant(sec, nsec)
    }

    /** __timespec_to_relative_msec: the deadline `msecs` milliseconds from now. */
    method SetDeadline(msecs: nat, now: Instant)
      requires Normal(now)
      modifies this
      ensures Normal(Value()) && Ns(Value()) == Ns(now) + msecs * 1_000_000
    {
      sec, nsec := now.sec, now.nsec;
      sec := sec + msecs / 1000;
      nsec := nsec + msecs % 1000 * 1_000_000;
      if nsec >= NSEC {
        sec := sec + 1;
        nsec := nsec - NSEC;
      }
    }

    /** __timespec_to_absolute: the time left until `abstime`, or -1 if it is past. */
    method SetRemaining(abstime: Spec, now: Instant) returns (status: int)
      requires abstime != this && Normal(abstime.Value()) && Normal(now)
      modifies this
      ensures Normal(Value()) && Ns(Value()) == Ns(abstime.Value()) - Ns(now)
      ensures status == if Ns(now) > Ns(abstime.Value()) then -1 else 0
    {
      sec, nsec := now.sec, now.nsec;
      sec := abstime.sec - sec;
      nsec := abstime.nsec - nsec;
      if nsec < 0 {
        sec := sec - 1;
        nsec := nsec + NSEC;
      }
      SignOfSeconds(Value());
      if nsec < 0 || sec < 0 {
        return -1;
      }
      return 0;
    }
  }

  /**
   A timed wait as the timed lock makes it: a deadline taken at `start`, looked at again at `later`.
   It has expired exactly when more than `msecs` milliseconds have gone by, and otherwise the
   remainder is what is left of them.
   */
  method TimedWait(msecs: nat, start: Instant, later: Instant) returns (expired: bool, left: Instant)
    requires Normal(start) && Normal(later)
    ensures expired <==> Ns(later) - Ns(start) > msecs * 1_000_000
    ensures Normal(left) && Ns(left) == msecs * 1_000_000 - (Ns(later) - Ns(start))
    ensures !expired ==> left.sec >= 0
  {
    var abstime := new Spec(start);
    var ts := new Spec(start);
    abstime.SetDeadline(msecs, start);
    var status := ts.SetRemaining(abstime, later);
    expired, left := status < 0, ts.Value();
    SignOfSeconds(left);
  }

  /** The look at the clock of a timed lock or a condition wait. */
  method IsPast(deadline: int, now: int) returns (past: bool)
    ensures past <==> now > deadline
  {
    var abstime := new Spec(InstantOf(deadline));
    var ts := new Spec(InstantOf(now));
    var status := ts.SetRemaining(abstime, InstantOf(now));
    past := status < 0;
  }
}
