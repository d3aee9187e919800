/**
  The time left for pselect, from a monotonic clock in seconds and nanoseconds.
 */
module SubprocessTimeout {
  import opened Options

  const NSEC_PER_SEC := 1_000_000_000

  datatype Timespec = Timespec(sec: int, nsec: int)
  {
    function Nanoseconds(): int { sec * NSEC_PER_SEC + nsec }

    predicate Normal() { 0 <= nsec < NSEC_PER_SEC }
  }

  /** The value that stands for no limit at all. */
  const NO_TIMEOUT := Timespec(0, 0)

  /** C's division and remainder, which truncate toward zero. */
  function Quotient(a: int, b: int): int
    requires b > 0
  {
    if a >= 0 then a / b else -((-a) / b)
  }

  function Remainder(a: int, b: int): int
    requires b > 0
  {
    a - Quotient(a, b) * b
  }

  method AddToNow(now: Timespec, timeout: Option<Timespec>) returns (sum: Timespec)
    requires now.Normal() && (timeout.Some? ==> timeout.value.Normal())
    ensures timeout.None? ==> sum == NO_TIMEOUT
    ensures timeout.Some? ==> sum.Normal() && sum.Nanoseconds() == now.Nanoseconds() + timeout.value.Nanoseconds()
  {
    if timeout.None? {
      return NO_TIMEOUT;
    }
    var b := timeout.value;
    var nsec := now.nsec + b.nsec;
    sum := Timespec(now.sec + b.sec + Quotient(nsec, NSEC_PER_SEC), Remainder(nsec, NSEC_PER_SEC));
  }

  /** PselectTimeout: the limit is fixed when the object is made, the rest is computed for every pselect. */
  class PselectTimeout {
    const maxTime: Timespec
    var rest: Timespec

    constructor (now: Timespec, timeout: Option<Timespec>)
      requires now.Normal() && (timeout.Some? ==> timeout.value.Normal())
      ensures timeout.None? ==> maxTime == NO_TIMEOUT
      ensures timeout.Some? ==>
        maxTime.Normal() && maxTime.Nanoseconds() == now.Nanoseconds() + timeout.value.Nanoseconds()
      ensures maxTime.Normal()
    {
      var sum := AddToNow(now, timeout);
      maxTime := sum;
      rest := NO_TIMEOUT;
    }

    /** What is left until the limit, never negative; no limit exactly if the limit is the reserved value. */
    method TimeToLimit(now: Timespec) returns (r: Option<Timespec>)
      requires now.Normal() && maxTime.Normal()
      modifies this
      ensures r.None? <==> maxTime == NO_TIMEOUT
      ensures r.Some? ==> r.value.Normal() && r.value.Nanoseconds() == Left(maxTime, now) && rest == r.value
    {
      if maxTime.sec == NO_TIMEOUT.sec && maxTime.nsec == NO_TIMEOUT.nsec {
        return None;
      }
      if maxTime.sec < now.sec || (maxTime.sec == now.sec && maxTime.nsec <= now.nsec) {
        rest := Timespec(0, 0);
      } else {
        var nsec := maxTime.nsec - now.nsec;
        if 0 <= nsec {
          rest := Timespec(maxTime.sec - now.sec, nsec);
        } else {
          rest := Timespec(maxTime.sec - now.sec - 1, nsec + NSEC_PER_SEC);
        }
      }
      r := Some(rest);
    }
  }

  function Left(limit: Timespec, now: Timespec): int {
    if limit.Nanoseconds() <= now.Nanoseconds() then 0 else limit.Nanoseconds() - now.Nanoseconds()
  }

  /** A timeout counted from a clock that does not run below zero is ignored exactly when both are zero. */
  method LimitedFrom(now: Timespec, timeout: Option<Timespec>, later: Timespec) returns (r: Option<Timespec>)
    requires now.Normal() && later.Normal() && (timeout.Some? ==> timeout.value.Normal())
    ensures timeout.None? ==> r.None?
    ensures timeout.Some? ==> (r.None? <==> now.Nanoseconds() == -timeout.value.Nanoseconds())
    ensures timeout.Some? && now.Nanoseconds() >= 0 && timeout.value.Nanoseconds() >= 0 ==>
      (r.None? <==> now == timeout.value == NO_TIMEOUT)
    ensures timeout.Some? && r.Some? ==> r.value.Nanoseconds() == RestOf(now, timeout.value, later)
  {
    var limit := new PselectTimeout(now, timeout);
    r := limit.TimeToLimit(later);
    if timeout.Some? {
      ZeroIsNoTimeout(limit.maxTime);
      ZeroIsNoTimeout(now);
      ZeroIsNoTimeout(timeout.value);
    }
  }

  /** How much of a timeout that started at one time is left at another. */
  function RestOf(start: Timespec, timeout: Timespec, now: Timespec): int {
    var spent := now.Nanoseconds() - start.Nanoseconds();
    if timeout.Nanoseconds() <= spent then 0 else timeout.Nanoseconds() - spent
  }

  lemma ZeroIsNoTimeout(t: Timespec)
    requires t.Normal()
    ensures t.Nanoseconds() == 0 <==> t == NO_TIMEOUT
  {
  }

  /** A zero timeout taken at the origin of the clock: the command may run without limit. */
  method ZeroAtOriginIsIgnored() returns (r: Option<Timespec>)
    ensures r.None?
  {
    r := LimitedFrom(Timespec(0, 0), Some(Timespec(0, 0)), Timespec(0, 1));
  }
}
