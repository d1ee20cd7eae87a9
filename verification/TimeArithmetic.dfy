/** `struct timespec` arithmetic. `Total` is the reference meaning: a time as a number of nanoseconds. */
module TimeArithmetic {

  const NSEC := 1_000_000_000

  datatype Timespec = Timespec(sec: int, nsec: int)

  /** What `clock_gettime` delivers. */
  predicate Normalized(t: Timespec) {
    0 <= t.nsec < NSEC
  }

  function Total(t: Timespec): int {
    t.sec * NSEC + t.nsec
  }

  /** C++ integer division truncates towards zero. */
  function TruncDiv(a: int, b: int): int
    requires b > 0
  {
    if a >= 0 then a / b else -(-a / b)
  }

  function TruncMod(a: int, b: int): int
    requires b > 0
  {
    a - b * TruncDiv(a, b)
  }

  /** One carry at most, and none at exactly one second. */
  function Carry(t: Timespec): Timespec {
    if t.nsec > NSEC then Timespec(t.sec + 1, t.nsec - NSEC) else t
  }

  function AddMs(t: Timespec, ms: int): Timespec {
    Carry(Timespec(t.sec + TruncDiv(ms, 1000), t.nsec + TruncMod(ms, 1000) * 1_000_000))
  }

  function AddNs(t: Timespec, ns: int): Timespec {
    Carry(Timespec(t.sec, t.nsec + ns))
  }

  /** `time_cmp`: 1, 0 or -1. */
  function Compare(a: Timespec, b: Timespec): int {
    if a.sec > b.sec then 1
    else if a.sec < b.sec then -1
    else if a.nsec > b.nsec then 1
    else if a.nsec < b.nsec then -1
    else 0
  }

  predicate Expired(now: Timespec, deadline: Timespec) {
    Compare(now, deadline) == 1
  }

  /** The struct behind the pointer that the adding functions update. */
  class TimespecCell {
    var tv_sec: int
    var tv_nsec: int

    function Value(): Timespec
      reads this
    {
      Timespec(tv_sec, tv_nsec)
    }

    constructor (t: Timespec)
      ensures Value() == t
    {
      tv_sec, tv_nsec := t.sec, t.nsec;
    }

    method TimeCopy(src: TimespecCell)
      modifies this
      ensures Value() == old(src.Value())
    {
      tv_sec := src.tv_sec;
      tv_nsec := src.tv_nsec;
    }

    method TimeAddMs(ms: int)
      modifies this
      ensures Value() == AddMs(old(Value()), ms)
      ensures Total(Value()) == old(Total(Value())) + ms * 1_000_000
    {
      AddMsIsExact(Value(), ms);
      tv_sec := tv_sec + TruncDiv(ms, 1000);
      tv_nsec := tv_nsec + TruncMod(ms, 1000) * 1_000_000;
      if tv_nsec > NSEC {
        tv_nsec := tv_nsec - NSEC;
        tv_sec := tv_sec + 1;
      }
    }

    method TimeAddNs(ns: int)
      modifies this
      ensures Value() == AddNs(old(Value()), ns)
      ensures Total(Value()) == old(Total(Value())) + ns
    {
      tv_nsec := tv_nsec + ns;
      if tv_nsec > NSEC {
        tv_nsec := tv_nsec - NSEC;
        tv_sec := tv_sec + 1;
      }
    }
  }

  /** Adding milliseconds moves the total by exactly that amount, whatever the operands. */
  lemma AddMsIsExact(t: Timespec, ms: int)
    ensures Total(AddMs(t, ms)) == Total(t) + ms * 1_000_000
  {
    var q := TruncDiv(ms, 1000);
    assert TruncMod(ms, 1000) == ms - 1000 * q;
  }

  /** A non-negative interval leaves `nsec` in the closed range, one past normal exactly when the parts meet. */
  lemma AddMsRange(t: Timespec, ms: nat)
    requires Normalized(t)
    ensures 0 <= AddMs(t, ms).nsec <= NSEC
    ensures Normalized(AddMs(t, ms)) <==> t.nsec + ms % 1000 * 1_000_000 != NSEC
  {
    assert TruncMod(ms, 1000) == ms % 1000;
  }

  /** A whole number of seconds never touches the nanoseconds, so deadlines of that kind stay normalized. */
  lemma WholeSeconds(t: Timespec, ms: nat)
    requires Normalized(t) && ms % 1000 == 0
    ensures AddMs(t, ms) == Timespec(t.sec + ms / 1000, t.nsec)
    ensures Normalized(AddMs(t, ms))
  {
    assert TruncMod(ms, 1000) == 0;
  }

  /** The nanosecond variant carries once only: the range is kept exactly up to two seconds' worth. */
  lemma AddNsRange(t: Timespec, ns: int)
    ensures Total(AddNs(t, ns)) == Total(t) + ns
    ensures 0 <= AddNs(t, ns).nsec <= NSEC <==> 0 <= t.nsec + ns <= 2 * NSEC
  {
  }

  lemma {:induction false} SecondsDominate(a: Timespec, b: Timespec)
    requires a.sec > b.sec && 0 <= a.nsec && b.nsec <= NSEC
    ensures Total(a) >= Total(b)
    ensures Total(a) == Total(b) ==> b.nsec == NSEC && a.nsec == 0
  {
    assert a.sec * NSEC >= (b.sec + 1) * NSEC;
  }

  /**
   * Comparing a clock reading with a deadline follows nanosecond order in both directions; the
   * single exception is exact equality with a deadline left one past normal, which reads as later.
   */
  lemma CompareFollowsTotal(now: Timespec, deadline: Timespec)
    requires Normalized(now) && 0 <= deadline.nsec <= NSEC
    ensures Expired(now, deadline) <==>
            Total(now) > Total(deadline) || (Total(now) == Total(deadline) && deadline.nsec == NSEC)
    ensures Compare(now, deadline) == -1 <==> Total(now) < Total(deadline)
    ensures Compare(now, deadline) == 0 <==> Total(now) == Total(deadline) && deadline.nsec != NSEC
  {
    if now.sec > deadline.sec {
      SecondsDominate(now, deadline);
    } else if now.sec < deadline.sec {
      SecondsDominate(deadline, now);
    }
  }
}
