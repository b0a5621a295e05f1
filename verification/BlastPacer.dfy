/** The packet pacer: it spreads payload over time at a given rate and forgives at most a
    quarter of a second of lateness. Times are whole nanoseconds, as the clock counts them;
    the floating-point duration of a payload is a parameter. */
module BlastPacer {
  import opened Arithmetic

  const MaxScheduleDebt: int := 250_000_000

  datatype Call = Call(now: int, bytes: nat, rate: int)

  /** How long a payload takes at a rate in Mbps, by some way of rounding. */
  type Pace = (nat, int) -> nat

  /** No duration is rounded down by more than `slack` nanoseconds: at `rate` Mbps a byte
      takes 8000 / `rate` nanoseconds. */
  ghost predicate Rounds(pace: Pace, slack: nat) {
    forall bytes: nat, rate: int :: 0 < rate && 0 < bytes ==> (pace(bytes, rate) + slack) * rate >= bytes * 8000
  }

  function PaceDuration(pace: Pace, bytes: nat, rate: int): nat {
    if rate <= 0 || bytes == 0 then 0 else pace(bytes, rate)
  }

  function Schedule(pace: Pace, next: int, c: Call): int {
    if c.rate <= 0 || c.bytes == 0 then next
    else (if c.now - next > MaxScheduleDebt then c.now else next) + PaceDuration(pace, c.bytes, c.rate)
  }

  /** When the schedule ends after a list of calls. */
  function After(pace: Pace, next: int, calls: seq<Call>): int {
    if |calls| == 0 then next else Schedule(pace, After(pace, next, calls[..|calls| - 1]), calls[|calls| - 1])
  }

  function TotalDuration(pace: Pace, calls: seq<Call>): nat {
    if |calls| == 0 then 0
    else
      TotalDuration(pace, calls[..|calls| - 1]) + PaceDuration(pace, calls[|calls| - 1].bytes, calls[|calls| - 1].rate)
  }

  function TotalBytes(calls: seq<Call>): nat {
    if |calls| == 0 then 0 else TotalBytes(calls[..|calls| - 1]) + calls[|calls| - 1].bytes
  }

  /** Cutting off the fraction of a nanosecond loses less than one. */
  lemma TruncationRounds(pace: Pace)
    requires forall bytes: nat, rate: int :: 0 < rate ==> pace(bytes, rate) == bytes * 8000 / rate
    ensures Rounds(pace, 1)
  {
    forall bytes: nat, rate: int | 0 < rate && 0 < bytes
      ensures (pace(bytes, rate) + 1) * rate >= bytes * 8000
    {
      var q, r := bytes * 8000 / rate, bytes * 8000 % rate;
      assert bytes * 8000 == q * rate + r;
      assert (q + 1) * rate == q * rate + rate;
    }
  }

  /** A call never gives up more than the debt, and never moves the schedule back. */
  lemma ScheduleBounds(pace: Pace, next: int, c: Call)
    requires 0 < c.rate && 0 < c.bytes
    ensures Schedule(pace, next, c) >= c.now - MaxScheduleDebt + PaceDuration(pace, c.bytes, c.rate)
    ensures Schedule(pace, next, c) >= next + PaceDuration(pace, c.bytes, c.rate)
  {
  }

  /** From the first call of any stretch on, the schedule runs at least as long as the
      payload takes, less the debt. */
  lemma {:induction false} ScheduleIsLongEnough(pace: Pace, next: int, calls: seq<Call>)
    requires 0 < |calls| && forall k :: 0 <= k < |calls| ==> 0 < calls[k].rate && 0 < calls[k].bytes
    ensures After(pace, next, calls) >= calls[0].now - MaxScheduleDebt + TotalDuration(pace, calls)
  {
    var last := |calls| - 1;
    hide Schedule, PaceDuration;
    ScheduleBounds(pace, After(pace, next, calls[..last]), calls[last]);
    if last > 0 {
      ScheduleIsLongEnough(pace, next, calls[..last]);
    } else {
      assert TotalDuration(pace, calls[..last]) == 0;
    }
  }

  /** The durations of a list of calls fall short by at most the slack of every call. */
  lemma {:induction false} DurationOfBytes(pace: Pace, slack: nat, calls: seq<Call>, rate: int)
    requires Rounds(pace, slack) && 0 < rate
    requires forall k :: 0 <= k < |calls| ==> calls[k].rate == rate && 0 < calls[k].bytes
    ensures (TotalDuration(pace, calls) + slack * |calls|) * rate >= TotalBytes(calls) * 8000
  {
    if |calls| > 0 {
      var last := |calls| - 1;
      DurationOfBytes(pace, slack, calls[..last], rate);
      var d := pace(calls[last].bytes, rate);
      assert (d + slack) * rate >= calls[last].bytes * 8000;
      Shares(TotalDuration(pace, calls[..last]), slack, last, d, rate);
    }
  }

  lemma Shares(total: nat, slack: nat, n: nat, d: nat, rate: int)
    ensures (total + d + slack * (n + 1)) * rate == (total + slack * n) * rate + (d + slack) * rate
  {
    assert slack * (n + 1) == slack * n + slack;
  }

  /** A sender that waits out its schedule never sends more, over any stretch of time, than
      its rate allows for that time, a quarter of a second, and the rounding of every call. */
  lemma RateIsKept(pace: Pace, slack: nat, next: int, calls: seq<Call>, rate: int, end: int)
    requires Rounds(pace, slack) && 0 < rate && 0 < |calls|
    requires forall k :: 0 <= k < |calls| ==> calls[k].rate == rate && 0 < calls[k].bytes
    requires end >= After(pace, next, calls)
    ensures TotalBytes(calls) * 8000 <= (end - calls[0].now + MaxScheduleDebt + slack * |calls|) * rate
  {
    ScheduleIsLongEnough(pace, next, calls);
    DurationOfBytes(pace, slack, calls, rate);
    Ordered(TotalDuration(pace, calls) + slack * |calls|, end - calls[0].now + MaxScheduleDebt + slack * |calls|, rate);
  }

  class Pacer {
    const pace: Pace
    var next: int

    constructor (pace: Pace, now: int)
      ensures next == now && this.pace == pace
    {
      next, this.pace := now, pace;
    }

    /** How long to sleep before the payload is sent. */
    method SchedulePayload(c: Call) returns (sleepFor: int)
      modifies this
      ensures next == Schedule(pace, old(next), c)
      ensures sleepFor == if c.rate <= 0 || c.bytes == 0 then 0 else next - c.now
      ensures sleepFor + MaxScheduleDebt >= PaceDuration(pace, c.bytes, c.rate)
    {
      if c.rate <= 0 || c.bytes == 0 {
        return 0;
      }
      if c.now - next > MaxScheduleDebt {
        next := c.now;
      }
      next := next + PaceDuration(pace, c.bytes, c.rate);
      return next - c.now;
    }
  }
}
