// The process-wide monotonic clock that every timed component reads.

module Clocks {

  /** `time.monotonic()` and `asyncio.sleep`. A reading is any time not before the
      previous reading; a sleep returns no earlier than asked. */
  class Clock {
    var now: real

    constructor (t: real)
      ensures now == t
    {
      now := t;
    }

    method Read() returns (t: real)
      modifies this
      ensures old(now) <= t == now
    {
      var elapsed: real := *;
      t := if 0.0 <= elapsed then now + elapsed else now;
      now := t;
    }

    method Sleep(d: real)
      requires 0.0 <= d
      modifies this
      ensures old(now) + d <= now
    {
      var extra: real := *;
      now := now + d + if 0.0 <= extra then extra else 0.0;
    }
  }
}
