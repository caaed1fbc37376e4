/** Instants are whole microseconds since the epoch. */
module Clock {

  const HOUR: int := 3_600_000_000
  const MAX_TS_AHEAD: int := 300_000_000
  const MAX_TS_ABSURD: int := 86_400_000_000
  const MAX_CONSECUTIVE_DROPS: nat := 3
  const HOUR_QUORUM: nat := 2
  const CLOCK_WITNESS_MARGIN: int := MAX_TS_AHEAD

  /** The hour `ts` falls in. */
  function HourStart(ts: int): (hour: int)
    ensures hour % HOUR == 0
    ensures hour <= ts < hour + HOUR
  {
    ts - ts % HOUR
  }

  /** An aligned instant has been reached exactly when the hour it starts has. */
  lemma HourStartReached(ts: int, hour: int)
    requires hour % HOUR == 0
    ensures HourStart(ts) >= hour <==> ts >= hour
  {
  }

  /** What the steps of one event read of the clock, each when it comes to it: the guard; the oracle, for the witness and
      for the question; the row's own anchor; and the anchor of each held row the event drains, by hour and position. */
  datatype Readings = Readings(guarded: int, observed: int, asked: int, anchored: int, drained: int -> int -> int)

  /** A clock that stands still for the event. */
  function Still(now: int): Readings {
    Readings(now, now, now, now, (hour: int) => (i: int) => now)
  }

  /** The oracle is shown nothing past the window of `bound`. */
  predicate OracleBy(now: Readings, bound: int) {
    now.observed + MAX_TS_AHEAD <= bound && now.asked + MAX_TS_AHEAD <= bound
  }
}
