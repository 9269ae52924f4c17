/**
 * DateTimeEx: rounding a DateTime to the nearest whole second.  A DateTime is
 * its tick count (100 ns units since 0001-01-01); the Year..Second constructor
 * keeps the whole seconds and drops the rest.
 */
module DateTimeEx {
  import opened DataModels

  const TicksPerMillisecond: int := 10_000
  const HalfSecond: int := 500 * TicksPerMillisecond

  /** DateTime.Millisecond: the millisecond within the second. */
  function Millisecond(time: nat): (ms: int)
    ensures 0 <= ms < 1000
  {
    (time % TicksPerSecond) / TicksPerMillisecond
  }

  /** The same date and time with the sub-second part dropped. */
  function WholeSeconds(time: nat): (r: nat)
    ensures r <= time < r + TicksPerSecond && r % TicksPerSecond == 0
  {
    time - time % TicksPerSecond
  }

  function RoundToSeconds(time: nat): (r: nat)
    ensures r % TicksPerSecond == 0
    ensures time - HalfSecond < r <= time + HalfSecond
    ensures Millisecond(time) < 500 ==> r <= time
    ensures Millisecond(time) >= 500 ==> time < r
  {
    var rounded := WholeSeconds(time);
    if Millisecond(time) >= 500 then rounded + TicksPerSecond else rounded
  }

  /** Rounding an already rounded time returns it unchanged. */
  lemma RoundToSecondsIdempotent(time: nat)
    ensures RoundToSeconds(RoundToSeconds(time)) == RoundToSeconds(time)
  {
    var r := RoundToSeconds(time);
    assert r % TicksPerSecond == 0;
    assert Millisecond(r) == 0;
  }
}
