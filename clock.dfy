// The sample clock: the engine's only time source is the count of samples
// rendered so far, converted to seconds at a fixed sample rate.

module Clock {

  /** Samples per second. */
  const SAMPLE_FREQ: int := 48000

  /** Seconds elapsed after `sampleCount` samples. */
  function GetTime(sampleCount: int): (t: real)
    ensures t * SAMPLE_FREQ as real == sampleCount as real
    ensures 0 <= sampleCount ==> 0.0 <= t
  {
    sampleCount as real / SAMPLE_FREQ as real
  }

  /** The time of the sample `sampleOffset` positions after the current one. */
  function GetTimeSampleOffset(sampleCount: int, sampleOffset: int): (t: real)
    ensures t * SAMPLE_FREQ as real == (sampleCount + sampleOffset) as real
    ensures 0 <= sampleOffset ==> GetTime(sampleCount) <= t
    ensures 0 < sampleOffset ==> GetTime(sampleCount) < t
  {
    (sampleCount + sampleOffset) as real / SAMPLE_FREQ as real
  }

  /** The clock is strictly monotone: later samples have later times, and two
    * sample counts give the same time only when they are equal. */
  lemma GetTimeMonotone(c1: int, c2: int)
    ensures c1 < c2 <==> GetTime(c1) < GetTime(c2)
    ensures c1 == c2 <==> GetTime(c1) == GetTime(c2)
  {
    var t1, t2 := GetTime(c1), GetTime(c2);
    assert (t2 - t1) * SAMPLE_FREQ as real == (c2 - c1) as real;
  }

  /** Within a block, a later sample has a strictly later time, and two
    * offsets give the same time only when they are equal. */
  lemma GetTimeSampleOffsetMonotone(sampleCount: int, o1: int, o2: int)
    ensures o1 < o2 <==> GetTimeSampleOffset(sampleCount, o1) < GetTimeSampleOffset(sampleCount, o2)
    ensures o1 == o2 <==> GetTimeSampleOffset(sampleCount, o1) == GetTimeSampleOffset(sampleCount, o2)
  {
    var t1, t2 := GetTimeSampleOffset(sampleCount, o1), GetTimeSampleOffset(sampleCount, o2);
    assert (t2 - t1) * SAMPLE_FREQ as real == (o2 - o1) as real;
  }
}
