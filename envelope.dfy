// The ADSR envelope generator: amplitude of one command as a function of its
// press and release timestamps and the query time, and the interval during
// which the command counts as playing.

module Envelope {

  /** A release timestamp in seconds; `Infinite` while the key is held down. */
  datatype Stamp = Finite(at: real) | Infinite

  /** t < s, with every real below +infinity. */
  predicate Before(t: real, s: Stamp)
  {
    match s
    case Finite(x) => t < x
    case Infinite => true
  }

  /** s + d, with +infinity absorbing. */
  function Plus(s: Stamp, d: real): Stamp
  {
    match s
    case Finite(x) => Finite(x + d)
    case Infinite => Infinite
  }

  /** One entry of the command table: a note and its two timestamps. */
  datatype Command = Command(note: int, pressedTime: real, releasedTime: Stamp)

  /** Peak amplitude, attack/decay/release durations and sustain level. */
  datatype Adsr = Adsr(amax: real, attack: real, decay: real, sustain: real, release: real)

  /** The envelope the synthesizer is configured with. */
  const DEFAULT_ADSR := Adsr(1.0, 0.01, 0.1, 0.9, 0.5)

  /** Positive durations and a sustain level between 0 and the peak. */
  predicate WellFormed(env: Adsr)
  {
    env.attack > 0.0 && env.decay > 0.0 && env.release > 0.0 &&
    0.0 <= env.sustain <= env.amax
  }

  /** The five ordered branches of the envelope; 0 when none applies. Each
    * division is reached only when its divisor is positive. With a
    * well-formed configuration the amplitude lies in [0, amax]. */
  function ComputeAmplitude(env: Adsr, c: Command, t: real): (a: real)
    ensures WellFormed(env) ==> 0.0 <= a <= env.amax
  {
    var p := c.pressedTime;
    if t < p then
      0.0
    else if t < p + env.attack then
      RisingWithin(t - p, env.attack, env.amax);
      (t - p) / env.attack * env.amax
    else if t < p + env.attack + env.decay then
      FallingWithin(t - (p + env.attack), env.decay, env.amax - env.sustain);
      (1.0 - (t - (p + env.attack)) / env.decay) * (env.amax - env.sustain) + env.sustain
    else if Before(t, c.releasedTime) then
      env.sustain
    else if Before(t, Plus(c.releasedTime, env.release)) then
      FallingWithin(t - c.releasedTime.at, env.release, env.sustain);
      env.sustain * (1.0 - (t - c.releasedTime.at) / env.release)
    else
      0.0
  }

  /** The command sounds from its press until the release tail has ended:
    * for ever once pressed while the key is held, and up to release plus
    * the release time once it is let go. */
  predicate IsPlaying(env: Adsr, c: Command, t: real): (playing: bool)
    ensures playing ==> c.pressedTime <= t
    ensures c.releasedTime.Infinite? ==> (playing <==> c.pressedTime <= t)
    ensures c.releasedTime.Finite? ==>
            (playing <==> c.pressedTime <= t < c.releasedTime.at + env.release)
  {
    c.pressedTime <= t && Before(t, Plus(c.releasedTime, env.release))
  }

  /** The command is silent at t and at every later time. */
  ghost predicate SilentFrom(env: Adsr, c: Command, t: real)
  {
    forall u :: t <= u ==> ComputeAmplitude(env, c, u) == 0.0
  }

  // ---------------------------------------------------------------------------
  // Properties of the envelope

  /** 0 <= f <= 1 and m >= 0 bound f * m to [0, m]. */
  lemma ScaleWithin(f: real, m: real)
    requires 0.0 <= f <= 1.0 && 0.0 <= m
    ensures 0.0 <= f * m <= m
  {
    assert m - f * m == (1.0 - f) * m;
  }

  /** 0 <= x <= d and d > 0 put x / d in [0, 1]. */
  lemma RatioWithin(x: real, d: real)
    requires 0.0 <= x <= d && 0.0 < d
    ensures 0.0 <= x / d <= 1.0
  {
    assert x / d * d == x;
  }

  /** x into a phase of positive length d: the rising fraction of a level
    * m >= 0 lies in [0, m]. */
  lemma RisingWithin(x: real, d: real, m: real)
    ensures 0.0 <= x <= d && 0.0 < d && 0.0 <= m ==> 0.0 <= x / d * m <= m
  {
    if 0.0 <= x <= d && 0.0 < d && 0.0 <= m {
      RatioWithin(x, d);
      ScaleWithin(x / d, m);
    }
  }

  /** x into a phase of positive length d: the falling fraction of a level
    * m >= 0 lies in [0, m]. */
  lemma FallingWithin(x: real, d: real, m: real)
    ensures 0.0 <= x <= d && 0.0 < d && 0.0 <= m ==>
            0.0 <= (1.0 - x / d) * m <= m && m * (1.0 - x / d) == (1.0 - x / d) * m
  {
    if 0.0 <= x <= d && 0.0 < d && 0.0 <= m {
      RatioWithin(x, d);
      ScaleWithin(1.0 - x / d, m);
    }
  }

  /** Zero before the press, at the press instant (the attack ramp starts at 0),
    * and once both the decay and the release tail are over. */
  lemma AmplitudeZeroCases(env: Adsr, c: Command, t: real)
    requires WellFormed(env)
    ensures t <= c.pressedTime ==> ComputeAmplitude(env, c, t) == 0.0
    ensures c.pressedTime + env.attack + env.decay <= t && !Before(t, Plus(c.releasedTime, env.release))
            ==> ComputeAmplitude(env, c, t) == 0.0
  {
  }

  /** The attack ends at the peak and the decay ends at the sustain level,
    * which then holds until the release. */
  lemma AmplitudeShape(env: Adsr, c: Command, t: real)
    requires WellFormed(env)
    ensures ComputeAmplitude(env, c, c.pressedTime + env.attack) == env.amax
    ensures c.pressedTime + env.attack + env.decay <= t && Before(t, c.releasedTime)
            ==> ComputeAmplitude(env, c, t) == env.sustain
  {
    var p := c.pressedTime;
    assert (p + env.attack - (p + env.attack)) / env.decay == 0.0;
  }

  /** During the attack the amplitude rises strictly (for a positive peak). */
  lemma AttackIncreasing(env: Adsr, c: Command, t1: real, t2: real)
    requires WellFormed(env) && env.amax > 0.0
    requires c.pressedTime <= t1 < t2 < c.pressedTime + env.attack
    ensures ComputeAmplitude(env, c, t1) < ComputeAmplitude(env, c, t2)
  {
    var p := c.pressedTime;
    var a1, a2 := ComputeAmplitude(env, c, t1), ComputeAmplitude(env, c, t2);
    assert a2 - a1 == (t2 - t1) / env.attack * env.amax;
    assert (t2 - t1) / env.attack > 0.0;
  }

  /** Once released and past the decay, the amplitude starts at most at the
    * sustain level and never rises again; it is exactly 0 from the end of the
    * release tail on. */
  lemma ReleaseNonIncreasing(env: Adsr, c: Command, t1: real, t2: real)
    requires WellFormed(env) && c.releasedTime.Finite?
    requires c.pressedTime + env.attack + env.decay <= t1 && c.releasedTime.at <= t1 <= t2
    ensures ComputeAmplitude(env, c, t2) <= ComputeAmplitude(env, c, t1) <= env.sustain
    ensures c.releasedTime.at + env.release <= t2 ==> ComputeAmplitude(env, c, t2) == 0.0
  {
    var r := c.releasedTime.at;
    if t1 < r + env.release {
      RatioWithin(t1 - r, env.release);
      ScaleWithin(1.0 - (t1 - r) / env.release, env.sustain);
      if t2 < r + env.release {
        var a1, a2 := ComputeAmplitude(env, c, t1), ComputeAmplitude(env, c, t2);
        assert a1 - a2 == env.sustain * ((t2 - t1) / env.release);
        assert (t2 - t1) / env.release >= 0.0;
      }
    }
  }

  /** A command released no earlier than it was pressed, with a release tail
    * that outlasts attack plus decay, is silent whenever it is not playing at or
    * after its press: pruning it loses no sound, now or later. */
  lemma StoppedIsSilent(env: Adsr, c: Command, t: real)
    requires WellFormed(env) && env.attack + env.decay <= env.release
    requires c.releasedTime.Finite? ==> c.pressedTime <= c.releasedTime.at
    requires c.pressedTime <= t && !IsPlaying(env, c, t)
    ensures SilentFrom(env, c, t)
  {
    forall u | t <= u
      ensures ComputeAmplitude(env, c, u) == 0.0
    {
      ReleaseNonIncreasing(env, c, c.releasedTime.at + env.release, u);
    }
  }

  /** Under the same conditions, a non-zero amplitude means the command is
    * playing. */
  lemma AudibleIsPlaying(env: Adsr, c: Command, t: real)
    requires WellFormed(env) && env.attack + env.decay <= env.release
    requires c.releasedTime.Finite? ==> c.pressedTime <= c.releasedTime.at
    ensures ComputeAmplitude(env, c, t) != 0.0 ==> IsPlaying(env, c, t)
  {
    if c.pressedTime <= t && !IsPlaying(env, c, t) {
      StoppedIsSilent(env, c, t);
    }
  }
}
