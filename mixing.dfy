// What one audio block holds: the sum over the queued commands of each
// command's contribution, and which queued commands survive the pruning that
// follows the block.

module Mixing {
  import opened Envelope
  import opened Queues

  /** One stereo sample frame. */
  datatype Frame = Frame(left: real, right: real)

  /** The fixed per-voice gain. */
  const GAIN: real := 0.1

  /** What command c adds to the sample at time t: the oscillator's output for
    * its note, shaped by the envelope and scaled by the gain. The oscillator
    * stands for sin(TAU * 440 * 2^(note/12) * t). */
  function Contribution(osc: (int, real) -> real, env: Adsr, c: Command, t: real): real
  {
    osc(c.note, t) * ComputeAmplitude(env, c, t) * GAIN
  }

  /** The sample at time t: contributions of the queued commands, added in queue
    * order. */
  function Mix(osc: (int, real) -> real, env: Adsr, q: seq<int>, table: seq<Command>, t: real): (r: real)
    requires ValidIndices(q, |table|)
    ensures q == [] ==> r == 0.0
    ensures |q| == 1 ==> r == Contribution(osc, env, table[q[0]], t)
  {
    if q == [] then 0.0
    else Mix(osc, env, q[..|q| - 1], table, t) + Contribution(osc, env, table[q[|q| - 1]], t)
  }

  /** The queue entries whose command is still playing at time t, in queue
    * order. */
  function Playing(env: Adsr, q: seq<int>, table: seq<Command>, t: real): (r: seq<int>)
    requires ValidIndices(q, |table|)
    ensures ValidIndices(r, |table|) && |r| <= |q|
  {
    if q == [] then []
    else
      var last := q[|q| - 1];
      Playing(env, q[..|q| - 1], table, t) + if IsPlaying(env, table[last], t) then [last] else []
  }

  /** Timestamps as the engine records them: the press is no later than now and
    * a finite release lies between the press and now. */
  predicate ConsistentAt(c: Command, now: real)
  {
    c.pressedTime <= now &&
    (c.releasedTime.Finite? ==> c.pressedTime <= c.releasedTime.at <= now)
  }

  // ---------------------------------------------------------------------------
  // Properties of mixing

  /** Mixing is additive over a split of the queue: the block of two groups of
    * voices is the sum of their separate blocks. */
  lemma {:induction false} MixAppend(osc: (int, real) -> real, env: Adsr, q1: seq<int>, q2: seq<int>,
                                     table: seq<Command>, t: real)
    requires ValidIndices(q1, |table|) && ValidIndices(q2, |table|)
    ensures ValidIndices(q1 + q2, |table|)
    ensures Mix(osc, env, q1 + q2, table, t) == Mix(osc, env, q1, table, t) + Mix(osc, env, q2, table, t)
  {
    var q := q1 + q2;
    if q2 != [] {
      assert q[..|q| - 1] == q1 + q2[..|q2| - 1];
      assert q[|q| - 1] == q2[|q2| - 1];
      MixAppend(osc, env, q1, q2[..|q2| - 1], table, t);
    } else {
      assert q == q1;
    }
  }

  /** Mixing one more queue entry adds exactly that entry's contribution. */
  lemma MixPush(osc: (int, real) -> real, env: Adsr, q: seq<int>, x: int, table: seq<Command>, t: real)
    requires ValidIndices(q, |table|) && 0 <= x < |table|
    ensures ValidIndices(q + [x], |table|)
    ensures Mix(osc, env, q + [x], table, t) == Mix(osc, env, q, table, t) + Contribution(osc, env, table[x], t)
  {
    assert (q + [x])[..|q|] == q;
  }

  /** Voices whose envelope is 0 at t add nothing to the sample at t. */
  lemma {:induction false} MixOfSilent(osc: (int, real) -> real, env: Adsr, q: seq<int>, table: seq<Command>, t: real)
    requires ValidIndices(q, |table|)
    requires forall i :: 0 <= i < |q| ==> ComputeAmplitude(env, table[q[i]], t) == 0.0
    ensures Mix(osc, env, q, table, t) == 0.0
  {
    if q != [] {
      MixOfSilent(osc, env, q[..|q| - 1], table, t);
    }
  }

  // ---------------------------------------------------------------------------
  // Properties of pruning

  /** The pruned queue holds exactly the queued commands playing at t. */
  lemma {:induction false} PlayingMembers(env: Adsr, q: seq<int>, table: seq<Command>, t: real, x: int)
    requires ValidIndices(q, |table|)
    ensures x in Playing(env, q, table, t) <==> x in q && 0 <= x < |table| && IsPlaying(env, table[x], t)
  {
    if q != [] {
      var init, last := q[..|q| - 1], q[|q| - 1];
      PlayingMembers(env, init, table, t, x);
      assert q == init + [last];
    }
  }

  /** Pruning keeps the entries distinct. */
  lemma {:induction false} PlayingDistinct(env: Adsr, q: seq<int>, table: seq<Command>, t: real)
    requires ValidIndices(q, |table|) && Distinct(q)
    ensures Distinct(Playing(env, q, table, t))
  {
    if q != [] {
      var init, last := q[..|q| - 1], q[|q| - 1];
      PlayingDistinct(env, init, table, t);
      PlayingMembers(env, init, table, t, last);
      assert q == init + [last];
    }
  }

  /** Pruning twice at the same time removes nothing more. */
  lemma {:induction false} PlayingIdempotent(env: Adsr, q: seq<int>, table: seq<Command>, t: real)
    requires ValidIndices(q, |table|)
    ensures Playing(env, Playing(env, q, table, t), table, t) == Playing(env, q, table, t)
  {
    if q != [] {
      var init, last := q[..|q| - 1], q[|q| - 1];
      var p := Playing(env, init, table, t);
      PlayingIdempotent(env, init, table, t);
      if IsPlaying(env, table[last], t) {
        var pq := p + [last];
        assert pq[..|pq| - 1] == p;
      } else {
        assert p + [] == p;
      }
    }
  }

  /** Pruning at time t loses no sound: for commands whose timestamps are
    * consistent at t, and an envelope whose release outlasts attack plus decay,
    * the pruned queue mixes to the same sample as the full one at t and at
    * every later time. */
  lemma {:induction false} PruneKeepsMix(osc: (int, real) -> real, env: Adsr, q: seq<int>, table: seq<Command>,
                                         t: real, u: real)
    requires WellFormed(env) && env.attack + env.decay <= env.release
    requires ValidIndices(q, |table|)
    requires forall i :: 0 <= i < |q| ==> ConsistentAt(table[q[i]], t)
    requires t <= u
    ensures Mix(osc, env, Playing(env, q, table, t), table, u) == Mix(osc, env, q, table, u)
  {
    if q != [] {
      var init, last := q[..|q| - 1], q[|q| - 1];
      var p := Playing(env, init, table, t);
      PruneKeepsMix(osc, env, init, table, t, u);
      if IsPlaying(env, table[last], t) {
        var pq := p + [last];
        assert pq[..|pq| - 1] == p;
      } else {
        assert ConsistentAt(table[last], t);
        StoppedIsSilent(env, table[last], t);
        assert ComputeAmplitude(env, table[last], u) == 0.0;
        assert p + [] == p;
      }
    }
  }

  /** Extending the decided prefix by one entry extends the pruned prefix by
    * that entry exactly when it is playing. */
  lemma PlayingSnoc(env: Adsr, orig: seq<int>, table: seq<Command>, t: real, k: nat)
    requires ValidIndices(orig, |table|) && k < |orig|
    ensures Playing(env, orig[..k + 1], table, t) ==
              Playing(env, orig[..k], table, t) + if IsPlaying(env, table[orig[k]], t) then [orig[k]] else []
  {
    assert orig[..k + 1][..k] == orig[..k];
  }

  /** A step of the in-place pruning scan over the original queue orig, with
    * the first k entries decided, that keeps orig[k]: the boundary moves past
    * it. */
  lemma PruneKeep(env: Adsr, orig: seq<int>, table: seq<Command>, t: real, k: nat, queue: seq<int>)
    requires ValidIndices(orig, |table|) && k < |orig| && IsPlaying(env, table[orig[k]], t)
    requires queue == Playing(env, orig[..k], table, t) + orig[k..]
    ensures queue == Playing(env, orig[..k + 1], table, t) + orig[k + 1..]
    ensures |Playing(env, orig[..k + 1], table, t)| == |Playing(env, orig[..k], table, t)| + 1
  {
    PlayingSnoc(env, orig, table, t, k);
    assert orig[k..] == [orig[k]] + orig[k + 1..];
  }

  /** A step of the scan that removes orig[k], which is not playing: since it
    * occurs nowhere earlier, the removal cuts out exactly that entry and the
    * scan position stays where it was. */
  lemma PruneRemove(env: Adsr, orig: seq<int>, table: seq<Command>, t: real, k: nat, queue: seq<int>)
    requires ValidIndices(orig, |table|) && Distinct(orig) && k < |orig| && !IsPlaying(env, table[orig[k]], t)
    requires queue == Playing(env, orig[..k], table, t) + orig[k..]
    ensures Removed(queue, orig[k]) == Playing(env, orig[..k + 1], table, t) + orig[k + 1..]
    ensures |Playing(env, orig[..k + 1], table, t)| == |Playing(env, orig[..k], table, t)|
  {
    var done, x, rest := Playing(env, orig[..k], table, t), orig[k], orig[k + 1..];
    PlayingSnoc(env, orig, table, t, k);
    PlayingMembers(env, orig[..k], table, t, x);
    assert orig[k..] == [x] + rest;
    assert queue == done + [x] + rest;
    RemovedAfter(done, x, rest);
    assert done + [] == done;
  }

  /** The queue after the first k steps of the in-place pruning scan over
    * orig: each step examines the next original entry and removes it from
    * the queue when it is not playing at t. */
  function PruneScan(env: Adsr, orig: seq<int>, table: seq<Command>, t: real, k: nat): (r: seq<int>)
    requires ValidIndices(orig, |table|) && k <= |orig|
    ensures |orig| - k <= |r| <= |orig|
  {
    if k == 0 then orig
    else
      var before := PruneScan(env, orig, table, t, k - 1);
      if IsPlaying(env, table[orig[k - 1]], t) then before else Removed(before, orig[k - 1])
  }

  /** After k steps the scan has pruned the first k original entries and not
    * yet touched the rest. */
  lemma {:induction false} PruneScanState(env: Adsr, orig: seq<int>, table: seq<Command>, t: real, k: nat)
    requires ValidIndices(orig, |table|) && Distinct(orig) && k <= |orig|
    ensures PruneScan(env, orig, table, t, k) == Playing(env, orig[..k], table, t) + orig[k..]
  {
    if k == 0 {
      assert orig[..0] == [] && orig[0..] == orig;
    } else {
      PruneScanState(env, orig, table, t, k - 1);
      PruneScanStep(env, orig, table, t, k - 1, PruneScan(env, orig, table, t, k - 1));
    }
  }

  /** The inductive step: one more scan step keeps the prefix/suffix shape. */
  lemma PruneScanStep(env: Adsr, orig: seq<int>, table: seq<Command>, t: real, k: nat, before: seq<int>)
    requires ValidIndices(orig, |table|) && Distinct(orig) && k < |orig|
    requires before == PruneScan(env, orig, table, t, k)
    requires before == Playing(env, orig[..k], table, t) + orig[k..]
    ensures PruneScan(env, orig, table, t, k + 1) == Playing(env, orig[..k + 1], table, t) + orig[k + 1..]
  {
    if IsPlaying(env, table[orig[k]], t) {
      PruneKeep(env, orig, table, t, k, before);
    } else {
      PruneRemove(env, orig, table, t, k, before);
    }
  }

  /** The complete scan, which steps back after every removal, prunes exactly
    * the entries that are not playing: no entry is skipped. */
  lemma PruneScanComplete(env: Adsr, orig: seq<int>, table: seq<Command>, t: real)
    requires ValidIndices(orig, |table|) && Distinct(orig)
    ensures PruneScan(env, orig, table, t, |orig|) == Playing(env, orig, table, t)
  {
    PruneScanState(env, orig, table, t, |orig|);
    assert orig[..|orig|] == orig;
    assert orig[|orig|..] == [];
    assert Playing(env, orig, table, t) + [] == Playing(env, orig, table, t);
  }

  /** After pruning at t, every remaining entry is playing at t, and every
    * removed entry whose timestamps are consistent at t is silent from t on
    * (for an envelope whose release outlasts attack plus decay). */
  lemma PlayingOutcome(env: Adsr, orig: seq<int>, table: seq<Command>, t: real, pruned: seq<int>)
    requires WellFormed(env) && env.attack + env.decay <= env.release
    requires ValidIndices(orig, |table|)
    requires forall i :: 0 <= i < |table| ==> ConsistentAt(table[i], t)
    requires pruned == Playing(env, orig, table, t)
    ensures forall x :: x in pruned ==> 0 <= x < |table| && IsPlaying(env, table[x], t)
    ensures forall x :: x in orig && x !in pruned ==> 0 <= x < |table| && SilentFrom(env, table[x], t)
  {
    forall x | x in pruned
      ensures 0 <= x < |table| && IsPlaying(env, table[x], t)
    {
      PlayingMembers(env, orig, table, t, x);
    }
    forall x | x in orig && x !in pruned
      ensures 0 <= x < |table| && SilentFrom(env, table[x], t)
    {
      PlayingMembers(env, orig, table, t, x);
      StoppedIsSilent(env, table[x], t);
    }
  }
}
