/** The one entity of the application: a chord event on the song's timeline,
    and the facts about lists of them that the player and the page rely on. */
module Chords {

  /** `{ time, chord, duration }`: the chord `chord` sounds from `time`
      seconds for `duration` seconds. */
  datatype ChordEvent = ChordEvent(time: real, chord: string, duration: real)

  /** The playback position `t` lies in the half-open interval
      `[time, time + duration)` of `c`. */
  predicate Contains(c: ChordEvent, t: real) {
    c.time <= t < c.time + c.duration
  }

  /** The labels of a chord list, in order (`chords.map(c => c.chord)`). */
  function Labels(cs: seq<ChordEvent>): (r: seq<string>)
    ensures |r| == |cs| && forall i :: 0 <= i < |cs| ==> r[i] == cs[i].chord
  {
    seq(|cs|, i requires 0 <= i < |cs| => cs[i].chord)
  }

  /** A timeline that starts at 0, has no negative durations and in which
      every chord starts exactly where the previous one ends. */
  predicate Contiguous(cs: seq<ChordEvent>) {
    (|cs| > 0 ==> cs[0].time == 0.0) &&
    (forall i :: 0 <= i < |cs| ==> cs[i].duration >= 0.0) &&
    (forall i :: 0 <= i < |cs| - 1 ==> cs[i + 1].time == cs[i].time + cs[i].duration)
  }

  /** Where a timeline ends: the end of its last chord, or 0 when empty. */
  function End(cs: seq<ChordEvent>): real {
    if cs == [] then 0.0 else cs[|cs| - 1].time + cs[|cs| - 1].duration
  }

  lemma ContiguousPrefix(cs: seq<ChordEvent>, n: nat)
    requires Contiguous(cs) && n <= |cs|
    ensures Contiguous(cs[..n])
  {
  }

  /** In a contiguous timeline a later chord never starts before an earlier
      one ends. */
  lemma {:induction false} LaterStartsAfter(cs: seq<ChordEvent>, i: nat, j: nat)
    requires Contiguous(cs) && i < j < |cs|
    ensures cs[i].time + cs[i].duration <= cs[j].time
    decreases j - i
  {
    if j > i + 1 {
      LaterStartsAfter(cs, i, j - 1);
    }
  }

  /** In a contiguous timeline at most one chord contains any position. */
  lemma AtMostOneActive(cs: seq<ChordEvent>, t: real, i: nat, j: nat)
    requires Contiguous(cs) && i < |cs| && j < |cs|
    requires Contains(cs[i], t) && Contains(cs[j], t)
    ensures i == j
  {
    if i < j {
      LaterStartsAfter(cs, i, j);
    } else if j < i {
      LaterStartsAfter(cs, j, i);
    }
  }

  /** Every chord of a contiguous timeline lies inside `[0, End(cs))`. */
  lemma {:induction false} WithinSpan(cs: seq<ChordEvent>, i: nat)
    requires Contiguous(cs) && i < |cs|
    ensures 0.0 <= cs[i].time && cs[i].time + cs[i].duration <= End(cs)
  {
    if i > 0 {
      LaterStartsAfter(cs, 0, i);
    }
    if i < |cs| - 1 {
      LaterStartsAfter(cs, i, |cs| - 1);
    }
  }

  /** A contiguous timeline covers `[0, End(cs))` without gaps: every
      position in it lies in some chord. */
  lemma {:induction false} Covers(cs: seq<ChordEvent>, t: real) returns (k: nat)
    requires Contiguous(cs) && 0.0 <= t < End(cs)
    ensures k < |cs| && Contains(cs[k], t)
    decreases |cs|
  {
    var n := |cs|;
    if t >= cs[n - 1].time {
      k := n - 1;
    } else {
      var front := cs[..n - 1];
      ContiguousPrefix(cs, n - 1);
      assert End(front) == cs[n - 1].time;
      k := Covers(front, t);
    }
  }
}
