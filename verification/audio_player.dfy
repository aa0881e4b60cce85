/** The audio player component: which chord is active at the playback
    position, how positions are shown as `m:ss`, and the player's own state
    (playing flag, position, duration, volume) with the handlers that update it. */
module AudioPlayer {
  import opened Wrappers
  import opened Text
  import opened Chords
  import opened JsNumber
  import opened ClockText

  // ---------------------------------------------------------------------------
  // Active chord (`chords.find(...)`)
  // ---------------------------------------------------------------------------

  /** Index of the first chord, in list order, whose half-open interval
      contains `t`; `None` when no chord does. */
  function FindActiveIndex(cs: seq<ChordEvent>, t: real): (r: Option<nat>)
    ensures r.Some? ==> r.value < |cs| && Contains(cs[r.value], t)
    ensures r.Some? ==> forall j :: 0 <= j < r.value ==> !Contains(cs[j], t)
    ensures r.None? <==> forall j :: 0 <= j < |cs| ==> !Contains(cs[j], t)
  {
    if cs == [] then None
    else if Contains(cs[0], t) then Some(0)
    else match FindActiveIndex(cs[1..], t)
      case None => None
      case Some(k) => Some(k + 1)
  }

  /** `getCurrentChord`: the first chord whose interval contains `t`. */
  function CurrentChord(cs: seq<ChordEvent>, t: real): (r: Option<ChordEvent>)
    ensures r.Some? ==> r.value in cs && r.value.time <= t < r.value.time + r.value.duration
    ensures r.Some? ==> exists k :: 0 <= k < |cs| && cs[k] == r.value &&
                          forall j :: 0 <= j < k ==> !Contains(cs[j], t)
    ensures r.None? <==> forall c :: c in cs ==> !Contains(c, t)
  {
    match FindActiveIndex(cs, t)
    case None => None
    case Some(k) => Some(cs[k])
  }

  /** A chord is never active at its own end time: the interval is half-open,
      so at a boundary the next chord of a contiguous timeline is the active one. */
  lemma EndIsExcluded(cs: seq<ChordEvent>, i: nat)
    requires Contiguous(cs) && i < |cs| - 1 && cs[i + 1].duration > 0.0
    ensures CurrentChord(cs, cs[i].time + cs[i].duration) == Some(cs[i + 1])
  {
    var t := cs[i].time + cs[i].duration;
    var r := FindActiveIndex(cs, t);
    assert Contains(cs[i + 1], t);
    AtMostOneActive(cs, t, r.value, i + 1);
  }

  /** On a contiguous timeline a chord is active exactly while the position
      lies in `[0, End(cs))`, and the active chord is the only one containing it. */
  lemma ActiveIffWithinSpan(cs: seq<ChordEvent>, t: real)
    requires Contiguous(cs)
    ensures CurrentChord(cs, t).Some? <==> 0.0 <= t < End(cs)
    ensures forall k :: 0 <= k < |cs| && Contains(cs[k], t) ==> CurrentChord(cs, t) == Some(cs[k])
  {
    var r := FindActiveIndex(cs, t);
    if 0.0 <= t < End(cs) {
      var k := Covers(cs, t);
    }
    if r.Some? {
      WithinSpan(cs, r.value);
    }
    forall k | 0 <= k < |cs| && Contains(cs[k], t)
      ensures CurrentChord(cs, t) == Some(cs[k])
    {
      AtMostOneActive(cs, t, r.value, k);
    }
  }

  // ---------------------------------------------------------------------------
  // Time formatting (`formatTime`)
  // ---------------------------------------------------------------------------

  /** The minute and second numbers that `formatTime` prints:
      `Math.floor(t / 60)` and `Math.floor(t % 60)`. For a non-negative time
      they are the quotient and remainder of its whole seconds by 60. */
  function ClockParts(t: real): (r: (int, int))
    ensures t >= 0.0 ==> 0 <= r.1 < 60 && r.0 == t.Floor / 60 && r.1 == t.Floor % 60
    ensures t >= 0.0 ==> r.0 * 60 + r.1 == t.Floor
  {
    var minutes := (t / 60.0).Floor;
    var seconds := JsRem(t, 60.0).Floor;
    if t >= 0.0 then
      var rem := t - 60.0 * minutes as real;
      assert 0.0 <= rem < 60.0;
      assert JsRem(t, 60.0) == rem;
      assert t.Floor == minutes * 60 + seconds;
      (minutes, seconds)
    else
      (minutes, seconds)
  }

  /** `formatTime(t)`: minutes, a colon, and seconds padded to two digits. */
  function FormatTime(t: real): string {
    var (minutes, seconds) := ClockParts(t);
    IntToString(minutes) + ":" + PadStart(IntToString(seconds), 2, '0')
  }

  /** For a non-negative time, `formatTime` shows only its whole seconds. */
  lemma FormatTimeWholeSeconds(t: real)
    requires t >= 0.0
    ensures FormatTime(t) == Clock(t.Floor)
  {
    var (m, s) := ClockParts(t);
    assert m >= 0 && s >= 0;
  }

  /** For a non-negative time the player's text reads back as the whole
      minutes and the remaining whole seconds of `t`. */
  lemma FormatTimeReadsBack(t: real)
    requires t >= 0.0
    ensures ParseClock(FormatTime(t)) == Some(ClockReading(t.Floor / 60, t.Floor % 60))
  {
    FormatTimeWholeSeconds(t);
    ParseClockRoundTrip(t.Floor);
  }

  /** Two non-negative times read the same on the player exactly when they
      agree in whole seconds. */
  lemma FormatTimeSameIff(a: real, b: real)
    requires a >= 0.0 && b >= 0.0
    ensures FormatTime(a) == FormatTime(b) <==> a.Floor == b.Floor
  {
    FormatTimeWholeSeconds(a);
    FormatTimeWholeSeconds(b);
    ParseClockRoundTrip(a.Floor);
    ParseClockRoundTrip(b.Floor);
  }

  // ---------------------------------------------------------------------------
  // Player state and handlers
  // ---------------------------------------------------------------------------

  /** The player component's state. `hasElement` says whether the `<audio>`
      element is mounted (`audioRef.current`); `elementTime` and
      `elementVolume` are the two element properties the handlers write. */
  class Player {
    const hasElement: bool
    var isPlaying: bool
    var currentTime: real
    var duration: real
    var volume: seq<real>
    var elementTime: real
    var elementVolume: real

    /** The element only ever holds a volume in [0, 1]; the slider value
        array the state stores is never empty. */
    ghost predicate Valid()
      reads this
    {
      0.0 <= elementVolume <= 1.0 && |volume| > 0
    }

    /** Initial state: paused at 0 of 0 seconds, slider at 80. A fresh
        media element starts at full volume (1.0). */
    constructor (mounted: bool)
      ensures Valid()
      ensures hasElement == mounted
      ensures !isPlaying && currentTime == 0.0 && duration == 0.0 && volume == [80.0]
      ensures elementTime == 0.0 && elementVolume == 1.0
    {
      hasElement := mounted;
      isPlaying := false;
      currentTime := 0.0;
      duration := 0.0;
      volume := [80.0];
      elementTime := 0.0;
      elementVolume := 1.0;
    }

    /** `togglePlayPause`: flips the playing flag; without an element it
        does nothing at all. */
    method TogglePlayPause()
      requires Valid()
      modifies this
      ensures Valid()
      ensures isPlaying == (if hasElement then !old(isPlaying) else old(isPlaying))
      ensures currentTime == old(currentTime) && duration == old(duration)
      ensures volume == old(volume) && elementTime == old(elementTime)
      ensures elementVolume == old(elementVolume)
    {
      if !hasElement {
        return;
      }
      isPlaying := !isPlaying;
    }

    /** `handleSeek(value)`: moves the element and the shown position to
        `value[0]` and touches nothing else. */
    method HandleSeek(value: seq<real>)
      requires Valid() && |value| > 0
      modifies this
      ensures Valid()
      ensures hasElement ==> currentTime == value[0] && elementTime == value[0]
      ensures !hasElement ==> currentTime == old(currentTime) && elementTime == old(elementTime)
      ensures isPlaying == old(isPlaying) && duration == old(duration)
      ensures volume == old(volume) && elementVolume == old(elementVolume)
    {
      if !hasElement {
        return;
      }
      elementTime := value[0];
      currentTime := value[0];
    }

    /** `handleVolumeChange(value)`: sets the element volume to `value[0] / 100`
        and stores the slider value. The element refuses a volume outside
        [0, 1] by throwing, before the state is updated; `accepted` reports
        whether the change took effect. */
    method HandleVolumeChange(value: seq<real>) returns (accepted: bool)
      requires Valid() && |value| > 0
      modifies this
      ensures Valid()
      ensures accepted <==> hasElement && 0.0 <= value[0] <= 100.0
      ensures accepted ==> elementVolume == value[0] / 100.0 && volume == value
      ensures !accepted ==> elementVolume == old(elementVolume) && volume == old(volume)
      ensures isPlaying == old(isPlaying) && currentTime == old(currentTime)
      ensures duration == old(duration) && elementTime == old(elementTime)
    {
      if !hasElement {
        return false;
      }
      var level := value[0] / 100.0;
      if level < 0.0 || level > 1.0 {
        return false;
      }
      elementVolume := level;
      volume := value;
      accepted := true;
    }

    /** The `timeupdate` listener: the shown position follows the element. */
    method OnTimeUpdate(position: real)
      requires Valid()
      modifies this
      ensures Valid()
      ensures elementTime == position && currentTime == position
      ensures isPlaying == old(isPlaying) && duration == old(duration)
      ensures volume == old(volume) && elementVolume == old(elementVolume)
    {
      elementTime := position;
      currentTime := elementTime;
    }

    /** The `loadedmetadata` listener: records the track length. */
    method OnLoadedMetadata(length: real)
      requires Valid()
      modifies this`duration
      ensures Valid()
      ensures duration == length
    {
      duration := length;
    }

    /** The `ended` listener: playback has stopped. */
    method OnEnded()
      requires Valid()
      modifies this`isPlaying
      ensures Valid()
      ensures !isPlaying
    {
      isPlaying := false;
    }

    /** The chord shown in the highlight box for the current position. */
    function ActiveChord(cs: seq<ChordEvent>): (r: Option<ChordEvent>)
      reads this
      ensures r.Some? ==> Contains(r.value, currentTime)
      ensures r.None? <==> forall c :: c in cs ==> !Contains(c, currentTime)
    {
      CurrentChord(cs, currentTime)
    }

    /** The upper end of the seek slider, `duration || 100`. */
    function SeekMax(): (r: real)
      reads this
      ensures duration == 0.0 ==> r == 100.0
      ensures duration != 0.0 ==> r == duration
      ensures duration >= 0.0 ==> r > 0.0
    {
      if duration == 0.0 then 100.0 else duration
    }
  }
}
