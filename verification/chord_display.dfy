/** The chord chart: a timeline row per chord event, and one guitar diagram
    per distinct chord name, looked up in a fixed fret table. */
module ChordDisplay {
  import opened Wrappers
  import opened Text
  import opened Chords
  import opened JsNumber
  import opened ClockText
  import AudioPlayer

  // ---------------------------------------------------------------------------
  // Guitar diagrams
  // ---------------------------------------------------------------------------

  /** The strings a diagram's six entries belong to, low to high. */
  const StringNames: seq<string> := ["E", "A", "D", "G", "B", "E"]

  /** `chordDiagrams`: the fret (or `X` for a muted string) on each string. */
  const ChordDiagrams: map<string, seq<string>> := map[
    "C"  := ["X", "3", "2", "0", "1", "0"],
    "Am" := ["X", "0", "2", "2", "1", "0"],
    "F"  := ["1", "3", "3", "2", "1", "1"],
    "G"  := ["3", "2", "0", "0", "3", "3"],
    "Dm" := ["X", "X", "0", "2", "3", "1"],
    "Em" := ["0", "2", "2", "0", "0", "0"]
  ]

  const Unknown: seq<string> := ["?", "?", "?", "?", "?", "?"]

  /** The entries `renderChordDiagram` shows for `name`: the table's row, or
      six question marks for a name the table does not know. The result is
      all question marks exactly when the name is unknown. */
  function Diagram(name: string): (r: seq<string>)
    ensures |r| == |StringNames| == 6
    ensures name in ChordDiagrams ==> r == ChordDiagrams[name]
    ensures name !in ChordDiagrams ==> forall i :: 0 <= i < 6 ==> r[i] == "?"
    ensures (forall i :: 0 <= i < 6 ==> r[i] == "?") <==> name !in ChordDiagrams
  {
    if name in ChordDiagrams then
      assert forall n :: n in ChordDiagrams ==> ChordDiagrams[n][2] != "?";
      ChordDiagrams[name]
    else Unknown
  }

  /** One rendered diagram: the name as title and one cell per string. */
  datatype DiagramView = DiagramView(title: string, cells: seq<(string, string)>)

  function RenderDiagram(name: string): (v: DiagramView)
    ensures v.title == name && |v.cells| == 6
    ensures forall i :: 0 <= i < 6 ==> v.cells[i] == (StringNames[i], Diagram(name)[i])
  {
    var d := Diagram(name);
    DiagramView(name, seq(6, i requires 0 <= i < 6 => (StringNames[i], d[i])))
  }

  // ---------------------------------------------------------------------------
  // Distinct chord names (`Array.from(new Set(names))`)
  // ---------------------------------------------------------------------------

  predicate NoDuplicates(s: seq<string>) {
    forall i, j :: 0 <= i < j < |s| ==> s[i] != s[j]
  }

  /** Position of the first occurrence of `x` in `s`. */
  function FirstIndex(s: seq<string>, x: string): (k: nat)
    requires x in s
    ensures k < |s| && s[k] == x && forall j :: 0 <= j < k ==> s[j] != x
  {
    if s[0] == x then 0 else 1 + FirstIndex(s[1..], x)
  }

  lemma FirstIndexOfPrefix(s: seq<string>, n: nat, x: string)
    requires n <= |s| && x in s[..n]
    ensures FirstIndex(s, x) == FirstIndex(s[..n], x)
  {
    var a, b := FirstIndex(s, x), FirstIndex(s[..n], x);
    assert s[b] == x;
    assert !(a < b) && !(b < a);
  }

  /** `r` lists the names of `s` as an insertion-ordered set does: no
      duplicates, exactly the names of `s`, in order of first occurrence. */
  ghost predicate DistinctOf(s: seq<string>, r: seq<string>) {
    NoDuplicates(r) &&
    (forall x :: x in r <==> x in s) &&
    (forall i, j :: 0 <= i < j < |r| ==> FirstIndex(s, r[i]) < FirstIndex(s, r[j]))
  }

  /** Appending a name keeps `DistinctOf`: the name is dropped when already
      present and added at the end otherwise. */
  lemma DistinctSnoc(front: seq<string>, last: string, r: seq<string>)
    requires DistinctOf(front, r)
    ensures last in r ==> DistinctOf(front + [last], r)
    ensures last !in r ==> DistinctOf(front + [last], r + [last])
  {
    var s := front + [last];
    assert s[..|s| - 1] == front;
    assert forall x :: x in s <==> x in front || x == last;
    if last in r {
      forall i, j | 0 <= i < j < |r|
        ensures FirstIndex(s, r[i]) < FirstIndex(s, r[j])
      {
        FirstIndexOfPrefix(s, |front|, r[i]);
        FirstIndexOfPrefix(s, |front|, r[j]);
      }
    } else {
      var r' := r + [last];
      forall i, j | 0 <= i < j < |r'|
        ensures FirstIndex(s, r'[i]) < FirstIndex(s, r'[j])
      {
        FirstIndexOfPrefix(s, |front|, r'[i]);
        if j < |r| {
          FirstIndexOfPrefix(s, |front|, r'[j]);
        } else {
          assert FirstIndex(s, last) == |front|;
        }
      }
    }
  }

  /** `Array.from(new Set(names))`: inserting the names one by one into a set
      that remembers insertion order. Each name is kept at its first
      occurrence and later repeats are dropped, so the result has no
      duplicates, holds exactly the input's names, and lists them in order of
      first occurrence. */
  function Distinct(s: seq<string>): (r: seq<string>)
    ensures DistinctOf(s, r)
  {
    if s == [] then []
    else
      var front := s[..|s| - 1];
      var last := s[|s| - 1];
      var r := Distinct(front);
      assert s == front + [last];
      DistinctSnoc(front, last, r);
      if last in r then r else r + [last]
  }

  /** Each distinct name is listed exactly once. */
  lemma DistinctListsEachOnce(s: seq<string>, x: string)
    requires x in s
    ensures exists k :: 0 <= k < |Distinct(s)| && Distinct(s)[k] == x &&
                        forall j :: 0 <= j < |Distinct(s)| && j != k ==> Distinct(s)[j] != x
  {
    var r := Distinct(s);
    var k :| 0 <= k < |r| && r[k] == x;
    assert forall j :: 0 <= j < |r| && j != k ==> r[j] != x;
  }

  /** The "Guitar Chords" section: one diagram per distinct chord name. */
  function GuitarChords(cs: seq<ChordEvent>): (r: seq<DiagramView>)
    ensures |r| == |Distinct(Labels(cs))|
    ensures forall i :: 0 <= i < |r| ==> r[i] == RenderDiagram(Distinct(Labels(cs))[i])
    ensures forall c :: c in cs ==> exists i :: 0 <= i < |r| && r[i].title == c.chord
    ensures forall i, j :: 0 <= i < j < |r| ==> r[i].title != r[j].title
  {
    var names := Distinct(Labels(cs));
    var r := seq(|names|, i requires 0 <= i < |names| => RenderDiagram(names[i]));
    forall c | c in cs
      ensures exists i :: 0 <= i < |r| && r[i].title == c.chord
    {
      var k :| 0 <= k < |cs| && cs[k] == c;
      assert Labels(cs)[k] == c.chord;
      assert c.chord in names;
      var i :| 0 <= i < |names| && names[i] == c.chord;
      assert r[i].title == c.chord;
    }
    r
  }

  // ---------------------------------------------------------------------------
  // Timeline rows
  // ---------------------------------------------------------------------------

  /** The time cell of a timeline row:
      `Math.floor(time / 60)`, a colon, `(time % 60).toFixed(0)` padded to two. */
  function TimelineClock(t: real): string {
    IntToString((t / 60.0).Floor) + ":" +
      PadStart(ToFixed0(JsRem(t, 60.0)), 2, '0')
  }

  /** The seconds number a timeline row shows: `(time % 60).toFixed(0)`.
      It rounds the remainder rather than flooring it, so for a non-negative
      time it runs from 0 to 60, and it is 60 exactly when the remainder is at
      least 59.5. */
  function TimelineSeconds(t: real): (r: int)
    ensures t >= 0.0 ==> 0 <= r <= 60
    ensures t >= 0.0 ==> (r == 60 <==> JsRem(t, 60.0) >= 59.5)
  {
    JsRemRange(t, 60.0);
    (JsRem(t, 60.0) + 0.5).Floor
  }

  /** For a non-negative time the row's clock is the non-negative minutes,
      a colon and the rounded seconds padded to two digits. */
  lemma TimelineClockShape(t: real)
    requires t >= 0.0
    ensures 0 <= TimelineSeconds(t) <= 60
    ensures TimelineClock(t) ==
            NatToString(t.Floor / 60) + ":" + PadStart(NatToString(TimelineSeconds(t)), 2, '0')
  {
    FloorMinutes(t);
    var minutes := (t / 60.0).Floor;
    assert minutes >= 0;
    assert IntToString(minutes) == NatToString(t.Floor / 60);
    JsRemRange(t, 60.0);
    var rem := JsRem(t, 60.0);
    assert ToFixed0(rem) == NatToString(TimelineSeconds(t));
  }

  /** For a non-negative time the row's clock reads back as
      `floor(time / 60)` minutes and the rounded seconds. */
  lemma TimelineClockParsed(t: real)
    requires t >= 0.0
    ensures ParseClock(TimelineClock(t)) ==
            Some(ClockReading(t.Floor / 60, TimelineSeconds(t)))
  {
    TimelineClockShape(t);
    var minutes: nat := t.Floor / 60;
    var seconds: nat := TimelineSeconds(t);
    PadTwoDigits(seconds);
    ParseNatToString(minutes);
    ParseClockOf(NatToString(minutes), PadStart(NatToString(seconds), 2, '0'));
  }

  datatype TimelineRow = TimelineRow(clock: string, chord: string, duration: real)

  /** The "Timeline" section: one row per chord event, in input order. A row
      at a non-negative time shows `floor(time / 60)` minutes and the rounded
      seconds; at a whole number of seconds that is the player's text. */
  function Timeline(cs: seq<ChordEvent>): (r: seq<TimelineRow>)
    ensures |r| == |cs|
    ensures forall i :: 0 <= i < |cs| ==>
              r[i].chord == cs[i].chord && r[i].duration == cs[i].duration
    ensures forall i :: 0 <= i < |cs| && cs[i].time >= 0.0 ==>
              ParseClock(r[i].clock) ==
              Some(ClockReading(cs[i].time.Floor / 60, TimelineSeconds(cs[i].time)))
    ensures forall i :: 0 <= i < |cs| && cs[i].time == cs[i].time.Floor as real && cs[i].time >= 0.0 ==>
              r[i].clock == AudioPlayer.FormatTime(cs[i].time)
  {
    var r := seq(|cs|, i requires 0 <= i < |cs| =>
                 TimelineRow(TimelineClock(cs[i].time), cs[i].chord, cs[i].duration));
    forall i | 0 <= i < |cs| && cs[i].time >= 0.0
      ensures ParseClock(r[i].clock) ==
              Some(ClockReading(cs[i].time.Floor / 60, TimelineSeconds(cs[i].time)))
    {
      TimelineClockParsed(cs[i].time);
    }
    forall i | 0 <= i < |cs| && cs[i].time == cs[i].time.Floor as real && cs[i].time >= 0.0
      ensures r[i].clock == AudioPlayer.FormatTime(cs[i].time)
    {
      TimelineAgreesOnWholeSeconds(cs[i].time.Floor);
    }
    r
  }

  /** On a whole number of seconds the timeline and the player show the
      same `m:ss` text. */
  lemma TimelineAgreesOnWholeSeconds(n: nat)
    ensures TimelineClock(n as real) == AudioPlayer.FormatTime(n as real)
  {
    var t := n as real;
    assert t.Floor == n;
    assert JsRem(t, 60.0) == (n % 60) as real by {
      FloorMinutes(t);
      assert Trunc(t / 60.0) == n / 60;
    }
    assert TimelineSeconds(t) == n % 60;
    TimelineClockShape(t);
    assert TimelineClock(t) == Clock(n);
    AudioPlayer.FormatTimeWholeSeconds(t);
  }

  /** Under a minute, from 9.5 s on, the row's clock is `0:` and the
      seconds rounded to the nearest whole number, which need no padding. */
  lemma TimelineClockUnderAMinute(t: real)
    requires 9.5 <= t < 60.0
    ensures TimelineClock(t) == "0:" + NatToString((t + 0.5).Floor)
  {
    assert JsRem(t, 60.0) == t by {
      assert Trunc(t / 60.0) == 0;
    }
    assert IntToString((t / 60.0).Floor) == "0" by {
      assert (t / 60.0).Floor == 0;
    }
    var seconds := NatToString((t + 0.5).Floor);
    assert ToFixed0(t) == seconds;
    assert PadStart(seconds, 2, '0') == seconds;
  }

  /** From 59.5 s up to a minute the timeline rounds the seconds up to 60. */
  lemma TimelineShowsSixty(t: real)
    requires 59.5 <= t < 60.0
    ensures TimelineClock(t) == "0:60"
  {
    TimelineClockUnderAMinute(t);
    var rounded := (t + 0.5).Floor;
    assert rounded / 10 == 6 && rounded % 10 == 0;
    TwoDigitText(rounded);
    assert NatToString(rounded) == "60";
  }

  /** From 59 s up to a minute the player floors the seconds to 59. */
  lemma PlayerShowsFiftyNine(t: real)
    requires 59.0 <= t < 60.0
    ensures AudioPlayer.FormatTime(t) == "0:59"
  {
    AudioPlayer.FormatTimeWholeSeconds(t);
    var whole := t.Floor;
    assert whole / 10 == 5 && whole % 10 == 9;
    ClockUnderAMinute(whole);
  }

  /** Off whole seconds the two differ: the timeline rounds where the player
      floors, so from 59.5 s up to a minute the timeline shows `0:60` and the
      player `0:59`. */
  lemma TimelineRoundsWherePlayerFloors(t: real)
    requires 59.5 <= t < 60.0
    ensures TimelineClock(t) == "0:60"
    ensures AudioPlayer.FormatTime(t) == "0:59"
  {
    TimelineShowsSixty(t);
    PlayerShowsFiftyNine(t);
  }
}
