/** The sheet-music view: a five-line staff with the first four chords
    above it, one note head per shown chord, and a summary card per chord
    labelled with its bar number. */
module MusicSheetView {
  import opened Wrappers
  import opened Text
  import opened Chords

  const StaffLineCount: nat := 5
  const StaffChordLimit: nat := 4
  const KeyText: string := "Key of C Major"
  const TimeSignatureText: string := "4/4 Time Signature"

  function Min(a: nat, b: nat): nat {
    if a <= b then a else b
  }

  /** `renderStaff`: the lines of the staff, the chord symbols above it
      (`chords.slice(0, 4)`), and one note head per symbol. */
  datatype Staff = Staff(lines: nat, symbols: seq<string>, noteHeads: nat)

  function RenderStaff(cs: seq<ChordEvent>): (r: Staff)
    ensures r.lines == 5
    ensures |r.symbols| == Min(StaffChordLimit, |cs|) && r.noteHeads == |r.symbols|
    ensures forall i :: 0 <= i < |r.symbols| ==> r.symbols[i] == cs[i].chord
  {
    var shown := cs[..Min(StaffChordLimit, |cs|)];
    Staff(StaffLineCount, Labels(shown), |shown|)
  }

  /** One card of the chord-progression summary. */
  datatype BarCard = BarCard(chord: string, caption: string)

  function BarLabel(bar: nat): string {
    "Bar " + NatToString(bar)
  }

  /** Reads the bar number back out of a card label. */
  function ParseBarLabel(text: string): Option<nat> {
    if |text| > 4 && text[..4] == "Bar " && AllDigits(text[4..])
    then Some(ParseNat(text[4..]))
    else None
  }

  /** Every bar label reads back as the number it was made from. */
  lemma BarLabelRoundTrip(bar: nat)
    ensures ParseBarLabel(BarLabel(bar)) == Some(bar)
  {
    var text := BarLabel(bar);
    assert text[..4] == "Bar ";
    assert text[4..] == NatToString(bar);
    ParseNatToString(bar);
  }

  /** The summary: every chord in input order, the i-th (from 0) on a card
      labelled `Bar i+1`. */
  function Summary(cs: seq<ChordEvent>): (r: seq<BarCard>)
    ensures |r| == |cs|
    ensures forall i :: 0 <= i < |cs| ==> r[i].chord == cs[i].chord
    ensures forall i :: 0 <= i < |cs| ==> ParseBarLabel(r[i].caption) == Some(i + 1)
  {
    var r := seq(|cs|, i requires 0 <= i < |cs| => BarCard(cs[i].chord, BarLabel(i + 1)));
    forall i | 0 <= i < |cs|
      ensures ParseBarLabel(r[i].caption) == Some(i + 1)
    {
      BarLabelRoundTrip(i + 1);
    }
    r
  }

  /** No two summary cards carry the same bar label. */
  lemma SummaryLabelsDistinct(cs: seq<ChordEvent>, i: nat, j: nat)
    requires i < j < |cs|
    ensures Summary(cs)[i].caption != Summary(cs)[j].caption
  {
    var r := Summary(cs);
    assert r[i].caption[4..] == NatToString(i + 1);
    assert r[j].caption[4..] == NatToString(j + 1);
    NatToStringInjective(i + 1, j + 1);
  }

  /** The whole view. */
  datatype Sheet = Sheet(key: string, timeSignature: string, staff: Staff, summary: seq<BarCard>)

  function RenderSheet(cs: seq<ChordEvent>): (r: Sheet)
    ensures r.key == "Key of C Major" && r.timeSignature == "4/4 Time Signature"
    ensures r.staff == RenderStaff(cs) && r.summary == Summary(cs)
  {
    Sheet(KeyText, TimeSignatureText, RenderStaff(cs), Summary(cs))
  }
}
