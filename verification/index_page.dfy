/** The page: it takes an audio file or a song URL, marks itself as
    processing, and when the simulated analysis completes installs one of two
    fixed chord lists. It also decides which parts of the page are shown. */
module IndexPage {
  import opened Wrappers
  import opened Chords
  import AudioPlayer

  // ---------------------------------------------------------------------------
  // The two fixed analysis results
  // ---------------------------------------------------------------------------

  /** The result installed after a file upload. */
  const FileChords: seq<ChordEvent> := [
    ChordEvent(0.0, "C", 2.0),
    ChordEvent(2.0, "Am", 2.0),
    ChordEvent(4.0, "F", 2.0),
    ChordEvent(6.0, "G", 2.0),
    ChordEvent(8.0, "C", 2.0)
  ]

  /** The result installed after a URL submission. */
  const UrlChords: seq<ChordEvent> := [
    ChordEvent(0.0, "Am", 2.0),
    ChordEvent(2.0, "F", 2.0),
    ChordEvent(4.0, "C", 2.0),
    ChordEvent(6.0, "G", 2.0)
  ]

  /** A list of two-second chords laid end to end from time 0. */
  predicate EveryTwoSeconds(cs: seq<ChordEvent>) {
    forall i :: 0 <= i < |cs| ==> cs[i].time == 2.0 * i as real && cs[i].duration == 2.0
  }

  lemma FixedListsEveryTwoSeconds()
    ensures EveryTwoSeconds(FileChords) && EveryTwoSeconds(UrlChords)
  {
  }

  /** Both fixed lists are contiguous: each chord starts where the previous
      one ends, from time 0, so at most one chord is active at a time. */
  lemma {:induction false} EveryTwoSecondsIsContiguous(cs: seq<ChordEvent>)
    requires EveryTwoSeconds(cs)
    ensures Contiguous(cs) && End(cs) == 2.0 * |cs| as real
  {
    if |cs| > 0 {
      assert cs[|cs| - 1].time == 2.0 * (|cs| - 1) as real;
    }
  }

  /** In such a list the chord active at position `t` is the one with index
      `floor(t / 2)`, for every `t` before the end; none is active after. */
  lemma ActiveChordEveryTwoSeconds(cs: seq<ChordEvent>, t: real)
    requires EveryTwoSeconds(cs)
    ensures 0.0 <= t < 2.0 * |cs| as real ==>
              (t / 2.0).Floor < |cs| && AudioPlayer.CurrentChord(cs, t) == Some(cs[(t / 2.0).Floor])
    ensures !(0.0 <= t < 2.0 * |cs| as real) ==> AudioPlayer.CurrentChord(cs, t) == None
  {
    EveryTwoSecondsIsContiguous(cs);
    AudioPlayer.ActiveIffWithinSpan(cs, t);
    if 0.0 <= t < 2.0 * |cs| as real {
      var k := (t / 2.0).Floor;
      assert 0 <= k < |cs|;
      assert Contains(cs[k], t);
    }
  }

  // ---------------------------------------------------------------------------
  // Page state
  // ---------------------------------------------------------------------------

  /** A user's audio file; only its identity matters to the page. */
  datatype AudioFile = AudioFile(name: string)

  /** A scheduled completion of the simulated analysis. */
  datatype Job = FileJob | UrlJob

  /** A toast shown to the user. */
  datatype Notice = Notice(title: string, description: string, destructive: bool)

  const EmptyUrlNotice := Notice("Error", "Please enter a valid URL", true)
  const FileDoneNotice := Notice("Success!", "Audio transcribed successfully. Chords and sheet music are ready!", false)
  const UrlDoneNotice := Notice("Success!", "Song from URL transcribed successfully!", false)

  /** The page's state. `pending` holds the scheduled completions; they all
      wait the same 3000 ms, so they complete in the order they were
      scheduled. */
  class Page {
    var audioFile: Option<AudioFile>
    var audioUrl: string
    var isProcessing: bool
    var chords: seq<ChordEvent>
    var pending: seq<Job>

    /** The page is processing only while a completion is scheduled, and the
        chord list is empty or one of the two fixed results. */
    ghost predicate Valid()
      reads this
    {
      (isProcessing ==> |pending| > 0) &&
      (chords == [] || chords == FileChords || chords == UrlChords)
    }

    constructor ()
      ensures Valid()
      ensures audioFile == None && audioUrl == "" && !isProcessing
      ensures chords == [] && pending == []
    {
      audioFile := None;
      audioUrl := "";
      isProcessing := false;
      chords := [];
      pending := [];
    }

    /** The player is shown once a file is set or the URL field is non-empty. */
    predicate ShowPlayer()
      reads this
    {
      audioFile.Some? || audioUrl != ""
    }

    /** The chord chart and sheet tabs are shown once chords exist. */
    predicate ShowResults()
      reads this
    {
      |chords| > 0
    }

    /** The submit button is disabled while processing. */
    predicate SubmitDisabled()
      reads this
    {
      isProcessing
    }

    /** Typing in the URL field: the field's text is the page's `audioUrl`,
        so a non-empty text shows the player before anything is submitted. */
    method EditUrl(text: string)
      requires Valid()
      modifies this
      ensures Valid()
      ensures audioUrl == text && ShowPlayer() == (audioFile.Some? || text != "")
      ensures audioFile == old(audioFile) && isProcessing == old(isProcessing)
      ensures chords == old(chords) && pending == old(pending)
    {
      audioUrl := text;
    }

    /** `handleFileUpload`: no validation; the file is set, the page is
        processing and the file analysis is scheduled. */
    method HandleFileUpload(file: AudioFile)
      requires Valid()
      modifies this
      ensures Valid()
      ensures audioFile == Some(file) && isProcessing && SubmitDisabled() && ShowPlayer()
      ensures pending == old(pending) + [FileJob]
      ensures audioUrl == old(audioUrl) && chords == old(chords)
    {
      audioFile := Some(file);
      isProcessing := true;
      pending := pending + [FileJob];
    }

    /** `handleUrlSubmit`: an empty URL raises an error notice and changes
        nothing; otherwise the URL is set, the page is processing and the URL
        analysis is scheduled. */
    method HandleUrlSubmit(url: string) returns (notice: Option<Notice>)
      requires Valid()
      modifies this
      ensures Valid()
      ensures url == "" ==> notice == Some(EmptyUrlNotice)
      ensures url == "" ==> audioUrl == old(audioUrl) && isProcessing == old(isProcessing) &&
                            pending == old(pending)
      ensures url != "" ==> notice == None && audioUrl == url && isProcessing && ShowPlayer()
      ensures url != "" ==> pending == old(pending) + [UrlJob]
      ensures audioFile == old(audioFile) && chords == old(chords)
    {
      if url == "" {
        return Some(EmptyUrlNotice);
      }
      audioUrl := url;
      isProcessing := true;
      pending := pending + [UrlJob];
      notice := None;
    }

    /** The earliest scheduled completion fires: it installs its fixed chord
        list, clears `isProcessing` (even when another completion is still
        scheduled) and shows a success notice. */
    method CompleteNext() returns (notice: Notice)
      requires Valid() && |pending| > 0
      modifies this
      ensures Valid()
      ensures pending == old(pending)[1..]
      ensures old(pending)[0] == FileJob ==> chords == FileChords && notice == FileDoneNotice
      ensures old(pending)[0] == UrlJob ==> chords == UrlChords && notice == UrlDoneNotice
      ensures !isProcessing && !SubmitDisabled() && ShowResults()
      ensures audioFile == old(audioFile) && audioUrl == old(audioUrl)
    {
      var job := pending[0];
      pending := pending[1..];
      isProcessing := false;
      match job
      case FileJob =>
        chords := FileChords;
        notice := FileDoneNotice;
      case UrlJob =>
        chords := UrlChords;
        notice := UrlDoneNotice;
    }
  }

  /** Whatever the page's state, its chord list is contiguous, so the player
      highlights at most one chord at any position. */
  lemma PageChordsAtMostOneActive(p: Page, t: real, i: nat, j: nat)
    requires p.Valid() && i < |p.chords| && j < |p.chords|
    requires Contains(p.chords[i], t) && Contains(p.chords[j], t)
    ensures i == j
  {
    FixedListsEveryTwoSeconds();
    EveryTwoSecondsIsContiguous(p.chords);
    AtMostOneActive(p.chords, t, i, j);
  }
}
