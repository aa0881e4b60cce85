# Song transcription page: chord timing, chord chart and page state in Dafny

This project models the logic inside the song-transcription page, a browser
single-page interface. The user uploads an audio file or pastes a song URL.
The page marks itself as processing. A simulated analysis step then installs
one of two fixed chord lists. The lists are shown in three ways: a chord
chart (a timeline plus guitar diagrams), a sheet-music view, and an audio
player that highlights the chord active at the playback position.

One entity runs through everything: a chord event `(time, chord, duration)`
(`Chords.ChordEvent`). Times and durations are exact `real`s. Every list the
page produces has non-negative times and durations.

| module | file | models |
|---|---|---|
| `Wrappers` | `wrappers.dfy` | the optional value used for "no result" |
| `Text` | `text.dfy` | integer-to-decimal rendering, `padStart`, and a digit parser used as their inverse |
| `JsNumber` | `js_number.dfy` | JavaScript number operations on times: `Math.trunc`, the remainder `%`, `toFixed(0)` |
| `ClockText` | `clock_text.dfy` | the `m:ss` text shared by the player and the timeline, and its parser |
| `Chords` | `chords.dfy` | chord events, the half-open "contains" test, contiguous timelines (no gaps, no overlaps) |
| `AudioPlayer` | `audio_player.dfy` | `getCurrentChord`, `formatTime`, and the player state with its handlers (class `Player`) |
| `ChordDisplay` | `chord_display.dfy` | the fret table with its `?` fallback, the distinct-name list, the timeline rows |
| `MusicSheetView` | `music_sheet_view.dfy` | the staff (first four chords) and the bar-numbered summary |
| `IndexPage` | `index_page.dfy` | the two fixed chord lists and the page's processing state machine (class `Page`) |

Pure code (the active-chord search, time formatting, the chart and sheet
derivations) is written as functions with lemmas. The two components that
update state through setters become classes: `AudioPlayer.Player` and
`IndexPage.Page`. Their methods state the whole new state.

Main facts proved:

- **Active chord.** The search returns the first chord in list order whose
  interval `[time, time + duration)` contains the position. It returns
  nothing exactly when no chord does. On a contiguous timeline there is
  always at most one such chord. A chord is active exactly while the
  position lies in `[0, end)`. At a chord's end time the next chord is
  active when it has positive length, never the ending one.
- **Time text.** For a non-negative time, `formatTime` prints
  `floor(t) / 60` and then `floor(t) % 60`, and the seconds are in 0..59
  and always two digits. The text reads back to those two numbers. Two
  times therefore show the same text exactly when they agree in whole
  seconds.
- **Chord chart.** Every diagram has six entries. An unknown name gives six
  `?` entries, and it is the only case that does. The distinct-name list has
  no duplicates, holds exactly the input's names, and keeps them in order of
  first occurrence. The timeline's clock reads back as `floor(t / 60)`
  minutes and the rounded seconds, which run from 0 to 60. It agrees with
  the player's clock on whole seconds.
- **Sheet.** The staff has five lines and shows `min(4, n)` chord symbols in
  order, with one note head per symbol. Summary card `i` (counted from 0)
  reads `Bar i+1`, so no two cards carry the same label.
- **Page.** An empty URL raises an error notice and changes nothing. Each
  upload or submission schedules one completion. A completion installs its
  fixed list and clears the processing flag. The page's chord list is always
  empty or one of the two fixed lists. Both fixed lists are contiguous, so
  the chord the player highlights is the only chord containing the
  position.

Two behaviours of the source are stated as they are written:

- The timeline prints seconds with `toFixed(0)`, which rounds. The player
  floors. From 59.5 s up to a minute the timeline therefore shows `0:60` and
  the player shows `0:59` (`ChordDisplay.TimelineRoundsWherePlayerFloors`). Both fixed lists
  use whole seconds, where the two always agree.
- The volume slider starts at 80. The media element is never given that
  value, so it keeps its default volume of 1.0 until the slider is moved
  (`AudioPlayer.Player.constructor`).

Each completion waits the same 3000 ms, so completions fire in the order
they were scheduled. `Page.pending` is that queue, and `Page.CompleteNext`
fires its head. A completion clears `isProcessing`, as the source does. On
the page a second completion is never queued while one is pending: the
submit button is disabled and the uploader shows a spinner instead of its
drop zone while processing. The model lets the handlers run at any time, so
the queue can hold two completions there, and then the first one clears the
flag although the second is still pending.

## Model

| member | source | states |
|---|---|---|
| `AudioPlayer.FindActiveIndex` | src/components/AudioPlayer.tsx:82-86 | the index returned is of a chord whose half-open interval contains the position, and no earlier chord contains it; none is returned exactly when no chord contains the position |
| `AudioPlayer.CurrentChord` | src/components/AudioPlayer.tsx:83-85 | a returned chord belongs to the list and satisfies `time <= t < time + duration`, and it is the first such chord in list order; nothing is returned exactly when no chord's interval contains `t` |
| `Chords.Contains` | src/components/AudioPlayer.tsx:84 | definition of the half-open test `time <= t < time + duration`; the contracts of `FindActiveIndex`, `CurrentChord`, `AtMostOneActive` and `Covers` are stated with it |
| `AudioPlayer.EndIsExcluded` | src/components/AudioPlayer.tsx:84 | at `time + duration` of a chord in a contiguous timeline, when the next chord has positive length, the active chord is that next one: the end point is excluded |
| `AudioPlayer.ActiveIffWithinSpan` | src/components/AudioPlayer.tsx:83-85 | on a contiguous timeline a chord is active exactly when `0 <= t < end`, and any chord containing `t` is the one returned |
| `Chords.AtMostOneActive` | src/components/AudioPlayer.tsx:83-85 | in a contiguous timeline no two chords contain the same position |
| `Chords.Covers` | src/components/AudioPlayer.tsx:83-85 | a contiguous timeline has no gaps: each position in `[0, end)` lies in some chord |
| `AudioPlayer.ClockParts` | src/components/AudioPlayer.tsx:76-78 | for `t >= 0` the minutes are `floor(t) / 60` and the seconds `floor(t) % 60`, in 0..59, with `minutes * 60 + seconds == floor(t)`; JavaScript's truncated `%` is modelled as such |
| `JsNumber.Trunc` | src/components/AudioPlayer.tsx:78 | rounding toward zero: the result has the sign of `x` and lies less than one from `x`, on the side of zero |
| `JsNumber.JsRem` | src/components/AudioPlayer.tsx:78 | definition of JavaScript's `%` as the remainder of truncated division; its properties are `JsRemRange` and `JsRemMultiple` |
| `JsNumber.JsRemRange` | src/components/AudioPlayer.tsx:78 | for `m > 0` the remainder lies in `[0, m)` for a non-negative `x` and in `(-m, 0]` for a negative one |
| `JsNumber.JsRemMultiple` | src/components/AudioPlayer.tsx:78 | `x` minus its remainder is a whole multiple of `m` |
| `JsNumber.FloorMinutes` | src/components/AudioPlayer.tsx:77 | for `t >= 0`, `Math.floor(t / 60)` is the whole seconds of `t` divided by 60 |
| `AudioPlayer.FormatTime` | src/components/AudioPlayer.tsx:76-80 | definition of `formatTime`; its contracts are `FormatTimeWholeSeconds`, `FormatTimeReadsBack` and `FormatTimeSameIff` |
| `AudioPlayer.FormatTimeReadsBack` | src/components/AudioPlayer.tsx:76-80 | for `t >= 0` the text reads back as `floor(t) / 60` minutes and `floor(t) % 60` seconds |
| `AudioPlayer.FormatTimeWholeSeconds` | src/components/AudioPlayer.tsx:76-80 | for `t >= 0` the text is the `m:ss` text of the whole seconds of `t` |
| `ClockText.ClockUnderAMinute` | src/components/AudioPlayer.tsx:79 | from 10 to 59 seconds the `m:ss` text is `0:` followed by the tens digit and the units digit |
| `ClockText.ParseClockRoundTrip` | src/components/AudioPlayer.tsx:79 | the `m:ss` text of `n` seconds has exactly two second digits and reads back as `n / 60` minutes and `n % 60` seconds |
| `AudioPlayer.FormatTimeSameIff` | src/components/AudioPlayer.tsx:76-80 | two non-negative times have the same text exactly when their whole seconds agree |
| `AudioPlayer.Player.constructor` | src/components/AudioPlayer.tsx:15-18 | initial state: not playing, time 0, duration 0, volume slider `[80]`; the element's own volume is its default 1.0 |
| `AudioPlayer.Player.TogglePlayPause` | src/components/AudioPlayer.tsx:48-58 | flips `isPlaying` and changes nothing else; without an element nothing changes at all |
| `AudioPlayer.Player.HandleSeek` | src/components/AudioPlayer.tsx:60-66 | sets the element's and the shown position to `value[0]` and touches no other state; without an element nothing changes |
| `AudioPlayer.Player.HandleVolumeChange` | src/components/AudioPlayer.tsx:68-74 | takes effect exactly when there is an element and `0 <= value[0] <= 100`; then the element volume is `value[0] / 100` (in [0, 1]) and the state holds `value`; otherwise nothing changes; the element volume always stays in [0, 1] |
| `AudioPlayer.Player.OnTimeUpdate` | src/components/AudioPlayer.tsx:34 | the shown position becomes the element's position; nothing else changes |
| `AudioPlayer.Player.OnLoadedMetadata` | src/components/AudioPlayer.tsx:35 | the duration becomes the element's duration |
| `AudioPlayer.Player.OnEnded` | src/components/AudioPlayer.tsx:39 | playback ending clears `isPlaying` |
| `AudioPlayer.Player.ActiveChord` | src/components/AudioPlayer.tsx:88 | the highlighted chord contains the current position; none is highlighted exactly when no chord contains it |
| `AudioPlayer.Player.SeekMax` | src/components/AudioPlayer.tsx:108 | the seek slider's maximum is the duration when it is non-zero, and otherwise 100; it is positive for a non-negative duration |
| `Text.NatToString` | src/components/AudioPlayer.tsx:79 | the decimal text of a number is non-empty and all digits, has no leading zero, has one digit exactly below 10 and at most two below 100 |
| `Text.IntToString` | src/components/AudioPlayer.tsx:79 | the text of an integer is a well-formed integer text that reads back as the integer |
| `Text.IntToStringSign` | src/components/AudioPlayer.tsx:79 | the text of an integer is all digits exactly when the integer is not negative, and starts with `-` exactly when it is negative |
| `Text.TwoDigitText` | src/components/AudioPlayer.tsx:79 | a number from 10 to 99 is written as its tens digit and its units digit |
| `Text.ParseNatToString` | src/components/AudioPlayer.tsx:79 | the decimal text of `n` reads back as `n` |
| `Text.NatToStringInjective` | src/components/MusicSheetView.tsx:81 | two numbers have the same decimal text exactly when they are equal |
| `Text.PadStart` | src/components/AudioPlayer.tsx:79 | `padStart` keeps a text at least `width` long; otherwise the result is exactly `width` long, ends with the text and starts with fill characters |
| `Text.PadTwoDigits` | src/components/AudioPlayer.tsx:79 | a number below 100 padded to two with `0` is two digits that read back as the number |
| `ChordDisplay.Diagram` | src/components/ChordDisplay.tsx:17-27 | every diagram has 6 entries; a known name gives its table row; the result is six `?` exactly when the name is not in the table |
| `ChordDisplay.RenderDiagram` | src/components/ChordDisplay.tsx:26-49 | the diagram is titled with the name and has one cell per string E A D G B E, each holding that string's entry |
| `ChordDisplay.FirstIndex` | src/components/ChordDisplay.tsx:87 | the position returned holds the name and no earlier position does |
| `ChordDisplay.Distinct` | src/components/ChordDisplay.tsx:87 | the distinct names have no duplicates, are exactly the input's names, and appear in order of first occurrence |
| `ChordDisplay.DistinctListsEachOnce` | src/components/ChordDisplay.tsx:87 | each name of the input appears in the distinct list at exactly one position |
| `ChordDisplay.GuitarChords` | src/components/ChordDisplay.tsx:84-92 | one diagram per distinct name, in order; every chord of the input has a diagram; no two diagrams share a title |
| `JsNumber.ToFixed0` | src/components/ChordDisplay.tsx:70 | definition of `toFixed(0)`; its contract is `ToFixed0Rounds` |
| `JsNumber.ToFixed0Rounds` | src/components/ChordDisplay.tsx:70 | `x.toFixed(0)` is an integer text, with `-` exactly for negative `x`, whose digits read back as a whole number within one half of `|x|`, halves going up |
| `ChordDisplay.TimelineClock` | src/components/ChordDisplay.tsx:70 | definition of a row's time cell; its contracts are `TimelineClockShape`, `TimelineClockParsed` and `TimelineClockUnderAMinute` |
| `ChordDisplay.TimelineSeconds` | src/components/ChordDisplay.tsx:70 | for a non-negative time the seconds shown, `(time % 60).toFixed(0)`, are in 0..60, and they are 60 exactly when `time % 60 >= 59.5` |
| `ChordDisplay.TimelineClockShape` | src/components/ChordDisplay.tsx:70 | for a non-negative time the row's clock is the minutes `floor(time / 60)`, a colon, and the rounded seconds (0..60) padded to two digits |
| `ChordDisplay.TimelineClockParsed` | src/components/ChordDisplay.tsx:70 | for a non-negative time the row's clock reads back as `floor(time / 60)` minutes and the rounded seconds |
| `ChordDisplay.TimelineClockUnderAMinute` | src/components/ChordDisplay.tsx:70 | from 9.5 s to under a minute the row's clock is `0:` followed by the seconds rounded to the nearest whole number, unpadded |
| `ChordDisplay.Timeline` | src/components/ChordDisplay.tsx:64-77 | one row per chord in input order, with its name and duration; for a non-negative time the row's clock reads back as `floor(time / 60)` and the rounded seconds; for a whole non-negative time it is the player's `m:ss` text |
| `ChordDisplay.TimelineAgreesOnWholeSeconds` | src/components/ChordDisplay.tsx:70 | on whole seconds the rounding `toFixed(0)` and the player's floor give the same text |
| `ChordDisplay.TimelineShowsSixty` | src/components/ChordDisplay.tsx:70 | from 59.5 s to under a minute the timeline shows `0:60` |
| `ChordDisplay.PlayerShowsFiftyNine` | src/components/AudioPlayer.tsx:76-80 | from 59 s to under a minute the player shows `0:59` |
| `ChordDisplay.TimelineRoundsWherePlayerFloors` | src/components/ChordDisplay.tsx:70 | from 59.5 s to under a minute the timeline shows `0:60` while the player shows `0:59` |
| `MusicSheetView.RenderStaff` | src/components/MusicSheetView.tsx:18-48 | the staff has exactly 5 lines; its symbols are the first `min(4, n)` chord names in order; there is one note head per symbol |
| `MusicSheetView.BarLabelRoundTrip` | src/components/MusicSheetView.tsx:81 | the caption `Bar k` reads back as `k` |
| `MusicSheetView.Summary` | src/components/MusicSheetView.tsx:78-83 | one card per chord in input order, with its name; card `i` (from 0) reads `Bar i+1` |
| `MusicSheetView.SummaryLabelsDistinct` | src/components/MusicSheetView.tsx:81 | no two summary cards carry the same caption |
| `MusicSheetView.RenderSheet` | src/components/MusicSheetView.tsx:67-68 | the key and time-signature texts are "Key of C Major" and "4/4 Time Signature", whatever the chords |
| `IndexPage.FixedListsEveryTwoSeconds` | src/pages/Index.tsx:29-35 | both fixed lists consist of 2-second chords, the i-th starting at `2 * i` |
| `IndexPage.EveryTwoSecondsIsContiguous` | src/pages/Index.tsx:60-65 | such a list starts at 0 and each chord starts where the previous one ends; it ends at `2 * n` |
| `IndexPage.ActiveChordEveryTwoSeconds` | src/pages/Index.tsx:29-35 | in such a list the active chord at `t` in `[0, 2n)` is the one at index `floor(t / 2)`; outside that span none is active |
| `IndexPage.PageChordsAtMostOneActive` | src/pages/Index.tsx:145 | whatever chord list the page holds and passes to the player, at most one chord contains any position |
| `IndexPage.Page.constructor` | src/pages/Index.tsx:15-18 | the page starts with no file, an empty URL, not processing and no chords |
| `IndexPage.Page.ShowPlayer` | src/pages/Index.tsx:140 | definition: the player is shown when a file is set or the URL is non-empty; `EditUrl`, `HandleFileUpload` and `HandleUrlSubmit` state it |
| `IndexPage.Page.ShowResults` | src/pages/Index.tsx:151 | definition: the result tabs are shown when there are chords; `CompleteNext` states it |
| `IndexPage.Page.SubmitDisabled` | src/pages/Index.tsx:129 | definition: the submit button is disabled while processing; `HandleFileUpload` and `CompleteNext` state it |
| `IndexPage.Page.EditUrl` | src/pages/Index.tsx:124 | typing sets `audioUrl`; the player is shown exactly when a file is set or the text is non-empty, before any submission |
| `IndexPage.Page.HandleFileUpload` | src/pages/Index.tsx:23-25 | with no validation the file is set, the page is processing (submit disabled, player shown) and one file completion is queued |
| `IndexPage.Page.HandleUrlSubmit` | src/pages/Index.tsx:45-56 | an empty URL gives the error notice and changes nothing; otherwise `audioUrl` is the URL, the page is processing and one URL completion is queued |
| `IndexPage.Page.CompleteNext` | src/pages/Index.tsx:28-42 | the earliest queued completion installs `[C,Am,F,G,C]` (file) or `[Am,F,C,G]` (URL), shows its success notice, clears `isProcessing` and shows the results |

## Left out

- JSX markup, CSS classes, icons, tabs (`currentTab`), the Card, Slider and Button components, and toast rendering are presentation. A toast is modelled only as the notice value a handler produces.
- The media element is not modelled: `play`/`pause`, `URL.createObjectURL`/`revokeObjectURL`, the `audioSrc` effect and the event-listener wiring. Only the two properties the handlers write (`currentTime`, `volume`) and the existence check `audioRef.current` are kept. Listeners are modelled as methods that receive the element's value.
- The listener cleanup at src/components/AudioPlayer.tsx:44 passes a new function, so it never removes the `ended` listener. This is an effect-lifecycle matter and is not modelled.
- Timing is not modelled. The 3000 ms `setTimeout` is the explicit step `Page.CompleteNext`, and interleavings with other events are arbitrary calls.
- Floating point is not modelled. Numbers are exact reals. `toFixed` is modelled as exact rounding, and `audio.duration` being NaN before metadata loads is out.
- The duration text `(Ns)` of a timeline row keeps the duration as a number; JavaScript's decimal rendering of non-integer numbers is not modelled.
- `ChordDisplay.Diagram`: a chord name that is an inherited object property (for example `constructor`) would find a non-array in the JavaScript table; names are treated as plain map keys.
- `AudioPlayer.Player.HandleSeek` and `AudioPlayer.Player.HandleVolumeChange`: require a non-empty slider value because the source reads `value[0]`; the slider always supplies one.
- src/components/AudioUploader.tsx is not part of this model. It forwards the first accepted file to `handleFileUpload`, and its file-type filtering happens inside the drop-zone library.
- `musicSheet` state in the page is declared but never set, so it is not modelled.
