# Article-Pod dashboard: player and display helpers in Dafny

Article-Pod is a browser dashboard. Users paste article URLs, a backend turns each
article into speech, and the dashboard plays the audio with transport controls:
play/pause, seek slider, skip forward 15 s, restart and speed. This project models
the part of the client whose behaviour does not depend on the browser or the network:

- **Display helpers** from `src/lib/utils.ts`:
  - `formatTime` renders a position as `M:SS`. Module `Utils`, with `Decimal` for
    JavaScript's decimal `toString` and `padStart`.
  - `getReadableVoiceName` maps the ten speech-model ids to labels.
- **Player** from `src/app/dashboard/page.tsx`. Module `Player`.
  - The page's React state and the media element's position form one immutable
    `PlayerState` record.
  - Every handler and media-event listener is a pure transition on it.
  - The asynchronous `play()` outcome is a boolean parameter.
  - The element's position (`elementTime`) is kept apart from the displayed position
    (`currentTime`). Skip forward writes seconds to the element but a percentage of
    the duration to the displayed state. The model keeps that behaviour
    (`Player.SkipShowsPercentage`, `View.SkipShowsWrongElapsed`). The next time
    update puts the two back in step (`Player.TickResynchronises`).
  - `Player.Valid` is the invariant every handler keeps:
    - times are non-negative and the speed is positive;
    - error messages are non-empty;
    - the player plays only a selected article with an audio URL, and never with an
      error showing.
  - `Player.Run` folds a sequence of events and proves the invariant for every
    reachable state.
- **View** (`View.Display`): what the player part of the page shows for a state.
  That is the title, voice label, slider value, both time labels, the error line and
  the button states.
- **Form** (module `Form`):
  - the blank-URL guard of `handleSubmit`, with ECMAScript `trim`;
  - clearing the field after a successful submission;
  - the voice selector's options.

Times are exact `real`s and whole numbers are unbounded `nat`s. The `<audio>` element
is always rendered (page.tsx:276-280), so the model treats `audioRef.current` as
always present.

Three behaviours of the code are kept as written:
- The slider position is not clamped; its range is guaranteed by the slider component
  (0 to 100).
- Skip forward writes a percentage to the displayed time rather than seconds.
- Restart calls `play()` only when the page believes it is playing. The model returns
  this as `CallPlay`.

## Model

| member | source | states |
|---|---|---|
| Decimal.NatToString | src/lib/utils.ts:11 | the minutes are rendered as canonical decimal: non-empty, digits only, no leading zero except for 0 itself |
| Decimal.ParseNatToString | src/lib/utils.ts:11 | reading the decimal rendering back gives the number (round trip) |
| Decimal.PadStart | src/lib/utils.ts:11 | `padStart(2, '0')`: result at least the width, ends with the original, everything before it is the fill |
| Decimal.ParsePadded | src/lib/utils.ts:11 | zero padding does not change the value of the seconds field |
| Utils.Clock | src/lib/utils.ts:9-10 | `floor(x/60)` and `floor(x % 60)` are the whole seconds divided by 60 and their remainder mod 60 |
| Utils.FormatTime | src/lib/utils.ts:8-12 | the output is `M:SS`: exactly one ':' (third from the end), digits elsewhere, no leading zero in the minutes; the 2-char seconds field reads `floor(x) % 60` (below 60) and the minutes field `floor(x) / 60` |
| Utils.FormatTimeWholeSeconds | src/lib/utils.ts:9-10 | positions within the same whole second render identically |
| Utils.FormatTimeRoundTrip | src/lib/utils.ts:8-12 | parsing `M:SS` back yields the whole number of seconds: `minutes*60 + secs == floor(x)` |
| Utils.FormatTimeExamples | src/lib/utils.ts:8-12 | 0 → "0:00", 5 → "0:05", 15 → "0:15", 65 → "1:05" |
| Utils.ReadableVoiceName | src/lib/utils.ts:15-30 | an id outside the map is returned unchanged; a known id yields one of the labels, which is never itself an id; non-empty in, non-empty out |
| Utils.VoiceIds | src/lib/utils.ts:16-27 | the known ids are exactly `en-US-Standard-A` to `en-US-Standard-J` |
| Utils.KnownVoiceNames | src/lib/utils.ts:16-27 | each of the ten ids maps to its label (e.g. C → "English US - Female (C)") |
| Utils.UnknownVoiceNames | src/lib/utils.ts:29 | "", "xx-unknown" and "toString" come back unchanged |
| Utils.VoiceLabelsDistinct | src/lib/utils.ts:16-27 | distinct known ids have distinct labels |
| Utils.ReadableVoiceNameIdempotent | src/lib/utils.ts:15-30 | converting a converted name changes nothing |
| Utils.ReadableVoiceNameAsWritten | src/lib/utils.ts:16-29 | the object-literal lookup as written: agrees with `ReadableVoiceName` except on inherited `Object.prototype` member names, where it yields the inherited member |
| Utils.AsWrittenReturnsInheritedMember | src/lib/utils.ts:29 | for "toString", which is not a voice id, the lookup as written does not return the id |
| Player.InitialValid | src/app/dashboard/page.tsx:36-52 | the state on mount (nothing selected, paused, times 0, speed 1, no error) satisfies the invariant |
| Player.SelectArticle | src/app/dashboard/page.tsx:105-110 | selecting binds the article, pauses, zeroes the displayed time and clears the error; duration, speed and element position are kept; the invariant is kept |
| Player.SelectForgetsSession | src/app/dashboard/page.tsx:105-110 | the result does not depend on the previous article, play state, position or error |
| Player.TogglePlayPause | src/app/dashboard/page.tsx:79-95 | no-op without a playable article; playing → paused with pause(); paused → play() then playing iff it succeeded, error cleared iff it succeeded; pausing keeps the error; positions, duration and speed untouched |
| Player.ToggleRoundTrip | src/app/dashboard/page.tsx:79-95 | in a valid playing state, pause then a successful play returns the same state |
| Player.FailedPlayShowsError | src/app/dashboard/page.tsx:89-92 | a failed play leaves the player paused with the non-empty "Unable to play audio" message |
| Player.PlayingOnlyWhenPlayable | src/app/dashboard/page.tsx:79-95 | after any sequence of events from mount, playing implies a selected article with an audio URL and no error |
| Player.SliderChange | src/app/dashboard/page.tsx:97-103 | a zero duration leaves the state unchanged; otherwise element and display both get the position with `pos*100 == p*duration`; nothing else changes |
| Player.SliderBounds | src/app/dashboard/page.tsx:97-103 | for p in [0,100] the position stays in [0, duration]; p=0 gives 0 and p=100 gives exactly the duration |
| Player.SkipForward | src/app/dashboard/page.tsx:152-163 | element → `min(t+15, duration)`: never beyond the duration, never backwards from within the media; display gets the element position as a percentage of the duration, and 100 when the element lands on the end (a zero duration included); nothing else changes |
| Player.SkipIsClampedAdvance | src/app/dashboard/page.tsx:152-163 | the new element position is `min(t+15, duration)` |
| Player.SkipShowsPercentage | src/app/dashboard/page.tsx:157 | at 0 s of 300 s, skip puts the element at 15 but the displayed time at 5 |
| Player.Restart | src/app/dashboard/page.tsx:141-150 | both positions become 0; play() is called iff playing; the play state and everything else are kept |
| Player.RestartIdempotent | src/app/dashboard/page.tsx:141-150 | restarting twice is restarting once |
| Player.SpeedChange | src/app/dashboard/page.tsx:165-171 | only the speed changes; a positive speed keeps the invariant |
| Player.SpeedChangeUndone | src/app/dashboard/page.tsx:165-171 | the play state is kept and changing back restores the state |
| Player.LoadedMetadata | src/app/dashboard/page.tsx:72-77 | the duration becomes the element's, the displayed time 0, nothing else changes |
| Player.MetadataKeepsPlayState | src/app/dashboard/page.tsx:72-77 | loaded metadata neither starts nor stops playback nor changes the article |
| Player.TimeUpdate | src/app/dashboard/page.tsx:66-70 | the display and the element both take the reported position; nothing else changes |
| Player.TickResynchronises | src/app/dashboard/page.tsx:66-70 | after a time update the displayed and element positions agree |
| Player.MediaError | src/app/dashboard/page.tsx:114-118 | the error listener stops playback and shows a non-empty message; nothing else changes |
| Player.ErrorThenRetry | src/app/dashboard/page.tsx:114-118 | after a media error a successful play clears the message and plays again |
| Player.Step | src/app/dashboard/page.tsx:66-171 | only play/pause and restart issue play()/pause() calls on the element |
| Player.StepPreservesValid | src/app/dashboard/page.tsx:66-171 | every handler and listener keeps the invariant for inputs the slider, selector and element can produce |
| Player.Run | src/app/dashboard/page.tsx:66-171 | any sequence of such events from a valid state ends in a valid state |
| View.SliderPercent | src/app/dashboard/page.tsx:302 | slider value is 0 with no duration, otherwise `value*duration == pos*100`; within [0,100] while the position is within the media |
| View.Display | src/app/dashboard/page.tsx:288-312 | controls are enabled iff an article is selected; the title is the article's non-empty title, else a non-empty placeholder; the voice label is the article's readable model name; the pause icon shows iff playing; the slider shows the displayed time as a percentage; an error is shown iff it is non-empty; the time labels are `formatTime` of the displayed time and of the duration, and read back as their whole seconds |
| View.SliderShowsDraggedPercent | src/app/dashboard/page.tsx:97-103 | after dragging to p the slider shows exactly p (seconds ↔ percent round trip) |
| View.SelectShowsStart | src/app/dashboard/page.tsx:105-110 | after selecting: "0:00", slider at 0, no error, play icon, the article's title (or the placeholder) and voice label |
| View.SkipShowsWrongElapsed | src/app/dashboard/page.tsx:157 | at 0 s of 300 s, after skip the page shows "0:05" while the element is at "0:15" |
| View.MetadataShowsStart | src/app/dashboard/page.tsx:72-77 | after metadata: "0:00", slider at 0, total shows the new duration, play icon unchanged |
| Form.TrimEmptyIffBlank | src/app/dashboard/page.tsx:56 | `trim()` gives "" exactly when every character is ECMAScript white space |
| Form.HandleSubmit | src/app/dashboard/page.tsx:55-58 | a submission is sent iff the URL has a non-white-space character; it carries the URL untrimmed and the chosen voice |
| Form.SubmissionSettled | src/app/dashboard/page.tsx:60-64 | success empties the URL field, failure keeps the form, the voice always stays |
| Form.NoResubmitAfterSuccess | src/app/dashboard/page.tsx:55-64 | after a successful submission, submitting again sends nothing |
| Form.VoiceOptionLabels | src/app/dashboard/page.tsx:205-234 | every selector option shows the label the player later displays for that voice |
| Form.OfferedVoicesKnown | src/app/dashboard/page.tsx:205-234 | every offered voice is a known id |
| Form.KnownVoicesOffered | src/app/dashboard/page.tsx:205-234 | every known id is offered |
| Form.DefaultVoiceOffered | src/app/dashboard/page.tsx:39 | the initial voice is one of the options |

## Left out

- Listener subscription in `useEffect` (page.tsx:112-135) is not modelled: adding and removing listeners, React re-render timing and the async interleaving of `play()`. The listener bodies are modelled as events.
- The media element's own behaviour is not modelled. Only `Player.TimeUpdate` moves `elementTime` on its own; `Player.SelectArticle` and `Player.LoadedMetadata` keep the previous element position, so a skip right after selecting starts from that stale position until the first time update arrives.
- `parseFloat` in `handleSpeedChange` is not modelled. The handler receives the parsed number, and `EventAllowed` limits it to the six selector values.
- IEEE-754 is not modelled: NaN/Infinity durations, rounding, and negative inputs to `%`. Times are exact non-negative reals.
- Player.SkipForward: requires a non-negative element position. The media element never reports a negative one, and otherwise the division by a zero duration would be undefined.
- Utils.FormatTime: requires a non-negative input. Negative input is not covered, because JavaScript's truncating `%` on negative numbers is not modelled.
- The `onChange` setters for the URL field and the voice selector (page.tsx:195, 199) are not modelled. They only copy the new value into the form.
- `handleDeleteArticle` and the article list, plus the hooks for fetching, submission, deletion and voice preview, are not modelled. They are HTTP and react-query cache wrappers with no logic of their own.
- Logging is not modelled: the `console.error` calls in the play failure and media-error paths (page.tsx:92, 117) have no effect on state.
- `cn` (utils.ts:4-6) is not modelled. It wraps external class-name libraries.
- Markup, styling and the article card are not modelled.

## Findings

| source | as written | input that shows it | evidently intended | confidence | as-written member | corrected member |
|---|---|---|---|---|---|---|
| src/lib/utils.ts:29 | `voiceMap[model] \|\| model` indexes a plain object literal, which inherits the members of `Object.prototype` | `"toString"` (likewise `"constructor"`, `"valueOf"`, `"__proto__"`, ...) yields the inherited function instead of the id | an id not among the ten voices is returned unchanged, as the comment on that line says | medium, not executed | Utils.ReadableVoiceNameAsWritten, Utils.AsWrittenReturnsInheritedMember | Utils.ReadableVoiceName |
