/** The audio player of the dashboard page (src/app/dashboard/page.tsx) as a
    state machine. The React state (`selectedArticle`, `isPlaying`,
    `currentTime`, `duration`, `audioError`, `playbackSpeed`) and the media
    element's own position are one immutable record; every handler and media
    event listener is a pure transition on it. */
module Player {
  import opened Types

  /** The player's state. `currentTime` is the position the page displays,
      `elementTime` the position of the `<audio>` element; the two are kept
      apart because skip-forward writes different values to each. */
  datatype PlayerState = PlayerState(
    selected: Option<Article>,
    isPlaying: bool,
    currentTime: real,
    elementTime: real,
    duration: real,
    audioError: Option<string>,
    playbackSpeed: real)

  /** The state on mount: nothing selected, paused, zero times, normal speed. */
  const Initial := PlayerState(None, false, 0.0, 0.0, 0.0, None, 1.0)

  const PlayFailedMessage := "Unable to play audio. Please try again later."
  const LoadFailedMessage := "Error loading audio file"
  const SkipSeconds := 15.0

  /** The speeds the speed selector offers. */
  const SpeedChoices: seq<real> := [0.5, 1.0, 1.25, 1.5, 1.75, 2.0]

  /** A call a handler makes on the media element besides writing its position. */
  datatype MediaCall = NoCall | CallPlay | CallPause

  datatype Transition = Transition(next: PlayerState, call: MediaCall)

  /** The article can be played: one is selected and its audio URL is not empty. */
  predicate Playable(s: PlayerState) {
    s.selected.Some? && s.selected.value.audioUrl != ""
  }

  /** What holds of every state the page can reach: positions and duration
      are not negative, the speed is positive, an error message is never
      empty, and the player is only ever playing a playable article with no
      error showing. */
  predicate Valid(s: PlayerState) {
    && 0.0 <= s.currentTime
    && 0.0 <= s.elementTime
    && 0.0 <= s.duration
    && 0.0 < s.playbackSpeed
    && (s.audioError.Some? ==> s.audioError.value != "")
    && (s.isPlaying ==> Playable(s) && s.audioError.None?)
  }

  /** `handleArticleSelect`: bind the article and start its session afresh. */
  function SelectArticle(s: PlayerState, article: Article): (r: PlayerState)
    ensures r.selected == Some(article)
    ensures !r.isPlaying && r.currentTime == 0.0 && r.audioError.None?
    ensures r.(selected := s.selected, isPlaying := s.isPlaying, currentTime := s.currentTime,
               audioError := s.audioError) == s
    ensures Valid(s) ==> Valid(r)
  {
    s.(selected := Some(article), isPlaying := false, currentTime := 0.0, audioError := None)
  }

  /** `togglePlayPause`. `playSucceeds` is the outcome of the element's
      asynchronous `play()`. Without a playable article nothing happens;
      playing pauses; paused tries to play and either plays with the error
      cleared or stays paused with the failure message. */
  function TogglePlayPause(s: PlayerState, playSucceeds: bool): (t: Transition)
    ensures !Playable(s) ==> t == Transition(s, NoCall)
    ensures Playable(s) && s.isPlaying ==> !t.next.isPlaying && t.call == CallPause
    ensures Playable(s) && s.isPlaying ==> t.next.audioError == s.audioError
    ensures Playable(s) && !s.isPlaying ==> t.call == CallPlay
    ensures Playable(s) && !s.isPlaying ==>
              (t.next.isPlaying <==> playSucceeds) && (t.next.audioError.None? <==> playSucceeds)
    ensures t.next.selected == s.selected && t.next.currentTime == s.currentTime
    ensures t.next.elementTime == s.elementTime && t.next.duration == s.duration
    ensures t.next.playbackSpeed == s.playbackSpeed
    ensures Valid(s) ==> Valid(t.next)
  {
    if !Playable(s) then Transition(s, NoCall)
    else if s.isPlaying then Transition(s.(isPlaying := false), CallPause)
    else if playSucceeds then Transition(s.(isPlaying := true, audioError := None), CallPlay)
    else Transition(s.(isPlaying := false, audioError := Some(PlayFailedMessage)), CallPlay)
  }

  /** `handleSliderChange`: the slider's percentage `percent` becomes an
      absolute position for both the element and the display; ignored while
      the duration is zero (not yet known). */
  function SliderChange(s: PlayerState, percent: real): (r: PlayerState)
    ensures s.duration == 0.0 ==> r == s
    ensures s.duration != 0.0 ==> r.elementTime == r.currentTime && r.currentTime * 100.0 == percent * s.duration
    ensures Valid(s) && 0.0 <= percent ==> Valid(r)
    ensures r.(currentTime := s.currentTime, elementTime := s.elementTime) == s
  {
    if s.duration != 0.0 then
      var newTime := (percent / 100.0) * s.duration;
      s.(elementTime := newTime, currentTime := newTime)
    else s
  }

  /** The smaller of two reals. */
  function Min(a: real, b: real): (m: real)
    ensures m <= a && m <= b && (m == a || m == b)
  {
    if a <= b then a else b
  }

  /** `handleSkipForward`: the element moves fifteen seconds on, or to the
      end when that would reach or pass the duration. The display receives
      the new position as a PERCENTAGE of the duration (or 100), not in
      seconds, exactly as the page does. Needs a non-negative element
      position, which the media element guarantees. */
  function SkipForward(s: PlayerState): (r: PlayerState)
    requires 0.0 <= s.elementTime
    ensures r.elementTime == Min(s.elementTime + SkipSeconds, s.duration)
    ensures r.elementTime <= s.duration
    ensures s.elementTime <= s.duration ==> s.elementTime <= r.elementTime
    ensures s.duration != 0.0 ==> r.currentTime == r.elementTime / s.duration * 100.0
    ensures r.elementTime == s.duration ==> r.currentTime == 100.0
    ensures Valid(s) ==> Valid(r)
    ensures r.(currentTime := s.currentTime, elementTime := s.elementTime) == s
  {
    var newTime := s.elementTime + SkipSeconds;
    if newTime < s.duration then
      s.(elementTime := newTime, currentTime := (newTime / s.duration) * 100.0)
    else
      s.(elementTime := s.duration, currentTime := 100.0)
  }

  /** `handleRestart`: both positions go back to zero; a playing player asks
      the element to play again (this resumes it after it reached the end),
      a paused one stays paused. */
  function Restart(s: PlayerState): (t: Transition)
    ensures t.next.currentTime == 0.0 && t.next.elementTime == 0.0
    ensures t.call == (if s.isPlaying then CallPlay else NoCall)
    ensures Valid(s) ==> Valid(t.next)
    ensures t.next.(currentTime := s.currentTime, elementTime := s.elementTime) == s
  {
    Transition(s.(elementTime := 0.0, currentTime := 0.0), if s.isPlaying then CallPlay else NoCall)
  }

  /** `handleSpeedChange`, given the parsed speed: only the speed changes. */
  function SpeedChange(s: PlayerState, speed: real): (r: PlayerState)
    ensures r.playbackSpeed == speed
    ensures Valid(s) && 0.0 < speed ==> Valid(r)
    ensures r.(playbackSpeed := s.playbackSpeed) == s
  {
    s.(playbackSpeed := speed)
  }

  /** `handleLoadedMetadata`: the element reports its duration; the display
      goes back to zero and the play state is left alone. */
  function LoadedMetadata(s: PlayerState, elementDuration: real): (r: PlayerState)
    ensures r.duration == elementDuration && r.currentTime == 0.0
    ensures Valid(s) && 0.0 <= elementDuration ==> Valid(r)
    ensures r.(duration := s.duration, currentTime := s.currentTime) == s
  {
    s.(duration := elementDuration, currentTime := 0.0)
  }

  /** `handleTimeUpdate`: the element reports its position and the display
      follows it. */
  function TimeUpdate(s: PlayerState, position: real): (r: PlayerState)
    ensures r.currentTime == position && r.elementTime == position
    ensures Valid(s) && 0.0 <= position ==> Valid(r)
    ensures r.(currentTime := s.currentTime, elementTime := s.elementTime) == s
  {
    s.(elementTime := position, currentTime := position)
  }

  /** The `error` listener: the element failed; show the load error and stop. */
  function MediaError(s: PlayerState): (r: PlayerState)
    ensures !r.isPlaying && r.audioError.Some? && r.audioError.value != ""
    ensures Valid(s) ==> Valid(r)
    ensures r.(isPlaying := s.isPlaying, audioError := s.audioError) == s
  {
    s.(isPlaying := false, audioError := Some(LoadFailedMessage))
  }

  /** Everything that can happen to the player: user actions and media events. */
  datatype Event =
    | Select(article: Article)
    | Toggle(playSucceeds: bool)
    | Slide(percent: real)
    | Skip
    | RestartPressed
    | Speed(speed: real)
    | Metadata(elementDuration: real)
    | Tick(position: real)
    | ElementError

  /** What the page and the media element guarantee about an event's data:
      the slider spans 0 to 100, the element reports non-negative positions
      and durations, and speeds come from the speed selector. */
  predicate EventAllowed(e: Event) {
    match e
    case Slide(p) => 0.0 <= p <= 100.0
    case Speed(x) => x in SpeedChoices
    case Metadata(d) => 0.0 <= d
    case Tick(t) => 0.0 <= t
    case _ => true
  }

  function Step(s: PlayerState, e: Event): (t: Transition)
    requires 0.0 <= s.elementTime
    ensures e.Toggle? || e.RestartPressed? || t.call == NoCall
  {
    match e
    case Select(a) => Transition(SelectArticle(s, a), NoCall)
    case Toggle(ok) => TogglePlayPause(s, ok)
    case Slide(p) => Transition(SliderChange(s, p), NoCall)
    case Skip => Transition(SkipForward(s), NoCall)
    case RestartPressed => Restart(s)
    case Speed(x) => Transition(SpeedChange(s, x), NoCall)
    case Metadata(d) => Transition(LoadedMetadata(s, d), NoCall)
    case Tick(t) => Transition(TimeUpdate(s, t), NoCall)
    case ElementError => Transition(MediaError(s), NoCall)
  }

  lemma InitialValid()
    ensures Valid(Initial)
  {
  }

  /** Every handler keeps the state valid. */
  lemma StepPreservesValid(s: PlayerState, e: Event)
    requires Valid(s) && EventAllowed(e)
    ensures Valid(Step(s, e).next)
  {
  }

  /** The state after a sequence of events. */
  function Run(s: PlayerState, events: seq<Event>): (r: PlayerState)
    requires Valid(s)
    requires forall i :: 0 <= i < |events| ==> EventAllowed(events[i])
    ensures Valid(r)
    decreases |events|
  {
    if events == [] then s
    else
      StepPreservesValid(s, events[0]);
      Run(Step(s, events[0]).next, events[1..])
  }

  /** Hence the player never plays without a playable article, and never
      plays with an error on screen, whatever happened before. */
  lemma PlayingOnlyWhenPlayable(events: seq<Event>)
    requires forall i :: 0 <= i < |events| ==> EventAllowed(events[i])
    ensures var r := Run(Initial, events); r.isPlaying ==> Playable(r) && r.audioError.None?
  {
  }

  /** Selecting an article resets the session whatever the previous one was:
      states that differ only in play state, position, error and article
      lead to the same state. */
  lemma SelectForgetsSession(s: PlayerState, s': PlayerState, article: Article)
    requires s.elementTime == s'.elementTime && s.duration == s'.duration
    requires s.playbackSpeed == s'.playbackSpeed
    ensures SelectArticle(s, article) == SelectArticle(s', article)
  {
  }

  /** Slider extremes: 0 seeks to the start and 100 exactly to the end; in
      between the position stays within the media. */
  lemma SliderBounds(s: PlayerState, percent: real)
    requires 0.0 < s.duration && 0.0 <= percent <= 100.0
    ensures 0.0 <= SliderChange(s, percent).elementTime <= s.duration
    ensures SliderChange(s, 0.0).elementTime == 0.0
    ensures SliderChange(s, 100.0).elementTime == s.duration
  {
    var t := SliderChange(s, percent).elementTime;
    assert t == (percent / 100.0) * s.duration;
    assert percent / 100.0 <= 1.0;
  }

  /** Skip forward is `min(t + 15, duration)` on the element: the `Min` clause
      of `SkipForward`'s contract unfolded through `Min`'s own contract. */
  lemma SkipIsClampedAdvance(s: PlayerState)
    requires 0.0 <= s.elementTime
    ensures var t := SkipForward(s).elementTime;
            t <= s.elementTime + SkipSeconds && t <= s.duration
            && (t == s.elementTime + SkipSeconds || t == s.duration)
  {
  }

  /** The display after a skip: 300 seconds long, at the start; the element
      moves to second 15 while the displayed position becomes 5 (per cent). */
  lemma SkipShowsPercentage()
    ensures var s := Initial.(duration := 300.0);
            var r := SkipForward(s);
            r.elementTime == 15.0 && r.currentTime == 5.0 && r.currentTime != r.elementTime
  {
  }

  /** The next time update puts the display back in step with the element. */
  lemma TickResynchronises(s: PlayerState, position: real)
    ensures TimeUpdate(s, position).currentTime == TimeUpdate(s, position).elementTime
  {
  }

  /** Restarting twice is restarting once. */
  lemma RestartIdempotent(s: PlayerState)
    ensures Restart(Restart(s).next) == Restart(s)
  {
  }

  /** In a valid playing state, pausing and then playing successfully gives
      the state back: play/pause is an involution. */
  lemma ToggleRoundTrip(s: PlayerState)
    requires Valid(s) && s.isPlaying
    ensures TogglePlayPause(TogglePlayPause(s, true).next, true).next == s
  {
  }

  /** A failed play always leaves the player paused with a message shown. */
  lemma FailedPlayShowsError(s: PlayerState)
    requires Playable(s) && !s.isPlaying
    ensures var r := TogglePlayPause(s, false).next;
            !r.isPlaying && r.audioError == Some(PlayFailedMessage) && PlayFailedMessage != ""
  {
  }

  /** A media error does not wedge the player: with a playable article the
      next successful play clears the message and plays. */
  lemma ErrorThenRetry(s: PlayerState)
    requires Playable(s)
    ensures var r := TogglePlayPause(MediaError(s), true);
            r.next.isPlaying && r.next.audioError.None? && r.call == CallPlay
  {
  }

  /** Loaded metadata never starts or stops playback. */
  lemma MetadataKeepsPlayState(s: PlayerState, d: real)
    ensures LoadedMetadata(s, d).isPlaying == s.isPlaying
    ensures LoadedMetadata(s, d).selected == s.selected
  {
  }

  /** A speed change neither starts nor stops playback and is undone by
      changing back to the previous speed. */
  lemma SpeedChangeUndone(s: PlayerState, speed: real)
    ensures SpeedChange(s, speed).isPlaying == s.isPlaying
    ensures SpeedChange(SpeedChange(s, speed), s.playbackSpeed) == s
  {
  }
}
