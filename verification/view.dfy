/** What the player part of the dashboard shows for a given state
    (src/app/dashboard/page.tsx, the player markup): title, voice label,
    slider value, the two time labels, the error line and the enabled and
    play/pause look of the transport buttons. */
module View {
  import opened Types
  import opened Decimal
  import opened Utils
  import opened Player

  const NoArticleTitle := "No article selected"

  datatype Screen = Screen(
    title: string,
    voiceLabel: string,
    sliderValue: real,
    elapsed: string,
    total: string,
    errorText: Option<string>,
    controlsEnabled: bool,
    showsPause: bool)

  /** The slider's value: the displayed position as a percentage of the
      duration, or 0 while the duration is zero. */
  function SliderPercent(position: real, duration: real): (p: real)
    requires 0.0 <= position && 0.0 <= duration
    ensures duration == 0.0 ==> p == 0.0
    ensures 0.0 <= p
    ensures position <= duration ==> p <= 100.0
    ensures duration != 0.0 ==> p * duration == position * 100.0
  {
    if duration != 0.0 then
      var q := position / duration;
      assert 0.0 <= q;
      assert position <= duration ==> q <= 1.0;
      assert q * duration == position;
      q * 100.0
    else 0.0
  }

  /** The rendering of a state. An empty title falls back to the placeholder
      like a missing article does, and an empty error string is not shown. */
  function Display(s: PlayerState): (v: Screen)
    requires 0.0 <= s.currentTime && 0.0 <= s.duration
    ensures v.controlsEnabled <==> s.selected.Some?
    ensures v.title != ""
    ensures s.selected.Some? && s.selected.value.title != "" ==> v.title == s.selected.value.title
    ensures v.voiceLabel == (if s.selected.Some? then ReadableVoiceName(s.selected.value.speechModel) else "")
    ensures v.showsPause == s.isPlaying
    ensures v.sliderValue == SliderPercent(s.currentTime, s.duration)
    ensures s.audioError.Some? && s.audioError.value != "" ==> v.errorText == s.audioError
    ensures v.errorText.Some? ==> v.errorText.value != "" && s.audioError == v.errorText
    ensures s.duration == 0.0 ==> v.sliderValue == 0.0
    ensures 0.0 <= v.sliderValue
    ensures v.elapsed == FormatTime(s.currentTime) && v.total == FormatTime(s.duration)
    ensures ParseTime(v.elapsed) == Some(s.currentTime.Floor)
    ensures ParseTime(v.total) == Some(s.duration.Floor)
  {
    FormatTimeRoundTrip(s.currentTime);
    FormatTimeRoundTrip(s.duration);
    Screen(
      if s.selected.Some? && s.selected.value.title != "" then s.selected.value.title else NoArticleTitle,
      if s.selected.Some? then ReadableVoiceName(s.selected.value.speechModel) else "",
      SliderPercent(s.currentTime, s.duration),
      FormatTime(s.currentTime),
      FormatTime(s.duration),
      if s.audioError.Some? && s.audioError.value != "" then s.audioError else None,
      s.selected.Some?,
      s.isPlaying)
  }

  /** Dragging the slider to `percent` makes the slider show `percent` again:
      seconds and percentage convert back and forth exactly. */
  lemma SliderShowsDraggedPercent(s: PlayerState, percent: real)
    requires Valid(s) && s.duration != 0.0 && 0.0 <= percent <= 100.0
    ensures Display(SliderChange(s, percent)).sliderValue == percent
  {
    var d := s.duration;
    var r := SliderChange(s, percent);
    assert r.currentTime == (percent / 100.0) * d;
    assert 0.0 <= r.currentTime;
    calc {
      (r.currentTime / d) * 100.0;
      ((percent / 100.0) * d / d) * 100.0;
      { assert (percent / 100.0) * d / d == percent / 100.0; }
      percent;
    }
  }

  /** After selecting an article the player shows it from the start, paused,
      with no error. */
  lemma SelectShowsStart(s: PlayerState, article: Article)
    requires Valid(s)
    ensures var v := Display(SelectArticle(s, article));
            && v.elapsed == "0:00" && v.sliderValue == 0.0 && v.errorText.None?
            && !v.showsPause && v.controlsEnabled
            && v.title == (if article.title != "" then article.title else NoArticleTitle)
            && v.voiceLabel == ReadableVoiceName(article.speechModel)
  {
    FormatTimeAtZero();
  }

  /** Skipping fifteen seconds into a 300-second article shows "0:05" while
      the element plays at second 15, which would render as "0:15". */
  lemma SkipShowsWrongElapsed()
    ensures var s := Initial.(duration := 300.0);
            var r := SkipForward(s);
            && r.elementTime == 15.0
            && Display(r).elapsed == "0:05"
            && FormatTime(r.elementTime) == "0:15"
  {
    var r := SkipForward(Initial.(duration := 300.0));
    assert r.currentTime == 5.0 && r.elementTime == 15.0;
    FormatTimeAtFive();
    FormatTimeAtFifteen();
    assert Display(r).elapsed == FormatTime(r.currentTime);
  }

  /** Once the element reports its duration the player shows the start of
      the article against that duration, still playing or paused as before. */
  lemma MetadataShowsStart(s: PlayerState, d: real)
    requires Valid(s) && 0.0 <= d
    ensures var v := Display(LoadedMetadata(s, d));
            && v.elapsed == "0:00" && v.sliderValue == 0.0
            && v.total == FormatTime(d) && v.showsPause == s.isPlaying
  {
    FormatTimeAtZero();
  }
}
