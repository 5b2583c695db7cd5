/** The article form of the dashboard (src/app/dashboard/page.tsx): the URL
    field, the voice selector, the blank-URL guard of `handleSubmit` and the
    clearing of the field once a submission succeeds. */
module Form {
  import opened Types
  import opened Utils

  /** The characters `String.prototype.trim` removes: ECMAScript white space
      (tab, vertical tab, form feed, space, no-break space, byte order mark,
      the space separators) and line terminators. */
  predicate IsJsWhitespace(c: char) {
    || c == '\t' || c == '\n' || c == '\U{0B}' || c == '\U{0C}' || c == '\r' || c == ' '
    || c == '\U{A0}' || c == '\U{1680}' || ('\U{2000}' <= c <= '\U{200A}')
    || c == '\U{2028}' || c == '\U{2029}' || c == '\U{202F}' || c == '\U{205F}'
    || c == '\U{3000}' || c == '\U{FEFF}'
  }

  predicate Blank(s: string) {
    forall i :: 0 <= i < |s| ==> IsJsWhitespace(s[i])
  }

  /** `s` without its leading white space. */
  function TrimStart(s: string): (r: string)
    ensures |r| <= |s| && r == s[|s| - |r|..]
    ensures Blank(s[..|s| - |r|])
    ensures r != [] ==> !IsJsWhitespace(r[0])
    decreases |s|
  {
    if s != [] && IsJsWhitespace(s[0]) then
      var r := TrimStart(s[1..]);
      assert s[|s| - |r|..] == s[1..][|s| - 1 - |r|..];
      assert s[..|s| - |r|] == [s[0]] + s[1..][..|s| - 1 - |r|];
      r
    else s
  }

  /** `s` without its trailing white space. */
  function TrimEnd(s: string): (r: string)
    ensures |r| <= |s| && r == s[..|r|]
    ensures Blank(s[|r|..])
    ensures r != [] ==> !IsJsWhitespace(r[|r| - 1])
    decreases |s|
  {
    if s != [] && IsJsWhitespace(s[|s| - 1]) then
      var r := TrimEnd(s[..|s| - 1]);
      assert s[..|r|] == s[..|s| - 1][..|r|];
      assert s[|r|..] == s[..|s| - 1][|r|..] + [s[|s| - 1]];
      r
    else s
  }

  /** `String.prototype.trim`. */
  function Trim(s: string): string {
    TrimEnd(TrimStart(s))
  }

  /** A string trims to nothing exactly when it is all white space. */
  lemma TrimEmptyIffBlank(s: string)
    ensures Trim(s) == "" <==> Blank(s)
  {
    var t := TrimStart(s);
    assert s == s[..|s| - |t|] + t;
  }

  /** The form: the URL typed so far and the chosen speech model. */
  datatype FormState = FormState(url: string, voice: string)

  const DefaultVoice := "en-US-Standard-A"
  const InitialForm := FormState("", DefaultVoice)

  /** The body `submitArticle` posts: the URL as typed (untrimmed) and the model. */
  datatype Submission = Submission(url: string, textToSpeechModel: string)

  /** `handleSubmit`: nothing is sent for a blank URL; otherwise the URL as
      typed is sent with the chosen voice. */
  function HandleSubmit(f: FormState): (r: Option<Submission>)
    ensures r.Some? <==> exists i :: 0 <= i < |f.url| && !IsJsWhitespace(f.url[i])
    ensures r.Some? ==> r.value.url == f.url && r.value.textToSpeechModel == f.voice
  {
    TrimEmptyIffBlank(f.url);
    if Trim(f.url) == "" then None else Some(Submission(f.url, f.voice))
  }

  /** The effect of the submission settling: success clears the URL field,
      failure keeps it for another try; the voice stays in both cases. */
  function SubmissionSettled(f: FormState, succeeded: bool): (r: FormState)
    ensures r.voice == f.voice
    ensures succeeded ==> r.url == ""
    ensures !succeeded ==> r == f
  {
    if succeeded then f.(url := "") else f
  }

  /** After a successful submission, pressing submit again sends nothing. */
  lemma NoResubmitAfterSuccess(f: FormState)
    ensures HandleSubmit(SubmissionSettled(f, true)).None?
  {
  }

  /** The voice selector: each option's value and the text it shows. */
  const VoiceOptions: seq<(string, string)> := [
    ("en-US-Standard-A", "English US - Female (A)"),
    ("en-US-Standard-B", "English US - Male (B)"),
    ("en-US-Standard-C", "English US - Female (C)"),
    ("en-US-Standard-D", "English US - Male (D)"),
    ("en-US-Standard-E", "English US - Female (E)"),
    ("en-US-Standard-F", "English US - Female (F)"),
    ("en-US-Standard-G", "English US - Female (G)"),
    ("en-US-Standard-H", "English US - Female (H)"),
    ("en-US-Standard-I", "English US - Male (I)"),
    ("en-US-Standard-J", "English US - Male (J)")
  ]

  /** `v` is the value of one of the options. */
  predicate Offers(options: seq<(string, string)>, v: string) {
    exists i :: 0 <= i < |options| && options[i].0 == v
  }

  /** Each option shows the label the player later displays for its voice. */
  lemma VoiceOptionLabels()
    ensures forall i :: 0 <= i < |VoiceOptions| ==> ReadableVoiceName(VoiceOptions[i].0) == VoiceOptions[i].1
  {
  }

  /** Every option the selector offers is a known voice. */
  lemma OfferedVoicesKnown(v: string)
    requires Offers(VoiceOptions, v)
    ensures v in VoiceMap
  {
    assert forall i :: 0 <= i < |VoiceOptions| ==> VoiceOptions[i].0 in VoiceMap;
  }

  /** Every known voice is offered by the selector. */
  lemma KnownVoicesOffered(v: string)
    requires v in VoiceMap
    ensures Offers(VoiceOptions, v)
  {
    VoiceIds();
    if v == VoiceOptions[0].0 { assert Offers(VoiceOptions, v); }
    else if v == VoiceOptions[1].0 { assert Offers(VoiceOptions, v); }
    else if v == VoiceOptions[2].0 { assert Offers(VoiceOptions, v); }
    else if v == VoiceOptions[3].0 { assert Offers(VoiceOptions, v); }
    else if v == VoiceOptions[4].0 { assert Offers(VoiceOptions, v); }
    else if v == VoiceOptions[5].0 { assert Offers(VoiceOptions, v); }
    else if v == VoiceOptions[6].0 { assert Offers(VoiceOptions, v); }
    else if v == VoiceOptions[7].0 { assert Offers(VoiceOptions, v); }
    else if v == VoiceOptions[8].0 { assert Offers(VoiceOptions, v); }
    else { assert v == VoiceOptions[9].0; }
  }

  /** The default voice is one of the options. */
  lemma DefaultVoiceOffered()
    ensures Offers(VoiceOptions, InitialForm.voice)
  {
    assert VoiceOptions[0].0 == InitialForm.voice;
  }
}
