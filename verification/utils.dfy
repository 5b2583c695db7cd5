/** The display helpers of src/lib/utils.ts: `formatTime` renders a position
    in seconds as `M:SS`, and `getReadableVoiceName` turns a speech-model id
    into the label shown to the user. */
module Utils {
  import opened Types
  import opened Decimal

  /** Minutes and seconds of a non-negative position, computed the way
      `formatTime` does: `Math.floor(seconds / 60)` and
      `Math.floor(seconds % 60)`. For non-negative operands JavaScript's `%`
      is `x - 60 * floor(x / 60)`. Both parts depend only on the whole number
      of seconds elapsed. */
  function Clock(seconds: real): (mm: (nat, nat))
    requires 0.0 <= seconds
    ensures mm.0 == seconds.Floor / 60 && mm.1 == seconds.Floor % 60
  {
    var n := seconds.Floor;
    var minutes := (seconds / 60.0).Floor;
    assert minutes == n / 60 by {
      assert 60 * (n / 60) <= n;
      assert (60 * (n / 60)) as real <= seconds;
      assert n < 60 * (n / 60) + 60;
      assert seconds < (60 * (n / 60) + 60) as real;
    }
    var remainder := seconds - 60.0 * minutes as real;
    assert remainder.Floor == n % 60 by {
      assert n == 60 * minutes + n % 60;
      assert (n % 60) as real <= remainder < (n % 60 + 1) as real;
    }
    (minutes, remainder.Floor)
  }

  /** `r` has the `M:SS` shape: at least four characters, the colon is the
      only non-digit and sits third from the end, and it does not start with
      a zero unless the minutes are the single digit 0. */
  predicate ClockShaped(r: string) {
    && |r| >= 4
    && (forall i :: 0 <= i < |r| ==> (r[i] == ':' <==> i == |r| - 3))
    && (forall i :: 0 <= i < |r| && i != |r| - 3 ==> IsDigit(r[i]))
    && (|r| > 4 ==> r[0] != '0')
  }

  /** The `M:SS` string `r` reads back as `minutes` before the colon and
      `secs` after it. */
  predicate Shows(r: string, minutes: nat, secs: nat)
    requires ClockShaped(r)
  {
    && AllDigits(r[..|r| - 3]) && ParseDigits(r[..|r| - 3]) == minutes
    && AllDigits(r[|r| - 2..]) && ParseDigits(r[|r| - 2..]) == secs
  }

  /** `m + ":" + f` for a canonical decimal `m` and a two-digit field `f` has
      the `M:SS` shape, with `m` before the colon and `f` after it. */
  lemma TimeShape(m: string, f: string)
    requires |m| >= 1 && AllDigits(m) && (|m| > 1 ==> m[0] != '0')
    requires |f| == 2 && AllDigits(f)
    ensures var r := m + ":" + f;
            ClockShaped(r) && r[..|r| - 3] == m && r[|r| - 2..] == f
  {
    var r := m + ":" + f;
    assert r[..|r| - 3] == m;
    assert r[|r| - 2..] == f;
    forall i | 0 <= i < |r|
      ensures (r[i] == ':' <==> i == |r| - 3)
      ensures i != |r| - 3 ==> IsDigit(r[i])
    {
      if i < |m| {
        assert r[i] == m[i];
      } else if i > |m| {
        assert r[i] == f[i - |m| - 1];
      }
    }
  }

  /** The seconds zero-padded to two characters. */
  function SecondsField(secs: nat): string {
    PadStart(NatToString(secs), 2, '0')
  }

  /** Below 60 the seconds field is exactly two digits and reads back as the
      seconds. */
  lemma SecondsFieldDigits(secs: nat)
    requires secs < 60
    ensures var f := SecondsField(secs); |f| == 2 && AllDigits(f) && ParseDigits(f) == secs
  {
    var digits := NatToString(secs);
    NatToStringLength(secs);
    ParsePadded(digits, 2);
    ParseNatToString(secs);
  }

  /** Minutes in plain decimal, a colon, then the seconds field. */
  function Render(minutes: nat, secs: nat): string {
    NatToString(minutes) + ":" + SecondsField(secs)
  }

  /** For seconds below 60 the rendering has the `M:SS` shape, and its two
      fields read back as the minutes and the seconds. */
  lemma RenderShape(minutes: nat, secs: nat)
    requires secs < 60
    ensures var r := Render(minutes, secs);
            ClockShaped(r) && Shows(r, minutes, secs)
  {
    var m := NatToString(minutes);
    var field := SecondsField(secs);
    SecondsFieldDigits(secs);
    ParseNatToString(minutes);
    TimeShape(m, field);
  }

  /** `formatTime`: minutes in plain decimal, a colon, then the seconds field
      zero-padded to two characters. The colon is the only non-digit and sits
      third from the end, the minutes field has no leading zero, the seconds
      field reads back as a value below 60 and the minutes field as the
      whole minutes. */
  function FormatTime(seconds: real): (r: string)
    requires 0.0 <= seconds
    ensures ClockShaped(r)
    ensures Shows(r, seconds.Floor / 60, seconds.Floor % 60)
  {
    var mm := Clock(seconds);
    RenderShape(mm.0, mm.1);
    Render(mm.0, mm.1)
  }

  /** Reads an `M:SS` string back into whole seconds: everything before the
      one colon is the minutes, the two characters after it the seconds. */
  function ParseTime(t: string): Option<nat> {
    if |t| >= 4 && t[|t| - 3] == ':' && AllDigits(t[..|t| - 3]) && AllDigits(t[|t| - 2..])
       && ParseDigits(t[|t| - 2..]) < 60
    then Some(ParseDigits(t[..|t| - 3]) * 60 + ParseDigits(t[|t| - 2..]))
    else None
  }

  /** An `M:SS` string whose seconds field is below 60 reads back as its
      minutes times 60 plus its seconds. */
  lemma ParseShaped(t: string)
    requires ClockShaped(t) && AllDigits(t[..|t| - 3]) && AllDigits(t[|t| - 2..])
    requires ParseDigits(t[|t| - 2..]) < 60
    ensures ParseTime(t) == Some(ParseDigits(t[..|t| - 3]) * 60 + ParseDigits(t[|t| - 2..]))
  {
    assert t[|t| - 3] == ':';
  }

  /** Joining a canonical decimal and a two-digit field below 60 with a colon
      gives a string that reads back as the decimal times 60 plus the field. */
  lemma JoinRoundTrip(m: string, f: string)
    requires |m| >= 1 && AllDigits(m) && (|m| > 1 ==> m[0] != '0')
    requires |f| == 2 && AllDigits(f) && ParseDigits(f) < 60
    ensures ParseTime(m + ":" + f) == Some(ParseDigits(m) * 60 + ParseDigits(f))
  {
    TimeShape(m, f);
    ParseShaped(m + ":" + f);
  }

  /** A rendering with seconds below 60 reads back as its total seconds. */
  lemma RenderRoundTrip(minutes: nat, secs: nat)
    requires secs < 60
    ensures ParseTime(Render(minutes, secs)) == Some(minutes * 60 + secs)
  {
    var m := NatToString(minutes);
    var field := SecondsField(secs);
    SecondsFieldDigits(secs);
    ParseNatToString(minutes);
    JoinRoundTrip(m, field);
  }

  /** A whole number of seconds, split into minutes and seconds and rendered,
      reads back as itself. */
  lemma RenderWholeRoundTrip(n: nat)
    ensures ParseTime(Render(n / 60, n % 60)) == Some(n)
  {
    var minutes, secs := n / 60, n % 60;
    assert minutes * 60 + secs == n;
    RenderRoundTrip(minutes, secs);
  }

  /** `formatTime` renders the whole minutes and the remaining whole seconds. */
  lemma FormatTimeRenders(seconds: real)
    requires 0.0 <= seconds
    ensures FormatTime(seconds) == Render(seconds.Floor / 60, seconds.Floor % 60)
  {
  }

  /** The rendered time reads back as the whole number of seconds, so for a
      whole number of seconds the rendering loses nothing. */
  lemma FormatTimeRoundTrip(seconds: real)
    requires 0.0 <= seconds
    ensures ParseTime(FormatTime(seconds)) == Some(seconds.Floor)
  {
    FormatTimeRenders(seconds);
    RenderWholeRoundTrip(seconds.Floor);
  }

  /** Positions within the same whole second render identically. */
  lemma FormatTimeWholeSeconds(seconds: real)
    requires 0.0 <= seconds
    ensures FormatTime(seconds) == FormatTime(seconds.Floor as real)
  {
  }

  /** A whole number of seconds renders as its minutes and its seconds. */
  lemma FormatWhole(n: nat)
    ensures FormatTime(n as real) == Render(n / 60, n % 60)
  {
    assert (n as real).Floor == n;
  }

  /** The values the player shows at start, five and fifteen seconds in, and
      a minute after five seconds. */
  lemma FormatTimeExamples()
    ensures FormatTime(0.0) == "0:00"
    ensures FormatTime(5.0) == "0:05"
    ensures FormatTime(15.0) == "0:15"
    ensures FormatTime(65.0) == "1:05"
  {
    FormatTimeAtZero();
    FormatTimeAtFive();
    FormatTimeAtFifteen();
    FormatTimeOverAMinute();
  }

  lemma FormatTimeAtZero()
    ensures FormatTime(0.0) == "0:00"
  {
    assert NatToString(0) == "0";
    assert PadStart("0", 2, '0') == "00";
    assert Render(0, 0) == "0:00";
    FormatWhole(0);
  }

  lemma FormatTimeAtFive()
    ensures FormatTime(5.0) == "0:05"
  {
    assert NatToString(0) == "0" && NatToString(5) == "5";
    assert PadStart("5", 2, '0') == "05";
    assert Render(0, 5) == "0:05";
    FormatWhole(5);
  }

  lemma FormatTimeAtFifteen()
    ensures FormatTime(15.0) == "0:15"
  {
    assert NatToString(0) == "0" && NatToString(15) == "15";
    assert PadStart("15", 2, '0') == "15";
    assert Render(0, 15) == "0:15";
    FormatWhole(15);
  }

  lemma FormatTimeOverAMinute()
    ensures FormatTime(65.0) == "1:05"
  {
    assert NatToString(1) == "1" && NatToString(5) == "5";
    assert PadStart("5", 2, '0') == "05";
    assert Render(1, 5) == "1:05";
    FormatWhole(65);
  }

  /** The ten speech models the backend offers, with their display labels. */
  const VoiceMap: map<string, string> := map[
    "en-US-Standard-A" := "English US - Female (A)",
    "en-US-Standard-B" := "English US - Male (B)",
    "en-US-Standard-C" := "English US - Female (C)",
    "en-US-Standard-D" := "English US - Male (D)",
    "en-US-Standard-E" := "English US - Female (E)",
    "en-US-Standard-F" := "English US - Female (F)",
    "en-US-Standard-G" := "English US - Female (G)",
    "en-US-Standard-H" := "English US - Female (H)",
    "en-US-Standard-I" := "English US - Male (I)",
    "en-US-Standard-J" := "English US - Male (J)"
  ]

  /** The known ids, listed. */
  lemma VoiceIds()
    ensures VoiceMap.Keys == {
      "en-US-Standard-A", "en-US-Standard-B", "en-US-Standard-C", "en-US-Standard-D",
      "en-US-Standard-E", "en-US-Standard-F", "en-US-Standard-G", "en-US-Standard-H",
      "en-US-Standard-I", "en-US-Standard-J" }
  {
  }

  /** `getReadableVoiceName`: the label of a known speech model; any other id
      is shown as it is. Lookup is by the map's own keys (see
      `ReadableVoiceNameAsWritten` for what the object-literal lookup does). */
  function ReadableVoiceName(model: string): (r: string)
    ensures r != "" || model == ""
    ensures model !in VoiceMap ==> r == model
    ensures model in VoiceMap ==> r in VoiceMap.Values && r !in VoiceMap
  {
    if model in VoiceMap then VoiceMap[model] else model
  }

  /** The ten known ids and their labels, one by one. */
  lemma KnownVoiceNames()
    ensures ReadableVoiceName("en-US-Standard-A") == "English US - Female (A)"
    ensures ReadableVoiceName("en-US-Standard-B") == "English US - Male (B)"
    ensures ReadableVoiceName("en-US-Standard-C") == "English US - Female (C)"
    ensures ReadableVoiceName("en-US-Standard-D") == "English US - Male (D)"
    ensures ReadableVoiceName("en-US-Standard-E") == "English US - Female (E)"
    ensures ReadableVoiceName("en-US-Standard-F") == "English US - Female (F)"
    ensures ReadableVoiceName("en-US-Standard-G") == "English US - Female (G)"
    ensures ReadableVoiceName("en-US-Standard-H") == "English US - Female (H)"
    ensures ReadableVoiceName("en-US-Standard-I") == "English US - Male (I)"
    ensures ReadableVoiceName("en-US-Standard-J") == "English US - Male (J)"
  {
  }

  /** Unknown ids, the empty one included, come back unchanged. */
  lemma UnknownVoiceNames()
    ensures ReadableVoiceName("") == ""
    ensures ReadableVoiceName("xx-unknown") == "xx-unknown"
    ensures ReadableVoiceName("toString") == "toString"
  {
  }

  /** A label names exactly one voice: distinct known ids get distinct labels. */
  lemma VoiceLabelsDistinct(a: string, b: string)
    requires a in VoiceMap && b in VoiceMap && a != b
    ensures ReadableVoiceName(a) != ReadableVoiceName(b)
  {
  }

  /** Labels are not ids themselves, so converting twice is converting once. */
  lemma ReadableVoiceNameIdempotent(model: string)
    ensures ReadableVoiceName(ReadableVoiceName(model)) == ReadableVoiceName(model)
  {
  }

  /** The members every JavaScript object literal inherits from
      `Object.prototype`; indexing the literal with one of these names finds
      the inherited member rather than `undefined`. */
  const ObjectPrototypeMembers: set<string> := {
    "constructor", "hasOwnProperty", "isPrototypeOf", "propertyIsEnumerable",
    "toLocaleString", "toString", "valueOf", "__proto__",
    "__defineGetter__", "__defineSetter__", "__lookupGetter__", "__lookupSetter__"
  }

  /** What `voiceMap[model] || model` can evaluate to: a string, or an
      inherited `Object.prototype` member (a function or object, both truthy). */
  datatype JsValue = JsString(s: string) | JsInherited(name: string)

  /** `getReadableVoiceName` exactly as written: the lookup walks the
      prototype chain of the object literal, so an inherited member name wins
      over the fallback to the id. */
  function ReadableVoiceNameAsWritten(model: string): (r: JsValue)
    ensures model !in ObjectPrototypeMembers ==> r == JsString(ReadableVoiceName(model))
    ensures model in ObjectPrototypeMembers ==> r.JsInherited?
  {
    if model in VoiceMap then JsString(VoiceMap[model])
    else if model in ObjectPrototypeMembers then JsInherited(model)
    else JsString(model)
  }

  /** The id "toString" is not a voice, yet the lookup as written returns the
      inherited `toString` function instead of the id itself. */
  lemma AsWrittenReturnsInheritedMember()
    ensures "toString" !in VoiceMap
    ensures ReadableVoiceNameAsWritten("toString") != JsString("toString")
    ensures ReadableVoiceName("toString") == "toString"
  {
  }
}
