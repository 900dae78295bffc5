/** The record panel's decisions: the `mm:ss` clock text, the choice of a
    recorder MIME type with its fallback, the bitrate, and what starting a
    recording does to the panel and the store when the canvas or every
    codec is missing. The recorder and the browser's codec support are
    inputs. */
module RecordPanel {
  import opened Common
  import opened Kinds
  import AppStore
  import Locales

  // ------------------------------------------------------------ formatTime

  function DigitChar(d: nat): char
    requires d < 10
  {
    (48 + d) as char
  }

  predicate IsDigitChar(c: char) { '0' <= c <= '9' }

  function DigitValue(c: char): nat
    requires IsDigitChar(c)
  {
    c as int - 48
  }

  /** `n.toString()` for a natural number. */
  function Decimal(n: nat): (r: string)
    ensures |r| >= 1 && forall k :: 0 <= k < |r| ==> IsDigitChar(r[k])
    decreases n
  {
    if n < 10 then [DigitChar(n)] else Decimal(n / 10) + [DigitChar(n % 10)]
  }

  /** The value of a string of decimal digits (leading zeros allowed). */
  function ParseDecimal(t: string): nat
    requires forall k :: 0 <= k < |t| ==> IsDigitChar(t[k])
    decreases |t|
  {
    if |t| == 0 then 0 else ParseDecimal(t[..|t| - 1]) * 10 + DigitValue(t[|t| - 1])
  }

  /** Printing and parsing a natural number are inverse, and the printed
      form has at most two digits exactly below 100. */
  lemma {:induction false} DecimalRoundTrip(n: nat)
    ensures ParseDecimal(Decimal(n)) == n
    ensures |Decimal(n)| == 1 <==> n < 10
    ensures |Decimal(n)| <= 2 <==> n < 100
    decreases n
  {
    if n >= 10 {
      DecimalRoundTrip(n / 10);
      var t := Decimal(n);
      assert t[..|t| - 1] == Decimal(n / 10);
    }
  }

  /** `padStart(2, '0')`. */
  function Pad2(t: string): (r: string)
    ensures |r| == if |t| >= 2 then |t| else 2
  {
    if |t| >= 2 then t else if |t| == 1 then "0" + t else "00"
  }

  /** `formatTime(seconds)` for the whole seconds the timer counts. */
  function FormatTime(seconds: nat): string {
    Pad2(Decimal(seconds / 60)) + ":" + Pad2(Decimal(seconds % 60))
  }

  /** Reads `mm:ss` back: minutes before the last three characters,
      seconds in the last two. */
  function ParseTime(t: string): nat
    requires |t| >= 3
    requires forall k :: 0 <= k < |t| && k != |t| - 3 ==> IsDigitChar(t[k])
  {
    ParseDecimal(t[..|t| - 3]) * 60 + ParseDecimal(t[|t| - 2..])
  }

  lemma PadKeepsValue(t: string)
    requires 1 <= |t| && forall k :: 0 <= k < |t| ==> IsDigitChar(t[k])
    ensures forall k :: 0 <= k < |Pad2(t)| ==> IsDigitChar(Pad2(t)[k])
    ensures ParseDecimal(Pad2(t)) == ParseDecimal(t)
  {
    if |t| == 1 {
      var p := Pad2(t);
      assert p[..1] == "0" && p[..1][..0] == "";
      assert p[1] == t[0] && t[..0] == "";
    }
  }

  /** The clock always shows a colon before a two-digit seconds field below
      60, reads back as the number of seconds it was made from, and is
      exactly five characters long below 100 minutes. */
  lemma FormatTimeRoundTrip(seconds: nat)
    ensures var t := FormatTime(seconds);
            && |t| >= 5 && t[|t| - 3] == ':'
            && (forall k :: 0 <= k < |t| && k != |t| - 3 ==> IsDigitChar(t[k]))
            && ParseDecimal(t[|t| - 2..]) < 60
            && ParseTime(t) == seconds
            && (|t| == 5 <==> seconds < 6000)
  {
    var q, rem := seconds / 60, seconds % 60;
    var mm, ss := Pad2(Decimal(q)), Pad2(Decimal(rem));
    DecimalRoundTrip(q);
    DecimalRoundTrip(rem);
    PadKeepsValue(Decimal(q));
    PadKeepsValue(Decimal(rem));
    ClockShape(mm, ss);
    var t := FormatTime(seconds);
    assert t == mm + ":" + ss;
    assert ParseTime(t) == ParseDecimal(mm) * 60 + ParseDecimal(ss);
    assert |mm| == 2 <==> q < 100;
    assert q < 100 <==> seconds < 6000;
  }

  /** Two digit runs joined by a colon: the colon sits third from the end and
      the runs are read back by slicing around it. */
  lemma ClockShape(mm: string, ss: string)
    requires |mm| >= 2 && |ss| == 2
    requires forall k :: 0 <= k < |mm| ==> IsDigitChar(mm[k])
    requires forall k :: 0 <= k < |ss| ==> IsDigitChar(ss[k])
    ensures var t := mm + ":" + ss;
            && |t| >= 5 && t[|t| - 3] == ':'
            && (forall k :: 0 <= k < |t| && k != |t| - 3 ==> IsDigitChar(t[k]))
            && t[..|t| - 3] == mm && t[|t| - 2..] == ss
  {
    var t := mm + ":" + ss;
    forall k | 0 <= k < |t| && k != |t| - 3 ensures IsDigitChar(t[k]) {
      if k < |mm| { assert t[k] == mm[k]; } else { assert t[k] == ss[k - |mm| - 1]; }
    }
    assert t[..|t| - 3] == mm;
    assert t[|t| - 2..] == ss;
  }

  // ------------------------------------------------------------ MIME type

  /** The type asked for first: VP9 in WebM for the webm format, MP4
      otherwise. */
  function PreferredMime(format: RecordFormat): string {
    match format
    case Webm => "video/webm;codecs=vp9"
    case Mp4 => "video/mp4"
  }

  const FallbackMime: string := "video/webm"

  /** The supported type the recorder is created with; empty when neither
      the preferred type nor plain WebM is supported. */
  function SupportedMime(format: RecordFormat, supported: string -> bool): (m: string)
    ensures m == "" || supported(m)
    ensures m in {PreferredMime(format), FallbackMime, ""}
    ensures supported(PreferredMime(format)) ==> m == PreferredMime(format)
    ensures m == "" <==> !supported(PreferredMime(format)) && !supported(FallbackMime)
  {
    if supported(PreferredMime(format)) then PreferredMime(format)
    else if supported(FallbackMime) then FallbackMime
    else ""
  }

  /** A browser that records plain WebM always gets some type, and the
      fallback is used exactly when the preferred type is refused. */
  lemma WebmIsEnough(format: RecordFormat, supported: string -> bool)
    requires supported(FallbackMime)
    ensures SupportedMime(format, supported) != ""
    ensures SupportedMime(format, supported) == FallbackMime <==>
      !supported(PreferredMime(format)) || PreferredMime(format) == FallbackMime
  {
  }

  /** Bits per second: the quality setting times ten megabits. */
  function Bitrate(quality: real): (b: real)
    ensures quality >= 0.0 ==> b >= 0.0
    ensures quality <= 1.0 ==> b <= 10000000.0
  {
    quality * 10000000.0
  }

  /** The bitrate grows with the quality, and the default quality of 0.9
      records at nine megabits per second. */
  lemma BitrateMonotone(q1: real, q2: real)
    requires q1 <= q2
    ensures Bitrate(q1) <= Bitrate(q2)
    ensures Bitrate(AppStore.DefaultRecording.quality) == 9000000.0
  {
  }

  // ------------------------------------------------------------ start

  /** The recorder the panel starts. */
  datatype Config = Config(mimeType: string, bitsPerSecond: real, fps: int)

  /** The panel's own state: its error text, the seconds counter and
      whether it holds a finished recording. */
  datatype Panel = Panel(error: Option<string>, recordingTime: nat, hasBlob: bool)

  /** What starting does: the recorder it creates, if any, the panel and
      the store. */
  datatype Started = Started(recorder: Option<Config>, panel: Panel, store: AppStore.State)

  /** `startRecording()` up to the recorder's start. The canvas must exist
      and some MIME type must be supported, otherwise the matching message
      is shown and nothing starts. `captureThrows` says whether the
      browser's `captureStream` throws and `recorderThrows` whether creating
      or starting the `MediaRecorder` does; either lands in the handler that
      shows `startFailed`. */
  function StartRecording(st: AppStore.State, p: Panel, i: Locales.Context, canvasFound: bool,
                          captureThrows: bool, supported: string -> bool, recorderThrows: bool): (r: Started)
    ensures var mime := SupportedMime(st.recordingSettings.format, supported);
            && (r.recorder.Some? <==> canvasFound && !captureThrows && mime != "" && !recorderThrows)
            && (!canvasFound ==> r.panel.error == Some(Locales.Msg(i, "canvasNotFound")))
            && (canvasFound && captureThrows ==> r.panel.error == Some(Locales.Msg(i, "startFailed")))
            && (canvasFound && !captureThrows && mime == "" ==>
                  r.panel.error == Some(Locales.Msg(i, "codecNotSupported")))
            && (canvasFound && !captureThrows && mime != "" && recorderThrows ==>
                  r.panel.error == Some(Locales.Msg(i, "startFailed")))
    ensures r.recorder.None? ==> r.store == st && r.panel == p.(error := r.panel.error) && r.panel.error.Some?
    ensures r.recorder.Some? ==>
              && r.store == AppStore.SetIsRecording(st, true)
              && r.panel == Panel(None, 0, false)
              && supported(r.recorder.value.mimeType)
  {
    var failed := p.(error := Some(Locales.Msg(i, "startFailed")));
    var mime := SupportedMime(st.recordingSettings.format, supported);
    if !canvasFound then Started(None, p.(error := Some(Locales.Msg(i, "canvasNotFound"))), st)
    else if captureThrows then Started(None, failed, st)
    else if mime == "" then Started(None, p.(error := Some(Locales.Msg(i, "codecNotSupported"))), st)
    else if recorderThrows then Started(None, failed, st)
    else
      var config := Config(mime, Bitrate(st.recordingSettings.quality), st.recordingSettings.fps);
      Started(Some(config), Panel(None, 0, false), AppStore.SetIsRecording(st, true))
  }

  /** A started recorder uses the settings' frame rate and bitrate, and the
      preferred type whenever the browser supports it. */
  lemma StartedRecorderFollowsSettings(st: AppStore.State, p: Panel, i: Locales.Context,
                                       supported: string -> bool)
    requires supported(PreferredMime(st.recordingSettings.format))
    ensures var r := StartRecording(st, p, i, true, false, supported, false);
            && r.recorder == Some(Config(PreferredMime(st.recordingSettings.format),
                                         Bitrate(st.recordingSettings.quality), st.recordingSettings.fps))
            && r.store.isRecording
  {
  }
}
