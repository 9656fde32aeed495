/**
 * The dictation recorder: the elapsed-time display, the accumulation of
 * speech-recognition results into a transcript, and the start/stop flow
 * that hands a long-enough dictation to its caller.
 */
module Recorder {
  import opened Wrappers
  import opened Text

  /** `n.toString().padStart(2, '0')`: the numeral of n, with a leading zero below ten. */
  function TwoDigits(n: nat): (r: string)
    ensures |r| >= 2 && AllDigits(r) && DecimalValue(r) == n
    ensures n < 100 ==> |r| == 2
    ensures n >= 10 ==> r == NatToDecimal(n)
  {
    PaddedValue(NatToDecimal(n), 2);
    PadStart(NatToDecimal(n), 2, '0')
  }

  /** `r` reads as `mm:ss`: a numeral of minutes, a colon, then a two-digit numeral of seconds. */
  predicate TimeDisplay(r: string, minutes: nat, seconds: nat) {
    && |r| >= 5 && r[|r| - 3] == ':'
    && AllDigits(r[..|r| - 3]) && AllDigits(r[|r| - 2..])
    && DecimalValue(r[..|r| - 3]) == minutes
    && DecimalValue(r[|r| - 2..]) == seconds
  }

  /** `mm:ss`: whole minutes and remaining seconds, each padded with zeros to two digits. */
  function FormatTime(seconds: nat): (r: string)
    ensures TimeDisplay(r, seconds / 60, seconds % 60) && seconds % 60 < 60
    ensures seconds < 6000 ==> |r| == 5
    ensures seconds / 60 >= 10 ==> r[..|r| - 3] == NatToDecimal(seconds / 60)
    ensures r[|r| - 2..] == TwoDigits(seconds % 60)
  {
    var mins := TwoDigits(seconds / 60);
    var secs := TwoDigits(seconds % 60);
    JoinAtColon(mins, secs);
    mins + ":" + secs
  }

  lemma JoinAtColon(mins: string, secs: string)
    requires |mins| >= 2 && |secs| == 2 && AllDigits(mins) && AllDigits(secs)
    ensures TimeDisplay(mins + ":" + secs, DecimalValue(mins), DecimalValue(secs))
    ensures var r := mins + ":" + secs; r[..|r| - 3] == mins && r[|r| - 2..] == secs
  {
    var r := mins + ":" + secs;
    assert r[..|r| - 3] == mins && r[|r| - 2..] == secs;
  }

  /** Padding a numeral with zeros keeps its digits and its value. */
  lemma {:induction false} PaddedValue(s: string, width: nat)
    requires AllDigits(s)
    ensures AllDigits(PadStart(s, width, '0'))
    ensures DecimalValue(PadStart(s, width, '0')) == DecimalValue(s)
    decreases width - |s|
  {
    if |s| < width {
      LeadingZeroValue(s);
      PaddedValue("0" + s, width);
    }
  }

  /** Reads a five-character `mm:ss` back as a number of seconds. */
  function ParseTime(t: string): nat
    requires |t| == 5 && AllDigits(t[..2]) && AllDigits(t[3..])
  {
    DecimalValue(t[..2]) * 60 + DecimalValue(t[3..])
  }

  /** Below 100 minutes the display is exactly five characters and reads back as the elapsed time. */
  lemma FormatTimeRoundTrip(seconds: nat)
    requires seconds < 6000
    ensures var t := FormatTime(seconds);
      |t| == 5 && AllDigits(t[..2]) && AllDigits(t[3..]) && ParseTime(t) == seconds
  {
    var t := FormatTime(seconds);
    assert TimeDisplay(t, seconds / 60, seconds % 60);
    assert t[..2] == t[..|t| - 3] && t[3..] == t[|t| - 2..];
  }

  /** One entry of the recognition results: the first alternative's text, and whether it is final. */
  datatype SpeechResult = SpeechResult(transcript: string, isFinal: bool)

  /** The final results' texts, each followed by one space, in index order. */
  function FinalText(rs: seq<SpeechResult>): string {
    if rs == [] then ""
    else FinalText(rs[..|rs| - 1]) + (if rs[|rs| - 1].isFinal then rs[|rs| - 1].transcript + " " else "")
  }

  /** The non-final results' texts, concatenated in index order. */
  function InterimText(rs: seq<SpeechResult>): string {
    if rs == [] then ""
    else InterimText(rs[..|rs| - 1]) + (if rs[|rs| - 1].isFinal then "" else rs[|rs| - 1].transcript)
  }

  /** The final text of consecutive batches is the concatenation of their final texts: order is preserved. */
  lemma {:induction false} FinalTextAppend(a: seq<SpeechResult>, b: seq<SpeechResult>)
    ensures FinalText(a + b) == FinalText(a) + FinalText(b)
  {
    if b == [] {
      assert a + b == a;
    } else {
      assert (a + b)[..|a + b| - 1] == a + b[..|b| - 1];
      FinalTextAppend(a, b[..|b| - 1]);
    }
  }

  /** Results that are all interim add nothing to the transcript. */
  lemma {:induction false} InterimOnlyAddsNothing(rs: seq<SpeechResult>)
    requires forall i :: 0 <= i < |rs| ==> !rs[i].isFinal
    ensures FinalText(rs) == ""
  {
    if rs != [] {
      InterimOnlyAddsNothing(rs[..|rs| - 1]);
    }
  }

  /**
   * The `onresult` loop: from `resultIndex` on, final results are appended to
   * the transcript with a trailing space and interim ones collected apart.
   */
  method Accumulate(results: seq<SpeechResult>, resultIndex: nat, transcript: string)
    returns (interim: string, final: string)
    ensures var start := if resultIndex <= |results| then resultIndex else |results|;
      && final == transcript + FinalText(results[start..])
      && interim == InterimText(results[start..])
  {
    var start := if resultIndex <= |results| then resultIndex else |results|;
    interim := "";
    final := transcript;
    var i := resultIndex;
    while i < |results|
      invariant start <= i <= |results| || (i == resultIndex && resultIndex > |results|)
      invariant i <= |results| ==> final == transcript + FinalText(results[start..i])
      invariant i <= |results| ==> interim == InterimText(results[start..i])
      invariant i > |results| ==> final == transcript && interim == ""
    {
      assert results[start..i + 1][..i - start] == results[start..i];
      if results[i].isFinal {
        final := final + results[i].transcript + " ";
      } else {
        interim := interim + results[i].transcript;
      }
      i := i + 1;
    }
    if resultIndex > |results| {
      assert results[start..] == [];
    } else {
      assert results[start..i] == results[start..];
    }
  }

  /**
   * The recognizer as the code wires it. Its handler appends to `base`, the
   * transcript captured when that recognizer was built. Every change of the
   * transcript re-runs the effect that built it: the recognizer in use is
   * stopped and a fresh one, never started, takes its place. `listening` says
   * whether the recognizer last started is still running.
   */
  datatype Listener = Listener(transcript: string, interim: string, base: string, listening: bool)

  /** After mounting: one recognizer, built over the empty transcript, not started. */
  const MOUNTED: Listener := Listener("", "", "", false)

  /**
   * `startRecording` as written: the recognizer in use, built over the current
   * transcript, is started; clearing the transcript then stops it again unless
   * the transcript was already empty.
   */
  function StartAsWritten(l: Listener): Listener {
    Listener("", "", l.transcript, l.transcript == "")
  }

  /** A result event from the recognizer last started, as written; a stopped recognizer may still deliver one. */
  function ResultAsWritten(l: Listener, results: seq<SpeechResult>, resultIndex: nat): Listener {
    var start := if resultIndex <= |results| then resultIndex else |results|;
    var t := l.base + FinalText(results[start..]);
    Listener(t, InterimText(results[start..]), l.base, l.listening && t == l.transcript)
  }

  /** As written, the first event that adds a final text stops the dictation. */
  lemma FirstFinalStops(l: Listener, results: seq<SpeechResult>, resultIndex: nat)
    requires l.base == l.transcript
    requires var start := if resultIndex <= |results| then resultIndex else |results|;
      FinalText(results[start..]) != ""
    ensures !ResultAsWritten(l, results, resultIndex).listening
    ensures |ResultAsWritten(l, results, resultIndex).transcript| > |l.transcript|
  {
  }

  /** As written, starting again over a non-empty transcript stops the recognizer just started. */
  lemma RetryIsStopped(l: Listener)
    requires l.transcript != ""
    ensures !StartAsWritten(l).listening && StartAsWritten(l).transcript == ""
  {
  }

  /**
   * Two phrases dictated in a row: as written, the dictation stops after the
   * first, and if the stopped recognizer delivers the second, that phrase
   * replaces the first instead of following it.
   */
  lemma FirstPhraseStopsDictation()
    ensures var e1 := [SpeechResult("Le débiteur", true)];
      var e2 := e1 + [SpeechResult("doit 5000", true)];
      var l1 := StartAsWritten(MOUNTED);
      var l2 := ResultAsWritten(l1, e1, 0);
      var l3 := ResultAsWritten(l2, e2, 1);
      && l1.listening && !l2.listening
      && l2.transcript == "Le débiteur " && l3.transcript == "doit 5000 "
  {
    var e1 := [SpeechResult("Le débiteur", true)];
    var e2 := e1 + [SpeechResult("doit 5000", true)];
    assert e1[0..] == e1 && e2[1..] == [SpeechResult("doit 5000", true)];
    assert FinalText(e1) == FinalText([]) + "Le débiteur" + " ";
    assert FinalText(e2[1..]) == FinalText([]) + "doit 5000" + " ";
  }

  /** The same two events with the transcript accumulated across them, as intended: both phrases are kept in order. */
  lemma BothPhrasesKept()
    ensures var e1 := [SpeechResult("Le débiteur", true)];
      var e2 := e1 + [SpeechResult("doit 5000", true)];
      "" + FinalText(e1[0..]) + FinalText(e2[1..]) == "Le débiteur doit 5000 "
  {
    var e1 := [SpeechResult("Le débiteur", true)];
    var e2 := e1 + [SpeechResult("doit 5000", true)];
    assert e1[0..] == e1 && e2[1..] == [SpeechResult("doit 5000", true)];
    assert FinalText(e1) == FinalText([]) + "Le débiteur" + " ";
    assert FinalText(e2[1..]) == FinalText([]) + "doit 5000" + " ";
  }

  /** Fewer than five characters once trimmed is taken for an empty dictation. */
  const MIN_DICTATION: nat := 5

  predicate DictationAccepted(text: string) {
    |Trim(text)| >= MIN_DICTATION
  }

  datatype Alert = SpeechUnsupported | DictationEmpty

  class RecorderState {
    /** Whether the browser offers speech recognition. */
    const supported: bool
    var isRecording: bool
    var timer: nat
    var isProcessing: bool
    var interimText: string
    var fullTranscript: string
    /** The text fixed when recording stopped, awaiting the one-second processing delay. */
    var pending: Option<string>
    var alerts: seq<Alert>

    ghost predicate Valid()
      reads this
    {
      isProcessing <==> pending.Some?
    }

    constructor (supported: bool)
      ensures Valid() && this.supported == supported
      ensures !isRecording && timer == 0 && !isProcessing && interimText == "" && fullTranscript == "" && alerts == []
    {
      this.supported := supported;
      isRecording := false;
      timer := 0;
      isProcessing := false;
      interimText := "";
      fullTranscript := "";
      pending := None;
      alerts := [];
    }

    method StartRecording()
      requires Valid()
      modifies this
      ensures Valid() && isProcessing == old(isProcessing) && pending == old(pending)
      ensures !supported ==> (alerts == old(alerts) + [SpeechUnsupported] && isRecording == old(isRecording)
        && timer == old(timer) && fullTranscript == old(fullTranscript) && interimText == old(interimText))
      ensures supported ==> alerts == old(alerts) && isRecording && timer == 0 && fullTranscript == "" && interimText == ""
    {
      if !supported {
        alerts := alerts + [SpeechUnsupported];
        return;
      }
      fullTranscript := "";
      interimText := "";
      isRecording := true;
      timer := 0;
    }

    /** One second of recording has passed: the elapsed-time counter moves on by one. */
    method Tick()
      requires isRecording
      modifies this`timer
      ensures timer == old(timer) + 1
    {
      timer := timer + 1;
    }

    /**
     * A batch of recognition results arrives, with the transcript accumulated
     * across batches and recognition kept running, as intended (see the findings
     * in the README for the code as written).
     */
    method OnResult(results: seq<SpeechResult>, resultIndex: nat)
      requires Valid()
      modifies this`interimText, this`fullTranscript
      ensures var start := if resultIndex <= |results| then resultIndex else |results|;
        && fullTranscript == old(fullTranscript) + FinalText(results[start..])
        && interimText == InterimText(results[start..])
    {
      var interim, final := Accumulate(results, resultIndex, fullTranscript);
      interimText := interim;
      fullTranscript := final;
    }

    /** Stop recording and fix the text to hand over once the processing delay has passed. */
    method StopRecording()
      requires Valid()
      modifies this
      ensures Valid() && !isRecording && isProcessing
      ensures pending == Some(old(fullTranscript) + old(interimText))
      ensures fullTranscript == old(fullTranscript) && interimText == old(interimText) && alerts == old(alerts)
    {
      isRecording := false;
      isProcessing := true;
      pending := Some(fullTranscript + interimText);
    }

    /** The delay elapses: a dictation that trims to fewer than five characters is refused with an alert. */
    method ProcessingDelayElapsed() returns (delivered: Option<string>)
      requires Valid() && isProcessing
      modifies this
      ensures Valid() && !isProcessing
      ensures delivered.Some? <==> DictationAccepted(old(pending).value)
      ensures delivered.Some? ==> delivered.value == old(pending).value && alerts == old(alerts)
      ensures delivered.None? ==> alerts == old(alerts) + [DictationEmpty]
    {
      var text := pending.value;
      isProcessing := false;
      pending := None;
      if |Trim(text)| < MIN_DICTATION {
        alerts := alerts + [DictationEmpty];
        return None;
      }
      return Some(text);
    }
  }
}
