/** The video call panel (frontend/src/components/common/VideoChat.tsx): the transcript
    the browser's speech recognition builds up, what ending a call sends to the backend
    (`VideoSessions.EndVideoSession`), and how a session's length is shown. Camera,
    microphone and recorder are not modelled; the recogniser's events, the clock and the
    backend's answer are parameters. */
module VideoChat {
  import opened Wrappers
  import opened Strings
  import VideoSessions

  /** JavaScript's `a % b` for `b > 0`: the remainder takes the sign of `a`. */
  function JsRem(a: int, b: int): (r: int)
    requires b > 0
    ensures a >= 0 ==> 0 <= r < b && r == a % b
    ensures a < 0 ==> -b < r <= 0
  {
    if a >= 0 then a % b else -((-a) % b)
  }

  /** A session length split as `formatDuration` splits it: whole seconds
      (`Math.floor(ms / 1000)`), then hours, the minutes left over and the seconds left
      over, with JavaScript's `%`. */
  datatype Split = Split(hours: int, minutes: int, seconds: int)

  function Seconds(startMs: int, endMs: int): int {
    (endMs - startMs) / 1000
  }

  function SplitDuration(duration: int): (r: Split)
    ensures duration >= 0 ==>
      r.hours * 3600 + r.minutes * 60 + r.seconds == duration
      && 0 <= r.minutes < 60 && 0 <= r.seconds < 60 && r.hours >= 0
    ensures duration < 0 ==> r.hours < 0 && r.minutes <= 0 && -60 < r.seconds <= 0
  {
    Split(duration / 3600, JsRem(duration, 3600) / 60, JsRem(duration, 60))
  }

  /** `formatDuration(startedAt, endedAt)`; a session that has not ended is measured up to
      `nowMs`. */
  function FormatDuration(startMs: int, endMs: Option<int>, nowMs: int): (r: string)
    ensures var p := SplitDuration(Seconds(startMs, endMs.GetOr(nowMs)));
      (p.hours > 0 ==> r == IntToString(p.hours) + "h " + IntToString(p.minutes) + "m " + IntToString(p.seconds) + "s")
      && (p.hours <= 0 && p.minutes > 0 ==> r == IntToString(p.minutes) + "m " + IntToString(p.seconds) + "s")
      && (p.hours <= 0 && p.minutes <= 0 ==> r == IntToString(p.seconds) + "s")
  {
    var p := SplitDuration(Seconds(startMs, endMs.GetOr(nowMs)));
    if p.hours > 0 then IntToString(p.hours) + "h " + IntToString(p.minutes) + "m " + IntToString(p.seconds) + "s"
    else if p.minutes > 0 then IntToString(p.minutes) + "m " + IntToString(p.seconds) + "s"
    else IntToString(p.seconds) + "s"
  }

  /** Under a minute shows seconds only, under an hour minutes and seconds, otherwise all
      three; an end before the start shows a negative number of seconds only. */
  lemma FormatDurationShape(startMs: int, endMs: Option<int>, nowMs: int)
    ensures var d := Seconds(startMs, endMs.GetOr(nowMs));
      (0 <= d < 60 ==> FormatDuration(startMs, endMs, nowMs) == NatToString(d) + "s")
      && (60 <= d < 3600 ==>
            FormatDuration(startMs, endMs, nowMs) == NatToString(d / 60) + "m " + NatToString(d % 60) + "s")
      && (d >= 3600 ==>
            FormatDuration(startMs, endMs, nowMs)
            == NatToString(d / 3600) + "h " + NatToString(d % 3600 / 60) + "m " + NatToString(d % 60) + "s")
      && (d < 0 ==> FormatDuration(startMs, endMs, nowMs) == IntToString(JsRem(d, 60)) + "s")
  {
    var d := Seconds(startMs, endMs.GetOr(nowMs));
    if 0 <= d {
      assert JsRem(d, 3600) == d % 3600;
      assert d < 3600 ==> d / 3600 == 0 && d % 3600 == d;
    }
  }

  /** One entry of `event.results`: the best alternative's text and whether it is final. */
  datatype Recognition = Recognition(transcript: string, isFinal: bool)

  /** The final results among `results[from..upTo]`, each followed by one space. */
  function FinalText(results: seq<Recognition>, from: nat, upTo: nat): (r: string)
    requires upTo <= |results|
    decreases upTo
  {
    if upTo <= from then []
    else
      var last := results[upTo - 1];
      FinalText(results, from, upTo - 1) + (if last.isFinal then last.transcript + " " else [])
  }

  /** The text is empty exactly when no result in the range is final: interim results
      never contribute, and a final one always adds at least its space. */
  lemma {:induction false} FinalTextEmpty(results: seq<Recognition>, from: nat, upTo: nat)
    requires upTo <= |results|
    ensures FinalText(results, from, upTo) == [] <==> forall i :: from <= i < upTo ==> !results[i].isFinal
    decreases upTo
  {
    if upTo > from {
      FinalTextEmpty(results, from, upTo - 1);
    }
  }

  /** Results split into two consecutive ranges are collected one range after the other. */
  lemma {:induction false} FinalTextSplit(results: seq<Recognition>, from: nat, mid: nat, upTo: nat)
    requires from <= mid <= upTo <= |results|
    ensures FinalText(results, from, upTo) == FinalText(results, from, mid) + FinalText(results, mid, upTo)
    decreases upTo
  {
    if upTo > mid {
      FinalTextSplit(results, from, mid, upTo - 1);
    }
  }

  /** A single final result is collected as its text and one space. */
  lemma FinalTextOne(results: seq<Recognition>, i: nat)
    requires i < |results| && results[i].isFinal
    ensures FinalText(results, i, i + 1) == results[i].transcript + " "
  {
  }

  /** The transcript sent when the call ends: the one recorded, or a placeholder. */
  function SentTranscript(transcript: string): (r: string)
    ensures r != []
    ensures transcript != [] ==> r == transcript
  {
    if transcript != [] then transcript else "No transcript available"
  }

  /** A call in which nothing was recognised is never summarised by the backend: the
      placeholder is too short. */
  lemma SilentCallNotSummarised()
    ensures !VideoSessions.WantsSummary(SentTranscript([]))
  {
  }

  /** The session the panel holds. */
  datatype Session = Session(id: int, startedAtMs: int)

  /** What `endSession` is sent: the transcript and `duration_seconds`. */
  datatype EndRequest = EndRequest(sessionId: int, transcriptText: string, durationSeconds: int)

  /** How `endSession` ends: with the updated session, or by throwing. */
  datatype EndResult = Ended(session: Session) | Threw(message: string)

  class CallPanel {
    var isInCall: bool
    var isRecording: bool
    var currentSession: Option<Session>
    var transcript: string
    var isGeneratingSummary: bool

    constructor()
      ensures !isInCall && !isRecording && currentSession.None? && transcript == [] && !isGeneratingSummary
    {
      isInCall := false;
      isRecording := false;
      currentSession := None;
      transcript := [];
      isGeneratingSummary := false;
    }

    /** `recognition.onresult`: the final results from `resultIndex` on are collected, each
        followed by a space, and appended to the transcript if there are any. */
    method OnResult(results: seq<Recognition>, resultIndex: nat)
      modifies this
      ensures transcript == old(transcript) + FinalText(results, resultIndex, |results|)
      ensures isInCall == old(isInCall) && isRecording == old(isRecording)
      ensures currentSession == old(currentSession) && isGeneratingSummary == old(isGeneratingSummary)
    {
      var finalTranscript := [];
      var i := resultIndex;
      while i < |results|
        invariant resultIndex <= i
        invariant resultIndex <= |results| ==> i <= |results| && finalTranscript == FinalText(results, resultIndex, i)
        invariant resultIndex > |results| ==> finalTranscript == []
      {
        if results[i].isFinal {
          finalTranscript := finalTranscript + (results[i].transcript + " ");
        }
        i := i + 1;
      }
      if finalTranscript != [] {
        transcript := transcript + finalTranscript;
      }
    }

    /** `endCall` at time `nowMs`: with a session, the backend is sent the transcript (or
        the placeholder) and the whole seconds since the session started; if that throws,
        the call stays up and the alert says why. Otherwise (or without a session) the
        call and the recording are over. The summary spinner is off in every case. */
    method EndCall(nowMs: int, result: EndResult) returns (request: Option<EndRequest>, alert: Option<string>)
      modifies this
      ensures old(currentSession).Some? ==>
        request == Some(EndRequest(old(currentSession).value.id, SentTranscript(old(transcript)),
                                   (nowMs - old(currentSession).value.startedAtMs) / 1000))
      ensures old(currentSession).None? ==> request.None?
      ensures request.Some? && result.Threw? ==>
        alert == Some("Failed to end call: " + result.message)
        && isInCall == old(isInCall) && isRecording == old(isRecording) && currentSession == old(currentSession)
      ensures request.None? || result.Ended? ==>
        alert.None? && !isInCall && !isRecording
        && currentSession == (if request.Some? then Some(result.session) else old(currentSession))
      ensures !isGeneratingSummary && transcript == old(transcript)
    {
      isGeneratingSummary := true;
      alert := None;
      request := None;
      if currentSession.Some? {
        var session := currentSession.value;
        var text := if transcript != [] then transcript else "No transcript available";
        request := Some(EndRequest(session.id, text, (nowMs - session.startedAtMs) / 1000));
        match result {
          case Threw(message) =>
            alert := Some("Failed to end call: " + message);
            isGeneratingSummary := false;
            return;
          case Ended(updated) =>
            currentSession := Some(updated);
        }
      }
      isInCall := false;
      isRecording := false;
      isGeneratingSummary := false;
    }
  }
}
