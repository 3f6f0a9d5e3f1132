/**
 The session state of the chat window: the registry of answers with their
 ratings, the id of the last answer, the like and dislike counters with the
 satisfaction percentage shown from them, and the recording flag of the voice
 input. Widgets, threads and service calls are outside the model; what a
 background task hands back to the window is a parameter of the method that
 receives it.
 */
module Oracle {
  import opened Text
  import opened Feedback
  import opened Transcript
  import opened Completion

  /** What reaches the window when a request completes: normally the answer and its
      label, but a bare text is accepted too and then gets the neutral label. */
  datatype Delivered = Labelled(reply: Reply) | Bare(text: string)

  /** The answer text and label shown for a delivered result. */
  function Unpack(d: Delivered): Reply {
    match d
    case Labelled(reply) => reply
    case Bare(text) => Reply(text, NeutralLabel)
  }

  /** The confirmation shown next to an answer after a like. */
  const ThanksPositive: string := "¡Gracias por tu evaluación positiva! 🌟"

  /** The confirmation shown next to an answer after a dislike. */
  const ThanksFeedback: string := "Gracias por tu retroalimentación 📝"

  /** The ids handed out after `n` answers: 1 through `n`. */
  function IdsUpTo(n: nat): (ids: set<int>)
    ensures forall id :: id in ids <==> 1 <= id <= n
    ensures |ids| == n
  {
    if n == 0 then {} else IdsUpTo(n - 1) + {n}
  }

  /** How a voice capture ends on the background task. */
  datatype CaptureOutcome =
    | Recognized(text: string)
    | NoSpeech            // the listen window expired
    | Unintelligible      // the recognizer could not understand the audio
    | ServiceUnreachable  // the recognition service could not be reached
    | CaptureFailed(message: string)
    | MicrophoneUnavailable(message: string)  // opening or calibrating the microphone raised

  /** What the capture task posts to the window. */
  datatype Handoff = ProcessAudio(text: string) | ShowAudioError(message: string) | FinishCapture

  /** The hand-off posted for an outcome that the capture task reports. */
  function OutcomeHandoff(outcome: CaptureOutcome): (h: Handoff)
    requires !outcome.MicrophoneUnavailable?
    ensures h.ProcessAudio? <==> outcome.Recognized?
    ensures outcome.Recognized? ==> h == ProcessAudio(outcome.text)
    ensures !outcome.Recognized? ==> h.ShowAudioError? && h.message != []
  {
    match outcome
    case Recognized(t) => ProcessAudio(t)
    case NoSpeech => ShowAudioError("No se detectó ninguna voz")
    case Unintelligible => ShowAudioError("No se pudo entender el audio")
    case ServiceUnreachable => ShowAudioError("Error al conectar con el servicio de reconocimiento")
    case CaptureFailed(m) => ShowAudioError("Error: " + m)
  }

  /** The hand-offs the capture task posts, as the client does it: the microphone is
      opened and calibrated before the guarded block, so a failure there ends the task
      with nothing posted, not even the finish hand-off. */
  function PostedHandoffs(outcome: CaptureOutcome): (hs: seq<Handoff>)
    ensures FinishCapture in hs <==> !outcome.MicrophoneUnavailable?
    ensures outcome.MicrophoneUnavailable? ==> hs == []
    ensures !outcome.MicrophoneUnavailable? ==> hs == CaptureHandoffs(outcome)
  {
    if outcome.MicrophoneUnavailable? then [] else [OutcomeHandoff(outcome), FinishCapture]
  }

  /** The hand-offs with every step of the capture guarded: one outcome hand-off (the
      text if recognized, otherwise an error message) and then, in every case, the
      request to finish recording. A microphone failure is reported like any other
      failure of the capture. */
  function CaptureHandoffs(outcome: CaptureOutcome): (hs: seq<Handoff>)
    ensures |hs| == 2 && hs[1] == FinishCapture
    ensures hs[0].ProcessAudio? <==> outcome.Recognized?
    ensures outcome.Recognized? ==> hs[0] == ProcessAudio(outcome.text)
    ensures !outcome.Recognized? ==> hs[0].ShowAudioError? && hs[0].message != []
  {
    match outcome
    case MicrophoneUnavailable(m) => [ShowAudioError("Error: " + m), FinishCapture]
    case _ => [OutcomeHandoff(outcome), FinishCapture]
  }

  /** The text of the recording indicator while a capture runs. */
  const RecordingIndicator: string := "\U{1F399}\U{FE0F} Grabando..."

  /** The head of the recording indicator while it shows a capture error. */
  const ErrorIndicatorHead: string := "❌ "

  /** The questions submitted by one hand-off: the guarded text of a recognized capture. */
  function HandoffQuestions(h: Handoff): (qs: seq<string>)
    ensures |qs| <= 1
    ensures qs != [] <==> h.ProcessAudio? && !AllSpace(h.text)
    ensures qs != [] ==> Some(qs[0]) == SubmittedQuestion(h.text)
  {
    if h.ProcessAudio? && SubmittedQuestion(h.text).Some? then [SubmittedQuestion(h.text).value] else []
  }

  /** The error texts shown by one hand-off. */
  function HandoffErrors(h: Handoff): (es: seq<string>)
    ensures |es| <= 1
    ensures es != [] <==> h.ShowAudioError?
    ensures es != [] ==> StartsWith(es[0], ErrorIndicatorHead)
    ensures es != [] ==> es[0] == ErrorIndicatorHead + h.message
  {
    if h.ShowAudioError? then [ErrorIndicatorHead + h.message] else []
  }

  /** The questions submitted by a sequence of hand-offs delivered in order. */
  function Questions(hs: seq<Handoff>): seq<string> {
    if hs == [] then [] else Questions(hs[..|hs| - 1]) + HandoffQuestions(hs[|hs| - 1])
  }

  /** The error texts shown by a sequence of hand-offs delivered in order. */
  function Errors(hs: seq<Handoff>): seq<string> {
    if hs == [] then [] else Errors(hs[..|hs| - 1]) + HandoffErrors(hs[|hs| - 1])
  }

  /** The recording flag after delivering `hs`, starting from `recording`: only the
      finish hand-off touches it, so it is cleared exactly when one was delivered. */
  function RecordingAfter(recording: bool, hs: seq<Handoff>): (r: bool)
    ensures r <==> recording && FinishCapture !in hs
  {
    if hs == [] then recording
    else if hs[|hs| - 1] == FinishCapture then false
    else
      assert hs == hs[..|hs| - 1] + [hs[|hs| - 1]];
      RecordingAfter(recording, hs[..|hs| - 1])
  }

  /** The indicator text after delivering `hs`: an error hand-off shows the error, the
      finish hand-off blanks it, a recognized text leaves it. */
  function IndicatorAfter(indicator: string, hs: seq<Handoff>): string {
    if hs == [] then indicator
    else match hs[|hs| - 1]
      case ShowAudioError(m) => ErrorIndicatorHead + m
      case FinishCapture => ""
      case ProcessAudio(_) => IndicatorAfter(indicator, hs[..|hs| - 1])
  }

  /** Delivering one outcome hand-off and then the finish hand-off. */
  lemma {:induction false} DeliveredPair(h: Handoff, recording: bool, indicator: string)
    ensures Questions([h, FinishCapture]) == HandoffQuestions(h)
    ensures Errors([h, FinishCapture]) == HandoffErrors(h)
    ensures !RecordingAfter(recording, [h, FinishCapture])
    ensures IndicatorAfter(indicator, [h, FinishCapture]) == ""
  {
    var hs := [h, FinishCapture];
    assert hs[..1] == [h] && [h][..0] == [];
    assert Questions([h]) == Questions([]) + HandoffQuestions(h);
    assert Errors([h]) == Errors([]) + HandoffErrors(h);
    assert HandoffQuestions(FinishCapture) == [] && HandoffErrors(FinishCapture) == [];
  }

  /** With every step guarded, each capture ends with the flag cleared and the
      indicator blank, whatever was shown before and whatever the outcome. */
  lemma CaptureAlwaysFinishes(outcome: CaptureOutcome, recording: bool, indicator: string)
    ensures !RecordingAfter(recording, CaptureHandoffs(outcome))
    ensures IndicatorAfter(indicator, CaptureHandoffs(outcome)) == ""
  {
    DeliveredPair(CaptureHandoffs(outcome)[0], recording, indicator);
    assert CaptureHandoffs(outcome) == [CaptureHandoffs(outcome)[0], FinishCapture];
  }

  /** As the client does it, a capture whose microphone cannot be opened leaves the
      recording flag and the indicator as they were: still recording, still showing
      that a recording is in progress. */
  lemma MicrophoneFailureKeepsRecording(message: string, recording: bool, indicator: string)
    ensures RecordingAfter(recording, PostedHandoffs(MicrophoneUnavailable(message))) == recording
    ensures IndicatorAfter(indicator, PostedHandoffs(MicrophoneUnavailable(message))) == indicator
    ensures Questions(PostedHandoffs(MicrophoneUnavailable(message))) == []
    ensures Errors(PostedHandoffs(MicrophoneUnavailable(message))) == []
  {
  }

  class OracleSession {
    /** The registered answers by id. */
    var entries: map<int, Entry>
    /** The id of the last registered answer (0 before the first). */
    var lastId: nat
    /** The like and dislike counters. */
    var likes: int
    var dislikes: int
    /** The satisfaction percentage last shown in the window title, if any. */
    var satisfaction: Option<real>
    /** Whether a voice capture is in progress. */
    var isRecording: bool
    /** The text of the recording indicator next to the buttons. */
    var indicator: string

    /** The session invariant: ids 1 to `lastId` are registered, the counters are the
        sizes of the two rating buckets, and the title shows their percentage. */
    ghost predicate Valid()
      reads this
    {
      && (forall id :: id in entries <==> 1 <= id <= lastId)
      && likes == |Rated(entries, true)|
      && dislikes == |Rated(entries, false)|
      && satisfaction == SatisfactionPercent(likes, dislikes)
    }

    constructor ()
      ensures Valid()
      ensures entries == map[] && lastId == 0
      ensures likes == 0 && dislikes == 0 && satisfaction == None
      ensures !isRecording && indicator == ""
    {
      entries := map[];
      lastId := 0;
      likes := 0;
      dislikes := 0;
      satisfaction := None;
      isRecording := false;
      indicator := "";
    }

    /** Receive a completed request: allocate the next id, register the answer under
        it unrated, and return the id and the line rendered for it. */
    method RegisterAnswer(delivered: Delivered) returns (id: int, line: string)
      requires Valid()
      modifies this
      ensures Valid()
      ensures id == old(lastId) + 1 && lastId == id
      ensures id !in old(entries) && forall other :: other in old(entries) ==> other < id
      ensures entries == old(entries)[id := Entry(Unpack(delivered).text, None)]
      ensures likes == old(likes) && dislikes == old(dislikes) && satisfaction == old(satisfaction)
      ensures isRecording == old(isRecording) && indicator == old(indicator)
      ensures line == AnswerEcho(Unpack(delivered).text, Unpack(delivered).sentiment)
    {
      var reply := Unpack(delivered);
      lastId := lastId + 1;
      id := lastId;
      line := AnswerEcho(reply.text, reply.sentiment);
      RatedAfterRegister(entries, id, reply.text, true);
      RatedAfterRegister(entries, id, reply.text, false);
      entries := entries[id := Entry(reply.text, None)];
    }

    /** Rate answer `id` with a like (`positive`) or a dislike. An unknown id changes
        nothing. Otherwise the previous rating, if any, is taken out of its counter,
        the new one is counted, and the percentage in the title is refreshed. */
    method RateAnswer(id: int, positive: bool) returns (confirmation: Option<string>)
      requires Valid()
      modifies this
      ensures Valid()
      ensures lastId == old(lastId) && isRecording == old(isRecording) && indicator == old(indicator)
      ensures id !in old(entries) ==>
                && entries == old(entries) && likes == old(likes) && dislikes == old(dislikes)
                && satisfaction == old(satisfaction) && confirmation == None
      ensures id in old(entries) ==>
                && entries == WithRating(old(entries), id, positive)
                && confirmation == Some(if positive then ThanksPositive else ThanksFeedback)
                && satisfaction.Some?
      ensures id in old(entries) && old(entries)[id].rating == Some(positive) ==>
                likes == old(likes) && dislikes == old(dislikes)
      ensures id in old(entries) && old(entries)[id].rating == Some(!positive) ==>
                if positive then likes == old(likes) + 1 && dislikes == old(dislikes) - 1
                else likes == old(likes) - 1 && dislikes == old(dislikes) + 1
      ensures id in old(entries) && old(entries)[id].rating == None ==>
                if positive then likes == old(likes) + 1 && dislikes == old(dislikes)
                else likes == old(likes) && dislikes == old(dislikes) + 1
    {
      confirmation := None;
      if id in entries {
        var previous := entries[id].rating;
        CountsAfterRating(entries, id, positive);
        if previous.Some? {
          if previous.value {
            likes := likes - 1;
          } else {
            dislikes := dislikes - 1;
          }
        }
        entries := entries[id := entries[id].(rating := Some(positive))];
        if positive {
          likes := likes + 1;
          confirmation := Some(ThanksPositive);
        } else {
          dislikes := dislikes + 1;
          confirmation := Some(ThanksFeedback);
        }
        assert likes == |Rated(entries, true)| && dislikes == |Rated(entries, false)|;
        assert id in Rated(entries, positive);
        var total := likes + dislikes;
        if total > 0 {
          satisfaction := SatisfactionPercent(likes, dislikes);
        }
      }
    }

    /** Under the invariant both counters are non-negative, their sum is the number
        of rated answers, and it never exceeds the number of registered answers. */
    lemma CountersBounded()
      requires Valid()
      ensures 0 <= likes && 0 <= dislikes
      ensures likes + dislikes == |AnyRated(entries)|
      ensures likes + dislikes <= |entries| == lastId
    {
      CountsBound(entries);
      assert entries.Keys == IdsUpTo(lastId);
    }

    /** The record button: start a capture when idle, stop when recording. Returns
        whether a capture task is started. */
    method ToggleRecording() returns (startsCapture: bool)
      modifies this`isRecording, this`indicator
      ensures isRecording == !old(isRecording)
      ensures startsCapture == !old(isRecording)
      ensures indicator == if old(isRecording) then "" else RecordingIndicator
    {
      if !isRecording {
        isRecording := true;
        indicator := RecordingIndicator;
        startsCapture := true;
      } else {
        isRecording := false;
        indicator := "";
        startsCapture := false;
      }
    }

    /** The error hand-off of a capture: the indicator shows the message. */
    method ShowCaptureError(message: string)
      modifies this`indicator
      ensures indicator == ErrorIndicatorHead + message
    {
      indicator := ErrorIndicatorHead + message;
    }

    /** The finish hand-off of a capture: recording ends and the indicator is blanked. */
    method FinishRecording()
      modifies this`isRecording, this`indicator
      ensures !isRecording && indicator == ""
    {
      isRecording := false;
      indicator := "";
    }

    /** Deliver posted hand-offs in the order they were posted: recognized text goes
        through the question guard, an error is shown in the indicator, and the finish
        hand-off ends recording. Returns the questions submitted and the errors shown. */
    method DeliverHandoffs(hs: seq<Handoff>) returns (questions: seq<string>, errors: seq<string>)
      modifies this`isRecording, this`indicator
      ensures questions == Questions(hs) && errors == Errors(hs)
      ensures isRecording == RecordingAfter(old(isRecording), hs)
      ensures indicator == IndicatorAfter(old(indicator), hs)
    {
      questions, errors := [], [];
      for i := 0 to |hs|
        invariant questions == Questions(hs[..i]) && errors == Errors(hs[..i])
        invariant isRecording == RecordingAfter(old(isRecording), hs[..i])
        invariant indicator == IndicatorAfter(old(indicator), hs[..i])
      {
        assert hs[..i + 1][..i] == hs[..i];
        questions := questions + HandoffQuestions(hs[i]);
        errors := errors + HandoffErrors(hs[i]);
        match hs[i] {
          case ProcessAudio(_) =>
          case ShowAudioError(m) =>
            ShowCaptureError(m);
          case FinishCapture =>
            FinishRecording();
        }
      }
      assert hs[..|hs|] == hs;
    }

    /** A capture with every step guarded: after any outcome recording has ended and
        the indicator is blank; recognized text goes through the question guard, and
        every other outcome posts exactly one error and submits nothing. */
    method DeliverCapture(outcome: CaptureOutcome) returns (questions: seq<string>, errors: seq<string>)
      modifies this`isRecording, this`indicator
      ensures !isRecording && indicator == ""
      ensures outcome.Recognized? ==> errors == [] && (questions == [] <==> AllSpace(outcome.text))
      ensures outcome.Recognized? && questions != [] ==>
                questions == [SubmittedQuestion(outcome.text).value]
      ensures !outcome.Recognized? ==>
                questions == [] && errors == [ErrorIndicatorHead + CaptureHandoffs(outcome)[0].message]
    {
      var hs := CaptureHandoffs(outcome);
      DeliveredPair(hs[0], isRecording, indicator);
      assert hs == [hs[0], FinishCapture];
      questions, errors := DeliverHandoffs(hs);
    }

    /** A capture as the client performs it: the same as `DeliverCapture`, except that
        a microphone that cannot be opened posts nothing, so recording never ends. */
    method DeliverCaptureAsWritten(outcome: CaptureOutcome) returns (questions: seq<string>, errors: seq<string>)
      modifies this`isRecording, this`indicator
      ensures outcome.MicrophoneUnavailable? ==>
                && isRecording == old(isRecording) && indicator == old(indicator)
                && questions == [] && errors == []
      ensures !outcome.MicrophoneUnavailable? ==> !isRecording && indicator == ""
      ensures !outcome.MicrophoneUnavailable? ==>
                questions == Questions(CaptureHandoffs(outcome)) && errors == Errors(CaptureHandoffs(outcome))
      ensures outcome.Recognized? ==> errors == [] && (questions == [] <==> AllSpace(outcome.text))
      ensures outcome.Recognized? && questions != [] ==>
                questions == [SubmittedQuestion(outcome.text).value]
      ensures !outcome.Recognized? && !outcome.MicrophoneUnavailable? ==>
                questions == [] && errors == [ErrorIndicatorHead + OutcomeHandoff(outcome).message]
    {
      var hs := PostedHandoffs(outcome);
      if !outcome.MicrophoneUnavailable? {
        DeliveredPair(hs[0], isRecording, indicator);
        assert hs == [hs[0], FinishCapture];
      }
      questions, errors := DeliverHandoffs(hs);
    }
  }

  /** Pressing the record button on a machine without an input device: as the client
      does it the window stays in the recording state; with every step guarded the
      capture reports the error and ends. */
  method MicrophoneFailureScenario() {
    var session := new OracleSession();
    var starts := session.ToggleRecording();
    assert starts && session.isRecording;
    var q, e := session.DeliverCaptureAsWritten(MicrophoneUnavailable("No Default Input Device Available"));
    assert session.isRecording && session.indicator == RecordingIndicator;
    q, e := session.DeliverCapture(MicrophoneUnavailable("No Default Input Device Available"));
    assert !session.isRecording && |e| == 1;
  }

  /** A question answered once and then rated twice: a like followed by a dislike
      leaves one dislike and no like. */
  method RateTwiceScenario(reply: Reply) {
    var session := new OracleSession();
    var id, _ := session.RegisterAnswer(Labelled(reply));
    assert id == 1;
    var c1 := session.RateAnswer(id, true);
    assert session.likes == 1 && session.dislikes == 0;
    var c2 := session.RateAnswer(id, false);
    assert session.likes == 0 && session.dislikes == 1;
    assert session.satisfaction == Some(0.0);
    var c3 := session.RateAnswer(id + 1, true);
    assert c3 == None && session.likes == 0 && session.dislikes == 1;
  }
}
