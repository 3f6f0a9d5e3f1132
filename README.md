# Oráculo de Gemini — session logic of the chat window

This project models the bookkeeping behind the chat window of the Gemini desktop
client (`gui.py`, class `OracleGUI`), and proves properties of that model in Dafny.

- **Answer registry and feedback.** Every completed request gets the next answer id.
  It is registered unrated. A 👍 or 👎 moves the answer into or between the like and
  dislike buckets. The counters always equal the size of the two buckets, and the
  window title shows the satisfaction percentage computed from them
  (`Oracle.OracleSession` with the value-level lemmas of `Feedback`).
- **Voice recording flag.** The record button toggles between idle and recording,
  and the indicator next to it says so. A capture posts its hand-offs to the window:
  the recognized text or an error, then a "finish" hand-off that resets the flag and
  blanks the indicator. Opening the microphone is not guarded, so when that fails
  nothing is posted and the window stays in the recording state (see "## Findings").
  The model delivers hand-offs in posting order (`Oracle`).
- **Completion fallbacks.** A failed sentiment call yields the neutral label. A
  permission error on an image request becomes a remediation notice labelled neutral.
  Every other failure is reported with a fixed prefix and the sad label (`Completion`).
- **Question guard and rendered lines.** A blank question is not sent. Questions and
  answers are written into the conversation area with fixed prefixes (`Transcript`).
- **Export.** The plain-text layout is a title line, a rule of 40 `=`, an empty line
  and the transcript verbatim. The PDF story keeps the non-blank lines in order and
  styles each line by its first character (`Export`).

`Text` models the Python string builtins these parts use: `str.isspace()` for one
character, `str.strip()`, `str.split('\n')`, `str.startswith` and `str.endswith`,
`in` on strings, and `"=" * 40`.

The files are `text.dfy`, `feedback.dfy`, `transcript.dfy`, `completion.dfy`,
`export.dfy` and `oracle.dfy`, one module each.

## Model

| member | source | states |
|---|---|---|
| `Text.Strip` | gui.py:271 | the result has no whitespace at either end, is no longer than the input, and is empty exactly when the input is all whitespace |
| `Text.StripPadding` | gui.py:481 | stripping any whitespace padding around a trimmed string gives back exactly that string |
| `Text.LeadingSpaces` | gui.py:271 | the whitespace run at the front: all of it is whitespace and the next character is not |
| `Text.TrailingSpaces` | gui.py:271 | the whitespace run at the back: all of it is whitespace and the character before it is not |
| `Text.Contains` | gui.py:216 | `sub in s` holds exactly when `sub` occurs at some position of `s` |
| `Text.Repeat` | gui.py:452 | `c * n` has length `n` and every character is `c` |
| `Text.Split` | gui.py:480 | `split('\n')` yields at least one part and no part contains the separator |
| `Text.JoinSplit` | gui.py:480 | joining the split parts with the separator gives back the original text |
| `Text.SplitJoin` | gui.py:480 | splitting a join of separator-free parts gives back the parts |
| `Feedback.WithRating` | gui.py:352-363 | rating an answer changes its rating only: same ids, same text, every other entry unchanged |
| `Feedback.RatedPartition` | gui.py:356-368 | an answer is never in both buckets, and the two buckets together are the rated answers |
| `Feedback.CountsBound` | gui.py:353-369 | likes plus dislikes is the number of rated answers, which is at most the number registered |
| `Feedback.CountsAfterRating` | gui.py:356-368 | the decrement of the old bucket and the increment of the new one give exactly the sizes of the buckets after the rating |
| `Feedback.RatedAfterRegister` | gui.py:329-334 | registering a new unrated answer leaves both buckets unchanged |
| `Feedback.SatisfactionPercent` | gui.py:375-378 | a percentage exists exactly when some answer is rated; it is in [0, 100], equals likes × 100 / total, is 100 exactly when there is no dislike and 0 exactly when there is no like |
| `Transcript.SubmittedQuestion` | gui.py:271-273 | nothing is sent exactly when the field holds only whitespace; otherwise the sent question is non-empty and trimmed |
| `Transcript.SubmittedQuestionPadded` | gui.py:271-273 | whitespace around a question is dropped and the question itself is sent unchanged |
| `Completion.ObtainAnswer` | gui.py:186-229 | a request that succeeds gives the returned text with the label of the classification call; a failed one gives the remediation notice or an error prefix followed by the exception message, labelled sad or neutral: the image prefix for a failure of an image request other than a permission error, the generation prefix when the model cannot be selected or a request without images fails |
| `Transcript.QuestionEcho` | gui.py:283 | the inserted text is a line break, the question head, the question and a line break, each at its position |
| `Transcript.AnswerEcho` | gui.py:313 | the inserted text is a line break, the answer head, the label, `]: `, the answer and a line break, each at its position |
| `Completion.Sentiment` | gui.py:179-184 | the label is the classifier's reply without surrounding whitespace, or the neutral label when that call raises |
| `Completion.SentimentNeverBlocksAnswer` | gui.py:186-229 | on a successful request the answer text is delivered unchanged whatever the classifier does, labelled by `Sentiment` of the classification outcome; a failed classification gives the neutral label |
| `Completion.PermissionMapping` | gui.py:215-221 | on a failed request, the remediation notice appears, and the label is neutral, exactly when images are loaded and the error mentions `PERMISSION_DENIED`; every other failure is labelled sad |
| `Completion.TextOnlyFailures` | gui.py:222-229 | without images a failure is always reported with the generation-error prefix and the sad label |
| `Export.TxtPreamble` | gui.py:451-452 | the plain-text preamble is the title, a line break, 40 `=` and two line breaks |
| `Export.TxtDocument` | gui.py:448-453 | the plain-text export starts with the preamble and continues with the transcript verbatim |
| `Export.TxtRoundTrip` | gui.py:448-453 | reading an export back gives the transcript, and any document that reads back is the export of what it gives |
| `Export.LineStyle` | gui.py:482-503 | the question style exactly for a line opening with `❓`, the answer style exactly for one opening with `🤖`, never the title style |
| `Export.LineFlowables` | gui.py:481-506 | a blank line gives nothing; any other line gives a paragraph holding the line verbatim and a spacer of 6 |
| `Export.KeptLines` | gui.py:480-481 | the kept lines are no more than the lines and none of them is blank |
| `Export.Body` | gui.py:480-506 | the body has two flowables per kept line |
| `Export.PdfStory` | gui.py:463-506 | the story is the title paragraph, a spacer of 12 and two flowables per kept line |
| `Export.KeptLinesAppend` | gui.py:480-481 | the filtering of blank lines distributes over concatenation, so the kept lines keep their order |
| `Export.KeptLinesExactly` | gui.py:480-481 | a line is kept exactly when it occurs in the transcript and is not blank |
| `Export.BodyShape` | gui.py:480-506 | the PDF body has one paragraph and one spacer per kept line, in order, and each paragraph is styled by that line's first character |
| `Export.BuildStory` | gui.py:463-506 | the loop builds the title, a spacer, and the body of the transcript's lines |
| `Export.AppendLine` | gui.py:481-506 | one loop step: a blank line adds nothing; any other line adds its paragraph, styled question for `❓`, answer for `🤖` and normal otherwise, then a spacer |
| `Export.SplitAfterBreak` | gui.py:480 | the lines of a transcript that ends with a line break continue with the lines of what is appended to it |
| `Export.EchoedQuestionStyled` | gui.py:482-490 | where a question is echoed into the transcript, the PDF story gets a question-styled paragraph at that point, after what came before |
| `Export.EchoedAnswerStyled` | gui.py:491-500 | where an answer is rendered into the transcript, the PDF story gets an answer-styled paragraph at that point |
| `Export.ExportAsWritten` | gui.py:441-529 | an empty name cancels with no notice; a `.txt` name writes the plain-text export and a `.pdf` name the PDF story, or fails with the write error reported; any other name writes nothing; every name that is not empty gets the success notice unless a write failed |
| `Export.UnknownExtensionReportsSuccess` | gui.py:448-529 | a name ending in `.md` writes nothing and still gets the success notice |
| `Export.Export` | gui.py:441-455 | the success notice is given exactly when a TXT or PDF document was written; `.txt` and `.pdf` names write or fail as in the client; any other name is reported as unsupported |
| `Export.ExportDiffersOnlyWhenUnsupported` | gui.py:448-529 | the corrected export agrees with the client's exactly when the name is empty or ends in `.txt` or `.pdf` |
| `Oracle.IdsUpTo` | gui.py:305-306 | after `n` answers the ids in use are exactly 1 to `n`, `n` of them |
| `Oracle.OutcomeHandoff` | gui.py:395-406 | a recognized capture posts its text; every other reported outcome posts a non-empty error message |
| `Oracle.PostedHandoffs` | gui.py:392-408 | as the client does it: a finish hand-off is posted exactly when the microphone could be opened; a failure to open it posts nothing |
| `Oracle.CaptureHandoffs` | gui.py:392-408 | with every step guarded: every capture posts exactly one outcome hand-off (the text if recognized, otherwise a non-empty error message) followed by the finish hand-off |
| `Oracle.HandoffQuestions` | gui.py:410-413 | a recognized text submits one question exactly when it is not blank, the one the question guard gives |
| `Oracle.HandoffErrors` | gui.py:415-416 | an error hand-off shows one text, `❌ ` followed by the message; no other hand-off shows one |
| `Oracle.RecordingAfter` | gui.py:419-420 | after a run of hand-offs the flag is still set exactly when it was set before and no finish hand-off was among them |
| `Oracle.DeliveredPair` | gui.py:407-422 | an outcome hand-off followed by the finish hand-off submits and shows what the outcome hand-off does, clears the flag and blanks the indicator |
| `Oracle.CaptureAlwaysFinishes` | gui.py:407-422 | with every step guarded, every capture ends with the flag cleared and the indicator blank |
| `Oracle.MicrophoneFailureKeepsRecording` | gui.py:392-394 | as the client does it, a microphone that cannot be opened leaves flag and indicator unchanged and shows nothing |
| `Oracle.OracleSession.constructor` | gui.py:40-48 | an empty registry, id 0, both counters 0, no percentage shown, not recording, a blank indicator |
| `Oracle.OracleSession.RegisterAnswer` | gui.py:296-334 | the id is one more than the last, larger than every earlier id and unused; the answer is registered under it unrated; earlier entries, the counters, the flag and the indicator are unchanged; the invariant is kept |
| `Oracle.OracleSession.RateAnswer` | gui.py:350-378 | an unknown id changes nothing; otherwise only that entry's rating changes; the same rating again leaves the counters; a switch moves one count between the buckets; a first rating adds one to the chosen bucket; the percentage is refreshed; the invariant is kept |
| `Oracle.OracleSession.CountersBounded` | gui.py:353-369 | under the invariant both counters are non-negative and their sum is the number of rated answers, at most the number registered |
| `Oracle.OracleSession.ToggleRecording` | gui.py:380-390 | toggling flips the recording flag, starts a capture exactly when it was idle, and sets the indicator to the recording text or blanks it |
| `Oracle.OracleSession.ShowCaptureError` | gui.py:415-416 | the indicator shows `❌ ` followed by the message |
| `Oracle.OracleSession.FinishRecording` | gui.py:419-422 | the flag is false and the indicator blank afterwards |
| `Oracle.OracleSession.DeliverHandoffs` | gui.py:392-422 | delivering hand-offs in posting order submits the guarded questions, shows the errors, and leaves the flag and the indicator as `RecordingAfter` and `IndicatorAfter` say |
| `Oracle.OracleSession.DeliverCapture` | gui.py:392-422 | with every step guarded: after any outcome the flag is false and the indicator blank; recognized text goes through the question guard; every other outcome posts one error hand-off, `❌ ` followed by its message, and sends no question |
| `Oracle.OracleSession.DeliverCaptureAsWritten` | gui.py:392-408 | as the client does it: a microphone failure leaves flag and indicator as they were and posts nothing; every other outcome submits and shows what the guarded capture does: recognized text goes through the question guard, and any other outcome shows its one error and sends no question; it ends with the flag false and the indicator blank |

## Left out

- Tk widgets are not modelled: layout, enabling and disabling controls, the text-widget insertions, the per-answer frames and labels, thumbnails and the window title text. The transcript that the export reads is a parameter of the export functions. The lines inserted for questions and answers are modelled as `Transcript.QuestionEcho` and `Transcript.AnswerEcho`.
- Threads and `root.after` are not modelled. The result a background request hands back is the argument of `RegisterAnswer`. The hand-offs of a capture are delivered in posting order by `DeliverCapture`.
- The `google.generativeai` calls are foreign network calls. `ObtainAnswer` takes their outcomes as parameters (returned text or exception message). The sentiment prompt text is not modelled.
- The model switch (`cambiar_modelo`) is not modelled: it is one foreign constructor call, and its only effect is a status label.
- Microphone capture and speech recognition are not modelled. Their outcome is the `CaptureOutcome` parameter. The capture task does not watch for an early stop, so that stop is not modelled either.
- Image loading, RGB conversion and JPEG encoding are not modelled. Only whether images are loaded matters (`hasImages`). Encoding failures are part of the request's exception message.
- The save dialog, the timestamped default name, the file write itself and the document library are not modelled. A write failure is a parameter. Paragraph styles are reduced to their four kinds: no fonts, colours or indents. The PDF path assumes the document library is present, so the on-demand install and retry are not modelled.
- The 2-second timer that blanks the indicator after an error (gui.py:417) is not modelled. The finish hand-off is posted right after the error hand-off and blanks the indicator first, so the error text is replaced at once.
- The enabled state of the buttons is not modelled. In particular, after a microphone failure the record button stays disabled (gui.py:384) until an answer re-enables it (gui.py:347).
- `Unpack`'s `Bare` case is unreachable from `obtener_respuesta`, which returns a pair on every path (gui.py:214, 217-221, 227, 229). It is kept because `actualizar_respuesta` accepts a bare text (gui.py:298-302).
- `WriteFailed` does not say what is left at the destination. A failed TXT write may leave the file emptied or partly written, because it is opened for writing before the text is written (gui.py:450).
- The PDF branch when the document library is missing is not modelled. If the user declines the install, nothing is written and the success notice is still shown (gui.py:511-529), as for an unknown extension.
- The satisfaction percentage is a real number, not a Python float, and its one-decimal formatting is not modelled.
- `chat.py` and `main.py` are not part of this model: they are a second window and a console loop with no session state.

## Findings

| source | as written | input that shows it | evidently intended | confidence | as-written member | corrected member |
|---|---|---|---|---|---|---|
| gui.py:392-408 | the microphone is opened and calibrated before the guarded block, so when that raises the capture task ends without posting an error or the finish hand-off, and the window stays in the recording state | no input device, or the audio library missing, when the record button is pressed | every capture ends with the finish hand-off, a failure to open the microphone being reported like any other capture error | medium, not executed | `Oracle.PostedHandoffs`, `Oracle.MicrophoneFailureKeepsRecording`, `Oracle.OracleSession.DeliverCaptureAsWritten` | `Oracle.CaptureHandoffs`, `Oracle.CaptureAlwaysFinishes`, `Oracle.OracleSession.DeliverCapture` |
| gui.py:448-529 | a destination ending in neither `.txt` nor `.pdf` matches neither branch, so nothing is written, yet the success notice is shown | saving as `conversacion.md` | no success notice unless a document was written; an unsupported extension is reported | medium, not executed | `Export.ExportAsWritten`, `Export.UnknownExtensionReportsSuccess` | `Export.Export` |
