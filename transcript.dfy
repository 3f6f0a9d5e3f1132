/**
 The lines the chat window writes into its conversation area, and the guard that
 decides whether the text in the question field is sent at all.
 */
module Transcript {
  import opened Text
  import opened Feedback

  /** The character that opens every echoed question line. */
  const QuestionMarker: char := '❓'

  /** The character that opens every rendered answer line. */
  const AnswerMarker: char := '🤖'

  /** The sentiment label used when none is available. */
  const NeutralLabel: string := "NEUTRAL 😐"

  /** The head of an echoed question line, up to the question itself. */
  const QuestionLead: string := [QuestionMarker] + " Tú: "

  /** The head of a rendered answer line, up to the sentiment label. */
  const AnswerLead: string := [AnswerMarker] + " Gemini ["

  /** The question that is submitted for the raw text of the question field: the
      stripped text, or nothing at all when that is empty. */
  function SubmittedQuestion(raw: string): (r: Option<string>)
    ensures r.None? <==> AllSpace(raw)
    ensures r.Some? ==> r.value != [] && Trimmed(r.value) && |r.value| <= |raw|
  {
    var q := Strip(raw);
    if q == [] then None else Some(q)
  }

  /** Whitespace around a question is dropped and the question itself is sent unchanged. */
  lemma SubmittedQuestionPadded(pre: string, q: string, post: string)
    requires AllSpace(pre) && AllSpace(post) && q != [] && Trimmed(q)
    ensures SubmittedQuestion(pre + q + post) == Some(q)
  {
    StripPadding(pre, q, post);
  }

  /** The text inserted when a question is submitted. */
  function QuestionEcho(question: string): (e: string)
    ensures |e| == |QuestionLead| + |question| + 2
    ensures e[0] == '\n' && e[|e| - 1] == '\n'
    ensures e[1..1 + |QuestionLead|] == QuestionLead
    ensures e[1 + |QuestionLead|..|e| - 1] == question
  {
    "\n" + QuestionLead + question + "\n"
  }

  /** The text inserted when an answer arrives, annotated with its sentiment label. */
  function AnswerEcho(answer: string, sentiment: string): (e: string)
    ensures var k := 1 + |AnswerLead| + |sentiment|;
            && |e| == k + 3 + |answer| + 1
            && e[0] == '\n' && e[|e| - 1] == '\n'
            && e[1..1 + |AnswerLead|] == AnswerLead
            && e[1 + |AnswerLead|..k] == sentiment
            && e[k..k + 3] == "]: "
            && e[k + 3..|e| - 1] == answer
  {
    "\n" + AnswerLead + sentiment + "]: " + answer + "\n"
  }
}
