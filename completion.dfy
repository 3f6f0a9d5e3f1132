/**
 How the client turns the outcome of the generation service into the answer text
 and the sentiment label shown for it. The service calls themselves are not
 modelled: each one is an `Outcome`, either the text it returned or the message
 of the exception it raised.
 */
module Completion {
  import opened Text
  import opened Feedback
  import opened Transcript

  /** The result of one call into the generation service. */
  datatype Outcome = Returned(text: string) | Raised(message: string)

  /** What the background request hands back to the window: answer text and label. */
  datatype Reply = Reply(text: string, sentiment: string)

  /** The label given to answers that report a failure. */
  const SadLabel: string := "TRISTE 😢"

  /** The fragment of a service error that marks a multimodal request the account
      tier does not allow. */
  const PermissionMarker: string := "PERMISSION_DENIED"

  /** The remediation text shown instead of a permission error on an image request. */
  const UpgradeNotice: string := UpgradeHead + UpgradeTail

  const UpgradeHead: string := "Error: "

  const UpgradeTail: string :=
    "Para usar el análisis de imágenes se requiere una cuenta de pago de Google AI Studio. "
    + "Por favor, actualiza tu cuenta para usar esta funcionalidad.\n"
    + "Más información: https://ai.google.dev/pricing"

  /** Prefix of the answer reporting any other failure of an image request. */
  const ImageErrorPrefix: string := "Error al procesar las imágenes: "

  /** Prefix of the answer reporting a failure outside the image path. */
  const GenerationErrorPrefix: string := "Error al generar respuesta: "

  /** The sentiment label for an answer, given the outcome of the classification call:
      the classifier's reply stripped of surrounding whitespace, or the neutral label
      whenever that call fails. */
  function Sentiment(classifier: Outcome): (tag: string)
    ensures classifier.Raised? ==> tag == NeutralLabel
    ensures classifier.Returned? ==> tag == Strip(classifier.text)
    ensures Trimmed(tag)
  {
    match classifier
    case Returned(t) => Strip(t)
    case Raised(_) => NeutralLabel
  }

  /** The reply for one question. `construction` is the exception raised while
      selecting the configured model, if any; `hasImages` says whether images are
      loaded; `generation` is the outcome of the request (for images, including
      their encoding), and `classifier` that of the sentiment call. */
  function ObtainAnswer(construction: Option<string>, hasImages: bool,
                        generation: Outcome, classifier: Outcome): (r: Reply)
    ensures !RequestFailed(construction, generation) ==>
              r == Reply(generation.text, Sentiment(classifier))
    ensures RequestFailed(construction, generation) ==>
              || r.text == UpgradeNotice
              || StartsWith(r.text, GenerationErrorPrefix)
              || StartsWith(r.text, ImageErrorPrefix)
    ensures RequestFailed(construction, generation) ==>
              r.sentiment == SadLabel || r.sentiment == NeutralLabel
    ensures construction.None? && generation.Raised? && hasImages
            && !Contains(generation.message, PermissionMarker) ==>
              r.text == ImageErrorPrefix + generation.message
    ensures construction.Some? || (!hasImages && generation.Raised?) ==>
              r.text == GenerationErrorPrefix
                        + (if construction.Some? then construction.value else generation.message)
  {
    if construction.Some? then
      Reply(GenerationErrorPrefix + construction.value, SadLabel)
    else
      match generation
      case Returned(t) => Reply(t, Sentiment(classifier))
      case Raised(m) =>
        if !hasImages then Reply(GenerationErrorPrefix + m, SadLabel)
        else if Contains(m, PermissionMarker) then Reply(UpgradeNotice, NeutralLabel)
        else Reply(ImageErrorPrefix + m, SadLabel)
  }

  /** A failed request: the model could not be selected or the generation raised. */
  predicate RequestFailed(construction: Option<string>, generation: Outcome) {
    construction.Some? || generation.Raised?
  }

  /** The answer of a successful request is delivered unchanged whatever happens to
      the classification call, which only decides the label. */
  lemma SentimentNeverBlocksAnswer(hasImages: bool, answer: string, classifier: Outcome)
    ensures var r := ObtainAnswer(None, hasImages, Returned(answer), classifier);
            && r.text == answer
            && r.sentiment == Sentiment(classifier)
            && (classifier.Raised? ==> r.sentiment == NeutralLabel)
  {
  }

  /** On a failed request the remediation text appears exactly when images were
      loaded, the model was selected, and the error mentions the permission marker;
      it is then labelled neutral, and every other failure is labelled sad. */
  lemma {:induction false} PermissionMapping(construction: Option<string>, hasImages: bool,
                                             generation: Outcome, classifier: Outcome)
    requires RequestFailed(construction, generation)
    ensures var r := ObtainAnswer(construction, hasImages, generation, classifier);
            var permission := hasImages && construction.None? && Contains(generation.message, PermissionMarker);
            && (r.text == UpgradeNotice <==> permission)
            && (r.sentiment == NeutralLabel <==> permission)
            && (!permission ==> r.sentiment == SadLabel)
  {
    var r := ObtainAnswer(construction, hasImages, generation, classifier);
    DistinctPrefixes(r.text);
    assert SadLabel[0] != NeutralLabel[0];
  }

  /** Neither error prefix can start the remediation text: the sixth characters differ. */
  lemma DistinctPrefixes(s: string)
    ensures StartsWith(s, GenerationErrorPrefix) ==> s != UpgradeNotice
    ensures StartsWith(s, ImageErrorPrefix) ==> s != UpgradeNotice
  {
    assert UpgradeNotice[5] == UpgradeHead[5] == ':';
    assert GenerationErrorPrefix[5] == ' ' && ImageErrorPrefix[5] == ' ';
    if StartsWith(s, GenerationErrorPrefix) { assert s[5] == GenerationErrorPrefix[5]; }
    if StartsWith(s, ImageErrorPrefix) { assert s[5] == ImageErrorPrefix[5]; }
  }

  /** Without images a request never takes the image path: its failures are reported
      with the generation prefix and a sad label. */
  lemma TextOnlyFailures(construction: Option<string>, generation: Outcome, classifier: Outcome)
    requires RequestFailed(construction, generation)
    ensures var r := ObtainAnswer(construction, false, generation, classifier);
            && StartsWith(r.text, GenerationErrorPrefix)
            && r.sentiment == SadLabel
  {
  }
}
