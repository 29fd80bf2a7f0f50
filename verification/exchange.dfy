/**
 * The page and the API together: the page's request as the server receives
 * it, the server's answer as the page reads it, and what the user ends up
 * seeing for each of the server's outcomes.
 */
module Exchange {
  import opened Results
  import opened Strings
  import Backend
  import Frontend

  /** Selectors holding one of the two pairs the server has a model for. */
  predicate SupportedSelectors(st: Frontend.UiState) {
    (st.source, st.target) in Backend.SupportedModels
  }

  /** A selector event that offers one of the server's codes, and every other event. */
  predicate OffersSupportedCode(e: Frontend.Event) {
    (e.SourceChanged? ==> e.value in Backend.LanguageCodes)
    && (e.TargetChanged? ==> e.value in Backend.LanguageCodes)
  }

  /** A change to a supported code keeps the selectors on a supported pair. */
  lemma StepKeepsSupportedSelectors(st: Frontend.UiState, e: Frontend.Event)
    requires SupportedSelectors(st) && OffersSupportedCode(e)
    ensures SupportedSelectors(Frontend.Step(st, e))
  {
  }

  /**
   * Starting from a supported pair, selectors that only ever offer `en` and
   * `hi` name a supported pair after any sequence of events.
   */
  lemma {:induction false} RunKeepsSupportedSelectors(st: Frontend.UiState, events: seq<Frontend.Event>)
    requires SupportedSelectors(st)
    requires forall i :: 0 <= i < |events| ==> OffersSupportedCode(events[i])
    ensures SupportedSelectors(Frontend.Run(st, events))
    decreases |events|
  {
    if events != [] {
      StepKeepsSupportedSelectors(st, events[0]);
      RunKeepsSupportedSelectors(Frontend.Step(st, events[0]), events[1..]);
    }
  }

  /** The JSON body the page posts, as the server parses it into its three fields. */
  function Deliver(req: Frontend.ApiRequest): Backend.RequestBody {
    Backend.RequestBody(req.text, req.source, req.target)
  }

  /** `String(...)` of an array of `n` plain objects, as `new Error(...)` renders it. */
  function ObjectListString(n: nat): (r: string)
    ensures n == 0 <==> r == []
    ensures n > 0 ==> |r| == 16 * n - 1 && r[..15] == "[object Object]"
  {
    if n == 0 then ""
    else if n == 1 then "[object Object]"
    else ObjectListString(n - 1) + ",[object Object]"
  }

  /**
   * The server's answer as the page reads it: a translation is a 200 reply
   * carrying `translated_text`; an error carries `detail`, which is a string
   * for errors raised by the endpoint and a (truthy) list for validation errors.
   */
  function Encode(resp: Backend.Response): (reply: Frontend.Reply)
    ensures reply.Received?
    ensures reply.ok <==> resp.Translated?
    ensures resp.Translated? && resp.translatedText != [] ==> Frontend.Delivers(reply)
    ensures resp.Translated? ==> Frontend.ToJsString(reply.payload.translatedText) == resp.translatedText
    ensures resp.Failed? && resp.detail.Message? ==> reply.payload.detail == Frontend.Str(resp.detail.text)
  {
    match resp
    case Translated(t) =>
      Frontend.Received(true, Frontend.Payload(Frontend.Missing, Frontend.Str(t)))
    case Failed(_, Message(m)) =>
      Frontend.Received(false, Frontend.Payload(Frontend.Str(m), Frontend.Missing))
    case Failed(_, FieldErrors(errors)) =>
      Frontend.Received(false, Frontend.Payload(Frontend.Other(true, ObjectListString(|errors|)), Frontend.Missing))
  }

  /** A translation reaches the output area as is, with the alert untouched and loading off. */
  lemma TranslationShown(st: Frontend.UiState, text: string)
    requires text != []
    ensures Frontend.SettleTranslate(st, Encode(Backend.Translated(text))) == st.(output := text, loading := false)
  {
  }

  /** An endpoint error reaches the user as a danger alert carrying its message, with nothing else changed. */
  lemma MessageShown(st: Frontend.UiState, status: int, message: string)
    requires message != []
    ensures Frontend.SettleTranslate(st, Encode(Backend.Failed(status, Backend.Message(message))))
      == st.(alert := Frontend.Shown(Frontend.Danger, message), loading := false)
  {
  }

  /**
   * A validation error for a single field reaches the user as a danger alert
   * showing the one-element list of error objects as a string.
   */
  lemma SingleFieldErrorShown(st: Frontend.UiState, status: int, error: Backend.FieldError)
    ensures Frontend.SettleTranslate(st, Encode(Backend.Failed(status, Backend.FieldErrors([error]))))
      == st.(alert := Frontend.Shown(Frontend.Danger, "[object Object]"), loading := false)
  {
  }

  /** A click on Translate answered by the server running `translator`, with nothing in between. */
  function RoundTrip(st: Frontend.UiState, translator: Backend.TranslatorCall -> Backend.TranslatorOutcome)
    : (r: Frontend.UiState)
    ensures r.source == st.source && r.target == st.target && r.input == st.input
    ensures AllSpace(JavaScript, st.input) ==> r == st.(alert := Frontend.Shown(Frontend.Warning, Frontend.EnterTextMessage))
    ensures !AllSpace(JavaScript, st.input) ==> !r.loading
  {
    var (started, request) := Frontend.StartTranslate(st);
    match request
    case None => started
    case Some(req) => Frontend.SettleTranslate(started, Encode(Backend.Serve(Deliver(req), translator)))
  }

  /** A click that issues a request ends with the page settling the server's encoded answer. */
  lemma RoundTripSettles(st: Frontend.UiState, translator: Backend.TranslatorCall -> Backend.TranslatorOutcome)
    requires !AllSpace(JavaScript, st.input)
    ensures RoundTrip(st, translator) == Frontend.SettleTranslate(
      st.(alert := Frontend.Hidden, loading := true, output := ""), Encode(Backend.Serve(Deliver(Frontend.RequestFor(st)), translator)))
  {
  }

  /** The text the server hands to the translator for what the user typed. */
  function ServerText(input: string): string {
    Strip(Python, Strip(JavaScript, input))
  }

  /** The validated request the server builds from the page's current state, when it accepts it. */
  function ServerRequest(st: Frontend.UiState): Backend.TranslationRequest {
    Backend.TranslationRequest(ServerText(st.input), st.source, st.target)
  }

  /** The call the server makes to the model for the page's current state. */
  function ModelCall(st: Frontend.UiState): Backend.TranslatorCall
    requires SupportedSelectors(st)
  {
    Backend.CallFor(ServerRequest(st))
  }

  /** Input the server accepts, once the page has trimmed it. */
  predicate AcceptedInput(input: string) {
    var sent := Strip(JavaScript, input);
    sent != [] && |sent| <= Backend.MaxTextLength && !AllSpace(Python, sent)
  }

  /** What the server makes of the request the page sends for accepted input. */
  lemma AcceptedRequestValidates(st: Frontend.UiState)
    requires SupportedSelectors(st) && AcceptedInput(st.input)
    ensures Backend.ValidateRequest(Deliver(Frontend.RequestFor(st))) == Ok(ServerRequest(st))
  {
    Backend.CodesValidate(st.source);
    Backend.CodesValidate(st.target);
    assert Backend.ValidateTextField(Deliver(Frontend.RequestFor(st)).text) == Ok(ServerText(st.input));
  }

  /**
   * The server's answer for the request the page sends for accepted input:
   * the endpoint's decision on the page's codes and the text stripped by
   * both sides.
   */
  lemma AcceptedRequestServed(st: Frontend.UiState, translator: Backend.TranslatorCall -> Backend.TranslatorOutcome)
    requires SupportedSelectors(st) && AcceptedInput(st.input)
    ensures Backend.Serve(Deliver(Frontend.RequestFor(st)), translator) == Backend.Translate(ServerRequest(st), translator)
  {
    AcceptedRequestValidates(st);
  }

  /** For accepted input the click ends with the page settling the endpoint's decision on the server's request. */
  lemma AcceptedRoundTrip(st: Frontend.UiState, translator: Backend.TranslatorCall -> Backend.TranslatorOutcome,
                          resp: Backend.Response)
    requires SupportedSelectors(st) && AcceptedInput(st.input)
    requires Backend.Translate(ServerRequest(st), translator) == resp
    ensures RoundTrip(st, translator)
      == Frontend.SettleTranslate(st.(alert := Frontend.Hidden, loading := true, output := ""), Encode(resp))
  {
    AcceptedRequestServed(st, translator);
    RoundTripSettles(st, translator);
  }

  /**
   * A translation the model produces with something besides white space
   * reaches the output area stripped, with no alert, and the page idle.
   */
  lemma TranslationReachesOutput(st: Frontend.UiState, translator: Backend.TranslatorCall -> Backend.TranslatorOutcome)
    requires SupportedSelectors(st) && AcceptedInput(st.input)
    requires translator(ModelCall(st)).Produced? && !AllSpace(Python, translator(ModelCall(st)).text)
    ensures RoundTrip(st, translator)
      == st.(alert := Frontend.Hidden, loading := false, output := Strip(Python, translator(ModelCall(st)).text))
  {
    var text := Strip(Python, translator(ModelCall(st)).text);
    Backend.TranslationIsStrippedOutput(ServerRequest(st), translator);
    AcceptedRoundTrip(st, translator, Backend.Translated(text));
    TranslationShown(st.(alert := Frontend.Hidden, loading := true, output := ""), text);
  }

  /** A model failure reaches the user as a danger alert carrying the server's message. */
  lemma TranslatorErrorReachesAlert(st: Frontend.UiState, translator: Backend.TranslatorCall -> Backend.TranslatorOutcome)
    requires SupportedSelectors(st) && AcceptedInput(st.input)
    requires translator(ModelCall(st)).Raised?
    ensures RoundTrip(st, translator) == st.(
      alert := Frontend.Shown(Frontend.Danger, Backend.TranslationErrorPrefix + translator(ModelCall(st)).message),
      loading := false, output := "")
  {
    var detail := Backend.TranslationErrorPrefix + translator(ModelCall(st)).message;
    Backend.TranslatorErrorIs500(ServerRequest(st), translator);
    AcceptedRoundTrip(st, translator, Backend.Failed(Backend.StatusServerError, Backend.Message(detail)));
    MessageShown(st.(alert := Frontend.Hidden, loading := true, output := ""), Backend.StatusServerError, detail);
  }

  /** A blank translation reaches the user as the server's "empty translation" alert. */
  lemma EmptyTranslationReachesAlert(st: Frontend.UiState, translator: Backend.TranslatorCall -> Backend.TranslatorOutcome)
    requires SupportedSelectors(st) && AcceptedInput(st.input)
    requires translator(ModelCall(st)).Produced? && AllSpace(Python, translator(ModelCall(st)).text)
    ensures RoundTrip(st, translator) == st.(
      alert := Frontend.Shown(Frontend.Danger, Backend.EmptyTranslationDetail),
      loading := false, output := "")
  {
    var detail := Backend.EmptyTranslationDetail;
    Backend.BlankTranslationIs500(ServerRequest(st), translator);
    AcceptedRoundTrip(st, translator, Backend.Failed(Backend.StatusServerError, Backend.Message(detail)));
    MessageShown(st.(alert := Frontend.Hidden, loading := true, output := ""), Backend.StatusServerError, detail);
  }

  /**
   * While its selectors hold a supported pair, the page never provokes the
   * server's "must be different languages" answer.
   */
  lemma SupportedSelectorsNeverSameLanguage(st: Frontend.UiState, translator: Backend.TranslatorCall -> Backend.TranslatorOutcome)
    requires SupportedSelectors(st)
    ensures Backend.Serve(Deliver(Frontend.RequestFor(st)), translator)
      != Backend.Failed(Backend.StatusBadRequest, Backend.Message(Backend.SameLanguageDetail))
  {
    Backend.CodesValidate(st.source);
    Backend.CodesValidate(st.target);
    Backend.DistinctCodesNeverSameLanguage(Deliver(Frontend.RequestFor(st)), translator);
  }

  /**
   * Text the page sends but the server's `text` field rejects is answered
   * with a single validation error, which the page shows as "[object Object]".
   */
  lemma RejectedTextShowsObjectText(st: Frontend.UiState, translator: Backend.TranslatorCall -> Backend.TranslatorOutcome)
    requires SupportedSelectors(st) && !AllSpace(JavaScript, st.input)
    requires Backend.ValidateTextField(Strip(JavaScript, st.input)).Err?
    ensures RoundTrip(st, translator)
      == st.(alert := Frontend.Shown(Frontend.Danger, "[object Object]"), loading := false, output := "")
  {
    Backend.CodesValidate(st.source);
    Backend.CodesValidate(st.target);
    Backend.RejectedTextServed(Deliver(Frontend.RequestFor(st)), translator);
    RoundTripSettles(st, translator);
    SingleFieldErrorShown(st.(alert := Frontend.Hidden, loading := true, output := ""), Backend.StatusUnprocessable,
                          Backend.FieldError(Backend.TextField, Backend.ValidateTextField(Deliver(Frontend.RequestFor(st)).text).error));
  }

  /** Trimmed input over 5000 characters ends in the danger alert "[object Object]". */
  lemma OverlongInputShowsObjectText(st: Frontend.UiState, translator: Backend.TranslatorCall -> Backend.TranslatorOutcome)
    requires SupportedSelectors(st)
    requires |Strip(JavaScript, st.input)| > Backend.MaxTextLength
    ensures RoundTrip(st, translator)
      == st.(alert := Frontend.Shown(Frontend.Danger, "[object Object]"), loading := false, output := "")
  {
    RejectedTextShowsObjectText(st, translator);
  }

  /** A character Python's `strip()` removes but JavaScript's `trim()` keeps, such as U+001C. */
  predicate PythonOnlySpace(c: char) {
    IsSpace(Python, c) && !IsSpace(JavaScript, c)
  }

  /**
   * The same happens to input made only of characters Python strips but
   * JavaScript keeps: it passes the page's empty check and fails the
   * server's.
   */
  lemma PythonOnlySpaceShowsObjectText(st: Frontend.UiState, translator: Backend.TranslatorCall -> Backend.TranslatorOutcome)
    requires SupportedSelectors(st)
    requires st.input != [] && forall i :: 0 <= i < |st.input| ==> PythonOnlySpace(st.input[i])
    ensures RoundTrip(st, translator)
      == st.(alert := Frontend.Shown(Frontend.Danger, "[object Object]"), loading := false, output := "")
  {
    assert !IsSpace(JavaScript, st.input[0]);
    StripStripped(JavaScript, st.input);
    assert AllSpace(Python, st.input);
    RejectedTextShowsObjectText(st, translator);
  }

  /** U+001C is such a character. */
  lemma InformationSeparatorIsPythonOnlySpace()
    ensures PythonOnlySpace('\U{1C}')
  {
  }
}
