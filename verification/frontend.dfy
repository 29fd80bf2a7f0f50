/**
 * The translator page's controller (`LinguaAI/frontend/script.js`) as a state
 * record and the transitions its event handlers perform.  The DOM is reduced
 * to the fields the handlers read and write; the network reply and the
 * clipboard's verdict are parameters.
 */
module Frontend {
  import opened Results
  import opened Strings

  const EnterTextMessage := "Please enter text before translating."
  const GenericFailureMessage := "Translation failed. Please try again."
  const NoOutputMessage := "No translated output returned by the API."
  const NothingToCopyMessage := "Nothing to copy. Translate text first."
  const CopiedMessage := "Translated text copied to clipboard."
  const CopyFailedMessage := "Copy failed. Please copy manually."

  /** The two codes the selectors fall back to. */
  const English := "en"
  const Hindi := "hi"

  /** The Bootstrap alert styles the page uses. */
  datatype Level = Warning | Danger | Success

  /** The translation alert: hidden, or showing a message in some style. */
  datatype Alert = Hidden | Shown(level: Level, message: string)

  /**
   * What the handlers see of the page: the two language selectors, the input
   * and output text areas, the alert and whether the translate button is in
   * its loading state.
   */
  datatype UiState = UiState(
    source: string,
    target: string,
    input: string,
    output: string,
    alert: Alert,
    loading: bool)

  /**
   * A property of the parsed response body as the handler reads it: absent
   * (`undefined`), a string, or any other JSON value, which carries its
   * JavaScript truthiness and its `String(...)` conversion.
   */
  datatype JsValue = Missing | Str(s: string) | Other(truthy: bool, shown: string)

  /** JavaScript truthiness: an absent property and the empty string are falsy. */
  predicate Truthy(v: JsValue) {
    match v
    case Missing => false
    case Str(s) => s != []
    case Other(t, _) => t
  }

  /** The string a value becomes as an error message or a text area value. */
  function ToJsString(v: JsValue): string {
    match v
    case Missing => "undefined"
    case Str(s) => s
    case Other(_, shown) => shown
  }

  /** The two properties of the response body the handler reads. */
  datatype Payload = Payload(detail: JsValue, translatedText: JsValue)

  /** The body after a failed `response.json()`: the empty object. */
  const EmptyPayload := Payload(Missing, Missing)

  /**
   * How the request settled: `fetch` rejected with an error message, or a
   * response arrived with its `ok` flag and parsed body.
   */
  datatype Reply = Unreachable(message: string) | Received(ok: bool, payload: Payload)

  /** The JSON body the page posts. */
  datatype ApiRequest = ApiRequest(text: string, source: string, target: string)

  /**
   * `normalizeLanguageSelection`: the new value of the other selector after
   * one selector changed to `changed`.
   */
  function NormalizedOther(changed: string, other: string): (r: string)
    ensures r != changed
    ensures changed != other ==> r == other
    ensures changed == other ==> r == (if changed == English then Hindi else English)
  {
    if changed == other then (if changed == English then Hindi else English) else other
  }

  /** Normalising a second time changes nothing. */
  lemma NormalizedOtherIdempotent(changed: string, other: string)
    ensures NormalizedOther(changed, NormalizedOther(changed, other)) == NormalizedOther(changed, other)
  {
  }

  /** The source selector's change listener. */
  function SelectSource(st: UiState, value: string): (r: UiState)
    ensures r.source == value && r.source != r.target
    ensures st.target != value ==> r.target == st.target
    ensures r == st.(source := value, target := r.target)
  {
    st.(source := value, target := NormalizedOther(value, st.target))
  }

  /** The target selector's change listener. */
  function SelectTarget(st: UiState, value: string): (r: UiState)
    ensures r.target == value && r.source != r.target
    ensures st.source != value ==> r.source == st.source
    ensures r == st.(target := value, source := r.source)
  {
    st.(target := value, source := NormalizedOther(value, st.source))
  }

  /** The request body for the page's current state: the trimmed input and both selector values. */
  function RequestFor(st: UiState): ApiRequest {
    ApiRequest(Strip(JavaScript, st.input), st.source, st.target)
  }

  /**
   * The synchronous part of `translate`: hide the alert, and either warn
   * about empty input or enter the loading state, clear the output and
   * issue the request with the trimmed input and both selector values.
   */
  function StartTranslate(st: UiState): (r: (UiState, Option<ApiRequest>))
    ensures r.1.Some? <==> !AllSpace(JavaScript, st.input)
    ensures r.1.None? ==> r.0 == st.(alert := Shown(Warning, EnterTextMessage))
    ensures r.1.Some? ==>
      && r.1.value == ApiRequest(Strip(JavaScript, st.input), st.source, st.target)
      && r.1.value.text != [] && IsStripped(JavaScript, r.1.value.text)
      && r.0 == st.(alert := Hidden, loading := true, output := "")
  {
    var text := Strip(JavaScript, st.input);
    var cleared := st.(alert := Hidden);
    if text == [] then
      (cleared.(alert := Shown(Warning, EnterTextMessage)), None)
    else
      (cleared.(loading := true, output := ""), Some(RequestFor(st)))
  }

  /** The message of the error a non-ok response throws: `payload.detail || fallback`. */
  function FailureMessage(p: Payload): (m: string)
    ensures Truthy(p.detail) ==> m == ToJsString(p.detail)
    ensures !Truthy(p.detail) ==> m == GenericFailureMessage
  {
    if Truthy(p.detail) then ToJsString(p.detail) else GenericFailureMessage
  }

  /** Whether a reply carries a translation the handler accepts. */
  predicate Delivers(reply: Reply) {
    reply.Received? && reply.ok && Truthy(reply.payload.translatedText)
  }

  /**
   * The asynchronous part of `translate`, once the request settled: show the
   * translation, or a danger alert with the failure's message; in every case
   * leave the loading state.
   */
  function SettleTranslate(st: UiState, reply: Reply): (r: UiState)
    ensures !r.loading
    ensures r.source == st.source && r.target == st.target && r.input == st.input
    ensures Delivers(reply) ==> r.output == ToJsString(reply.payload.translatedText) && r.alert == st.alert
    ensures !Delivers(reply) ==> r.output == st.output && r.alert.Shown? && r.alert.level == Danger
    ensures reply.Unreachable? ==> r.alert.message == reply.message
    ensures reply.Received? && !reply.ok ==> r.alert.message == FailureMessage(reply.payload)
    ensures reply.Received? && reply.ok && !Delivers(reply) ==> r.alert.message == NoOutputMessage
  {
    var settled :=
      match reply
      case Unreachable(m) => st.(alert := Shown(Danger, m))
      case Received(ok, payload) =>
        if !ok then st.(alert := Shown(Danger, FailureMessage(payload)))
        else if !Truthy(payload.translatedText) then st.(alert := Shown(Danger, NoOutputMessage))
        else st.(output := ToJsString(payload.translatedText));
    settled.(loading := false)
  }

  /**
   * `translate` run to completion without other events in between: the
   * request, if one is issued, settles with `reply`.
   */
  function Translate(st: UiState, reply: Reply): (r: UiState)
    ensures r.source == st.source && r.target == st.target && r.input == st.input
    ensures AllSpace(JavaScript, st.input) ==> r == st.(alert := Shown(Warning, EnterTextMessage))
    ensures !AllSpace(JavaScript, st.input) ==> !r.loading
    ensures !AllSpace(JavaScript, st.input) ==> (r.alert == Hidden <==> Delivers(reply))
    ensures !AllSpace(JavaScript, st.input) && Delivers(reply) ==> r.output == ToJsString(reply.payload.translatedText)
    ensures !AllSpace(JavaScript, st.input) && !Delivers(reply) ==> r.output == "" && r.alert.level == Danger
    ensures !AllSpace(JavaScript, st.input) && reply.Unreachable? ==> r.alert == Shown(Danger, reply.message)
    ensures !AllSpace(JavaScript, st.input) && reply.Received? && !reply.ok ==>
      r.alert == Shown(Danger, FailureMessage(reply.payload))
    ensures !AllSpace(JavaScript, st.input) && reply.Received? && reply.ok && !Delivers(reply) ==>
      r.alert == Shown(Danger, NoOutputMessage)
  {
    var (started, request) := StartTranslate(st);
    if request.None? then started else SettleTranslate(started, reply)
  }

  /**
   * `copyOutput`: warn when the trimmed output is empty; otherwise try to
   * copy it and report the clipboard's verdict.  The second component says
   * whether a clipboard write was attempted.
   */
  function CopyOutput(st: UiState, written: bool): (r: (UiState, bool))
    ensures r.1 <==> !AllSpace(JavaScript, st.output)
    ensures r.0 == st.(alert := r.0.alert)
    ensures !r.1 ==> r.0.alert == Shown(Warning, NothingToCopyMessage)
    ensures r.1 && written ==> r.0.alert == Shown(Success, CopiedMessage)
    ensures r.1 && !written ==> r.0.alert == Shown(Danger, CopyFailedMessage)
  {
    var text := Strip(JavaScript, st.output);
    if text == [] then (st.(alert := Shown(Warning, NothingToCopyMessage)), false)
    else if written then (st.(alert := Shown(Success, CopiedMessage)), true)
    else (st.(alert := Shown(Danger, CopyFailedMessage)), true)
  }

  /** `clearTranslator`: hide the alert and empty both text areas. */
  function ClearTranslator(st: UiState): (r: UiState)
    ensures r.input == [] && r.output == [] && r.alert == Hidden
    ensures r.source == st.source && r.target == st.target && r.loading == st.loading
  {
    st.(alert := Hidden, input := "", output := "")
  }

  /**
   * The events the page listens to.  A translation runs to completion before
   * the next event; overlapping requests are outside this model.
   */
  datatype Event =
    | SourceChanged(value: string)
    | TargetChanged(value: string)
    | InputEdited(text: string)
    | TranslateRequested(reply: Reply)
    | CopyRequested(written: bool)
    | ClearRequested

  /** The handler wired to each event. */
  function Step(st: UiState, e: Event): UiState {
    match e
    case SourceChanged(v) => SelectSource(st, v)
    case TargetChanged(v) => SelectTarget(st, v)
    case InputEdited(t) => st.(input := t)
    case TranslateRequested(reply) => Translate(st, reply)
    case CopyRequested(written) => CopyOutput(st, written).0
    case ClearRequested => ClearTranslator(st)
  }

  /**
   * The page after a sequence of events.  Whatever the events, selectors
   * that start apart stay apart, and an idle page is idle again after
   * every complete event.
   */
  function Run(st: UiState, events: seq<Event>): (r: UiState)
    ensures st.source != st.target ==> r.source != r.target
    ensures !st.loading ==> !r.loading
    decreases |events|
  {
    if events == [] then st else Run(Step(st, events[0]), events[1..])
  }
}
