/**
 * The LinguaAI translation API (`LinguaAI/backend/main.py`): validation of the
 * JSON body of `POST /translate` and the decisions the endpoint takes before
 * and after calling the translation model.  The model itself is a parameter.
 */
module Backend {
  import opened Results
  import opened Strings

  /** The language codes the API accepts, after normalisation. */
  const LanguageCodes: set<string> := {"en", "hi"}

  /** Every spelling of a code that normalises to an accepted one. */
  const CodeSpellings: set<string> := {"en", "En", "eN", "EN", "hi", "Hi", "hI", "HI"}

  /** The translation pairs with a model, and that model's name (`SUPPORTED_MODELS`). */
  const SupportedModels: map<(string, string), string> := map[
    ("en", "hi") := "Helsinki-NLP/opus-mt-en-hi",
    ("hi", "en") := "Helsinki-NLP/opus-mt-hi-en"
  ]

  /** Bounds on the length of the raw `text` field. */
  const MinTextLength := 1
  const MaxTextLength := 5000

  /** HTTP status codes the endpoint answers errors with. */
  const StatusBadRequest := 400
  const StatusUnprocessable := 422
  const StatusServerError := 500

  const UnsupportedCodeMessage := "Only 'en' and 'hi' are supported."
  const EmptyTextMessage := "Text cannot be empty."
  const SameLanguageDetail := "Source and target must be different languages."
  const UnsupportedPairDetail := "Unsupported translation pair. Use en->hi or hi->en."
  const TranslationErrorPrefix := "Translation error: "
  const EmptyTranslationDetail := "Model returned empty translation."

  /** The fields of a translation request, in declaration order. */
  datatype Field = TextField | SourceField | TargetField

  /** Why a field was rejected: a length bound, or a validator raising `ValueError`. */
  datatype Violation = TooShort | TooLong | Rejected(message: string)

  /** One entry of the list a failed request validation reports. */
  datatype FieldError = FieldError(field: Field, violation: Violation)

  /** The JSON body of `POST /translate` as it arrives. */
  datatype RequestBody = RequestBody(text: string, source: string, target: string)

  /** A `TranslationRequest` that passed validation: every field normalised. */
  datatype TranslationRequest = TranslationRequest(text: string, source: string, target: string)

  /** The `detail` of an error response: a message, or the list of field errors. */
  datatype Detail = Message(text: string) | FieldErrors(errors: seq<FieldError>)

  /** What the endpoint answers: a translation, or an HTTP error with its detail. */
  datatype Response = Translated(translatedText: string) | Failed(status: int, detail: Detail)

  /** The arguments the translation pipeline is built and called with. */
  datatype TranslatorCall = TranslatorCall(model: string, task: string, text: string)

  /**
   * What running the pipeline gives: the `translation_text` of its first
   * result, or the text of the exception raised while loading or running it.
   */
  datatype TranslatorOutcome = Produced(text: string) | Raised(message: string)

  /** `Lower` maps exactly the accepted spellings onto the two codes. */
  lemma LowerIsCode(t: string)
    ensures Lower(t) in LanguageCodes <==> t in CodeSpellings
  {
    var l := Lower(t);
    if l == "en" || l == "hi" {
      assert |t| == 2;
      assert LowerChar(t[0]) == l[0] && LowerChar(t[1]) == l[1];
      assert t == [t[0], t[1]];
    }
    if t in CodeSpellings {
      assert l == [LowerChar(t[0]), LowerChar(t[1])];
    }
  }

  /**
   * `TranslationRequest.validate_language_code`: strip and lower-case the code
   * and accept it only if that gives `en` or `hi`.
   */
  function ValidateLanguageCode(value: string): (r: Result<string, string>)
    ensures r.Ok? <==> Strip(Python, value) in CodeSpellings
    ensures r.Ok? ==> r.value in LanguageCodes && r.value == Lower(Strip(Python, value))
    ensures r.Err? ==> r.error == UnsupportedCodeMessage
  {
    var normalized := Lower(Strip(Python, value));
    LowerIsCode(Strip(Python, value));
    if normalized !in LanguageCodes then Err(UnsupportedCodeMessage) else Ok(normalized)
  }

  /** `en` and `hi` are their own lower-case form. */
  lemma LowerOfCode(code: string)
    requires code in LanguageCodes
    ensures Lower(code) == code
  {
    var l := Lower(code);
    assert l[0] == LowerChar(code[0]) && l[1] == LowerChar(code[1]);
    assert l == [l[0], l[1]];
  }

  /** `en` and `hi` pass code validation unchanged. */
  lemma CodesValidate(code: string)
    requires code in LanguageCodes
    ensures ValidateLanguageCode(code) == Ok(code)
  {
    assert IsStripped(Python, code);
    StripStripped(Python, code);
    LowerOfCode(code);
  }

  /** An accepted code validates to itself. */
  lemma ValidateLanguageCodeIdempotent(value: string)
    requires ValidateLanguageCode(value).Ok?
    ensures ValidateLanguageCode(ValidateLanguageCode(value).value) == ValidateLanguageCode(value)
  {
    CodesValidate(ValidateLanguageCode(value).value);
  }

  /** `TranslationRequest.validate_text`: strip the text and reject it if nothing is left. */
  function ValidateText(value: string): (r: Result<string, string>)
    ensures r.Ok? <==> !AllSpace(Python, value)
    ensures r.Ok? ==> r.value != [] && IsStripped(Python, r.value) && |r.value| <= |value|
    ensures r.Ok? ==> r.value == Strip(Python, value)
    ensures r.Err? ==> r.error == EmptyTextMessage
  {
    var trimmed := Strip(Python, value);
    if trimmed == [] then Err(EmptyTextMessage) else Ok(trimmed)
  }

  /** Accepted text validates to itself. */
  lemma ValidateTextIdempotent(value: string)
    requires ValidateText(value).Ok?
    ensures ValidateText(ValidateText(value).value) == ValidateText(value)
  {
    StripIdempotent(Python, value);
  }

  /**
   * The `text` field: first the `min_length`/`max_length` bounds on the raw
   * string, and only if they hold the `validate_text` validator.
   */
  function ValidateTextField(raw: string): (r: Result<string, Violation>)
    ensures |raw| < MinTextLength ==> r == Err(TooShort)
    ensures |raw| > MaxTextLength ==> r == Err(TooLong)
    ensures r.Ok? <==> MinTextLength <= |raw| <= MaxTextLength && !AllSpace(Python, raw)
    ensures r.Ok? ==> 1 <= |r.value| <= MaxTextLength && IsStripped(Python, r.value)
    ensures r.Ok? ==> r.value == Strip(Python, raw)
    ensures MinTextLength <= |raw| <= MaxTextLength && AllSpace(Python, raw) ==> r == Err(Rejected(EmptyTextMessage))
  {
    if |raw| < MinTextLength then Err(TooShort)
    else if |raw| > MaxTextLength then Err(TooLong)
    else match ValidateText(raw)
      case Ok(t) => Ok(t)
      case Err(m) => Err(Rejected(m))
  }

  /** The error a field contributes to the list: none when its value is accepted. */
  function ErrorsOf<T>(field: Field, r: Result<T, Violation>): (es: seq<FieldError>)
    ensures |es| <= 1
    ensures es == [] <==> r.Ok?
    ensures forall e :: e in es ==> e.field == field && r == Err(e.violation)
  {
    match r
    case Ok(_) => []
    case Err(v) => [FieldError(field, v)]
  }

  /** The fields named by a list of errors, in order. */
  function FieldsOf(errors: seq<FieldError>): seq<Field> {
    seq(|errors|, i requires 0 <= i < |errors| => errors[i].field)
  }

  /** The fields of `body` that fail their validation, in declaration order. */
  function FailingFields(body: RequestBody): seq<Field> {
    (if ValidateTextField(body.text).Ok? then [] else [TextField])
    + (if ValidateLanguageCode(body.source).Ok? then [] else [SourceField])
    + (if ValidateLanguageCode(body.target).Ok? then [] else [TargetField])
  }

  /** A language validator's error, as a field violation. */
  function AsViolation(r: Result<string, string>): Result<string, Violation> {
    match r
    case Ok(v) => Ok(v)
    case Err(m) => Err(Rejected(m))
  }

  /** What validating one field of `body` gives, with a language code's error as a violation. */
  function FieldResult(body: RequestBody, field: Field): Result<string, Violation> {
    match field
    case TextField => ValidateTextField(body.text)
    case SourceField => AsViolation(ValidateLanguageCode(body.source))
    case TargetField => AsViolation(ValidateLanguageCode(body.target))
  }

  /**
   * Building a `TranslationRequest` from the body: every field is validated,
   * and the errors of all failing fields are reported together, in field order,
   * each with the violation its field's validation gave.
   */
  function ValidateRequest(body: RequestBody): (r: Result<TranslationRequest, seq<FieldError>>)
    ensures r.Ok? <==>
      && ValidateTextField(body.text).Ok?
      && ValidateLanguageCode(body.source).Ok?
      && ValidateLanguageCode(body.target).Ok?
    ensures r.Ok? ==>
      && r.value.source in LanguageCodes
      && r.value.target in LanguageCodes
      && 1 <= |r.value.text| <= MaxTextLength
      && IsStripped(Python, r.value.text)
    ensures r.Ok? ==> r.value == TranslationRequest(ValidateTextField(body.text).value,
      ValidateLanguageCode(body.source).value, ValidateLanguageCode(body.target).value)
    ensures r.Err? ==> FieldsOf(r.error) == FailingFields(body)
    ensures r.Err? ==> forall e :: e in r.error ==> FieldResult(body, e.field) == Err(e.violation)
  {
    var text := ValidateTextField(body.text);
    var source := AsViolation(ValidateLanguageCode(body.source));
    var target := AsViolation(ValidateLanguageCode(body.target));
    var errors := ErrorsOf(TextField, text) + ErrorsOf(SourceField, source) + ErrorsOf(TargetField, target);
    ErrorsNameFailingFields(text, source, target);
    if errors == [] then Ok(TranslationRequest(text.value, source.value, target.value))
    else Err(errors)
  }

  /** The collected errors name exactly the failing fields, in order, each with its own violation. */
  lemma ErrorsNameFailingFields(text: Result<string, Violation>, source: Result<string, Violation>,
                                target: Result<string, Violation>)
    ensures var errors := ErrorsOf(TextField, text) + ErrorsOf(SourceField, source) + ErrorsOf(TargetField, target);
      && (errors == [] <==> text.Ok? && source.Ok? && target.Ok?)
      && FieldsOf(errors) ==
        (if text.Ok? then [] else [TextField])
        + (if source.Ok? then [] else [SourceField])
        + (if target.Ok? then [] else [TargetField])
      && forall e :: e in errors ==>
        && (e.field == TextField ==> text == Err(e.violation))
        && (e.field == SourceField ==> source == Err(e.violation))
        && (e.field == TargetField ==> target == Err(e.violation))
  {
    var a, b, c := ErrorsOf(TextField, text), ErrorsOf(SourceField, source), ErrorsOf(TargetField, target);
    assert FieldsOf(a + b + c) == FieldsOf(a) + FieldsOf(b) + FieldsOf(c);
  }

  /**
   * After validation both codes are `en` or `hi`, so two different codes
   * always name a pair with a model.
   */
  lemma ValidatedPairIsSupported(body: RequestBody)
    requires ValidateRequest(body).Ok?
    requires ValidateRequest(body).value.source != ValidateRequest(body).value.target
    ensures (ValidateRequest(body).value.source, ValidateRequest(body).value.target) in SupportedModels
  {
  }

  /**
   * The pipeline task name, `translation_{source}_to_{target}`: the prefix,
   * the source code, the separator and the target code, in that order.
   */
  function TaskName(source: string, target: string): (r: string)
    ensures |r| == 16 + |source| + |target|
    ensures r[..12] == "translation_" && r[12..12 + |source|] == source
    ensures r[12 + |source|..16 + |source|] == "_to_" && r[16 + |source|..] == target
  {
    "translation_" + source + "_to_" + target
  }

  /**
   * The call `get_translator` prepares for a supported pair: the pair's model
   * from `SUPPORTED_MODELS`, its task name, and the validated text.
   */
  function CallFor(req: TranslationRequest): (call: TranslatorCall)
    requires (req.source, req.target) in SupportedModels
    ensures call.model == SupportedModels[(req.source, req.target)]
    ensures call.task == TaskName(req.source, req.target)
    ensures call.text == req.text
  {
    TranslatorCall(SupportedModels[(req.source, req.target)], TaskName(req.source, req.target), req.text)
  }

  /**
   * The `translate` endpoint on a validated request: refuse equal or
   * unsupported language pairs, otherwise run the translator and answer with
   * its stripped output, or with a server error if it raised or produced
   * nothing but white space.
   */
  function Translate(req: TranslationRequest, translator: TranslatorCall -> TranslatorOutcome): (r: Response)
    ensures req.source == req.target ==> r == Failed(StatusBadRequest, Message(SameLanguageDetail))
    ensures req.source != req.target && (req.source, req.target) !in SupportedModels ==>
      r == Failed(StatusBadRequest, Message(UnsupportedPairDetail))
    ensures r.Translated? ==>
      && (req.source, req.target) in SupportedModels
      && translator(CallFor(req)).Produced?
      && r.translatedText == Strip(Python, translator(CallFor(req)).text)
    ensures r.Translated? ==> r.translatedText != [] && IsStripped(Python, r.translatedText)
    ensures r.Failed? ==> r.status == StatusBadRequest || r.status == StatusServerError
    ensures r.Failed? && r.status == StatusBadRequest ==>
      req.source == req.target || (req.source, req.target) !in SupportedModels
    ensures r.Failed? && r.status == StatusServerError ==>
      && req.source != req.target
      && (req.source, req.target) in SupportedModels
      && match translator(CallFor(req))
         case Raised(m) => r.detail == Message(TranslationErrorPrefix + m)
         case Produced(out) => AllSpace(Python, out) && r.detail == Message(EmptyTranslationDetail)
  {
    if req.source == req.target then
      Failed(StatusBadRequest, Message(SameLanguageDetail))
    else if (req.source, req.target) !in SupportedModels then
      Failed(StatusBadRequest, Message(UnsupportedPairDetail))
    else
      match translator(CallFor(req))
      case Raised(m) => Failed(StatusServerError, Message(TranslationErrorPrefix + m))
      case Produced(out) =>
        var translated := Strip(Python, out);
        if translated == [] then Failed(StatusServerError, Message(EmptyTranslationDetail))
        else Translated(translated)
  }

  /** On a supported pair, an exception from the model becomes a 500 with "Translation error: " and its text. */
  lemma TranslatorErrorIs500(req: TranslationRequest, translator: TranslatorCall -> TranslatorOutcome)
    requires req.source != req.target && (req.source, req.target) in SupportedModels
    requires translator(CallFor(req)).Raised?
    ensures Translate(req, translator)
      == Failed(StatusServerError, Message(TranslationErrorPrefix + translator(CallFor(req)).message))
  {
  }

  /** On a supported pair, a blank model output becomes a 500 "Model returned empty translation.". */
  lemma BlankTranslationIs500(req: TranslationRequest, translator: TranslatorCall -> TranslatorOutcome)
    requires req.source != req.target && (req.source, req.target) in SupportedModels
    requires translator(CallFor(req)).Produced? && AllSpace(Python, translator(CallFor(req)).text)
    ensures Translate(req, translator) == Failed(StatusServerError, Message(EmptyTranslationDetail))
  {
  }

  /** On a supported pair, a model output with some non-space text is answered with that text stripped. */
  lemma TranslationIsStrippedOutput(req: TranslationRequest, translator: TranslatorCall -> TranslatorOutcome)
    requires req.source != req.target && (req.source, req.target) in SupportedModels
    requires translator(CallFor(req)).Produced? && !AllSpace(Python, translator(CallFor(req)).text)
    ensures Translate(req, translator) == Translated(Strip(Python, translator(CallFor(req)).text))
  {
  }

  /** When the two codes are equal the translator is never consulted. */
  lemma SameLanguageNeverTranslates(req: TranslationRequest, t1: TranslatorCall -> TranslatorOutcome,
                                    t2: TranslatorCall -> TranslatorOutcome)
    requires req.source == req.target
    ensures Translate(req, t1) == Translate(req, t2)
    ensures Translate(req, t1) == Failed(StatusBadRequest, Message(SameLanguageDetail))
  {
  }

  /**
   * `POST /translate` end to end: a body that fails validation is answered
   * with 422 and the list of field errors; a valid one is answered with the
   * endpoint's decision on the validated request.
   */
  function Serve(body: RequestBody, translator: TranslatorCall -> TranslatorOutcome): (r: Response)
    ensures ValidateRequest(body).Ok? ==> r == Translate(ValidateRequest(body).value, translator)
    ensures ValidateRequest(body).Err? <==> r.Failed? && r.status == StatusUnprocessable
    ensures r.Failed? && r.status == StatusUnprocessable ==> r.detail == FieldErrors(ValidateRequest(body).error)
    ensures r.Translated? ==> 1 <= |r.translatedText| && IsStripped(Python, r.translatedText)
  {
    match ValidateRequest(body)
    case Err(errors) => Failed(StatusUnprocessable, FieldErrors(errors))
    case Ok(req) => Translate(req, translator)
  }

  /** The endpoint never answers "Unsupported translation pair": validation has already ruled it out. */
  lemma UnsupportedPairUnreachable(body: RequestBody, translator: TranslatorCall -> TranslatorOutcome)
    ensures Serve(body, translator) != Failed(StatusBadRequest, Message(UnsupportedPairDetail))
  {
    match ValidateRequest(body)
    case Err(_) =>
    case Ok(req) =>
      if req.source != req.target {
        ValidatedPairIsSupported(body);
      }
  }

  /** Codes that validate to two different values never get the "must be different languages" answer. */
  lemma DistinctCodesNeverSameLanguage(body: RequestBody, translator: TranslatorCall -> TranslatorOutcome)
    requires ValidateLanguageCode(body.source).Ok? && ValidateLanguageCode(body.target).Ok?
    requires ValidateLanguageCode(body.source).value != ValidateLanguageCode(body.target).value
    ensures Serve(body, translator) != Failed(StatusBadRequest, Message(SameLanguageDetail))
  {
    match ValidateRequest(body)
    case Err(_) =>
    case Ok(req) =>
      assert req.source != req.target;
      ValidatedPairIsSupported(body);
  }

  /**
   * A body whose codes are accepted but whose text is not is answered with
   * 422 and a single error, for the `text` field.
   */
  lemma RejectedTextServed(body: RequestBody, translator: TranslatorCall -> TranslatorOutcome)
    requires ValidateTextField(body.text).Err?
    requires ValidateLanguageCode(body.source).Ok? && ValidateLanguageCode(body.target).Ok?
    ensures Serve(body, translator)
      == Failed(StatusUnprocessable, FieldErrors([FieldError(TextField, ValidateTextField(body.text).error)]))
  {
    var text := ValidateTextField(body.text);
    assert ErrorsOf(TextField, text) == [FieldError(TextField, text.error)];
    assert ErrorsOf(SourceField, AsViolation(ValidateLanguageCode(body.source))) == [];
    assert ErrorsOf(TargetField, AsViolation(ValidateLanguageCode(body.target))) == [];
    var errors := [FieldError(TextField, text.error)];
    assert errors + [] + [] == errors;
  }
}
