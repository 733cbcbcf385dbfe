/** The parts of `DeepLTranslator` that do not touch the network or JSON. */
module DeepL {
  import opened Wrappers
  import opened Languages
  import opened Translator

  const FreeApiUrl: string := "https://api-free.deepl.com/v2/translate"
  const ProApiUrl: string := "https://api.deepl.com/v2/translate"

  /** The record's configuration; the HTTP client is not modelled. */
  datatype DeepLTranslator = DeepLTranslator(targetLanguage: Language, authKey: string, apiUrl: string)

  /** The convenience constructor: looks the target language up and picks the API by `isPro`. */
  function NewDeepLTranslator(targetLanguage: string, authKey: string, isPro: bool): (r: Option<DeepLTranslator>)
    ensures r.Some? <==> FromString(targetLanguage).Some?
    ensures r.Some? ==> r.value.targetLanguage == FromString(targetLanguage).value
    ensures r.Some? ==> r.value.authKey == authKey
    ensures r.Some? ==> (r.value.apiUrl == ProApiUrl <==> isPro)
    ensures r.Some? ==> (r.value.apiUrl == FreeApiUrl <==> !isPro)
  {
    match FromString(targetLanguage)
    case None => None
    case Some(lang) => Some(DeepLTranslator(lang, authKey, if isPro then ProApiUrl else FreeApiUrl))
  }

  /** The service's error categories. */
  datatype Error =
    | BadRequest
    | AuthorizationFailed
    | ResourceNotFound
    | RequestSizeExceedsLimit
    | RequestUrlTooLong
    | TooManyRequests
    | QuotaExceeded
    | ResourceUnavailable
    | InternalError

  /** The status codes the service documents for each category; InternalError has none of its own. */
  function Codes(e: Error): set<int> {
    match e
    case BadRequest => {400}
    case AuthorizationFailed => {403}
    case ResourceNotFound => {404}
    case RequestSizeExceedsLimit => {413}
    case RequestUrlTooLong => {414}
    case TooManyRequests => {429, 529}
    case QuotaExceeded => {456}
    case ResourceUnavailable => {503}
    case InternalError => {}
  }

  const DocumentedCodes: set<int> := {400, 403, 404, 413, 414, 429, 456, 503, 529}

  /** `Error.fromCode`. */
  function FromCode(code: int): (r: Error)
    ensures r == InternalError <==> code !in DocumentedCodes
    ensures r != InternalError ==> code in Codes(r)
  {
    if code == 400 then BadRequest
    else if code == 403 then AuthorizationFailed
    else if code == 404 then ResourceNotFound
    else if code == 413 then RequestSizeExceedsLimit
    else if code == 414 then RequestUrlTooLong
    else if code == 429 || code == 529 then TooManyRequests
    else if code == 456 then QuotaExceeded
    else if code == 503 then ResourceUnavailable
    else InternalError
  }

  /** The mapping is exactly the table: a code maps to `e` iff it is one of `e`'s codes. */
  lemma FromCodeInverse(code: int, e: Error)
    requires e != InternalError
    ensures FromCode(code) == e <==> code in Codes(e)
  {
  }

  /** How often `x` occurs in `s`. */
  function Count<T(==)>(s: seq<T>, x: T): (n: nat)
    ensures n <= |s|
    ensures n > 0 <==> x in s
  {
    if s == [] then 0 else (if s[0] == x then 1 else 0) + Count(s[1..], x)
  }

  /** The candidate occurring most often in `s`; of equally frequent ones the earliest. */
  function MostFrequentAmong<T(==)>(candidates: seq<T>, s: seq<T>): (r: T)
    requires |candidates| > 0
    ensures r in candidates
    ensures forall x :: x in candidates ==> Count(s, x) <= Count(s, r)
  {
    if |candidates| == 1 then candidates[0]
    else
      var best := MostFrequentAmong(candidates[1..], s);
      if Count(s, candidates[0]) >= Count(s, best) then candidates[0] else best
  }

  /** `getElementWithHighestOccurrence`: an element whose count is maximal (which one on ties is unspecified). */
  function ElementWithHighestOccurrence<T(==,!new)>(s: seq<T>): (r: T)
    requires |s| > 0
    ensures r in s
    ensures forall x :: Count(s, x) <= Count(s, r)
  {
    MostFrequentAmong(s, s)
  }

  /** A sequence of one repeated element has that element as its mode. */
  lemma ModeOfConstant<T(!new)>(s: seq<T>, x: T)
    requires |s| > 0
    requires forall i :: 0 <= i < |s| ==> s[i] == x
    ensures ElementWithHighestOccurrence(s) == x
  {
  }

  /** One entry of the service's reply. */
  datatype JsonTranslation = JsonTranslation(detectedSourceLanguage: string, text: string)

  /** The service's reply: one translation per text sent. */
  datatype JsonTranslations = JsonTranslations(translations: seq<JsonTranslation>)

  /** `fromLanguageAndTexts`: every text tagged with the language's tag. */
  function FromLanguageAndTexts(language: Language, texts: seq<string>): (r: JsonTranslations)
    ensures |r.translations| == |texts|
    ensures forall i :: 0 <= i < |texts| ==> r.translations[i] == JsonTranslation(Tag(language), texts[i])
  {
    JsonTranslations(seq(|texts|, i requires 0 <= i < |texts| => JsonTranslation(Tag(language), texts[i])))
  }

  /** Looks each detected language up in order; None if one is unknown (where Java throws). */
  function SourceLanguagesOf(ts: seq<JsonTranslation>): (r: Option<seq<Language>>)
    ensures r.Some? ==> |r.value| == |ts|
    ensures r.Some? ==> forall i :: 0 <= i < |ts| ==> FromString(ts[i].detectedSourceLanguage) == Some(r.value[i])
    ensures r.None? <==> exists i :: 0 <= i < |ts| && FromString(ts[i].detectedSourceLanguage).None?
  {
    if ts == [] then Some([])
    else match (FromString(ts[0].detectedSourceLanguage), SourceLanguagesOf(ts[1..]))
      case (Some(l), Some(rest)) =>
        assert forall i :: 1 <= i < |ts| ==> ts[i] == ts[1..][i - 1];
        Some([l] + rest)
      case (None, _) => None
      case (_, None) =>
        var j :| 0 <= j < |ts[1..]| && FromString(ts[1..][j].detectedSourceLanguage).None?;
        assert ts[j + 1] == ts[1..][j];
        None
  }

  /** `getSourceLanguages`. */
  function GetSourceLanguages(j: JsonTranslations): Option<seq<Language>> {
    SourceLanguagesOf(j.translations)
  }

  /** `getTranslatedTexts`: the texts, one per translation, in order. */
  function GetTranslatedTexts(j: JsonTranslations): (r: seq<string>)
    ensures |r| == |j.translations|
    ensures forall i :: 0 <= i < |r| ==> r[i] == j.translations[i].text
  {
    seq(|j.translations|, i requires 0 <= i < |j.translations| => j.translations[i].text)
  }

  /** `getDominantSourceLanguage`: None where Java throws (no translations, or an unknown language). */
  function GetDominantSourceLanguage(j: JsonTranslations): (r: Option<Language>)
    ensures r.Some? ==> GetSourceLanguages(j).Some? && r.value in GetSourceLanguages(j).value
    ensures r.Some? ==> forall l :: Count(GetSourceLanguages(j).value, l) <= Count(GetSourceLanguages(j).value, r.value)
    ensures r.None? <==> |j.translations| == 0 || GetSourceLanguages(j).None?
  {
    match GetSourceLanguages(j)
    case None => None
    case Some(languages) => if |languages| == 0 then None else Some(ElementWithHighestOccurrence(languages))
  }

  /**
   * A reply built from one language and some texts gives the texts back in
   * order, and (when there is at least one) that language as the dominant one.
   */
  lemma {:induction false} FromLanguageAndTextsRoundTrip(language: Language, texts: seq<string>)
    ensures GetTranslatedTexts(FromLanguageAndTexts(language, texts)) == texts
    ensures |texts| > 0 ==> GetDominantSourceLanguage(FromLanguageAndTexts(language, texts)) == Some(language)
  {
    var j := FromLanguageAndTexts(language, texts);
    if |texts| > 0 {
      SourceLanguagesOfOneTag(j.translations, language);
      var langs := GetSourceLanguages(j).value;
      ModeOfConstant(langs, language);
    }
  }

  /** Entries all tagged with one language's tag resolve to that language. */
  lemma {:induction false} SourceLanguagesOfOneTag(ts: seq<JsonTranslation>, language: Language)
    requires forall i :: 0 <= i < |ts| ==> ts[i].detectedSourceLanguage == Tag(language)
    ensures SourceLanguagesOf(ts).Some?
    ensures forall i :: 0 <= i < |ts| ==> SourceLanguagesOf(ts).value[i] == language
  {
    if ts != [] {
      SourceLanguagesOfOneTag(ts[1..], language);
      RoundTrips(language);
    }
  }

  /** What the HTTP exchange produced: an I/O failure, or a status code and a body that parses or not. */
  datatype HttpOutcome =
    | TransportFailure
    | Responded(code: int, body: Option<JsonTranslations>)

  /** `Response.isSuccessful`. */
  predicate IsSuccessful(code: int) {
    200 <= code < 300
  }

  /**
   * How `translate` fails. Only the first two are the declared
   * `TranslationException`; the others are unchecked exceptions that the
   * method lets escape: Gson's `JsonSyntaxException` for a body that does
   * not parse, `IllegalArgumentException` from `Language.fromString` for an
   * unknown detected language, and `NoSuchElementException` from
   * `max(...).get()` for a reply with no translations.
   */
  datatype TranslationFailure =
    | ServiceError(error: Error)
    | TransportError
    | MalformedReply
    | UnknownSourceLanguage
    | NoTranslations

  /** The failures `translate` declares, as `TranslationException`. */
  predicate IsTranslationException(f: TranslationFailure) {
    f.ServiceError? || f.TransportError?
  }

  /**
   * `translate`: an empty input short-circuits without a request; otherwise
   * `exchange` stands for building, sending and reading the request.
   */
  function Translate(t: DeepLTranslator, texts: seq<string>, exchange: seq<string> -> HttpOutcome)
    : (r: Result<TranslationResult, TranslationFailure>)
    ensures r.Success? ==> r.value.targetLanguage == t.targetLanguage
  {
    if |texts| == 0 then Success(TranslationResult(t.targetLanguage, t.targetLanguage, []))
    else match exchange(texts)
      case TransportFailure => Failure(TransportError)
      case Responded(code, body) =>
        if !IsSuccessful(code) then Failure(ServiceError(FromCode(code)))
        else if body.None? then Failure(MalformedReply)
        else match GetDominantSourceLanguage(body.value)
          case None => Failure(if GetSourceLanguages(body.value).None? then UnknownSourceLanguage else NoTranslations)
          case Some(source) => Success(TranslationResult(source, t.targetLanguage, GetTranslatedTexts(body.value)))
  }

  /** An empty input yields (target, target, []) whatever the network would have answered. */
  lemma EmptyShortCircuit(t: DeepLTranslator, exchange1: seq<string> -> HttpOutcome, exchange2: seq<string> -> HttpOutcome)
    ensures Translate(t, [], exchange1) == Translate(t, [], exchange2)
    ensures Translate(t, [], exchange1) == Success(TranslationResult(t.targetLanguage, t.targetLanguage, []))
  {
  }

  /**
   * A successful reply to a non-empty request is passed on: one text per
   * translation in order, the dominant detected language as the source; an
   * unsuccessful status becomes the error its code maps to.
   */
  lemma TranslateReply(t: DeepLTranslator, texts: seq<string>, exchange: seq<string> -> HttpOutcome)
    requires |texts| > 0
    ensures exchange(texts).Responded? && !IsSuccessful(exchange(texts).code)
            ==> Translate(t, texts, exchange) == Failure(ServiceError(FromCode(exchange(texts).code)))
    ensures Translate(t, texts, exchange).Success?
            ==> && exchange(texts).Responded?
                && exchange(texts).body.Some?
                && Translate(t, texts, exchange).value.translatedTexts == GetTranslatedTexts(exchange(texts).body.value)
                && Some(Translate(t, texts, exchange).value.sourceLanguage) == GetDominantSourceLanguage(exchange(texts).body.value)
  {
  }

  /**
   * A 2xx reply that cannot be used ends in one of the unchecked exceptions,
   * never in a `TranslationException`: a body that does not parse, then a
   * detected language that does not parse (every entry is parsed before the
   * maximum is taken), then an empty list of translations. The declared
   * exception arises exactly from the transport and from a non-2xx status.
   */
  lemma UndeclaredFailures(t: DeepLTranslator, texts: seq<string>, exchange: seq<string> -> HttpOutcome)
    requires |texts| > 0
    ensures var r := Translate(t, texts, exchange);
            r.Failure? ==> (IsTranslationException(r.error) <==> exchange(texts).TransportFailure? || !IsSuccessful(exchange(texts).code))
    ensures exchange(texts).Responded? && IsSuccessful(exchange(texts).code) ==>
              var body := exchange(texts).body;
              && (body.None? ==> Translate(t, texts, exchange) == Failure(MalformedReply))
              && (body.Some? && GetSourceLanguages(body.value).None? ==> Translate(t, texts, exchange) == Failure(UnknownSourceLanguage))
              && (body.Some? && GetSourceLanguages(body.value).Some? && |body.value.translations| == 0 ==>
                    Translate(t, texts, exchange) == Failure(NoTranslations))
  {
  }

  /** A reply echoing the texts in one language translates to exactly those texts from that language. */
  lemma EchoReply(t: DeepLTranslator, texts: seq<string>, language: Language, exchange: seq<string> -> HttpOutcome)
    requires |texts| > 0
    requires exchange(texts) == Responded(200, Some(FromLanguageAndTexts(language, texts)))
    ensures Translate(t, texts, exchange) == Success(TranslationResult(language, t.targetLanguage, texts))
  {
    FromLanguageAndTextsRoundTrip(language, texts);
  }
}
