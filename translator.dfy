/** The `Translator` interface: its result record and the shape of a translator. */
module Translator {
  import opened Wrappers
  import opened Languages

  /** `Translator.Result`. */
  datatype TranslationResult = TranslationResult(
    sourceLanguage: Language,
    targetLanguage: Language,
    translatedTexts: seq<string>)

  /**
   * A translator as the crawler sees it: the texts go in, a result or the
   * message of the exception it threw comes out.
   */
  type TranslatorOracle = seq<string> -> Result<TranslationResult, string>
}
