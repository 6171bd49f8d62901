/**
 * The backend capability every translation provider offers
 * (src/lib/translationService.js, class TranslationProvider and its subclasses).
 * The Google and OneMeta providers are `fetch` calls to remote APIs; they are
 * represented by a `Network` value that says, for each request, whether the
 * remote call succeeds and with what payload.
 */
module Providers {
  import opened JsText

  /** What a provider's `translate` resolves to, before the service stamps it. */
  datatype RawTranslation = RawTranslation(translatedText: string, confidence: real, detectedSourceLanguage: Option<string>)

  /** What a provider's `detectLanguage` resolves to, before the service stamps it. */
  datatype RawDetection = RawDetection(language: string, confidence: real)

  /** The three provider classes the service can register. */
  datatype Backend = MockBackend | GoogleBackend | OneMetaBackend

  /**
   * The outcome of every remote request: `translate(backend, text, sourceLang, targetLang)`
   * and `detect(backend, text)`, each either a payload or the error the provider throws.
   */
  datatype Network = Network(
    translate: (Backend, string, string, string) -> Result<RawTranslation>,
    detect: (Backend, string) -> Result<RawDetection>)
}
