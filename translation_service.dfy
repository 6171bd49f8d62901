/**
 * TranslationService (src/lib/translationService.js:260-400): a provider
 * registry, a default provider, and a bounded FIFO cache of translations.
 *
 * `translate` and `detectLanguage` are `async` in the source; each call is
 * modelled as one atomic step. The remote providers' answers come from a
 * `Network` value, and the two `Date.now()` readings around a backend call are
 * given as the measured duration `elapsed` (and `retryElapsed` for the call
 * made by the fallback to the mock provider).
 */
module TranslationService {
  import opened JsText
  import opened Providers
  import opened TranslationCache
  import MockProvider

  const MockName: string := "mock"
  const GoogleName: string := "google"
  const OneMetaName: string := "onemeta"

  /** The object `translate` resolves to; fields the source leaves out are `None`. */
  datatype TranslationResult = TranslationResult(
    translatedText: string,
    confidence: real,
    detectedSourceLanguage: Option<string>,
    provider: Option<string>,
    processingTime: Option<int>,
    cached: Option<bool>)

  /** The object `detectLanguage` resolves to. */
  datatype DetectionResult = DetectionResult(language: string, confidence: real, provider: Option<string>)

  /** `{ translatedText: text, confidence: 1.0 }` */
  function Identity(text: string): TranslationResult {
    TranslationResult(text, 1.0, None, None, None, None)
  }

  /** `{ ...result, provider, processingTime, cached: false }` */
  function Fresh(raw: RawTranslation, provider: string, processingTime: int): TranslationResult {
    TranslationResult(raw.translatedText, raw.confidence, raw.detectedSourceLanguage,
                      Some(provider), Some(processingTime), Some(false))
  }

  /** `{ ...value, cached: true }`: the copy `addToCache` stores. */
  function Stamped(value: TranslationResult): TranslationResult {
    value.(cached := Some(true))
  }

  /** `providerName || this.defaultProvider`: a missing or empty name selects the default. */
  function ResolveProvider(providerName: Option<string>, defaultProvider: string): string {
    if providerName.Some? && providerName.value != "" then providerName.value else defaultProvider
  }

  /** `getCacheKey(text, sourceLang, targetLang, provider)` */
  function GetCacheKey(text: string, sourceLang: string, targetLang: string, provider: string): string {
    provider + ":" + sourceLang + "-" + targetLang + ":" + text
  }

  function NotAvailable(provider: string): string {
    "Translation provider '" + provider + "' not available"
  }

  /** `translationProvider.translate(text, sourceLang, targetLang)`, dispatched on the provider class. */
  function CallTranslate(backend: Backend, net: Network, text: string, sourceLang: string, targetLang: string): Result<RawTranslation> {
    match backend
    case MockBackend => Ok(MockProvider.MockTranslate(text, sourceLang, targetLang))
    case _ => net.translate(backend, text, sourceLang, targetLang)
  }

  /** `translationProvider.detectLanguage(text)`, dispatched on the provider class. */
  function CallDetect(backend: Backend, net: Network, text: string): Result<RawDetection> {
    match backend
    case MockBackend => Ok(MockProvider.MockDetectLanguage(text))
    case _ => net.detect(backend, text)
  }

  /** `'mock'` is registered, as the mock provider: what `initializeProviders` always does first. */
  predicate MockRegistered(providers: map<string, Backend>) {
    MockName in providers && providers[MockName] == MockBackend
  }

  /** Every cached value carries `cached: true`. */
  ghost predicate AllStamped(c: OrderedMap<TranslationResult>) {
    forall k | k in c.entries :: c.entries[k].cached == Some(true)
  }

  /** The cache invariant the service keeps. */
  ghost predicate GoodCache(c: OrderedMap<TranslationResult>) {
    WellFormed(c) && |c.order| <= MaxCacheSize && AllStamped(c)
  }

  /** The result of one `translate` call, the cache after it, and the providers whose backends it invoked. */
  datatype Outcome = Outcome(result: Result<TranslationResult>, cache: OrderedMap<TranslationResult>, calls: seq<string>)

  /**
   * `translate(text, sourceLang, targetLang, providerName)` as a function of the
   * registry, the default provider and the cache before the call.
   */
  function TranslateSpec(providers: map<string, Backend>, defaultProvider: string, cache: OrderedMap<TranslationResult>,
                         text: string, sourceLang: string, targetLang: string, providerName: Option<string>,
                         net: Network, elapsed: nat, retryElapsed: nat): Outcome
    decreases if ResolveProvider(providerName, defaultProvider) == MockName then 0 else 1
  {
    if IsBlank(text) || sourceLang == targetLang then Outcome(Ok(Identity(text)), cache, [])
    else
      var provider := ResolveProvider(providerName, defaultProvider);
      var key := GetCacheKey(text, sourceLang, targetLang, provider);
      if key in cache.entries then Outcome(Ok(cache.entries[key]), cache, [])
      else
        var attempt := if provider in providers then CallTranslate(providers[provider], net, text, sourceLang, targetLang)
                       else Err(NotAvailable(provider));
        var calls := if provider in providers then [provider] else [];
        match attempt
        case Ok(raw) =>
          var result := Fresh(raw, provider, elapsed);
          Outcome(Ok(result), Insert(cache, key, Stamped(result), MaxCacheSize), calls)
        case Err(message) =>
          if provider != MockName then
            var retry := TranslateSpec(providers, defaultProvider, cache, text, sourceLang, targetLang, Some(MockName),
                                       net, retryElapsed, retryElapsed);
            Outcome(retry.result, retry.cache, calls + retry.calls)
          else
            Outcome(Err(message), cache, calls)
  }

  /** Registering the providers `initializeProviders` finds keys for, in its order. */
  function Registered(providers: OrderedMap<Backend>, googleApiKey: bool, oneMetaApiKey: bool): OrderedMap<Backend> {
    var withMock := Set(providers, MockName, MockBackend);
    var withGoogle := if googleApiKey then Set(withMock, GoogleName, GoogleBackend) else withMock;
    if oneMetaApiKey then Set(withGoogle, OneMetaName, OneMetaBackend) else withGoogle
  }

  lemma RegisteredHasMock(c: OrderedMap<Backend>, googleApiKey: bool, oneMetaApiKey: bool)
    requires WellFormed(c)
    ensures MockRegistered(Registered(c, googleApiKey, oneMetaApiKey).entries)
    ensures Registered(c, googleApiKey, oneMetaApiKey).entries.Keys ==
              c.entries.Keys + {MockName} + (if googleApiKey then {GoogleName} else {})
                                          + (if oneMetaApiKey then {OneMetaName} else {})
  {
  }

  /** What a new service registers: mock, then google and onemeta when their keys are present. */
  lemma RegisteredFromEmpty(googleApiKey: bool, oneMetaApiKey: bool)
    ensures var r := Registered(OrderedMap(map[], []), googleApiKey, oneMetaApiKey);
            && r.order == [MockName] + (if googleApiKey then [GoogleName] else []) + (if oneMetaApiKey then [OneMetaName] else [])
            && r.entries.Keys == {MockName} + (if googleApiKey then {GoogleName} else {}) + (if oneMetaApiKey then {OneMetaName} else {})
  {
  }

  /** The default `initializeProviders` leaves: OneMeta over Google over the previous one. */
  function PreferredDefault(previous: string, googleApiKey: bool, oneMetaApiKey: bool): string {
    if oneMetaApiKey then OneMetaName else if googleApiKey then GoogleName else previous
  }

  class TranslationService {
    /** `this.providers`, a `Map`: its entries and its keys in insertion order. */
    var providers: map<string, Backend>
    var providerOrder: seq<string>
    var defaultProvider: string
    /** `this.cache`, a `Map`: its entries and its keys in insertion order. */
    var cache: map<string, TranslationResult>
    var order: seq<string>

    ghost predicate Valid()
      reads this
    {
      && MockRegistered(providers)
      && defaultProvider in providers
      && WellFormed(OrderedMap(providers, providerOrder))
      && GoodCache(OrderedMap(cache, order))
    }

    function CacheState(): OrderedMap<TranslationResult>
      reads this
    {
      OrderedMap(cache, order)
    }

    /**
     * `new TranslationService()`; the two flags say whether
     * VITE_GOOGLE_TRANSLATE_API_KEY and VITE_ONEMETA_API_KEY are set to non-empty values.
     */
    constructor (googleApiKey: bool, oneMetaApiKey: bool)
      ensures Valid()
      ensures providers.Keys == {MockName} + (if googleApiKey then {GoogleName} else {})
                                           + (if oneMetaApiKey then {OneMetaName} else {})
      ensures providerOrder == [MockName] + (if googleApiKey then [GoogleName] else [])
                                          + (if oneMetaApiKey then [OneMetaName] else [])
      ensures defaultProvider == PreferredDefault(MockName, googleApiKey, oneMetaApiKey)
      ensures cache == map[] && order == []
    {
      providers, providerOrder := map[], [];
      defaultProvider := MockName;
      cache, order := map[], [];
      new;
      InitializeProviders(googleApiKey, oneMetaApiKey);
      RegisteredFromEmpty(googleApiKey, oneMetaApiKey);
    }

    /** `initializeProviders()` */
    method InitializeProviders(googleApiKey: bool, oneMetaApiKey: bool)
      requires WellFormed(OrderedMap(providers, providerOrder))
      requires defaultProvider in providers || defaultProvider == MockName
      modifies this`providers, this`providerOrder, this`defaultProvider
      ensures OrderedMap(providers, providerOrder) == Registered(old(OrderedMap(providers, providerOrder)), googleApiKey, oneMetaApiKey)
      ensures defaultProvider == PreferredDefault(old(defaultProvider), googleApiKey, oneMetaApiKey)
      ensures WellFormed(OrderedMap(providers, providerOrder)) && MockRegistered(providers) && defaultProvider in providers
    {
      ghost var start := OrderedMap(providers, providerOrder);
      RegisterProvider(MockName, MockBackend);
      if googleApiKey {
        RegisterProvider(GoogleName, GoogleBackend);
        defaultProvider := GoogleName;
      }
      if oneMetaApiKey {
        RegisterProvider(OneMetaName, OneMetaBackend);
        defaultProvider := OneMetaName;
      }
      RegisteredHasMock(start, googleApiKey, oneMetaApiKey);
    }

    /** `this.providers.set(name, backend)` */
    method RegisterProvider(name: string, backend: Backend)
      requires WellFormed(OrderedMap(providers, providerOrder))
      modifies this`providers, this`providerOrder
      ensures OrderedMap(providers, providerOrder) == Set(old(OrderedMap(providers, providerOrder)), name, backend)
      ensures WellFormed(OrderedMap(providers, providerOrder))
    {
      if name in providers {
        providers := providers[name := backend];
      } else {
        providers := providers[name := backend];
        providerOrder := providerOrder + [name];
      }
      SetWellFormed(old(OrderedMap(providers, providerOrder)), name, backend);
    }

    /** `addToCache(key, value)` */
    method AddToCache(key: string, value: TranslationResult)
      requires Valid()
      modifies this`cache, this`order
      ensures Valid()
      ensures CacheState() == Insert(old(CacheState()), key, Stamped(value), MaxCacheSize)
    {
      EntriesMatchOrder(CacheState());
      if |cache| >= MaxCacheSize {
        var firstKey := order[0];
        cache := cache - {firstKey};
        order := order[1..];
      }
      if key in cache {
        cache := cache[key := Stamped(value)];
      } else {
        cache := cache[key := Stamped(value)];
        order := order + [key];
      }
      InsertKeepsGoodCache(old(CacheState()), key, Stamped(value));
    }

    /** `clearCache()` */
    method ClearCache()
      requires Valid()
      modifies this`cache, this`order
      ensures Valid()
      ensures CacheState() == Empty()
    {
      cache, order := map[], [];
    }

    /** `getAvailableProviders()`: the registered names, in registration order. */
    function GetAvailableProviders(): (r: seq<string>)
      reads this
      requires Valid()
      ensures MockName in r
      ensures forall p :: p in r <==> p in providers
      ensures forall i, j | 0 <= i < j < |r| :: r[i] != r[j]
    {
      providerOrder
    }

    /** `setDefaultProvider(providerName)`: an unregistered name throws and changes nothing. */
    method SetDefaultProvider(providerName: string) returns (r: Result<()>)
      requires Valid()
      modifies this`defaultProvider
      ensures Valid()
      ensures r.Ok? <==> providerName in providers
      ensures r.Ok? ==> defaultProvider == providerName
      ensures r.Err? ==> defaultProvider == old(defaultProvider) && r.message == "Provider '" + providerName + "' not available"
    {
      if providerName in providers {
        defaultProvider := providerName;
        r := Ok(());
      } else {
        r := Err("Provider '" + providerName + "' not available");
      }
    }

    /** `translate(text, sourceLang, targetLang, providerName)` */
    method Translate(text: string, sourceLang: string, targetLang: string, providerName: Option<string>,
                     net: Network, elapsed: nat, retryElapsed: nat)
      returns (r: Result<TranslationResult>, ghost calls: seq<string>)
      requires Valid()
      modifies this`cache, this`order
      ensures Valid()
      ensures var o := TranslateSpec(providers, defaultProvider, old(CacheState()), text, sourceLang, targetLang,
                                     providerName, net, elapsed, retryElapsed);
              r == o.result && CacheState() == o.cache && calls == o.calls
      decreases if ResolveProvider(providerName, defaultProvider) == MockName then 0 else 1
    {
      if IsBlank(text) {
        return Ok(Identity(text)), [];
      }
      if sourceLang == targetLang {
        return Ok(Identity(text)), [];
      }
      var provider := ResolveProvider(providerName, defaultProvider);
      var cacheKey := GetCacheKey(text, sourceLang, targetLang, provider);
      if cacheKey in cache {
        return Ok(cache[cacheKey]), [];
      }
      var attempt: Result<RawTranslation>;
      if provider in providers {
        attempt := CallTranslate(providers[provider], net, text, sourceLang, targetLang);
        calls := [provider];
      } else {
        attempt := Err(NotAvailable(provider));
        calls := [];
      }
      match attempt {
        case Ok(raw) =>
          var result := Fresh(raw, provider, elapsed);
          AddToCache(cacheKey, result);
          r := Ok(result);
        case Err(message) =>
          if provider != MockName {
            ghost var retryCalls;
            r, retryCalls := Translate(text, sourceLang, targetLang, Some(MockName), net, retryElapsed, retryElapsed);
            calls := calls + retryCalls;
          } else {
            r := Err(message);
          }
      }
    }

    /** `detectLanguage(text, providerName)`: never reads or writes the cache. */
    function DetectLanguage(text: string, providerName: Option<string>, net: Network): Result<DetectionResult>
      reads this
      decreases if ResolveProvider(providerName, defaultProvider) == MockName then 0 else 1
    {
      if IsBlank(text) then Ok(DetectionResult("en", 0.5, None))
      else
        var provider := ResolveProvider(providerName, defaultProvider);
        var attempt := if provider in providers then CallDetect(providers[provider], net, text)
                       else Err(NotAvailable(provider));
        match attempt
        case Ok(raw) => Ok(DetectionResult(raw.language, raw.confidence, Some(provider)))
        case Err(message) =>
          if provider != MockName then DetectLanguage(text, Some(MockName), net) else Err(message)
    }
  }

  lemma InsertKeepsGoodCache(c: OrderedMap<TranslationResult>, key: string, value: TranslationResult)
    requires GoodCache(c) && value.cached == Some(true)
    ensures GoodCache(Insert(c, key, value, MaxCacheSize))
  {
    InsertWellFormed(c, key, value, MaxCacheSize);
    EvictOldestWellFormed(c);
  }
}
