/**
 * What `translate`, `detectLanguage` and `getCacheKey` promise
 * (src/lib/translationService.js:290-386), proved about the specification
 * functions the TranslationService class is verified against.
 */
module TranslationProperties {
  import opened JsText
  import opened Providers
  import opened TranslationCache
  import opened TranslationService
  import MockProvider
  import LanguageRegistry

  // ---------------------------------------------------------------------------
  // Cache keys: `${provider}:${sourceLang}-${targetLang}:${text}`
  // ---------------------------------------------------------------------------

  datatype KeyParts = KeyParts(provider: string, sourceLang: string, targetLang: string, text: string)

  /** Read a cache key back: provider up to the first ':', source language up to the next '-', target language up to the next ':'. */
  function ParseCacheKey(key: string): Option<KeyParts> {
    match SplitFirst(key, ':')
    case None => None
    case Some(a) =>
      match SplitFirst(a.1, '-')
      case None => None
      case Some(b) =>
        match SplitFirst(b.1, ':')
        case None => None
        case Some(c) => Some(KeyParts(a.0, b.0, c.0, c.1))
  }

  /** The parts of a key come back out whenever the provider and target contain no ':' and the source no '-'. */
  lemma CacheKeyRoundTrip(text: string, sourceLang: string, targetLang: string, provider: string)
    requires ':' !in provider && '-' !in sourceLang && ':' !in targetLang
    ensures ParseCacheKey(GetCacheKey(text, sourceLang, targetLang, provider)) ==
              Some(KeyParts(provider, sourceLang, targetLang, text))
  {
    var rest2 := targetLang + ":" + text;
    var rest1 := sourceLang + "-" + rest2;
    assert GetCacheKey(text, sourceLang, targetLang, provider) == provider + [':'] + rest1;
    SplitFirstOfJoin(provider, ':', rest1);
    assert rest1 == sourceLang + ['-'] + rest2;
    SplitFirstOfJoin(sourceLang, '-', rest2);
    assert rest2 == targetLang + [':'] + text;
    SplitFirstOfJoin(targetLang, ':', text);
  }

  /** Hence distinct requests under such names never share a cache entry. */
  lemma CacheKeyInjective(t1: string, s1: string, g1: string, p1: string, t2: string, s2: string, g2: string, p2: string)
    requires ':' !in p1 && '-' !in s1 && ':' !in g1
    requires ':' !in p2 && '-' !in s2 && ':' !in g2
    requires GetCacheKey(t1, s1, g1, p1) == GetCacheKey(t2, s2, g2, p2)
    ensures t1 == t2 && s1 == s2 && g1 == g2 && p1 == p2
  {
    CacheKeyRoundTrip(t1, s1, g1, p1);
    CacheKeyRoundTrip(t2, s2, g2, p2);
  }

  /** Requests between languages of the table through the three built-in providers never share a cache entry. */
  lemma RegisteredRequestsNeverCollide(t1: string, s1: string, g1: string, p1: string,
                                       t2: string, s2: string, g2: string, p2: string)
    requires LanguageRegistry.GetLanguageByCode(s1).Some? && LanguageRegistry.GetLanguageByCode(g1).Some?
    requires LanguageRegistry.GetLanguageByCode(s2).Some? && LanguageRegistry.GetLanguageByCode(g2).Some?
    requires p1 in [MockName, GoogleName, OneMetaName] && p2 in [MockName, GoogleName, OneMetaName]
    requires GetCacheKey(t1, s1, g1, p1) == GetCacheKey(t2, s2, g2, p2)
    ensures t1 == t2 && s1 == s2 && g1 == g2 && p1 == p2
  {
    LanguageRegistry.RegisteredCodesArePlain(s1);
    LanguageRegistry.RegisteredCodesArePlain(g1);
    LanguageRegistry.RegisteredCodesArePlain(s2);
    LanguageRegistry.RegisteredCodesArePlain(g2);
    PlainRequestsNeverCollide(t1, s1, g1, p1, t2, s2, g2, p2);
  }

  lemma PlainRequestsNeverCollide(t1: string, s1: string, g1: string, p1: string,
                                  t2: string, s2: string, g2: string, p2: string)
    requires LanguageRegistry.IsPlainCode(s1) && LanguageRegistry.IsPlainCode(g1)
    requires LanguageRegistry.IsPlainCode(s2) && LanguageRegistry.IsPlainCode(g2)
    requires p1 in [MockName, GoogleName, OneMetaName] && p2 in [MockName, GoogleName, OneMetaName]
    requires GetCacheKey(t1, s1, g1, p1) == GetCacheKey(t2, s2, g2, p2)
    ensures t1 == t2 && s1 == s2 && g1 == g2 && p1 == p2
  {
    LanguageRegistry.PlainCodeHasNoSeparators(s1);
    LanguageRegistry.PlainCodeHasNoSeparators(g1);
    LanguageRegistry.PlainCodeHasNoSeparators(s2);
    LanguageRegistry.PlainCodeHasNoSeparators(g2);
    assert ':' !in p1 && ':' !in p2;
    CacheKeyInjective(t1, s1, g1, p1, t2, s2, g2, p2);
  }

  /** Without that condition two different requests share a key: "zh-CN"→"en" and "zh"→"CN-en". */
  lemma CacheKeyCollision(text: string, provider: string)
    ensures GetCacheKey(text, "zh-CN", "en", provider) == GetCacheKey(text, "zh", "CN-en", provider)
  {
    assert provider + ":" + "zh-CN" + "-" + "en" + ":" + text == provider + ":zh-CN-en:" + text;
    assert provider + ":" + "zh" + "-" + "CN-en" + ":" + text == provider + ":zh-CN-en:" + text;
  }

  /** The same request under two providers uses two cache entries. */
  lemma ProviderKeysDiffer(text: string, sourceLang: string, targetLang: string, p: string, q: string)
    requires p != q
    ensures GetCacheKey(text, sourceLang, targetLang, p) != GetCacheKey(text, sourceLang, targetLang, q)
  {
    var tail := ":" + sourceLang + "-" + targetLang + ":" + text;
    assert GetCacheKey(text, sourceLang, targetLang, p) == p + tail;
    assert GetCacheKey(text, sourceLang, targetLang, q) == q + tail;
    if |p| == |q| {
      assert (p + tail)[..|p|] == p;
      assert (q + tail)[..|q|] == q;
    } else {
      assert |p + tail| != |q + tail|;
    }
  }

  // ---------------------------------------------------------------------------
  // translate
  // ---------------------------------------------------------------------------

  /** Blank text and a same-language request come back unchanged, with confidence 1, no backend call and no cache write. */
  lemma TrivialRequestPassesThrough(providers: map<string, Backend>, defaultProvider: string, cache: OrderedMap<TranslationResult>,
                                    text: string, sourceLang: string, targetLang: string, providerName: Option<string>,
                                    net: Network, elapsed: nat, retryElapsed: nat)
    requires IsBlank(text) || sourceLang == targetLang
    ensures var o := TranslateSpec(providers, defaultProvider, cache, text, sourceLang, targetLang, providerName, net, elapsed, retryElapsed);
            o.result == Ok(TranslationResult(text, 1.0, None, None, None, None)) && o.cache == cache && o.calls == []
  {
  }

  /** The mock provider never fails, so `translate` never rejects while 'mock' is registered. */
  lemma TranslateNeverFails(providers: map<string, Backend>, defaultProvider: string, cache: OrderedMap<TranslationResult>,
                            text: string, sourceLang: string, targetLang: string, providerName: Option<string>,
                            net: Network, elapsed: nat, retryElapsed: nat)
    requires MockRegistered(providers)
    ensures TranslateSpec(providers, defaultProvider, cache, text, sourceLang, targetLang, providerName, net, elapsed, retryElapsed).result.Ok?
    decreases if ResolveProvider(providerName, defaultProvider) == MockName then 0 else 1
  {
    var provider := ResolveProvider(providerName, defaultProvider);
    if provider != MockName {
      TranslateNeverFails(providers, defaultProvider, cache, text, sourceLang, targetLang, Some(MockName), net, retryElapsed, retryElapsed);
    }
  }

  /**
   * A fresh answer: on a cache miss with a working provider, the result is the
   * provider's answer tagged with provider, time and `cached: false`, and the
   * cache gains the stamped copy under the request's key.
   */
  lemma FreshAnswerIsCached(providers: map<string, Backend>, defaultProvider: string, cache: OrderedMap<TranslationResult>,
                            text: string, sourceLang: string, targetLang: string, providerName: Option<string>,
                            net: Network, elapsed: nat, retryElapsed: nat)
    requires WellFormed(cache)
    requires !IsBlank(text) && sourceLang != targetLang
    requires var p := ResolveProvider(providerName, defaultProvider);
             GetCacheKey(text, sourceLang, targetLang, p) !in cache.entries &&
             p in providers && CallTranslate(providers[p], net, text, sourceLang, targetLang).Ok?
    ensures var p := ResolveProvider(providerName, defaultProvider);
            var raw := CallTranslate(providers[p], net, text, sourceLang, targetLang).value;
            var o := TranslateSpec(providers, defaultProvider, cache, text, sourceLang, targetLang, providerName, net, elapsed, retryElapsed);
            && o.result == Ok(TranslationResult(raw.translatedText, raw.confidence, raw.detectedSourceLanguage, Some(p), Some(elapsed), Some(false)))
            && Get(o.cache, GetCacheKey(text, sourceLang, targetLang, p)) == Some(o.result.value.(cached := Some(true)))
            && o.calls == [p]
  {
    var p := ResolveProvider(providerName, defaultProvider);
    var raw := CallTranslate(providers[p], net, text, sourceLang, targetLang).value;
    InsertEffect(cache, GetCacheKey(text, sourceLang, targetLang, p), Stamped(Fresh(raw, p, elapsed)), MaxCacheSize, "");
  }

  /**
   * Fallback: when the chosen provider is not 'mock' and is unregistered or
   * fails, the answer is the mock provider's (from the cache if the mock key is
   * there), and the only other backend called is the failing one.
   */
  lemma FailedProviderFallsBackToMock(providers: map<string, Backend>, defaultProvider: string, cache: OrderedMap<TranslationResult>,
                                      text: string, sourceLang: string, targetLang: string, providerName: Option<string>,
                                      net: Network, elapsed: nat, retryElapsed: nat)
    requires MockRegistered(providers)
    requires !IsBlank(text) && sourceLang != targetLang
    requires var p := ResolveProvider(providerName, defaultProvider);
             p != MockName && GetCacheKey(text, sourceLang, targetLang, p) !in cache.entries &&
             (p !in providers || CallTranslate(providers[p], net, text, sourceLang, targetLang).Err?)
    ensures var p := ResolveProvider(providerName, defaultProvider);
            var mockKey := GetCacheKey(text, sourceLang, targetLang, MockName);
            var o := TranslateSpec(providers, defaultProvider, cache, text, sourceLang, targetLang, providerName, net, elapsed, retryElapsed);
            && o.result == Ok(if mockKey in cache.entries then cache.entries[mockKey]
                              else Fresh(MockProvider.MockTranslate(text, sourceLang, targetLang), MockName, retryElapsed))
            && o.calls == (if p in providers then [p] else []) + (if mockKey in cache.entries then [] else [MockName])
  {
  }

  /** At most two backends are called per request, and a second one is always the mock provider after a different one. */
  lemma TranslateCallsAtMostTwice(providers: map<string, Backend>, defaultProvider: string, cache: OrderedMap<TranslationResult>,
                                  text: string, sourceLang: string, targetLang: string, providerName: Option<string>,
                                  net: Network, elapsed: nat, retryElapsed: nat)
    ensures var o := TranslateSpec(providers, defaultProvider, cache, text, sourceLang, targetLang, providerName, net, elapsed, retryElapsed);
            && |o.calls| <= 2
            && (forall i | 0 <= i < |o.calls| :: o.calls[i] in providers)
            && (|o.calls| == 2 ==> o.calls[0] != MockName && o.calls[1] == MockName)
    decreases if ResolveProvider(providerName, defaultProvider) == MockName then 0 else 1
  {
    var provider := ResolveProvider(providerName, defaultProvider);
    if provider != MockName {
      TranslateCallsAtMostTwice(providers, defaultProvider, cache, text, sourceLang, targetLang, Some(MockName), net, retryElapsed, retryElapsed);
    }
  }

  /** `translate` keeps the cache well formed, within 1000 entries, and every entry stamped `cached: true`. */
  lemma TranslateKeepsGoodCache(providers: map<string, Backend>, defaultProvider: string, cache: OrderedMap<TranslationResult>,
                                text: string, sourceLang: string, targetLang: string, providerName: Option<string>,
                                net: Network, elapsed: nat, retryElapsed: nat)
    requires GoodCache(cache)
    ensures GoodCache(TranslateSpec(providers, defaultProvider, cache, text, sourceLang, targetLang, providerName, net, elapsed, retryElapsed).cache)
    decreases if ResolveProvider(providerName, defaultProvider) == MockName then 0 else 1
  {
    var provider := ResolveProvider(providerName, defaultProvider);
    var key := GetCacheKey(text, sourceLang, targetLang, provider);
    if !(IsBlank(text) || sourceLang == targetLang) && key !in cache.entries {
      var attempt := if provider in providers then CallTranslate(providers[provider], net, text, sourceLang, targetLang)
                     else Err(NotAvailable(provider));
      match attempt
      case Ok(raw) =>
        InsertKeepsGoodCache(cache, key, Stamped(Fresh(raw, provider, elapsed)));
      case Err(_) =>
        if provider != MockName {
          TranslateKeepsGoodCache(providers, defaultProvider, cache, text, sourceLang, targetLang, Some(MockName), net, retryElapsed, retryElapsed);
        }
    }
  }

  /** A call writes at most the chosen provider's key or the mock provider's key; every other key present afterwards was present before. */
  lemma TranslateWritesOnlyItsKeys(providers: map<string, Backend>, defaultProvider: string, cache: OrderedMap<TranslationResult>,
                                   text: string, sourceLang: string, targetLang: string, providerName: Option<string>,
                                   net: Network, elapsed: nat, retryElapsed: nat, k: string)
    requires WellFormed(cache)
    requires k != GetCacheKey(text, sourceLang, targetLang, ResolveProvider(providerName, defaultProvider))
    requires k != GetCacheKey(text, sourceLang, targetLang, MockName)
    ensures k in TranslateSpec(providers, defaultProvider, cache, text, sourceLang, targetLang, providerName, net, elapsed, retryElapsed).cache.entries
            ==> k in cache.entries
    decreases if ResolveProvider(providerName, defaultProvider) == MockName then 0 else 1
  {
    var provider := ResolveProvider(providerName, defaultProvider);
    var key := GetCacheKey(text, sourceLang, targetLang, provider);
    if !(IsBlank(text) || sourceLang == targetLang) && key !in cache.entries {
      var attempt := if provider in providers then CallTranslate(providers[provider], net, text, sourceLang, targetLang)
                     else Err(NotAvailable(provider));
      match attempt
      case Ok(raw) =>
        InsertEffect(cache, key, Stamped(Fresh(raw, provider, elapsed)), MaxCacheSize, k);
      case Err(_) =>
        if provider != MockName {
          TranslateWritesOnlyItsKeys(providers, defaultProvider, cache, text, sourceLang, targetLang, Some(MockName), net, retryElapsed, retryElapsed, k);
        }
    }
  }

  /** The backend call `translate` makes for `provider`, or the rejection when it is not registered. */
  function Attempt(providers: map<string, Backend>, provider: string, net: Network,
                   text: string, sourceLang: string, targetLang: string): Result<RawTranslation> {
    if provider in providers then CallTranslate(providers[provider], net, text, sourceLang, targetLang)
    else Err(NotAvailable(provider))
  }

  /** A request whose key is cached returns the stored, stamped value and calls nothing. */
  lemma CachedRequestIsServed(providers: map<string, Backend>, defaultProvider: string, cache: OrderedMap<TranslationResult>,
                              text: string, sourceLang: string, targetLang: string, providerName: Option<string>,
                              net: Network, elapsed: nat, retryElapsed: nat, key: string)
    requires GoodCache(cache)
    requires !IsBlank(text) && sourceLang != targetLang
    requires key == GetCacheKey(text, sourceLang, targetLang, ResolveProvider(providerName, defaultProvider))
    requires key in cache.entries
    ensures cache.entries[key].cached == Some(true)
    ensures TranslateSpec(providers, defaultProvider, cache, text, sourceLang, targetLang, providerName, net, elapsed, retryElapsed)
            == Outcome(Ok(cache.entries[key]), cache, [])
  {
  }

  /**
   * A request whose provider's key is not cached but whose mock key is: the
   * provider is asked, and on failure the cached mock answer is returned.
   */
  lemma UncachedProviderWithCachedMock(providers: map<string, Backend>, defaultProvider: string, cache: OrderedMap<TranslationResult>,
                                       text: string, sourceLang: string, targetLang: string, providerName: Option<string>,
                                       net: Network, elapsed: nat, retryElapsed: nat)
    requires GoodCache(cache)
    requires !IsBlank(text) && sourceLang != targetLang
    requires GetCacheKey(text, sourceLang, targetLang, ResolveProvider(providerName, defaultProvider)) !in cache.entries
    requires GetCacheKey(text, sourceLang, targetLang, MockName) in cache.entries
    ensures var p := ResolveProvider(providerName, defaultProvider);
            var attempt := Attempt(providers, p, net, text, sourceLang, targetLang);
            var o := TranslateSpec(providers, defaultProvider, cache, text, sourceLang, targetLang, providerName, net, elapsed, retryElapsed);
            && p != MockName
            && o.calls == (if p in providers then [p] else [])
            && (attempt.Ok? ==> o.result == Ok(Fresh(attempt.value, p, elapsed)))
            && (!attempt.Ok? ==> o.result == Ok(cache.entries[GetCacheKey(text, sourceLang, targetLang, MockName)]) && o.cache == cache)
  {
    var mockKey := GetCacheKey(text, sourceLang, targetLang, MockName);
    CachedRequestIsServed(providers, defaultProvider, cache, text, sourceLang, targetLang, Some(MockName), net, retryElapsed, retryElapsed, mockKey);
  }

  /**
   * After a successful `translate`, its answer sits stamped in the cache: under
   * the request's own key when that key was cached already or the provider
   * answered, and otherwise under the mock's key, the provider's key staying absent.
   */
  lemma AnswerIsCachedUnderItsKey(providers: map<string, Backend>, defaultProvider: string, cache: OrderedMap<TranslationResult>,
                                  text: string, sourceLang: string, targetLang: string, providerName: Option<string>,
                                  net: Network, elapsed: nat, retryElapsed: nat)
    requires MockRegistered(providers) && GoodCache(cache)
    requires !IsBlank(text) && sourceLang != targetLang
    ensures var p := ResolveProvider(providerName, defaultProvider);
            var key := GetCacheKey(text, sourceLang, targetLang, p);
            var mockKey := GetCacheKey(text, sourceLang, targetLang, MockName);
            var o := TranslateSpec(providers, defaultProvider, cache, text, sourceLang, targetLang, providerName, net, elapsed, retryElapsed);
            var k := if key in cache.entries || Attempt(providers, p, net, text, sourceLang, targetLang).Ok? then key else mockKey;
            && o.result.Ok?
            && k in o.cache.entries && o.cache.entries[k] == Stamped(o.result.value)
            && (k != key ==> p != MockName && key !in o.cache.entries)
  {
    TranslateNeverFails(providers, defaultProvider, cache, text, sourceLang, targetLang, providerName, net, elapsed, retryElapsed);
    var p := ResolveProvider(providerName, defaultProvider);
    var key := GetCacheKey(text, sourceLang, targetLang, p);
    var o := TranslateSpec(providers, defaultProvider, cache, text, sourceLang, targetLang, providerName, net, elapsed, retryElapsed);
    if key !in cache.entries {
      var attempt := Attempt(providers, p, net, text, sourceLang, targetLang);
      if attempt.Ok? {
        InsertEffect(cache, key, Stamped(Fresh(attempt.value, p, elapsed)), MaxCacheSize, key);
      } else {
        assert p != MockName;
        var mockKey := GetCacheKey(text, sourceLang, targetLang, MockName);
        ProviderKeysDiffer(text, sourceLang, targetLang, p, MockName);
        TranslateWritesOnlyItsKeys(providers, defaultProvider, cache, text, sourceLang, targetLang, Some(MockName), net, retryElapsed, retryElapsed, key);
        if mockKey !in cache.entries {
          var raw := MockProvider.MockTranslate(text, sourceLang, targetLang);
          InsertEffect(cache, mockKey, Stamped(Fresh(raw, MockName, retryElapsed)), MaxCacheSize, mockKey);
        }
      }
    }
  }

  /**
   * The second call of a repeated request, given a cache holding the first
   * answer stamped under `k`: the request's own key, or the mock's key with
   * the request's own key absent.
   */
  lemma SecondCallOfRepeat(providers: map<string, Backend>, defaultProvider: string, cache: OrderedMap<TranslationResult>,
                           text: string, sourceLang: string, targetLang: string, providerName: Option<string>,
                           first: TranslationResult, k: string, net: Network, elapsed: nat, retryElapsed: nat)
    requires GoodCache(cache)
    requires !IsBlank(text) && sourceLang != targetLang
    requires var key := GetCacheKey(text, sourceLang, targetLang, ResolveProvider(providerName, defaultProvider));
             && (k == key || k == GetCacheKey(text, sourceLang, targetLang, MockName))
             && k in cache.entries && cache.entries[k] == Stamped(first)
             && (k != key ==> ResolveProvider(providerName, defaultProvider) != MockName && key !in cache.entries)
    ensures var p := ResolveProvider(providerName, defaultProvider);
            var o := TranslateSpec(providers, defaultProvider, cache, text, sourceLang, targetLang, providerName, net, elapsed, retryElapsed);
            var attempt := Attempt(providers, p, net, text, sourceLang, targetLang);
            && (k == GetCacheKey(text, sourceLang, targetLang, p) ==> o.result == Ok(Stamped(first)) && o.cache == cache && o.calls == [])
            && (k != GetCacheKey(text, sourceLang, targetLang, p) ==>
                  && p != MockName
                  && o.calls == (if p in providers then [p] else [])
                  && (attempt.Ok? ==> o.result == Ok(Fresh(attempt.value, p, elapsed)))
                  && (!attempt.Ok? ==> o.result == Ok(Stamped(first)) && o.cache == cache))
            && MockName !in o.calls && |o.calls| <= 1
  {
    var key := GetCacheKey(text, sourceLang, targetLang, ResolveProvider(providerName, defaultProvider));
    if k == key {
      CachedRequestIsServed(providers, defaultProvider, cache, text, sourceLang, targetLang, providerName, net, elapsed, retryElapsed, key);
    } else {
      UncachedProviderWithCachedMock(providers, defaultProvider, cache, text, sourceLang, targetLang, providerName, net, elapsed, retryElapsed);
    }
  }

  /**
   * Repeating a request, with the backends free to answer differently the
   * second time: when the first call's answer is cached under the request's own
   * key, the repeat returns a stamped copy of it, calls nothing and leaves the
   * cache as it is. Otherwise the first provider had failed and the mock had
   * answered; the repeat asks that provider again and returns its fresh answer,
   * or, when it fails again, the stamped mock answer without calling the mock.
   */
  lemma RepeatedRequestIsServedFromCache(providers: map<string, Backend>, defaultProvider: string, cache: OrderedMap<TranslationResult>,
                                         text: string, sourceLang: string, targetLang: string, providerName: Option<string>,
                                         net1: Network, elapsed1: nat, retryElapsed1: nat,
                                         net2: Network, elapsed2: nat, retryElapsed2: nat)
    requires MockRegistered(providers) && GoodCache(cache)
    requires !IsBlank(text) && sourceLang != targetLang
    ensures var p := ResolveProvider(providerName, defaultProvider);
            var key := GetCacheKey(text, sourceLang, targetLang, p);
            var o1 := TranslateSpec(providers, defaultProvider, cache, text, sourceLang, targetLang, providerName, net1, elapsed1, retryElapsed1);
            var o2 := TranslateSpec(providers, defaultProvider, o1.cache, text, sourceLang, targetLang, providerName, net2, elapsed2, retryElapsed2);
            var attempt2 := Attempt(providers, p, net2, text, sourceLang, targetLang);
            && o1.result.Ok?
            && (key in cache.entries || Attempt(providers, p, net1, text, sourceLang, targetLang).Ok? ==>
                  o2.result == Ok(Stamped(o1.result.value)) && o2.cache == o1.cache && o2.calls == [])
            && (!(key in cache.entries || Attempt(providers, p, net1, text, sourceLang, targetLang).Ok?) ==>
                  && p != MockName
                  && o2.calls == (if p in providers then [p] else [])
                  && (attempt2.Ok? ==> o2.result == Ok(Fresh(attempt2.value, p, elapsed2)))
                  && (!attempt2.Ok? ==> o2.result == Ok(Stamped(o1.result.value)) && o2.cache == o1.cache))
            && MockName !in o2.calls && |o2.calls| <= 1
  {
    var p := ResolveProvider(providerName, defaultProvider);
    var key := GetCacheKey(text, sourceLang, targetLang, p);
    var mockKey := GetCacheKey(text, sourceLang, targetLang, MockName);
    var o1 := TranslateSpec(providers, defaultProvider, cache, text, sourceLang, targetLang, providerName, net1, elapsed1, retryElapsed1);
    AnswerIsCachedUnderItsKey(providers, defaultProvider, cache, text, sourceLang, targetLang, providerName, net1, elapsed1, retryElapsed1);
    TranslateKeepsGoodCache(providers, defaultProvider, cache, text, sourceLang, targetLang, providerName, net1, elapsed1, retryElapsed1);
    if key in cache.entries || Attempt(providers, p, net1, text, sourceLang, targetLang).Ok? {
      SecondCallOfRepeat(providers, defaultProvider, o1.cache, text, sourceLang, targetLang, providerName,
                         o1.result.value, key, net2, elapsed2, retryElapsed2);
    } else {
      ProviderKeysDiffer(text, sourceLang, targetLang, p, MockName);
      SecondCallOfRepeat(providers, defaultProvider, o1.cache, text, sourceLang, targetLang, providerName,
                         o1.result.value, mockKey, net2, elapsed2, retryElapsed2);
    }
  }

  // ---------------------------------------------------------------------------
  // detectLanguage
  // ---------------------------------------------------------------------------

  /** Blank text is English with confidence 0.5 and no provider. */
  lemma BlankTextDetectsEnglish(svc: TranslationService, text: string, providerName: Option<string>, net: Network)
    requires IsBlank(text)
    ensures svc.DetectLanguage(text, providerName, net) == Ok(DetectionResult("en", 0.5, None))
  {
  }

  /** With 'mock' registered, detection never rejects. */
  lemma {:induction false} DetectNeverFails(svc: TranslationService, text: string, providerName: Option<string>, net: Network)
    requires MockRegistered(svc.providers)
    ensures svc.DetectLanguage(text, providerName, net).Ok?
    decreases if ResolveProvider(providerName, svc.defaultProvider) == MockName then 0 else 1
  {
    if ResolveProvider(providerName, svc.defaultProvider) != MockName {
      DetectNeverFails(svc, text, Some(MockName), net);
    }
  }

  /**
   * A non-blank text is detected by the chosen provider and tagged with its
   * name; if that provider is missing or fails, by the mock heuristic tagged 'mock'.
   */
  lemma DetectionUsesProviderOrMock(svc: TranslationService, text: string, providerName: Option<string>, net: Network)
    requires MockRegistered(svc.providers) && !IsBlank(text)
    ensures var p := ResolveProvider(providerName, svc.defaultProvider);
            var mock := MockProvider.MockDetectLanguage(text);
            var r := svc.DetectLanguage(text, providerName, net);
            if p in svc.providers && CallDetect(svc.providers[p], net, text).Ok? then
              var raw := CallDetect(svc.providers[p], net, text).value;
              r == Ok(DetectionResult(raw.language, raw.confidence, Some(p)))
            else
              r == Ok(DetectionResult(mock.language, mock.confidence, Some(MockName)))
  {
  }
}
