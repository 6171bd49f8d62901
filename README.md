# Translation orchestration and chat utilities, modelled in Dafny

This project models two parts of a contact-centre agent desktop.

- **The translation layer** (`src/lib/translationService.js`):
  - a `TranslationService` that picks a provider (a built-in mock, Google Translate or OneMeta);
  - a bounded cache of translations, keyed by provider, language pair and text;
  - a fallback to the mock provider when the chosen provider is missing or fails;
  - the mock provider's phrase table and its character-class language detector;
  - the table of 55 supported languages with its lookup helpers.
- **The chat utilities** (`src/hooks/useRealTimeFeatures.js`):
  - the priority ranking of chats and the priority styles;
  - per-chat response timers;
  - the draft store (component state written through to `localStorage`);
  - the notification list;
  - the duration formatters.

State that the source changes in place is modelled as classes. `TranslationService`, `ResponseTimeTracker`, `DraftStore` and `NotificationCenter` have `map`/`seq` fields and methods with `modifies` clauses. Each method is verified against a pure specification function over the old state (`TranslateSpec`, `Insert`, `StoppedTimers`, `Saved`, `Added`, ...). The properties are lemmas about those functions. The sort, the style lookup, the formatters, the mock provider and the language table are pure functions.

Modules, one per file:

| file | module | models |
|---|---|---|
| `js_text.dfy` | `JsText` | `trim`, `toUpperCase`, number-to-text, `padStart(2,'0')`, `Option`/`Result` |
| `language_registry.dfy` | `LanguageRegistry` | `SUPPORTED_LANGUAGES` and its four helpers |
| `providers.dfy` | `Providers` | provider answers and the `Network` stand-in for the remote providers |
| `mock_provider.dfy` | `MockProvider` | `MockTranslationProvider` |
| `translation_cache.dfy` | `TranslationCache` | `OrderedMap`, the insertion-ordered `Map` used for the cache and the provider registry, and the cache's eviction |
| `translation_service.dfy` | `TranslationService` | the `TranslationService` class and `TranslateSpec` |
| `translation_properties.dfy` | `TranslationProperties` | cache keys, `translate` and `detectLanguage` properties |
| `chat_priority.dfy` | `ChatPriority` | `useChatPriority` |
| `response_time.dfy` | `ResponseTime` | `useResponseTime` |
| `draft_messages.dfy` | `DraftMessages` | `useDraftMessages` |
| `chat_notifications.dfy` | `ChatNotifications` | `useChatNotifications` |
| `agent_status.dfy` | `AgentStatus` | `useAgentStatus.formatDuration` |

Three behaviours of the code that a reader might not expect:

- **Response-time average.** A true mean of two timed cycles of 2000 ms and 4000 ms would be 3000. The code reports 4000, because `startTimer` replaces the whole entry and so drops the previous average (`ResponseTime.TwoCyclesReportLatest`). In fact the halving branch of `stopTimer` can never run from an empty map (`ResponseTime.AverageIsLatestDuration`).
- **Cache policy.** The comment at `src/lib/translationService.js:376` calls the cache LRU. The code evicts in insertion order (FIFO). A cache hit does not move the key. Re-setting an existing key keeps its position, as `Map.set` does.
- **Unregistered provider.** An unregistered provider might be expected to be an error. The throw at `src/lib/translationService.js:314` is inside the `try`, so it is caught, and the request falls back to the mock provider like any other failure (`TranslationProperties.FailedProviderFallsBackToMock`).

The mock detector's Japanese test, `[ひらがなカタカナ]`, is a character class of just the characters written there, not the kana ranges. The model keeps it as written (`MockProvider.IsKanaAsWritten`).

## Model

| member | source | states |
|---|---|---|
| JsText.TrimEmptyIffBlank | src/lib/translationService.js:295-297 | `text.trim()` is empty exactly when every character is ECMAScript whitespace or a line terminator, which is the "blank" test `translate` and `detectLanguage` use |
| JsText.ToUpper | src/lib/translationService.js:220 | `toUpperCase` keeps the length, moves each ASCII letter a–z down by the case offset to A–Z, and leaves every other character as it is |
| JsText.NatToStringRoundTrip | src/hooks/useRealTimeFeatures.js:100-102 | the decimal text of a non-negative integer reads back as that integer |
| JsText.PadStart2OfSmall | src/hooks/useRealTimeFeatures.js:100-102 | `n.toString().padStart(2, '0')` for `n < 100` has exactly two characters and reads back as `n` |
| JsText.CanonicalNatIsNatToString | src/hooks/useRealTimeFeatures.js:100-102 | a run of digits without a leading zero is the `${n}` text of the number it reads as |
| JsText.PaddedFieldIsPadStart2 | src/hooks/useRealTimeFeatures.js:100-102 | a two-digit field is the `padStart(2, '0')` text of the number below 100 it reads as |
| LanguageRegistry.FindByCode | src/lib/translationService.js:475-477 | `find` returns nothing exactly when no entry has the code, and otherwise the first entry that has it |
| LanguageRegistry.GetLanguageName | src/lib/translationService.js:479-482 | specified by `LanguageDisplay` and `UnknownCodeFallsBack`: the first entry's name or native name, else the code upper-cased |
| LanguageRegistry.GetLanguageFlag | src/lib/translationService.js:484-487 | specified by `LanguageDisplay` and `UnknownCodeFallsBack`: the first entry's flag, else the globe |
| LanguageRegistry.IsRtlLanguage | src/lib/translationService.js:489-491 | membership in the four right-to-left codes; `RtlCodesAreRegistered` shows each of them is in the table |
| LanguageRegistry.LanguageDisplay | src/lib/translationService.js:479-487 | a code is shown with the name, native name and flag of the first entry that carries it; a code with no entry is shown upper-cased with the globe flag |
| LanguageRegistry.RtlCodesAreRegistered | src/lib/translationService.js:489-491 | each of the four right-to-left codes (ar, he, fa, ur) is in the language table |
| LanguageRegistry.MajorCodesAreRegistered | src/lib/translationService.js:408-418 | the first eleven codes of the table (en … ar) are all found by lookup |
| LanguageRegistry.UnknownCodeFallsBack | src/lib/translationService.js:479-487 | "xx" has no entry, so its name is "XX" in both modes and its flag is the globe |
| LanguageRegistry.RegisteredCodesArePlain | src/lib/translationService.js:406-473 | every code the table finds is two lower-case ASCII letters |
| MockProvider.FindBook | src/lib/translationService.js:219-220 | `this.translations[key]` is missing exactly when no phrase book has that pair key, else it is that book |
| MockProvider.FindPhrase | src/lib/translationService.js:220 | `book[text]` is missing exactly when no entry has that source text, else it is the first such entry's translation |
| MockProvider.PhraseLookup | src/lib/translationService.js:219-220 | the `||` treats an empty translation as missing: a found phrase is never empty |
| MockProvider.MockTranslate | src/lib/translationService.js:215-227 | the mock always answers, with confidence 0.85, and echoes the source language as the detected one |
| MockProvider.PlaceholderKeepsText | src/lib/translationService.js:220 | on a phrase-table miss the answer is "[TGT] " followed by the text, so the original text can be read back from it |
| MockProvider.SpanishRoundTrip | src/lib/translationService.js:171-211 | a known English phrase translated to Spanish and back gives the same phrase |
| MockProvider.FrenchRoundTrip | src/lib/translationService.js:171-211 | a known English phrase translated to French and back gives the same phrase |
| MockProvider.InverseBookUndoes | src/lib/translationService.js:171-211 | a book whose entries are another book's entries reversed undoes that book's lookups |
| MockProvider.RoundTripThroughBooks | src/lib/translationService.js:215-227 | two registered books that invert each other make the mock's translation reversible |
| MockProvider.FirstMatch | src/lib/translationService.js:229-253 | the first-match reading of the detector always returns one of the rule verdicts or the English default |
| MockProvider.MockDetectLanguage | src/lib/translationService.js:229-253 | specified by `MockDetectIsFirstMatch`, `FirstMatchIsFirstRule`, `FirstMatchNone` and `DetectionIsRegistered`: the first matching character-class rule decides, English at 0.70 otherwise |
| MockProvider.MockDetectIsFirstMatch | src/lib/translationService.js:229-253 | the detector's if-chain is the same as first-match over the table of eight character-class rules |
| MockProvider.FirstMatchIsFirstRule | src/lib/translationService.js:229-253 | the first rule whose class occurs in the text decides the verdict |
| MockProvider.FirstMatchNone | src/lib/translationService.js:250-252 | text that matches no rule is English with confidence 0.70 |
| MockProvider.GermanOnlyViaEszett | src/lib/translationService.js:234-239 | German is reported exactly when the text has a `ß` and no Spanish or French mark, because `ä`, `ö` and `ü` are caught by the earlier rules |
| MockProvider.AsciiIsEnglish | src/lib/translationService.js:250-252 | plain ASCII text is reported as English with confidence 0.70 |
| MockProvider.CyrillicIsRussian | src/lib/translationService.js:240-241 | lower-case Cyrillic with no Latin mark is reported as Russian with confidence 0.90 |
| MockProvider.DetectionIsRegistered | src/lib/translationService.js:229-253 | every verdict names a language of the table and has a confidence between 0.70 and 0.90 |
| TranslationCache.Clear | src/lib/translationService.js:385-387 | after `clear` the cache is well formed and no key is found |
| TranslationCache.EntriesMatchOrder | src/lib/translationService.js:377 | `cache.size` equals the number of keys in insertion order |
| TranslationCache.SetWellFormed | src/lib/translationService.js:382 | `Map.set` keeps the order a duplicate-free list of exactly the keys |
| TranslationCache.EvictOldestWellFormed | src/lib/translationService.js:377-380 | deleting the first key keeps the cache well formed, and that key is gone |
| TranslationCache.Insert | src/lib/translationService.js:375-383 | specified by `InsertWellFormed`, `InsertEffect`, `InsertOrder` and `InsertFreshAppends`: the insertion-ordered map with first-in-first-out eviction at capacity |
| TranslationCache.InsertWellFormed | src/lib/translationService.js:375-383 | `addToCache` keeps the cache well formed and never lets it exceed its capacity |
| TranslationCache.InsertEffect | src/lib/translationService.js:375-383 | after `addToCache` the key holds the new value; another key is gone only if it was the oldest key of a full cache, and is otherwise unchanged |
| TranslationCache.InsertOrder | src/lib/translationService.js:375-383 | a new key goes last, after the oldest key has been dropped from a full cache: first in, first out |
| TranslationCache.InsertFreshAppends | src/lib/translationService.js:375-383 | below capacity, `addToCache` with a new key appends it and evicts nothing |
| TranslationCache.InsertAllAppends | src/lib/translationService.js:375-383 | inserting distinct fresh keys below capacity appends them in order |
| TranslationCache.FullCacheEvictsFirstInserted | src/lib/translationService.js:375-383 | once the cache has filled with distinct keys, the next new key evicts the first key inserted |
| TranslationService.RegisteredHasMock | src/lib/translationService.js:271-288 | registering leaves 'mock' bound to the mock provider, and the registered names become the previous ones plus 'mock', plus 'google' and 'onemeta' when their keys are present |
| TranslationService.RegisteredFromEmpty | src/lib/translationService.js:271-288 | starting from an empty registry, the names end up as mock, then google and onemeta in that order, each only when its key is present |
| TranslationService.TranslationService.constructor | src/lib/translationService.js:260-288 | a new service registers mock, then google and onemeta in that order when their keys are present; the default is onemeta over google over mock; the cache is empty |
| TranslationService.TranslationService.InitializeProviders | src/lib/translationService.js:271-288 | providers are set in order with `Map.set` semantics, and each present key makes its provider the default |
| TranslationService.TranslationService.RegisterProvider | src/lib/translationService.js:273 | `providers.set` keeps an existing name's place and appends a new one |
| TranslationService.TranslationService.AddToCache | src/lib/translationService.js:375-383 | the cache becomes `Insert` of a copy stamped `cached: true`, keeping the cache invariant: well formed, at most 1000 entries, every entry stamped |
| TranslationService.TranslationService.ClearCache | src/lib/translationService.js:385-387 | the cache becomes empty |
| TranslationService.TranslationService.GetAvailableProviders | src/lib/translationService.js:389-391 | the names listed are exactly the registered ones, without repeats, and include 'mock' |
| TranslationService.TranslationService.SetDefaultProvider | src/lib/translationService.js:393-399 | succeeds exactly for a registered name and makes it the default; otherwise fails with "Provider '…' not available" and changes nothing |
| TranslationService.ResolveProvider | src/lib/translationService.js:303 | `providerName \|\| this.defaultProvider`: an absent or empty name selects the default; used by every `translate` and `detectLanguage` lemma, e.g. `FreshAnswerIsCached` and `DetectionUsesProviderOrMock` |
| TranslationService.GetCacheKey | src/lib/translationService.js:290-292 | specified by `CacheKeyRoundTrip`, `CacheKeyInjective`, `ProviderKeysDiffer` and `CacheKeyCollision` |
| TranslationService.TranslateSpec | src/lib/translationService.js:294-343 | specified by `TrivialRequestPassesThrough`, `TranslateNeverFails`, `FreshAnswerIsCached`, `FailedProviderFallsBackToMock`, `TranslateCallsAtMostTwice`, `TranslateKeepsGoodCache`, `TranslateWritesOnlyItsKeys` and `RepeatedRequestIsServedFromCache` |
| TranslationService.TranslationService.DetectLanguage | src/lib/translationService.js:345-373 | specified by `BlankTextDetectsEnglish`, `DetectNeverFails` and `DetectionUsesProviderOrMock` |
| TranslationService.TranslationService.Translate | src/lib/translationService.js:294-343 | returns the result and leaves the cache that `TranslateSpec` gives for the old state, keeping the cache invariant |
| TranslationService.InsertKeepsGoodCache | src/lib/translationService.js:375-383 | inserting a stamped value keeps the cache invariant |
| TranslationProperties.CacheKeyRoundTrip | src/lib/translationService.js:290-292 | the key reads back as provider, source, target and text when the provider and the target have no ':' and the source has no '-' |
| TranslationProperties.CacheKeyInjective | src/lib/translationService.js:290-292 | under that condition, distinct requests never share a key |
| TranslationProperties.RegisteredRequestsNeverCollide | src/lib/translationService.js:290-292 | requests between table languages through the three built-in providers never share a key |
| TranslationProperties.CacheKeyCollision | src/lib/translationService.js:290-292 | without the condition, "zh-CN"→"en" and "zh"→"CN-en" share a key |
| TranslationProperties.ProviderKeysDiffer | src/lib/translationService.js:290-292 | the same request under two providers uses two keys |
| TranslationProperties.TrivialRequestPassesThrough | src/lib/translationService.js:295-301 | blank text or equal languages give back the text with confidence 1.0, with no backend call and no cache change |
| TranslationProperties.TranslateNeverFails | src/lib/translationService.js:311-342 | while 'mock' is registered as the mock provider, `translate` never rejects |
| TranslationProperties.FreshAnswerIsCached | src/lib/translationService.js:311-331 | on a miss with a working provider, the result is that provider's answer tagged with provider, time and `cached: false`, and the cache then holds the copy with `cached: true` under the request's key |
| TranslationProperties.FailedProviderFallsBackToMock | src/lib/translationService.js:332-339 | when the chosen provider is not 'mock' and is missing or fails, the answer is the mock's, read from the cache when the mock key is there; the only backends called are the failing one and the mock on a miss |
| TranslationProperties.TranslateCallsAtMostTwice | src/lib/translationService.js:294-343 | at most two backends are called, all registered, and a second call is always the mock after a different provider |
| TranslationProperties.TranslateKeepsGoodCache | src/lib/translationService.js:294-343 | `translate` keeps the cache well formed, within 1000 entries and all stamped |
| TranslationProperties.TranslateWritesOnlyItsKeys | src/lib/translationService.js:294-343 | a call adds no key other than the request's key under the chosen provider or under 'mock' |
| TranslationProperties.CachedRequestIsServed | src/lib/translationService.js:305-309 | a request whose key is cached returns the stored value, already marked `cached: true`, calls nothing and leaves the cache as it was |
| TranslationProperties.UncachedProviderWithCachedMock | src/lib/translationService.js:303-342 | when only the mock's key is cached, the chosen provider is asked; its fresh answer is returned, or on failure the cached mock answer |
| TranslationProperties.AnswerIsCachedUnderItsKey | src/lib/translationService.js:303-342 | after a call, its answer is cached, stamped, under the request's key when that key was cached or the provider answered, and otherwise under the mock's key with the request's key absent |
| TranslationProperties.SecondCallOfRepeat | src/lib/translationService.js:303-342 | the second call of a repeat, given the first answer stamped under one of the two keys |
| TranslationProperties.RepeatedRequestIsServedFromCache | src/lib/translationService.js:303-342 | with the backends free to answer differently the second time: when the first answer was cached under the request's own key, the repeat returns it marked `cached: true`, calls nothing and leaves the cache as it was; otherwise the chosen provider had failed, and the repeat asks it once more, returning its fresh answer or, if it fails again, the cached mock answer; the mock backend is never called |
| TranslationProperties.BlankTextDetectsEnglish | src/lib/translationService.js:346-348 | blank text is detected as English with confidence 0.5 and no provider |
| TranslationProperties.DetectNeverFails | src/lib/translationService.js:345-373 | while 'mock' is registered, `detectLanguage` never rejects |
| TranslationProperties.DetectionUsesProviderOrMock | src/lib/translationService.js:350-372 | non-blank text is detected by the chosen provider and tagged with its name; if that provider is missing or fails, it is detected by the mock heuristic and tagged 'mock' |
| ChatPriority.Weight | src/hooks/useRealTimeFeatures.js:116-126 | a weight is between 0 and 4, and positive exactly for the four level names |
| ChatPriority.LevelsOutrankTheRest | src/hooks/useRealTimeFeatures.js:116-126 | urgent outranks high, high outranks medium, medium outranks low, and low outranks any other name, which weighs 0 |
| ChatPriority.CompareTransitive | src/hooks/useRealTimeFeatures.js:124-134 | the comparator is transitive, so the sort is well defined |
| ChatPriority.InsertChatContents | src/hooks/useRealTimeFeatures.js:123-135 | inserting one chat adds exactly that chat |
| ChatPriority.InsertChatRanked | src/hooks/useRealTimeFeatures.js:123-135 | inserting into a ranked list keeps it ranked |
| ChatPriority.InsertChatStable | src/hooks/useRealTimeFeatures.js:123-135 | an inserted chat goes before the chats that tie with it |
| ChatPriority.SortChatsByPriority | src/hooks/useRealTimeFeatures.js:123-135 | specified by `SortChatsByPriorityCorrect`: a stable permutation ranked by the comparator |
| ChatPriority.SortChatsByPriorityCorrect | src/hooks/useRealTimeFeatures.js:123-135 | the result is a permutation of the input, is ranked by the comparator, and keeps tied chats in input order (stable) |
| ChatPriority.RankedMeansPriorityThenAge | src/hooks/useRealTimeFeatures.js:125-133 | in a ranked list weights never increase, and within one weight timestamps never decrease |
| ChatPriority.SortExample | src/hooks/useRealTimeFeatures.js:123-135 | [low, urgent, medium, urgent] ranks as both urgent chats oldest first, then medium, then low |
| ChatPriority.PriorityStyle | src/hooks/useRealTimeFeatures.js:137-149 | the corrected style lookup, specified by `PriorityStyleTable` and `PriorityStyleMatchesWeight` |
| ChatPriority.PriorityStyleAsWritten | src/hooks/useRealTimeFeatures.js:137-149 | the style lookup as written, specified by `InheritedNameStyledAsLow` and `AsWrittenAgreesElsewhere` |
| ChatPriority.PriorityStyleTable | src/hooks/useRealTimeFeatures.js:137-149 | each of the four levels has its own colour pair, and a priority is gray exactly when its weight is 0 |
| ChatPriority.PriorityStyleMatchesWeight | src/hooks/useRealTimeFeatures.js:137-149 | two priorities share a style exactly when they share a weight |
| ChatPriority.InheritedNameStyledAsLow | src/hooks/useRealTimeFeatures.js:137-149 | as written, "constructor" ranks with unknown priorities but is styled like "low"; the corrected lookup styles it gray |
| ChatPriority.AsWrittenAgreesElsewhere | src/hooks/useRealTimeFeatures.js:137-149 | the as-written and corrected lookups agree on every name not inherited from `Object.prototype` |
| ResponseTime.ResponseTimeTracker.StartTimer | src/hooks/useRealTimeFeatures.js:162-170 | the chat's entry becomes exactly `{startTime: now, isActive: true}` |
| ResponseTime.ResponseTimeTracker.StopTimer | src/hooks/useRealTimeFeatures.js:172-190 | the map becomes `StoppedTimers` of the old map |
| ResponseTime.StopTimerNoOpIff | src/hooks/useRealTimeFeatures.js:174-175 | stopping leaves the map unchanged exactly when the chat has no timer or its timer is not running |
| ResponseTime.OtherTimersUnchanged | src/hooks/useRealTimeFeatures.js:162-190 | starting or stopping one chat's timer never changes another chat's entry |
| ResponseTime.StoppedTimer | src/hooks/useRealTimeFeatures.js:177-187 | specified by `StopRunningTimer` |
| ResponseTime.AverageResponseTime | src/hooks/useRealTimeFeatures.js:192-195 | specified by `AverageZeroIff`, `AverageIsLatestDuration` and `TwoCyclesReportLatest` |
| ResponseTime.StopRunningTimer | src/hooks/useRealTimeFeatures.js:177-187 | stopping a running timer clears the active flag, records `now - startTime`, and sets the average to the mean of the old non-zero average and this duration, or to this duration |
| ResponseTime.AverageZeroIff | src/hooks/useRealTimeFeatures.js:192-195 | the reported average is 0 exactly when the chat has no timer or no non-zero average |
| ResponseTime.StartKeepsOnlyLastIsAveraged | src/hooks/useRealTimeFeatures.js:162-170 | starting keeps every running timer free of measurements and every stopped timer's average equal to its last duration |
| ResponseTime.StopKeepsOnlyLastIsAveraged | src/hooks/useRealTimeFeatures.js:172-190 | stopping keeps that same shape |
| ResponseTime.AverageIsLatestDuration | src/hooks/useRealTimeFeatures.js:162-195 | in that shape, the average after a stop is the latest duration alone: the halving branch never runs |
| ResponseTime.TwoCyclesReportLatest | src/hooks/useRealTimeFeatures.js:162-195 | cycles of 2000 ms and then 4000 ms report 2000 and then 4000 |
| ResponseTime.FormatResponseTime | src/hooks/useRealTimeFeatures.js:197-205 | specified by `ResponseTextIsUnique`, `FormatResponseTimeRoundTrip` and `FormatResponseTimeTruncates`: "{s}s" under a minute, else "{m}m {s mod 60}s", the only text of that layout for the truncated seconds |
| ResponseTime.FormatResponseTimeRoundTrip | src/hooks/useRealTimeFeatures.js:197-205 | for a non-negative duration the text is accepted by the reader of the printed layout ("{s}s" with s < 60, or "{m}m {s}s" with m > 0 and s < 60, no leading zeros) and names exactly the whole seconds, truncated, never rounded |
| ResponseTime.FormatSecondsRoundTrip | src/hooks/useRealTimeFeatures.js:198-204 | the text of a whole number of seconds is in the printed layout and reads back as that number |
| ResponseTime.ParsedTextIsFormatted | src/hooks/useRealTimeFeatures.js:198-204 | every text in the printed layout is the one printed for the number it names |
| ResponseTime.ResponseTextIsUnique | src/hooks/useRealTimeFeatures.js:198-204 | a text names `seconds` in the printed layout exactly when it is the text printed for `seconds` |
| ResponseTime.ZeroMinutesRejected | src/hooks/useRealTimeFeatures.js:200-204 | "0m 59s" is not the layout: the minutes form starts at one minute |
| ResponseTime.MinutesSecondsPast59Rejected | src/hooks/useRealTimeFeatures.js:201 | "1m 75s" is not the layout: the seconds after the minutes are below 60 |
| ResponseTime.OtherSecondsLayoutsRejected | src/hooks/useRealTimeFeatures.js:204 | "75s" and "059s" are not the layout: a seconds-only text is below 60 and unpadded |
| ResponseTime.FormatResponseTimeTruncates | src/hooks/useRealTimeFeatures.js:197-205 | 59 999 ms reads "59s" and 61 500 ms reads "1m 1s" |
| AgentStatus.FormatDuration | src/hooks/useRealTimeFeatures.js:94-103 | specified by `DurationTextIsUnique`, `FormatDurationRoundTrip` and the two examples: "h:mm:ss" exactly when hours > 0, else "m:ss", with minutes and seconds below 60, the only text of that layout for the number of seconds |
| AgentStatus.FormatDurationRoundTrip | src/hooks/useRealTimeFeatures.js:94-103 | the text is accepted by the reader of the printed layout ("m:ss" with m < 60, or "h:mm:ss" with h > 0 and mm < 60; seconds two digits below 60; no leading zero in the first field) and reads back as exactly the number of seconds |
| AgentStatus.ParsedDurationIsFormatted | src/hooks/useRealTimeFeatures.js:94-103 | every text in the printed layout is the one printed for the number it names |
| AgentStatus.DurationTextIsUnique | src/hooks/useRealTimeFeatures.js:94-103 | a text names `seconds` in the printed layout exactly when it is the text printed for `seconds` |
| AgentStatus.SecondsPast59Rejected | src/hooks/useRealTimeFeatures.js:97-102 | a seconds field of 60 or more, as in "1:75", is not the layout |
| AgentStatus.ZeroHoursRejected | src/hooks/useRealTimeFeatures.js:99-102 | an hours field of 0, as in "0:00:59", is not the layout: hours appear only when positive |
| AgentStatus.PaddedFirstFieldRejected | src/hooks/useRealTimeFeatures.js:100-102 | a first field with a leading zero, as in "00:59", is not the layout |
| AgentStatus.FormatDurationUnderAnHour | src/hooks/useRealTimeFeatures.js:99-102 | 59 seconds reads "0:59" |
| AgentStatus.FormatDurationOverAnHour | src/hooks/useRealTimeFeatures.js:99-100 | 3661 seconds reads "1:01:01" |
| DraftMessages.DraftStore.SaveDraft | src/hooks/useRealTimeFeatures.js:261-273 | memory and storage become `Saved` of the old ones |
| DraftMessages.DraftStore.ClearDraft | src/hooks/useRealTimeFeatures.js:280-287 | memory and storage become `Cleared` of the old ones |
| DraftMessages.Saved | src/hooks/useRealTimeFeatures.js:261-273 | specified by `SaveThenGet`, `HasDraftAfterSave`, `OtherChatsUnaffected` and `DraftSurvivesReload` |
| DraftMessages.Cleared | src/hooks/useRealTimeFeatures.js:280-287 | specified by `ClearThenGet` and `OtherChatsUnaffected` |
| DraftMessages.Draft | src/hooks/useRealTimeFeatures.js:275-278 | memory first, then storage, an empty string counting as missing; specified by `SaveThenGet`, `ClearThenGet` and `DraftSurvivesReload` |
| DraftMessages.StorageKeyInjective | src/hooks/useRealTimeFeatures.js:269 | distinct chats use distinct `localStorage` keys |
| DraftMessages.SaveThenGet | src/hooks/useRealTimeFeatures.js:261-278 | after saving, the draft read back is the message as given, untrimmed, when it has non-whitespace, and "" otherwise |
| DraftMessages.HasDraftAfterSave | src/hooks/useRealTimeFeatures.js:261-293 | after saving there is a draft exactly when the message has non-whitespace |
| DraftMessages.ClearThenGet | src/hooks/useRealTimeFeatures.js:280-287 | after clearing, neither memory nor storage holds the draft, and "" is read |
| DraftMessages.OtherChatsUnaffected | src/hooks/useRealTimeFeatures.js:261-287 | saving or clearing one chat's draft leaves every other chat's draft as it was |
| DraftMessages.DraftSurvivesReload | src/hooks/useRealTimeFeatures.js:275-278 | a saved draft is still read back by a fresh component with empty memory, from storage |
| ChatNotifications.NotificationCenter.AddNotification | src/hooks/useRealTimeFeatures.js:39-49 | the list becomes the new unread notification followed by the first nine old ones |
| ChatNotifications.NotificationCenter.MarkAsRead | src/hooks/useRealTimeFeatures.js:57-61 | the list becomes `MarkedRead` of the old list |
| ChatNotifications.NotificationCenter.ClearAll | src/hooks/useRealTimeFeatures.js:63-65 | the list becomes empty |
| ChatNotifications.Added | src/hooks/useRealTimeFeatures.js:39-55 | specified by `AddKeepsNewestTen` and `UnreadAfterAdd` |
| ChatNotifications.MarkedRead | src/hooks/useRealTimeFeatures.js:57-61 | specified by `MarkTouchesOnlyThatId`, `MarkIdempotent` and `MarkLowersUnreadCount` |
| ChatNotifications.NotificationCenter.UnreadCount | src/hooks/useRealTimeFeatures.js:72 | the number of unread notifications; specified by `UnreadAfterAdd` and `MarkLowersUnreadCount` |
| ChatNotifications.AddKeepsNewestTen | src/hooks/useRealTimeFeatures.js:39-49 | after adding, the list has at most ten entries, the new one first, then the old ones in order |
| ChatNotifications.UnreadAfterAdd | src/hooks/useRealTimeFeatures.js:49-72 | adding raises the unread count by one, less any unread notification pushed out at the tail |
| ChatNotifications.MarkTouchesOnlyThatId | src/hooks/useRealTimeFeatures.js:57-61 | marking keeps the length and every notification with another id, and sets only `read` on those with that id |
| ChatNotifications.MarkIdempotent | src/hooks/useRealTimeFeatures.js:57-61 | marking twice is marking once |
| ChatNotifications.MarkLowersUnreadCount | src/hooks/useRealTimeFeatures.js:57-72 | marking an id lowers the unread count by exactly the number of unread notifications with that id |
| ChatNotifications.SameMillisecondMarkedTogether | src/hooks/useRealTimeFeatures.js:39-61 | ids are `Date.now()`, so two notifications added in the same millisecond are marked read together |

## Left out

- GoogleTranslateProvider and OneMetaProvider (`fetch` and JSON handling) are not modelled. Their answers come from a `Network` parameter that gives success or failure for each backend.
- `Date.now()` and `new Date()` are parameters: `elapsed`/`retryElapsed` in `translate`, and `now` in the timers and notifications.
- The `setTimeout` delays in the mock provider, all `console` output, and the 10-second auto-removal of notifications are left out.
- `import.meta.env` is read as two booleans: whether each API key is present and non-empty.
- The async steps of `translate` and `detectLanguage` are taken as one atomic step each. Interleaved concurrent calls and React's batching of state updates are not modelled.
- TranslationService.TranslationService.Translate: the returned cached object is the same object the cache holds, so a caller could mutate the cache through it. Values in the model cannot alias, so this is not captured.
- JsText.ToUpper: upper-cases ASCII letters only. `toUpperCase` also maps non-ASCII letters; the language codes used are ASCII.
- MockProvider.PhraseLookup: a text naming a property every object inherits (such as "constructor") would find an inherited function in the phrase book and return it. The model treats every text outside the book as a miss.
- DraftMessages.Draft: the in-memory drafts are a plain object, so a chat id naming an inherited property ("constructor", "toString", "__proto__") reads back that inherited value, and `hasDraft` is then true even after `clearDraft`. The model reads only saved drafts; the chat ids the app passes are numeric database ids.
- ChatPriority.SortChatsByPriority: timestamps are integers. An invalid date, which makes the comparator return NaN, is not modelled.
- OneMeta's alternative translations and provider-specific fields are left out with the providers.
- `useQueueMetrics`, the `setInterval` in `useAgentStatus`, `updateStatus`, `isAvailable`/`isBusy` and `useKeyboardShortcuts` are left out. They are random drift, timers and event wiring.
- The CRM client, the Supabase wrapper and all `.jsx` view components are outside this model.

## Findings

| source | as written | input that shows it | evidently intended | confidence | as-written member | corrected member |
|---|---|---|---|---|---|---|
| src/hooks/useRealTimeFeatures.js:137-149 | `priorityLevels[priority]` also finds names inherited from `Object.prototype`, so `!level` is false and the colour falls through to green | priority "constructor": weight 0 (ranked as unknown) but styled like "low" | unknown priorities, including inherited names, get the gray style | not executed | ChatPriority.InheritedNameStyledAsLow | ChatPriority.PriorityStyleTable |
