/**
 * MockTranslationProvider (src/lib/translationService.js:165-254): the offline
 * provider that is always registered. `translate` is a phrase-table lookup with a
 * `[TGT] text` placeholder on a miss; `detectLanguage` tries eight character
 * classes in order. The simulated delays (`setTimeout`) are not modelled.
 */
module MockProvider {
  import opened JsText
  import opened Providers
  import LanguageRegistry

  // ---------------------------------------------------------------------------
  // translate
  // ---------------------------------------------------------------------------

  /** One entry of a phrase book: an exact source text and its translation. */
  datatype Phrase = Phrase(source: string, target: string)

  const EnglishToSpanish: seq<Phrase> := [
    Phrase("Hello", "Hola"),
    Phrase("How can I help you?", "¿Cómo puedo ayudarte?"),
    Phrase("Thank you", "Gracias"),
    Phrase("Goodbye", "Adiós"),
    Phrase("Yes", "Sí"),
    Phrase("No", "No"),
    Phrase("Please wait", "Por favor espera"),
    Phrase("I understand", "Entiendo")
  ]

  const EnglishToFrench: seq<Phrase> := [
    Phrase("Hello", "Bonjour"),
    Phrase("How can I help you?", "Comment puis-je vous aider?"),
    Phrase("Thank you", "Merci"),
    Phrase("Goodbye", "Au revoir"),
    Phrase("Yes", "Oui"),
    Phrase("No", "Non"),
    Phrase("Please wait", "Veuillez patienter"),
    Phrase("I understand", "Je comprends")
  ]

  const SpanishToEnglish: seq<Phrase> := [
    Phrase("Hola", "Hello"),
    Phrase("¿Cómo puedo ayudarte?", "How can I help you?"),
    Phrase("Gracias", "Thank you"),
    Phrase("Adiós", "Goodbye"),
    Phrase("Sí", "Yes"),
    Phrase("No", "No"),
    Phrase("Por favor espera", "Please wait"),
    Phrase("Entiendo", "I understand")
  ]

  const FrenchToEnglish: seq<Phrase> := [
    Phrase("Bonjour", "Hello"),
    Phrase("Comment puis-je vous aider?", "How can I help you?"),
    Phrase("Merci", "Thank you"),
    Phrase("Au revoir", "Goodbye"),
    Phrase("Oui", "Yes"),
    Phrase("Non", "No"),
    Phrase("Veuillez patienter", "Please wait"),
    Phrase("Je comprends", "I understand")
  ]

  /** A phrase book: the `${sourceLang}-${targetLang}` key and its entries. */
  datatype Book = Book(pair: string, phrases: seq<Phrase>)

  /** `this.translations`, in the source's order. */
  const PhraseBooks: seq<Book> := [
    Book("en-es", EnglishToSpanish),
    Book("en-fr", EnglishToFrench),
    Book("es-en", SpanishToEnglish),
    Book("fr-en", FrenchToEnglish)
  ]

  /** `this.translations[pair]`: the book with that key, if any. */
  function FindBook(books: seq<Book>, pair: string): (r: Option<seq<Phrase>>)
    ensures r.None? <==> forall i | 0 <= i < |books| :: books[i].pair != pair
    ensures r.Some? ==> exists i | 0 <= i < |books| :: books[i].pair == pair && books[i].phrases == r.value
  {
    if books == [] then None
    else if books[0].pair == pair then Some(books[0].phrases)
    else
      var r := FindBook(books[1..], pair);
      assert r.Some? ==> books[1..][FindBookWitness(books[1..], pair, r)] == books[FindBookWitness(books[1..], pair, r) + 1];
      r
  }

  ghost function FindBookWitness(books: seq<Book>, pair: string, r: Option<seq<Phrase>>): (i: nat)
    requires r.Some? ==> exists i | 0 <= i < |books| :: books[i].pair == pair && books[i].phrases == r.value
    ensures r.Some? ==> i < |books| && books[i].pair == pair && books[i].phrases == r.value
  {
    if r.Some? then var i :| 0 <= i < |books| && books[i].pair == pair && books[i].phrases == r.value; i else 0
  }

  /** `book[text]`: the translation of the first entry for exactly `text`, if any. */
  function FindPhrase(phrases: seq<Phrase>, text: string): (r: Option<string>)
    ensures r.None? <==> forall i | 0 <= i < |phrases| :: phrases[i].source != text
    ensures r.Some? ==> exists i | 0 <= i < |phrases| :: phrases[i].source == text && phrases[i].target == r.value
                          && forall j | 0 <= j < i :: phrases[j].source != text
  {
    if phrases == [] then None
    else if phrases[0].source == text then Some(phrases[0].target)
    else
      var r := FindPhrase(phrases[1..], text);
      assert r.Some? ==> exists i | 0 <= i < |phrases| :: phrases[i].source == text && phrases[i].target == r.value
                          && forall j | 0 <= j < i :: phrases[j].source != text by {
        if r.Some? {
          var i :| 0 <= i < |phrases[1..]| && phrases[1..][i].source == text && phrases[1..][i].target == r.value
                   && forall j | 0 <= j < i :: phrases[1..][j].source != text;
          assert phrases[i + 1] == phrases[1..][i];
          forall j | 0 <= j < i + 1 ensures phrases[j].source != text {
            if j > 0 { assert phrases[j] == phrases[1..][j - 1]; }
          }
        }
      }
      r
  }

  const MockConfidence: real := 0.85

  function PairKey(sourceLang: string, targetLang: string): string {
    sourceLang + "-" + targetLang
  }

  /** `this.translations[key]?.[text]`, with the `||` treating an empty entry as missing. */
  function PhraseLookup(text: string, sourceLang: string, targetLang: string): (r: Option<string>)
    ensures r.Some? ==> r.value != ""
  {
    match FindBook(PhraseBooks, PairKey(sourceLang, targetLang))
    case None => None
    case Some(book) =>
      match FindPhrase(book, text)
      case Some(phrase) => if phrase != "" then Some(phrase) else None
      case None => None
  }

  /** `[${targetLang.toUpperCase()}] ${text}` */
  function Placeholder(text: string, targetLang: string): string {
    "[" + ToUpper(targetLang) + "] " + text
  }

  /** MockTranslationProvider.translate */
  function MockTranslate(text: string, sourceLang: string, targetLang: string): (r: RawTranslation)
    ensures r.confidence == MockConfidence && r.detectedSourceLanguage == Some(sourceLang)
  {
    var translation := match PhraseLookup(text, sourceLang, targetLang)
      case Some(phrase) => phrase
      case None => Placeholder(text, targetLang);
    RawTranslation(translation, MockConfidence, Some(sourceLang))
  }

  /** Strips the `[TGT] ` marker the placeholder adds, if it is there. */
  function StripPlaceholder(s: string, targetLang: string): Option<string> {
    var marker := "[" + ToUpper(targetLang) + "] ";
    if |marker| <= |s| && s[..|marker|] == marker then Some(s[|marker|..]) else None
  }

  /**
   * On a phrase-table miss the mock's output is the input behind a visible
   * `[TGT] ` marker: the original text can always be read back from it.
   */
  lemma PlaceholderKeepsText(text: string, sourceLang: string, targetLang: string)
    requires PhraseLookup(text, sourceLang, targetLang).None?
    ensures |MockTranslate(text, sourceLang, targetLang).translatedText| == |text| + |targetLang| + 3
    ensures StripPlaceholder(MockTranslate(text, sourceLang, targetLang).translatedText, targetLang) == Some(text)
  {
    var marker := "[" + ToUpper(targetLang) + "] ";
    assert Placeholder(text, targetLang) == marker + text;
    assert (marker + text)[..|marker|] == marker;
    assert (marker + text)[|marker|..] == text;
  }

  /** `back` undoes `fwd` entry by entry. */
  predicate Inverts(back: seq<Phrase>, fwd: seq<Phrase>) {
    |back| == |fwd| && forall i | 0 <= i < |fwd| :: back[i] == Phrase(fwd[i].target, fwd[i].source)
  }

  /** No two entries share a translation, and no source text is empty. */
  predicate DistinctTargets(phrases: seq<Phrase>) {
    && (forall i, j | 0 <= i < j < |phrases| :: phrases[i].target != phrases[j].target)
    && (forall i | 0 <= i < |phrases| :: phrases[i].source != "")
  }

  lemma InverseBookUndoes(fwd: seq<Phrase>, back: seq<Phrase>, text: string)
    requires Inverts(back, fwd) && DistinctTargets(fwd)
    requires FindPhrase(fwd, text).Some?
    ensures FindPhrase(back, FindPhrase(fwd, text).value) == Some(text)
  {
    var t := FindPhrase(fwd, text).value;
    var i :| 0 <= i < |fwd| && fwd[i].source == text && fwd[i].target == t;
    assert back[i] == Phrase(fwd[i].target, fwd[i].source);
    var r := FindPhrase(back, t);
    assert r.Some?;
    var k :| 0 <= k < |back| && back[k].source == t && back[k].target == r.value;
    assert back[k] == Phrase(fwd[k].target, fwd[k].source);
    assert k == i;
  }

  lemma SpanishBooksInvert()
    ensures Inverts(SpanishToEnglish, EnglishToSpanish)
  {}

  lemma SpanishTargetsDistinct()
    ensures DistinctTargets(EnglishToSpanish)
  {}

  lemma FrenchBooksInvert()
    ensures Inverts(FrenchToEnglish, EnglishToFrench)
  {}

  lemma FrenchTargetsDistinct()
    ensures DistinctTargets(EnglishToFrench)
  {}

  /** The Spanish demo books are found under their keys. */
  lemma SpanishBooksFound()
    ensures FindBook(PhraseBooks, PairKey("en", "es")) == Some(EnglishToSpanish)
    ensures FindBook(PhraseBooks, PairKey("es", "en")) == Some(SpanishToEnglish)
  {
    assert PairKey("en", "es") == "en-es" && PairKey("es", "en") == "es-en";
    assert PhraseBooks[0].pair == "en-es" && PhraseBooks[1].pair == "en-fr" && PhraseBooks[2].pair == "es-en";
  }

  /** The French demo books are found under their keys. */
  lemma FrenchBooksFound()
    ensures FindBook(PhraseBooks, PairKey("en", "fr")) == Some(EnglishToFrench)
    ensures FindBook(PhraseBooks, PairKey("fr", "en")) == Some(FrenchToEnglish)
  {
    assert PairKey("en", "fr") == "en-fr" && PairKey("fr", "en") == "fr-en";
    assert PhraseBooks[0].pair == "en-es" && PhraseBooks[1].pair == "en-fr";
    assert PhraseBooks[2].pair == "es-en" && PhraseBooks[3].pair == "fr-en";
  }

  /** Two registered books that invert each other make the mock's translation reversible. */
  lemma RoundTripThroughBooks(text: string, sourceLang: string, targetLang: string, fwd: seq<Phrase>, back: seq<Phrase>)
    requires FindBook(PhraseBooks, PairKey(sourceLang, targetLang)) == Some(fwd)
    requires FindBook(PhraseBooks, PairKey(targetLang, sourceLang)) == Some(back)
    requires Inverts(back, fwd) && DistinctTargets(fwd)
    requires PhraseLookup(text, sourceLang, targetLang).Some?
    ensures var there := MockTranslate(text, sourceLang, targetLang).translatedText;
            MockTranslate(there, targetLang, sourceLang).translatedText == text
  {
    InverseBookUndoes(fwd, back, text);
  }

  /** A known English phrase, translated to Spanish by the mock and back, is itself again. */
  lemma SpanishRoundTrip(text: string)
    requires PhraseLookup(text, "en", "es").Some?
    ensures MockTranslate(MockTranslate(text, "en", "es").translatedText, "es", "en").translatedText == text
  {
    SpanishBooksFound();
    SpanishBooksInvert();
    SpanishTargetsDistinct();
    RoundTripThroughBooks(text, "en", "es", EnglishToSpanish, SpanishToEnglish);
  }

  /** A known English phrase, translated to French by the mock and back, is itself again. */
  lemma FrenchRoundTrip(text: string)
    requires PhraseLookup(text, "en", "fr").Some?
    ensures MockTranslate(MockTranslate(text, "en", "fr").translatedText, "fr", "en").translatedText == text
  {
    FrenchBooksFound();
    FrenchBooksInvert();
    FrenchTargetsDistinct();
    RoundTripThroughBooks(text, "en", "fr", EnglishToFrench, FrenchToEnglish);
  }

  // ---------------------------------------------------------------------------
  // detectLanguage
  // ---------------------------------------------------------------------------

  /** `/[ñáéíóúü]/` */
  predicate IsSpanishMark(c: char) { c in "ñáéíóúü" }

  /** `/[àâäéèêëïîôöùûüÿç]/` */
  predicate IsFrenchMark(c: char) { c in "àâäéèêëïîôöùûüÿç" }

  /** `/[äöüß]/` */
  predicate IsGermanMark(c: char) { c in "äöüß" }

  /** `/[а-яё]/`: lower-case Cyrillic only. */
  predicate IsCyrillicLower(c: char) { 'а' <= c <= 'я' || c == 'ё' }

  /** `/[一-龯]/` (U+4E00 to U+9FAF) */
  predicate IsCjkIdeograph(c: char) { '一' <= c <= '龯' }

  /** `/[ひらがなカタカナ]/`: the seven characters written in the class, not kana ranges. */
  predicate IsKanaAsWritten(c: char) { c in "ひらがなカタカナ" }

  /** `/[ㄱ-ㅎㅏ-ㅣ가-힣]/` */
  predicate IsHangul(c: char) { 'ㄱ' <= c <= 'ㅎ' || 'ㅏ' <= c <= 'ㅣ' || '가' <= c <= '힣' }

  /** `/[ا-ي]/` (U+0627 to U+064A) */
  predicate IsArabicLetter(c: char) { 'ا' <= c <= 'ي' }

  datatype CharClass = Spanish | French | German | Cyrillic | Cjk | Kana | Hangul | Arabic

  predicate InClass(c: char, cls: CharClass) {
    match cls
    case Spanish => IsSpanishMark(c)
    case French => IsFrenchMark(c)
    case German => IsGermanMark(c)
    case Cyrillic => IsCyrillicLower(c)
    case Cjk => IsCjkIdeograph(c)
    case Kana => IsKanaAsWritten(c)
    case Hangul => IsHangul(c)
    case Arabic => IsArabicLetter(c)
  }

  /** `regex.test(text)` for the class `cls`. */
  predicate Mentions(text: string, cls: CharClass) {
    exists i | 0 <= i < |text| :: InClass(text[i], cls)
  }

  /** MockTranslationProvider.detectLanguage: the if-chain, first match wins. */
  function MockDetectLanguage(text: string): RawDetection {
    if Mentions(text, Spanish) then RawDetection("es", 0.85)
    else if Mentions(text, French) then RawDetection("fr", 0.80)
    else if Mentions(text, German) then RawDetection("de", 0.80)
    else if Mentions(text, Cyrillic) then RawDetection("ru", 0.90)
    else if Mentions(text, Cjk) then RawDetection("zh", 0.85)
    else if Mentions(text, Kana) then RawDetection("ja", 0.90)
    else if Mentions(text, Hangul) then RawDetection("ko", 0.90)
    else if Mentions(text, Arabic) then RawDetection("ar", 0.85)
    else RawDetection("en", 0.70)
  }

  /** One detection rule: a character class and the verdict it gives. */
  datatype Rule = Rule(cls: CharClass, verdict: RawDetection)

  /** The detection rules as a table, in the order the if-chain tries them. */
  const DetectionRules: seq<Rule> := [
    Rule(Spanish, RawDetection("es", 0.85)),
    Rule(French, RawDetection("fr", 0.80)),
    Rule(German, RawDetection("de", 0.80)),
    Rule(Cyrillic, RawDetection("ru", 0.90)),
    Rule(Cjk, RawDetection("zh", 0.85)),
    Rule(Kana, RawDetection("ja", 0.90)),
    Rule(Hangul, RawDetection("ko", 0.90)),
    Rule(Arabic, RawDetection("ar", 0.85))
  ]

  const DefaultDetection: RawDetection := RawDetection("en", 0.70)

  /** Reference reading of the heuristic: the verdict of the first rule whose class occurs in the text. */
  function FirstMatch(rules: seq<Rule>, text: string): (r: RawDetection)
    ensures r == DefaultDetection || exists k | 0 <= k < |rules| :: r == rules[k].verdict
  {
    if rules == [] then DefaultDetection
    else if Mentions(text, rules[0].cls) then rules[0].verdict
    else FirstMatch(rules[1..], text)
  }

  /** The first rule (if any) of `rules` whose class occurs in `text` decides `FirstMatch`. */
  lemma {:induction false} FirstMatchIsFirstRule(rules: seq<Rule>, text: string, k: nat)
    requires k < |rules| && Mentions(text, rules[k].cls)
    requires forall j | 0 <= j < k :: !Mentions(text, rules[j].cls)
    ensures FirstMatch(rules, text) == rules[k].verdict
  {
    if k > 0 {
      FirstMatchIsFirstRule(rules[1..], text, k - 1);
    }
  }

  lemma {:induction false} FirstMatchNone(rules: seq<Rule>, text: string)
    requires forall j | 0 <= j < |rules| :: !Mentions(text, rules[j].cls)
    ensures FirstMatch(rules, text) == DefaultDetection
  {
    if rules != [] {
      FirstMatchNone(rules[1..], text);
    }
  }

  /** The if-chain of the source is exactly first-match over the rule table. */
  lemma MockDetectIsFirstMatch(text: string)
    ensures MockDetectLanguage(text) == FirstMatch(DetectionRules, text)
  {
    var rules := DetectionRules;
    if Mentions(text, Spanish) { FirstMatchIsFirstRule(rules, text, 0); }
    else if Mentions(text, French) { FirstMatchIsFirstRule(rules, text, 1); }
    else if Mentions(text, German) { FirstMatchIsFirstRule(rules, text, 2); }
    else if Mentions(text, Cyrillic) { FirstMatchIsFirstRule(rules, text, 3); }
    else { LaterRulesMatchFirst(text); }
  }

  /** The second half of `MockDetectIsFirstMatch`: text with no European mark and no Cyrillic. */
  lemma LaterRulesMatchFirst(text: string)
    requires !Mentions(text, Spanish) && !Mentions(text, French) && !Mentions(text, German) && !Mentions(text, Cyrillic)
    ensures MockDetectLanguage(text) == FirstMatch(DetectionRules, text)
  {
    var rules := DetectionRules;
    if Mentions(text, Cjk) { FirstMatchIsFirstRule(rules, text, 4); }
    else if Mentions(text, Kana) { FirstMatchIsFirstRule(rules, text, 5); }
    else if Mentions(text, Hangul) { FirstMatchIsFirstRule(rules, text, 6); }
    else if Mentions(text, Arabic) { FirstMatchIsFirstRule(rules, text, 7); }
    else {
      FirstMatchNone(rules, text);
    }
  }

  /**
   * Every German mark but `ß` is also a Spanish or French mark, so the German
   * rule can only fire on text containing `ß`.
   */
  lemma GermanOnlyViaEszett(text: string)
    ensures MockDetectLanguage(text).language == "de" <==>
              (exists i | 0 <= i < |text| :: text[i] == 'ß') && !Mentions(text, Spanish) && !Mentions(text, French)
  {
    if MockDetectLanguage(text).language == "de" {
      var i :| 0 <= i < |text| && IsGermanMark(text[i]);
      assert !IsSpanishMark(text[i]) && !IsFrenchMark(text[i]);
    }
    if exists i | 0 <= i < |text| :: text[i] == 'ß' {
      var i :| 0 <= i < |text| && text[i] == 'ß';
      assert InClass(text[i], German);
    }
  }

  /** Plain ASCII text matches no rule and is reported as English with confidence 0.70. */
  lemma AsciiIsEnglish(text: string)
    requires forall i | 0 <= i < |text| :: text[i] < '\U{0080}'
    ensures MockDetectLanguage(text) == RawDetection("en", 0.70)
  {
    forall cls: CharClass, i | 0 <= i < |text| ensures !InClass(text[i], cls) {
    }
  }

  /** Lower-case Cyrillic with no Latin accent is reported as Russian with confidence 0.90. */
  lemma CyrillicIsRussian(text: string)
    requires Mentions(text, Cyrillic)
    requires !Mentions(text, Spanish) && !Mentions(text, French) && !Mentions(text, German)
    ensures MockDetectLanguage(text) == RawDetection("ru", 0.90)
  {}

  /** Every verdict of the heuristic names a language of the registry, with a confidence in [0.70, 0.90]. */
  lemma DetectionIsRegistered(text: string)
    ensures LanguageRegistry.GetLanguageByCode(MockDetectLanguage(text).language).Some?
    ensures 0.70 <= MockDetectLanguage(text).confidence <= 0.90
  {
    MockDetectIsFirstMatch(text);
    var r := FirstMatch(DetectionRules, text);
    if r == DefaultDetection {
      LanguageRegistry.MajorCodesAreRegistered("en");
    } else {
      var k :| 0 <= k < |DetectionRules| && r == DetectionRules[k].verdict;
      RuleVerdictRegistered(k);
    }
  }

  lemma RuleVerdictRegistered(k: nat)
    requires k < |DetectionRules|
    ensures LanguageRegistry.GetLanguageByCode(DetectionRules[k].verdict.language).Some?
    ensures 0.70 <= DetectionRules[k].verdict.confidence <= 0.90
  {
    var codes := ["en", "es", "fr", "de", "it", "pt", "ru", "zh", "ja", "ko", "ar"];
    var at := [1, 2, 3, 6, 7, 8, 9, 10];
    assert DetectionRules[k].verdict.language == codes[at[k]];
    LanguageRegistry.MajorCodesAreRegistered(codes[at[k]]);
  }
}
