/**
 * The static language table and the four lookup helpers exported next to it
 * (src/lib/translationService.js, SUPPORTED_LANGUAGES and the functions after it).
 */
module LanguageRegistry {
  import opened JsText

  datatype Language = Language(code: string, name: string, nativeName: string, flag: string)

  /** Major World Languages */
  const MajorLanguages: seq<Language> :=
    [
      Language("en", "English", "English", "🇺🇸"),
      Language("es", "Spanish", "Español", "🇪🇸"),
      Language("fr", "French", "Français", "🇫🇷"),
      Language("de", "German", "Deutsch", "🇩🇪"),
      Language("it", "Italian", "Italiano", "🇮🇹"),
      Language("pt", "Portuguese", "Português", "🇵🇹"),
      Language("ru", "Russian", "Русский", "🇷🇺"),
      Language("zh", "Chinese", "中文", "🇨🇳"),
      Language("ja", "Japanese", "日本語", "🇯🇵"),
      Language("ko", "Korean", "한국어", "🇰🇷"),
      Language("ar", "Arabic", "العربية", "🇸🇦"),
      Language("hi", "Hindi", "हिन्दी", "🇮🇳"),
      Language("th", "Thai", "ไทย", "🇹🇭"),
      Language("vi", "Vietnamese", "Tiếng Việt", "🇻🇳"),
      Language("nl", "Dutch", "Nederlands", "🇳🇱"),
      Language("sv", "Swedish", "Svenska", "🇸🇪"),
      Language("da", "Danish", "Dansk", "🇩🇰"),
      Language("no", "Norwegian", "Norsk", "🇳🇴"),
      Language("fi", "Finnish", "Suomi", "🇫🇮"),
      Language("pl", "Polish", "Polski", "🇵🇱")
    ]

  /** Additional European Languages */
  const EuropeanLanguages: seq<Language> :=
    [
      Language("cs", "Czech", "Čeština", "🇨🇿"),
      Language("hu", "Hungarian", "Magyar", "🇭🇺"),
      Language("ro", "Romanian", "Română", "🇷🇴"),
      Language("bg", "Bulgarian", "Български", "🇧🇬"),
      Language("hr", "Croatian", "Hrvatski", "🇭🇷"),
      Language("sk", "Slovak", "Slovenčina", "🇸🇰"),
      Language("sl", "Slovenian", "Slovenščina", "🇸🇮"),
      Language("et", "Estonian", "Eesti", "🇪🇪"),
      Language("lv", "Latvian", "Latviešu", "🇱🇻"),
      Language("lt", "Lithuanian", "Lietuvių", "🇱🇹")
    ]

  /** Asian Languages */
  const AsianLanguages: seq<Language> :=
    [
      Language("bn", "Bengali", "বাংলা", "🇧🇩"),
      Language("ur", "Urdu", "اردو", "🇵🇰"),
      Language("fa", "Persian", "فارسی", "🇮🇷"),
      Language("he", "Hebrew", "עברית", "🇮🇱"),
      Language("my", "Burmese", "မြန်မာ", "🇲🇲"),
      Language("km", "Khmer", "ខ្មែរ", "🇰🇭"),
      Language("lo", "Lao", "ລາວ", "🇱🇦")
    ]

  /** Indian Languages */
  const IndianLanguages: seq<Language> :=
    [
      Language("gu", "Gujarati", "ગુજરાતી", "🇮🇳"),
      Language("kn", "Kannada", "ಕನ್ನಡ", "🇮🇳"),
      Language("ml", "Malayalam", "മലയാളം", "🇮🇳"),
      Language("mr", "Marathi", "मराठी", "🇮🇳"),
      Language("ta", "Tamil", "தமிழ்", "🇮🇳"),
      Language("te", "Telugu", "తెలుగు", "🇮🇳"),
      Language("pa", "Punjabi", "ਪੰਜਾਬੀ", "🇮🇳")
    ]

  /** Southeast Asian Languages */
  const SoutheastAsianLanguages: seq<Language> :=
    [
      Language("id", "Indonesian", "Bahasa Indonesia", "🇮🇩"),
      Language("ms", "Malay", "Bahasa Melayu", "🇲🇾"),
      Language("tl", "Filipino", "Filipino", "🇵🇭")
    ]

  /** African Languages */
  const AfricanLanguages: seq<Language> :=
    [
      Language("sw", "Swahili", "Kiswahili", "🇰🇪"),
      Language("am", "Amharic", "አማርኛ", "🇪🇹"),
      Language("ha", "Hausa", "Hausa", "🇳🇬"),
      Language("ig", "Igbo", "Igbo", "🇳🇬"),
      Language("yo", "Yoruba", "Yorùbá", "🇳🇬"),
      Language("zu", "Zulu", "isiZulu", "🇿🇦"),
      Language("xh", "Xhosa", "isiXhosa", "🇿🇦"),
      Language("af", "Afrikaans", "Afrikaans", "🇿🇦")
    ]

  /** SUPPORTED_LANGUAGES, in the source's order. */
  const SupportedLanguages: seq<Language> :=
    MajorLanguages + EuropeanLanguages + AsianLanguages + IndianLanguages + SoutheastAsianLanguages + AfricanLanguages

  /** The codes `isRTLLanguage` recognises. */
  const RtlCodes: seq<string> := ["ar", "he", "fa", "ur"]

  const GlobeFlag: string := "\U{1F310}"

  /** `langs.find(lang => lang.code === code)`: the first entry with that code, or `undefined`. */
  function FindByCode(langs: seq<Language>, code: string): (r: Option<Language>)
    ensures r.None? <==> forall i | 0 <= i < |langs| :: langs[i].code != code
    ensures r.Some? ==> exists i | 0 <= i < |langs| :: langs[i] == r.value
                          && r.value.code == code
                          && forall j | 0 <= j < i :: langs[j].code != code
  {
    if langs == [] then None
    else if langs[0].code == code then Some(langs[0])
    else
      var r := FindByCode(langs[1..], code);
      assert r.Some? ==> exists i | 1 <= i < |langs| :: langs[i] == r.value
                          && forall j | 0 <= j < i :: langs[j].code != code by {
        if r.Some? {
          var i :| 0 <= i < |langs[1..]| && langs[1..][i] == r.value
                   && forall j | 0 <= j < i :: langs[1..][j].code != code;
          assert langs[i + 1] == r.value;
          forall j | 0 <= j < i + 1 ensures langs[j].code != code {
            if j > 0 { assert langs[j] == langs[1..][j - 1]; }
          }
        }
      }
      r
  }

  /** `getLanguageByCode(code)` */
  function GetLanguageByCode(code: string): Option<Language> {
    FindByCode(SupportedLanguages, code)
  }

  /** `getLanguageName(code, native)` */
  function GetLanguageName(code: string, native: bool): string {
    match GetLanguageByCode(code)
    case Some(language) => if native then language.nativeName else language.name
    case None => ToUpper(code)
  }

  /** `getLanguageFlag(code)` */
  function GetLanguageFlag(code: string): string {
    match GetLanguageByCode(code)
    case Some(language) => language.flag
    case None => GlobeFlag
  }

  /** `isRTLLanguage(code)` */
  predicate IsRtlLanguage(code: string) {
    code in RtlCodes
  }

  /**
   * How a code is shown: by the first table entry carrying it (its English or
   * native name and its flag), and by its upper-cased self and the globe when
   * no entry carries it.
   */
  lemma LanguageDisplay(code: string, native: bool)
    ensures (forall i | 0 <= i < |SupportedLanguages| :: SupportedLanguages[i].code != code) ==>
              GetLanguageName(code, native) == ToUpper(code) && GetLanguageFlag(code) == GlobeFlag
    ensures forall i | 0 <= i < |SupportedLanguages| && SupportedLanguages[i].code == code
                       && (forall j | 0 <= j < i :: SupportedLanguages[j].code != code) ::
              && GetLanguageName(code, native) == (if native then SupportedLanguages[i].nativeName else SupportedLanguages[i].name)
              && GetLanguageFlag(code) == SupportedLanguages[i].flag
  {
    var r := GetLanguageByCode(code);
    if r.Some? {
      var k :| 0 <= k < |SupportedLanguages| && SupportedLanguages[k] == r.value && r.value.code == code
               && forall j | 0 <= j < k :: SupportedLanguages[j].code != code;
    }
  }

  /** Every right-to-left code is in the table, so the UI never shows it under the globe fallback. */
  lemma RtlCodesAreRegistered(code: string)
    requires IsRtlLanguage(code)
    ensures GetLanguageByCode(code).Some?
  {
    assert SupportedLanguages[10].code == "ar" && SupportedLanguages[31].code == "ur";
    assert SupportedLanguages[32].code == "fa" && SupportedLanguages[33].code == "he";
  }

  /** The first eleven codes of the table (en to ar) are found by lookup. */
  lemma MajorCodesAreRegistered(code: string)
    requires code in ["en", "es", "fr", "de", "it", "pt", "ru", "zh", "ja", "ko", "ar"]
    ensures GetLanguageByCode(code).Some?
  {
    var k :| 0 <= k < 11 && ["en", "es", "fr", "de", "it", "pt", "ru", "zh", "ja", "ko", "ar"][k] == code;
    assert SupportedLanguages[k] == MajorLanguages[k];
  }

  /** A code outside the table is shown by its upper-cased code and the globe. */
  lemma UnknownCodeFallsBack()
    ensures GetLanguageByCode("xx").None?
    ensures GetLanguageName("xx", false) == "XX" && GetLanguageName("xx", true) == "XX"
    ensures GetLanguageFlag("xx") == GlobeFlag
  {
    assert forall i | 0 <= i < |SupportedLanguages| :: SupportedLanguages[i].code != "xx";
  }

  /** Two lower-case ASCII letters. */
  predicate IsPlainCode(code: string) {
    |code| == 2 && 'a' <= code[0] <= 'z' && 'a' <= code[1] <= 'z'
  }

  lemma PlainCodeHasNoSeparators(code: string)
    requires IsPlainCode(code)
    ensures '-' !in code && ':' !in code
  {
    assert code == [code[0], code[1]];
  }

  predicate AllPlain(langs: seq<Language>) {
    forall i | 0 <= i < |langs| :: IsPlainCode(langs[i].code)
  }

  lemma AllPlainConcat(a: seq<Language>, b: seq<Language>)
    requires AllPlain(a) && AllPlain(b)
    ensures AllPlain(a + b)
  {
    forall i | 0 <= i < |a + b| ensures IsPlainCode((a + b)[i].code) {
      if i >= |a| { assert (a + b)[i] == b[i - |a|]; }
    }
  }

  lemma MajorPlain() ensures AllPlain(MajorLanguages) { }
  lemma EuropeanPlain() ensures AllPlain(EuropeanLanguages) { }
  lemma AsianPlain() ensures AllPlain(AsianLanguages) { }
  lemma IndianPlain() ensures AllPlain(IndianLanguages) { }
  lemma SoutheastAsianPlain() ensures AllPlain(SoutheastAsianLanguages) { }
  lemma AfricanPlain() ensures AllPlain(AfricanLanguages) { }

  /** Every code the table finds is two lower-case letters: no '-' and no ':' can occur in one. */
  lemma RegisteredCodesArePlain(code: string)
    requires GetLanguageByCode(code).Some?
    ensures IsPlainCode(code)
  {
    MajorPlain(); EuropeanPlain(); AsianPlain(); IndianPlain(); SoutheastAsianPlain(); AfricanPlain();
    AllPlainConcat(MajorLanguages, EuropeanLanguages);
    AllPlainConcat(MajorLanguages + EuropeanLanguages, AsianLanguages);
    AllPlainConcat(MajorLanguages + EuropeanLanguages + AsianLanguages, IndianLanguages);
    AllPlainConcat(MajorLanguages + EuropeanLanguages + AsianLanguages + IndianLanguages, SoutheastAsianLanguages);
    AllPlainConcat(MajorLanguages + EuropeanLanguages + AsianLanguages + IndianLanguages + SoutheastAsianLanguages, AfricanLanguages);
    var i :| 0 <= i < |SupportedLanguages| && SupportedLanguages[i].code == code;
  }
}
