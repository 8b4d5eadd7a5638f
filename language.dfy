// The interface language (contexts/LanguageContext.tsx): the device locale
// resolves to one of ten supported codes, falling back to English; the
// provider then applies a saved choice at load and saves every new choice
// before showing it. The platform locale lookup is a parameter, and the
// translations table is known only by its set of keys.

module Language {
  import opened Types
  import opened Text

  const LanguageKey: string := "@rvolution_language"
  const SupportedLanguages: seq<string> := ["fr", "en", "es", "de", "it", "pt", "nl", "ru", "zh", "ja"]
  const Fallback: string := "en"

  /** The separators of `split(/[-_]/)`. */
  predicate IsLocaleSeparator(c: char) {
    c == '-' || c == '_'
  }

  /** `s.split(/[-_]/)[0]`: the text before the first '-' or '_', or all of it. */
  function FirstSegment(s: string): (r: string)
    ensures |r| <= |s| && r == s[..|r|]
  {
    if s == [] || IsLocaleSeparator(s[0]) then [] else [s[0]] + FirstSegment(s[1..])
  }

  /** `deviceLanguage?.split(/[-_]/)[0]?.toLowerCase()`: nothing when there is no locale. */
  function LanguageCode(locale: Option<string>): Option<string> {
    match locale
    case None => None
    case Some(s) => Some(ToLowerAscii(FirstSegment(s)))
  }

  /** getDeviceLanguage, given the locale text the platform reports (if any). */
  function GetDeviceLanguage(locale: Option<string>): string {
    var code := LanguageCode(locale);
    if code.Some? && code.value != [] && code.value in SupportedLanguages then code.value else Fallback
  }

  // ---------------------------------------------------------------------
  // Properties of the locale resolution

  /** getDeviceLanguage always gives one of the ten supported codes. */
  lemma DeviceLanguageSupported(locale: Option<string>)
    ensures GetDeviceLanguage(locale) in SupportedLanguages
  {
  }

  lemma {:induction false} FirstSegmentOf(head: string, rest: string)
    requires forall i :: 0 <= i < |head| ==> !IsLocaleSeparator(head[i])
    requires rest == [] || IsLocaleSeparator(rest[0])
    ensures FirstSegment(head + rest) == head
  {
    if head != [] {
      assert (head + rest)[1..] == head[1..] + rest;
      FirstSegmentOf(head[1..], rest);
    } else {
      assert head + rest == rest;
    }
  }

  /**
   * The code is the part before the first separator, lower-cased: a locale
   * "<head>-<region>", "<head>_<region>" or just "<head>" resolves to the
   * lower-cased head when that is supported, and to "en" otherwise.
   */
  lemma ResolvesHead(head: string, rest: string)
    requires forall i :: 0 <= i < |head| ==> !IsLocaleSeparator(head[i])
    requires rest == [] || IsLocaleSeparator(rest[0])
    ensures GetDeviceLanguage(Some(head + rest)) ==
      if ToLowerAscii(head) in SupportedLanguages then ToLowerAscii(head) else Fallback
  {
    FirstSegmentOf(head, rest);
    ResolveCode(Some(head + rest), ToLowerAscii(head));
  }

  lemma ResolveCode(locale: Option<string>, code: string)
    requires LanguageCode(locale) == Some(code)
    ensures GetDeviceLanguage(locale) == if code in SupportedLanguages then code else Fallback
  {
    assert [] !in SupportedLanguages;
  }

  /** Every supported code is two lower-case ASCII letters. */
  lemma SupportedAreLowerPairs()
    ensures forall l :: l in SupportedLanguages ==> |l| == 2 && 'a' <= l[0] <= 'z' && 'a' <= l[1] <= 'z'
  {
    forall l | l in SupportedLanguages
      ensures |l| == 2 && 'a' <= l[0] <= 'z' && 'a' <= l[1] <= 'z'
    {
      var k :| 0 <= k < |SupportedLanguages| && SupportedLanguages[k] == l;
    }
  }

  /** No locale, or an empty one, gives "en". */
  lemma MissingLocaleFallsBack()
    ensures GetDeviceLanguage(None) == "en"
    ensures GetDeviceLanguage(Some("")) == "en"
  {
    assert FirstSegment("") == "";
  }

  /** A supported code resolves to itself, so resolving a resolved language changes nothing. */
  lemma SupportedResolvesToItself(lang: string)
    requires lang in SupportedLanguages
    ensures GetDeviceLanguage(Some(lang)) == lang
  {
    SupportedAreLowerPairs();
    FirstSegmentOf(lang, []);
    assert lang + [] == lang;
    LowerOfLower(lang);
    ResolveCode(Some(lang), lang);
  }

  lemma LowerOfLower(s: string)
    requires forall i :: 0 <= i < |s| ==> 'a' <= s[i] <= 'z'
    ensures ToLowerAscii(s) == s
  {
  }

  lemma ResolveIdempotent(locale: Option<string>)
    ensures GetDeviceLanguage(Some(GetDeviceLanguage(locale))) == GetDeviceLanguage(locale)
  {
    DeviceLanguageSupported(locale);
    SupportedResolvesToItself(GetDeviceLanguage(locale));
  }

  /** A regional locale gives its language: "fr-FR" gives "fr" and "de_DE" gives "de". */
  lemma RegionalLocaleExamples()
    ensures GetDeviceLanguage(Some("fr-FR")) == "fr"
    ensures GetDeviceLanguage(Some("de_DE")) == "de"
  {
    ResolvesHead("fr", "-FR");
    assert "fr" + "-FR" == "fr-FR";
    ResolvesHead("de", "_DE");
    assert "de" + "_DE" == "de_DE";
  }

  /** Case is ignored: "ZH" gives "zh". */
  lemma UpperCaseLocaleExample()
    ensures GetDeviceLanguage(Some("ZH")) == "zh"
  {
    ResolvesHead("ZH", "");
    assert "ZH" + "" == "ZH";
    assert ToLowerAscii("ZH") == "zh";
  }

  /** An unsupported language falls back: "ko-KR" gives "en". */
  lemma UnsupportedLocaleExample()
    ensures GetDeviceLanguage(Some("ko-KR")) == "en"
  {
    ResolvesHead("ko", "-KR");
    assert "ko" + "-KR" == "ko-KR";
  }

  // ---------------------------------------------------------------------
  // The provider's state updates as values

  /** `AsyncStorage.getItem(LANGUAGE_KEY)`: null when nothing is stored; a failed read is caught as no value. */
  function StoredLanguage(entries: map<string, string>, readFails: bool): Option<string> {
    if readFails || LanguageKey !in entries then None else Some(entries[LanguageKey])
  }

  /** loadLanguage: a saved value is applied only when it is non-empty and a key of the translations. */
  function AfterLoad(current: string, saved: Option<string>, translations: set<string>): string {
    if saved.Some? && saved.value != [] && saved.value in translations then saved.value else current
  }

  /** loadLanguage changes the language only to a saved, known language. */
  lemma LoadAppliesOnlyKnown(current: string, saved: Option<string>, translations: set<string>)
    ensures AfterLoad(current, saved, translations) != current ==>
      saved == Some(AfterLoad(current, saved, translations)) && AfterLoad(current, saved, translations) in translations
    ensures saved.Some? && saved.value != [] && saved.value in translations ==>
      AfterLoad(current, saved, translations) == saved.value
  {
  }

  /** When every translation is a supported code, the language stays a supported code. */
  lemma LoadKeepsSupported(current: string, saved: Option<string>, translations: set<string>)
    requires current in SupportedLanguages
    requires forall t :: t in translations ==> t in SupportedLanguages
    ensures AfterLoad(current, saved, translations) in SupportedLanguages
  {
  }

  /** A language saved with a successful write is the one the next successful load applies. */
  lemma SaveThenLoad(entries: map<string, string>, lang: string, current: string, translations: set<string>)
    requires lang in translations && lang != []
    ensures AfterLoad(current, StoredLanguage(entries[LanguageKey := lang], false), translations) == lang
  {
  }

  /** A failed read leaves the language the provider started with. */
  lemma FailedReadKeepsLanguage(entries: map<string, string>, current: string, translations: set<string>)
    ensures AfterLoad(current, StoredLanguage(entries, true), translations) == current
  {
  }

  // ---------------------------------------------------------------------
  // The provider

  /** The AsyncStorage entries holding plain strings; `readFails`/`writeFails` make getItem/setItem reject. */
  class SettingStore {
    var entries: map<string, string>
    var readFails: bool
    var writeFails: bool

    constructor (entries: map<string, string>, readFails: bool, writeFails: bool)
      ensures this.entries == entries && this.readFails == readFails && this.writeFails == writeFails
    {
      this.entries := entries;
      this.readFails := readFails;
      this.writeFails := writeFails;
    }
  }

  /** LanguageProvider's state: the `language` state variable, over a fixed translations table and store. */
  class LanguageProvider {
    var language: string
    const translations: set<string>
    const store: SettingStore

    /** `useState(getDeviceLanguage())`. */
    constructor (locale: Option<string>, translations: set<string>, store: SettingStore)
      ensures language == GetDeviceLanguage(locale) && language in SupportedLanguages
      ensures this.translations == translations && this.store == store
    {
      DeviceLanguageSupported(locale);
      language := GetDeviceLanguage(locale);
      this.translations := translations;
      this.store := store;
    }

    /** loadLanguage: read the saved choice; apply it only if the table knows it; a failed read changes nothing. */
    method LoadLanguage()
      modifies this`language
      ensures language == AfterLoad(old(language), StoredLanguage(store.entries, store.readFails), translations)
    {
      if store.readFails {
        return;
      }
      var savedLanguage: Option<string> := None;
      if LanguageKey in store.entries {
        savedLanguage := Some(store.entries[LanguageKey]);
      }
      if savedLanguage.Some? && savedLanguage.value != [] && savedLanguage.value in translations {
        language := savedLanguage.value;
      }
    }

    /** setLanguage: write the choice first; the language changes only when the write succeeds. */
    method SetLanguage(lang: string)
      requires lang in SupportedLanguages
      modifies this`language, store`entries
      ensures store.writeFails ==> language == old(language) && store.entries == old(store.entries)
      ensures !store.writeFails ==> language == lang && store.entries == old(store.entries)[LanguageKey := lang]
    {
      if store.writeFails {
        return;
      }
      store.entries := store.entries[LanguageKey := lang];
      language := lang;
    }
  }

  /** What useLanguage gives: the provider's value, or the error thrown outside any provider. */
  datatype HookResult = InProvider(language: string) | Thrown(message: string)

  const OutsideProviderMessage: string := "useLanguage must be used within a LanguageProvider"

  /** useLanguage, given the nearest provider's language, if there is one. */
  function UseLanguage(context: Option<string>): (r: HookResult)
    ensures r.Thrown? <==> context.None?
    ensures context.Some? ==> r == InProvider(context.value)
  {
    match context
    case None => Thrown(OutsideProviderMessage)
    case Some(language) => InProvider(language)
  }
}
