/** The language switcher of `components/LanguageSwitcher.jsx` and the
    shared translation instance it drives: the language selected in the
    switcher, the stored choice (local storage key "neom-language"), and the
    translation instance's language, which may be unset. */
module LanguageSwitcher {
  import opened Wrappers

  /** The languages the switcher offers, by code and name. */
  const Languages: seq<(string, string)> := [("en", "English"), ("ar", "العربية")]

  /** The codes offered: English and Arabic, in that order. */
  function Codes(): (cs: seq<string>)
    ensures cs == ["en", "ar"]
  {
    [Languages[0].0, Languages[1].0]
  }

  /** The translation instance: its current language. */
  class I18n {
    var language: Option<string>

    constructor (language: Option<string>)
      ensures this.language == language
    {
      this.language := language;
    }

    /** `i18n.changeLanguage(code)`. */
    method ChangeLanguage(code: string)
      modifies this
      ensures language == Some(code)
    {
      language := Some(code);
    }
  }

  /** `storedLang || i18n.language || "ar"`. */
  function InitialLang(stored: Option<string>, current: Option<string>): (l: string)
    ensures Truthy(stored) ==> l == stored.value
    ensures !Truthy(stored) && Truthy(current) ==> l == current.value
    ensures !Truthy(stored) && !Truthy(current) ==> l == "ar"
  {
    if Truthy(stored) then stored.value else if Truthy(current) then current.value else "ar"
  }

  /** The mount effect switches the translation instance only for a stored
      choice that differs from its language. */
  predicate SwitchesOnInit(stored: Option<string>, current: Option<string>) {
    Truthy(stored) && Some(stored.value) != current
  }

  class Switcher {
    var currentLang: string
    /** The local storage entry "neom-language". */
    var stored: Option<string>

    /** The first render shows Arabic. */
    constructor (stored: Option<string>)
      ensures currentLang == "ar" && this.stored == stored
    {
      currentLang := "ar";
      this.stored := stored;
    }

    /** `changeLanguage(code)`: switches the translation instance, selects
        the code and stores it. */
    method ChangeLanguage(i18n: I18n, code: string)
      modifies i18n, this`currentLang, this`stored
      ensures i18n.language == Some(code)
      ensures currentLang == code && stored == Some(code)
    {
      i18n.ChangeLanguage(code);
      currentLang := code;
      stored := Some(code);
    }

    /** The mount effect: selects the stored choice, else the translation
        instance's language, else Arabic; switches the translation instance
        to the stored choice only when there is one and it differs. */
    method Initialize(i18n: I18n)
      modifies i18n, this`currentLang
      ensures currentLang == InitialLang(stored, old(i18n.language))
      ensures i18n.language == if SwitchesOnInit(stored, old(i18n.language))
                               then Some(stored.value) else old(i18n.language)
    {
      var storedLang := stored;
      var initialLang := InitialLang(storedLang, i18n.language);
      if Truthy(storedLang) && Some(storedLang.value) != i18n.language {
        i18n.ChangeLanguage(storedLang.value);
      }
      currentLang := initialLang;
    }

    /** The `languageChanged` listener. */
    method OnLanguageChanged(lng: string)
      modifies this`currentLang
      ensures currentLang == lng
    {
      currentLang := lng;
    }
  }

  /** After mounting, the switcher and the translation instance agree,
      unless neither a stored choice nor the instance's language was set; in
      that case the switcher shows Arabic and the instance is left as it
      was. */
  lemma InitAgreement(stored: Option<string>, current: Option<string>)
    ensures var after := if SwitchesOnInit(stored, current) then Some(stored.value) else current;
      (Truthy(stored) || Truthy(current) ==> after == Some(InitialLang(stored, current)))
      && (!Truthy(stored) && !Truthy(current) ==> after == current && InitialLang(stored, current) == "ar")
  {
  }
}
