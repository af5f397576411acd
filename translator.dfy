/** The translation service: the blank-text shortcut, the language-name lookup, the
    English shortcut, and the translator's answer or failure turned into a result.
    The Google translator is a parameter: `google(source, target, text)` is what
    `GoogleTranslator(source=source, target=target).translate(text)` comes to, a text
    or the description of the exception it raised. The language arguments are kept as
    the JSON values the request handler passes through, since the service does not
    check their type. */
module Translator {
  import opened Values

  /** The user-facing language names the service accepts, and their codes. */
  const LanguageMapping: map<string, string> := map[
    "english" := "en",
    "german" := "de",
    "spanish" := "es",
    "french" := "fr",
    "italian" := "it",
    "portuguese" := "pt",
    "russian" := "ru",
    "japanese" := "ja",
    "chinese" := "zh-CN",
    "arabic" := "ar",
    "hindi" := "hi"
  ]

  const ShortcutSource := "auto-detected (English)"
  const DetectedSource := "auto-detected"
  const FailurePrefix := "Translation error: "

  datatype TranslatorReply = Translated(text: string) | Failed(description: string)

  /** The dictionary `translate_text` returns. */
  datatype Translation = Translation(translatedText: string, sourceLanguage: Json, targetLanguage: Json, originalLength: nat)

  /** `to_lang` after the lookup: the code of a known name, in any letter case, and
      otherwise the argument unchanged. */
  function TargetCode(toLang: string): (code: string)
    ensures Lower(toLang) in LanguageMapping ==> code == LanguageMapping[Lower(toLang)] && code in LanguageMapping.Values
    ensures Lower(toLang) !in LanguageMapping ==> code == toLang
  {
    if Lower(toLang) in LanguageMapping then LanguageMapping[Lower(toLang)] else toLang
  }

  /** No code is itself a name, so looking a code up again leaves it as it is. */
  lemma TargetCodeIdempotent(toLang: string)
    ensures TargetCode(TargetCode(toLang)) == TargetCode(toLang)
  {
    var code := TargetCode(toLang);
    if Lower(toLang) in LanguageMapping {
      CodesAreNotNames(code);
    }
  }

  /** Lower-casing a code never gives one of the names. */
  lemma CodesAreNotNames(code: string)
    requires code in LanguageMapping.Values
    ensures Lower(code) !in LanguageMapping
  {
    assert code in {"en", "de", "es", "fr", "it", "pt", "ru", "ja", "zh-CN", "ar", "hi"};
    var l := Lower(code);
    if |code| == 2 {
      assert |l| == 2;
    } else {
      assert code == "zh-CN";
      assert l == "zh-cn";
    }
  }

  /** The lookup ignores letter case: a name written in capitals maps to the same code. */
  lemma TargetCodeIgnoresCase(toLang: string)
    requires Lower(toLang) in LanguageMapping
    ensures TargetCode(toLang) == TargetCode(Lower(toLang))
  {
    LowerIdempotent(toLang);
  }

  lemma LowerIdempotent(s: string)
    ensures Lower(Lower(s)) == Lower(s)
  {
  }

  /** `translate_text(text, from_lang, to_lang)`. */
  function TranslateText(text: string, fromLang: Json, toLang: Json, google: (Json, Json, string) -> TranslatorReply): (r: Attempt<Translation>)
    // blank text: an empty translation, both languages as given, length 0
    ensures IsBlank(text) ==> r == Returned(Translation("", fromLang, toLang, 0))
    // the name lookup calls `to_lang.lower()`, which only a string has
    ensures r.Raised? <==> !IsBlank(text) && !toLang.JStr?
    ensures r.Raised? ==> r.error.kind == "AttributeError"
    // the English shortcut returns the text itself and does not consult the translator
    ensures !IsBlank(text) && toLang.JStr? && TargetCode(toLang.s) == "en" && fromLang == JStr("auto") ==>
      r == Returned(Translation(text, JStr(ShortcutSource), JStr("en"), |text|))
    // otherwise the translator's answer, or its failure as data, about the mapped target
    ensures !IsBlank(text) && toLang.JStr? && !(TargetCode(toLang.s) == "en" && fromLang == JStr("auto")) ==>
      && r.Returned?
      && r.value.targetLanguage == JStr(TargetCode(toLang.s))
      && r.value.originalLength == |text|
      && (google(fromLang, JStr(TargetCode(toLang.s)), text).Translated? ==>
            && r.value.translatedText == google(fromLang, JStr(TargetCode(toLang.s)), text).text
            && r.value.sourceLanguage == (if fromLang == JStr("auto") then JStr(DetectedSource) else fromLang))
      && (google(fromLang, JStr(TargetCode(toLang.s)), text).Failed? ==>
            && r.value.translatedText == FailurePrefix + google(fromLang, JStr(TargetCode(toLang.s)), text).description
            && r.value.sourceLanguage == fromLang)
  {
    if IsBlank(text) then Returned(Translation("", fromLang, toLang, 0))
    else
      match toLang
      case JStr(t) =>
        var code := TargetCode(t);
        if code == "en" && fromLang == JStr("auto") then
          Returned(Translation(text, JStr(ShortcutSource), JStr("en"), |text|))
        else
          (match google(fromLang, JStr(code), text)
           case Translated(translated) =>
             var detected := if fromLang == JStr("auto") then JStr(DetectedSource) else fromLang;
             Returned(Translation(translated, detected, JStr(code), |text|))
           case Failed(description) =>
             Returned(Translation(FailurePrefix + description, fromLang, JStr(code), |text|)))
      case _ =>
        Raised(Exception("AttributeError", "'" + TypeName(toLang) + "' object has no attribute 'lower'"))
  }

  /** The result of the English shortcut is the same whatever the translator would say. */
  lemma ShortcutNeedsNoTranslator(text: string, toLang: string, g1: (Json, Json, string) -> TranslatorReply, g2: (Json, Json, string) -> TranslatorReply)
    requires TargetCode(toLang) == "en"
    ensures TranslateText(text, JStr("auto"), JStr(toLang), g1) == TranslateText(text, JStr("auto"), JStr(toLang), g2)
  {
  }

  /** Every name, in any letter case, is translated to its code; the only way to reach
      the English shortcut is an automatic source and English as the target. */
  lemma EnglishNamesShortcut(text: string, toLang: string, google: (Json, Json, string) -> TranslatorReply)
    requires !IsBlank(text) && (toLang == "en" || Lower(toLang) == "english")
    ensures TranslateText(text, JStr("auto"), JStr(toLang), google) == Returned(Translation(text, JStr(ShortcutSource), JStr("en"), |text|))
  {
    if toLang == "en" {
      assert Lower(toLang) == "en";
    }
  }
}
