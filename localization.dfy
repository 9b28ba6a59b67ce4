/**
 * Locales, the translation table of error messages, and `%s` template
 * filling (the library's LocalizationManager and Locale).
 */
module Localization {
  import opened Text
  import opened ErrorKeys

  /** The two supported locales. */
  datatype Locale = EN | TR

  /** `Locale.toString()`: the constant's name, as sent in the `language` header. */
  function LocaleName(l: Locale): string {
    match l
    case EN => "EN"
    case TR => "TR"
  }

  /**
   * `Locale.fromCode`: the code is lower-cased and compared with "en" and
   * "tr"; every other code, the empty one included, falls back to English.
   * It never fails.
   */
  function FromCode(code: string): (l: Locale)
    ensures l == TR <==> Lower(code) == "tr"
    ensures l == EN <==> Lower(code) != "tr"
  {
    var c := Lower(code);
    if c == "en" then EN
    else if c == "tr" then TR
    else EN
  }

  /** Changing the case of a code does not change the locale it names. */
  lemma FromCodeIgnoresCase(code: string)
    ensures FromCode(Lower(code)) == FromCode(code)
  {
    LowerIdempotent(code);
  }

  lemma FromCodeExamples()
    ensures FromCode("en") == EN && FromCode("EN") == EN && FromCode("En") == EN
    ensures FromCode("tr") == TR && FromCode("TR") == TR
    ensures FromCode("") == EN && FromCode(" tr") == EN && FromCode("de") == EN
  {
    assert Lower("TR") == "tr";
    assert Lower("tr") == "tr";
    assert Lower(" tr") == " tr";
    assert Lower("en") == "en";
    assert Lower("EN") == "en";
    assert Lower("En") == "en";
  }

  /** The translation table: one message template per locale and key. CONNECTION_ERROR has no entry. */
  const Translations: map<Locale, map<ErrorKey, string>> := map[
    EN := map[
      UNAUTHORIZED := "Unauthorized access",
      NOT_FOUND := "Resource not found",
      SERVER_ERROR := "Server error occurred",
      UNKNOWN_ERROR := "Unknown error: %s",
      NETWORK_ERROR := "Network error: %s"
    ],
    TR := map[
      UNAUTHORIZED := "Yetkisiz erişim",
      NOT_FOUND := "Kaynak bulunamadı",
      SERVER_ERROR := "Sunucu hatası meydana geldi",
      UNKNOWN_ERROR := "Bilinmeyen hata: %s",
      NETWORK_ERROR := "Ağ hatası: %s"
    ]
  ]

  /** Both locales have a table, each with every key but CONNECTION_ERROR, and no message is "Unknown error". */
  lemma TranslationsCoverAllButConnection()
    ensures forall l: Locale :: l in Translations
    ensures forall l: Locale, k: ErrorKey :: l in Translations ==> (k in Translations[l] <==> k != CONNECTION_ERROR)
    ensures forall l: Locale, k: ErrorKey :: l in Translations && k in Translations[l] ==> Translations[l][k] != "Unknown error"
  {
    forall l: Locale
      ensures l in Translations
    {
      match l
      case EN =>
      case TR =>
    }
    assert Translations[EN].Keys == {UNAUTHORIZED, NOT_FOUND, SERVER_ERROR, UNKNOWN_ERROR, NETWORK_ERROR};
    assert Translations[TR].Keys == {UNAUTHORIZED, NOT_FOUND, SERVER_ERROR, UNKNOWN_ERROR, NETWORK_ERROR};
  }

  /**
   * The template for a key: the locale's table, or the English one for a
   * locale without a table; "Unknown error" for a key the table lacks.
   */
  function Template(locale: Locale, key: ErrorKey): (t: string)
    ensures t == "Unknown error" <==> key == CONNECTION_ERROR
  {
    TranslationsCoverAllButConnection();
    var english := Translations[EN];
    var table := if locale in Translations then Translations[locale] else english;
    if key in table then table[key] else "Unknown error"
  }

  lemma TemplateExamples()
    ensures Template(EN, UNAUTHORIZED) == "Unauthorized access"
    ensures Template(TR, NOT_FOUND) == "Kaynak bulunamadı"
    ensures Template(EN, UNKNOWN_ERROR) == "Unknown error: %s"
  {
  }

  /** The placeholder that format arguments fill. */
  const Placeholder: string := "%s"

  /**
   * The template after the arguments, in order, have each replaced the first
   * remaining placeholder (the specification of `FormatTemplate`).
   */
  function Formatted(template: string, args: seq<string>): string
    decreases |args|
  {
    if |args| == 0 then template
    else ReplaceFirst(Formatted(template, args[..|args| - 1]), Placeholder, args[|args| - 1])
  }

  /** `formatTemplate`: replaces the first `%s` by each argument in turn. */
  method FormatTemplate(template: string, args: seq<string>) returns (result: string)
    ensures result == Formatted(template, args)
  {
    result := template;
    for i := 0 to |args|
      invariant result == Formatted(template, args[..i])
    {
      assert args[..i + 1][..i] == args[..i];
      result := ReplaceFirst(result, Placeholder, args[i]);
    }
    assert args[..|args|] == args;
  }

  /**
   * `getLocalizedError`: the template for the key, filled with the arguments
   * when there are any and returned verbatim (literal `%s` included) when
   * there are none.
   */
  function GetLocalizedError(locale: Locale, key: ErrorKey, args: seq<string>): (r: string)
    ensures |args| == 0 ==> r == Template(locale, key)
    ensures |args| > 0 ==> r == Formatted(Template(locale, key), args)
  {
    var template := Template(locale, key);
    if |args| > 0 then Formatted(template, args) else template
  }

  /**
   * A text free of `%s` followed by `%s`: the first placeholder is the one
   * right after the text. A '%' ending the text cannot start one, since the
   * next character is '%' and not 's'.
   */
  lemma PlaceholderAfterFree(a: string, b: string)
    requires Free(a, Placeholder)
    ensures IndexOf(a + Placeholder + b, Placeholder) == |a|
  {
    var s := a + Placeholder + b;
    assert s[|a|..|a| + 2] == Placeholder;
    assert IsAt(s, Placeholder, |a|);
    forall j | 0 <= j < |a|
      ensures !IsAt(s, Placeholder, j)
    {
      if j + 2 <= |a| {
        assert s[j..j + 2] == a[j..j + 2];
        assert !IsAt(a, Placeholder, j);
      } else {
        assert s[j..j + 2][1] == s[|a|] == '%';
      }
    }
  }

  /** One argument fills the one placeholder: prefix, argument, suffix. */
  lemma FormatOnePlaceholder(pre: string, post: string, arg: string)
    requires Free(pre, Placeholder)
    ensures Formatted(pre + Placeholder + post, [arg]) == pre + arg + post
  {
    assert [arg][..0] == [];
    ReplaceFirstAfterFree(pre, post, arg);
  }

  lemma ReplaceFirstAfterFree(pre: string, post: string, arg: string)
    requires Free(pre, Placeholder)
    ensures ReplaceFirst(pre + Placeholder + post, Placeholder, arg) == pre + arg + post
  {
    var t := pre + Placeholder + post;
    PlaceholderAfterFree(pre, post);
    assert t[..|pre|] == pre;
    assert t[|pre| + 2..] == post;
  }

  /** A placeholder-free text has placeholder-free prefixes. */
  lemma FreePrefix(s: string, n: nat)
    requires n <= |s| && Free(s, Placeholder)
    ensures Free(s[..n], Placeholder)
  {
    forall j
      ensures !IsAt(s[..n], Placeholder, j)
    {
      if 0 <= j && j + 2 <= n {
        assert s[..n][j..j + 2] == s[j..j + 2];
        assert !IsAt(s, Placeholder, j);
      }
    }
  }

  /**
   * Two arguments fill two placeholders left to right, provided the text
   * before the second placeholder holds no other `%s` once the first
   * argument is in (the first argument may itself bring one in).
   */
  lemma FormatTwoPlaceholders(pre: string, mid: string, post: string, a: string, b: string)
    requires Free(pre + a + mid, Placeholder)
    ensures Formatted(pre + Placeholder + mid + Placeholder + post, [a, b]) == pre + a + mid + b + post
  {
    var t := pre + Placeholder + mid + Placeholder + post;
    assert [a, b][..1] == [a];
    assert [a][..0] == [];
    assert t == pre + Placeholder + (mid + Placeholder + post);
    assert (pre + a + mid)[..|pre|] == pre;
    FreePrefix(pre + a + mid, |pre|);
    ReplaceFirstAfterFree(pre, mid + Placeholder + post, a);
    var once := (pre + a + mid) + Placeholder + post;
    assert pre + a + (mid + Placeholder + post) == once;
    assert Formatted(t, [a]) == once;
    ReplaceFirstAfterFree(pre + a + mid, post, b);
    assert Formatted(t, [a, b]) == ReplaceFirst(once, Placeholder, b);
    assert (pre + a + mid) + b + post == pre + a + mid + b + post;
  }

  /**
   * Once no placeholder remains, further arguments change nothing (an
   * argument can bring a placeholder back, so the condition is on the text
   * reached so far).
   */
  lemma {:induction false} FormatExtraArgs(template: string, args: seq<string>, more: seq<string>)
    requires Free(Formatted(template, args), Placeholder)
    ensures Formatted(template, args + more) == Formatted(template, args)
    decreases |more|
  {
    if |more| > 0 {
      var init := more[..|more| - 1];
      FormatExtraArgs(template, args, init);
      assert (args + more)[..|args + more| - 1] == args + init;
    } else {
      assert args + more == args;
    }
  }
}
