/** The language drop-down (src/components/ui/LanguageSwitcher.tsx): the
    language list, the path a choice leads to, the name shown for the
    current locale, and the open/closed state. */
module LanguageSwitcher {
  import opened Common
  import Header

  datatype Language = Language(code: string, name: string)

  /** The choices, in display order. */
  const Languages: seq<Language> := [
    Language("uz", "O\U{02BB}zbekcha"),
    Language("ru", "\U{0420}\U{0443}\U{0441}\U{0441}\U{043A}\U{0438}\U{0439}"),
    Language("en", "English")
  ]

  /** `changeLang(lng)`: the path the router is sent to. */
  function ChangeLangTarget(pathname: string, locale: string, lng: string): string
  {
    "/" + lng + Header.StripLocale(pathname, locale)
  }

  /** Choosing a language keeps the page, and the header's cycling button
      leads where choosing its next locale here would. */
  lemma ChangeLangKeepsPage(pathname: string, locale: string, lng: string)
    ensures StartsWith(ChangeLangTarget(pathname, locale, lng), "/" + lng)
    ensures Header.StripLocale(ChangeLangTarget(pathname, locale, lng), lng) == Header.StripLocale(pathname, locale)
    ensures Header.LanguageChangeTarget(pathname, locale) == ChangeLangTarget(pathname, locale, Header.NextLocale(locale))
  {
    var rest := Header.StripLocale(pathname, locale);
    Header.StripLocalized(lng, rest);
    assert ChangeLangTarget(pathname, locale, lng)[..|"/" + lng|] == "/" + lng;
  }

  /** `languages.find(lang => lang.code === locale)?.name` */
  function CurrentName(languages: seq<Language>, locale: string): (name: Option<string>)
    ensures name.None? <==> forall i :: 0 <= i < |languages| ==> languages[i].code != locale
    ensures name.Some? ==>
      exists i :: 0 <= i < |languages| && languages[i].code == locale && languages[i].name == name.value
        && forall j :: 0 <= j < i ==> languages[j].code != locale
  {
    if |languages| == 0 then None
    else if languages[0].code == locale then Some(languages[0].name)
    else
      var rest := CurrentName(languages[1..], locale);
      assert forall i :: 1 <= i < |languages| ==> languages[1..][i - 1] == languages[i];
      rest
  }

  /** The codes are distinct, so a known locale marks exactly one item
      active (`locale === lang.code`) and gives the name shown; an unknown
      locale marks none and shows no name. */
  lemma ActiveItem(locale: string)
    ensures (exists i :: 0 <= i < |Languages| && Languages[i].code == locale) <==> locale in Header.Locales
    ensures forall i, j :: 0 <= i < |Languages| && 0 <= j < |Languages| && Languages[i].code == locale && Languages[j].code == locale ==> i == j
    ensures CurrentName(Languages, locale).Some? <==> locale in Header.Locales
    ensures locale == "en" ==> CurrentName(Languages, locale) == Some("English")
  {
    assert Languages[0].code == "uz" && Languages[1].code == "ru" && Languages[2].code == "en";
  }

  /** The drop-down. */
  class Switcher {
    var isOpen: bool

    constructor ()
      ensures !isOpen
    {
      isOpen := false;
    }

    /** The trigger button. */
    method Toggle()
      modifies this
      ensures isOpen == !old(isOpen)
    {
      isOpen := !isOpen;
    }

    /** `changeLang`: the path pushed; the drop-down always closes. */
    method ChangeLang(pathname: string, locale: string, lng: string) returns (target: string)
      modifies this
      ensures target == ChangeLangTarget(pathname, locale, lng)
      ensures !isOpen
    {
      var currentPath := Header.StripLocale(pathname, locale);
      target := "/" + lng + currentPath;
      isOpen := false;
    }

    /** The `mousedown` listener: a press outside the drop-down closes it,
        one inside changes nothing. */
    method MouseDown(inside: bool)
      modifies this
      ensures isOpen == (old(isOpen) && inside)
    {
      if !inside {
        isOpen := false;
      }
    }
  }
}
