/** The site header (src/components/layout/header/header.tsx): which
    navigation link is active, the language button that cycles the locale
    and rewrites the path, and the mobile menu. */
module Header {
  import opened Common

  datatype NavLink = NavLink(href: string, key: string)

  /** The navigation links, in display order. */
  const NavLinks: seq<NavLink> := [
    NavLink("/news", "news"),
    NavLink("/tournaments", "tournaments"),
    NavLink("/teams", "teams"),
    NavLink("/about", "about"),
    NavLink("/servers", "services")
  ]

  /** `pathname.replace(new RegExp(\`^/${locale}\`), '')`: one leading
      `/` + locale removed, if present. The locales are plain letters, so
      the pattern matches them literally. */
  function StripLocale(pathname: string, locale: string): (rest: string)
    ensures StartsWith(pathname, "/" + locale) ==> pathname == "/" + locale + rest
    ensures !StartsWith(pathname, "/" + locale) ==> rest == pathname
  {
    var prefix := "/" + locale;
    if StartsWith(pathname, prefix) then pathname[|prefix|..] else pathname
  }

  /** `isActive(href)` */
  function IsActive(pathname: string, locale: string, href: string): bool
  {
    var currentPath := StripLocale(pathname, locale);
    if href == "/" then currentPath == "/"
    else currentPath == href || StartsWith(currentPath, href + "/")
  }

  lemma StripLocalized(locale: string, rest: string)
    ensures StripLocale("/" + locale + rest, locale) == rest
  {
    var p := "/" + locale + rest;
    assert p[..|"/" + locale|] == "/" + locale;
  }

  /** A link other than `/` is active on its own page and on every page
      below it. */
  lemma ActiveOnSection(locale: string, href: string, sub: string)
    requires href != "/"
    ensures IsActive("/" + locale + href, locale, href)
    ensures IsActive("/" + locale + href + "/" + sub, locale, href)
  {
    StripLocalized(locale, href);
    StripLocalized(locale, href + "/" + sub);
    assert "/" + locale + (href + "/" + sub) == "/" + locale + href + "/" + sub;
    assert (href + "/" + sub)[..|href + "/"|] == href + "/";
  }

  /** A longer word sharing the link's prefix is another page. */
  lemma NewsNotActiveOnNewsletter(locale: string)
    ensures !IsActive("/" + locale + "/newsletter", locale, "/news")
  {
    StripLocalized(locale, "/newsletter");
    assert "/newsletter"[..6][5] == 'l' && ("/news" + "/")[5] == '/';
  }

  /** The bare locale path has an empty rest, which is not `/`; the home
      link is active only on `/` + locale + `/`. */
  lemma RootActivity(locale: string)
    ensures !IsActive("/" + locale, locale, "/")
    ensures IsActive("/" + locale + "/", locale, "/")
  {
    StripLocalized(locale, "");
    assert "/" + locale + "" == "/" + locale;
    StripLocalized(locale, "/");
  }

  /** The locales the button cycles through, in order. */
  const Locales: seq<string> := ["uz", "ru", "en"]

  /** `list.indexOf(x)`: the first position of `x`, or -1. */
  function IndexOf(list: seq<string>, x: string): (i: int)
    ensures -1 <= i < |list|
    ensures i == -1 <==> x !in list
    ensures i >= 0 ==> list[i] == x && forall j :: 0 <= j < i ==> list[j] != x
  {
    if |list| == 0 then -1
    else if list[0] == x then 0
    else
      var k := IndexOf(list[1..], x);
      if k == -1 then -1 else k + 1
  }

  /** `languages[(currentIndex + 1) % languages.length]` */
  function NextLocale(locale: string): string
  {
    Locales[(IndexOf(Locales, locale) + 1) % |Locales|]
  }

  /** The cycle is uz, ru, en and back to uz; anything else goes to uz. */
  lemma LocaleCycle(locale: string)
    ensures NextLocale("uz") == "ru" && NextLocale("ru") == "en" && NextLocale("en") == "uz"
    ensures locale !in Locales ==> NextLocale(locale) == "uz"
    ensures NextLocale(locale) in Locales
  {
    assert IndexOf(Locales, "uz") == 0;
    assert IndexOf(Locales, "ru") == 1;
    assert IndexOf(Locales, "en") == 2;
  }

  /** Three presses bring a known locale back. */
  lemma CycleReturns(locale: string)
    requires locale in Locales
    ensures NextLocale(NextLocale(NextLocale(locale))) == locale
  {
    LocaleCycle(locale);
  }

  /** `handleLanguageChange`: the path the router is sent to. */
  function LanguageChangeTarget(pathname: string, locale: string): string
  {
    "/" + NextLocale(locale) + StripLocale(pathname, locale)
  }

  /** Switching the language keeps the page: the new path is under the
      next locale, and stripping it gives the page the old path showed. */
  lemma LanguageChangeKeepsPage(pathname: string, locale: string)
    ensures StartsWith(LanguageChangeTarget(pathname, locale), "/" + NextLocale(locale))
    ensures StripLocale(LanguageChangeTarget(pathname, locale), NextLocale(locale)) == StripLocale(pathname, locale)
  {
    var next := NextLocale(locale);
    var rest := StripLocale(pathname, locale);
    StripLocalized(next, rest);
    assert LanguageChangeTarget(pathname, locale)[..|"/" + next|] == "/" + next;
  }

  /** The mobile menu. */
  class HeaderMenu {
    var isMenuOpen: bool

    constructor ()
      ensures !isMenuOpen
    {
      isMenuOpen := false;
    }

    /** `toggleMenu` */
    method Toggle()
      modifies this
      ensures isMenuOpen == !old(isMenuOpen)
    {
      isMenuOpen := !isMenuOpen;
    }

    /** `closeMenu`, run by the overlay and by every link in the menu. */
    method Close()
      modifies this
      ensures !isMenuOpen
    {
      isMenuOpen := false;
    }
  }
}
