/** The games grid (src/components/Cards/Pgames_card/Pgames.tsx): the
    description cut to a hundred characters, and three placeholders while
    the list is empty. */
module Pgames {
  import opened Common
  import Games

  const PlaceholderCount := 3
  const DescriptionLimit := 100

  /** `truncateDescription(description, maxLength)` */
  function TruncateDescription(description: string, maxLength: nat): (r: string)
    ensures |description| <= maxLength ==> r == description
    ensures |description| > maxLength ==> r == description[..maxLength] + "..." && |r| == maxLength + 3
    ensures StartsWith(r, description[..Min(|description|, maxLength)])
    ensures |r| <= maxLength + 3
  {
    if |description| > maxLength then description[..maxLength] + "..." else description
  }

  /** Cutting twice cuts once: a cut text is `maxLength` characters and the
      dots, and cutting it again gives the same characters and dots. */
  lemma TruncateIdempotent(description: string, maxLength: nat)
    ensures TruncateDescription(TruncateDescription(description, maxLength), maxLength) == TruncateDescription(description, maxLength)
  {
    if |description| > maxLength {
      var r := TruncateDescription(description, maxLength);
      assert r[..maxLength] == description[..maxLength];
    }
  }

  /** Two descriptions that agree on their first `maxLength` characters and
      are both too long show the same text. */
  lemma TruncateSeesOnlyPrefix(a: string, b: string, maxLength: nat)
    requires |a| > maxLength && |b| > maxLength && a[..maxLength] == b[..maxLength]
    ensures TruncateDescription(a, maxLength) == TruncateDescription(b, maxLength)
  {
  }

  /** One card of the grid. */
  datatype Card =
    | Placeholder(index: nat)
    | GameCard(id: int, name: string, imageUrl: string, description: string, href: string)

  /** The card of one game; it links to `/${locale}/games/${slug}`. */
  function GameCardOf(locale: string, g: Games.GameItem): (c: Card)
    ensures c.GameCard? && c.id == g.id && c.name == g.name && c.imageUrl == g.imageUrl
    ensures c.description == TruncateDescription(g.description, DescriptionLimit) && |c.description| <= DescriptionLimit + 3
    ensures c.href == "/" + locale + "/games/" + g.slug
  {
    GameCard(g.id, g.name, g.imageUrl, TruncateDescription(g.description, DescriptionLimit), "/" + locale + "/games/" + g.slug)
  }

  /** The grid: three placeholders for an empty list, else one card per
      game in order. */
  function Cards(locale: string, games: seq<Games.GameItem>): (cards: seq<Card>)
    ensures games == [] ==> cards == [Placeholder(0), Placeholder(1), Placeholder(2)]
    ensures games != [] ==> |cards| == |games| && forall i :: 0 <= i < |games| ==> cards[i] == GameCardOf(locale, games[i])
    ensures |cards| == if games == [] then PlaceholderCount else |games|
  {
    if |games| == 0 then seq(PlaceholderCount, (i: nat) => Placeholder(i))
    else seq(|games|, i requires 0 <= i < |games| => GameCardOf(locale, games[i]))
  }
}
