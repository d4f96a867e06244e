/** The breadcrumb trail (src/components/ui/Breadcrumb.tsx): the items in
    order, a ` / ` separator between neighbours, and a link for every item
    with a target that is not the current page. */
module Breadcrumb {
  import opened Common

  /** `BreadcrumbItem`; a missing `isActive` is false. */
  datatype Item = Item(caption: string, href: Option<string>, isActive: bool)

  /** What the trail holds, left to right. */
  datatype Piece = Separator | Anchor(href: string, caption: string) | Plain(caption: string, active: bool)

  /** `item.href && !item.isActive`: an empty target counts as none. */
  predicate IsLink(item: Item)
  {
    item.href.Some? && item.href.value != "" && !item.isActive
  }

  /** The element drawn for one item. */
  function ElementOf(item: Item): (p: Piece)
    ensures p.Anchor? <==> IsLink(item)
    ensures p.Anchor? ==> p.href == item.href.value
    ensures p.Plain? ==> p.active == item.isActive
    ensures !p.Separator? && p.caption == item.caption
  {
    if IsLink(item) then Anchor(item.href.value, item.caption) else Plain(item.caption, item.isActive)
  }

  /** The items after the first: each behind a separator. */
  function Behind(items: seq<Item>): (ps: seq<Piece>)
    ensures |ps| == 2 * |items|
  {
    if |items| == 0 then [] else [Separator, ElementOf(items[0])] + Behind(items[1..])
  }

  /** `items.map(...)`: the first item, then every other one behind a
      separator. */
  function Trail(items: seq<Item>): seq<Piece>
  {
    if |items| == 0 then [] else [ElementOf(items[0])] + Behind(items[1..])
  }

  lemma {:induction false} BehindAt(items: seq<Item>, i: nat)
    requires i < |items|
    ensures Behind(items)[2 * i] == Separator
    ensures Behind(items)[2 * i + 1] == ElementOf(items[i])
    decreases |items|
  {
    if i > 0 {
      BehindAt(items[1..], i - 1);
    }
  }

  /** The trail alternates: item `i` at position `2i`, a separator before
      it for every `i > 0`, so the items keep their order and there are
      `n - 1` separators. */
  lemma TrailLayout(items: seq<Item>)
    requires |items| > 0
    ensures |Trail(items)| == 2 * |items| - 1
    ensures forall i :: 0 <= i < |items| ==> Trail(items)[2 * i] == ElementOf(items[i])
    ensures forall i :: 0 < i < |items| ==> Trail(items)[2 * i - 1] == Separator
  {
    var t := Trail(items);
    forall i | 0 < i < |items|
      ensures t[2 * i] == ElementOf(items[i]) && t[2 * i - 1] == Separator
    {
      BehindAt(items[1..], i - 1);
    }
  }

  /** The number of separators in a list of pieces. */
  function Separators(ps: seq<Piece>): nat
  {
    if |ps| == 0 then 0 else (if ps[0].Separator? then 1 else 0) + Separators(ps[1..])
  }

  lemma {:induction false} BehindSeparators(items: seq<Item>)
    ensures Separators(Behind(items)) == |items|
    decreases |items|
  {
    if |items| > 0 {
      var ps := Behind(items);
      BehindSeparators(items[1..]);
      assert ps[1..][1..] == Behind(items[1..]);
    }
  }

  /** A trail of `n` items holds `n - 1` separators, none for an empty
      one. */
  lemma SeparatorCount(items: seq<Item>)
    ensures Separators(Trail(items)) == if |items| == 0 then 0 else |items| - 1
  {
    if |items| > 0 {
      BehindSeparators(items[1..]);
      assert Trail(items)[1..] == Behind(items[1..]);
    }
  }

  /** The current page is never a link, even when it has a target, and is
      the only kind of plain element drawn active. */
  lemma ActiveNeverLinks(item: Item)
    ensures item.isActive ==> ElementOf(item) == Plain(item.caption, true)
    ensures ElementOf(item).Plain? && ElementOf(item).active ==> item.isActive
  {
  }
}
