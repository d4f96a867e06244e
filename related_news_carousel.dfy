/** The related-news carousel (src/components/Cards/RelatedNewsCarousel/RelatedNewsCarousel.tsx):
    how many cards a window width shows, the last index the carousel can
    scroll to, and the arrow buttons that move the index. */
module RelatedNewsCarousel {
  import opened Common

  /** The `itemsPerView` prop when none is given. */
  const DefaultItemsPerView := 3

  /** `handleResize`: one card up to 480 pixels, two up to 768, three up to
      1024, and the prop beyond. */
  function ItemsPerView(width: int, prop: int): (n: int)
    ensures width <= 480 ==> n == 1
    ensures 480 < width <= 768 ==> n == 2
    ensures 768 < width <= 1024 ==> n == 3
    ensures width > 1024 ==> n == prop
  {
    if width <= 480 then 1
    else if width <= 768 then 2
    else if width <= 1024 then 3
    else prop
  }

  /** `Math.max(0, news.length - responsiveItemsPerView)`: the index at
      which the last card is in view, never negative. */
  function MaxIndex(count: nat, perView: int): (m: int)
    ensures m >= 0
    ensures m == 0 <==> count <= perView
    ensures m > 0 ==> m + perView == count
  {
    Max(0, count - perView)
  }

  /** The carousel's state. */
  class Carousel {
    const count: nat
    const prop: int
    var perView: int
    var index: int

    /** The index never goes below zero. Whether it stays at most
        `MaxIndex` depends on the resizes, see `InView`. */
    ghost predicate Valid()
      reads this
    {
      index >= 0
    }

    /** The index is one the arrows can reach. */
    predicate InView()
      reads this
    {
      0 <= index <= MaxIndex(count, perView)
    }

    /** The first render: index 0, and the size picked for the current
        window. */
    constructor (count: nat, prop: int, width: int)
      ensures Valid() && InView()
      ensures this.count == count && this.prop == prop
      ensures index == 0 && perView == ItemsPerView(width, prop)
    {
      this.count := count;
      this.prop := prop;
      perView := ItemsPerView(width, prop);
      index := 0;
    }

    /** `canGoPrev` */
    function CanGoPrev(): bool
      reads this
    {
      index > 0
    }

    /** `canGoNext` */
    function CanGoNext(): bool
      reads this
    {
      index < MaxIndex(count, perView)
    }

    /** `handlePrev`: one step back, stopping at zero. */
    method Prev()
      requires Valid()
      modifies this
      ensures Valid()
      ensures index == Max(0, old(index) - 1)
      ensures old(InView()) ==> InView()
      ensures old(CanGoPrev()) ==> index == old(index) - 1
      ensures !old(CanGoPrev()) ==> index == old(index)
      ensures perView == old(perView)
    {
      index := Max(0, index - 1);
    }

    /** `handleNext`: one step on, stopping at `MaxIndex`. From any index
        the result is in view. */
    method Next()
      requires Valid()
      modifies this
      ensures Valid() && InView()
      ensures index == Min(MaxIndex(count, perView), old(index) + 1)
      ensures old(CanGoNext()) ==> index == old(index) + 1
      ensures old(InView()) && !old(CanGoNext()) ==> index == old(index)
      ensures perView == old(perView)
    {
      index := Min(MaxIndex(count, perView), index + 1);
    }

    /** The `resize` listener: a new card count per view; the index is kept
        as it was, not clamped to the new `MaxIndex`. */
    method Resize(width: int)
      requires Valid()
      modifies this
      ensures Valid()
      ensures perView == ItemsPerView(width, prop) && index == old(index)
    {
      perView := ItemsPerView(width, prop);
    }
  }

  /** Next then back restores an index that could move on. */
  lemma NextThenPrev(count: nat, perView: int, i: int)
    requires 0 <= i < MaxIndex(count, perView)
    ensures Max(0, Min(MaxIndex(count, perView), i + 1) - 1) == i
  {
  }

  /** Back then next restores an index that could move back. */
  lemma PrevThenNext(count: nat, perView: int, i: int)
    requires 0 < i <= MaxIndex(count, perView)
    ensures Min(MaxIndex(count, perView), Max(0, i - 1) + 1) == i
  {
  }

  /** Widening the window can leave the index past the new end: five cards
      at index 4 on a narrow screen, then a wide screen with three per view,
      whose last index is 2. The next arrow is then off, and pressing it
      would jump back to 2. */
  method ResizeLeavesIndexOutOfView() returns (c: Carousel)
    ensures c.count == 5 && c.index == 4 && c.perView == 3
    ensures !c.InView() && !c.CanGoNext() && c.CanGoPrev()
  {
    c := new Carousel(5, 3, 400);
    c.Next();
    c.Next();
    c.Next();
    c.Next();
    assert c.index == 4;
    c.Resize(1280);
  }
}
