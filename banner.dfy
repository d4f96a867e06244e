/** The home-page banner rotation (src/components/banners/Banner.tsx): at
    most three banners take turns, a timer moves to the next one, and a
    dot shows and selects each. */
module Banner {
  import opened Common

  datatype BannerItem = BannerItem(title: string, description: string, imageUrl: string, url: string)

  /** `banners.length > 3 ? 3 : banners.length` */
  function BannerCount(n: nat): (c: nat)
    ensures c == Min(3, n)
    ensures c <= 3 && c <= n
  {
    if n > 3 then 3 else n
  }

  /** `banners.slice(0, 3).map((_, dotIndex) => ...)`: the dot indices. */
  function Dots(n: nat): (dots: seq<nat>)
    ensures |dots| == BannerCount(n)
    ensures forall k :: 0 <= k < |dots| ==> dots[k] == k
  {
    seq(BannerCount(n), k => k)
  }

  /** The timer's step, `(prev + 1) % bannerCount`. */
  function Advance(i: nat, c: nat): (j: nat)
    requires c > 0
    ensures j < c
    ensures i + 1 < c ==> j == i + 1
    ensures i + 1 == c ==> j == 0
  {
    (i + 1) % c
  }

  /** `k` ticks of the timer. */
  function AdvanceBy(i: nat, c: nat, k: nat): nat
    requires c > 0
  {
    if k == 0 then i else Advance(AdvanceBy(i, c, k - 1), c)
  }

  /** Within one turn, `k` ticks move `k` banners on, wrapping once. */
  lemma {:induction false} AdvanceByWraps(i: nat, c: nat, k: nat)
    requires c > 0 && i < c && k <= c
    ensures AdvanceBy(i, c, k) == if i + k < c then i + k else i + k - c
  {
    if k > 0 {
      AdvanceByWraps(i, c, k - 1);
    }
  }

  /** After `bannerCount` ticks the same banner is shown again. */
  lemma FullRotation(i: nat, c: nat)
    requires c > 0 && i < c
    ensures AdvanceBy(i, c, c) == i
  {
    AdvanceByWraps(i, c, c);
  }

  /** The carousel's state. */
  class BannerCarousel {
    const banners: seq<BannerItem>
    var index: nat

    /** The index is always a banner that has a dot (or 0 when there is no
        banner at all). */
    ghost predicate Valid()
      reads this
    {
      index == 0 || index < BannerCount(|banners|)
    }

    constructor (banners: seq<BannerItem>)
      ensures Valid()
      ensures this.banners == banners && index == 0
    {
      this.banners := banners;
      index := 0;
    }

    /** The interval runs only when there is more than one banner to show. */
    function Rotating(): bool
      reads this
    {
      BannerCount(|banners|) > 1
    }

    /** A timer tick: the next of the first `bannerCount` banners, wrapping
        to the first; with at most one banner there is no timer. */
    method Tick()
      requires Valid()
      modifies this
      ensures Valid()
      ensures Rotating() ==> index == Advance(old(index), BannerCount(|banners|))
      ensures !Rotating() ==> index == old(index)
    {
      var c := BannerCount(|banners|);
      if c > 1 {
        index := (index + 1) % c;
      }
    }

    /** `handleDotClick`: the clicked dot's banner is shown. */
    method DotClick(dot: nat)
      requires dot in Dots(|banners|)
      modifies this
      ensures Valid()
      ensures index == dot
    {
      index := dot;
    }

    /** A dot is drawn active exactly for the current index. */
    function DotActive(dot: nat): bool
      reads this
    {
      dot == index
    }

    /** The banner drawn; the component needs at least one. */
    function Current(): (b: BannerItem)
      requires Valid() && |banners| > 0
      reads this
      ensures b in banners[..BannerCount(|banners|)]
      ensures DotActive(index) && forall d :: d in Dots(|banners|) && DotActive(d) ==> d == index
    {
      banners[index]
    }
  }
}
