/** The image carousel of a yacht's detail page: circular browsing and a zoom view. */
module ImageCarousel {
  import opened Wrappers

  /**
   * `(prev + 1) % images.length`. Indices are never negative, so the
   * remainder of JavaScript's `%` and Dafny's `%` agree here.
   */
  function NextIndex(i: nat, n: nat): (j: nat)
    requires n > 0
    ensures j < n
    ensures i < n - 1 ==> j == i + 1
    ensures i == n - 1 ==> j == 0
  {
    (i + 1) % n
  }

  /** `(prev - 1 + images.length) % images.length`; the dividend is never negative for `prev >= 0`. */
  function PrevIndex(i: nat, n: nat): (j: nat)
    requires n > 0
    ensures j < n
    ensures 0 < i <= n ==> j == i - 1
    ensures i == 0 ==> j == n - 1
  {
    (i - 1 + n) % n
  }

  /** Stepping back undoes stepping forward, and stepping forward undoes stepping back. */
  lemma PrevUndoesNext(i: nat, n: nat)
    requires i < n
    ensures PrevIndex(NextIndex(i, n), n) == i
    ensures NextIndex(PrevIndex(i, n), n) == i
  {
  }

  /** `k` steps forward from `i`. */
  function Advance(i: nat, n: nat, k: nat): (j: nat)
    requires n > 0
    ensures j < n || (k == 0 && j == i)
  {
    if k == 0 then i else NextIndex(Advance(i, n, k - 1), n)
  }

  /** Within one turn, `k` steps forward from `i` land on `i + k`, wrapping past the last image once. */
  lemma {:induction false} AdvanceWithinTurn(i: nat, n: nat, k: nat)
    requires i < n && k <= n
    ensures Advance(i, n, k) == if i + k < n then i + k else i + k - n
  {
    if k > 0 {
      AdvanceWithinTurn(i, n, k - 1);
    }
  }

  /** Going forward once per image comes back to the starting image. */
  lemma FullTurn(i: nat, n: nat)
    requires i < n
    ensures Advance(i, n, n) == i
  {
    AdvanceWithinTurn(i, n, n);
  }

  /** The zoom view's steps: nothing happens while no image is zoomed. */
  function ZoomNext(z: Option<nat>, n: nat): (r: Option<nat>)
    requires n > 0
    ensures z.None? ==> r.None?
    ensures z.Some? ==> r == Some(NextIndex(z.value, n))
  {
    if z.Some? then Some(NextIndex(z.value, n)) else None  // the `: 0` fallback inside the updater cannot be reached
  }

  function ZoomPrev(z: Option<nat>, n: nat): (r: Option<nat>)
    requires n > 0
    ensures z.None? ==> r.None?
    ensures z.Some? ==> r == Some(PrevIndex(z.value, n))
  {
    if z.Some? then Some(PrevIndex(z.value, n)) else None
  }

  /** The component's state: the images it was given, the shown index and the zoomed index (`null` as `None`). */
  class Carousel {
    var images: seq<string>
    var currentIndex: nat
    var zoomedIndex: Option<nat>

    /** The shown index is a position of the list (or 0 while the list is empty). */
    ghost predicate Valid()
      reads this
    {
      if |images| == 0 then currentIndex == 0 else currentIndex < |images|
    }

    constructor (images: seq<string>)
      ensures Valid()
      ensures this.images == images && currentIndex == 0 && zoomedIndex == None
    {
      this.images := images;
      currentIndex := 0;
      zoomedIndex := None;
    }

    /** A new image list resets the shown index to the first image; the zoom is left as it was. */
    method ImagesChanged(newImages: seq<string>)
      modifies this
      ensures Valid()
      ensures images == newImages && currentIndex == 0 && zoomedIndex == old(zoomedIndex)
    {
      images := newImages;
      currentIndex := 0;
    }

    /** The handlers exist only when there is at least one image: the component renders nothing otherwise. */
    method NextImage()
      requires Valid() && |images| > 0
      modifies this
      ensures Valid()
      ensures images == old(images) && zoomedIndex == old(zoomedIndex)
      ensures currentIndex == NextIndex(old(currentIndex), |images|)
    {
      currentIndex := (currentIndex + 1) % |images|;
    }

    method PrevImage()
      requires Valid() && |images| > 0
      modifies this
      ensures Valid()
      ensures images == old(images) && zoomedIndex == old(zoomedIndex)
      ensures currentIndex == PrevIndex(old(currentIndex), |images|)
    {
      currentIndex := (currentIndex - 1 + |images|) % |images|;
    }

    /** A thumbnail click shows that image. */
    method SelectThumbnail(index: nat)
      requires Valid() && index < |images|
      modifies this
      ensures Valid()
      ensures currentIndex == index && images == old(images) && zoomedIndex == old(zoomedIndex)
    {
      currentIndex := index;
    }

    method NextZoomedImage()
      requires Valid() && |images| > 0
      modifies this
      ensures Valid()
      ensures images == old(images) && currentIndex == old(currentIndex)
      ensures zoomedIndex == ZoomNext(old(zoomedIndex), |images|)
      ensures old(zoomedIndex).Some? ==> zoomedIndex.Some? && zoomedIndex.value < |images|
    {
      if zoomedIndex.Some? {
        zoomedIndex := Some((zoomedIndex.value + 1) % |images|);
      }
    }

    method PrevZoomedImage()
      requires Valid() && |images| > 0
      modifies this
      ensures Valid()
      ensures images == old(images) && currentIndex == old(currentIndex)
      ensures zoomedIndex == ZoomPrev(old(zoomedIndex), |images|)
      ensures old(zoomedIndex).Some? ==> zoomedIndex.Some? && zoomedIndex.value < |images|
    {
      if zoomedIndex.Some? {
        zoomedIndex := Some((zoomedIndex.value - 1 + |images|) % |images|);
      }
    }

    method OpenZoom(index: nat)
      requires Valid()
      modifies this
      ensures Valid()
      ensures zoomedIndex == Some(index) && images == old(images) && currentIndex == old(currentIndex)
    {
      zoomedIndex := Some(index);
    }

    method CloseZoom()
      requires Valid()
      modifies this
      ensures Valid()
      ensures zoomedIndex == None && images == old(images) && currentIndex == old(currentIndex)
    {
      zoomedIndex := None;
    }
  }
}
