/** The screenshot gallery of a project page: one selected index moved by the
    arrow buttons (wrapping around at both ends) and set directly by the
    thumbnails and dots. */
module ProjectGallery {
  import opened Wrappers
  import opened Projects
  import Text

  /** An image with its optional `label`, called `caption` here because
      `label` is a reserved word in Dafny. */
  datatype ProjectImage = ProjectImage(url: string, caption: Option<string>)

  /** The left arrow: from the first image to the last, otherwise one back. */
  function PrevIndex(i: nat, n: nat): (j: nat)
    requires i < n
    ensures j < n && (j + 1) % n == i
  {
    if i == 0 then
      assert (n - 1 + 1) % n == 0 by { assert n - 1 + 1 == n; }
      n - 1
    else
      assert (i - 1 + 1) % n == i % n == i;
      i - 1
  }

  /** The right arrow: from the last image to the first, otherwise one on. */
  function NextIndex(i: nat, n: nat): (j: nat)
    requires i < n
    ensures j < n && j == (i + 1) % n
  {
    if i == n - 1 then
      assert (i + 1) % n == n % n == 0;
      0
    else
      assert (i + 1) % n == i + 1;
      i + 1
  }

  /** The right arrow undoes the left one. */
  lemma NextOfPrev(i: nat, n: nat)
    requires i < n
    ensures NextIndex(PrevIndex(i, n), n) == i
  {
  }

  /** The left arrow undoes the right one. */
  lemma PrevOfNext(i: nat, n: nat)
    requires i < n
    ensures PrevIndex(NextIndex(i, n), n) == i
  {
  }

  /** The index after `k` presses of the right arrow. */
  function NextTimes(i: nat, n: nat, k: nat): (j: nat)
    requires i < n
    ensures j < n
  {
    if k == 0 then i else NextIndex(NextTimes(i, n, k - 1), n)
  }

  /** Pressing `a` times and then `b` times is pressing `a + b` times. */
  lemma {:induction false} NextTimesAdd(i: nat, n: nat, a: nat, b: nat)
    requires i < n
    ensures NextTimes(i, n, a + b) == NextTimes(NextTimes(i, n, a), n, b)
    decreases b
  {
    if b > 0 {
      NextTimesAdd(i, n, a, b - 1);
    }
  }

  /** Until the end of the list is reached, `k` presses advance the index by `k`. */
  lemma {:induction false} NextTimesAhead(i: nat, n: nat, k: nat)
    requires i + k < n
    ensures NextTimes(i, n, k) == i + k
    decreases k
  {
    if k > 0 {
      NextTimesAhead(i, n, k - 1);
    }
  }

  /** Pressing the right arrow once per image comes back to the start. */
  lemma FullTurn(i: nat, n: nat)
    requires i < n
    ensures NextTimes(i, n, n) == i
  {
    NextTimesAdd(i, n, n - 1 - i, i + 1);
    NextTimesAhead(i, n, n - 1 - i);
    NextTimesAdd(n - 1, n, 1, i);
    NextTimesAhead(0, n, i);
  }

  /** So the right arrow cycles with period `n`. */
  lemma NextTimesPeriodic(i: nat, n: nat, k: nat)
    requires i < n
    ensures NextTimes(i, n, n + k) == NextTimes(i, n, k)
  {
    NextTimesAdd(i, n, n, k);
    FullTurn(i, n);
  }

  /** `image.label || fallback`: the label unless it is null or empty. */
  function AltText(caption: Option<string>, fallback: string): (alt: string)
    ensures Truthy(caption) ==> alt == caption.value
    ensures !Truthy(caption) ==> alt == fallback
  {
    if Truthy(caption) then caption.value else fallback
  }

  /** The alt text of the main image without a caption. */
  const MAIN_FALLBACK: string := "Project screenshot"

  /** The alt text of the thumbnail at `index`: its caption, or `Thumbnail`
      followed by its position counted from one. */
  function ThumbnailAlt(caption: Option<string>, index: nat): (alt: string)
    ensures !Truthy(caption) ==> alt == "Thumbnail " + Text.NatToString(index + 1)
    ensures !Truthy(caption) ==> Text.DecimalValue(alt[|"Thumbnail "|..]) == index + 1
    ensures Truthy(caption) ==> alt == caption.value
  {
    Text.DecimalRoundTrip(index + 1);
    var fallback := "Thumbnail " + Text.NatToString(index + 1);
    assert fallback[|"Thumbnail "|..] == Text.NatToString(index + 1);
    AltText(caption, fallback)
  }

  /** One thumbnail button: the image, its alt text, its caption overlay and
      whether it is the selected one. */
  datatype Thumbnail = Thumbnail(src: string, alt: string, overlay: Option<string>, selected: bool)

  /** What the gallery renders for a non-empty list. */
  datatype View = View(
    mainSrc: string,
    mainAlt: string,
    captionBadge: Option<string>,
    arrows: bool,
    thumbnails: seq<Thumbnail>,
    dots: seq<bool>)

  /** The label overlay of an image, shown when its label is truthy. */
  function Overlay(caption: Option<string>): (c: Option<string>)
    ensures c.Some? <==> Truthy(caption)
    ensures c.Some? ==> c == caption
  {
    if Truthy(caption) then caption else None
  }

  /** `ProjectGallery`: nothing for an empty list; otherwise the selected
      image, and the arrows, the thumbnail strip and the dots only when there
      is more than one image. */
  function Render(images: seq<ProjectImage>, selected: nat): (v: Option<View>)
    requires |images| > 0 ==> selected < |images|
    ensures v.None? <==> |images| == 0
    ensures v.Some? ==> v.value.mainSrc == images[selected].url
    ensures v.Some? ==> v.value.mainAlt == AltText(images[selected].caption, MAIN_FALLBACK)
    ensures v.Some? ==> v.value.captionBadge == Overlay(images[selected].caption)
    ensures v.Some? ==> (v.value.arrows <==> |images| > 1)
    ensures v.Some? && |images| == 1 ==> v.value.thumbnails == [] && v.value.dots == []
    ensures v.Some? && |images| > 1 ==> |v.value.thumbnails| == |images| && |v.value.dots| == |images|
    ensures v.Some? ==> forall k :: 0 <= k < |v.value.thumbnails| ==>
      v.value.thumbnails[k] == Thumbnail(images[k].url, ThumbnailAlt(images[k].caption, k), Overlay(images[k].caption), k == selected)
    ensures v.Some? ==> forall k :: 0 <= k < |v.value.dots| ==> (v.value.dots[k] <==> k == selected)
  {
    if |images| == 0 then None
    else
      var image := images[selected];
      var many := |images| > 1;
      var thumbs := if many then seq(|images|, k requires 0 <= k < |images| =>
        Thumbnail(images[k].url, ThumbnailAlt(images[k].caption, k), Overlay(images[k].caption), k == selected)) else [];
      var dots := if many then seq(|images|, k requires 0 <= k < |images| => k == selected) else [];
      Some(View(image.url, AltText(image.caption, MAIN_FALLBACK), Overlay(image.caption), many, thumbs, dots))
  }

  /** With several images exactly one thumbnail and exactly one dot are
      highlighted: those of the selected image. */
  lemma OneHighlight(images: seq<ProjectImage>, selected: nat)
    requires |images| > 1 && selected < |images|
    ensures var v := Render(images, selected).value;
      v.thumbnails[selected].selected && v.dots[selected] &&
      forall k :: 0 <= k < |images| && k != selected ==> !v.thumbnails[k].selected && !v.dots[k]
  {
  }

  /** The gallery component's state. `images` is the prop; `selectedImage`
      starts at 0. */
  class Gallery {
    const images: seq<ProjectImage>
    var selectedImage: nat

    /** The selected index names an image whenever there is one. */
    predicate Valid()
      reads this
    {
      |images| > 0 ==> selectedImage < |images|
    }

    /** The gallery as currently rendered. */
    function Current(): (v: Option<View>)
      reads this
      requires Valid()
      ensures v.None? <==> |images| == 0
      ensures v.Some? ==> v.value.mainSrc == images[selectedImage].url
    {
      Render(images, selectedImage)
    }

    constructor (images: seq<ProjectImage>)
      ensures this.images == images && selectedImage == 0
      ensures Valid()
    {
      this.images := images;
      selectedImage := 0;
    }

    /** The left arrow. */
    method Previous()
      requires Valid() && |images| > 0
      modifies this
      ensures Valid()
      ensures selectedImage == PrevIndex(old(selectedImage), |images|)
    {
      selectedImage := if selectedImage == 0 then |images| - 1 else selectedImage - 1;
    }

    /** The right arrow. */
    method Next()
      requires Valid() && |images| > 0
      modifies this
      ensures Valid()
      ensures selectedImage == NextIndex(old(selectedImage), |images|)
    {
      selectedImage := if selectedImage == |images| - 1 then 0 else selectedImage + 1;
    }

    /** A thumbnail or a dot. */
    method Select(index: nat)
      requires index < |images|
      modifies this
      ensures Valid()
      ensures selectedImage == index
    {
      selectedImage := index;
    }
  }

  /** A session on a three-image gallery: back from the first image goes to
      the last, forward again returns to the first, and a thumbnail jumps. */
  method ArrowSession(a: ProjectImage, b: ProjectImage, c: ProjectImage) returns (afterPrev: nat, afterNext: nat, afterSelect: nat)
    ensures afterPrev == 2 && afterNext == 0 && afterSelect == 1
  {
    var g := new Gallery([a, b, c]);
    g.Previous();
    afterPrev := g.selectedImage;
    g.Next();
    afterNext := g.selectedImage;
    g.Select(1);
    afterSelect := g.selectedImage;
  }
}
