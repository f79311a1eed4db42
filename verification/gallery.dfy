/**
 The landing page's portfolio grid: a tab bar selects a category, and the
 grid shows the images of that category, or all of them for the `"all"` tab.
 */
module Gallery {
  import Seqs

  datatype Image = Image(id: int, url: string, category: string, title: string)

  /** The tab selected when the page first renders. */
  const InitialCategory: string := "all"

  /** The images the grid shows for the selected tab. */
  function FilteredImages(images: seq<Image>, selected: string): (r: seq<Image>)
    ensures selected == "all" ==> r == images
    ensures |r| <= |images|
    ensures selected != "all" ==> forall i :: 0 <= i < |r| ==> r[i].category == selected
    ensures forall i :: 0 <= i < |images| && images[i].category == selected ==> images[i] in r
    ensures forall i :: 0 <= i < |r| ==> r[i] in images
  {
    if selected == "all" then images
    else Seqs.Filter(images, (img: Image) => img.category == selected)
  }

  /** Whether `img` belongs on the grid for tab `selected`. */
  predicate Shown(img: Image, selected: string)
  {
    selected == "all" || img.category == selected
  }

  /** On first render the grid shows every image. */
  lemma InitialShowsAll(images: seq<Image>)
    ensures FilteredImages(images, InitialCategory) == images
  {
  }

  /**
   The grid keeps the page's order, and counting duplicates it holds each
   image exactly as often as the page does when the image is shown, and not
   at all otherwise: nothing of the selected category is dropped.
   */
  lemma FilteredExactly(images: seq<Image>, selected: string)
    ensures Seqs.Subseq(FilteredImages(images, selected), images)
    ensures forall img :: multiset(FilteredImages(images, selected))[img]
              == if Shown(img, selected) then multiset(images)[img] else 0
  {
    var p := (img: Image) => img.category == selected;
    if selected == "all" {
      Seqs.SubseqRefl(images);
    } else {
      Seqs.FilterIsSubseq(images, p);
      Seqs.FilterMultiset(images, p);
    }
  }

  /**
   The grid is the only order-preserving selection of the page's images that
   holds only shown images and as many as there are.
   */
  lemma FilteredUnique(images: seq<Image>, selected: string, r: seq<Image>)
    requires Seqs.Subseq(r, images)
    requires forall i :: 0 <= i < |r| ==> Shown(r[i], selected)
    requires |r| == Seqs.CountWhere(images, (img: Image) => Shown(img, selected))
    ensures r == FilteredImages(images, selected)
  {
    var p := (img: Image) => Shown(img, selected);
    Seqs.FilterUnique(images, p, r);
    if selected != "all" {
      assert Seqs.Filter(images, p) == Seqs.Filter(images, (img: Image) => img.category == selected) by {
        Seqs.FilterExtensional(images, p, (img: Image) => img.category == selected);
      }
    } else {
      Seqs.FilterAll(images, p);
    }
  }

  /** A tab that no image carries shows an empty grid. */
  lemma {:induction false} UnusedCategoryEmpty(images: seq<Image>, selected: string)
    requires selected != "all"
    requires forall i :: 0 <= i < |images| ==> images[i].category != selected
    ensures FilteredImages(images, selected) == []
  {
    if |images| > 0 {
      UnusedCategoryEmpty(images[1..], selected);
    }
  }
}
