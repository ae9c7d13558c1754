/**
 * The loop that writes one page element per image into the viewer page: the
 * first and the last page get the stiff-cover class `turn-page hard`, every
 * other page the plain class `turn-page`.
 */
module Markup {

  const HARD_CLASS: string := "turn-page hard"
  const PLAIN_CLASS: string := "turn-page"

  function PageClass(i: nat, n: nat): string {
    if i == 0 || i == n - 1 then HARD_CLASS else PLAIN_CLASS
  }

  function PageDiv(cssClass: string, image: string): string {
    "  <div class=\"" + cssClass + "\"><img src=\"pages/" + image + "\"></div>\n"
  }

  /** The page elements, in image order. */
  function PageDivs(images: seq<string>): seq<string> {
    seq(|images|, i requires 0 <= i < |images| => PageDiv(PageClass(i, |images|), images[i]))
  }

  function Concat(parts: seq<string>): string {
    if parts == [] then [] else Concat(parts[..|parts| - 1]) + parts[|parts| - 1]
  }

  /** The `html +=` loop over `enumerate(images)`. */
  method RenderPages(images: seq<string>) returns (html: string)
    ensures html == Concat(PageDivs(images))
  {
    html := [];
    var i := 0;
    while i < |images|
      invariant 0 <= i <= |images|
      invariant html == Concat(PageDivs(images)[..i])
    {
      var cssClass := if i == 0 || i == |images| - 1 then HARD_CLASS else PLAIN_CLASS;
      html := html + PageDiv(cssClass, images[i]);
      assert PageDivs(images)[..i + 1][..i] == PageDivs(images)[..i];
      i := i + 1;
    }
    assert PageDivs(images)[..|images|] == PageDivs(images);
  }

  /** The pages that get the cover class. */
  function CoverPages(n: nat): set<nat> {
    set i: nat | i < n && PageClass(i, n) == HARD_CLASS
  }

  /**
   * A page is a cover exactly when it is the first or the last one; so a book
   * of one page is all cover, and any longer book has exactly two covers.
   */
  lemma CoverPagesSpec(n: nat)
    ensures forall i: nat :: i < n ==> (i in CoverPages(n) <==> i == 0 || i == n - 1)
    ensures forall i: nat :: i < n && i !in CoverPages(n) ==> PageClass(i, n) == PLAIN_CLASS
    ensures |CoverPages(n)| == if n <= 1 then n else 2
  {
    assert HARD_CLASS != PLAIN_CLASS by {
      assert |HARD_CLASS| != |PLAIN_CLASS|;
    }
    if n == 0 {
      assert CoverPages(n) == {};
    } else if n == 1 {
      assert CoverPages(n) == {0};
    } else {
      assert CoverPages(n) == {0, n - 1};
    }
  }
}
