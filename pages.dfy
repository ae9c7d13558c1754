/**
 * The page list the build script hands to the viewer: either one JPEG per
 * converted PDF page, or, when conversion fails, the image files already in
 * the pages directory, ordered by the number in their names; the script stops
 * with exit status 1 when that fallback finds nothing.
 */
module Pages {
  import opened Wrappers
  import opened Text
  import opened Ordering

  /** `f.lower().endswith(('.jpg', '.jpeg', '.png'))` */
  predicate IsImageName(f: string) {
    var lower := LowerString(f);
    EndsWith(lower, ".jpg") || EndsWith(lower, ".jpeg") || EndsWith(lower, ".png")
  }

  /** The file name given to converted page `k` (1-based). */
  function PageName(k: nat): string {
    "page_" + NatToString(k) + ".jpg"
  }

  /** The names the conversion path produces for `n` pages, in page order. */
  function ConvertedNames(n: nat): seq<string> {
    seq(n, i requires 0 <= i < n => PageName(i + 1))
  }

  /** The conversion loop: one name appended per converted page. */
  method ConvertPages(pageCount: nat) returns (images: seq<string>)
    ensures images == ConvertedNames(pageCount)
  {
    images := [];
    var i := 0;
    while i < pageCount
      invariant 0 <= i <= pageCount
      invariant images == ConvertedNames(i)
    {
      images := images + [PageName(i + 1)];
      i := i + 1;
    }
  }

  /** The list comprehension that keeps image files from the directory listing. */
  function KeepImages(files: seq<string>): (kept: seq<string>)
    ensures forall f :: multiset(kept)[f] == if IsImageName(f) then multiset(files)[f] else 0
  {
    if files == [] then []
    else
      assert files == [files[0]] + files[1..];
      (if IsImageName(files[0]) then [files[0]] else []) + KeepImages(files[1..])
  }

  /**
   * What the conversion step reports: the number of pages it rendered, or a
   * caught failure together with the number of pages saved and appended
   * before it was raised (zero when the PDF could not be read at all) and the
   * listing of the pages directory (None when the directory does not exist).
   */
  datatype Conversion =
    | Converted(pageCount: nat)
    | ConversionFailed(saved: nat, listing: Option<seq<string>>)

  /** The script either goes on to write the viewer with these images, or exits. */
  datatype Outcome = Ready(images: seq<string>) | Exit(code: int)

  /**
   * The page list after a caught failure: the directory's image files when the
   * directory exists, otherwise the names appended before the failure.
   */
  function FallbackImages(saved: nat, listing: Option<seq<string>>): seq<string> {
    if listing.Some? then OrderFiles(KeepImages(listing.value)) else ConvertedNames(saved)
  }

  function PageList(conv: Conversion): Outcome {
    match conv
    case Converted(n) => Ready(ConvertedNames(n))
    case ConversionFailed(saved, listing) =>
      var images := FallbackImages(saved, listing);
      if images == [] then Exit(1) else Ready(images)
  }

  /** The script's page-list step, statement by statement. */
  method SelectPages(conv: Conversion) returns (r: Outcome)
    ensures r == PageList(conv)
  {
    match conv {
      case Converted(n) =>
        var images := ConvertPages(n);
        r := Ready(images);
      case ConversionFailed(saved, listing) =>
        var images := ConvertPages(saved);
        if listing.Some? {
          var files := KeepImages(listing.value);
          files := OrderFiles(files);
          images := files;
        }
        if images == [] {
          r := Exit(1);
        } else {
          r := Ready(images);
        }
    }
  }

  lemma PageNameIsImage(k: nat)
    ensures IsImageName(PageName(k))
  {
    var s := PageName(k);
    var lower := LowerString(s);
    forall j | 0 <= j < 4 ensures lower[|s| - 4 + j] == ".jpg"[j] {
      assert s[|s| - 4 + j] == ".jpg"[j];
    }
    assert lower[|s| - 4..] == ".jpg";
  }

  /** Whether a name is an image does not depend on the case of its letters. */
  lemma ImageNameIgnoresCase(f: string)
    ensures IsImageName(LowerString(f)) == IsImageName(f)
  {
    LowerStringIdempotent(f);
  }

  /** Upper-case extensions are accepted: `IMG.JPG`, `scan.JPEG`, `p.PNG`. */
  lemma UpperCaseExtensions(stem: string)
    ensures IsImageName(stem + ".JPG")
    ensures IsImageName(stem + ".JPEG")
    ensures IsImageName(stem + ".PNG")
  {
    LowerStringConcat(stem, ".JPG");
    LowerStringConcat(stem, ".JPEG");
    LowerStringConcat(stem, ".PNG");
    assert LowerString(".JPG") == ".jpg";
    assert LowerString(".JPEG") == ".jpeg";
    assert LowerString(".PNG") == ".png";
  }

  /** The numeric sort key of `page_k.jpg` is `k`. */
  lemma PageNameKey(k: nat)
    ensures HasNumericKey(PageName(k)) && NumericKey(PageName(k)) == k
  {
    var ds := NatToString(k);
    DigitsConcat("page_" + ds, ".jpg");
    DigitsConcat("page_", ds);
    DigitsOfNoDigits("page_");
    DigitsOfNoDigits(".jpg");
    DigitsOfAllDigits(ds);
    assert Digits(PageName(k)) == ds;
    DecimalRoundTrip(k);
  }

  /**
   * The conversion path lists exactly one image per page, named by its page
   * number, and its names are image names with strictly increasing numeric keys.
   */
  lemma ConvertedPages(n: nat)
    ensures PageList(Converted(n)).Ready?
    ensures |PageList(Converted(n)).images| == n
    ensures forall i :: 0 <= i < n ==>
      var f := PageList(Converted(n)).images[i];
      IsImageName(f) && HasNumericKey(f) && NumericKey(f) == i + 1
    ensures StrictlyIncreasing(ConvertedNames(n))
  {
    forall k: nat | 1 <= k <= n
      ensures IsImageName(PageName(k)) && HasNumericKey(PageName(k)) && NumericKey(PageName(k)) == k
    {
      PageNameIsImage(k);
      PageNameKey(k);
    }
  }

  lemma OrderFilesEmpty(files: seq<string>)
    ensures OrderFiles(files) == [] <==> files == []
  {
    OrderFilesSpec(files);
    if files != [] {
      assert files[0] in multiset(OrderFiles(files));
    }
  }

  lemma KeepImagesEmpty(files: seq<string>)
    ensures KeepImages(files) == [] <==> forall f :: f in files ==> !IsImageName(f)
  {
    var kept := KeepImages(files);
    if kept != [] {
      assert multiset(kept)[kept[0]] > 0;
    }
    if exists f :: f in files && IsImageName(f) {
      var f :| f in files && IsImageName(f);
      assert multiset(files)[f] > 0;
    }
  }

  /**
   * The script exits, with status 1, exactly when conversion failed and
   * either the pages directory holds no jpg/jpeg/png file, or the directory is
   * missing and no page had been saved before the failure.
   */
  lemma ExitExactly(conv: Conversion)
    ensures PageList(conv).Exit? <==>
      conv.ConversionFailed? &&
      (if conv.listing.Some?
       then forall f :: f in conv.listing.value ==> !IsImageName(f)
       else conv.saved == 0)
    ensures PageList(conv).Exit? ==> PageList(conv).code == 1
  {
    if conv.ConversionFailed? && conv.listing.Some? {
      OrderFilesEmpty(KeepImages(conv.listing.value));
      KeepImagesEmpty(conv.listing.value);
    }
  }

  /**
   * On the fallback path the page list holds each image file of the listing
   * (as often as the listing does) and nothing else; it is sorted by numeric
   * key, stably, when every name has a digit, and in string order otherwise.
   */
  lemma FallbackPages(saved: nat, listing: seq<string>)
    ensures var r := PageList(ConversionFailed(saved, Some(listing)));
      r.Ready? ==>
        (forall f :: multiset(r.images)[f] == if IsImageName(f) then multiset(listing)[f] else 0) &&
        (AllNumeric(KeepImages(listing)) ==> Sorted(Numeric, r.images)) &&
        (AllNumeric(KeepImages(listing)) ==> forall v :: Pick(r.images, v) == Pick(KeepImages(listing), v)) &&
        (!AllNumeric(KeepImages(listing)) ==> Sorted(Lexical, r.images))
  {
    OrderFilesSpec(KeepImages(listing));
  }

  /**
   * Reusing the pages of an earlier conversion gives back the same page list:
   * when the image files in the directory are exactly `page_1.jpg` ..
   * `page_n.jpg`, in whatever order the listing returns them, the fallback
   * yields them in page order.
   */
  lemma FallbackRecoversConversion(n: nat, saved: nat, listing: seq<string>)
    requires n > 0
    requires multiset(KeepImages(listing)) == multiset(ConvertedNames(n))
    ensures PageList(ConversionFailed(saved, Some(listing))) == PageList(Converted(n))
  {
    var kept := KeepImages(listing);
    ConvertedPages(n);
    forall f | f in kept ensures HasNumericKey(f) {
      assert f in multiset(ConvertedNames(n));
    }
    OrderFilesSpec(kept);
    SortedUnique(ConvertedNames(n), OrderFiles(kept));
    assert ConvertedNames(n)[0] in ConvertedNames(n);
  }

  /**
   * A failure while saving page `saved + 1` of a `total`-page PDF, with the
   * pages directory gone, keeps the pages appended so far: the script does not
   * exit, and the page list is the first `saved` pages of the full conversion,
   * page `i + 1` at position `i`.
   */
  lemma InterruptedConversion(saved: nat, total: nat)
    requires 0 < saved <= total
    ensures var r := PageList(ConversionFailed(saved, None));
      r.Ready? && r.images == PageList(Converted(total)).images[..saved] &&
      forall i :: 0 <= i < saved ==> NumericKey(r.images[i]) == i + 1
  {
    ConvertedPages(saved);
    assert ConvertedNames(saved) == ConvertedNames(total)[..saved];
  }
}
