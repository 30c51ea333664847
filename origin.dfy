/**
 * The origin classifier: which partition an APK was loaded from, judged by
 * its dex path. The two regular expressions of the source, "(^|:)/vendor/"
 * and "(^|:)(/system)?/product/", are modelled as "the marker occurs at the
 * start of the path or right after a ':'".
 */
module Origin {
  import opened Wrappers
  import opened Outcome

  datatype ApkOrigin = Default | Vendor | Product

  const VendorDexMarker: string := "/vendor/"
  const ProductDexMarker: string := "/product/"
  const SystemProductDexMarker: string := "/system/product/"

  /** One match of "(^|:)marker" in `s`, with the marker starting at index `i`. */
  predicate AnchoredAt(s: string, i: nat, marker: string) {
    i + |marker| <= |s| && s[i..i + |marker|] == marker && (i == 0 || s[i - 1] == ':')
  }

  /** What std::regex_search answers for the pattern "(^|:)marker". */
  ghost predicate Anchored(s: string, marker: string) {
    exists i: nat :: AnchoredAt(s, i, marker)
  }

  /** The vendor pattern matches the dex path. */
  ghost predicate VendorDexPath(s: string) {
    Anchored(s, VendorDexMarker)
  }

  /** The product pattern matches the dex path; "(/system)?" gives two spellings. */
  ghost predicate ProductDexPath(s: string) {
    Anchored(s, ProductDexMarker) || Anchored(s, SystemProductDexMarker)
  }

  /** Scans `s` from index `i` for an anchored occurrence of `marker`. */
  function SearchFrom(s: string, marker: string, i: nat): (found: bool)
    requires i <= |s|
    ensures found <==> exists j: nat :: i <= j && AnchoredAt(s, j, marker)
    decreases |s| - i
  {
    if AnchoredAt(s, i, marker) then true
    else if i == |s| then
      assert forall j: nat :: i <= j && AnchoredAt(s, j, marker) ==> j == i;
      false
    else SearchFrom(s, marker, i + 1)
  }

  /** The search over the whole string decides the regular expression. */
  function Search(s: string, marker: string): (found: bool)
    ensures found <==> Anchored(s, marker)
  {
    SearchFrom(s, marker, 0)
  }

  /**
   * GetApkOriginFromDexPath: vendor if the vendor pattern matches, product if
   * the product pattern matches, and fatal when both match. A null dex path
   * is the default origin.
   */
  function GetApkOriginFromDexPath(dexPath: Option<string>): (r: Checked<ApkOrigin>)
    ensures dexPath.None? ==> r == Ok(Default)
    ensures dexPath.Some? ==>
      var s := dexPath.value;
      (r.Fatal? <==> VendorDexPath(s) && ProductDexPath(s)) &&
      (r.Fatal? ==> r.error == BothVendorAndProduct) &&
      (r == Ok(Vendor) <==> VendorDexPath(s) && !ProductDexPath(s)) &&
      (r == Ok(Product) <==> !VendorDexPath(s) && ProductDexPath(s)) &&
      (r == Ok(Default) <==> !VendorDexPath(s) && !ProductDexPath(s))
  {
    match dexPath
    case None => Ok(Default)
    case Some(s) =>
      var origin := if Search(s, VendorDexMarker) then Vendor else Default;
      if Search(s, ProductDexMarker) || Search(s, SystemProductDexMarker) then
        if origin == Vendor then Fatal(BothVendorAndProduct) else Ok(Product)
      else
        Ok(origin)
  }
}
