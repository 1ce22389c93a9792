/** The slug lookup of `template_detail` in main.py: the first package of the
    catalog with the requested slug, or "Not found" with status 404. */
module Catalog {
  import opened Optional

  datatype Package = Package(slug: string, name: string)

  /** The slugs and names of the `PACKAGES` catalog, in order. */
  const Packages: seq<Package> := [
    Package("essential", "Essential"),
    Package("professional", "Professional"),
    Package("elite", "Elite")
  ]

  datatype Page = NotFound | Detail(package: Package)

  /** `next((x for x in packages if x["slug"] == slug), None)`. */
  function FindBySlug(packages: seq<Package>, slug: string): (r: Option<Package>)
    ensures r.None? <==> forall i :: 0 <= i < |packages| ==> packages[i].slug != slug
    ensures r.Some? ==> r.value.slug == slug
    ensures r.Some? ==> exists i :: (0 <= i < |packages| && packages[i] == r.value
                                     && forall j :: 0 <= j < i ==> packages[j].slug != slug)
    decreases |packages|
  {
    if packages == [] then None
    else if packages[0].slug == slug then Some(packages[0])
    else
      var rest := FindBySlug(packages[1..], slug);
      assert forall i :: 0 < i < |packages| ==> packages[i] == packages[1..][i - 1];
      rest
  }

  /** `template_detail(slug)`: a detail page for a catalog package whose slug
      matches, "Not found" (404) when none does. */
  function TemplateDetail(slug: string): (p: Page)
    ensures p.NotFound? <==> forall i :: 0 <= i < |Packages| ==> Packages[i].slug != slug
    ensures p.Detail? ==> p.package in Packages && p.package.slug == slug
  {
    match FindBySlug(Packages, slug)
    case None => NotFound
    case Some(t) => Detail(t)
  }

  /** Every package of the catalog is reached through its own slug. */
  lemma EveryPackageHasAPage(i: int)
    requires 0 <= i < |Packages|
    ensures TemplateDetail(Packages[i].slug) == Detail(Packages[i])
  {
  }
}
