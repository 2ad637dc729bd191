/**
 * The resource catalog of `src/lib/resources.ts`: two universities, each an
 * ordered list of categories, each an ordered list of resources, and the
 * read-only queries over it. The JSON document the catalog is loaded from is
 * not visible, so every query takes the catalog as a parameter.
 */
module Resources {
  import opened Options

  /** A locale-keyed text, `Record<Locale, string>`. */
  type LocalizedText = map<string, string>

  datatype ResourceType = Pdf | Video | Link

  datatype Platform = YouTube | Vimeo | Bilibili

  /** One catalog entry; `kind` is the source's `type` field. */
  datatype Resource = Resource(
    id: string,
    title: LocalizedText,
    description: LocalizedText,
    kind: ResourceType,
    file: Option<string>,
    url: Option<string>,
    platform: Option<Platform>,
    duration: Option<string>,
    downloadCount: Option<int>)

  datatype ResourceCategory = ResourceCategory(id: string, title: LocalizedText, resources: seq<Resource>)

  datatype UniversityResources = UniversityResources(categories: seq<ResourceCategory>)

  datatype ResourcesData = ResourcesData(cityu: UniversityResources, columbia: UniversityResources)

  /** `getCityUResources`. */
  function CityUResources(data: ResourcesData): (u: UniversityResources)
    ensures u == data.cityu
  {
    data.cityu
  }

  /** `getColumbiaResources`. */
  function ColumbiaResources(data: ResourcesData): (u: UniversityResources)
    ensures u == data.columbia
  {
    data.columbia
  }

  /** The universities in the order `getResourceById` visits them. */
  function SearchOrder(data: ResourcesData): seq<UniversityResources> {
    [CityUResources(data), ColumbiaResources(data)]
  }

  /* ---------------- Reference view: the catalog as one flat list ---------------- */

  /** Every resource of `cats`, category by category, each in catalog order. */
  function CategoryResources(cats: seq<ResourceCategory>): seq<Resource> {
    if |cats| == 0 then [] else cats[0].resources + CategoryResources(cats[1..])
  }

  /** Every resource of the universities `us`, in the order given. */
  function UniversitiesResources(us: seq<UniversityResources>): seq<Resource> {
    if |us| == 0 then [] else CategoryResources(us[0].categories) + UniversitiesResources(us[1..])
  }

  /** The whole catalog in search order: cityu's categories, then columbia's. */
  function CatalogResources(data: ResourcesData): seq<Resource> {
    UniversitiesResources(SearchOrder(data))
  }

  /** `r` is listed in some category of university `u`. */
  ghost predicate InUniversity(u: UniversityResources, r: Resource) {
    exists c :: c in u.categories && r in c.resources
  }

  /** `r` is listed in some category of cityu or of columbia. */
  ghost predicate InCatalog(data: ResourcesData, r: Resource) {
    InUniversity(data.cityu, r) || InUniversity(data.columbia, r)
  }

  /* ---------------- The search, shaped as the source's loops ---------------- */

  /** Index of the first resource of `rs` carrying `id`, or `|rs|` when none does. */
  function FirstIndex(rs: seq<Resource>, id: string): (k: nat)
    ensures k <= |rs|
    ensures k < |rs| ==> rs[k].id == id
    ensures forall j :: 0 <= j < k ==> rs[j].id != id
  {
    if |rs| == 0 then 0
    else if rs[0].id == id then 0
    else 1 + FirstIndex(rs[1..], id)
  }

  /** `resources.find(r => r.id === id)`. */
  function FindById(rs: seq<Resource>, id: string): (r: Option<Resource>)
    ensures r.Some? ==> r.value.id == id && r.value in rs
    ensures r.None? <==> forall j :: 0 <= j < |rs| ==> rs[j].id != id
  {
    var k := FirstIndex(rs, id);
    if k < |rs| then Some(rs[k]) else None
  }

  /** The inner loop: categories in order, returning the first category's find that hits. */
  function FindInCategories(cats: seq<ResourceCategory>, id: string): (r: Option<Resource>)
    ensures r.Some? ==> r.value.id == id
  {
    if |cats| == 0 then None
    else match FindById(cats[0].resources, id)
      case Some(r) => Some(r)
      case None => FindInCategories(cats[1..], id)
  }

  /** The outer loop over `[resources.cityu, resources.columbia]`. */
  function FindInUniversities(us: seq<UniversityResources>, id: string): (r: Option<Resource>)
    ensures r.Some? ==> r.value.id == id
  {
    if |us| == 0 then None
    else match FindInCategories(us[0].categories, id)
      case Some(r) => Some(r)
      case None => FindInUniversities(us[1..], id)
  }

  /** `getResourceById`: first match in search order, `None` for the source's `null`. */
  function ResourceById(data: ResourcesData, id: string): (r: Option<Resource>)
    ensures r.Some? ==> r.value.id == id
  {
    FindInUniversities(SearchOrder(data), id)
  }

  /**
   * `incrementDownloadCount`: the source only logs the id, so the catalog,
   * every `downloadCount` included, is left as it was.
   */
  function IncrementDownloadCount(data: ResourcesData, resourceId: string): (d: ResourcesData)
    ensures d == data
    ensures forall id :: ResourceById(d, id) == ResourceById(data, id)
  {
    data
  }

  /* ---------------- Lemmas ---------------- */

  /** A find over a concatenation hits in the first part if it can, else in the second. */
  lemma FindByIdAppend(a: seq<Resource>, b: seq<Resource>, id: string)
    ensures FindById(a + b, id) == if FindById(a, id).Some? then FindById(a, id) else FindById(b, id)
  {
    var ab := a + b;
    var ka := FirstIndex(a, id);
    if ka < |a| {
      assert ab[ka] == a[ka];
      assert forall j :: 0 <= j < ka ==> ab[j] == a[j];
    } else {
      var kb := FirstIndex(b, id);
      var k := FirstIndex(ab, id);
      assert forall j :: 0 <= j < |a| ==> ab[j] == a[j];
      assert k >= |a|;
      if kb < |b| {
        assert ab[|a| + kb] == b[kb];
        assert forall j :: |a| <= j < |a| + kb ==> ab[j] == b[j - |a|];
      } else {
        assert forall j :: |a| <= j < |ab| ==> ab[j] == b[j - |a|];
      }
    }
  }

  /** The category loop finds exactly what a single find over the flattened categories finds. */
  lemma {:induction false} FindInCategoriesIsFlatFind(cats: seq<ResourceCategory>, id: string)
    ensures FindInCategories(cats, id) == FindById(CategoryResources(cats), id)
  {
    if |cats| > 0 {
      FindInCategoriesIsFlatFind(cats[1..], id);
      FindByIdAppend(cats[0].resources, CategoryResources(cats[1..]), id);
    }
  }

  /** The university loop finds exactly what a single find over the flattened universities finds. */
  lemma {:induction false} FindInUniversitiesIsFlatFind(us: seq<UniversityResources>, id: string)
    ensures FindInUniversities(us, id) == FindById(UniversitiesResources(us), id)
  {
    if |us| > 0 {
      FindInUniversitiesIsFlatFind(us[1..], id);
      FindInCategoriesIsFlatFind(us[0].categories, id);
      FindByIdAppend(CategoryResources(us[0].categories), UniversitiesResources(us[1..]), id);
    }
  }

  /** The flattened categories hold exactly the resources listed in some category. */
  lemma {:induction false} CategoryResourcesMembers(cats: seq<ResourceCategory>, r: Resource)
    ensures r in CategoryResources(cats) <==> exists c :: c in cats && r in c.resources
  {
    if |cats| > 0 {
      CategoryResourcesMembers(cats[1..], r);
      if r in cats[0].resources {
        assert cats[0] in cats;
      }
      if exists c :: c in cats && r in c.resources {
        var c :| c in cats && r in c.resources;
        if c != cats[0] {
          assert c in cats[1..];
        }
      }
    }
  }

  /** The catalog in search order holds exactly the resources of some category of either university. */
  lemma CatalogResourcesMembers(data: ResourcesData, r: Resource)
    ensures r in CatalogResources(data) <==> InCatalog(data, r)
  {
    var cityu := CategoryResources(data.cityu.categories);
    var columbia := CategoryResources(data.columbia.categories);
    assert SearchOrder(data)[1..] == [data.columbia];
    assert [data.columbia][1..] == [];
    assert UniversitiesResources([data.columbia]) == columbia + [];
    assert CatalogResources(data) == cityu + columbia;
    CategoryResourcesMembers(data.cityu.categories, r);
    CategoryResourcesMembers(data.columbia.categories, r);
  }

  /**
   * `getResourceById` is the first resource carrying `id` in search order:
   * cityu before columbia, categories in order, resources in order.
   */
  lemma ResourceByIdIsFirstMatch(data: ResourcesData, id: string)
    ensures ResourceById(data, id) == FindById(CatalogResources(data), id)
  {
    FindInUniversitiesIsFlatFind(SearchOrder(data), id);
  }

  /** A resource returned for `id` carries `id` and is listed in some category of one of the two universities. */
  lemma ResourceByIdFound(data: ResourcesData, id: string)
    ensures ResourceById(data, id).Some? ==>
      ResourceById(data, id).value.id == id && InCatalog(data, ResourceById(data, id).value)
  {
    ResourceByIdIsFirstMatch(data, id);
    if ResourceById(data, id).Some? {
      CatalogResourcesMembers(data, ResourceById(data, id).value);
    }
  }

  /** `getResourceById` returns null exactly when no resource of any category of either university has that id. */
  lemma ResourceByIdNone(data: ResourcesData, id: string)
    ensures ResourceById(data, id).None? <==> forall r :: InCatalog(data, r) ==> r.id != id
  {
    ResourceByIdIsFirstMatch(data, id);
    var all := CatalogResources(data);
    if ResourceById(data, id).None? {
      forall r | InCatalog(data, r) ensures r.id != id {
        CatalogResourcesMembers(data, r);
      }
    } else {
      ResourceByIdFound(data, id);
    }
  }

  /**
   * First match wins: when several resources share an id, the one earliest in
   * search order is returned.
   */
  lemma ResourceByIdEarliest(data: ResourcesData, id: string, k: nat)
    requires k < |CatalogResources(data)| && CatalogResources(data)[k].id == id
    requires forall j :: 0 <= j < k ==> CatalogResources(data)[j].id != id
    ensures ResourceById(data, id) == Some(CatalogResources(data)[k])
  {
    ResourceByIdIsFirstMatch(data, id);
    var all := CatalogResources(data);
    assert FirstIndex(all, id) == k;
  }

  /** cityu is searched before columbia: columbia is consulted only when cityu has no match. */
  lemma CityUSearchedFirst(data: ResourcesData, id: string)
    ensures FindInCategories(data.cityu.categories, id).Some? ==>
      ResourceById(data, id) == FindInCategories(data.cityu.categories, id)
    ensures FindInCategories(data.cityu.categories, id).None? ==>
      ResourceById(data, id) == FindInCategories(data.columbia.categories, id)
  {
    assert SearchOrder(data)[1..] == [data.columbia];
    assert [data.columbia][1..] == [];
    assert FindInUniversities([data.columbia], id) == FindInCategories(data.columbia.categories, id);
  }
}
