/** The category endpoints. They keep two collections in agreement: a
    category's name also appears in the `category` list of its products, so
    creating, renaming, re-assigning and deleting a category rewrite those
    lists with `$addToSet`, `$pull` and a positional `$set`. The listing is
    a derived view that writes nothing. */
module CategoryController {
  import opened Base
  import opened Text
  import opened Sorting
  import opened Catalog
  import opened ErrorHandler

  // ---------------------------------------------------------------------
  // The list updates MongoDB applies to one product's `category` array.

  /** `$addToSet`: the value is appended unless it is already there; the
      existing entries keep their order. */
  function AddToSet(s: seq<string>, x: string): (r: seq<string>)
    ensures |s| <= |r| <= |s| + 1 && r[..|s|] == s
    ensures multiset(r)[x] == if x in s then multiset(s)[x] else 1
    ensures forall y :: y != x ==> multiset(r)[y] == multiset(s)[y]
  {
    if x in s then s else s + [x]
  }

  /** Adding twice is adding once. */
  lemma AddToSetIdempotent(s: seq<string>, x: string)
    ensures AddToSet(AddToSet(s, x), x) == AddToSet(s, x)
  {
  }

  /** `$pull` undoes an `$addToSet` of a value that was not there. */
  lemma PullUndoesAdd(s: seq<string>, x: string)
    requires x !in s
    ensures RemoveAll(AddToSet(s, x), x) == s
  {
    RemoveAllConcat(s, [x], x);
    RemoveAllAbsent(s, x);
  }

  /** The positional update `$set: {"category.$[e]": to}` with the array
      filter `e == from`: every entry equal to `from` becomes `to`, in
      place. */
  function Rename(s: seq<string>, from: string, to: string): (r: seq<string>)
    ensures |r| == |s|
    ensures forall i :: 0 <= i < |s| && s[i] == from ==> r[i] == to
    ensures forall i :: 0 <= i < |s| && s[i] != from ==> r[i] == s[i]
  {
    seq(|s|, i requires 0 <= i < |s| => if s[i] == from then to else s[i])
  }

  /** Renaming back restores the list when the new name was not in use. */
  lemma RenameBack(s: seq<string>, from: string, to: string)
    requires to !in s
    ensures Rename(Rename(s, from, to), to, from) == s
  {
  }

  /** After a rename the old name is gone and every former occurrence is
      counted under the new name. */
  lemma {:induction false} RenameCounts(s: seq<string>, from: string, to: string)
    requires from != to
    ensures from !in Rename(s, from, to)
    ensures multiset(Rename(s, from, to))[to] == multiset(s)[to] + multiset(s)[from]
  {
    if s != [] {
      var t := s[..|s| - 1];
      RenameCounts(t, from, to);
      assert Rename(s, from, to) == Rename(t, from, to) + [Rename(s, from, to)[|s| - 1]];
      assert s == t + [s[|s| - 1]];
    }
  }

  // ---------------------------------------------------------------------
  // `updateMany` over the products collection.

  /** `updateMany({_id: {$in: ids}}, {$addToSet: {category: name}})`, with
      `ids` already cast (`CastAll`). */
  function AddCategoryWhere(ps: seq<Product>, ids: set<string>, name: string): seq<Product> {
    seq(|ps|, i requires 0 <= i < |ps| =>
      if ps[i].id in ids then ps[i].(category := AddToSet(ps[i].category, name)) else ps[i])
  }

  /** `updateMany({_id: {$in: ids}}, {$pull: {category: name}})`. */
  function PullCategoryWhere(ps: seq<Product>, ids: set<string>, name: string): seq<Product> {
    seq(|ps|, i requires 0 <= i < |ps| =>
      if ps[i].id in ids then ps[i].(category := RemoveAll(ps[i].category, name)) else ps[i])
  }

  /** `updateMany({category: name}, {$pull: {category: name}})`: products
      without the name are matched by no filter and stay as they are. */
  function PullCategoryAll(ps: seq<Product>, name: string): seq<Product> {
    seq(|ps|, i requires 0 <= i < |ps| =>
      if name in ps[i].category then ps[i].(category := RemoveAll(ps[i].category, name)) else ps[i])
  }

  /** `updateMany({category: from}, {$set: {"category.$[e]": to}},
      {arrayFilters: [{e: from}]})`. */
  function RenameCategory(ps: seq<Product>, from: string, to: string): seq<Product> {
    seq(|ps|, i requires 0 <= i < |ps| =>
      if from in ps[i].category then ps[i].(category := Rename(ps[i].category, from, to)) else ps[i])
  }

  /** Two product lists that differ at most in the `category` lists. */
  predicate OnlyCategoriesDiffer(ps: seq<Product>, qs: seq<Product>) {
    |ps| == |qs| && forall i :: 0 <= i < |ps| ==> qs[i] == ps[i].(category := qs[i].category)
  }

  lemma OnlyCategoriesDifferKeepsKeys(ps: seq<Product>, qs: seq<Product>)
    requires OnlyCategoriesDiffer(ps, qs) && ProductKeysUnique(ps)
    ensures ProductKeysUnique(qs)
    ensures forall i :: 0 <= i < |qs| ==> qs[i].id == ps[i].id
  {
    forall i, j | 0 <= i < j < |qs|
      ensures qs[i].id != qs[j].id && qs[i].slug != qs[j].slug
    {
      assert qs[i].id == ps[i].id && qs[j].id == ps[j].id;
      assert qs[i].slug == ps[i].slug && qs[j].slug == ps[j].slug;
    }
  }

  /** Deleting a category leaves no product mentioning it, and touches no
      other entry. */
  lemma PullAllRemovesName(ps: seq<Product>, name: string)
    ensures OnlyCategoriesDiffer(ps, PullCategoryAll(ps, name))
    ensures forall i :: 0 <= i < |ps| ==> name !in PullCategoryAll(ps, name)[i].category
    ensures forall i :: 0 <= i < |ps| ==>
      multiset(PullCategoryAll(ps, name)[i].category) == multiset(ps[i].category)[name := 0]
  {
  }

  // ---------------------------------------------------------------------
  // The listing (`getCategories`).

  /** The `$lookup` match: some entry of the product's list equals the
      category name once both are lower-cased. */
  predicate AutoMatched(p: Product, name: string) {
    exists k :: 0 <= k < |p.category| && Lower(p.category[k]) == Lower(name)
  }

  function AutoIds(ps: seq<Product>, name: string): set<string> {
    set i | 0 <= i < |ps| && AutoMatched(ps[i], name) :: ps[i].id
  }

  datatype CategoryView = CategoryView(category: Category, allProductIds: set<string>, productCount: nat)

  /** One row of the listing: `$setUnion` of the stored ids and the matched
      ids, and its size. */
  function View(c: Category, ps: seq<Product>): (v: CategoryView)
    ensures v.category == c
    ensures v.productCount == |v.allProductIds|
  {
    var all := SetOf(c.productIds) + AutoIds(ps, c.name);
    CategoryView(c, all, |all|)
  }

  function NameLe(a: CategoryView, b: CategoryView): bool {
    StrLe(a.category.name, b.category.name)
  }

  /** The whole listing, sorted by name. */
  function GetCategories(cs: seq<Category>, ps: seq<Product>): seq<CategoryView> {
    Sort(seq(|cs|, i requires 0 <= i < |cs| => View(cs[i], ps)), NameLe)
  }

  /** An id is in `allProductIds` exactly when the category lists it, or a
      product with that id carries the name in any letter case. A listed id
      counts even when no product has it any more. */
  lemma ViewMembership(c: Category, ps: seq<Product>, id: string)
    ensures id in View(c, ps).allProductIds <==>
      id in c.productIds || exists i :: 0 <= i < |ps| && ps[i].id == id && AutoMatched(ps[i], c.name)
  {
  }

  /** The match ignores letter case: a product carrying "shoes" is listed
      under "Shoes". */
  lemma AutoMatchIgnoresCase(p: Product, name: string, k: nat)
    requires k < |p.category| && Lower(p.category[k]) == Lower(name)
    ensures p.id in AutoIds([p], name)
  {
    assert AutoMatched([p][0], name);
  }

  lemma NameLePreorder()
    ensures TotalPreorder(NameLe)
  {
    forall a, b ensures NameLe(a, b) || NameLe(b, a) {
      StrLeTotal(a.category.name, b.category.name);
    }
    forall a, b, c | NameLe(a, b) && NameLe(b, c) ensures NameLe(a, c) {
      StrLeTrans(a.category.name, b.category.name, c.category.name);
    }
  }

  /** The listing holds one row per category, ordered by name. */
  lemma GetCategoriesOrdered(cs: seq<Category>, ps: seq<Product>)
    ensures Sorted(GetCategories(cs, ps), NameLe)
    ensures multiset(GetCategories(cs, ps)) == multiset(seq(|cs|, i requires 0 <= i < |cs| => View(cs[i], ps)))
  {
    NameLePreorder();
    SortSorted(seq(|cs|, i requires 0 <= i < |cs| => View(cs[i], ps)), NameLe);
  }

  // ---------------------------------------------------------------------
  // Create and update: the category document.

  /** The request body `{name, imageUploadUrl, featuredProductId,
      productIds}`; `name` has passed the route's rule (a string). */
  datatype CategoryRequest = CategoryRequest(
    name: string,
    imageUploadUrl: Option<string>,
    featuredProductId: Field,
    productIds: Option<seq<string>>)

  predicate Truthy(s: Option<string>) {
    s.Some? && s.value != ""
  }

  predicate FieldTruthy(f: Field) {
    f.Given? && f.text != ""
  }

  /** `images.find(img => img.isMain)`. */
  function MainImage(images: seq<Image>): (r: Option<nat>)
    ensures r.Some? ==> r.value < |images| && images[r.value].isMain
    ensures r.Some? ==> forall i :: 0 <= i < r.value ==> !images[i].isMain
    ensures r.None? ==> forall i :: 0 <= i < |images| ==> !images[i].isMain
  {
    if |images| == 0 then None
    else if images[0].isMain then Some(0)
    else match MainImage(images[1..])
      case None => None
      case Some(k) => Some(k + 1)
  }

  /** `images.find(img => img.isMain)?.url || images[0]?.url`: the first
      main image's URL when it is not empty, else the first image's URL;
      `None` is `undefined` (no images). */
  function FeaturedImageUrl(images: seq<Image>): (r: Option<string>)
    ensures r.None? <==> |images| == 0
    ensures r.Some? ==> exists i :: 0 <= i < |images| && images[i].url == r.value
    ensures (exists i :: 0 <= i < |images| && images[i].isMain && images[i].url != ""
              && forall j :: 0 <= j < i ==> !images[j].isMain)
            ==> r.Some? && r.value != ""
  {
    match MainImage(images)
    case Some(k) => if images[k].url != "" then Some(images[k].url) else Some(images[0].url)
    case None => if |images| > 0 then Some(images[0].url) else None
  }

  /** With no main image the featured picture is the first one. */
  lemma FeaturedWithoutMain(images: seq<Image>)
    requires |images| > 0 && forall i :: 0 <= i < |images| ==> !images[i].isMain
    ensures FeaturedImageUrl(images) == Some(images[0].url)
  {
  }

  /** A list of ids as the schema stores it: each ObjectId in its cast
      form, any other entry as given. */
  function AsStored(ids: seq<string>): (r: seq<string>)
    ensures |r| == |ids|
    ensures forall i :: 0 <= i < |ids| && IsObjectId(ids[i]) ==> r[i] == CastId(ids[i])
    ensures forall i :: 0 <= i < |ids| && !IsObjectId(ids[i]) ==> r[i] == ids[i]
  {
    seq(|ids|, i requires 0 <= i < |ids| => if IsObjectId(ids[i]) then CastId(ids[i]) else ids[i])
  }

  /** The document `createCategory` inserts (lines 93-114): a featured
      product overrides an upload; `featured` is that product when the
      request names one, and its `_id` is what the cast stores. */
  function NewCategory(req: CategoryRequest, id: string, slug: string, featured: Option<Product>): Category
    requires FieldTruthy(req.featuredProductId) <==> featured.Some?
  {
    Category(
      id, req.name, slug,
      if featured.Some? then FeaturedImageUrl(featured.value.images) else req.imageUploadUrl,
      if featured.Some? then Some(FromProduct) else if Truthy(req.imageUploadUrl) then Some(Upload) else None,
      if featured.Some? then Some(featured.value.id)
      else match req.featuredProductId
        case Given(t) => Some(t)
        case _ => None,
      if req.productIds.Some? then AsStored(req.productIds.value) else [])
  }

  /** Image provenance on create: the product wins over an upload, an
      upload alone is marked "upload", and nothing gives no source. */
  lemma NewCategoryProvenance(req: CategoryRequest, id: string, slug: string, featured: Option<Product>)
    requires FieldTruthy(req.featuredProductId) <==> featured.Some?
    ensures featured.Some? ==>
      NewCategory(req, id, slug, featured).imageSource == Some(FromProduct)
      && NewCategory(req, id, slug, featured).imageUrl == FeaturedImageUrl(featured.value.images)
    ensures featured.None? && Truthy(req.imageUploadUrl) ==>
      NewCategory(req, id, slug, featured).imageSource == Some(Upload)
      && NewCategory(req, id, slug, featured).imageUrl == req.imageUploadUrl
    ensures featured.None? && !Truthy(req.imageUploadUrl) ==> NewCategory(req, id, slug, featured).imageSource == None
  {
  }

  /** The update document of lines 144-165 applied to the stored category
      (`findByIdAndUpdate` leaves every other field, the slug included, as
      it was; keys whose value is `undefined` are dropped from the update). */
  function UpdatedCategory(c: Category, req: CategoryRequest, featured: Option<Product>): (u: Category)
    requires FieldTruthy(req.featuredProductId) <==> featured.Some?
    ensures u.id == c.id && u.slug == c.slug && u.name == req.name
    ensures u.productIds == if req.productIds.Some? then AsStored(req.productIds.value) else c.productIds
  {
    var base := c.(name := req.name,
                   productIds := if req.productIds.Some? then AsStored(req.productIds.value) else c.productIds);
    var withUpload := if Truthy(req.imageUploadUrl)
      then base.(imageUrl := req.imageUploadUrl, imageSource := Some(Upload))
      else base;
    if featured.Some? then
      var url := FeaturedImageUrl(featured.value.images);
      withUpload.(imageUrl := if url.Some? then url else c.imageUrl,
                  imageSource := Some(FromProduct),
                  featuredProductId := Some(featured.value.id))
    else if req.featuredProductId.NullValue? then
      withUpload.(featuredProductId := None,
                  imageSource := if Truthy(req.imageUploadUrl) then withUpload.imageSource else None)
    else withUpload
  }

  /** `featuredProductId: null` clears the featured product, and clears the
      image source too unless an upload URL came with it. */
  lemma UpdateNullFeatured(c: Category, req: CategoryRequest)
    requires req.featuredProductId.NullValue?
    ensures UpdatedCategory(c, req, None).featuredProductId == None
    ensures UpdatedCategory(c, req, None).imageSource == if Truthy(req.imageUploadUrl) then Some(Upload) else None
  {
  }

  /** A featured product sets the source to "product" and, when it has an
      image, the URL to its featured image; this wins over an upload URL.
      A featured product without images sets the URL key to `undefined`,
      which the update drops, so the stored URL stays, upload or not. */
  lemma UpdateFeatured(c: Category, req: CategoryRequest, p: Product)
    requires FieldTruthy(req.featuredProductId)
    ensures UpdatedCategory(c, req, Some(p)).imageSource == Some(FromProduct)
    ensures UpdatedCategory(c, req, Some(p)).featuredProductId == Some(p.id)
    ensures |p.images| > 0 ==> UpdatedCategory(c, req, Some(p)).imageUrl == FeaturedImageUrl(p.images)
    ensures |p.images| == 0 ==> UpdatedCategory(c, req, Some(p)).imageUrl == c.imageUrl
  {
  }

  /** An absent `featuredProductId` leaves the featured product alone; an
      upload URL alone is marked "upload". */
  lemma UpdateUploadOnly(c: Category, req: CategoryRequest)
    requires req.featuredProductId.Absent?
    ensures UpdatedCategory(c, req, None).featuredProductId == c.featuredProductId
    ensures Truthy(req.imageUploadUrl) ==>
      UpdatedCategory(c, req, None).imageSource == Some(Upload)
      && UpdatedCategory(c, req, None).imageUrl == req.imageUploadUrl
    ensures !Truthy(req.imageUploadUrl) ==>
      UpdatedCategory(c, req, None).imageSource == c.imageSource
      && UpdatedCategory(c, req, None).imageUrl == c.imageUrl
  {
  }

  // ---------------------------------------------------------------------
  // The product synchronisation after an update.

  /** The ids in `a` that are not in `b` (`a.filter(id => !b.includes(id))`):
      a comparison of the strings, before any cast. */
  function Minus(a: seq<string>, b: seq<string>): set<string> {
    set x | x in a && x !in b
  }

  /** The products after an update's three `updateMany` calls: the rename,
      the `$addToSet` for added ids and the `$pull` for removed ids. */
  function SyncAfterUpdate(ps: seq<Product>, oldName: string, oldIds: seq<string>, name: string, newIds: seq<string>): seq<Product> {
    var renamed := if name != "" && name != oldName then RenameCategory(ps, oldName, name) else ps;
    PullCategoryWhere(AddCategoryWhere(renamed, CastAll(Minus(newIds, oldIds)), name), CastAll(Minus(oldIds, newIds)), name)
  }

  /** The update's diff: a product newly assigned carries the name exactly
      once more than needed, i.e. at least once and without a second copy
      added; a product unassigned loses every occurrence; a product in both
      lists, or in neither, is only renamed. */
  lemma SyncDiff(ps: seq<Product>, oldName: string, oldIds: seq<string>, name: string, newIds: seq<string>, i: nat)
    requires i < |ps|
    requires forall x :: x in oldIds ==> IsStoredId(x)
    requires forall x :: x in newIds ==> IsStoredId(x)
    ensures |SyncAfterUpdate(ps, oldName, oldIds, name, newIds)| == |ps|
    ensures var q := SyncAfterUpdate(ps, oldName, oldIds, name, newIds)[i];
      var renamed := if name != "" && name != oldName then RenameCategory(ps, oldName, name)[i] else ps[i];
      && (ps[i].id in newIds && ps[i].id !in oldIds ==> q.category == AddToSet(renamed.category, name))
      && (ps[i].id in oldIds && ps[i].id !in newIds ==> q.category == RemoveAll(renamed.category, name))
      && ((ps[i].id in oldIds) == (ps[i].id in newIds) ==> q == renamed)
  {
    CastAllStored(Minus(newIds, oldIds));
    CastAllStored(Minus(oldIds, newIds));
    var id := ps[i].id;
    assert id in Minus(newIds, oldIds) <==> id in newIds && id !in oldIds;
    assert id in Minus(oldIds, newIds) <==> id in oldIds && id !in newIds;
  }

  /** Re-sending a listed id in another letter case unlinks its product:
      the string diff counts the id both as added and as removed, and the
      `$pull` runs after the `$addToSet`, while the stored list still names
      the product. */
  lemma SyncRecasedIdUnlinks(ps: seq<Product>, name: string, oldIds: seq<string>, newIds: seq<string>, i: nat, x: string)
    requires i < |ps| && IsStoredId(ps[i].id)
    requires ps[i].id in oldIds && ps[i].id !in newIds
    requires x in newIds && x !in oldIds && IsObjectId(x) && Nibbles(x) == Nibbles(ps[i].id)
    ensures name !in SyncAfterUpdate(ps, name, oldIds, name, newIds)[i].category
    ensures ps[i].id in AsStored(newIds)
  {
    SameObjectIdIff(ps[i].id, x);
    CastStored(ps[i].id);
    assert ps[i].id in Minus(oldIds, newIds);
    assert ps[i].id in CastAll(Minus(oldIds, newIds));
    var j :| 0 <= j < |newIds| && newIds[j] == x;
    assert AsStored(newIds)[j] == ps[i].id;
  }

  lemma SyncKeepsKeys(ps: seq<Product>, oldName: string, oldIds: seq<string>, name: string, newIds: seq<string>)
    ensures OnlyCategoriesDiffer(ps, SyncAfterUpdate(ps, oldName, oldIds, name, newIds))
  {
  }

  /** A product newly assigned ends with the name exactly once when it did
      not carry it before. */
  lemma SyncAddsOnce(ps: seq<Product>, oldName: string, oldIds: seq<string>, newIds: seq<string>, name: string, i: nat)
    requires i < |ps| && name == oldName
    requires forall x :: x in oldIds ==> IsStoredId(x)
    requires forall x :: x in newIds ==> IsStoredId(x)
    requires ps[i].id in newIds && ps[i].id !in oldIds && name !in ps[i].category
    ensures multiset(SyncAfterUpdate(ps, oldName, oldIds, name, newIds)[i].category)[name] == 1
  {
    SyncDiff(ps, oldName, oldIds, name, newIds, i);
  }

  // ---------------------------------------------------------------------
  // The endpoints.

  predicate NameTaken(cs: seq<Category>, name: string) {
    exists i :: 0 <= i < |cs| && cs[i].name == name
  }

  predicate SlugTaken(cs: seq<Category>, slug: string) {
    exists i :: 0 <= i < |cs| && cs[i].slug == slug
  }

  /** Some category other than the one at `k` has this name. */
  predicate NameClash(cs: seq<Category>, k: nat, name: string) {
    exists j :: 0 <= j < |cs| && j != k && cs[j].name == name
  }

  /** A truthy `featuredProductId` casts and names a stored product. */
  predicate FeaturedFound(ps: seq<Product>, f: Field) {
    FieldTruthy(f) ==> IsObjectId(f.text) && FindProduct(ps, f.text).Some?
  }

  /** The product `Product.findById(featuredProductId)` returns. */
  function Featured(ps: seq<Product>, f: Field): (r: Option<Product>)
    requires FeaturedFound(ps, f)
    ensures r.Some? <==> FieldTruthy(f)
    ensures r.Some? ==> r.value in ps && r.value.id == CastId(f.text)
  {
    if FieldTruthy(f) then Some(ps[FindProduct(ps, f.text).value]) else None
  }

  /** Every id in a supplied `productIds` casts to an ObjectId. */
  predicate ProductIdsCast(ids: Option<seq<string>>) {
    ids.Some? ==> AllObjectIds(ids.value)
  }

  const NameRequired := Thrown("ValidationError", "Category validation failed: name: Category name is required", NoCode)
  const UpdateNameRequired := Thrown("ValidationError", "Validation failed: name: Category name is required", NoCode)

  /** `createCategory`. The slug comes from `slugify(name)` in the
      pre-save hook; `newId` is the fresh `_id`. */
  method CreateCategory(db: Store, req: CategoryRequest, newId: string, slugify: string -> string)
    returns (r: Outcome<Category>)
    requires db.Valid()
    requires IsStoredId(newId) && forall i :: 0 <= i < |db.categories| ==> db.categories[i].id != newId
    modifies db
    ensures db.Valid()
    ensures db.feedback == old(db.feedback) && db.deletions == old(db.deletions)
    ensures r.Fail? ==> db.products == old(db.products) && db.categories == old(db.categories)
    ensures r.Ok? <==>
      && !NameTaken(old(db.categories), req.name)
      && FeaturedFound(old(db.products), req.featuredProductId)
      && req.name != ""
      && !SlugTaken(old(db.categories), slugify(req.name))
    ensures NameTaken(old(db.categories), req.name) ==> r == Fail(ApiError(400, "Category with this name already exists"))
    ensures !NameTaken(old(db.categories), req.name) && FieldTruthy(req.featuredProductId) ==>
      && (!IsObjectId(req.featuredProductId.text) ==> r == Fail(CastFailure("_id")))
      && (IsObjectId(req.featuredProductId.text) && FindProduct(old(db.products), req.featuredProductId.text).None? ==>
            r == Fail(ApiError(404, "Featured product not found")))
    ensures !NameTaken(old(db.categories), req.name) && FeaturedFound(old(db.products), req.featuredProductId) ==>
      && (req.name == "" ==> r == Fail(NameRequired))
      && (req.name != "" && SlugTaken(old(db.categories), slugify(req.name)) ==>
            r == Fail(DuplicateKey("categories index: slug_1")))
    ensures r.Ok? ==>
      && r.value == NewCategory(req, newId, slugify(req.name), Featured(old(db.products), req.featuredProductId))
      && db.categories == old(db.categories) + [r.value]
      && db.products == if req.productIds.Some? && |req.productIds.value| > 0
           then AddCategoryWhere(old(db.products), CastAll(SetOf(req.productIds.value)), req.name)
           else old(db.products)
  {
    if NameTaken(db.categories, req.name) {
      return Fail(ApiError(400, "Category with this name already exists"));
    }
    if FieldTruthy(req.featuredProductId) {
      if !IsObjectId(req.featuredProductId.text) {
        return Fail(CastFailure("_id"));
      }
      var k := FindProduct(db.products, req.featuredProductId.text);
      if k.None? {
        return Fail(ApiError(404, "Featured product not found"));
      }
    }
    var featured := Featured(db.products, req.featuredProductId);
    if req.name == "" {
      return Fail(NameRequired);
    }
    var slug := slugify(req.name);
    if SlugTaken(db.categories, slug) {
      return Fail(DuplicateKey("categories index: slug_1"));
    }
    var category := NewCategory(req, newId, slug, featured);
    AppendCategoryKeys(db.categories, category);
    db.categories := db.categories + [category];
    if req.productIds.Some? && |req.productIds.value| > 0 {
      var before := db.products;
      db.products := AddCategoryWhere(db.products, CastAll(SetOf(req.productIds.value)), req.name);
      assert OnlyCategoriesDiffer(before, db.products);
      OnlyCategoriesDifferKeepsKeys(before, db.products);
    }
    r := Ok(category);
  }

  /** A category with a fresh id, a free name and a free slug keeps the
      keys unique. */
  lemma AppendCategoryKeys(cs: seq<Category>, c: Category)
    requires CategoryKeysUnique(cs) && forall i :: 0 <= i < |cs| ==> cs[i].id != c.id
    requires !NameTaken(cs, c.name) && !SlugTaken(cs, c.slug)
    ensures CategoryKeysUnique(cs + [c])
  {
  }

  /** `updateCategory` with the request fields read from the body, as
      `createCategory` reads them. Ids are cast where they are used: the
      path id and the featured id by their lookups, `productIds` by the
      update itself, before its validators run. */
  method UpdateCategory(db: Store, id: string, req: CategoryRequest) returns (r: Outcome<Category>)
    requires db.Valid()
    modifies db
    ensures db.Valid()
    ensures db.feedback == old(db.feedback) && db.deletions == old(db.deletions)
    ensures r.Fail? ==> db.products == old(db.products) && db.categories == old(db.categories)
    ensures !IsObjectId(id) ==> r == Fail(CastFailure("_id"))
    ensures IsObjectId(id) && FindCategory(old(db.categories), id).None? ==> r == Fail(ApiError(404, "Category not found"))
    ensures IsObjectId(id) && FindCategory(old(db.categories), id).Some? ==>
      var k := FindCategory(old(db.categories), id).value;
      var f := req.featuredProductId;
      var checked := FeaturedFound(old(db.products), f) && ProductIdsCast(req.productIds);
      && (FieldTruthy(f) && !IsObjectId(f.text) ==> r == Fail(CastFailure("_id")))
      && (FieldTruthy(f) && IsObjectId(f.text) && FindProduct(old(db.products), f.text).None? ==>
            r == Fail(ApiError(404, "Featured product not found")))
      && (FeaturedFound(old(db.products), f) && !ProductIdsCast(req.productIds) ==> r == Fail(CastFailure("productIds")))
      && (checked && req.name == "" ==> r == Fail(UpdateNameRequired))
      && (checked && req.name != "" && NameClash(old(db.categories), k, req.name) ==>
            r == Fail(DuplicateKey("categories index: name_1")))
      && (checked && req.name != "" && !NameClash(old(db.categories), k, req.name) ==> r.Ok?)
    ensures r.Ok? ==>
      var k := FindCategory(old(db.categories), id).value;
      var c := old(db.categories)[k];
      && FeaturedFound(old(db.products), req.featuredProductId)
      && r.value == UpdatedCategory(c, req, Featured(old(db.products), req.featuredProductId))
      && db.categories == old(db.categories)[k := r.value]
      && db.products == SyncAfterUpdate(old(db.products), c.name, c.productIds, req.name,
                                        if req.productIds.Some? then req.productIds.value else [])
  {
    if !IsObjectId(id) {
      return Fail(CastFailure("_id"));
    }
    var found := FindCategory(db.categories, id);
    if found.None? {
      return Fail(ApiError(404, "Category not found"));
    }
    var k := found.value;
    var c := db.categories[k];
    var oldName := c.name;
    var oldProductIds := c.productIds;

    if FieldTruthy(req.featuredProductId) {
      if !IsObjectId(req.featuredProductId.text) {
        return Fail(CastFailure("_id"));
      }
      var p := FindProduct(db.products, req.featuredProductId.text);
      if p.None? {
        return Fail(ApiError(404, "Featured product not found"));
      }
    }
    var updated := UpdatedCategory(c, req, Featured(db.products, req.featuredProductId));
    if !ProductIdsCast(req.productIds) {
      return Fail(CastFailure("productIds"));
    }
    if req.name == "" {
      return Fail(UpdateNameRequired);
    }
    if NameClash(db.categories, k, req.name) {
      return Fail(DuplicateKey("categories index: name_1"));
    }
    db.categories := db.categories[k := updated];

    var newProductIds := if req.productIds.Some? then req.productIds.value else [];
    SyncProducts(db, oldName, oldProductIds, req.name, newProductIds);
    r := Ok(updated);
  }

  /** The product side of `updateCategory`: rename the old name, then add
      the name to newly assigned products and pull it from unassigned ones. */
  method SyncProducts(db: Store, oldName: string, oldIds: seq<string>, name: string, newIds: seq<string>)
    requires db.Valid()
    modifies db
    ensures db.Valid()
    ensures db.categories == old(db.categories) && db.feedback == old(db.feedback) && db.deletions == old(db.deletions)
    ensures db.products == SyncAfterUpdate(old(db.products), oldName, oldIds, name, newIds)
  {
    var before := db.products;
    if name != "" && name != oldName {
      db.products := RenameCategory(db.products, oldName, name);
    }
    var added := Minus(newIds, oldIds);
    if added != {} {
      db.products := AddCategoryWhere(db.products, CastAll(added), name);
    } else {
      EmptyInMatchesNothing(db.products, name);
    }
    var removed := Minus(oldIds, newIds);
    if removed != {} {
      db.products := PullCategoryWhere(db.products, CastAll(removed), name);
    } else {
      EmptyInMatchesNothing(db.products, name);
    }
    SyncKeepsKeys(before, oldName, oldIds, name, newIds);
    OnlyCategoriesDifferKeepsKeys(before, db.products);
  }

  /** An empty `$in` list matches no product, so skipping the call changes
      nothing. */
  lemma EmptyInMatchesNothing(ps: seq<Product>, name: string)
    ensures AddCategoryWhere(ps, CastAll({}), name) == ps
    ensures PullCategoryWhere(ps, CastAll({}), name) == ps
  {
    assert CastAll({}) == {};
  }

  /** `updateCategory` as the source has it: after the lookup, the first
      use of the undeclared `name` throws a `ReferenceError`, so nothing is
      written. */
  method UpdateCategoryAsWritten(db: Store, id: string) returns (r: Outcome<Category>)
    ensures !IsObjectId(id) ==> r == Fail(CastFailure("_id"))
    ensures IsObjectId(id) && FindCategory(db.categories, id).None? ==> r == Fail(ApiError(404, "Category not found"))
    ensures IsObjectId(id) && FindCategory(db.categories, id).Some? ==>
      r == Fail(Thrown("ReferenceError", "name is not defined", NoCode))
  {
    if !IsObjectId(id) {
      return Fail(CastFailure("_id"));
    }
    var found := FindCategory(db.categories, id);
    if found.None? {
      return Fail(ApiError(404, "Category not found"));
    }
    r := Fail(Thrown("ReferenceError", "name is not defined", NoCode));
  }

  /** Every update of an existing category, whatever the request, ends in
      the generic 500 response. */
  lemma AsWrittenUpdateFails()
    ensures HandleError(Thrown("ReferenceError", "name is not defined", NoCode))
      == ErrorResponse(500, false, "Internal server error")
  {
  }

  /** `deleteCategory`: the name is pulled from every product. */
  method DeleteCategory(db: Store, id: string) returns (r: Outcome<Category>)
    requires db.Valid()
    modifies db
    ensures db.Valid()
    ensures db.feedback == old(db.feedback) && db.deletions == old(db.deletions)
    ensures r.Ok? <==> IsObjectId(id) && FindCategory(old(db.categories), id).Some?
    ensures r.Fail? ==> unchanged(db)
    ensures !IsObjectId(id) ==> r == Fail(CastFailure("_id"))
    ensures IsObjectId(id) && FindCategory(old(db.categories), id).None? ==> r == Fail(ApiError(404, "Category not found"))
    ensures r.Ok? ==>
      var k := FindCategory(old(db.categories), id).value;
      && r.value == old(db.categories)[k]
      && db.categories == RemoveAt(old(db.categories), k)
      && db.products == PullCategoryAll(old(db.products), r.value.name)
  {
    if !IsObjectId(id) {
      return Fail(CastFailure("_id"));
    }
    var found := FindCategory(db.categories, id);
    if found.None? {
      return Fail(ApiError(404, "Category not found"));
    }
    var category := db.categories[found.value];
    db.categories := RemoveAt(db.categories, found.value);
    var before := db.products;
    db.products := PullCategoryAll(db.products, category.name);
    PullAllRemovesName(before, category.name);
    OnlyCategoriesDifferKeepsKeys(before, db.products);
    r := Ok(category);
  }
}
