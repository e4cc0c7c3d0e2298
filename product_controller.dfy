/** The product endpoints: the paged, filtered and sorted listing, lookup by
    slug or id, and the write paths with their image bookkeeping. Every
    image the image host should forget is recorded in `Store.deletions`. */
module ProductController {
  import opened Base
  import opened Text
  import opened Sorting
  import opened Catalog
  import opened ErrorHandler

  // ---------------------------------------------------------------------
  // `getProducts`: query arithmetic.

  /** The query string of `GET /api/products`; `None` is an absent key. */
  datatype QueryParams = QueryParams(
    page: Option<string>,
    limit: Option<string>,
    search: Option<string>,
    category: Option<string>,
    sort: Option<string>)

  /** `parseInt(text, 10) || fallback`: `NaN` and `0` are both falsy. */
  function ParsedOr(text: string, fallback: int): int {
    match ParseInt(text)
    case Some(n) => if n != 0 then n else fallback
    case None => fallback
  }

  function Max(a: int, b: int): int { if a >= b then a else b }

  /** `Math.max(1, parseInt(page, 10) || 1)`, with `page` defaulting to "1". */
  function PageNum(page: Option<string>): int {
    Max(1, ParsedOr(if page.Some? then page.value else "1", 1))
  }

  /** `Math.min(50, Math.max(1, parseInt(limit, 10) || 20))`, with `limit`
      defaulting to "20". */
  function LimitNum(limit: Option<string>): int {
    Min(50, Max(1, ParsedOr(if limit.Some? then limit.value else "20", 20)))
  }

  /** The page number is at least 1: a positive number is taken as it is;
      zero, a negative number or text that is not a number gives 1. */
  lemma PageNumCases(page: Option<string>)
    ensures PageNum(page) >= 1
    ensures page.Some? ==> match ParseInt(page.value)
      case Some(n) => PageNum(page) == if n >= 1 then n else 1
      case None => PageNum(page) == 1
    ensures page.None? ==> PageNum(page) == 1
  {
    if page.None? {
      assert "1" == NatText(1);
      ParseIntNat(1);
    }
  }

  /** The limit lies in [1, 50]: 0 or text that is not a number gives the
      default 20, a negative limit gives 1 and anything above 50 gives 50. */
  lemma LimitNumCases(limit: Option<string>)
    ensures 1 <= LimitNum(limit) <= 50
    ensures limit.Some? ==> match ParseInt(limit.value)
      case Some(n) => LimitNum(limit) == if n == 0 then 20 else if n < 1 then 1 else if n > 50 then 50 else n
      case None => LimitNum(limit) == 20
    ensures limit.None? ==> LimitNum(limit) == 20
  {
    if limit.None? {
      assert "20" == NatText(20);
      ParseIntNat(20);
    }
  }

  /** The same for a limit written as an integer: `limit=7` gives 7,
      `limit=0` gives 20, `limit=-3` gives 1, `limit=80` gives 50. */
  lemma LimitOfInteger(n: int)
    ensures LimitNum(Some(IntText(n))) == if n == 0 then 20 else if n < 1 then 1 else if n > 50 then 50 else n
  {
    ParseIntText(n);
  }

  function TotalPages(total: nat, limitNum: nat): (r: nat)
    requires limitNum > 0
    ensures r * limitNum >= total && (r == 0 || (r - 1) * limitNum < total)
  {
    CeilDiv(total, limitNum)
  }

  // ---------------------------------------------------------------------
  // `getProducts`: filter and sort.

  /** `if (search)`: the search applies only to a non-empty term; it is a
      case-insensitive substring test on the name or the description (the
      term is taken to hold no regular-expression metacharacters). */
  predicate MatchesSearch(p: Product, search: Option<string>) {
    search.None? || search.value == ""
    || Contains(Lower(p.name), Lower(search.value))
    || Contains(Lower(p.description), Lower(search.value))
  }

  /** `if (category && category !== "All")`: the anchored, case-insensitive
      pattern matches an array when it matches one of its entries. */
  predicate MatchesCategory(p: Product, category: Option<string>) {
    category.None? || category.value == "" || category.value == "All"
    || exists k :: 0 <= k < |p.category| && Lower(p.category[k]) == Lower(category.value)
  }

  function Matches(q: QueryParams): Product -> bool {
    (p: Product) => MatchesSearch(p, q.search) && MatchesCategory(p, q.category)
  }

  datatype SortKey = Newest | PriceLow | PriceHigh

  /** The `switch (sort)`: any key other than the two price keys is newest
      first. */
  function SortKeyOf(sort: Option<string>): (k: SortKey)
    ensures k == PriceLow <==> sort == Some("price-low")
    ensures k == PriceHigh <==> sort == Some("price-high")
  {
    if sort == Some("price-low") then PriceLow
    else if sort == Some("price-high") then PriceHigh
    else Newest
  }

  /** `{createdAt: -1}`, `{price: 1}`, `{price: -1}`. */
  function ProductLe(k: SortKey): (Product, Product) -> bool {
    match k
    case Newest => (a: Product, b: Product) => a.createdAt >= b.createdAt
    case PriceLow => (a: Product, b: Product) => a.price <= b.price
    case PriceHigh => (a: Product, b: Product) => a.price >= b.price
  }

  lemma ProductLePreorder(k: SortKey)
    ensures TotalPreorder(ProductLe(k))
  {
  }

  datatype ProductsPage = ProductsPage(data: seq<Product>, page: int, limit: int, total: nat, totalPages: nat)

  /** The whole response of `getProducts`. */
  function GetProducts(ps: seq<Product>, q: QueryParams): ProductsPage {
    LimitNumCases(q.limit);
    Listing(ps, q, PageNum(q.page), LimitNum(q.limit))
  }

  /** The response for the parsed page number and limit: the matches in the
      requested order, from item `(pageNum - 1) * limitNum` on. */
  function Listing(ps: seq<Product>, q: QueryParams, pageNum: int, limitNum: nat): ProductsPage
    requires limitNum > 0
  {
    var matching := Sort(Filter(ps, Matches(q)), ProductLe(SortKeyOf(q.sort)));
    ProductsPage(Page(matching, pageNum, limitNum), pageNum, limitNum, |matching|, TotalPages(|matching|, limitNum))
  }

  /** The page holds at most `limit` products, each passing the filter, in
      the requested order; `total` counts every match. The page starts at
      item `(pageNum - 1) * limitNum` of the ordered matches. */
  lemma GetProductsShape(ps: seq<Product>, q: QueryParams)
    ensures var r := GetProducts(ps, q);
      && 1 <= r.limit <= 50 && r.page >= 1
      && |r.data| <= r.limit
      && (forall i :: 0 <= i < |r.data| ==> Matches(q)(r.data[i]))
      && Sorted(r.data, ProductLe(SortKeyOf(q.sort)))
      && r.total == |Filter(ps, Matches(q))|
      && r.totalPages == CeilDiv(r.total, r.limit)
  {
    PageNumCases(q.page);
    LimitNumCases(q.limit);
    ListingShape(Filter(ps, Matches(q)), Matches(q), ProductLe(SortKeyOf(q.sort)), PageNum(q.page), LimitNum(q.limit));
  }

  /** The same, for any filtered list and comparator. */
  lemma ListingShape(filtered: seq<Product>, f: Product -> bool, le: (Product, Product) -> bool, p: int, size: nat)
    requires size > 0 && p >= 1 && TotalPreorder(le)
    requires forall i :: 0 <= i < |filtered| ==> f(filtered[i])
    ensures |Page(Sort(filtered, le), p, size)| <= size
    ensures forall i :: 0 <= i < |Page(Sort(filtered, le), p, size)| ==> f(Page(Sort(filtered, le), p, size)[i])
    ensures Sorted(Page(Sort(filtered, le), p, size), le)
  {
    var matching := Sort(filtered, le);
    SortSorted(filtered, le);
    PageShape(matching, p, size);
    PageSorted(matching, p, size, le);
    var data := Page(matching, p, size);
    forall i | 0 <= i < |data| ensures f(data[i]) {
      assert data[i] in multiset(matching);
      assert data[i] in multiset(filtered);
      var j :| 0 <= j < |filtered| && filtered[j] == data[i];
    }
  }

  /** A page number written as a positive integer is taken as it is. */
  lemma PageOfInteger(n: int)
    requires n >= 1
    ensures PageNum(Some(IntText(n))) == n
  {
    ParseIntText(n);
  }

  /** Every match is on some page between 1 and `totalPages`: page
      `i / limit + 1` shows match `i` of the ordered list as item
      `i % limit`. `PageOfInteger` is how a client asks for that page. */
  lemma ListingCovers(ps: seq<Product>, q: QueryParams, limitNum: nat, i: nat)
    requires limitNum > 0 && i < |Filter(ps, Matches(q))|
    ensures var r := Listing(ps, q, i / limitNum + 1, limitNum);
      && 1 <= i / limitNum + 1 <= r.totalPages
      && i % limitNum < |r.data|
      && r.data[i % limitNum] == Sort(Filter(ps, Matches(q)), ProductLe(SortKeyOf(q.sort)))[i]
  {
    PageCovers(Sort(Filter(ps, Matches(q)), ProductLe(SortKeyOf(q.sort))), limitNum, i);
  }

  // ---------------------------------------------------------------------
  // `getProductBySlug`.

  function FindBySlug(ps: seq<Product>, slug: string): (r: Option<nat>)
    ensures r.Some? ==> r.value < |ps| && ps[r.value].slug == slug
    ensures r.None? ==> forall i :: 0 <= i < |ps| ==> ps[i].slug != slug
  {
    if |ps| == 0 then None
    else if ps[0].slug == slug then Some(0)
    else match FindBySlug(ps[1..], slug)
      case None => None
      case Some(k) => Some(k + 1)
  }

  /** The parameter is tried as a slug first, then as an id (an id that is
      not an ObjectId finds nothing, as the swallowed cast error does). */
  function GetProductBySlug(ps: seq<Product>, key: string): (r: Outcome<Product>)
    ensures FindBySlug(ps, key).Some? ==> r == Ok(ps[FindBySlug(ps, key).value])
    ensures FindBySlug(ps, key).None? && IsObjectId(key) && FindProduct(ps, key).Some? ==>
      r == Ok(ps[FindProduct(ps, key).value])
    ensures r.Fail? <==> FindBySlug(ps, key).None? && (IsObjectId(key) ==> FindProduct(ps, key).None?)
    ensures r.Fail? ==> r.error == ApiError(404, "Product not found")
  {
    match FindBySlug(ps, key)
    case Some(k) => Ok(ps[k])
    case None =>
      if !IsObjectId(key) then Fail(ApiError(404, "Product not found"))
      else match FindProduct(ps, key)
        case Some(k) => Ok(ps[k])
        case None => Fail(ApiError(404, "Product not found"))
  }

  /** A slug match wins even when another product has that string as its
      id. */
  lemma SlugBeforeId(ps: seq<Product>, i: nat, j: nat)
    requires ProductKeysUnique(ps)
    requires i < |ps| && j < |ps| && ps[j].id == ps[i].slug
    ensures GetProductBySlug(ps, ps[i].slug) == Ok(ps[i])
  {
    var k := FindBySlug(ps, ps[i].slug).value;
    assert k == i;
  }

  // ---------------------------------------------------------------------
  // The write paths.

  /** Some stored product already has this slug. */
  predicate SlugUsed(ps: seq<Product>, slug: string) {
    exists i :: 0 <= i < |ps| && ps[i].slug == slug
  }

  /** Some stored product other than the one at `k` has this slug. */
  predicate SlugClash(ps: seq<Product>, k: nat, slug: string) {
    exists i :: 0 <= i < |ps| && i != k && ps[i].slug == slug
  }

  /** `createProduct`: the images must be a non-empty array; the slug comes
      from the name on save. */
  method CreateProduct(db: Store, images: ListField<Image>, fields: Product, newId: string, now: int,
                       slugify: string -> string)
    returns (r: Outcome<Product>)
    requires db.Valid()
    requires IsStoredId(newId) && forall i :: 0 <= i < |db.products| ==> db.products[i].id != newId
    modifies db
    ensures db.Valid()
    ensures db.categories == old(db.categories) && db.feedback == old(db.feedback) && db.deletions == old(db.deletions)
    ensures !(images.Items? && |images.items| > 0) ==>
      r == Fail(ApiError(400, "At least one product image is required")) && db.products == old(db.products)
    ensures images.Items? && |images.items| > 0 ==>
      var u := fields.(id := newId, slug := slugify(fields.name), images := images.items, createdAt := now);
      && (SlugUsed(old(db.products), u.slug) ==>
            r == Fail(DuplicateKey("products index: slug_1")) && db.products == old(db.products))
      && (!SlugUsed(old(db.products), u.slug) ==> r == Ok(u) && db.products == old(db.products) + [u])
  {
    if !(images.Items? && |images.items| > 0) {
      return Fail(ApiError(400, "At least one product image is required"));
    }
    var product := fields.(id := newId, slug := slugify(fields.name), images := images.items, createdAt := now);
    if SlugUsed(db.products, product.slug) {
      return Fail(DuplicateKey("products index: slug_1"));
    }
    db.products := db.products + [product];
    r := Ok(product);
  }

  /** The test `img.publicId` is not among `ids`. */
  function Unlisted(ids: seq<string>): Image -> bool {
    (img: Image) => img.publicId !in ids
  }

  /** `images.filter(img => img.publicId !== id)`. */
  function DropPublicId(images: seq<Image>, id: string): seq<Image> {
    Filter(images, Unlisted([id]))
  }

  /** The image list after the removal loop over `ids`. */
  function RemoveImages(images: seq<Image>, ids: seq<string>): seq<Image> {
    if ids == [] then images
    else DropPublicId(RemoveImages(images, ids[..|ids| - 1]), ids[|ids| - 1])
  }

  /** The loop keeps exactly the images whose public id is not in the
      removal list, in their original order. */
  lemma {:induction false} RemoveImagesKeeps(images: seq<Image>, ids: seq<string>)
    ensures RemoveImages(images, ids) == Filter(images, Unlisted(ids))
  {
    if ids == [] {
      UnlistedNone(images);
    } else {
      var front, id := ids[..|ids| - 1], ids[|ids| - 1];
      RemoveImagesKeeps(images, front);
      RemoveImagesStep(images, front, id);
      assert ids == front + [id];
    }
  }

  lemma UnlistedNone(images: seq<Image>)
    ensures Filter(images, Unlisted([])) == images
  {
    FilterAll(images, Unlisted([]));
  }

  lemma RemoveImagesStep(images: seq<Image>, front: seq<string>, id: string)
    requires RemoveImages(images, front) == Filter(images, Unlisted(front))
    ensures RemoveImages(images, front + [id]) == Filter(images, Unlisted(front + [id]))
  {
    UnlistedSplit(front, id);
    FilterFilter(images, Unlisted(front), Unlisted([id]), Unlisted(front + [id]));
    assert (front + [id])[..|front + [id]| - 1] == front;
  }

  lemma UnlistedSplit(front: seq<string>, id: string)
    ensures forall img: Image :: Unlisted(front + [id])(img) == (Unlisted(front)(img) && Unlisted([id])(img))
  {
    forall img: Image ensures Unlisted(front + [id])(img) == (Unlisted(front)(img) && Unlisted([id])(img)) {
      assert img.publicId in front + [id] <==> img.publicId in front || img.publicId == id;
    }
  }

  /** The fields `Object.assign` copies from the body onto the document;
      `None` is a key the body does not carry. */
  datatype ProductPatch = ProductPatch(
    name: Option<string>,
    slug: Option<string>,
    price: Option<real>,
    category: Option<seq<string>>,
    description: Option<string>,
    features: Option<seq<string>>,
    inStock: Option<bool>,
    rating: Option<real>,
    reviews: Option<int>,
    stylingTip: Option<string>,
    affiliateLink: Option<string>)

  function Pick<T>(given: Option<T>, current: T): T {
    if given.Some? then given.value else current
  }

  /** `Object.assign(product, updateData)` followed by the pre-save hook,
      which recomputes the slug only when the name changed: a changed name
      overrides a slug the body carries, and an unchanged one keeps it. */
  function ApplyPatch(p: Product, patch: ProductPatch, slugify: string -> string): (u: Product)
    ensures u.id == p.id && u.images == p.images && u.createdAt == p.createdAt
    ensures u.slug == if u.name != p.name then slugify(u.name) else Pick(patch.slug, p.slug)
  {
    var named := Pick(patch.name, p.name);
    p.(name := named,
       slug := if named != p.name then slugify(named) else Pick(patch.slug, p.slug),
       price := Pick(patch.price, p.price),
       category := Pick(patch.category, p.category),
       description := Pick(patch.description, p.description),
       features := Pick(patch.features, p.features),
       inStock := Pick(patch.inStock, p.inStock),
       rating := Pick(patch.rating, p.rating),
       reviews := Pick(patch.reviews, p.reviews),
       stylingTip := if patch.stylingTip.Some? then patch.stylingTip else p.stylingTip,
       affiliateLink := if patch.affiliateLink.Some? then patch.affiliateLink else p.affiliateLink)
  }

  /** An empty patch changes nothing. */
  lemma EmptyPatch(p: Product, slugify: string -> string)
    ensures ApplyPatch(p, ProductPatch(None, None, None, None, None, None, None, None, None, None, None), slugify) == p
  {
  }

  /** The image list `updateProduct` would save: the removals, then a
      supplied array replaces the list wholesale. */
  function FinalImages(images: seq<Image>, removed: ListField<string>, newImages: ListField<Image>): seq<Image> {
    var kept := if removed.Items? then RemoveImages(images, removed.items) else images;
    if newImages.Items? then newImages.items else kept
  }

  /** A supplied array wins over the removals; without one, the list keeps
      exactly the images not named for removal. */
  lemma FinalImagesCases(images: seq<Image>, removed: ListField<string>, newImages: ListField<Image>)
    ensures newImages.Items? ==> FinalImages(images, removed, newImages) == newImages.items
    ensures !newImages.Items? && removed.Items? ==>
      FinalImages(images, removed, newImages) == Filter(images, Unlisted(removed.items))
    ensures !newImages.Items? && !removed.Items? ==> FinalImages(images, removed, newImages) == images
  {
    if removed.Items? {
      RemoveImagesKeeps(images, removed.items);
    }
  }

  /** `updateProduct`. The id is cast and looked up first; a deletion is
      then requested for every listed public id before anything else is
      checked, and stays requested even when the update is refused. */
  method UpdateProduct(db: Store, id: string, removed: ListField<string>, newImages: ListField<Image>,
                       patch: ProductPatch, slugify: string -> string)
    returns (r: Outcome<Product>)
    requires db.Valid()
    modifies db
    ensures db.Valid()
    ensures db.categories == old(db.categories) && db.feedback == old(db.feedback)
    ensures r.Fail? ==> db.products == old(db.products)
    ensures !IsObjectId(id) ==> r == Fail(CastFailure("_id")) && unchanged(db)
    ensures IsObjectId(id) && FindProduct(old(db.products), id).None? ==>
      r == Fail(ApiError(404, "Product not found")) && unchanged(db)
    ensures IsObjectId(id) && FindProduct(old(db.products), id).Some? ==>
      var k := FindProduct(old(db.products), id).value;
      var p := old(db.products)[k];
      var images := FinalImages(p.images, removed, newImages);
      var u := ApplyPatch(p.(images := images), patch, slugify);
      && db.deletions == old(db.deletions) + (if removed.Items? then removed.items else [])
      && (|images| == 0 ==> r == Fail(ApiError(400, "Product must have at least one image")))
      && (|images| > 0 && SlugClash(old(db.products), k, u.slug) ==> r == Fail(DuplicateKey("products index: slug_1")))
      && (|images| > 0 && !SlugClash(old(db.products), k, u.slug) ==>
            r == Ok(u) && db.products == old(db.products)[k := u])
  {
    if !IsObjectId(id) {
      return Fail(CastFailure("_id"));
    }
    var found := FindProduct(db.products, id);
    if found.None? {
      return Fail(ApiError(404, "Product not found"));
    }
    var k := found.value;
    var product := db.products[k];
    var images := product.images;

    if removed.Items? {
      images := RemoveListed(db, images, removed.items);
    }

    if newImages.Items? {
      images := newImages.items;
    }
    assert images == FinalImages(product.images, removed, newImages);

    if |images| == 0 {
      return Fail(ApiError(400, "Product must have at least one image"));
    }

    var updated := ApplyPatch(product.(images := images), patch, slugify);
    if SlugClash(db.products, k, updated.slug) {
      return Fail(DuplicateKey("products index: slug_1"));
    }
    KeysUniqueReplace(db.products, k, updated);
    db.products := db.products[k := updated];
    r := Ok(updated);
  }

  /** The removal loop of `updateProduct`: a deletion is requested for each
      listed public id, and the images carrying it are dropped. */
  method RemoveListed(db: Store, images: seq<Image>, ids: seq<string>) returns (kept: seq<Image>)
    modifies db
    ensures kept == RemoveImages(images, ids)
    ensures db.deletions == old(db.deletions) + ids
    ensures db.products == old(db.products) && db.categories == old(db.categories)
    ensures db.feedback == old(db.feedback)
  {
    kept := images;
    var j := 0;
    while j < |ids|
      invariant 0 <= j <= |ids|
      invariant kept == RemoveImages(images, ids[..j])
      invariant db.deletions == old(db.deletions) + ids[..j]
      invariant db.products == old(db.products) && db.categories == old(db.categories)
      invariant db.feedback == old(db.feedback)
    {
      RemoveImagesNext(images, ids, j);
      db.deletions := db.deletions + [ids[j]];
      kept := DropPublicId(kept, ids[j]);
      j := j + 1;
    }
    assert ids[..j] == ids;
  }

  lemma RemoveImagesNext(images: seq<Image>, ids: seq<string>, j: nat)
    requires j < |ids|
    ensures RemoveImages(images, ids[..j + 1]) == DropPublicId(RemoveImages(images, ids[..j]), ids[j])
    ensures ids[..j + 1] == ids[..j] + [ids[j]]
  {
    assert ids[..j + 1][..j] == ids[..j];
  }

  /** Replacing a product by one with the same id and a slug no other
      product has keeps the keys unique. */
  lemma KeysUniqueReplace(ps: seq<Product>, k: nat, u: Product)
    requires ProductKeysUnique(ps) && k < |ps| && u.id == ps[k].id
    requires !SlugClash(ps, k, u.slug)
    ensures ProductKeysUnique(ps[k := u])
  {
  }

  /** `deleteProduct`: the id is cast and looked up, a deletion is requested for each image, then the
      document is removed. */
  method DeleteProduct(db: Store, id: string) returns (r: Outcome<Product>)
    requires db.Valid()
    modifies db
    ensures db.Valid()
    ensures db.categories == old(db.categories) && db.feedback == old(db.feedback)
    ensures r.Ok? <==> IsObjectId(id) && FindProduct(old(db.products), id).Some?
    ensures r.Fail? ==> unchanged(db)
    ensures !IsObjectId(id) ==> r == Fail(CastFailure("_id"))
    ensures IsObjectId(id) && FindProduct(old(db.products), id).None? ==> r == Fail(ApiError(404, "Product not found"))
    ensures r.Ok? ==>
      var k := FindProduct(old(db.products), id).value;
      && r.value == old(db.products)[k]
      && db.deletions == old(db.deletions) + PublicIds(r.value.images)
      && db.products == RemoveAt(old(db.products), k)
  {
    if !IsObjectId(id) {
      return Fail(CastFailure("_id"));
    }
    var found := FindProduct(db.products, id);
    if found.None? {
      return Fail(ApiError(404, "Product not found"));
    }
    var product := db.products[found.value];
    db.deletions := db.deletions + PublicIds(product.images);
    db.products := RemoveAt(db.products, found.value);
    r := Ok(product);
  }

  /** The public ids of all images of the given products, product by
      product. */
  function AllPublicIds(ps: seq<Product>): seq<string> {
    if ps == [] then [] else AllPublicIds(ps[..|ps| - 1]) + PublicIds(ps[|ps| - 1].images)
  }

  lemma AllPublicIdsNext(ps: seq<Product>, j: nat)
    requires j < |ps|
    ensures AllPublicIds(ps[..j + 1]) == AllPublicIds(ps[..j]) + PublicIds(ps[j].images)
  {
    assert ps[..j + 1][..j] == ps[..j];
  }

  /** An id is requested exactly when it is the public id of some image of
      some product given. */
  lemma {:induction false} AllPublicIdsMember(ps: seq<Product>, x: string)
    ensures x in AllPublicIds(ps) <==>
      exists i, j :: 0 <= i < |ps| && 0 <= j < |ps[i].images| && ps[i].images[j].publicId == x
  {
    if ps != [] {
      var front, last := ps[..|ps| - 1], ps[|ps| - 1];
      var ids := PublicIds(last.images);
      AllPublicIdsMember(front, x);
      if x in AllPublicIds(front) {
        var i, j :| 0 <= i < |front| && 0 <= j < |front[i].images| && front[i].images[j].publicId == x;
        assert ps[i] == front[i];
      } else if x in ids {
        var j :| 0 <= j < |ids| && ids[j] == x;
        assert ps[|ps| - 1].images[j].publicId == x;
      }
      if exists i, j :: 0 <= i < |ps| && 0 <= j < |ps[i].images| && ps[i].images[j].publicId == x {
        var i, j :| 0 <= i < |ps| && 0 <= j < |ps[i].images| && ps[i].images[j].publicId == x;
        if i < |front| {
          assert front[i] == ps[i];
        } else {
          assert ids[j] == x;
        }
      }
    }
  }

  /** The `{_id: {$in: ids}}` test: the product's id is one of the listed
      ids once cast. */
  function InIds(ids: seq<string>): Product -> bool {
    (p: Product) => p.id in CastAll(SetOf(ids))
  }

  /** `bulkDeleteProducts`: the ids must be a non-empty array of ObjectIds
      (the `$in` query casts each one); deletions are requested for every image of
      every matching product, then all matching products are removed. */
  method BulkDeleteProducts(db: Store, ids: ListField<string>) returns (r: Outcome<()>)
    requires db.Valid()
    modifies db
    ensures db.Valid()
    ensures db.categories == old(db.categories) && db.feedback == old(db.feedback)
    ensures r.Ok? <==> ids.Items? && |ids.items| > 0 && AllObjectIds(ids.items)
    ensures r.Fail? ==> unchanged(db)
    ensures !(ids.Items? && |ids.items| > 0) ==> r == Fail(ApiError(400, "Please provide an array of product IDs"))
    ensures ids.Items? && |ids.items| > 0 && !AllObjectIds(ids.items) ==> r == Fail(CastFailure("_id"))
    ensures r.Ok? ==>
      && db.deletions == old(db.deletions) + AllPublicIds(Filter(old(db.products), InIds(ids.items)))
      && db.products == Filter(old(db.products), Negate(InIds(ids.items)))
  {
    if !(ids.Items? && |ids.items| > 0) {
      return Fail(ApiError(400, "Please provide an array of product IDs"));
    }
    if !AllObjectIds(ids.items) {
      return Fail(CastFailure("_id"));
    }
    var matching := Filter(db.products, InIds(ids.items));
    RequestImageDeletions(db, matching);
    var before := db.products;
    db.products := Filter(db.products, Negate(InIds(ids.items)));
    FilterKeepsKeys(before, Negate(InIds(ids.items)));
    FilterKeepsProperty(before, Negate(InIds(ids.items)), (p: Product) => IsStoredId(p.id));
    r := Ok(());
  }

  /** The deletion loop of `bulkDeleteProducts`: a deletion is requested
      for every image of every given product, product by product. */
  method RequestImageDeletions(db: Store, ps: seq<Product>)
    modifies db
    ensures db.deletions == old(db.deletions) + AllPublicIds(ps)
    ensures db.products == old(db.products) && db.categories == old(db.categories)
    ensures db.feedback == old(db.feedback)
  {
    var j := 0;
    while j < |ps|
      invariant 0 <= j <= |ps|
      invariant db.deletions == old(db.deletions) + AllPublicIds(ps[..j])
      invariant db.products == old(db.products) && db.categories == old(db.categories)
      invariant db.feedback == old(db.feedback)
    {
      AllPublicIdsNext(ps, j);
      db.deletions := db.deletions + PublicIds(ps[j].images);
      j := j + 1;
    }
    assert ps[..j] == ps;
  }

  /** Removing products keeps the remaining keys unique. */
  lemma FilterKeepsKeys(ps: seq<Product>, f: Product -> bool)
    requires ProductKeysUnique(ps)
    ensures ProductKeysUnique(Filter(ps, f))
  {
    var distinct := (a: Product, b: Product) => a.id != b.id && a.slug != b.slug;
    assert Pairwise(ps, distinct);
    FilterPairwise(ps, f, distinct);
    var kept := Filter(ps, f);
    assert forall i, j :: 0 <= i < j < |kept| ==> distinct(kept[i], kept[j]);
  }

  /** Bulk delete splits the store: the removed products and the kept ones
      together are the old store, and no kept product has a listed id. */
  lemma BulkDeletePartition(ps: seq<Product>, ids: seq<string>)
    ensures multiset(Filter(ps, InIds(ids))) + multiset(Filter(ps, Negate(InIds(ids)))) == multiset(ps)
    ensures var kept := Filter(ps, Negate(InIds(ids)));
      forall i, j :: 0 <= i < |kept| && 0 <= j < |ids| && IsObjectId(ids[j]) ==> kept[i].id != CastId(ids[j])
  {
    FilterPartition(ps, InIds(ids));
    var kept := Filter(ps, Negate(InIds(ids)));
    forall i, j | 0 <= i < |kept| && 0 <= j < |ids| && IsObjectId(ids[j])
      ensures kept[i].id != CastId(ids[j])
    {
      assert ids[j] in SetOf(ids);
      assert CastId(ids[j]) in CastAll(SetOf(ids));
      assert Negate(InIds(ids))(kept[i]);
    }
  }
}
