/** The documents of the three MongoDB collections (products, categories,
    feedback) and the store that holds them. The store also keeps the log
    of image deletions requested from the image host: `deleteFromCloudinary`
    catches every error, so a request is all the model records. */
module Catalog {
  import opened Base
  import Text

  datatype Image = Image(url: string, publicId: string, isMain: bool)

  datatype Product = Product(
    id: string,
    slug: string,
    name: string,
    price: real,
    category: seq<string>,
    images: seq<Image>,
    description: string,
    features: seq<string>,
    inStock: bool,
    rating: real,
    reviews: int,
    stylingTip: Option<string>,
    affiliateLink: Option<string>,
    createdAt: int)

  datatype ImageSource = Upload | FromProduct

  datatype Category = Category(
    id: string,
    name: string,
    slug: string,
    imageUrl: Option<string>,
    imageSource: Option<ImageSource>,
    featuredProductId: Option<string>,
    productIds: seq<string>)

  datatype Status = New | Reviewed

  datatype Feedback = Feedback(
    id: string,
    name: string,
    email: string,
    message: string,
    rating: int,
    category: Option<string>,
    status: Status,
    createdAt: int)

  /** A request field that may be absent, explicitly `null`, or a string. */
  datatype Field = Absent | NullValue | Given(text: string)

  /** A request field that must be an array: absent, present but not an
      array, or an array. */
  datatype ListField<T> = Missing | NotList | Items(items: seq<T>)

  /** The `_id` values are unique, and so are the fields with a unique
      index. */
  predicate ProductKeysUnique(ps: seq<Product>) {
    forall i, j :: 0 <= i < j < |ps| ==> ps[i].id != ps[j].id && ps[i].slug != ps[j].slug
  }

  predicate CategoryKeysUnique(cs: seq<Category>) {
    forall i, j :: 0 <= i < j < |cs| ==>
      cs[i].id != cs[j].id && cs[i].name != cs[j].name && cs[i].slug != cs[j].slug
  }

  predicate FeedbackKeysUnique(fs: seq<Feedback>) {
    forall i, j :: 0 <= i < j < |fs| ==> fs[i].id != fs[j].id
  }

  predicate IsHexDigit(c: char) {
    '0' <= c <= '9' || 'a' <= c <= 'f' || 'A' <= c <= 'F'
  }

  /** A string Mongoose casts to an ObjectId: 24 hexadecimal digits, in
      either letter case. Any other id makes a query on `_id` throw a
      `CastError`. */
  predicate IsObjectId(id: string) {
    |id| == 24 && forall i :: 0 <= i < |id| ==> IsHexDigit(id[i])
  }

  predicate AllObjectIds(ids: seq<string>) {
    forall i :: 0 <= i < |ids| ==> IsObjectId(ids[i])
  }

  /** The text of a stored `_id` (`id.toString()`): 24 lower-case
      hexadecimal digits. */
  predicate IsStoredId(id: string) {
    IsObjectId(id) && forall i :: 0 <= i < |id| ==> '0' <= id[i] <= '9' || 'a' <= id[i] <= 'f'
  }

  /** The four-bit value of a hexadecimal digit. */
  function HexValue(c: char): (v: nat)
    requires IsHexDigit(c)
    ensures v < 16
  {
    if '0' <= c <= '9' then c as int - '0' as int
    else if 'a' <= c <= 'f' then c as int - 'a' as int + 10
    else c as int - 'A' as int + 10
  }

  /** The twelve bytes of an ObjectId, as its 24 four-bit digits: two ids
      name the same document exactly when these agree. */
  function Nibbles(id: string): (r: seq<nat>)
    requires IsObjectId(id)
    ensures |r| == 24
  {
    seq(24, i requires 0 <= i < 24 => HexValue(id[i]))
  }

  /** The id as the cast stores and prints it: the same bytes, written in
      lower case. */
  function CastId(id: string): (r: string)
    requires IsObjectId(id)
    ensures IsStoredId(r) && IsObjectId(r)
    ensures Nibbles(r) == Nibbles(id)
  {
    var r := Text.Lower(id);
    assert forall i :: 0 <= i < 24 ==> HexValue(r[i]) == HexValue(id[i]);
    r
  }

  lemma HexDigitsAgree(a: char, b: char)
    requires '0' <= a <= '9' || 'a' <= a <= 'f'
    requires IsHexDigit(b)
    ensures HexValue(a) == HexValue(b) <==> a == Text.LowerChar(b)
  {
  }

  /** A stored id matches a cast id exactly when the two name the same
      twelve bytes, whatever the letter case of the request. */
  lemma SameObjectIdIff(stored: string, id: string)
    requires IsStoredId(stored) && IsObjectId(id)
    ensures stored == CastId(id) <==> Nibbles(stored) == Nibbles(id)
  {
    if Nibbles(stored) == Nibbles(id) {
      forall i | 0 <= i < 24
        ensures stored[i] == CastId(id)[i]
      {
        assert Nibbles(stored)[i] == Nibbles(id)[i];
        HexDigitsAgree(stored[i], id[i]);
      }
    }
  }

  /** A stored id casts to itself. */
  lemma CastStored(id: string)
    requires IsStoredId(id)
    ensures IsObjectId(id) && CastId(id) == id
  {
    SameObjectIdIff(id, id);
  }

  function SetOf(ids: seq<string>): set<string> {
    set x | x in ids
  }

  /** The ids an `{_id: {$in: ids}}` filter matches: each entry that casts,
      as it is stored. */
  function CastAll(ids: set<string>): set<string> {
    set x | x in ids && IsObjectId(x) :: CastId(x)
  }

  /** `$in` compares bytes: a stored id is matched exactly when some entry
      names the same twelve bytes. */
  lemma CastAllMatches(ids: set<string>, id: string)
    requires IsStoredId(id)
    ensures id in CastAll(ids) <==> exists x :: x in ids && IsObjectId(x) && Nibbles(x) == Nibbles(id)
  {
    CastStored(id);
    if exists x :: x in ids && IsObjectId(x) && Nibbles(x) == Nibbles(id) {
      var x :| x in ids && IsObjectId(x) && Nibbles(x) == Nibbles(id);
      SameObjectIdIff(id, x);
    }
  }

  /** Ids already in stored form are matched as they are. */
  lemma CastAllStored(ids: set<string>)
    requires forall x :: x in ids ==> IsStoredId(x)
    ensures CastAll(ids) == ids
  {
    forall x | x in ids ensures x in CastAll(ids) {
      CastStored(x);
    }
    forall y | y in CastAll(ids) ensures y in ids {
      var x :| x in ids && IsObjectId(x) && CastId(x) == y;
      CastStored(x);
    }
  }

  /** Every `_id` in the three collections is in its stored form. */
  predicate IdsStored(ps: seq<Product>, cs: seq<Category>, fs: seq<Feedback>) {
    && (forall i :: 0 <= i < |ps| ==> IsStoredId(ps[i].id))
    && (forall i :: 0 <= i < |cs| ==> IsStoredId(cs[i].id))
    && (forall i :: 0 <= i < |fs| ==> IsStoredId(fs[i].id))
  }

  /** `findById` on products: the position of the product whose `_id` is
      the cast id. */
  function FindProduct(ps: seq<Product>, id: string): (r: Option<nat>)
    requires IsObjectId(id)
    ensures r.Some? ==> r.value < |ps| && ps[r.value].id == CastId(id)
    ensures r.None? ==> forall i :: 0 <= i < |ps| ==> ps[i].id != CastId(id)
    ensures r.Some? ==> forall i :: 0 <= i < r.value ==> ps[i].id != CastId(id)
  {
    if |ps| == 0 then None
    else if ps[0].id == CastId(id) then Some(0)
    else match FindProduct(ps[1..], id)
      case None => None
      case Some(k) => Some(k + 1)
  }

  function FindCategory(cs: seq<Category>, id: string): (r: Option<nat>)
    requires IsObjectId(id)
    ensures r.Some? ==> r.value < |cs| && cs[r.value].id == CastId(id)
    ensures r.None? ==> forall i :: 0 <= i < |cs| ==> cs[i].id != CastId(id)
    ensures r.Some? ==> forall i :: 0 <= i < r.value ==> cs[i].id != CastId(id)
  {
    if |cs| == 0 then None
    else if cs[0].id == CastId(id) then Some(0)
    else match FindCategory(cs[1..], id)
      case None => None
      case Some(k) => Some(k + 1)
  }

  function FindFeedback(fs: seq<Feedback>, id: string): (r: Option<nat>)
    requires IsObjectId(id)
    ensures r.Some? ==> r.value < |fs| && fs[r.value].id == CastId(id)
    ensures r.None? ==> forall i :: 0 <= i < |fs| ==> fs[i].id != CastId(id)
    ensures r.Some? ==> forall i :: 0 <= i < r.value ==> fs[i].id != CastId(id)
  {
    if |fs| == 0 then None
    else if fs[0].id == CastId(id) then Some(0)
    else match FindFeedback(fs[1..], id)
      case None => None
      case Some(k) => Some(k + 1)
  }

  /** Over stored ids, `findById` finds a product exactly when its `_id`
      has the bytes the request names, in whatever letter case. */
  lemma FindProductByBytes(ps: seq<Product>, id: string)
    requires forall i :: 0 <= i < |ps| ==> IsStoredId(ps[i].id)
    requires IsObjectId(id)
    ensures FindProduct(ps, id).Some? <==> exists i :: 0 <= i < |ps| && IsObjectId(ps[i].id) && Nibbles(ps[i].id) == Nibbles(id)
  {
    var r := FindProduct(ps, id);
    if r.Some? {
      SameObjectIdIff(ps[r.value].id, id);
    } else if exists i :: 0 <= i < |ps| && IsObjectId(ps[i].id) && Nibbles(ps[i].id) == Nibbles(id) {
      var i :| 0 <= i < |ps| && IsObjectId(ps[i].id) && Nibbles(ps[i].id) == Nibbles(id);
      SameObjectIdIff(ps[i].id, id);
    }
  }

  /** The same for categories. */
  lemma FindCategoryByBytes(cs: seq<Category>, id: string)
    requires forall i :: 0 <= i < |cs| ==> IsStoredId(cs[i].id)
    requires IsObjectId(id)
    ensures FindCategory(cs, id).Some? <==> exists i :: 0 <= i < |cs| && IsObjectId(cs[i].id) && Nibbles(cs[i].id) == Nibbles(id)
  {
    var r := FindCategory(cs, id);
    if r.Some? {
      SameObjectIdIff(cs[r.value].id, id);
    } else if exists i :: 0 <= i < |cs| && IsObjectId(cs[i].id) && Nibbles(cs[i].id) == Nibbles(id) {
      var i :| 0 <= i < |cs| && IsObjectId(cs[i].id) && Nibbles(cs[i].id) == Nibbles(id);
      SameObjectIdIff(cs[i].id, id);
    }
  }

  /** The same for feedback entries. */
  lemma FindFeedbackByBytes(fs: seq<Feedback>, id: string)
    requires forall i :: 0 <= i < |fs| ==> IsStoredId(fs[i].id)
    requires IsObjectId(id)
    ensures FindFeedback(fs, id).Some? <==> exists i :: 0 <= i < |fs| && IsObjectId(fs[i].id) && Nibbles(fs[i].id) == Nibbles(id)
  {
    var r := FindFeedback(fs, id);
    if r.Some? {
      SameObjectIdIff(fs[r.value].id, id);
    } else if exists i :: 0 <= i < |fs| && IsObjectId(fs[i].id) && Nibbles(fs[i].id) == Nibbles(id) {
      var i :| 0 <= i < |fs| && IsObjectId(fs[i].id) && Nibbles(fs[i].id) == Nibbles(id);
      SameObjectIdIff(fs[i].id, id);
    }
  }

  /** The sequence without position `k`. */
  function RemoveAt<T>(s: seq<T>, k: nat): (r: seq<T>)
    requires k < |s|
    ensures |r| == |s| - 1
    ensures forall i :: 0 <= i < k ==> r[i] == s[i]
    ensures forall i :: k <= i < |r| ==> r[i] == s[i + 1]
  {
    s[..k] + s[k + 1..]
  }

  /** The public ids of a product's images, in order. */
  function PublicIds(images: seq<Image>): (r: seq<string>)
    ensures |r| == |images|
    ensures forall i :: 0 <= i < |images| ==> r[i] == images[i].publicId
  {
    seq(|images|, i requires 0 <= i < |images| => images[i].publicId)
  }

  class Store {
    var products: seq<Product>
    var categories: seq<Category>
    var feedback: seq<Feedback>
    /** Public ids whose deletion was requested from the image host. */
    var deletions: seq<string>

    ghost predicate Valid()
      reads this
    {
      && ProductKeysUnique(products) && CategoryKeysUnique(categories) && FeedbackKeysUnique(feedback)
      && IdsStored(products, categories, feedback)
    }

    constructor(products: seq<Product>, categories: seq<Category>, feedback: seq<Feedback>)
      requires ProductKeysUnique(products) && CategoryKeysUnique(categories) && FeedbackKeysUnique(feedback)
      requires IdsStored(products, categories, feedback)
      ensures Valid()
      ensures this.products == products && this.categories == categories && this.feedback == feedback
      ensures deletions == []
    {
      this.products := products;
      this.categories := categories;
      this.feedback := feedback;
      deletions := [];
    }
  }
}
