/** The records the browser receives from the API, as the admin and
    storefront pages read them. */
module ClientTypes {
  import opened Base
  import opened Catalog

  /** A product's `category` as the pages find it: one name or a list. */
  datatype CategoryValue = One(name: string) | Many(names: seq<string>)

  /** `Array.isArray(c) ? c : [c]`. */
  function Categories(c: CategoryValue): (r: seq<string>)
    ensures c.Many? ==> r == c.names
    ensures c.One? ==> r == [c.name]
  {
    match c
    case One(name) => [name]
    case Many(names) => names
  }

  /** A product as listed to the pages; `image` is the legacy single
      picture, empty when absent. */
  datatype ClientProduct = ClientProduct(
    id: string,
    name: string,
    price: real,
    category: CategoryValue,
    images: seq<Image>,
    image: string,
    description: string,
    inStock: bool)

  /** A category as `getCategories` returns it. */
  datatype ClientCategory = ClientCategory(
    id: string,
    name: string,
    imageUrl: Option<string>,
    imageSource: Option<ImageSource>,
    featuredProductId: Option<string>,
    productIds: Option<seq<string>>,
    allProductIds: Option<seq<string>>)
}
