/** The storefront product listing: the category chosen from the address,
    the category, price and search filters, the sort orders, and the price
    inputs that keep the lower bound below the upper. */
module ProductListing {
  import opened Base
  import opened Text
  import opened Sorting
  import opened ClientTypes

  datatype SortBy = Newest | PriceLow | PriceHigh

  /** The category named by `?category=`, else by `/category/:name`,
      else "All"; an empty value counts as absent. */
  function InitialCategory(query: Option<string>, param: Option<string>): (r: string)
    ensures r != ""
    ensures query.Some? && query.value != "" ==> r == query.value
    ensures (query.None? || query.value == "") && param.Some? && param.value != "" ==> r == param.value
  {
    if query.Some? && query.value != "" then query.value
    else if param.Some? && param.value != "" then param.value
    else "All"
  }

  /** The selection after the address changes: the named category, else
      "All" unless a search is under way, in which case it stays. */
  function CategoryAfterNavigation(query: Option<string>, param: Option<string>, search: Option<string>, current: string): (r: string)
    ensures (query.Some? && query.value != "") || (param.Some? && param.value != "") ==> r == InitialCategory(query, param)
    ensures r == InitialCategory(query, param) || r == current
  {
    if (query.Some? && query.value != "") || (param.Some? && param.value != "") then InitialCategory(query, param)
    else if search.None? || search.value == "" then "All"
    else current
  }

  /** On the first render the effect confirms the initial choice. */
  lemma NavigationConfirmsInitial(query: Option<string>, param: Option<string>, search: Option<string>)
    ensures CategoryAfterNavigation(query, param, search, InitialCategory(query, param)) == InitialCategory(query, param)
  {
  }

  /** `categories.find(c => c.name.toLowerCase() === selected.toLowerCase())`. */
  function FindByName(cs: seq<ClientCategory>, selected: string): (r: Option<ClientCategory>)
    ensures r.Some? ==> r.value in cs && Lower(r.value.name) == Lower(selected)
    ensures r.None? ==> forall i :: 0 <= i < |cs| ==> Lower(cs[i].name) != Lower(selected)
    ensures r.Some? && cs != [] && Lower(cs[0].name) == Lower(selected) ==> r.value == cs[0]
  {
    if cs == [] then None
    else if Lower(cs[0].name) == Lower(selected) then Some(cs[0])
    else FindByName(cs[1..], selected)
  }

  /** A product's own category names the selection, ignoring case; an
      empty single name is falsy and names nothing. */
  predicate OwnCategoryMatches(c: CategoryValue, selected: string) {
    match c
    case One(name) => name != "" && Lower(name) == Lower(selected)
    case Many(names) => exists k :: 0 <= k < |names| && Lower(names[k]) == Lower(selected)
  }

  /** `catMatch`: "All", or the product's own category, or the chosen
      category's list of linked and matched product ids. */
  predicate CategoryMatch(p: ClientProduct, selected: string, cs: seq<ClientCategory>) {
    var obj := FindByName(cs, selected);
    || selected == "All"
    || OwnCategoryMatches(p.category, selected)
    || (obj.Some? && obj.value.allProductIds.Some? && p.id in obj.value.allProductIds.value)
  }

  /** `!searchQuery ||` the name or description contains it, ignoring case. */
  predicate SearchMatch(p: ClientProduct, search: Option<string>) {
    || search.None?
    || search.value == ""
    || Contains(Lower(p.name), Lower(search.value))
    || Contains(Lower(p.description), Lower(search.value))
  }

  /** The inclusive price range. */
  predicate PriceMatch(p: ClientProduct, minPrice: real, maxPrice: real) {
    minPrice <= p.price <= maxPrice
  }

  datatype View = View(selected: string, minPrice: real, maxPrice: real, search: Option<string>, sortBy: SortBy)

  predicate Listed(p: ClientProduct, cs: seq<ClientCategory>, v: View) {
    CategoryMatch(p, v.selected, cs) && PriceMatch(p, v.minPrice, v.maxPrice) && SearchMatch(p, v.search)
  }

  function Listing(cs: seq<ClientCategory>, v: View): ClientProduct -> bool {
    (p: ClientProduct) => Listed(p, cs, v)
  }

  /** The comparators: cheapest first, dearest first, or none at all
      (the original order). */
  function PriceLe(sortBy: SortBy): (ClientProduct, ClientProduct) -> bool {
    match sortBy
    case PriceLow => (a: ClientProduct, b: ClientProduct) => a.price <= b.price
    case PriceHigh => (a: ClientProduct, b: ClientProduct) => a.price >= b.price
    case Newest => (a: ClientProduct, b: ClientProduct) => true
  }

  lemma PriceLePreorder(sortBy: SortBy)
    ensures TotalPreorder(PriceLe(sortBy))
  {
  }

  /** `filteredProducts`. */
  function Shown(ps: seq<ClientProduct>, cs: seq<ClientCategory>, v: View): (r: seq<ClientProduct>)
    ensures multiset(r) <= multiset(ps)
  {
    Sort(Filter(ps, Listing(cs, v)), PriceLe(v.sortBy))
  }

  /** The grid shows exactly the products that pass all three filters, in
      the chosen order; "newest" keeps the order the products came in. */
  lemma ShownSpec(ps: seq<ClientProduct>, cs: seq<ClientCategory>, v: View)
    ensures forall p :: p in Shown(ps, cs, v) ==> Listed(p, cs, v)
    ensures forall p :: p in ps && Listed(p, cs, v) ==> p in Shown(ps, cs, v)
    ensures Sorted(Shown(ps, cs, v), PriceLe(v.sortBy))
    ensures v.sortBy == Newest ==> Shown(ps, cs, v) == Filter(ps, Listing(cs, v))
  {
    var kept := Filter(ps, Listing(cs, v));
    var r := Shown(ps, cs, v);
    PriceLePreorder(v.sortBy);
    SortSorted(kept, PriceLe(v.sortBy));
    forall p | p in r ensures Listed(p, cs, v) {
      assert p in multiset(kept) by { assert p in multiset(r); }
      var k :| 0 <= k < |kept| && kept[k] == p;
      assert Listing(cs, v)(kept[k]);
    }
    forall p | p in ps && Listed(p, cs, v) ensures p in r {
      FilterKeeps(ps, Listing(cs, v), p);
      assert p in multiset(r) by { assert p in multiset(kept); }
    }
    if v.sortBy == Newest {
      SortKeepsOrder(kept, PriceLe(v.sortBy));
    }
  }

  /** The category choice ignores case, except that only the exact word
      "All" turns the filter off. */
  lemma CategoryIgnoresCase(p: ClientProduct, a: string, b: string, cs: seq<ClientCategory>)
    requires Lower(a) == Lower(b) && a != "All" && b != "All"
    ensures CategoryMatch(p, a, cs) <==> CategoryMatch(p, b, cs)
  {
    FindByNameIgnoresCase(cs, a, b);
  }

  lemma {:induction false} FindByNameIgnoresCase(cs: seq<ClientCategory>, a: string, b: string)
    requires Lower(a) == Lower(b)
    ensures FindByName(cs, a) == FindByName(cs, b)
  {
    if cs != [] && Lower(cs[0].name) != Lower(a) {
      FindByNameIgnoresCase(cs[1..], a, b);
    }
  }

  /** A product linked to the chosen category, explicitly or by the
      server's name matching, is listed under it whatever its own category
      says. */
  lemma LinkedProductListed(p: ClientProduct, cs: seq<ClientCategory>, k: nat)
    requires k < |cs| && cs[k].allProductIds.Some? && p.id in cs[k].allProductIds.value
    requires forall j :: 0 <= j < k ==> Lower(cs[j].name) != Lower(cs[k].name)
    ensures CategoryMatch(p, cs[k].name, cs)
  {
    FindByNameFirst(cs, k, cs[k].name);
  }

  lemma {:induction false} FindByNameFirst(cs: seq<ClientCategory>, k: nat, selected: string)
    requires k < |cs| && Lower(cs[k].name) == Lower(selected)
    requires forall j :: 0 <= j < k ==> Lower(cs[j].name) != Lower(selected)
    ensures FindByName(cs, selected) == Some(cs[k])
  {
    if k > 0 {
      FindByNameFirst(cs[1..], k - 1, selected);
    }
  }

  class ProductListingPage {
    var products: seq<ClientProduct>
    var categories: seq<ClientCategory>
    var selected: string
    var minPrice: real
    var maxPrice: real
    var sortBy: SortBy

    ghost predicate Valid()
      reads this
    {
      minPrice <= maxPrice
    }

    constructor(query: Option<string>, param: Option<string>)
      ensures Valid()
      ensures products == [] && categories == [] && selected == InitialCategory(query, param)
      ensures minPrice == 0.0 && maxPrice == 2000.0 && sortBy == Newest
    {
      products := [];
      categories := [];
      selected := InitialCategory(query, param);
      minPrice := 0.0;
      maxPrice := 2000.0;
      sortBy := Newest;
    }

    /** The data load. */
    method Loaded(ps: seq<ClientProduct>, cs: seq<ClientCategory>)
      modifies this
      ensures products == ps && categories == cs
      ensures selected == old(selected) && minPrice == old(minPrice) && maxPrice == old(maxPrice) && sortBy == old(sortBy)
    {
      products := ps;
      categories := cs;
    }

    /** The address changed. */
    method Navigated(query: Option<string>, param: Option<string>, search: Option<string>)
      modifies this
      ensures selected == CategoryAfterNavigation(query, param, search, old(selected))
      ensures products == old(products) && categories == old(categories)
      ensures minPrice == old(minPrice) && maxPrice == old(maxPrice) && sortBy == old(sortBy)
    {
      selected := CategoryAfterNavigation(query, param, search, selected);
    }

    /** A category button in the sidebar ("All" or a category's name). */
    method Choose(name: string)
      modifies this
      ensures selected == name
      ensures products == old(products) && categories == old(categories)
      ensures minPrice == old(minPrice) && maxPrice == old(maxPrice) && sortBy == old(sortBy)
    {
      selected := name;
    }

    method SetSort(s: SortBy)
      modifies this
      ensures sortBy == s
      ensures products == old(products) && categories == old(categories)
      ensures selected == old(selected) && minPrice == old(minPrice) && maxPrice == old(maxPrice)
    {
      sortBy := s;
    }

    /** The "Min" input: `Math.min(maxPrice, value)`. */
    method SetMin(value: real)
      requires Valid()
      modifies this
      ensures Valid()
      ensures minPrice == (if value <= old(maxPrice) then value else old(maxPrice)) && maxPrice == old(maxPrice)
      ensures products == old(products) && categories == old(categories)
      ensures selected == old(selected) && sortBy == old(sortBy)
    {
      minPrice := if value <= maxPrice then value else maxPrice;
    }

    /** The "Max" input: `Math.max(minPrice, value)`. */
    method SetMax(value: real)
      requires Valid()
      modifies this
      ensures Valid()
      ensures maxPrice == (if value >= old(minPrice) then value else old(minPrice)) && minPrice == old(minPrice)
      ensures products == old(products) && categories == old(categories)
      ensures selected == old(selected) && sortBy == old(sortBy)
    {
      maxPrice := if value >= minPrice then value else minPrice;
    }

    /** The slider reports both bounds; it keeps the lower one below the
        upper one. */
    method SetRange(lo: real, hi: real)
      requires lo <= hi
      modifies this
      ensures Valid()
      ensures minPrice == lo && maxPrice == hi
      ensures products == old(products) && categories == old(categories)
      ensures selected == old(selected) && sortBy == old(sortBy)
    {
      minPrice := lo;
      maxPrice := hi;
    }
  }
}
