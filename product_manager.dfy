/** The admin product table: search and category filters, pages of eight,
    row selection, single and bulk delete, and the stock switch. */
module ProductManager {
  import opened Base
  import opened Text
  import opened ClientTypes
  import opened ClientForms

  const PerPage: nat := 8

  /** The search box matches the lower-cased name or the product's
      category names joined with spaces. */
  predicate MatchesSearch(p: ClientProduct, term: string) {
    Contains(Lower(p.name), Lower(term)) || Contains(Lower(Join(Categories(p.category), " ")), Lower(term))
  }

  /** The category dropdown: "All", or one of the product's names exactly. */
  predicate MatchesCategory(p: ClientProduct, selected: string) {
    selected == "All" || selected in Categories(p.category)
  }

  function Listed(term: string, selected: string): ClientProduct -> bool {
    (p: ClientProduct) => MatchesSearch(p, term) && MatchesCategory(p, selected)
  }

  /** `filteredProducts`. */
  function Visible(ps: seq<ClientProduct>, term: string, selected: string): (r: seq<ClientProduct>)
    ensures forall i :: 0 <= i < |r| ==> MatchesSearch(r[i], term) && MatchesCategory(r[i], selected)
    ensures multiset(r) <= multiset(ps)
  {
    var r := Filter(ps, Listed(term, selected));
    assert forall i :: 0 <= i < |r| ==> Listed(term, selected)(r[i]);
    r
  }

  /** Every product that matches both filters is listed. */
  lemma VisibleComplete(ps: seq<ClientProduct>, term: string, selected: string, p: ClientProduct)
    requires p in ps && MatchesSearch(p, term) && MatchesCategory(p, selected)
    ensures p in Visible(ps, term, selected)
  {
    FilterKeeps(ps, Listed(term, selected), p);
  }

  /** An empty search under "All" lists every product in order. */
  lemma NoFiltersListAll(ps: seq<ClientProduct>)
    ensures Visible(ps, "", "All") == ps
  {
    forall i | 0 <= i < |ps| ensures Listed("", "All")(ps[i]) {
      assert IsPrefix("", Lower(ps[i].name));
    }
    FilterAll(ps, Listed("", "All"));
  }

  function CategoryNames(): ClientProduct -> seq<string> {
    (p: ClientProduct) => Categories(p.category)
  }

  /** The dropdown's options: "All", then each category name that some
      product carries, once, in order of first appearance. */
  function CategoryOptions(ps: seq<ClientProduct>): (r: seq<string>)
    ensures |r| >= 1 && r[0] == "All"
  {
    ["All"] + Distinct(FlatMap(ps, CategoryNames()))
  }

  /** Every category of every product is offered, and every option after
      "All" lists at least one product when the search box is empty. */
  lemma CategoryOptionsSpec(ps: seq<ClientProduct>)
    ensures forall p, c :: p in ps && c in Categories(p.category) ==> c in CategoryOptions(ps)
    ensures forall i :: 1 <= i < |CategoryOptions(ps)| ==> Visible(ps, "", CategoryOptions(ps)[i]) != []
  {
    var all := FlatMap(ps, CategoryNames());
    forall p, c | p in ps && c in Categories(p.category) ensures c in CategoryOptions(ps) {
      var k :| 0 <= k < |ps| && ps[k] == p;
      FlatMapMember(ps, CategoryNames(), c);
      assert c in CategoryNames()(ps[k]);
      assert exists j :: 0 <= j < |all| && all[j] == c;
    }
    forall i | 1 <= i < |CategoryOptions(ps)| ensures Visible(ps, "", CategoryOptions(ps)[i]) != [] {
      var c := CategoryOptions(ps)[i];
      assert c in all;
      FlatMapMember(ps, CategoryNames(), c);
      var k :| 0 <= k < |ps| && c in CategoryNames()(ps[k]);
      assert IsPrefix("", Lower(ps[k].name));
      VisibleComplete(ps, "", c, ps[k]);
    }
  }

  /** The rows on page `page` of the filtered list. */
  function PageItems(ps: seq<ClientProduct>, term: string, selected: string, page: int): seq<ClientProduct> {
    Page(Visible(ps, term, selected), page, PerPage)
  }

  function TotalPages(ps: seq<ClientProduct>, term: string, selected: string): nat {
    CeilDiv(|Visible(ps, term, selected)|, PerPage)
  }

  /** Every listed product is on one of the pages the buttons reach. */
  lemma EveryListedOnAPage(ps: seq<ClientProduct>, term: string, selected: string, i: nat)
    requires i < |Visible(ps, term, selected)|
    ensures 1 <= i / PerPage + 1 <= TotalPages(ps, term, selected)
    ensures Visible(ps, term, selected)[i] in PageItems(ps, term, selected, i / PerPage + 1)
  {
    PageCovers(Visible(ps, term, selected), PerPage, i);
  }

  /** The footer "Showing from to to of n results". */
  function ShowingFrom(shown: nat, page: int): int {
    if shown > 0 then (page - 1) * PerPage + 1 else 0
  }

  function ShowingTo(n: nat, page: int): int {
    if page * PerPage < n then page * PerPage else n
  }

  /** On a non-empty page the footer counts exactly the rows shown. */
  lemma ShowingCountsRows(ps: seq<ClientProduct>, term: string, selected: string, page: int)
    requires page >= 1 && PageItems(ps, term, selected, page) != []
    ensures var n := |Visible(ps, term, selected)|;
      ShowingTo(n, page) - ShowingFrom(|PageItems(ps, term, selected, page)|, page) + 1
        == |PageItems(ps, term, selected, page)|
  {
    PageShape(Visible(ps, term, selected), page, PerPage);
  }

  /** The "Previous" button; it is disabled on page 1. */
  function PreviousPage(page: int): (r: int)
    requires page >= 1
    ensures r >= 1
    ensures page > 1 ==> r == page - 1
    ensures page == 1 ==> r == page
  {
    if page == 1 then page else if page - 1 > 1 then page - 1 else 1
  }

  /** The "Next" button; it is disabled on the last page and when there
      are no pages. */
  function NextPage(page: int, total: nat): (r: int)
    requires page >= 1
    ensures r >= 1
    ensures 1 <= page < total ==> r == page + 1
    ensures page > total > 0 ==> r == total
    ensures page == total || total == 0 ==> r == page
  {
    if page == total || total == 0 then page
    else if total < page + 1 then total else page + 1
  }

  /** The page reached by pressing "Next" `k` times. */
  function NextTimes(page: int, total: nat, k: nat): (r: int)
    requires page >= 1
    ensures r >= 1
    decreases k
  {
    if k == 0 then page else NextTimes(NextPage(page, total), total, k - 1)
  }

  /** From the first page, "Next" walks through every page in turn and
      stops at the last. */
  lemma {:induction false} NextWalksPages(total: nat, page: int, k: nat)
    requires 1 <= page <= total
    ensures NextTimes(page, total, k) == if page + k < total then page + k else total
    decreases k
  {
    if k > 0 {
      NextWalksPages(total, NextPage(page, total), k - 1);
    }
  }

  /** `toggleSelect`: adds an unselected id, removes a selected one. */
  function Toggle(selected: set<string>, id: string): (r: set<string>)
    ensures id in r <==> id !in selected
    ensures forall x :: x != id ==> (x in r <==> x in selected)
  {
    if id in selected then selected - {id} else selected + {id}
  }

  lemma ToggleTwice(selected: set<string>, id: string)
    ensures Toggle(Toggle(selected, id), id) == selected
  {
  }

  function OtherProduct(id: string): ClientProduct -> bool {
    (p: ClientProduct) => p.id != id
  }

  function Unselected(selected: set<string>): ClientProduct -> bool {
    (p: ClientProduct) => p.id !in selected
  }

  /** What a bulk delete keeps. */
  function Remaining(ps: seq<ClientProduct>, selected: set<string>): (r: seq<ClientProduct>)
    ensures forall i :: 0 <= i < |r| ==> r[i].id !in selected
  {
    var r := Filter(ps, Unselected(selected));
    assert forall i :: 0 <= i < |r| ==> Unselected(selected)(r[i]);
    r
  }

  /** A bulk delete removes exactly the selected rows. */
  lemma RemainingSpec(ps: seq<ClientProduct>, selected: set<string>)
    ensures forall p :: p in ps && p.id !in selected ==> p in Remaining(ps, selected)
    ensures multiset(Remaining(ps, selected)) + multiset(Filter(ps, Negate(Unselected(selected)))) == multiset(ps)
  {
    FilterPartition(ps, Unselected(selected));
    forall p | p in ps && p.id !in selected ensures p in Remaining(ps, selected) {
      FilterKeeps(ps, Unselected(selected), p);
    }
  }

  /** The stock switch's list update. */
  function SetStock(ps: seq<ClientProduct>, id: string, inStock: bool): (r: seq<ClientProduct>)
    ensures |r| == |ps|
    ensures forall i :: 0 <= i < |ps| ==> r[i] == if ps[i].id == id then ps[i].(inStock := inStock) else ps[i]
  {
    seq(|ps|, i requires 0 <= i < |ps| => if ps[i].id == id then ps[i].(inStock := inStock) else ps[i])
  }

  /** Pressing the switch of a row twice gives the list back. */
  lemma StockTwice(ps: seq<ClientProduct>, row: ClientProduct)
    requires forall i :: 0 <= i < |ps| && ps[i].id == row.id ==> ps[i] == row
    ensures SetStock(SetStock(ps, row.id, !row.inStock), row.id, row.inStock) == ps
  {
  }

  class ProductManagerPage {
    var products: seq<ClientProduct>
    var searchTerm: string
    var selectedCategory: string
    var page: int
    var selected: set<string>

    ghost predicate Valid()
      reads this
    {
      page >= 1
    }

    constructor(products: seq<ClientProduct>)
      ensures Valid()
      ensures this.products == products && searchTerm == "" && selectedCategory == "All"
      ensures page == 1 && selected == {}
    {
      this.products := products;
      searchTerm := "";
      selectedCategory := "All";
      page := 1;
      selected := {};
    }

    /** The search box; the page number is kept as it is. */
    method SetSearch(term: string)
      modifies this
      ensures searchTerm == term
      ensures products == old(products) && selectedCategory == old(selectedCategory)
      ensures page == old(page) && selected == old(selected)
    {
      searchTerm := term;
    }

    /** The category dropdown; the page number is kept as it is. */
    method SetCategory(c: string)
      modifies this
      ensures selectedCategory == c
      ensures products == old(products) && searchTerm == old(searchTerm)
      ensures page == old(page) && selected == old(selected)
    {
      selectedCategory := c;
    }

    method ToggleSelect(id: string)
      modifies this
      ensures selected == Toggle(old(selected), id)
      ensures products == old(products) && searchTerm == old(searchTerm)
      ensures selectedCategory == old(selectedCategory) && page == old(page)
    {
      selected := Toggle(selected, id);
    }

    /** The header checkbox: selects exactly the rows of the current page,
        or clears the selection. */
    method ToggleSelectAll(checked: bool)
      modifies this
      ensures checked ==> selected == set p | p in PageItems(products, searchTerm, selectedCategory, page) :: p.id
      ensures !checked ==> selected == {}
      ensures products == old(products) && searchTerm == old(searchTerm)
      ensures selectedCategory == old(selectedCategory) && page == old(page)
    {
      if checked {
        selected := set p | p in PageItems(products, searchTerm, selectedCategory, page) :: p.id;
      } else {
        selected := {};
      }
    }

    method Previous()
      requires Valid()
      modifies this
      ensures Valid() && page == PreviousPage(old(page))
      ensures products == old(products) && searchTerm == old(searchTerm)
      ensures selectedCategory == old(selectedCategory) && selected == old(selected)
    {
      page := PreviousPage(page);
    }

    method Next()
      requires Valid()
      modifies this
      ensures Valid() && page == NextPage(old(page), TotalPages(old(products), old(searchTerm), old(selectedCategory)))
      ensures products == old(products) && searchTerm == old(searchTerm)
      ensures selectedCategory == old(selectedCategory) && selected == old(selected)
    {
      page := NextPage(page, TotalPages(products, searchTerm, selectedCategory));
    }

    /** `handleDelete(id)`; the selection is left as it is. */
    method DeleteProduct(id: string, confirmed: bool, deleted: bool) returns (toast: Option<Toast>)
      modifies this
      ensures confirmed && deleted ==>
        products == Filter(old(products), OtherProduct(id)) && toast == Some(Toast("Product deleted successfully", Success))
      ensures confirmed && !deleted ==> products == old(products) && toast == Some(Toast("Failed to delete product", Error))
      ensures !confirmed ==> products == old(products) && toast.None?
      ensures searchTerm == old(searchTerm) && selectedCategory == old(selectedCategory)
      ensures page == old(page) && selected == old(selected)
    {
      if !confirmed {
        return None;
      }
      if !deleted {
        return Some(Toast("Failed to delete product", Error));
      }
      products := Filter(products, OtherProduct(id));
      toast := Some(Toast("Product deleted successfully", Success));
    }

    /** `handleBulkDelete`: removes the selected rows and clears the
        selection; the message counts the ids that were selected. */
    method BulkDelete(confirmed: bool, deleted: bool) returns (toast: Option<Toast>)
      modifies this
      ensures confirmed && deleted ==> (
        && products == Remaining(old(products), old(selected)) && selected == {}
        && toast == Some(Toast(NatText(|old(selected)|) + " products deleted", Success)))
      ensures confirmed && !deleted ==> (
        && products == old(products) && selected == old(selected)
        && toast == Some(Toast("Failed to delete products", Error)))
      ensures !confirmed ==> products == old(products) && selected == old(selected) && toast.None?
      ensures searchTerm == old(searchTerm) && selectedCategory == old(selectedCategory) && page == old(page)
    {
      if !confirmed {
        return None;
      }
      if !deleted {
        return Some(Toast("Failed to delete products", Error));
      }
      toast := Some(Toast(NatText(|selected|) + " products deleted", Success));
      products := Remaining(products, selected);
      selected := {};
    }

    /** The stock switch of a row: flips that row's `inStock` once the
        server accepted the update. */
    method ToggleStock(row: ClientProduct, updated: bool) returns (toast: Toast)
      modifies this
      ensures updated ==> products == SetStock(old(products), row.id, !row.inStock)
      ensures updated && row.inStock ==> toast == Toast("Product marked as out of stock", Success)
      ensures updated && !row.inStock ==> toast == Toast("Product marked as in stock", Success)
      ensures !updated ==> products == old(products) && toast == Toast("Failed to update status", Error)
      ensures searchTerm == old(searchTerm) && selectedCategory == old(selectedCategory)
      ensures page == old(page) && selected == old(selected)
    {
      if !updated {
        return Toast("Failed to update status", Error);
      }
      var newStatus := !row.inStock;
      products := SetStock(products, row.id, newStatus);
      toast := Toast(if newStatus then "Product marked as in stock" else "Product marked as out of stock", Success);
    }
  }
}
