/** The admin feedback page: rating, status, category and text filters,
    the four sort orders, pages of nine, status updates, deletion and the
    sender's initials. */
module FeedbackManager {
  import opened Base
  import opened Text
  import opened Sorting
  import opened Catalog
  import opened ClientForms
  import opened FeedbackController

  const PerPage: nat := 9

  /** The filter bar; `None` is the "all" choice of a dropdown. */
  datatype Filters = Filters(
    rating: Option<int>,
    status: Option<Status>,
    category: Option<string>,
    search: string,
    sortBy: FeedbackSort)

  const NoFilters := Filters(None, None, None, "", NewestFirst)

  /** `f.category || "General"`, the name an entry is listed under. */
  function CategoryLabel(f: Feedback): (r: string)
    ensures r != ""
    ensures f.category.Some? && f.category.value != "" ==> r == f.category.value
  {
    if f.category.Some? && f.category.value != "" then f.category.value else "General"
  }

  function Labels(fs: seq<Feedback>): (r: seq<string>)
    ensures |r| == |fs| && forall i :: 0 <= i < |fs| ==> r[i] == CategoryLabel(fs[i])
  {
    seq(|fs|, i requires 0 <= i < |fs| => CategoryLabel(fs[i]))
  }

  /** The category dropdown's options, once each. */
  function UniqueCategories(fs: seq<Feedback>): (r: seq<string>)
    ensures forall i :: 0 <= i < |fs| ==> CategoryLabel(fs[i]) in r
    ensures forall c :: c in r ==> exists i :: 0 <= i < |fs| && CategoryLabel(fs[i]) == c
    ensures forall i, j :: 0 <= i < j < |r| ==> r[i] != r[j]
  {
    var labels := Labels(fs);
    var r := Distinct(labels);
    assert forall i :: 0 <= i < |fs| ==> labels[i] in r;
    assert forall c :: c in r ==> exists i :: 0 <= i < |labels| && labels[i] == c;
    r
  }

  /** The category test as the page writes it: `f.category === filterCategory`. */
  predicate CategoryMatchAsWritten(f: Feedback, category: Option<string>) {
    category.None? || f.category == category
  }

  /** The category test the dropdown's options call for: an entry is
      selected by the option it is listed under. */
  predicate CategoryMatch(f: Feedback, category: Option<string>) {
    category.None? || CategoryLabel(f) == category.value
  }

  /** The text search, over name, email, message and the formatted date
      (`formatDate` is the day/month/year rendering in the browser's time
      zone). */
  predicate SearchMatch(f: Feedback, search: string, formatDate: int -> string) {
    var term := Lower(search);
    || search == ""
    || Contains(Lower(f.name), term)
    || Contains(Lower(f.email), term)
    || Contains(Lower(f.message), term)
    || Contains(formatDate(f.createdAt), term)
  }

  predicate OtherFiltersMatch(f: Feedback, filters: Filters, formatDate: int -> string) {
    && (filters.rating.None? || f.rating == filters.rating.value)
    && (filters.status.None? || f.status == filters.status.value)
    && SearchMatch(f, filters.search, formatDate)
  }

  predicate Passes(f: Feedback, filters: Filters, formatDate: int -> string) {
    OtherFiltersMatch(f, filters, formatDate) && CategoryMatch(f, filters.category)
  }

  predicate PassesAsWritten(f: Feedback, filters: Filters, formatDate: int -> string) {
    OtherFiltersMatch(f, filters, formatDate) && CategoryMatchAsWritten(f, filters.category)
  }

  function Passing(filters: Filters, formatDate: int -> string): Feedback -> bool {
    (f: Feedback) => Passes(f, filters, formatDate)
  }

  function PassingAsWritten(filters: Filters, formatDate: int -> string): Feedback -> bool {
    (f: Feedback) => PassesAsWritten(f, filters, formatDate)
  }

  /** `sortedFeedbacks`: the entries that pass, in the chosen order; the
      comparators are the server's four orders. */
  function Shown(fs: seq<Feedback>, filters: Filters, formatDate: int -> string): (r: seq<Feedback>)
    ensures multiset(r) <= multiset(fs)
  {
    Sort(Filter(fs, Passing(filters, formatDate)), FeedbackLe(filters.sortBy))
  }

  /** `sortedFeedbacks` with the page's own category test. */
  function ShownAsWritten(fs: seq<Feedback>, filters: Filters, formatDate: int -> string): (r: seq<Feedback>)
    ensures multiset(r) <= multiset(fs)
  {
    Sort(Filter(fs, PassingAsWritten(filters, formatDate)), FeedbackLe(filters.sortBy))
  }

  /** Filtering by `keep` and then sorting holds exactly the entries that
      pass, ordered by the chosen sort. */
  lemma SortedFilterSpec(fs: seq<Feedback>, keep: Feedback -> bool, order: FeedbackSort)
    ensures forall f :: f in Sort(Filter(fs, keep), FeedbackLe(order)) ==> keep(f)
    ensures forall f :: f in fs && keep(f) ==> f in Sort(Filter(fs, keep), FeedbackLe(order))
    ensures Sorted(Sort(Filter(fs, keep), FeedbackLe(order)), FeedbackLe(order))
  {
    var kept := Filter(fs, keep);
    var r := Sort(kept, FeedbackLe(order));
    FeedbackLePreorder(order);
    SortSorted(kept, FeedbackLe(order));
    forall f | f in r ensures keep(f) {
      assert f in multiset(kept) by { assert f in multiset(r); }
      FilterFrom(fs, keep, f);
    }
    forall f | f in fs && keep(f) ensures f in r {
      FilterKeeps(fs, keep, f);
      assert f in multiset(r) by { assert f in multiset(kept); }
    }
  }

  /** The list holds exactly the entries that pass, ordered by the chosen
      sort. */
  lemma ShownSpec(fs: seq<Feedback>, filters: Filters, formatDate: int -> string)
    ensures forall f :: f in Shown(fs, filters, formatDate) ==> Passes(f, filters, formatDate)
    ensures forall f :: f in fs && Passes(f, filters, formatDate) ==> f in Shown(fs, filters, formatDate)
    ensures Sorted(Shown(fs, filters, formatDate), FeedbackLe(filters.sortBy))
  {
    SortedFilterSpec(fs, Passing(filters, formatDate), filters.sortBy);
  }

  /** With the page's own category test the list holds exactly the entries
      whose own category is the chosen one (and that pass the other
      filters), ordered by the chosen sort. */
  lemma ShownAsWrittenSpec(fs: seq<Feedback>, filters: Filters, formatDate: int -> string)
    ensures forall f :: f in ShownAsWritten(fs, filters, formatDate) ==> PassesAsWritten(f, filters, formatDate)
    ensures forall f :: f in fs && PassesAsWritten(f, filters, formatDate) ==> f in ShownAsWritten(fs, filters, formatDate)
    ensures Sorted(ShownAsWritten(fs, filters, formatDate), FeedbackLe(filters.sortBy))
  {
    SortedFilterSpec(fs, PassingAsWritten(filters, formatDate), filters.sortBy);
  }

  /** The two filters give the same list, and so the same pages, unless a
      category is chosen while some entry has no category of its own. */
  lemma ShownAgree(fs: seq<Feedback>, filters: Filters, formatDate: int -> string)
    requires filters.category.Some? ==> forall i :: 0 <= i < |fs| ==> fs[i].category.Some? && fs[i].category.value != ""
    ensures Shown(fs, filters, formatDate) == ShownAsWritten(fs, filters, formatDate)
    ensures TotalPages(fs, filters, formatDate) == CeilDiv(|ShownAsWritten(fs, filters, formatDate)|, PerPage)
  {
    forall i | 0 <= i < |fs|
      ensures Passing(filters, formatDate)(fs[i]) == PassingAsWritten(filters, formatDate)(fs[i])
    {
      if filters.category.Some? {
        CategoryTestsAgree(fs[i], filters.category);
      }
    }
    FilterAgree(fs, Passing(filters, formatDate), PassingAsWritten(filters, formatDate));
  }

  /** With no filter and the default order, the page keeps the order in
      which the server sent a newest-first list. */
  lemma DefaultKeepsServerOrder(fs: seq<Feedback>, formatDate: int -> string)
    requires Sorted(fs, FeedbackLe(NewestFirst))
    ensures Shown(fs, NoFilters, formatDate) == fs
  {
    forall i | 0 <= i < |fs| ensures Passing(NoFilters, formatDate)(fs[i]) {
    }
    FilterAll(fs, Passing(NoFilters, formatDate));
    SortOfSorted(fs, FeedbackLe(NewestFirst));
  }

  /** An entry sent without a category is offered under "General", yet
      choosing "General" lists nothing. */
  lemma GeneralOptionHidesUncategorised(formatDate: int -> string)
    ensures var f := Feedback("f1", "Ann", "ann@example.com", "Lovely service", 5, None, New, 0);
      && "General" in UniqueCategories([f])
      && ShownAsWritten([f], NoFilters.(category := Some("General")), formatDate) == []
  {
    var f := Feedback("f1", "Ann", "ann@example.com", "Lovely service", 5, None, New, 0);
    assert CategoryLabel([f][0]) == "General";
    var filters := NoFilters.(category := Some("General"));
    assert !PassingAsWritten(filters, formatDate)([f][0]);
    assert Filter([f], PassingAsWritten(filters, formatDate)) == Filter([], PassingAsWritten(filters, formatDate));
  }

  /** Every option selects each entry listed under it, so every option
      lists something. */
  lemma OptionsSelectTheirEntries(fs: seq<Feedback>, formatDate: int -> string)
    ensures forall f :: f in fs ==> CategoryLabel(f) in UniqueCategories(fs)
    ensures forall f :: f in fs ==> f in Shown(fs, NoFilters.(category := Some(CategoryLabel(f))), formatDate)
    ensures forall c :: c in UniqueCategories(fs) ==> Shown(fs, NoFilters.(category := Some(c)), formatDate) != []
  {
    forall f | f in fs ensures f in Shown(fs, NoFilters.(category := Some(CategoryLabel(f))), formatDate) {
      ShownSpec(fs, NoFilters.(category := Some(CategoryLabel(f))), formatDate);
    }
    forall c | c in UniqueCategories(fs) ensures Shown(fs, NoFilters.(category := Some(c)), formatDate) != [] {
      var i :| 0 <= i < |fs| && CategoryLabel(fs[i]) == c;
      ShownSpec(fs, NoFilters.(category := Some(c)), formatDate);
      assert fs[i] in Shown(fs, NoFilters.(category := Some(c)), formatDate);
    }
  }

  /** The two category tests agree on every entry that names a category. */
  lemma CategoryTestsAgree(f: Feedback, category: Option<string>)
    requires f.category.Some? && f.category.value != ""
    ensures CategoryMatch(f, category) <==> CategoryMatchAsWritten(f, category)
  {
  }

  function PageItems(fs: seq<Feedback>, filters: Filters, formatDate: int -> string, page: int): seq<Feedback> {
    Page(Shown(fs, filters, formatDate), page, PerPage)
  }

  function TotalPages(fs: seq<Feedback>, filters: Filters, formatDate: int -> string): nat {
    CeilDiv(|Shown(fs, filters, formatDate)|, PerPage)
  }

  /** The "Previous" button; the buttons exist only with two pages or
      more, and "Previous" is disabled on page 1. */
  function PreviousPage(page: int, total: nat): (r: int)
    requires page >= 1
    ensures r >= 1
    ensures total > 1 && page > 1 ==> r == page - 1
    ensures total <= 1 || page == 1 ==> r == page
  {
    if total <= 1 || page == 1 then page else page - 1
  }

  /** The "Next" button; it is disabled on the last page. */
  function NextPage(page: int, total: nat): (r: int)
    requires page >= 1
    ensures r >= 1
    ensures total > 1 && page < total ==> r == page + 1
    ensures total > 1 && page > total ==> r == total
    ensures total <= 1 || page == total ==> r == page
  {
    if total <= 1 || page == total then page
    else if total < page + 1 then total else page + 1
  }

  /** Moving forward and back again returns to the same page while both
      buttons are live. */
  lemma NextThenPrevious(page: int, total: nat)
    requires 1 <= page < total
    ensures PreviousPage(NextPage(page, total), total) == page
  {
  }

  /** The list after `handleStatusUpdate` succeeded. */
  function SetStatus(fs: seq<Feedback>, id: string, status: Status): (r: seq<Feedback>)
    ensures |r| == |fs|
    ensures forall i :: 0 <= i < |fs| ==> r[i] == if fs[i].id == id then fs[i].(status := status) else fs[i]
  {
    seq(|fs|, i requires 0 <= i < |fs| => if fs[i].id == id then fs[i].(status := status) else fs[i])
  }

  /** An entry marked reviewed leaves the "new" filter at once. */
  lemma ReviewedLeavesNewFilter(fs: seq<Feedback>, id: string, formatDate: int -> string)
    ensures forall f :: f in Shown(SetStatus(fs, id, Reviewed), NoFilters.(status := Some(New)), formatDate) ==> f.id != id
  {
    var updated := SetStatus(fs, id, Reviewed);
    var filters := NoFilters.(status := Some(New));
    ShownSpec(updated, filters, formatDate);
    forall f | f in Shown(updated, filters, formatDate) ensures f.id != id {
      assert f.status == New;
      assert f in multiset(updated) by {
        assert f in multiset(Shown(updated, filters, formatDate));
      }
      var k :| 0 <= k < |updated| && updated[k] == f;
    }
  }

  function OtherFeedback(id: string): Feedback -> bool {
    (f: Feedback) => f.id != id
  }

  /** The first character of a word, nothing for an empty one (`n[0]`
      is `undefined`, which `join` writes as nothing). */
  function FirstChar(): string -> string {
    (w: string) => if w == "" then "" else [w[0]]
  }

  /** `getInitials(name)`: the first letters of the space-separated words,
      upper-cased, at most two. */
  function Initials(name: string): (r: string)
    ensures |r| <= 2
  {
    var firsts := FlatMap(Split(name, ' '), FirstChar());
    Upper(firsts[..if |firsts| < 2 then |firsts| else 2])
  }

  /** A one-word name gives its first letter. */
  lemma InitialsOneWord(a: string)
    requires a != "" && ' ' !in a
    ensures Initials(a) == [UpperChar(a[0])]
  {
    assert Split(a, ' ') == [a];
    assert FlatMap([a], FirstChar()) == FlatMap([], FirstChar()) + [a[0]];
  }

  /** A first and a last name give both first letters, upper-cased. */
  lemma InitialsTwoWords(a: string, b: string)
    requires a != "" && b != "" && ' ' !in a && ' ' !in b
    ensures Initials(a + " " + b) == [UpperChar(a[0]), UpperChar(b[0])]
  {
    SplitJoin([a, b], ' ');
    assert Join([a, b], " ") == a + " " + b;
    assert [a, b][..1] == [a];
    assert FlatMap([a, b], FirstChar()) == FlatMap([a], FirstChar()) + [b[0]];
    assert FlatMap([a], FirstChar()) == FlatMap([], FirstChar()) + [a[0]];
  }

  class FeedbackManagerPage {
    var feedbacks: seq<Feedback>
    var filters: Filters
    var page: int
    var selected: Option<Feedback>

    ghost predicate Valid()
      reads this
    {
      page >= 1
    }

    constructor(feedbacks: seq<Feedback>)
      ensures Valid()
      ensures this.feedbacks == feedbacks && filters == NoFilters && page == 1 && selected == None
    {
      this.feedbacks := feedbacks;
      filters := NoFilters;
      page := 1;
      selected := None;
    }

    /** Any change of the filter bar or the sort order returns to page 1. */
    method SetFilters(next: Filters)
      modifies this
      ensures Valid()
      ensures filters == next && page == 1
      ensures feedbacks == old(feedbacks) && selected == old(selected)
    {
      filters := next;
      page := 1;
    }

    /** `handleStatusUpdate`: on success the entry, and the open detail
        view when it shows that entry, take the new status. A failure is
        only logged. */
    method UpdateStatus(id: string, status: Status, updated: bool) returns (toast: Option<Toast>)
      modifies this
      ensures updated ==> (
        && feedbacks == SetStatus(old(feedbacks), id, status)
        && toast == Some(Toast("Feedback marked as " + StatusText(status), Success)))
      ensures updated && old(selected).Some? && old(selected).value.id == id ==>
        selected == Some(old(selected).value.(status := status))
      ensures !(updated && old(selected).Some? && old(selected).value.id == id) ==> selected == old(selected)
      ensures !updated ==> feedbacks == old(feedbacks) && toast.None?
      ensures filters == old(filters) && page == old(page)
    {
      if !updated {
        return None;
      }
      feedbacks := SetStatus(feedbacks, id, status);
      toast := Some(Toast("Feedback marked as " + StatusText(status), Success));
      if selected.Some? && selected.value.id == id {
        selected := Some(selected.value.(status := status));
      }
    }

    /** `handleDelete`: removes the entry once confirmed and deleted, and
        closes its detail view. */
    method Delete(id: string, confirmed: bool, deleted: bool) returns (toast: Option<Toast>)
      modifies this
      ensures confirmed && deleted ==> (
        && feedbacks == Filter(old(feedbacks), OtherFeedback(id))
        && toast == Some(Toast("Feedback deleted successfully", Success)))
      ensures confirmed && deleted && old(selected).Some? && old(selected).value.id == id ==> selected == None
      ensures !(confirmed && deleted && old(selected).Some? && old(selected).value.id == id) ==> selected == old(selected)
      ensures !(confirmed && deleted) ==> feedbacks == old(feedbacks) && toast.None?
      ensures filters == old(filters) && page == old(page)
    {
      if !confirmed || !deleted {
        return None;
      }
      feedbacks := Filter(feedbacks, OtherFeedback(id));
      toast := Some(Toast("Feedback deleted successfully", Success));
      if selected.Some? && selected.value.id == id {
        selected := None;
      }
    }

    /** The view button: a new entry filed under "General" is opened as
        reviewed while `handleStatusUpdate` marks it reviewed, with its
        toast when that succeeds; any other entry is just opened. */
    method View(f: Feedback, updated: bool) returns (toast: Option<Toast>)
      modifies this
      ensures f.category == Some("General") && f.status == New ==>
        && selected == Some(f.(status := Reviewed))
        && feedbacks == (if updated then SetStatus(old(feedbacks), f.id, Reviewed) else old(feedbacks))
        && toast == (if updated then Some(Toast("Feedback marked as reviewed", Success)) else None)
      ensures !(f.category == Some("General") && f.status == New) ==>
        selected == Some(f) && feedbacks == old(feedbacks) && toast.None?
      ensures filters == old(filters) && page == old(page)
    {
      if f.category == Some("General") && f.status == New {
        selected := Some(f.(status := Reviewed));
        toast := UpdateStatus(f.id, Reviewed, updated);
        assert "Feedback marked as " + StatusText(Reviewed) == "Feedback marked as reviewed";
      } else {
        selected := Some(f);
        toast := None;
      }
    }

    method Previous(formatDate: int -> string)
      requires Valid()
      modifies this
      ensures Valid()
      ensures page == PreviousPage(old(page), TotalPages(old(feedbacks), old(filters), formatDate))
      ensures feedbacks == old(feedbacks) && filters == old(filters) && selected == old(selected)
    {
      page := PreviousPage(page, TotalPages(feedbacks, filters, formatDate));
    }

    method Next(formatDate: int -> string)
      requires Valid()
      modifies this
      ensures Valid()
      ensures page == NextPage(old(page), TotalPages(old(feedbacks), old(filters), formatDate))
      ensures feedbacks == old(feedbacks) && filters == old(filters) && selected == old(selected)
    {
      page := NextPage(page, TotalPages(feedbacks, filters, formatDate));
    }
  }
}
