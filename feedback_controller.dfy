/** The feedback endpoints of the admin area: the filtered, sorted listing
    and the status change and delete of one entry. */
module FeedbackController {
  import opened Base
  import opened Text
  import opened Sorting
  import opened Catalog
  import opened ErrorHandler
  import Json

  /** The query string of `GET /api/feedback`; `None` is an absent key. */
  datatype FeedbackQuery = FeedbackQuery(status: Option<string>, search: Option<string>, sort: Option<string>)

  /** The MongoDB filter the handler builds: an equality on `status`, and a
      search term matched against name, email and message. */
  datatype FeedbackFilter = FeedbackFilter(status: Option<string>, search: Option<string>)

  datatype FeedbackSort = NewestFirst | OldestFirst | RatingHigh | RatingLow

  function StatusText(s: Status): string {
    match s
    case New => "new"
    case Reviewed => "reviewed"
  }

  /** The filter and sort construction of `getFeedback`. */
  method BuildQuery(q: FeedbackQuery) returns (filter: FeedbackFilter, order: FeedbackSort)
    ensures filter.status.Some? <==> q.status.Some? && q.status.value != "" && q.status.value != "all"
    ensures filter.status.Some? ==> filter.status == q.status
    ensures filter.search.Some? <==> q.search.Some? && q.search.value != ""
    ensures filter.search.Some? ==> filter.search == q.search
    ensures order == OldestFirst <==> q.sort == Some("oldest")
    ensures order == RatingHigh <==> q.sort == Some("rating-high")
    ensures order == RatingLow <==> q.sort == Some("rating-low")
  {
    filter := FeedbackFilter(None, None);
    if q.status.Some? && q.status.value != "" && q.status.value != "all" {
      filter := filter.(status := q.status);
    }
    if q.search.Some? && q.search.value != "" {
      filter := filter.(search := q.search);
    }
    var sort := if q.sort.Some? then q.sort.value else "newest";
    if sort == "oldest" {
      order := OldestFirst;
    } else if sort == "rating-high" {
      order := RatingHigh;
    } else if sort == "rating-low" {
      order := RatingLow;
    } else {
      order := NewestFirst;
    }
  }

  /** An entry passes the filter when its status equals the status asked
      for and the search term occurs, ignoring case, in its name, email or
      message (taken to hold no regular-expression metacharacters). */
  predicate Selects(filter: FeedbackFilter, f: Feedback) {
    && (filter.status.None? || StatusText(f.status) == filter.status.value)
    && (filter.search.None?
        || Contains(Lower(f.name), Lower(filter.search.value))
        || Contains(Lower(f.email), Lower(filter.search.value))
        || Contains(Lower(f.message), Lower(filter.search.value)))
  }

  function Selector(filter: FeedbackFilter): Feedback -> bool {
    (f: Feedback) => Selects(filter, f)
  }

  /** `{createdAt: -1}`, `{createdAt: 1}`, `{rating: -1}`, `{rating: 1}`. */
  function FeedbackLe(order: FeedbackSort): (Feedback, Feedback) -> bool {
    match order
    case NewestFirst => (a: Feedback, b: Feedback) => a.createdAt >= b.createdAt
    case OldestFirst => (a: Feedback, b: Feedback) => a.createdAt <= b.createdAt
    case RatingHigh => (a: Feedback, b: Feedback) => a.rating >= b.rating
    case RatingLow => (a: Feedback, b: Feedback) => a.rating <= b.rating
  }

  lemma FeedbackLePreorder(order: FeedbackSort)
    ensures TotalPreorder(FeedbackLe(order))
  {
  }

  /** `Feedback.find(filter).sort(sortObj)`. */
  function FindSorted(fs: seq<Feedback>, filter: FeedbackFilter, order: FeedbackSort): seq<Feedback> {
    Sort(Filter(fs, Selector(filter)), FeedbackLe(order))
  }

  /** The listing holds exactly the selected entries, in the asked order. */
  lemma FindSortedSpec(fs: seq<Feedback>, filter: FeedbackFilter, order: FeedbackSort)
    ensures forall i :: 0 <= i < |FindSorted(fs, filter, order)| ==> Selects(filter, FindSorted(fs, filter, order)[i])
    ensures forall i :: 0 <= i < |fs| && Selects(filter, fs[i]) ==> fs[i] in FindSorted(fs, filter, order)
    ensures Sorted(FindSorted(fs, filter, order), FeedbackLe(order))
  {
    var filtered := Filter(fs, Selector(filter));
    var r := FindSorted(fs, filter, order);
    FeedbackLePreorder(order);
    SortSorted(filtered, FeedbackLe(order));
    forall i | 0 <= i < |r| ensures Selects(filter, r[i]) {
      assert r[i] in multiset(filtered);
      var j :| 0 <= j < |filtered| && filtered[j] == r[i];
      assert Selector(filter)(filtered[j]);
    }
    forall i | 0 <= i < |fs| && Selects(filter, fs[i]) ensures fs[i] in r {
      FilterKeeps(fs, Selector(filter), fs[i]);
      assert fs[i] in multiset(r);
    }
  }

  /** Without a status or a search term every entry is listed. */
  lemma NoFilterListsAll(fs: seq<Feedback>, order: FeedbackSort)
    ensures multiset(FindSorted(fs, FeedbackFilter(None, None), order)) == multiset(fs)
  {
    FilterAll(fs, Selector(FeedbackFilter(None, None)));
  }

  /** `["new", "reviewed"].includes(status)`: only those two strings. */
  function ParseStatus(v: Json.JsValue): (r: Option<Status>)
    ensures r == Some(New) <==> v == Json.Str("new")
    ensures r == Some(Reviewed) <==> v == Json.Str("reviewed")
  {
    if v == Json.Str("new") then Some(New)
    else if v == Json.Str("reviewed") then Some(Reviewed)
    else None
  }

  /** Every status reads back from its own text, and only from it. */
  lemma ParseStatusText(s: Status, v: Json.JsValue)
    ensures ParseStatus(Json.Str(StatusText(s))) == Some(s)
    ensures ParseStatus(v) == Some(s) ==> v == Json.Str(StatusText(s))
  {
  }

  /** `updateFeedbackStatus`: the value is checked before the id is cast
      and looked up, and only the status field changes. */
  method UpdateFeedbackStatus(db: Store, id: string, status: Json.JsValue) returns (r: Outcome<Feedback>)
    requires db.Valid()
    modifies db
    ensures db.Valid()
    ensures db.products == old(db.products) && db.categories == old(db.categories) && db.deletions == old(db.deletions)
    ensures r.Ok? <==> ParseStatus(status).Some? && IsObjectId(id) && FindFeedback(old(db.feedback), id).Some?
    ensures r.Fail? ==> unchanged(db)
    ensures ParseStatus(status).None? ==> r == Fail(ApiError(400, "Status must be 'new' or 'reviewed'"))
    ensures ParseStatus(status).Some? && !IsObjectId(id) ==> r == Fail(CastFailure("_id"))
    ensures ParseStatus(status).Some? && IsObjectId(id) && FindFeedback(old(db.feedback), id).None? ==>
      r == Fail(ApiError(404, "Feedback not found"))
    ensures r.Ok? ==>
      var k := FindFeedback(old(db.feedback), id).value;
      && r.value == old(db.feedback)[k].(status := ParseStatus(status).value)
      && db.feedback == old(db.feedback)[k := r.value]
  {
    var parsed := ParseStatus(status);
    if parsed.None? {
      return Fail(ApiError(400, "Status must be 'new' or 'reviewed'"));
    }
    if !IsObjectId(id) {
      return Fail(CastFailure("_id"));
    }
    var found := FindFeedback(db.feedback, id);
    if found.None? {
      return Fail(ApiError(404, "Feedback not found"));
    }
    var updated := db.feedback[found.value].(status := parsed.value);
    db.feedback := db.feedback[found.value := updated];
    r := Ok(updated);
  }

  /** `deleteFeedback`. */
  method DeleteFeedback(db: Store, id: string) returns (r: Outcome<Feedback>)
    requires db.Valid()
    modifies db
    ensures db.Valid()
    ensures db.products == old(db.products) && db.categories == old(db.categories) && db.deletions == old(db.deletions)
    ensures r.Ok? <==> IsObjectId(id) && FindFeedback(old(db.feedback), id).Some?
    ensures r.Fail? ==> unchanged(db)
    ensures !IsObjectId(id) ==> r == Fail(CastFailure("_id"))
    ensures IsObjectId(id) && FindFeedback(old(db.feedback), id).None? ==> r == Fail(ApiError(404, "Feedback not found"))
    ensures r.Ok? ==>
      var k := FindFeedback(old(db.feedback), id).value;
      && r.value == old(db.feedback)[k]
      && db.feedback == RemoveAt(old(db.feedback), k)
  {
    if !IsObjectId(id) {
      return Fail(CastFailure("_id"));
    }
    var found := FindFeedback(db.feedback, id);
    if found.None? {
      return Fail(ApiError(404, "Feedback not found"));
    }
    r := Ok(db.feedback[found.value]);
    db.feedback := RemoveAt(db.feedback, found.value);
  }
}
