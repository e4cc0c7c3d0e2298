/** The storefront wishlist: a list of product ids kept in the browser's
    storage, with add, remove, membership and toggle. */
module Wishlist {
  import opened Base

  /** `toggleWishlist` on the list: a listed id is removed everywhere, an
      unlisted one is appended. */
  function Toggled(s: seq<string>, id: string): (r: seq<string>)
    ensures id in r <==> id !in s
    ensures forall x :: x != id ==> multiset(r)[x] == multiset(s)[x]
  {
    if id in s then RemoveAll(s, id) else s + [id]
  }

  /** Toggling an id the list does not hold, then toggling it again, gives
      the original list back. */
  lemma ToggleTwiceAbsent(s: seq<string>, id: string)
    requires id !in s
    ensures Toggled(Toggled(s, id), id) == s
  {
    RemoveAllConcat(s, [id], id);
    RemoveAllAbsent(s, id);
    assert RemoveAll([id], id) == [];
  }

  /** Toggling a listed id twice keeps one copy of it, moved to the end. */
  lemma ToggleTwicePresent(s: seq<string>, id: string)
    requires id in s
    ensures Toggled(Toggled(s, id), id) == RemoveAll(s, id) + [id]
  {
  }

  /** Removal keeps the other ids in their order: removing from a
      concatenation removes from each part. */
  lemma RemoveKeepsOrder(a: seq<string>, b: seq<string>, id: string)
    ensures RemoveAll(a + b, id) == RemoveAll(a, id) + RemoveAll(b, id)
  {
    RemoveAllConcat(a, b, id);
  }

  /** The provider's state and the `wishlist` entry of the browser's storage,
      which the effect rewrites after every change. */
  class WishlistStore {
    var items: seq<string>
    var stored: seq<string>

    /** The stored copy follows the list. */
    ghost predicate Valid()
      reads this
    {
      stored == items
    }

    /** The initial list is the stored one when there is one, else empty.
        `saved` is the parsed entry; a missing or empty entry is `None`. */
    constructor(saved: Option<seq<string>>)
      ensures Valid()
      ensures items == (if saved.Some? then saved.value else [])
    {
      items := if saved.Some? then saved.value else [];
      stored := items;
    }

    /** `addToWishlist`: appended even when already listed. */
    method Add(id: string)
      requires Valid()
      modifies this
      ensures Valid()
      ensures items == old(items) + [id]
      ensures multiset(items)[id] == multiset(old(items))[id] + 1
    {
      items := items + [id];
      stored := items;
    }

    /** `removeFromWishlist`: every copy goes, the others keep their order. */
    method Remove(id: string)
      requires Valid()
      modifies this
      ensures Valid()
      ensures items == RemoveAll(old(items), id)
      ensures id !in items
      ensures forall x :: x != id ==> multiset(items)[x] == multiset(old(items))[x]
    {
      items := RemoveAll(items, id);
      stored := items;
    }

    /** `isInWishlist`. */
    function IsIn(id: string): (r: bool)
      reads this
      ensures r <==> exists k :: 0 <= k < |items| && items[k] == id
    {
      id in items
    }

    /** `toggleWishlist`. */
    method Toggle(id: string)
      requires Valid()
      modifies this
      ensures Valid()
      ensures items == Toggled(old(items), id)
      ensures IsIn(id) <==> !old(IsIn(id))
    {
      if IsIn(id) {
        Remove(id);
      } else {
        Add(id);
      }
    }
  }
}
