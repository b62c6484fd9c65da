/** The wishlist engine of src/context/WishlistContext.jsx: a list of
    product objects whose membership is decided by `id || _id`, a guest path
    that changes the list locally, and a signed-in path that takes the
    server's list.

    Each asynchronous operation is one atomic step; what the server answers
    is a parameter of the step. The "guestWishlistItems" entry of local
    storage is the field `guestWishlistItems`. */
module Wishlist {
  import opened JsValues

  /** A product as the wishlist stores it (`dbId` is `_id`). */
  datatype WishProduct = WishProduct(
    id: Option<string>, dbId: Option<string>,
    name: Option<string>, image: Option<string>, price: Option<real>)

  /** The request body a signed-in toggle or remove posts. */
  datatype WishRequest = AddWish(productId: string) | RemoveWish(productId: string)

  /** `item.id || item._id` */
  function Key(p: WishProduct): (r: Option<string>)
    ensures Present(r) <==> Present(p.id) || Present(p.dbId)
    ensures Present(p.id) ==> r == p.id
  {
    OrElse(p.id, p.dbId)
  }

  /** `items.map((item) => item.id || item._id)`: what the merge request sends. */
  function Keys(items: seq<WishProduct>): (ids: seq<Option<string>>)
    ensures |ids| == |items|
    ensures forall i | 0 <= i < |items| :: ids[i] == Key(items[i])
  {
    seq(|items|, i requires 0 <= i < |items| => Key(items[i]))
  }

  /** `isItemInWishlist(pid)`: some entry's `id || _id` is `pid` (compared
      with `===`, so an absent `pid` matches an entry with neither id). */
  function InWishlist(items: seq<WishProduct>, pid: Option<string>): (r: bool)
    ensures r <==> exists i | 0 <= i < |items| :: Key(items[i]) == pid
  {
    if items == [] then false
    else
      assert forall i | 1 <= i < |items| :: items[1..][i - 1] == items[i];
      Key(items[0]) == pid || InWishlist(items[1..], pid)
  }

  /** No two entries share a (truthy) key. */
  predicate UniqueKeys(items: seq<WishProduct>) {
    forall i, j | 0 <= i < j < |items| && Present(Key(items[i])) :: Key(items[i]) != Key(items[j])
  }

  /** The number of entries whose key is `pid`. */
  function Occurrences(items: seq<WishProduct>, pid: string): nat {
    if items == [] then 0
    else (if Key(items[0]) == Some(pid) then 1 else 0) + Occurrences(items[1..], pid)
  }

  /** `items.filter((item) => (item.id || item._id) !== pid)` */
  function Without(items: seq<WishProduct>, pid: string): (r: seq<WishProduct>)
    ensures !InWishlist(r, Some(pid))
    ensures forall x :: x in r <==> x in items && Key(x) != Some(pid)
    ensures |r| == |items| - Occurrences(items, pid)
    ensures UniqueKeys(items) ==> UniqueKeys(r)
  {
    if items == [] then []
    else if Key(items[0]) == Some(pid) then
      TailUnique(items);
      Without(items[1..], pid)
    else
      var rest := Without(items[1..], pid);
      assert forall x | x in rest :: x in items[1..];
      var r := [items[0]] + rest;
      TailUnique(items);
      if UniqueKeys(items) then ConsUnique(items[0], rest); r else r
  }

  /** Unique keys survive dropping the first entry, whose key (when truthy)
      no later entry has. */
  lemma TailUnique(items: seq<WishProduct>)
    requires items != []
    ensures UniqueKeys(items) ==> UniqueKeys(items[1..])
    ensures UniqueKeys(items) && Present(Key(items[0])) ==>
      forall x | x in items[1..] :: Key(x) != Key(items[0])
  {
    var rest := items[1..];
    forall i | 0 <= i < |rest| ensures rest[i] == items[i + 1] { }
  }

  /** An entry whose key no entry of a list with unique keys has can be put
      in front of it. */
  lemma ConsUnique(h: WishProduct, rest: seq<WishProduct>)
    requires UniqueKeys(rest)
    requires Present(Key(h)) ==> forall x | x in rest :: Key(x) != Key(h)
    ensures UniqueKeys([h] + rest)
  {
    var r := [h] + rest;
    forall i, j | 0 <= i < j < |r| && Present(Key(r[i])) ensures Key(r[i]) != Key(r[j]) {
      assert r[j] == rest[j - 1];
      if i > 0 {
        assert r[i] == rest[i - 1];
      }
    }
  }

  lemma {:induction false} WithoutAppend(a: seq<WishProduct>, b: seq<WishProduct>, pid: string)
    ensures Without(a + b, pid) == Without(a, pid) + Without(b, pid)
  {
    if a == [] {
      assert a + b == b;
    } else {
      assert (a + b)[1..] == a[1..] + b;
      WithoutAppend(a[1..], b, pid);
    }
  }

  /** Removing a key that no entry has leaves the list as it was. */
  lemma {:induction false} WithoutAbsent(items: seq<WishProduct>, pid: string)
    requires !InWishlist(items, Some(pid))
    ensures Without(items, pid) == items
  {
    if items != [] {
      WithoutAbsent(items[1..], pid);
    }
  }

  /** The guest branch of `toggleWishlist` for a product with a truthy key:
      drop every entry with that key, or append the product. */
  function GuestToggle(items: seq<WishProduct>, p: WishProduct): (r: seq<WishProduct>)
    requires Present(Key(p))
    ensures InWishlist(r, Key(p)) <==> !InWishlist(items, Key(p))
    ensures forall q | q != Key(p) :: InWishlist(r, q) <==> InWishlist(items, q)
    ensures UniqueKeys(items) ==> UniqueKeys(r)
  {
    var pid := Key(p).value;
    if InWishlist(items, Key(p)) then
      var r := Without(items, pid);
      assert forall q | q != Key(p) :: InWishlist(r, q) <==> InWishlist(items, q) by {
        forall q | q != Key(p) ensures InWishlist(r, q) <==> InWishlist(items, q) {
          if InWishlist(items, q) {
            var i :| 0 <= i < |items| && Key(items[i]) == q;
            assert items[i] in r;
            var j :| 0 <= j < |r| && r[j] == items[i];
          }
          if InWishlist(r, q) {
            var i :| 0 <= i < |r| && Key(r[i]) == q;
            assert r[i] in items;
            var j :| 0 <= j < |items| && items[j] == r[i];
          }
        }
      }
      r
    else
      var r := items + [p];
      assert r[|items|] == p;
      assert forall q :: InWishlist(items, q) ==> InWishlist(r, q) by {
        forall q | InWishlist(items, q) ensures InWishlist(r, q) {
          var i :| 0 <= i < |items| && Key(items[i]) == q;
          assert r[i] == items[i];
        }
      }
      r
  }

  /** A guest toggle appends one entry for a new key, or takes out every
      entry with a key already there. */
  lemma GuestToggleCount(items: seq<WishProduct>, p: WishProduct)
    requires Present(Key(p))
    ensures !InWishlist(items, Key(p)) ==> GuestToggle(items, p) == items + [p]
    ensures InWishlist(items, Key(p)) ==>
      |GuestToggle(items, p)| == |items| - Occurrences(items, Key(p).value) < |items|
  {
    if InWishlist(items, Key(p)) {
      OccurrencesPositive(items, Key(p).value);
    }
  }

  lemma {:induction false} OccurrencesPositive(items: seq<WishProduct>, pid: string)
    requires InWishlist(items, Some(pid))
    ensures Occurrences(items, pid) > 0
  {
    if Key(items[0]) != Some(pid) {
      OccurrencesPositive(items[1..], pid);
    }
  }

  /** An id that no entry has occurs nowhere. */
  lemma {:induction false} OccurrencesAbsent(items: seq<WishProduct>, pid: string)
    requires !InWishlist(items, Some(pid))
    ensures Occurrences(items, pid) == 0
  {
    if items != [] {
      OccurrencesAbsent(items[1..], pid);
    }
  }

  /** With unique keys, a (truthy) id in the list occurs exactly once. */
  lemma {:induction false} OccursOnce(items: seq<WishProduct>, pid: string)
    requires UniqueKeys(items) && InWishlist(items, Some(pid)) && pid != ""
    ensures Occurrences(items, pid) == 1
  {
    TailUnique(items);
    if Key(items[0]) == Some(pid) {
      OccurrencesAbsent(items[1..], pid);
    } else {
      OccursOnce(items[1..], pid);
    }
  }

  /** A list never holds more copies of one product than it has entries. */
  lemma {:induction false} OccurrencesAtMost(items: seq<WishProduct>)
    ensures forall pid :: Occurrences(items, pid) <= |items|
  {
    if items != [] {
      OccurrencesAtMost(items[1..]);
    }
  }

  /** `getWishlistItemsCount()`: the number of entries, which bounds the
      number of copies of every product. */
  function Count(items: seq<WishProduct>): (n: nat)
    ensures forall pid :: Occurrences(items, pid) <= n
  {
    OccurrencesAtMost(items);
    |items|
  }

  /** On a list with unique keys, a guest toggle moves the count by exactly
      one: down when the product was in the list, up when it was not. */
  lemma GuestToggleMovesCount(items: seq<WishProduct>, p: WishProduct)
    requires Present(Key(p)) && UniqueKeys(items)
    ensures Count(GuestToggle(items, p)) ==
      if InWishlist(items, Key(p)) then Count(items) - 1 else Count(items) + 1
  {
    GuestToggleCount(items, p);
    if InWishlist(items, Key(p)) {
      OccursOnce(items, Key(p).value);
    }
  }

  /** Toggling a product twice, as a guest, when its key is not in the list
      gives back the original list. */
  lemma GuestToggleTwice(items: seq<WishProduct>, p: WishProduct)
    requires Present(Key(p)) && !InWishlist(items, Key(p))
    ensures GuestToggle(GuestToggle(items, p), p) == items
  {
    var pid := Key(p).value;
    WithoutAppend(items, [p], pid);
    WithoutAbsent(items, pid);
    assert Without([p], pid) == [];
  }

  class WishlistStore {
    var wishlistItems: seq<WishProduct>
    var isAuthenticated: bool
    /** The "guestWishlistItems" entry of local storage (None: no entry). */
    var guestWishlistItems: Option<seq<WishProduct>>

    /** What guest operations keep: no two entries share a key, in the stored
        guest list and, while signed out, in the list itself. */
    ghost predicate Valid()
      reads this
    {
      && (guestWishlistItems.Some? ==> UniqueKeys(guestWishlistItems.value))
      && (!isAuthenticated ==> UniqueKeys(wishlistItems))
    }

    /** The provider's first render: an empty list. */
    constructor (signedIn: bool, stored: Option<seq<WishProduct>>)
      ensures wishlistItems == [] && isAuthenticated == signedIn && guestWishlistItems == stored
      ensures Valid() <==> (stored.Some? ==> UniqueKeys(stored.value))
    {
      wishlistItems := [];
      isAuthenticated := signedIn;
      guestWishlistItems := stored;
    }

    /** The sync effect on a change of the signed-in state, followed by the
        persist effect. Signed in: the ids of a non-empty stored guest list
        (and only those) are posted to the merge endpoint, the server's list
        replaces the wishlist and the stored entry is removed; otherwise the
        server's wishlist is fetched. A failure changes nothing. Signed out:
        the stored guest list is loaded. `reply` answers whichever request
        is made. */
    method Sync(signedIn: bool, reply: Reply<seq<WishProduct>>) returns (mergeRequest: Option<seq<Option<string>>>)
      modifies this
      ensures isAuthenticated == signedIn
      ensures var guest := old(guestWishlistItems).GetOr([]);
        mergeRequest == if signedIn && guest != [] then Some(Keys(guest)) else None
      ensures signedIn && reply.Ok? ==>
        && wishlistItems == ListOf(reply.data)
        && guestWishlistItems == (if mergeRequest.Some? then None else old(guestWishlistItems))
      ensures signedIn && reply.Fail? ==>
        wishlistItems == old(wishlistItems) && guestWishlistItems == old(guestWishlistItems)
      ensures !signedIn ==>
        wishlistItems == old(guestWishlistItems).GetOr([]) && guestWishlistItems == Some(wishlistItems)
      ensures old(Valid()) ==> Valid()
    {
      isAuthenticated := signedIn;
      mergeRequest := None;
      if signedIn {
        var guest := guestWishlistItems.GetOr([]);
        if guest != [] {
          mergeRequest := Some(Keys(guest));
          if reply.Ok? {
            wishlistItems := ListOf(reply.data);
            guestWishlistItems := None;
          }
        } else if reply.Ok? {
          wishlistItems := ListOf(reply.data);
        }
      } else {
        wishlistItems := guestWishlistItems.GetOr([]);
        guestWishlistItems := Some(wishlistItems);
      }
    }

    /** `toggleWishlist(product)`. A product with neither id changes nothing.
        Signed in: posts a remove when the key is in the list and an add
        when it is not, and takes the server's list, or changes nothing on
        failure. Guest: toggles locally and stores the guest list. */
    method ToggleWishlist(p: WishProduct, reply: Reply<seq<WishProduct>>) returns (sent: Option<WishRequest>)
      modifies this
      ensures isAuthenticated == old(isAuthenticated)
      ensures !Present(Key(p)) ==>
        sent == None && wishlistItems == old(wishlistItems) && guestWishlistItems == old(guestWishlistItems)
      ensures Present(Key(p)) && isAuthenticated ==>
        && sent == Some(if InWishlist(old(wishlistItems), Key(p)) then RemoveWish(Key(p).value) else AddWish(Key(p).value))
        && wishlistItems == (if reply.Ok? then ListOf(reply.data) else old(wishlistItems))
        && guestWishlistItems == old(guestWishlistItems)
      ensures Present(Key(p)) && !isAuthenticated ==>
        && sent == None
        && wishlistItems == GuestToggle(old(wishlistItems), p)
        && guestWishlistItems == Some(wishlistItems)
      ensures old(Valid()) ==> Valid()
    {
      sent := None;
      var key := Key(p);
      if !Present(key) {
        return;
      }
      var present := InWishlist(wishlistItems, key);
      if isAuthenticated {
        sent := Some(if present then RemoveWish(key.value) else AddWish(key.value));
        if reply.Ok? {
          wishlistItems := ListOf(reply.data);
        }
      } else {
        wishlistItems := GuestToggle(wishlistItems, p);
        guestWishlistItems := Some(wishlistItems);
      }
    }

    /** `removeFromWishlist(productId)`. A falsy id changes nothing.
        Otherwise every entry with the id is taken out; signed in, the
        server's list replaces the wishlist, or on failure the list before
        the removal comes back (restored outright when the id was there;
        when it was not, the filtered list is already that list). */
    method RemoveFromWishlist(pid: Option<string>, reply: Reply<seq<WishProduct>>) returns (sent: Option<WishRequest>)
      modifies this
      ensures isAuthenticated == old(isAuthenticated)
      ensures !Present(pid) ==>
        sent == None && wishlistItems == old(wishlistItems) && guestWishlistItems == old(guestWishlistItems)
      ensures Present(pid) && isAuthenticated ==>
        && sent == Some(RemoveWish(pid.value))
        && wishlistItems == (if reply.Ok? then ListOf(reply.data) else old(wishlistItems))
        && guestWishlistItems == old(guestWishlistItems)
      ensures Present(pid) && !isAuthenticated ==>
        && sent == None
        && wishlistItems == Without(old(wishlistItems), pid.value)
        && guestWishlistItems == Some(wishlistItems)
      ensures old(Valid()) ==> Valid()
    {
      sent := None;
      if !Present(pid) {
        return;
      }
      var oldState := wishlistItems;
      var found := InWishlist(oldState, pid);
      wishlistItems := Without(wishlistItems, pid.value);
      if isAuthenticated {
        sent := Some(RemoveWish(pid.value));
        if reply.Ok? {
          wishlistItems := ListOf(reply.data);
        } else if found {
          wishlistItems := oldState;
        } else {
          WithoutAbsent(oldState, pid.value);
        }
      } else {
        guestWishlistItems := Some(wishlistItems);
      }
    }
  }
}
