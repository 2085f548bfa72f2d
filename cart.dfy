/**
 * cart.controller: the pure parts of the cart (getCart, the table updates of
 * addToCart / removeFromCart) and the specification of checkoutCart's loop,
 * which Store.MarketStore.CheckoutCart is proved against.
 */
module Cart {
  import opened Tables
  import opened Records

  /** getCart: the user's entries, in table order. */
  function CartOf(cart: seq<CartItem>, userId: int): (r: seq<CartItem>)
    ensures forall c :: c in r <==> c in cart && c.userId == userId
    ensures Subsequence(r, cart)
  {
    FilterIsSubsequence(cart, (c: CartItem) => c.userId == userId);
    Filter(cart, (c: CartItem) => c.userId == userId)
  }

  /** `deleteMany({ where: { userId } })`: every other user's entries, in table order. */
  function WithoutUserCart(cart: seq<CartItem>, userId: int): (r: seq<CartItem>)
    ensures forall c :: c in r <==> c in cart && c.userId != userId
    ensures Subsequence(r, cart)
  {
    FilterIsSubsequence(cart, (c: CartItem) => c.userId != userId);
    Filter(cart, (c: CartItem) => c.userId != userId)
  }

  /** `quantity = 1` in the request destructuring: an absent quantity counts as one. */
  function QuantityOrDefault(quantity: Option<int>): (q: int)
    ensures quantity.None? ==> q == 1
    ensures quantity.Some? ==> q == quantity.value
  {
    quantity.GetOr(1)
  }

  /**
   * The cart after addToCart passed its item check: the user's entry for the
   * item (the first, if several) grows by `quantity`, or a new entry with the
   * next id is appended.
   */
  function AddEntry(cart: seq<CartItem>, userId: int, itemId: int, quantity: int, nextId: int): (r: seq<CartItem>)
    ensures IndexOf(cart, CartKey, (userId, itemId)).Some? ==>
      var i := IndexOf(cart, CartKey, (userId, itemId)).value;
      r == cart[i := cart[i].(quantity := cart[i].quantity + quantity)]
    ensures IndexOf(cart, CartKey, (userId, itemId)).None? ==>
      r == cart + [CartItem(nextId, userId, itemId, quantity)]
  {
    match IndexOf(cart, CartKey, (userId, itemId))
    case Some(i) => cart[i := cart[i].(quantity := cart[i].quantity + quantity)]
    case None => cart + [CartItem(nextId, userId, itemId, quantity)]
  }

  /**
   * Adding to the cart never creates a second entry for a (user, item) pair:
   * uniqueness of the pair is kept, the pair's entry holds the old quantity
   * plus the added one (or the added one alone), and every other entry is as before.
   */
  lemma {:induction false} AddEntryKeepsPairsUnique(cart: seq<CartItem>, userId: int, itemId: int, quantity: int, nextId: int)
    requires UniqueKeys(cart, CartKey)
    ensures var r := AddEntry(cart, userId, itemId, quantity, nextId);
      && UniqueKeys(r, CartKey)
      && Find(r, CartKey, (userId, itemId)).Some?
      && Find(r, CartKey, (userId, itemId)).value.quantity ==
           quantity + (match Find(cart, CartKey, (userId, itemId)) case Some(c) => c.quantity case None => 0)
      && forall other :: other != (userId, itemId) ==> Find(r, CartKey, other) == Find(cart, CartKey, other)
  {
    var key := (userId, itemId);
    var r := AddEntry(cart, userId, itemId, quantity, nextId);
    match IndexOf(cart, CartKey, key)
    case Some(i) =>
      forall other ensures IndexOf(r, CartKey, other) == IndexOf(cart, CartKey, other) {
        IndexOfAfterSet(cart, i, cart[i].(quantity := cart[i].quantity + quantity), CartKey, other);
      }
    case None =>
      var c := CartItem(nextId, userId, itemId, quantity);
      AppendFreshKeepsUnique(cart, c, CartKey);
      FindAppended(cart, c, CartKey);
      forall other | other != key ensures Find(r, CartKey, other) == Find(cart, CartKey, other) {
        if IndexOf(cart, CartKey, other).Some? {
          FindAfterAppend(cart, c, CartKey, other);
        }
      }
  }

  /** A new entry takes the counter; a bumped entry keeps its id. */
  lemma AddEntryKeepsNumbered(cart: seq<CartItem>, userId: int, itemId: int, quantity: int, nextId: int)
    requires Numbered(cart, CartItemId, nextId)
    ensures Numbered(AddEntry(cart, userId, itemId, quantity, nextId), CartItemId,
                     if IndexOf(cart, CartKey, (userId, itemId)).Some? then nextId else nextId + 1)
  {
    match IndexOf(cart, CartKey, (userId, itemId))
    case Some(i) => SetKeepsNumbered(cart, i, cart[i].(quantity := cart[i].quantity + quantity), CartItemId, nextId);
    case None => AppendKeepsNumbered(cart, CartItem(nextId, userId, itemId, quantity), CartItemId, nextId);
  }

  // ---------------------------------------------------------------------
  // checkoutCart
  // ---------------------------------------------------------------------

  /** `findMany({ where: { userId }, include: { item: true } })`: each entry's item as it was read before the loop. */
  function Snapshot(entries: seq<CartItem>, items: seq<Item>): (r: seq<Option<Item>>)
    ensures |r| == |entries|
    ensures forall j :: 0 <= j < |r| ==> r[j] == Find(items, ItemId, entries[j].itemId)
  {
    seq(|entries|, j requires 0 <= j < |entries| => Find(items, ItemId, entries[j].itemId))
  }

  /** An entry the loop may buy: its item was read and was available. */
  predicate Purchasable(o: Option<Item>) {
    o.Some? && o.value.status == Available
  }

  /** Where the loop stops: the first entry it may not buy, or the end of the cart. */
  function FirstUnavailable(snap: seq<Option<Item>>): (n: nat)
    ensures n <= |snap|
    ensures forall j :: 0 <= j < n ==> Purchasable(snap[j])
    ensures n < |snap| ==> !Purchasable(snap[n])
  {
    if snap == [] || !Purchasable(snap[0]) then 0
    else 1 + FirstUnavailable(snap[1..])
  }

  /**
   * The transactions the loop has created after `k` entries: one completed
   * purchase per entry, in cart order, at the item's price (quantity is
   * ignored), numbered from `firstId`.
   */
  function CheckoutTrxs(snap: seq<Option<Item>>, k: nat, userId: int, firstId: int, now: int): (r: seq<Transaction>)
    requires k <= |snap| && forall j :: 0 <= j < k ==> snap[j].Some?
    ensures |r| == k
    ensures forall j :: 0 <= j < k ==>
      r[j] == Transaction(firstId + j, userId, snap[j].value.ownerId, snap[j].value.id, snap[j].value.price, TrxCompleted, now)
  {
    if k == 0 then []
    else
      var it := snap[k - 1].value;
      CheckoutTrxs(snap, k - 1, userId, firstId, now) + [Transaction(firstId + k - 1, userId, it.ownerId, it.id, it.price, TrxCompleted, now)]
  }

  /** The items table after the loop has marked the first `k` entries' items sold. */
  function SoldUpTo(items: seq<Item>, snap: seq<Option<Item>>, k: nat): seq<Item>
    requires k <= |snap| && forall j :: 0 <= j < k ==> snap[j].Some?
  {
    if k == 0 then items
    else SetItemStatus(SoldUpTo(items, snap, k - 1), snap[k - 1].value.id, Sold)
  }

  /** `id` is the item of one of the first `k` entries. */
  predicate BoughtWithin(snap: seq<Option<Item>>, k: nat, id: int)
    requires k <= |snap| && forall j :: 0 <= j < k ==> snap[j].Some?
  {
    k > 0 && (snap[k - 1].value.id == id || BoughtWithin(snap, k - 1, id))
  }

  /** Marking items sold moves no row: every id is found at the same place. */
  lemma {:induction false} SoldUpToKeepsPlaces(items: seq<Item>, snap: seq<Option<Item>>, k: nat, id: int)
    requires k <= |snap| && forall j :: 0 <= j < k ==> snap[j].Some?
    ensures |SoldUpTo(items, snap, k)| == |items|
    ensures IndexOf(SoldUpTo(items, snap, k), ItemId, id) == IndexOf(items, ItemId, id)
    decreases k
  {
    if k > 0 {
      SoldUpToKeepsPlaces(items, snap, k - 1, id);
      SetItemStatusEffect(SoldUpTo(items, snap, k - 1), snap[k - 1].value.id, Sold, id);
    }
  }

  /**
   * What the loop does to the items table: the item of every entry bought is
   * now sold and otherwise unchanged, and every other item is as it was.
   */
  lemma {:induction false} SoldUpToEffect(items: seq<Item>, snap: seq<Option<Item>>, k: nat, id: int)
    requires k <= |snap| && forall j :: 0 <= j < k ==> snap[j].Some?
    requires forall j :: 0 <= j < k ==> Find(items, ItemId, snap[j].value.id).Some?
    ensures BoughtWithin(snap, k, id) ==> Find(items, ItemId, id).Some?
    ensures BoughtWithin(snap, k, id) ==>
      Find(SoldUpTo(items, snap, k), ItemId, id) == Some(Find(items, ItemId, id).value.(status := Sold))
    ensures !BoughtWithin(snap, k, id) ==> Find(SoldUpTo(items, snap, k), ItemId, id) == Find(items, ItemId, id)
    decreases k
  {
    if k > 0 {
      var prev := SoldUpTo(items, snap, k - 1);
      var last := snap[k - 1].value.id;
      SoldUpToEffect(items, snap, k - 1, id);
      SoldUpToEffect(items, snap, k - 1, last);
      assert Find(items, ItemId, last).Some?;
      SetItemStatusEffect(prev, last, Sold, id);
    }
  }

  /** Marking items sold keeps the items table's ids increasing. */
  lemma {:induction false} SoldUpToKeepsIncreasing(items: seq<Item>, snap: seq<Option<Item>>, k: nat)
    requires k <= |snap| && forall j :: 0 <= j < k ==> snap[j].Some?
    requires KeysIncreasing(items, ItemId)
    ensures KeysIncreasing(SoldUpTo(items, snap, k), ItemId)
    decreases k
  {
    if k > 0 {
      SoldUpToKeepsIncreasing(items, snap, k - 1);
      SetItemStatusKeepsIncreasing(SoldUpTo(items, snap, k - 1), snap[k - 1].value.id, Sold);
    }
  }

  /** The entries of a snapshot read from `items` all name items of `items`. */
  lemma SnapshotItemsExist(entries: seq<CartItem>, items: seq<Item>, k: nat)
    requires k <= |entries|
    requires forall j :: 0 <= j < k ==> Snapshot(entries, items)[j].Some?
    ensures forall j :: 0 <= j < k ==> Find(items, ItemId, Snapshot(entries, items)[j].value.id).Some?
  {
    var snap := Snapshot(entries, items);
    forall j | 0 <= j < k ensures Find(items, ItemId, snap[j].value.id).Some? {
      assert snap[j] == Find(items, ItemId, entries[j].itemId);
    }
  }

  /** Clearing a user's cart keeps the numbering and the uniqueness of (user, item) pairs. */
  lemma ClearingKeepsCartValid(cart: seq<CartItem>, userId: int, next: int)
    ensures Numbered(cart, CartItemId, next) ==> Numbered(WithoutUserCart(cart, userId), CartItemId, next)
    ensures UniqueKeys(cart, CartKey) ==> UniqueKeys(WithoutUserCart(cart, userId), CartKey)
  {
    if Numbered(cart, CartItemId, next) {
      FilterKeepsNumbered(cart, (c: CartItem) => c.userId != userId, CartItemId, next);
    }
    if UniqueKeys(cart, CartKey) {
      FilterKeepsUnique(cart, (c: CartItem) => c.userId != userId, CartKey);
    }
  }

  /** The transactions of a checkout take consecutive ids, so they keep the table numbered. */
  lemma {:induction false} CheckoutTrxsKeepNumbered(ts: seq<Transaction>, snap: seq<Option<Item>>, k: nat, userId: int, next: int, now: int)
    requires k <= |snap| && forall j :: 0 <= j < k ==> snap[j].Some?
    requires Numbered(ts, TrxId, next)
    ensures Numbered(ts + CheckoutTrxs(snap, k, userId, next, now), TrxId, next + k)
    decreases k
  {
    if k > 0 {
      CheckoutTrxsKeepNumbered(ts, snap, k - 1, userId, next, now);
      var prev := CheckoutTrxs(snap, k - 1, userId, next, now);
      var t := CheckoutTrxs(snap, k, userId, next, now)[k - 1];
      assert CheckoutTrxs(snap, k, userId, next, now) == prev + [t];
      AppendKeepsNumbered(ts + prev, t, TrxId, next + k - 1);
      assert ts + prev + [t] == ts + CheckoutTrxs(snap, k, userId, next, now);
    }
  }
}
