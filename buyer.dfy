/**
 * buyer.controller: the read-only queries and the notification texts of the
 * direct buy and rent flows. The writing handlers (addToWishlist,
 * removeFromWishlist, buyItem, rentItem) are methods of Store.MarketStore.
 */
module Buyer {
  import opened Tables
  import opened Records

  /** getAllItems: exactly the available items, newest first. */
  function AvailableItems(items: seq<Item>): (r: seq<Item>)
    ensures forall it :: it in r <==> it in items && it.status == Available
    ensures SortedDesc(r, ItemCreatedAt)
    ensures multiset(r) <= multiset(items)
    ensures forall it :: multiset(r)[it] == if it.status == Available then multiset(items)[it] else 0
  {
    var listed := (it: Item) => it.status == Available;
    FilterCounts(items, listed);
    SortDesc(Filter(items, listed), ItemCreatedAt)
  }

  /** getBuyerOrders: the buyer's transactions, newest first. */
  function BuyerOrders(ts: seq<Transaction>, buyerId: int): (r: seq<Transaction>)
    ensures forall t :: t in r <==> t in ts && t.buyerId == buyerId
    ensures SortedDesc(r, TrxCreatedAt)
    ensures forall t :: multiset(r)[t] == if t.buyerId == buyerId then multiset(ts)[t] else 0
  {
    var mine := (t: Transaction) => t.buyerId == buyerId;
    FilterCounts(ts, mine);
    SortDesc(Filter(ts, mine), TrxCreatedAt)
  }

  /** getBuyerRentals: the renter's rentals, newest first. */
  function BuyerRentals(rs: seq<Rental>, renterId: int): (r: seq<Rental>)
    ensures forall x :: x in r <==> x in rs && x.renterId == renterId
    ensures SortedDesc(r, RentalCreatedAt)
    ensures forall x :: multiset(r)[x] == if x.renterId == renterId then multiset(rs)[x] else 0
  {
    var mine := (x: Rental) => x.renterId == renterId;
    FilterCounts(rs, mine);
    SortDesc(Filter(rs, mine), RentalCreatedAt)
  }

  /** getNotifications: the user's notifications, newest first. */
  function NotificationsFor(ns: seq<Notification>, userId: int): (r: seq<Notification>)
    ensures forall n :: n in r <==> n in ns && n.userId == userId
    ensures SortedDesc(r, NotificationCreatedAt)
    ensures forall n :: multiset(r)[n] == if n.userId == userId then multiset(ns)[n] else 0
  {
    var mine := (n: Notification) => n.userId == userId;
    FilterCounts(ns, mine);
    SortDesc(Filter(ns, mine), NotificationCreatedAt)
  }

  /** The owner's notice after a direct purchase (type "sale"). */
  function SaleText(itemName: string): string {
    "Your item \"" + itemName + "\" has been purchased."
  }

  /** The owner's notice after a direct rent (type "rental_request"). */
  function NewRentalRequestText(itemName: string): string {
    "New rental request for \"" + itemName + "\"."
  }

  /** A sold item drops out of the listing of available items. */
  lemma SoldItemIsNotListed(items: seq<Item>, id: int)
    requires KeysIncreasing(items, ItemId)
    ensures forall it :: it in AvailableItems(SetItemStatus(items, id, Sold)) ==> it.id != id
  {
    var items' := SetItemStatus(items, id, Sold);
    SetItemStatusEffect(items, id, Sold, id);
    SetItemStatusKeepsIncreasing(items, id, Sold);
    forall it | it in items' && it.id == id ensures it.status == Sold {
      var j :| 0 <= j < |items'| && items'[j] == it;
      IncreasingKeysAreUnique(items', ItemId, IndexOf(items', ItemId, id).value, j);
    }
  }
}
