/**
 * seller.controller: the seller's listings and statistics, the partial update
 * `updateItem` applies, and the facts about approveRental / endRental that the
 * store's methods rely on. Those writing handlers are methods of Store.MarketStore.
 */
module Seller {
  import opened Tables
  import opened Records

  /** getSellerItems: the seller's items, newest first. */
  function SellerItems(items: seq<Item>, sellerId: int): (r: seq<Item>)
    ensures forall it :: it in r <==> it in items && it.ownerId == sellerId
    ensures SortedDesc(r, ItemCreatedAt)
    ensures forall it :: multiset(r)[it] == if it.ownerId == sellerId then multiset(items)[it] else 0
  {
    FilterCounts(items, OwnedBy(sellerId));
    SortDesc(Filter(items, OwnedBy(sellerId)), ItemCreatedAt)
  }

  /** getSellerTransactions: the transactions where the user is the seller, newest first. */
  function SellerTransactions(ts: seq<Transaction>, sellerId: int): (r: seq<Transaction>)
    ensures forall t :: t in r <==> t in ts && t.sellerId == sellerId
    ensures SortedDesc(r, TrxCreatedAt)
    ensures forall t :: multiset(r)[t] == if t.sellerId == sellerId then multiset(ts)[t] else 0
  {
    FilterCounts(ts, SoldBy(sellerId));
    SortDesc(Filter(ts, SoldBy(sellerId)), TrxCreatedAt)
  }

  /** getSellerRentals: the rentals of the seller's items, latest start first. */
  function SellerRentals(items: seq<Item>, rs: seq<Rental>, sellerId: int): (r: seq<Rental>)
    ensures forall x :: x in r <==> x in rs && OwnsItem(items, x.itemId, sellerId)
    ensures SortedDesc(r, RentalStartDate)
    ensures forall x :: multiset(r)[x] == if OwnsItem(items, x.itemId, sellerId) then multiset(rs)[x] else 0
  {
    FilterCounts(rs, RentedFrom(items, sellerId));
    SortDesc(Filter(rs, RentedFrom(items, sellerId)), RentalStartDate)
  }

  // ---------------------------------------------------------------------
  // getSellerStats
  // ---------------------------------------------------------------------

  /** The `where` filters of the four statistics. */
  function OwnedBy(sellerId: int): Item -> bool {
    (it: Item) => it.ownerId == sellerId
  }

  function SoldBy(sellerId: int): Transaction -> bool {
    (t: Transaction) => t.sellerId == sellerId
  }

  function RentedFrom(items: seq<Item>, sellerId: int): Rental -> bool {
    (x: Rental) => OwnsItem(items, x.itemId, sellerId)
  }

  datatype Stats = Stats(totalItems: nat, totalSales: nat, totalRentals: nat, totalRevenue: real)

  /** `_sum: { amount: true }`: the sum of the amounts, 0 for no rows. */
  function SumAmounts(ts: seq<Transaction>): real {
    if ts == [] then 0.0 else ts[0].amount + SumAmounts(ts[1..])
  }

  /** Sums add up over a concatenation. */
  lemma {:induction false} SumAmountsConcat(a: seq<Transaction>, b: seq<Transaction>)
    ensures SumAmounts(a + b) == SumAmounts(a) + SumAmounts(b)
  {
    if a != [] {
      assert (a + b)[0] == a[0] && (a + b)[1..] == a[1..] + b;
      SumAmountsConcat(a[1..], b);
    } else {
      assert a + b == b;
    }
  }

  /** With no negative amount, no sum is negative. */
  lemma {:induction false} SumAmountsNonNegative(ts: seq<Transaction>)
    requires forall t :: t in ts ==> t.amount >= 0.0
    ensures SumAmounts(ts) >= 0.0
  {
    if ts != [] {
      assert ts[0] in ts;
      assert forall t :: t in ts[1..] ==> t in ts;
      SumAmountsNonNegative(ts[1..]);
    }
  }

  /**
   * getSellerStats. Every transaction with the seller counts as a sale,
   * whatever its status (a pending or cancelled request included), and a
   * null sum becomes 0.
   */
  function SellerStats(items: seq<Item>, ts: seq<Transaction>, rs: seq<Rental>, sellerId: int): (r: Stats)
    ensures r.totalItems <= |items| && r.totalSales <= |ts| && r.totalRentals <= |rs|
    ensures r.totalSales == 0 ==> r.totalRevenue == 0.0
  {
    var sales := Filter(ts, SoldBy(sellerId));
    Stats(|Filter(items, OwnedBy(sellerId))|, |sales|, |Filter(rs, RentedFrom(items, sellerId))|, SumAmounts(sales))
  }

  /** The counts are counts of distinct rows: the seller's items, sales and rentals. */
  lemma ItemCountIsOwnedRows(items: seq<Item>, ts: seq<Transaction>, rs: seq<Rental>, sellerId: int)
    requires KeysIncreasing(items, ItemId)
    ensures SellerStats(items, ts, rs, sellerId).totalItems == |set it | it in items && it.ownerId == sellerId|
  {
    FilterCountsDistinctRows(items, OwnedBy(sellerId), ItemId);
    assert Selected(items, OwnedBy(sellerId)) == set it | it in items && it.ownerId == sellerId;
  }

  lemma SaleCountIsSellerRows(items: seq<Item>, ts: seq<Transaction>, rs: seq<Rental>, sellerId: int)
    requires KeysIncreasing(ts, TrxId)
    ensures SellerStats(items, ts, rs, sellerId).totalSales == |set t | t in ts && t.sellerId == sellerId|
  {
    FilterCountsDistinctRows(ts, SoldBy(sellerId), TrxId);
    assert Selected(ts, SoldBy(sellerId)) == set t | t in ts && t.sellerId == sellerId;
  }

  lemma RentalCountIsOwnedItemRows(items: seq<Item>, ts: seq<Transaction>, rs: seq<Rental>, sellerId: int)
    requires KeysIncreasing(rs, RentalId)
    ensures SellerStats(items, ts, rs, sellerId).totalRentals == |set x | x in rs && OwnsItem(items, x.itemId, sellerId)|
  {
    FilterCountsDistinctRows(rs, RentedFrom(items, sellerId), RentalId);
    assert Selected(rs, RentedFrom(items, sellerId)) == set x | x in rs && OwnsItem(items, x.itemId, sellerId);
  }

  /** A new transaction adds one sale and its amount to its seller's statistics, and nothing to anyone else's. */
  lemma SaleAddsToRevenue(items: seq<Item>, ts: seq<Transaction>, rs: seq<Rental>, t: Transaction, sellerId: int)
    ensures var before := SellerStats(items, ts, rs, sellerId);
      var after := SellerStats(items, ts + [t], rs, sellerId);
      && after.totalItems == before.totalItems
      && after.totalRentals == before.totalRentals
      && (t.sellerId == sellerId ==> after.totalSales == before.totalSales + 1 && after.totalRevenue == before.totalRevenue + t.amount)
      && (t.sellerId != sellerId ==> after.totalSales == before.totalSales && after.totalRevenue == before.totalRevenue)
  {
    FilterConcat(ts, [t], SoldBy(sellerId));
    var tail := Filter([t], SoldBy(sellerId));
    assert Filter([t][1..], SoldBy(sellerId)) == [] by { assert [t][1..] == []; }
    SumAmountsConcat(Filter(ts, SoldBy(sellerId)), tail);
    if t.sellerId == sellerId {
      assert tail == [t];
      assert SumAmounts([t]) == t.amount + SumAmounts([t][1..]);
    } else {
      assert tail == [];
    }
  }

  // ---------------------------------------------------------------------
  // updateItem
  // ---------------------------------------------------------------------

  /**
   * The editable fields of `req.body`, each absent or present; `rentPrice` may
   * be set to null. Bodies naming `id`, `createdAt` or `images`, or keys the
   * item has not, are not represented.
   */
  datatype ItemPatch = ItemPatch(
    name: Option<string>,
    description: Option<string>,
    category: Option<string>,
    price: Option<real>,
    rentPrice: Option<Option<real>>,
    isForRent: Option<bool>,
    condition: Option<string>,
    status: Option<ItemStatus>,
    ownerId: Option<int>)

  /** The item with the patch's present fields written over it. */
  function ApplyPatch(it: Item, p: ItemPatch): (r: Item)
    ensures r.id == it.id && r.createdAt == it.createdAt && r.categorySlug == it.categorySlug
    ensures p.name.None? ==> r.name == it.name
    ensures p.description.None? ==> r.description == it.description
    ensures p.category.None? ==> r.category == it.category
    ensures p.price.None? ==> r.price == it.price
    ensures p.rentPrice.None? ==> r.rentPrice == it.rentPrice
    ensures p.isForRent.None? ==> r.isForRent == it.isForRent
    ensures p.condition.None? ==> r.condition == it.condition
    ensures p.status.None? ==> r.status == it.status
    ensures p.ownerId.None? ==> r.ownerId == it.ownerId
  {
    it.(name := p.name.GetOr(it.name),
        description := p.description.GetOr(it.description),
        category := p.category.GetOr(it.category),
        price := p.price.GetOr(it.price),
        rentPrice := p.rentPrice.GetOr(it.rentPrice),
        isForRent := p.isForRent.GetOr(it.isForRent),
        condition := p.condition.GetOr(it.condition),
        status := p.status.GetOr(it.status),
        ownerId := p.ownerId.GetOr(it.ownerId))
  }

  /** The patch with no field present. */
  const EmptyPatch := ItemPatch(None, None, None, None, None, None, None, None, None)

  /** An empty body changes nothing, and sending the same body twice is the same as sending it once. */
  lemma PatchLaws(it: Item, p: ItemPatch)
    ensures ApplyPatch(it, EmptyPatch) == it
    ensures ApplyPatch(ApplyPatch(it, p), p) == ApplyPatch(it, p)
  {
  }

  /** Every field the patch names takes the patch's value. */
  lemma PatchWritesPresentFields(it: Item, p: ItemPatch)
    ensures p.name.Some? ==> ApplyPatch(it, p).name == p.name.value
    ensures p.description.Some? ==> ApplyPatch(it, p).description == p.description.value
    ensures p.category.Some? ==> ApplyPatch(it, p).category == p.category.value
    ensures p.price.Some? ==> ApplyPatch(it, p).price == p.price.value
    ensures p.rentPrice.Some? ==> ApplyPatch(it, p).rentPrice == p.rentPrice.value
    ensures p.isForRent.Some? ==> ApplyPatch(it, p).isForRent == p.isForRent.value
    ensures p.condition.Some? ==> ApplyPatch(it, p).condition == p.condition.value
    ensures p.status.Some? ==> ApplyPatch(it, p).status == p.status.value
    ensures p.ownerId.Some? ==> ApplyPatch(it, p).ownerId == p.ownerId.value
  {
  }

  /** The items table after `prisma.item.update({ where: { id }, data: patch })` on a present id. */
  function PatchItem(items: seq<Item>, id: int, p: ItemPatch): seq<Item> {
    match IndexOf(items, ItemId, id)
    case None => items
    case Some(i) => items[i := ApplyPatch(items[i], p)]
  }

  /** The patch reaches only the item with that id. */
  lemma PatchItemEffect(items: seq<Item>, id: int, p: ItemPatch, k: int)
    ensures |PatchItem(items, id, p)| == |items|
    ensures Find(items, ItemId, id).Some? ==>
      Find(PatchItem(items, id, p), ItemId, id) == Some(ApplyPatch(Find(items, ItemId, id).value, p))
    ensures k != id ==> Find(PatchItem(items, id, p), ItemId, k) == Find(items, ItemId, k)
    ensures KeysIncreasing(items, ItemId) ==> KeysIncreasing(PatchItem(items, id, p), ItemId)
  {
    match IndexOf(items, ItemId, id)
    case None =>
    case Some(i) =>
      IndexOfAfterSet(items, i, ApplyPatch(items[i], p), ItemId, k);
      IndexOfAfterSet(items, i, ApplyPatch(items[i], p), ItemId, id);
      if KeysIncreasing(items, ItemId) {
        SetKeepsIncreasing(items, i, ApplyPatch(items[i], p), ItemId);
      }
  }

  // ---------------------------------------------------------------------
  // approveRental / endRental
  // ---------------------------------------------------------------------

  /**
   * After endRental the item is available again whatever approveRental did to
   * it: the second status update overrides the first.
   */
  lemma EndUndoesApprove(items: seq<Item>, id: int)
    ensures SetItemStatus(SetItemStatus(items, id, Rented), id, Available) == SetItemStatus(items, id, Available)
    ensures Find(items, ItemId, id).Some? ==>
      Find(SetItemStatus(SetItemStatus(items, id, Rented), id, Available), ItemId, id) == Some(Find(items, ItemId, id).value.(status := Available))
  {
    SetItemStatusEffect(items, id, Rented, id);
    SetItemStatusEffect(items, id, Available, id);
  }

  /** The same for the rental row: approve then end leaves it returned. */
  lemma EndAfterApproveReturns(rs: seq<Rental>, id: int)
    ensures SetRentalStatus(SetRentalStatus(rs, id, RentalActive), id, RentalReturned) == SetRentalStatus(rs, id, RentalReturned)
  {
    SetRentalStatusEffect(rs, id, RentalActive, id);
  }
}
