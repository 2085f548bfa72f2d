/**
 * The buy/rent request workflow of interaction.controller: the texts of the
 * notifications it sends, the two read-only listings, and the facts about the
 * request state machine (pending --accept--> completed/active,
 * pending --decline--> cancelled) that the store's RespondToRequest relies on.
 * The writing handlers themselves are methods of Store.MarketStore.
 */
module Interaction {
  import opened Tables
  import opened Records
  import opened Pricing

  /** The `{ transactions, rentals }` body of the two listings. */
  datatype Requests = Requests(transactions: seq<Transaction>, rentals: seq<Rental>)

  // ---------------------------------------------------------------------
  // Notification texts
  // ---------------------------------------------------------------------

  function BuyRequestText(itemName: string, buyerId: int): string {
    "Purchase request received for \"" + itemName + "\" from user " + IntToString(buyerId)
  }

  function RentRequestText(itemName: string, renterId: int): string {
    "Rental request received for \"" + itemName + "\" from user " + IntToString(renterId)
  }

  function PurchaseAcceptedText(itemName: string): string {
    "Your purchase for \"" + itemName + "\" was accepted."
  }

  function SaleConfirmedText(itemName: string): string {
    "You confirmed sale of \"" + itemName + "\"."
  }

  function PurchaseDeclinedText(itemId: int): string {
    "Your purchase request for item " + IntToString(itemId) + " was declined."
  }

  function RentalApprovedText(itemName: string): string {
    "Your rental for \"" + itemName + "\" was approved."
  }

  function RentalConfirmedText(itemName: string): string {
    "You approved rental for \"" + itemName + "\"."
  }

  function RentalDeclinedText(itemId: int): string {
    "Your rental request for item " + IntToString(itemId) + " was declined."
  }

  // ---------------------------------------------------------------------
  // Listings
  // ---------------------------------------------------------------------

  /**
   * getPendingRequestsForSeller: the seller's pending purchase requests, and
   * the pending rentals of items the seller owns, each newest first.
   */
  function PendingRequestsForSeller(items: seq<Item>, ts: seq<Transaction>, rs: seq<Rental>, sellerId: int): (r: Requests)
    ensures forall t :: t in r.transactions <==> t in ts && t.sellerId == sellerId && t.status == TrxPending
    ensures forall x :: x in r.rentals <==> x in rs && OwnsItem(items, x.itemId, sellerId) && x.status == RentalPending
    ensures SortedDesc(r.transactions, TrxCreatedAt) && SortedDesc(r.rentals, RentalCreatedAt)
    ensures forall t :: multiset(r.transactions)[t] == if t.sellerId == sellerId && t.status == TrxPending then multiset(ts)[t] else 0
    ensures forall x :: multiset(r.rentals)[x] == if OwnsItem(items, x.itemId, sellerId) && x.status == RentalPending then multiset(rs)[x] else 0
  {
    var sold := (t: Transaction) => t.sellerId == sellerId && t.status == TrxPending;
    var owned := (x: Rental) => OwnsItem(items, x.itemId, sellerId) && x.status == RentalPending;
    FilterCounts(ts, sold);
    FilterCounts(rs, owned);
    Requests(SortDesc(Filter(ts, sold), TrxCreatedAt), SortDesc(Filter(rs, owned), RentalCreatedAt))
  }

  /** getRequestsForUser: every purchase the user asked for and every rental the user asked for, in any status, newest first. */
  function RequestsForUser(ts: seq<Transaction>, rs: seq<Rental>, userId: int): (r: Requests)
    ensures forall t :: t in r.transactions <==> t in ts && t.buyerId == userId
    ensures forall x :: x in r.rentals <==> x in rs && x.renterId == userId
    ensures SortedDesc(r.transactions, TrxCreatedAt) && SortedDesc(r.rentals, RentalCreatedAt)
    ensures forall t :: multiset(r.transactions)[t] == if t.buyerId == userId then multiset(ts)[t] else 0
    ensures forall x :: multiset(r.rentals)[x] == if x.renterId == userId then multiset(rs)[x] else 0
  {
    var bought := (t: Transaction) => t.buyerId == userId;
    var rented := (x: Rental) => x.renterId == userId;
    FilterCounts(ts, bought);
    FilterCounts(rs, rented);
    Requests(SortDesc(Filter(ts, bought), TrxCreatedAt), SortDesc(Filter(rs, rented), RentalCreatedAt))
  }


  // ---------------------------------------------------------------------
  // The request desk: the tables the three writing handlers touch
  // ---------------------------------------------------------------------

  /** The tables and autoincrement counters that createBuyRequest, createRentRequest and respondToRequest read and write. */
  datatype Desk = Desk(
    items: seq<Item>,
    transactions: seq<Transaction>,
    rentals: seq<Rental>,
    notifications: seq<Notification>,
    nextTrxId: int,
    nextRentalId: int,
    nextNotificationId: int)

  /** A handler's HTTP status and the tables after it. */
  datatype Outcome = Outcome(code: int, desk: Desk)

  /** Rows carry distinct ids, handed out by the counters. */
  ghost predicate DeskValid(d: Desk) {
    KeysIncreasing(d.items, ItemId)
    && Numbered(d.transactions, TrxId, d.nextTrxId)
    && Numbered(d.rentals, RentalId, d.nextRentalId)
    && Numbered(d.notifications, NotificationId, d.nextNotificationId)
  }

  /** The row createNotification would insert next. */
  function NextNotification(d: Desk, userId: int, message: string, kind: string, now: int): Notification {
    Notification(d.nextNotificationId, userId, message, kind, now)
  }

  /** createBuyRequest: a pending purchase request for an available item, and a notice to its owner. */
  function BuyRequest(d: Desk, buyerId: int, itemId: int, now: int): (r: Outcome)
    ensures r.code == 400 <==> Find(d.items, ItemId, itemId).None? || Find(d.items, ItemId, itemId).value.status != Available
    ensures r.code == 400 || r.code == 201
    ensures r.code == 400 ==> r.desk == d
    ensures r.code == 201 ==>
      var it := Find(d.items, ItemId, itemId).value;
      && r.desk.items == d.items
      && r.desk.rentals == d.rentals
      && r.desk.transactions == d.transactions + [Transaction(d.nextTrxId, buyerId, it.ownerId, itemId, it.price, TrxPending, now)]
      && r.desk.notifications == d.notifications + [Notification(d.nextNotificationId, it.ownerId, BuyRequestText(it.name, buyerId), "purchase_request", now)]
  {
    match Find(d.items, ItemId, itemId)
    case None => Outcome(400, d)
    case Some(it) =>
      if it.status != Available then Outcome(400, d)
      else
        var t := Transaction(d.nextTrxId, buyerId, it.ownerId, itemId, it.price, TrxPending, now);
        var n := NextNotification(d, it.ownerId, BuyRequestText(it.name, buyerId), "purchase_request", now);
        Outcome(201, d.(transactions := d.transactions + [t], nextTrxId := d.nextTrxId + 1,
                        notifications := d.notifications + [n], nextNotificationId := d.nextNotificationId + 1))
  }

  /** An item a rent request may be made for. */
  predicate Rentable(o: Option<Item>) {
    o.Some? && o.value.isForRent && o.value.status == Available
  }

  /**
   * createRentRequest: a pending rental of an available rentable item over a
   * forward date range, priced per started day, and a notice to the owner.
   */
  function RentRequest(d: Desk, renterId: int, itemId: int, startDate: int, endDate: int, now: int): (r: Outcome)
    ensures r.code == 400 <==> !Rentable(Find(d.items, ItemId, itemId)) || endDate <= startDate
    ensures r.code == 400 || r.code == 201
    ensures r.code == 400 ==> r.desk == d
    ensures r.code == 201 ==>
      var it := Find(d.items, ItemId, itemId).value;
      && r.desk.items == d.items
      && r.desk.transactions == d.transactions
      && |r.desk.rentals| == |d.rentals| + 1
      && r.desk.rentals[..|d.rentals|] == d.rentals
      && var x := r.desk.rentals[|d.rentals|];
      && x == Rental(d.nextRentalId, renterId, itemId, startDate, endDate, x.totalRent, Deposit(it), RentalPending, now)
      && x.totalRent == DailyRate(it) * RentalDays(startDate, endDate) as real
      && RentalDays(startDate, endDate) >= 1
      && r.desk.notifications == d.notifications + [Notification(d.nextNotificationId, it.ownerId, RentRequestText(it.name, renterId), "rental_request", now)]
  {
    var found := Find(d.items, ItemId, itemId);
    if !Rentable(found) then Outcome(400, d)
    else if endDate <= startDate then Outcome(400, d)
    else
      var it := found.value;
      ForwardRentalDays(startDate, endDate);
      var x := Rental(d.nextRentalId, renterId, itemId, startDate, endDate, TotalRent(it, startDate, endDate), Deposit(it), RentalPending, now);
      var n := NextNotification(d, it.ownerId, RentRequestText(it.name, renterId), "rental_request", now);
      assert (d.rentals + [x])[..|d.rentals|] == d.rentals;
      Outcome(201, d.(rentals := d.rentals + [x], nextRentalId := d.nextRentalId + 1,
                      notifications := d.notifications + [n], nextNotificationId := d.nextNotificationId + 1))
  }

  // ---------------------------------------------------------------------
  // respondToRequest: the state machine
  // ---------------------------------------------------------------------

  predicate ValidKind(kind: string) { kind == "transaction" || kind == "rental" }
  predicate ValidAction(action: string) { action == "accept" || action == "decline" }

  /** The statuses a response moves a purchase request to. */
  predicate TrxResolved(st: TrxStatus) { st == TrxCompleted || st == TrxCancelled }

  predicate RentalResolved(st: RentalStatus) { st == RentalActive || st == RentalCancelled }

  /** Accept or decline a pending purchase request `t` (found under its id). */
  function RespondToPurchase(d: Desk, t: Transaction, action: string, now: int): Outcome {
    if action == "accept" then
      match Find(d.items, ItemId, t.itemId)
      // the item update inside the database transaction throws and the whole block rolls back
      case None => Outcome(500, d)
      case Some(it) =>
        var toBuyer := NextNotification(d, t.buyerId, PurchaseAcceptedText(it.name), "purchase_accepted", now);
        var toSeller := Notification(d.nextNotificationId + 1, t.sellerId, SaleConfirmedText(it.name), "sale_confirmed", now);
        Outcome(200, d.(transactions := SetTrxStatus(d.transactions, t.id, TrxCompleted),
                        items := SetItemStatus(d.items, t.itemId, Sold),
                        notifications := d.notifications + [toBuyer, toSeller],
                        nextNotificationId := d.nextNotificationId + 2))
    else
      var toBuyer := NextNotification(d, t.buyerId, PurchaseDeclinedText(t.itemId), "purchase_declined", now);
      Outcome(200, d.(transactions := SetTrxStatus(d.transactions, t.id, TrxCancelled),
                      notifications := d.notifications + [toBuyer],
                      nextNotificationId := d.nextNotificationId + 1))
  }

  /** Accept or decline a pending rental request `x` (found under its id). */
  function RespondToRental(d: Desk, x: Rental, action: string, now: int): Outcome {
    if action == "accept" then
      match Find(d.items, ItemId, x.itemId)
      case None => Outcome(500, d)
      case Some(it) =>
        var toRenter := NextNotification(d, x.renterId, RentalApprovedText(it.name), "rental_approved", now);
        var toOwner := Notification(d.nextNotificationId + 1, it.ownerId, RentalConfirmedText(it.name), "rental_confirmed", now);
        Outcome(200, d.(rentals := SetRentalStatus(d.rentals, x.id, RentalActive),
                        items := SetItemStatus(d.items, x.itemId, Rented),
                        notifications := d.notifications + [toRenter, toOwner],
                        nextNotificationId := d.nextNotificationId + 2))
    else
      var toRenter := NextNotification(d, x.renterId, RentalDeclinedText(x.itemId), "rental_declined", now);
      Outcome(200, d.(rentals := SetRentalStatus(d.rentals, x.id, RentalCancelled),
                      notifications := d.notifications + [toRenter],
                      nextNotificationId := d.nextNotificationId + 1))
  }

  /**
   * respondToRequest: the type and action are checked before any lookup, a
   * missing request is 404, a request that is no longer pending is 400, and
   * only then is it accepted or declined.
   */
  function Respond(d: Desk, kind: string, action: string, id: int, now: int): (r: Outcome)
    ensures !ValidKind(kind) || !ValidAction(action) ==> r.code == 400
    ensures r.code in {200, 400, 404, 500}
    ensures r.code != 200 ==> r.desk == d
    ensures ValidKind(kind) && ValidAction(action) ==>
      (r.code == 404 <==> if kind == "transaction" then Find(d.transactions, TrxId, id).None? else Find(d.rentals, RentalId, id).None?)
    ensures ValidKind(kind) && ValidAction(action) && kind == "transaction" ==>
      (r.code == 400 <==> Find(d.transactions, TrxId, id).Some? && Find(d.transactions, TrxId, id).value.status != TrxPending)
    ensures ValidKind(kind) && ValidAction(action) && kind != "transaction" ==>
      (r.code == 400 <==> Find(d.rentals, RentalId, id).Some? && Find(d.rentals, RentalId, id).value.status != RentalPending)
    ensures r.code == 200 ==>
      |r.desk.notifications| == |d.notifications| + (if action == "accept" then 2 else 1)
      && r.desk.notifications[..|d.notifications|] == d.notifications
  {
    if !ValidKind(kind) then Outcome(400, d)
    else if !ValidAction(action) then Outcome(400, d)
    else if kind == "transaction" then
      match Find(d.transactions, TrxId, id)
      case None => Outcome(404, d)
      case Some(t) => if t.status != TrxPending then Outcome(400, d) else RespondToPurchase(d, t, action, now)
    else
      match Find(d.rentals, RentalId, id)
      case None => Outcome(404, d)
      case Some(x) => if x.status != RentalPending then Outcome(400, d) else RespondToRental(d, x, action, now)
  }

  /** The row a response is about, when there is one. */
  function PurchaseUnder(d: Desk, id: int): Transaction
    requires Find(d.transactions, TrxId, id).Some?
  {
    Find(d.transactions, TrxId, id).value
  }

  function RentalUnder(d: Desk, id: int): Rental
    requires Find(d.rentals, RentalId, id).Some?
  {
    Find(d.rentals, RentalId, id).value
  }

  /** A response succeeds exactly on a pending request whose item exists (for accept) or on any pending request (for decline). */
  lemma RespondSucceedsOnPending(d: Desk, kind: string, action: string, id: int, now: int)
    requires ValidKind(kind) && ValidAction(action)
    ensures kind == "transaction" ==>
      (Respond(d, kind, action, id, now).code == 200 <==>
        Find(d.transactions, TrxId, id).Some? && PurchaseUnder(d, id).status == TrxPending
        && (action == "accept" ==> Find(d.items, ItemId, PurchaseUnder(d, id).itemId).Some?))
    ensures kind == "rental" ==>
      (Respond(d, kind, action, id, now).code == 200 <==>
        Find(d.rentals, RentalId, id).Some? && RentalUnder(d, id).status == RentalPending
        && (action == "accept" ==> Find(d.items, ItemId, RentalUnder(d, id).itemId).Some?))
  {
  }

  /** Accepting a purchase completes it and sells its item; rentals are untouched. */
  lemma AcceptPurchaseEffect(d: Desk, id: int, now: int, k: int)
    requires Respond(d, "transaction", "accept", id, now).code == 200
    ensures var t := PurchaseUnder(d, id);
      var r := Respond(d, "transaction", "accept", id, now).desk;
      && Find(r.transactions, TrxId, id) == Some(t.(status := TrxCompleted))
      && Find(r.items, ItemId, t.itemId) == Some(Find(d.items, ItemId, t.itemId).value.(status := Sold))
      && (k != id ==> Find(r.transactions, TrxId, k) == Find(d.transactions, TrxId, k))
      && (k != t.itemId ==> Find(r.items, ItemId, k) == Find(d.items, ItemId, k))
      && r.rentals == d.rentals
      && r.notifications[|d.notifications|].userId == t.buyerId
      && r.notifications[|d.notifications| + 1].userId == t.sellerId
  {
    var t := PurchaseUnder(d, id);
    SetTrxStatusEffect(d.transactions, id, TrxCompleted, k);
    SetTrxStatusEffect(d.transactions, id, TrxCompleted, id);
    SetItemStatusEffect(d.items, t.itemId, Sold, k);
    SetItemStatusEffect(d.items, t.itemId, Sold, t.itemId);
  }

  /** Accepting a rental activates it and marks its item rented; the owner is notified. */
  lemma AcceptRentalEffect(d: Desk, id: int, now: int, k: int)
    requires Respond(d, "rental", "accept", id, now).code == 200
    ensures var x := RentalUnder(d, id);
      var r := Respond(d, "rental", "accept", id, now).desk;
      && Find(r.rentals, RentalId, id) == Some(x.(status := RentalActive))
      && Find(r.items, ItemId, x.itemId) == Some(Find(d.items, ItemId, x.itemId).value.(status := Rented))
      && (k != id ==> Find(r.rentals, RentalId, k) == Find(d.rentals, RentalId, k))
      && (k != x.itemId ==> Find(r.items, ItemId, k) == Find(d.items, ItemId, k))
      && r.transactions == d.transactions
      && r.notifications[|d.notifications|].userId == x.renterId
      && r.notifications[|d.notifications| + 1].userId == Find(d.items, ItemId, x.itemId).value.ownerId
  {
    var x := RentalUnder(d, id);
    SetRentalStatusEffect(d.rentals, id, RentalActive, k);
    SetRentalStatusEffect(d.rentals, id, RentalActive, id);
    SetItemStatusEffect(d.items, x.itemId, Rented, k);
    SetItemStatusEffect(d.items, x.itemId, Rented, x.itemId);
  }

  /** Declining cancels only the request: no item changes, and the requester alone is told. */
  lemma DeclineEffect(d: Desk, kind: string, id: int, now: int, k: int)
    requires Respond(d, kind, "decline", id, now).code == 200
    ensures var r := Respond(d, kind, "decline", id, now).desk;
      && r.items == d.items
      && (kind == "transaction" ==>
            Find(r.transactions, TrxId, id) == Some(PurchaseUnder(d, id).(status := TrxCancelled))
            && (k != id ==> Find(r.transactions, TrxId, k) == Find(d.transactions, TrxId, k))
            && r.rentals == d.rentals
            && r.notifications == d.notifications + [NextNotification(d, PurchaseUnder(d, id).buyerId, PurchaseDeclinedText(PurchaseUnder(d, id).itemId), "purchase_declined", now)])
      && (kind == "rental" ==>
            Find(r.rentals, RentalId, id) == Some(RentalUnder(d, id).(status := RentalCancelled))
            && (k != id ==> Find(r.rentals, RentalId, k) == Find(d.rentals, RentalId, k))
            && r.transactions == d.transactions
            && r.notifications == d.notifications + [NextNotification(d, RentalUnder(d, id).renterId, RentalDeclinedText(RentalUnder(d, id).itemId), "rental_declined", now)])
  {
    if kind == "transaction" {
      SetTrxStatusEffect(d.transactions, id, TrxCancelled, id);
      SetTrxStatusEffect(d.transactions, id, TrxCancelled, k);
    } else {
      SetRentalStatusEffect(d.rentals, id, RentalCancelled, id);
      SetRentalStatusEffect(d.rentals, id, RentalCancelled, k);
    }
  }

  /** A request answered once is no longer pending: any second answer is turned away with 400 and changes nothing. */
  lemma {:induction false} SecondResponseIsRejected(d: Desk, kind: string, action: string, id: int, now: int, action2: string, now2: int)
    requires Respond(d, kind, action, id, now).code == 200
    requires ValidAction(action2)
    ensures var d2 := Respond(d, kind, action, id, now).desk;
      Respond(d2, kind, action2, id, now2) == Outcome(400, d2)
  {
    if kind == "transaction" {
      var st := if action == "accept" then TrxCompleted else TrxCancelled;
      SetTrxStatusEffect(d.transactions, id, st, id);
    } else {
      var st := if action == "accept" then RentalActive else RentalCancelled;
      SetRentalStatusEffect(d.rentals, id, st, id);
    }
  }

  /** Answering a purchase request removes it from the seller's pending listing. */
  lemma AnsweredPurchaseLeavesPendingList(d: Desk, action: string, id: int, now: int, sellerId: int)
    requires DeskValid(d) && Respond(d, "transaction", action, id, now).code == 200
    ensures var r := Respond(d, "transaction", action, id, now).desk;
      forall t :: t in PendingRequestsForSeller(r.items, r.transactions, r.rentals, sellerId).transactions ==> t.id != id
  {
    var st := if action == "accept" then TrxCompleted else TrxCancelled;
    var ts' := SetTrxStatus(d.transactions, id, st);
    SetTrxStatusEffect(d.transactions, id, st, id);
    var i := IndexOf(d.transactions, TrxId, id).value;
    SetKeepsIncreasing(d.transactions, i, d.transactions[i].(status := st), TrxId);
    forall t | t in ts' && t.id == id ensures t.status != TrxPending {
      var j :| 0 <= j < |ts'| && ts'[j] == t;
      IncreasingKeysAreUnique(ts', TrxId, IndexOf(ts', TrxId, id).value, j);
    }
  }

  // ---------------------------------------------------------------------
  // Invariants and the request life cycle
  // ---------------------------------------------------------------------

  lemma AppendNotificationKeepsNumbered(ns: seq<Notification>, next: int, extra: seq<Notification>)
    requires Numbered(ns, NotificationId, next)
    requires forall j :: 0 <= j < |extra| ==> extra[j].id == next + j
    ensures Numbered(ns + extra, NotificationId, next + |extra|)
  {
  }

  lemma BuyRequestKeepsValid(d: Desk, buyerId: int, itemId: int, now: int)
    requires DeskValid(d)
    ensures DeskValid(BuyRequest(d, buyerId, itemId, now).desk)
  {
    var r := BuyRequest(d, buyerId, itemId, now);
    if r.code == 201 {
      AppendNotificationKeepsNumbered(d.notifications, d.nextNotificationId, [r.desk.notifications[|d.notifications|]]);
      assert r.desk.notifications == d.notifications + [r.desk.notifications[|d.notifications|]];
    }
  }

  lemma RentRequestKeepsValid(d: Desk, renterId: int, itemId: int, startDate: int, endDate: int, now: int)
    requires DeskValid(d)
    ensures DeskValid(RentRequest(d, renterId, itemId, startDate, endDate, now).desk)
  {
    var r := RentRequest(d, renterId, itemId, startDate, endDate, now);
    if r.code == 201 {
      assert r.desk.rentals == d.rentals + [r.desk.rentals[|d.rentals|]];
      AppendKeepsNumbered(d.rentals, r.desk.rentals[|d.rentals|], RentalId, d.nextRentalId);
      AppendNotificationKeepsNumbered(d.notifications, d.nextNotificationId, [r.desk.notifications[|d.notifications|]]);
      assert r.desk.notifications == d.notifications + [r.desk.notifications[|d.notifications|]];
    }
  }

  lemma RespondKeepsValid(d: Desk, kind: string, action: string, id: int, now: int)
    requires DeskValid(d)
    ensures DeskValid(Respond(d, kind, action, id, now).desk)
  {
    var r := Respond(d, kind, action, id, now);
    if r.code == 200 {
      var extra := r.desk.notifications[|d.notifications|..];
      assert r.desk.notifications == d.notifications + extra;
      AppendNotificationKeepsNumbered(d.notifications, d.nextNotificationId, extra);
      if kind == "transaction" {
        var t := PurchaseUnder(d, id);
        var st := if action == "accept" then TrxCompleted else TrxCancelled;
        var i := IndexOf(d.transactions, TrxId, id).value;
        SetKeepsNumbered(d.transactions, i, d.transactions[i].(status := st), TrxId, d.nextTrxId);
        SetItemStatusKeepsIncreasing(d.items, t.itemId, Sold);
      } else {
        var x := RentalUnder(d, id);
        var st := if action == "accept" then RentalActive else RentalCancelled;
        var i := IndexOf(d.rentals, RentalId, id).value;
        SetKeepsNumbered(d.rentals, i, d.rentals[i].(status := st), RentalId, d.nextRentalId);
        SetItemStatusKeepsIncreasing(d.items, x.itemId, Rented);
      }
    }
  }

  /**
   * The life of a purchase request: one created for an available item is
   * pending under the next transaction id, and the seller's accept of it
   * succeeds and sells the item.
   */
  lemma {:induction false} BuyRequestThenAccept(d: Desk, buyerId: int, itemId: int, now: int, now2: int)
    requires DeskValid(d) && BuyRequest(d, buyerId, itemId, now).code == 201
    ensures var d1 := BuyRequest(d, buyerId, itemId, now).desk;
      && Find(d1.transactions, TrxId, d.nextTrxId).Some?
      && Find(d1.transactions, TrxId, d.nextTrxId).value.status == TrxPending
      && Respond(d1, "transaction", "accept", d.nextTrxId, now2).code == 200
      && Find(Respond(d1, "transaction", "accept", d.nextTrxId, now2).desk.items, ItemId, itemId).Some?
      && Find(Respond(d1, "transaction", "accept", d.nextTrxId, now2).desk.items, ItemId, itemId).value.status == Sold
  {
    var d1 := BuyRequest(d, buyerId, itemId, now).desk;
    var t := d1.transactions[|d.transactions|];
    assert d1.transactions == d.transactions + [t];
    FindAppended(d.transactions, t, TrxId);
    AcceptPurchaseEffect(d1, d.nextTrxId, now2, itemId);
  }

  /** The same for a rental request: it is pending, and its approval marks the item rented. */
  lemma {:induction false} RentRequestThenAccept(d: Desk, renterId: int, itemId: int, startDate: int, endDate: int, now: int, now2: int)
    requires DeskValid(d) && RentRequest(d, renterId, itemId, startDate, endDate, now).code == 201
    ensures var d1 := RentRequest(d, renterId, itemId, startDate, endDate, now).desk;
      && Find(d1.rentals, RentalId, d.nextRentalId).Some?
      && Find(d1.rentals, RentalId, d.nextRentalId).value.status == RentalPending
      && Respond(d1, "rental", "accept", d.nextRentalId, now2).code == 200
      && Find(Respond(d1, "rental", "accept", d.nextRentalId, now2).desk.items, ItemId, itemId).Some?
      && Find(Respond(d1, "rental", "accept", d.nextRentalId, now2).desk.items, ItemId, itemId).value.status == Rented
  {
    var d1 := RentRequest(d, renterId, itemId, startDate, endDate, now).desk;
    var x := d1.rentals[|d.rentals|];
    assert d1.rentals == d.rentals + [x];
    FindAppended(d.rentals, x, RentalId);
    AcceptRentalEffect(d1, d.nextRentalId, now2, itemId);
  }
}
