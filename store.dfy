/**
 * The database behind the Express handlers that write: one object holding
 * every table the core touches with the autoincrement counter of each,
 * grouped as the controllers use them. Each writing handler is a method; its
 * HTTP status is the method's `code`, and its contract gives the tables
 * afterwards in terms of the pure modules.
 */
module Store {
  import opened Tables
  import opened Records
  import opened Pricing
  import opened Interaction
  import opened Cart
  import opened Buyer
  import opened Seller
  import opened Chat

  /** `type = "info"` in createNotification's parameter list. */
  function NotificationKind(kind: Option<string>): (k: string)
    ensures kind.None? ==> k == "info"
    ensures kind.Some? ==> k == kind.value
  {
    kind.GetOr("info")
  }

  /** The cart and wishlist tables, which cart.controller and buyer.controller keep per (user, item). */
  datatype Saved = Saved(cart: seq<CartItem>, nextCartItemId: int, wishlist: seq<WishlistRow>, nextWishlistId: int)

  /** Ids in order below their counters; one cart entry and one wishlist row per (user, item). */
  ghost predicate SavedValid(s: Saved) {
    && Numbered(s.cart, CartItemId, s.nextCartItemId) && UniqueKeys(s.cart, CartKey)
    && Numbered(s.wishlist, WishlistId, s.nextWishlistId) && UniqueKeys(s.wishlist, WishlistKey)
  }

  /** The conversation and message tables of chat.controller. */
  datatype Chats = Chats(conversations: seq<Conversation>, nextConversationId: int, messages: seq<Message>, nextMessageId: int)

  /** Ids in order below their counters; one conversation per (buyer, seller, item). */
  ghost predicate ChatsValid(c: Chats) {
    && Numbered(c.conversations, ConversationId, c.nextConversationId) && UniqueKeys(c.conversations, ConversationKey)
    && Numbered(c.messages, MessageId, c.nextMessageId)
  }

  /** The upsert would have to create a conversation whose item id names no item. */
  predicate DanglingItem(convs: seq<Conversation>, items: seq<Item>, buyerId: int, sellerId: int, itemId: Option<int>) {
    Find(convs, ConversationKey, (buyerId, sellerId, itemId)).None? && itemId.Some? && Find(items, ItemId, itemId.value).None?
  }

  class MarketStore {
    /** Items, transactions, rentals and notifications: the tables of the request workflow. */
    var desk: Desk
    var saved: Saved
    var chats: Chats

    /** Every table is in id order below its counter, and the compound unique keys hold. */
    ghost predicate Valid()
      reads this
    {
      DeskValid(desk) && SavedValid(saved) && ChatsValid(chats)
    }

    /** A database holding the given catalogue and nothing else. */
    constructor (catalogue: seq<Item>)
      requires KeysIncreasing(catalogue, ItemId)
      ensures Valid()
      ensures desk == Desk(catalogue, [], [], [], 1, 1, 1)
      ensures saved == Saved([], 1, [], 1)
      ensures chats == Chats([], 1, [], 1)
    {
      desk := Desk(catalogue, [], [], [], 1, 1, 1);
      saved := Saved([], 1, [], 1);
      chats := Chats([], 1, [], 1);
    }

    // -------------------------------------------------------------------
    // notification.services
    // -------------------------------------------------------------------

    /** createNotification: one row appended for the user, with the kind defaulting to "info". */
    method CreateNotification(userId: int, message: string, kind: Option<string>, now: int) returns (n: Notification)
      requires Numbered(desk.notifications, NotificationId, desk.nextNotificationId)
      modifies this`desk
      ensures Numbered(desk.notifications, NotificationId, desk.nextNotificationId)
      ensures n == Notification(old(desk.nextNotificationId), userId, message, NotificationKind(kind), now)
      ensures desk == old(desk).(notifications := old(desk.notifications) + [n], nextNotificationId := old(desk.nextNotificationId) + 1)
    {
      n := Notification(desk.nextNotificationId, userId, message, NotificationKind(kind), now);
      AppendKeepsNumbered(desk.notifications, n, NotificationId, desk.nextNotificationId);
      desk := desk.(notifications := desk.notifications + [n], nextNotificationId := desk.nextNotificationId + 1);
    }

    // -------------------------------------------------------------------
    // interaction.controller
    // -------------------------------------------------------------------

    /** createBuyRequest: the tables move as BuyRequest says; a 201 answers with the new transaction. */
    method CreateBuyRequest(buyerId: int, itemId: int, now: int) returns (code: int, request: Option<Transaction>)
      requires Valid()
      modifies this`desk
      ensures Valid()
      ensures Outcome(code, desk) == BuyRequest(old(desk), buyerId, itemId, now)
      ensures code == 201 ==> request == Some(desk.transactions[|desk.transactions| - 1])
      ensures code != 201 ==> request == None
    {
      assert DeskValid(BuyRequest(desk, buyerId, itemId, now).desk) by {
        BuyRequestKeepsValid(desk, buyerId, itemId, now);
      }
      var found := Find(desk.items, ItemId, itemId);
      if found.None? || found.value.status != Available {
        return 400, None;
      }
      var it := found.value;
      var t := Transaction(desk.nextTrxId, buyerId, it.ownerId, itemId, it.price, TrxPending, now);
      desk := desk.(transactions := desk.transactions + [t], nextTrxId := desk.nextTrxId + 1);
      var n := CreateNotification(it.ownerId, BuyRequestText(it.name, buyerId), Some("purchase_request"), now);
      code, request := 201, Some(t);
    }

    /** createRentRequest: the tables move as RentRequest says; a 201 answers with the new rental. */
    method CreateRentRequest(renterId: int, itemId: int, startDate: int, endDate: int, now: int) returns (code: int, request: Option<Rental>)
      requires Valid()
      modifies this`desk
      ensures Valid()
      ensures Outcome(code, desk) == RentRequest(old(desk), renterId, itemId, startDate, endDate, now)
      ensures code == 201 ==> request == Some(desk.rentals[|desk.rentals| - 1])
      ensures code != 201 ==> request == None
    {
      assert DeskValid(RentRequest(desk, renterId, itemId, startDate, endDate, now).desk) by {
        RentRequestKeepsValid(desk, renterId, itemId, startDate, endDate, now);
      }
      var found := Find(desk.items, ItemId, itemId);
      if !Rentable(found) {
        return 400, None;
      }
      if endDate <= startDate {
        return 400, None;
      }
      var it := found.value;
      var x := Rental(desk.nextRentalId, renterId, itemId, startDate, endDate, TotalRent(it, startDate, endDate), Deposit(it), RentalPending, now);
      desk := desk.(rentals := desk.rentals + [x], nextRentalId := desk.nextRentalId + 1);
      var n := CreateNotification(it.ownerId, RentRequestText(it.name, renterId), Some("rental_request"), now);
      code, request := 201, Some(x);
    }

    /**
     * respondToRequest: the tables move as Respond says. The type and action
     * are checked first, then the request is looked up and must be pending;
     * answering it is AnswerPurchase or AnswerRental.
     */
    method RespondToRequest(kind: string, action: string, id: int, now: int) returns (code: int)
      requires Valid()
      modifies this`desk
      ensures Valid()
      ensures Outcome(code, desk) == Respond(old(desk), kind, action, id, now)
    {
      if !ValidKind(kind) {
        return 400;
      }
      if !ValidAction(action) {
        return 400;
      }
      if kind == "transaction" {
        var found := Find(desk.transactions, TrxId, id);
        if found.None? {
          return 404;
        }
        if found.value.status != TrxPending {
          return 400;
        }
        code := AnswerPurchase(found.value, action, now);
      } else {
        var found := Find(desk.rentals, RentalId, id);
        if found.None? {
          return 404;
        }
        if found.value.status != RentalPending {
          return 400;
        }
        code := AnswerRental(found.value, action, now);
      }
    }

    /**
     * Accept or decline the pending purchase request `t`. The accept branch's
     * writes form one database transaction: when the item is gone every table
     * stays as it was and the answer is 500.
     */
    method AnswerPurchase(t: Transaction, action: string, now: int) returns (code: int)
      requires Valid()
      requires Find(desk.transactions, TrxId, t.id) == Some(t) && t.status == TrxPending && ValidAction(action)
      modifies this`desk
      ensures Valid()
      ensures Outcome(code, desk) == RespondToPurchase(old(desk), t, action, now)
    {
      assert DeskValid(RespondToPurchase(desk, t, action, now).desk) by {
        RespondKeepsValid(desk, "transaction", action, t.id, now);
      }
      if action == "accept" {
        var item := Find(desk.items, ItemId, t.itemId);
        if item.None? {
          return 500;
        }
        var name := item.value.name;
        var toBuyer := Notification(desk.nextNotificationId, t.buyerId, PurchaseAcceptedText(name), "purchase_accepted", now);
        var toSeller := Notification(desk.nextNotificationId + 1, t.sellerId, SaleConfirmedText(name), "sale_confirmed", now);
        desk := desk.(transactions := SetTrxStatus(desk.transactions, t.id, TrxCompleted),
                      items := SetItemStatus(desk.items, t.itemId, Sold),
                      notifications := desk.notifications + [toBuyer, toSeller],
                      nextNotificationId := desk.nextNotificationId + 2);
      } else {
        desk := desk.(transactions := SetTrxStatus(desk.transactions, t.id, TrxCancelled));
        var n := CreateNotification(t.buyerId, PurchaseDeclinedText(t.itemId), Some("purchase_declined"), now);
      }
      code := 200;
    }

    /** Accept or decline the pending rental request `x`, with the same rollback on accept. */
    method AnswerRental(x: Rental, action: string, now: int) returns (code: int)
      requires Valid()
      requires Find(desk.rentals, RentalId, x.id) == Some(x) && x.status == RentalPending && ValidAction(action)
      modifies this`desk
      ensures Valid()
      ensures Outcome(code, desk) == RespondToRental(old(desk), x, action, now)
    {
      assert DeskValid(RespondToRental(desk, x, action, now).desk) by {
        RespondKeepsValid(desk, "rental", action, x.id, now);
      }
      if action == "accept" {
        var item := Find(desk.items, ItemId, x.itemId);
        if item.None? {
          return 500;
        }
        var it := item.value;
        var toRenter := Notification(desk.nextNotificationId, x.renterId, RentalApprovedText(it.name), "rental_approved", now);
        var toOwner := Notification(desk.nextNotificationId + 1, it.ownerId, RentalConfirmedText(it.name), "rental_confirmed", now);
        desk := desk.(rentals := SetRentalStatus(desk.rentals, x.id, RentalActive),
                      items := SetItemStatus(desk.items, x.itemId, Rented),
                      notifications := desk.notifications + [toRenter, toOwner],
                      nextNotificationId := desk.nextNotificationId + 2);
      } else {
        desk := desk.(rentals := SetRentalStatus(desk.rentals, x.id, RentalCancelled));
        var n := CreateNotification(x.renterId, RentalDeclinedText(x.itemId), Some("rental_declined"), now);
      }
      code := 200;
    }

    // -------------------------------------------------------------------
    // cart.controller
    // -------------------------------------------------------------------

    /**
     * addToCart: 400 unless the item exists and is available; otherwise the
     * (user, item) entry's quantity grows (200) or a new entry is created (201).
     */
    method AddToCart(userId: int, itemId: int, quantity: Option<int>) returns (code: int, entry: Option<CartItem>)
      requires Valid()
      modifies this`saved
      ensures Valid()
      ensures !Purchasable(Find(desk.items, ItemId, itemId)) ==> code == 400 && entry == None && saved == old(saved)
      ensures Purchasable(Find(desk.items, ItemId, itemId)) ==>
        var existed := IndexOf(old(saved.cart), CartKey, (userId, itemId)).Some?;
        && code == (if existed then 200 else 201)
        && saved == old(saved).(cart := AddEntry(old(saved.cart), userId, itemId, QuantityOrDefault(quantity), old(saved.nextCartItemId)),
                                nextCartItemId := old(saved.nextCartItemId) + (if existed then 0 else 1))
        && entry == Find(saved.cart, CartKey, (userId, itemId)) && entry.Some?
    {
      if !Purchasable(Find(desk.items, ItemId, itemId)) {
        return 400, None;
      }
      var q := QuantityOrDefault(quantity);
      var cart := saved.cart;
      AddEntryKeepsPairsUnique(cart, userId, itemId, q, saved.nextCartItemId);
      AddEntryKeepsNumbered(cart, userId, itemId, q, saved.nextCartItemId);
      if IndexOf(cart, CartKey, (userId, itemId)).Some? {
        saved := saved.(cart := AddEntry(cart, userId, itemId, q, saved.nextCartItemId));
        code := 200;
      } else {
        saved := saved.(cart := AddEntry(cart, userId, itemId, q, saved.nextCartItemId), nextCartItemId := saved.nextCartItemId + 1);
        code := 201;
      }
      entry := Find(saved.cart, CartKey, (userId, itemId));
    }

    /** removeFromCart: deleting a missing id throws (500); otherwise the entry is gone. */
    method RemoveFromCart(id: int) returns (code: int)
      requires Valid()
      modifies this`saved
      ensures Valid()
      ensures IndexOf(old(saved.cart), CartItemId, id).None? ==> code == 500 && saved == old(saved)
      ensures IndexOf(old(saved.cart), CartItemId, id).Some? ==>
        code == 200 && saved == old(saved).(cart := WithoutKey(old(saved.cart), CartItemId, id))
    {
      if IndexOf(saved.cart, CartItemId, id).None? {
        return 500;
      }
      WithoutKeyKeeps(saved.cart, CartItemId, id, saved.nextCartItemId, CartKey);
      saved := saved.(cart := WithoutKey(saved.cart, CartItemId, id));
      code := 200;
    }

    /**
     * checkoutCart: an empty cart is 400. Otherwise the entries are bought in
     * cart order, each one a completed transaction at the item's price and the
     * item marked sold, until the first entry whose item was missing or not
     * available when the cart was read: there the handler answers 400 and
     * keeps what it has written so far (there is no database transaction)
     * and the cart. When every entry is bought, the user's cart is cleared
     * and the answer is 201 with the new transactions.
     */
    method CheckoutCart(userId: int, now: int) returns (code: int, created: seq<Transaction>)
      requires Valid()
      modifies this`desk, this`saved
      ensures Valid()
      ensures CartOf(old(saved.cart), userId) == [] ==> code == 400 && created == [] && unchanged(this)
      ensures CartOf(old(saved.cart), userId) != [] ==>
        var snap := Snapshot(CartOf(old(saved.cart), userId), old(desk.items));
        var n := FirstUnavailable(snap);
        && created == CheckoutTrxs(snap, n, userId, old(desk.nextTrxId), now)
        && desk == old(desk).(transactions := old(desk.transactions) + created,
                              nextTrxId := old(desk.nextTrxId) + n,
                              items := SoldUpTo(old(desk.items), snap, n))
        && (n < |snap| ==> code == 400 && saved == old(saved))
        && (n == |snap| ==> code == 201 && saved == old(saved).(cart := WithoutUserCart(old(saved.cart), userId)))
    {
      var entries := CartOf(saved.cart, userId);
      if entries == [] {
        return 400, [];
      }
      var snap := Snapshot(entries, desk.items);
      ghost var desk0 := desk;
      var k;
      k, created := BuyInOrder(snap, userId, now);
      assert DeskValid(desk) by {
        CheckoutTrxsKeepNumbered(desk0.transactions, snap, k, userId, desk0.nextTrxId, now);
        SoldUpToKeepsIncreasing(desk0.items, snap, k);
      }
      if k < |snap| {
        return 400, created;
      }
      ClearingKeepsCartValid(saved.cart, userId, saved.nextCartItemId);
      saved := saved.(cart := WithoutUserCart(saved.cart, userId));
      code := 201;
    }

    /**
     * checkoutCart's loop: one completed transaction per entry, in cart order,
     * each item marked sold, stopping at the first entry it may not buy.
     */
    method BuyInOrder(snap: seq<Option<Item>>, userId: int, now: int) returns (k: nat, created: seq<Transaction>)
      modifies this`desk
      ensures k == FirstUnavailable(snap)
      ensures created == CheckoutTrxs(snap, k, userId, old(desk.nextTrxId), now)
      ensures desk == old(desk).(transactions := old(desk.transactions) + created,
                                 nextTrxId := old(desk.nextTrxId) + k,
                                 items := SoldUpTo(old(desk.items), snap, k))
    {
      created := [];
      k := 0;
      while k < |snap| && Purchasable(snap[k])
        invariant 0 <= k <= |snap|
        invariant forall j :: 0 <= j < k ==> Purchasable(snap[j])
        invariant created == CheckoutTrxs(snap, k, userId, old(desk.nextTrxId), now)
        invariant desk == old(desk).(transactions := old(desk.transactions) + created,
                                     nextTrxId := old(desk.nextTrxId) + k,
                                     items := SoldUpTo(old(desk.items), snap, k))
        decreases |snap| - k
      {
        var it := snap[k].value;
        var t := Transaction(desk.nextTrxId, userId, it.ownerId, it.id, it.price, TrxCompleted, now);
        desk := desk.(transactions := desk.transactions + [t], nextTrxId := desk.nextTrxId + 1,
                      items := SetItemStatus(desk.items, it.id, Sold));
        created := created + [t];
        k := k + 1;
      }
      assert k == FirstUnavailable(snap);
    }

    // -------------------------------------------------------------------
    // buyer.controller
    // -------------------------------------------------------------------

    /**
     * addToWishlist: 400 when the (user, item) row exists, 500 when the item
     * does not (the row's item reference fails), otherwise a new row (201).
     */
    method AddToWishlist(userId: int, itemId: int) returns (code: int, row: Option<WishlistRow>)
      requires Valid()
      modifies this`saved
      ensures Valid()
      ensures Find(old(saved.wishlist), WishlistKey, (userId, itemId)).Some? ==>
        code == 400 && row == None && saved == old(saved)
      ensures Find(old(saved.wishlist), WishlistKey, (userId, itemId)).None? && Find(desk.items, ItemId, itemId).None? ==>
        code == 500 && row == None && saved == old(saved)
      ensures Find(old(saved.wishlist), WishlistKey, (userId, itemId)).None? && Find(desk.items, ItemId, itemId).Some? ==>
        && code == 201
        && row == Some(WishlistRow(old(saved.nextWishlistId), userId, itemId))
        && saved == old(saved).(wishlist := old(saved.wishlist) + [row.value], nextWishlistId := old(saved.nextWishlistId) + 1)
    {
      if Find(saved.wishlist, WishlistKey, (userId, itemId)).Some? {
        return 400, None;
      }
      if Find(desk.items, ItemId, itemId).None? {
        return 500, None;
      }
      var w := WishlistRow(saved.nextWishlistId, userId, itemId);
      assert Numbered(saved.wishlist + [w], WishlistId, saved.nextWishlistId + 1) && UniqueKeys(saved.wishlist + [w], WishlistKey) by {
        AppendKeepsNumbered(saved.wishlist, w, WishlistId, saved.nextWishlistId);
        AppendFreshKeepsUnique(saved.wishlist, w, WishlistKey);
      }
      saved := saved.(wishlist := saved.wishlist + [w], nextWishlistId := saved.nextWishlistId + 1);
      code, row := 201, Some(w);
    }

    /** removeFromWishlist: deleting a missing id throws (500); otherwise the row is gone. */
    method RemoveFromWishlist(id: int) returns (code: int)
      requires Valid()
      modifies this`saved
      ensures Valid()
      ensures IndexOf(old(saved.wishlist), WishlistId, id).None? ==> code == 500 && saved == old(saved)
      ensures IndexOf(old(saved.wishlist), WishlistId, id).Some? ==>
        code == 200 && saved == old(saved).(wishlist := WithoutKey(old(saved.wishlist), WishlistId, id))
    {
      if IndexOf(saved.wishlist, WishlistId, id).None? {
        return 500;
      }
      WithoutKeyKeeps(saved.wishlist, WishlistId, id, saved.nextWishlistId, WishlistKey);
      saved := saved.(wishlist := WithoutKey(saved.wishlist, WishlistId, id));
      code := 200;
    }

    /**
     * buyItem: the direct purchase. 400 unless the item exists and is available;
     * otherwise a completed transaction, the item sold and a "sale" notice to its owner.
     */
    method BuyItem(buyerId: int, itemId: int, now: int) returns (code: int, sale: Option<Transaction>)
      requires Valid()
      modifies this`desk
      ensures Valid()
      ensures !Purchasable(Find(old(desk.items), ItemId, itemId)) ==> code == 400 && sale == None && desk == old(desk)
      ensures Purchasable(Find(old(desk.items), ItemId, itemId)) ==>
        var it := Find(old(desk.items), ItemId, itemId).value;
        var t := Transaction(old(desk.nextTrxId), buyerId, it.ownerId, itemId, it.price, TrxCompleted, now);
        var n := Notification(old(desk.nextNotificationId), it.ownerId, SaleText(it.name), "sale", now);
        && code == 201
        && sale == Some(t)
        && desk == old(desk).(transactions := old(desk.transactions) + [t], nextTrxId := old(desk.nextTrxId) + 1,
                              items := SetItemStatus(old(desk.items), itemId, Sold),
                              notifications := old(desk.notifications) + [n], nextNotificationId := old(desk.nextNotificationId) + 1)
    {
      var found := Find(desk.items, ItemId, itemId);
      if !Purchasable(found) {
        return 400, None;
      }
      var it := found.value;
      var t := Transaction(desk.nextTrxId, buyerId, it.ownerId, itemId, it.price, TrxCompleted, now);
      var n := Notification(desk.nextNotificationId, it.ownerId, SaleText(it.name), "sale", now);
      assert KeysIncreasing(SetItemStatus(desk.items, itemId, Sold), ItemId)
        && Numbered(desk.transactions + [t], TrxId, desk.nextTrxId + 1)
        && Numbered(desk.notifications + [n], NotificationId, desk.nextNotificationId + 1) by {
        AppendKeepsNumbered(desk.transactions, t, TrxId, desk.nextTrxId);
        AppendKeepsNumbered(desk.notifications, n, NotificationId, desk.nextNotificationId);
        SetItemStatusKeepsIncreasing(desk.items, itemId, Sold);
      }
      desk := desk.(transactions := desk.transactions + [t], nextTrxId := desk.nextTrxId + 1);
      desk := desk.(items := SetItemStatus(desk.items, itemId, Sold));
      desk := desk.(notifications := desk.notifications + [n], nextNotificationId := desk.nextNotificationId + 1);
      code, sale := 201, Some(t);
    }

    /**
     * rentItem: the direct rent. 400 unless the item exists, is for rent and is
     * available; otherwise a pending rental priced per started day and a notice
     * to the owner. Unlike createRentRequest there is no check on the dates.
     */
    method RentItem(renterId: int, itemId: int, startDate: int, endDate: int, now: int) returns (code: int, rental: Option<Rental>)
      requires Valid()
      modifies this`desk
      ensures Valid()
      ensures !Rentable(Find(desk.items, ItemId, itemId)) ==> code == 400 && rental == None && desk == old(desk)
      ensures Rentable(Find(desk.items, ItemId, itemId)) ==>
        var it := Find(desk.items, ItemId, itemId).value;
        var x := Rental(old(desk.nextRentalId), renterId, itemId, startDate, endDate,
                        TotalRent(it, startDate, endDate), Deposit(it), RentalPending, now);
        var n := Notification(old(desk.nextNotificationId), it.ownerId, NewRentalRequestText(it.name), "rental_request", now);
        && code == 201
        && rental == Some(x)
        && desk == old(desk).(rentals := old(desk.rentals) + [x], nextRentalId := old(desk.nextRentalId) + 1,
                              notifications := old(desk.notifications) + [n], nextNotificationId := old(desk.nextNotificationId) + 1)
    {
      var found := Find(desk.items, ItemId, itemId);
      if !Rentable(found) {
        return 400, None;
      }
      var it := found.value;
      var x := Rental(desk.nextRentalId, renterId, itemId, startDate, endDate, TotalRent(it, startDate, endDate), Deposit(it), RentalPending, now);
      var n := Notification(desk.nextNotificationId, it.ownerId, NewRentalRequestText(it.name), "rental_request", now);
      assert Numbered(desk.rentals + [x], RentalId, desk.nextRentalId + 1)
        && Numbered(desk.notifications + [n], NotificationId, desk.nextNotificationId + 1) by {
        AppendKeepsNumbered(desk.rentals, x, RentalId, desk.nextRentalId);
        AppendKeepsNumbered(desk.notifications, n, NotificationId, desk.nextNotificationId);
      }
      desk := desk.(rentals := desk.rentals + [x], nextRentalId := desk.nextRentalId + 1);
      desk := desk.(notifications := desk.notifications + [n], nextNotificationId := desk.nextNotificationId + 1);
      code, rental := 201, Some(x);
    }

    // -------------------------------------------------------------------
    // seller.controller
    // -------------------------------------------------------------------

    /** updateItem: updating a missing id throws (500); otherwise the patch is written over the item. */
    method UpdateItem(id: int, patch: ItemPatch) returns (code: int)
      requires Valid()
      modifies this`desk
      ensures Valid()
      ensures Find(old(desk.items), ItemId, id).None? ==> code == 500 && desk == old(desk)
      ensures Find(old(desk.items), ItemId, id).Some? ==>
        code == 200 && desk == old(desk).(items := PatchItem(old(desk.items), id, patch))
    {
      if Find(desk.items, ItemId, id).None? {
        return 500;
      }
      PatchItemEffect(desk.items, id, patch, id);
      desk := desk.(items := PatchItem(desk.items, id, patch));
      code := 200;
    }

    /** deleteItem: deleting a missing id throws (500); otherwise the item is gone. */
    method DeleteItem(id: int) returns (code: int)
      requires Valid()
      modifies this`desk
      ensures Valid()
      ensures IndexOf(old(desk.items), ItemId, id).None? ==> code == 500 && desk == old(desk)
      ensures IndexOf(old(desk.items), ItemId, id).Some? ==>
        code == 200 && desk == old(desk).(items := WithoutKey(old(desk.items), ItemId, id))
    {
      if IndexOf(desk.items, ItemId, id).None? {
        return 500;
      }
      WithoutKeyKeeps(desk.items, ItemId, id, 0, ItemId);
      desk := desk.(items := WithoutKey(desk.items, ItemId, id));
      code := 200;
    }

    /**
     * approveRental: the rental becomes active whatever its status, then its
     * item becomes rented. The two writes are separate: when the item is
     * missing the rental stays active and the answer is 500.
     */
    method ApproveRental(rentalId: int) returns (code: int)
      requires Valid()
      modifies this`desk
      ensures Valid()
      ensures Find(old(desk.rentals), RentalId, rentalId).None? ==> code == 500 && desk == old(desk)
      ensures Find(old(desk.rentals), RentalId, rentalId).Some? ==>
        var x := Find(old(desk.rentals), RentalId, rentalId).value;
        var rented := old(desk).(rentals := SetRentalStatus(old(desk.rentals), rentalId, RentalActive));
        && (Find(old(desk.items), ItemId, x.itemId).Some? ==> code == 200 && desk == rented.(items := SetItemStatus(old(desk.items), x.itemId, Rented)))
        && (Find(old(desk.items), ItemId, x.itemId).None? ==> code == 500 && desk == rented)
    {
      code := MoveRental(rentalId, RentalActive, Rented);
    }

    /**
     * endRental: the rental becomes returned whatever its status, then its item
     * becomes available again, with the same two separate writes.
     */
    method EndRental(rentalId: int) returns (code: int)
      requires Valid()
      modifies this`desk
      ensures Valid()
      ensures Find(old(desk.rentals), RentalId, rentalId).None? ==> code == 500 && desk == old(desk)
      ensures Find(old(desk.rentals), RentalId, rentalId).Some? ==>
        var x := Find(old(desk.rentals), RentalId, rentalId).value;
        var returned := old(desk).(rentals := SetRentalStatus(old(desk.rentals), rentalId, RentalReturned));
        && (Find(old(desk.items), ItemId, x.itemId).Some? ==> code == 200 && desk == returned.(items := SetItemStatus(old(desk.items), x.itemId, Available)))
        && (Find(old(desk.items), ItemId, x.itemId).None? ==> code == 500 && desk == returned)
    {
      code := MoveRental(rentalId, RentalReturned, Available);
    }

    /** The two writes approveRental and endRental share: the rental's status, then its item's. */
    method MoveRental(rentalId: int, st: RentalStatus, itemSt: ItemStatus) returns (code: int)
      requires Valid()
      modifies this`desk
      ensures Valid()
      ensures Find(old(desk.rentals), RentalId, rentalId).None? ==> code == 500 && desk == old(desk)
      ensures Find(old(desk.rentals), RentalId, rentalId).Some? ==>
        var x := Find(old(desk.rentals), RentalId, rentalId).value;
        var moved := old(desk).(rentals := SetRentalStatus(old(desk.rentals), rentalId, st));
        && (Find(old(desk.items), ItemId, x.itemId).Some? ==> code == 200 && desk == moved.(items := SetItemStatus(old(desk.items), x.itemId, itemSt)))
        && (Find(old(desk.items), ItemId, x.itemId).None? ==> code == 500 && desk == moved)
    {
      var found := Find(desk.rentals, RentalId, rentalId);
      if found.None? {
        return 500;
      }
      var i := IndexOf(desk.rentals, RentalId, rentalId).value;
      SetKeepsNumbered(desk.rentals, i, desk.rentals[i].(status := st), RentalId, desk.nextRentalId);
      desk := desk.(rentals := SetRentalStatus(desk.rentals, rentalId, st));
      var itemId := found.value.itemId;
      if Find(desk.items, ItemId, itemId).None? {
        return 500;
      }
      SetItemStatusKeepsIncreasing(desk.items, itemId, itemSt);
      desk := desk.(items := SetItemStatus(desk.items, itemId, itemSt));
      code := 200;
    }

    // -------------------------------------------------------------------
    // chat.controller
    // -------------------------------------------------------------------

    /**
     * createConversation: 400 unless both user ids are given; otherwise the
     * conversation of the triple, created when there is none (200 either way).
     * Creating one for an item id that names no item fails the item's foreign
     * key: 500, and nothing is written.
     */
    method CreateConversation(buyerId: Option<int>, sellerId: Option<int>, itemId: Option<int>, now: int) returns (code: int, conversation: Option<Conversation>)
      requires Valid()
      modifies this`chats
      ensures Valid()
      ensures !Given(buyerId) || !Given(sellerId) ==>
        code == 400 && conversation == None && chats == old(chats)
      ensures Given(buyerId) && Given(sellerId) && DanglingItem(old(chats.conversations), desk.items, buyerId.value, sellerId.value, itemId) ==>
        code == 500 && conversation == None && chats == old(chats)
      ensures Given(buyerId) && Given(sellerId) && !DanglingItem(old(chats.conversations), desk.items, buyerId.value, sellerId.value, itemId) ==>
        var u := UpsertConversation(old(chats.conversations), buyerId.value, sellerId.value, itemId, old(chats.nextConversationId), now);
        && code == 200
        && conversation == Some(u.conversation)
        && chats == old(chats).(conversations := u.table,
                                nextConversationId := old(chats.nextConversationId) + |u.table| - |old(chats.conversations)|)
    {
      if !Given(buyerId) || !Given(sellerId) {
        return 400, None;
      }
      var convs := chats.conversations;
      if DanglingItem(convs, desk.items, buyerId.value, sellerId.value, itemId) {
        return 500, None;
      }
      var u := UpsertConversation(convs, buyerId.value, sellerId.value, itemId, chats.nextConversationId, now);
      UpsertKeepsTriplesUnique(convs, buyerId.value, sellerId.value, itemId, chats.nextConversationId, now);
      if |u.table| > |convs| {
        AppendKeepsNumbered(convs, u.conversation, ConversationId, chats.nextConversationId);
        chats := chats.(conversations := u.table, nextConversationId := chats.nextConversationId + 1);
      } else {
        chats := chats.(conversations := u.table);
      }
      code, conversation := 200, Some(u.conversation);
    }

    /**
     * postMessage: 400 unless the conversation, the sender and a non-empty
     * content are given; 500 when the conversation does not exist (the
     * message's conversation reference fails); otherwise an unread message is
     * appended and the conversation's `updatedAt` moves to now (201).
     */
    method PostMessage(conversationId: Option<int>, senderId: Option<int>, content: Option<string>, now: int) returns (code: int, message: Option<Message>)
      requires Valid()
      modifies this`chats
      ensures Valid()
      ensures !Given(conversationId) || !Given(senderId) || !GivenText(content) ==>
        code == 400 && message == None && chats == old(chats)
      ensures Given(conversationId) && Given(senderId) && GivenText(content) && Find(old(chats.conversations), ConversationId, conversationId.value).None? ==>
        code == 500 && message == None && chats == old(chats)
      ensures Given(conversationId) && Given(senderId) && GivenText(content) && Find(old(chats.conversations), ConversationId, conversationId.value).Some? ==>
        var m := Message(old(chats.nextMessageId), conversationId.value, senderId.value, content.value, false, now);
        && code == 201
        && message == Some(m)
        && chats == old(chats).(messages := old(chats.messages) + [m], nextMessageId := old(chats.nextMessageId) + 1,
                                conversations := TouchConversation(old(chats.conversations), conversationId.value, now))
    {
      if !Given(conversationId) || !Given(senderId) || !GivenText(content) {
        return 400, None;
      }
      var cid := conversationId.value;
      if Find(chats.conversations, ConversationId, cid).None? {
        return 500, None;
      }
      var m := Message(chats.nextMessageId, cid, senderId.value, content.value, false, now);
      assert Numbered(chats.messages + [m], MessageId, chats.nextMessageId + 1) by {
        AppendKeepsNumbered(chats.messages, m, MessageId, chats.nextMessageId);
      }
      chats := chats.(messages := chats.messages + [m], nextMessageId := chats.nextMessageId + 1);
      assert Numbered(TouchConversation(chats.conversations, cid, now), ConversationId, chats.nextConversationId)
        && UniqueKeys(TouchConversation(chats.conversations, cid, now), ConversationKey) by {
        TouchEffect(chats.conversations, cid, now, chats.nextConversationId);
      }
      chats := chats.(conversations := TouchConversation(chats.conversations, cid, now));
      code, message := 201, Some(m);
    }

    /** markRead: the other party's unread messages in the conversation become read (200). */
    method MarkRead(conversationId: int, userId: int) returns (code: int)
      requires Valid()
      modifies this`chats
      ensures Valid()
      ensures code == 200 && chats == old(chats).(messages := Chat.MarkRead(old(chats.messages), conversationId, userId))
    {
      MarkReadKeepsNumbered(chats.messages, conversationId, userId, chats.nextMessageId);
      chats := chats.(messages := Chat.MarkRead(chats.messages, conversationId, userId));
      code := 200;
    }
  }
}
