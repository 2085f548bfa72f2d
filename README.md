# Campus Closet backend, modelled in Dafny

Campus Closet is a student marketplace. Students list items for sale or rent. Buyers:
- send purchase and rent requests, which the seller accepts or declines;
- buy directly, or through a cart;
- keep a wishlist and chat with sellers.

Sellers list their items, transactions and rentals, see statistics, and approve and end rentals.
This project models the Express controllers that implement these features, over the Prisma tables
they read and write.

## Layout

- `tables.dfy` (`Tables`): generic table operations.
  - Filtering (`findMany` with a `where`) and lookup by key (`findUnique`/`findFirst`).
  - Deletion by id, and ordering newest first (`orderBy … desc`).
  - The facts that every table holds rows with increasing ids below its autoincrement counter, and that a compound unique key stays unique.
- `records.dfy` (`Records`): the rows (Item, Transaction, Rental, Notification, CartItem, Wishlist row, Conversation, Message), their keys, single-row status updates, and the decimal rendering used in notification texts.
- `pricing.dfy` (`Pricing`): the rent price (daily rate times started days, with `Math.ceil`) and the deposit (a fifth of the price).
- `interaction.dfy` (`Interaction`): the request workflow of `interaction.controller.js`.
  - It works over a `Desk` value holding the items, transactions, rentals and notifications with their counters.
  - `BuyRequest`, `RentRequest` and `Respond` give each handler's status code and the tables afterwards.
  - The listings are pure functions.
- `cart.dfy`, `buyer.dfy`, `seller.dfy`, `chat.dfy`: the read-only handlers of those controllers as functions, and the table operations the writing handlers use, with the facts those operations keep.
- `products.dfy` (`Products`) and `categories.dfy` (`Categories`): the catalogue handlers as functions over a list of products, including the controller's seven demonstration products and the slug map.
- `store.dfy` (`Store`): the database as one object, `MarketStore`.
  - Its field `desk` holds the request tables, `saved` the cart and wishlist tables, and `chats` the conversation and message tables.
  - Each handler that writes is a method with a `modifies` clause naming the fields it may change. Its HTTP status is its `code` out-parameter.
  - Every handler method preserves `Valid()` (ids increasing below their counters, one cart entry and one wishlist row per (user, item), one conversation per (buyer, seller, item)). Its `ensures` give the complete new value of each field it changes. Two helpers are the exceptions. `CreateNotification` keeps only the numbering of the notifications. `BuyInOrder` states the new request tables exactly, and `CheckoutCart` proves `Valid()` from that.
  - The three request methods are proved equal to `Interaction.BuyRequest`, `RentRequest` and `Respond`, so the lemmas about those functions apply to the object.

Status codes are those the handlers send: 200, 201, 400 and 404. A Prisma call that throws (an update or delete of a missing row, or a foreign key that fails) is the 500 of the handler's `catch`. Dates are integers (milliseconds since the epoch). The current time, and the time the product module was loaded, are parameters. Prices are `real`.

## Model

| member | source | states |
|---|---|---|
| Interaction.BuyRequest | backend/src/controllers/interaction.controller.js:4-35 | a missing or unavailable item gives 400 and no write; otherwise 201 with one pending transaction at the item's price to its owner, one "purchase_request" notice to the owner, and the item untouched |
| Interaction.RentRequest | backend/src/controllers/interaction.controller.js:37-80 | 400 with no write for a missing, non-rentable or unavailable item or for an end not after the start; otherwise one pending rental costing the daily rate times the started days (at least one), with a deposit of a fifth of the price, and one "rental_request" notice |
| Interaction.Respond | backend/src/controllers/interaction.controller.js:82-202 | a bad type or action is 400 before any lookup; a missing request is 404; with a valid type and action, the answer is 400 exactly when the request exists and is no longer pending, whoever moved it on; every non-200 answer leaves the tables as they were |
| Interaction.AcceptPurchaseEffect | backend/src/controllers/interaction.controller.js:100-131 | accepting completes the transaction, sells its item and adds exactly two notices (buyer and seller); rentals and other items are unchanged |
| Interaction.AcceptRentalEffect | backend/src/controllers/interaction.controller.js:151-182 | accepting activates the rental, marks its item rented and adds exactly two notices (renter and owner) |
| Interaction.DeclineEffect | backend/src/controllers/interaction.controller.js:132-144 | declining cancels the request, leaves every other request of its table, the other table and every item as they were, and adds one notice, to the requester |
| Interaction.RespondSucceedsOnPending | backend/src/controllers/interaction.controller.js:95-196 | with a valid type and action, a response answers 200 exactly when the request exists and is pending, and, for accept, its item exists |
| Interaction.SecondResponseIsRejected | backend/src/controllers/interaction.controller.js:97-98 | after one successful answer, any second answer to the same request (accept or decline) is 400 and changes nothing |
| Interaction.PendingRequestsForSeller | backend/src/controllers/interaction.controller.js:204-225 | exactly the seller's pending transactions, and exactly the pending rentals of items the seller owns, each row as often as in its table, each list newest first |
| Interaction.AnsweredPurchaseLeavesPendingList | backend/src/controllers/interaction.controller.js:204-225 | an answered purchase request no longer appears in the seller's pending listing |
| Interaction.RequestsForUser | backend/src/controllers/interaction.controller.js:227-248 | exactly the user's purchases as buyer and rentals as renter, in any status, each row as often as in its table, newest first |
| Interaction.BuyRequestThenAccept | backend/src/controllers/interaction.controller.js:13-131 | a created purchase request is pending under the next transaction id, and the seller's accept of it succeeds and sells the item |
| Interaction.RentRequestThenAccept | backend/src/controllers/interaction.controller.js:50-182 | a created rental request is pending, and its approval marks the item rented |
| Interaction.RespondKeepsValid | backend/src/controllers/interaction.controller.js:82-202 | a response keeps ids increasing below their counters in every table it writes |
| Store.NotificationKind | backend/src/services/notification.services.js:3 | an absent type is "info", a given one is kept |
| Store.MarketStore.CreateNotification | backend/src/services/notification.services.js:3-11 | appends exactly one notification with the given user, message and type under the next id, returns it, and changes nothing else |
| Store.MarketStore.CreateBuyRequest | backend/src/controllers/interaction.controller.js:4-35 | the request tables afterwards and the code are those of BuyRequest; a 201 returns the new transaction |
| Store.MarketStore.CreateRentRequest | backend/src/controllers/interaction.controller.js:37-80 | the request tables and code are those of RentRequest; a 201 returns the new rental |
| Store.MarketStore.RespondToRequest | backend/src/controllers/interaction.controller.js:82-202 | the request tables and code are those of Respond |
| Store.MarketStore.AnswerPurchase | backend/src/controllers/interaction.controller.js:100-144 | accept or decline of a pending purchase, equal to that branch of Respond, with the accept's writes rolled back together when the item is gone |
| Store.MarketStore.AnswerRental | backend/src/controllers/interaction.controller.js:151-195 | the same for a pending rental |
| Cart.CartOf | backend/src/controllers/cart.controller.js:51-63 | exactly the user's entries, in table order |
| Cart.AddEntryKeepsPairsUnique | backend/src/controllers/cart.controller.js:15-30 | adding never creates a second entry for a (user, item) pair; the pair's entry holds the old quantity plus the added one, or the added one alone, and every other entry is unchanged |
| Cart.QuantityOrDefault | backend/src/controllers/cart.controller.js:6 | an absent quantity counts as one |
| Store.MarketStore.AddToCart | backend/src/controllers/cart.controller.js:4-36 | 400 and no write for a missing or unavailable item; otherwise 200 when the pair's entry existed (quantity added) or 201 for a new entry under the next id; returns the pair's entry |
| Store.MarketStore.RemoveFromCart | backend/src/controllers/cart.controller.js:39-48 | exactly the entry with that id is deleted (200); a missing id throws (500) and nothing changes |
| Cart.FirstUnavailable | backend/src/controllers/cart.controller.js:80-84 | the loop stops at the first entry whose item was missing or not available when the cart was read |
| Cart.CheckoutTrxs | backend/src/controllers/cart.controller.js:86-99 | one completed transaction per bought entry, in cart order, at the item's price whatever the quantity, with consecutive ids |
| Cart.SoldUpToEffect | backend/src/controllers/cart.controller.js:95-98 | every bought entry's item is sold and otherwise unchanged; every other item is as it was |
| Store.MarketStore.BuyInOrder | backend/src/controllers/cart.controller.js:80-100 | the loop's transactions are CheckoutTrxs and its items are SoldUpTo, up to the first entry it may not buy |
| Store.MarketStore.CheckoutCart | backend/src/controllers/cart.controller.js:66-110 | an empty cart is 400 with no write; otherwise the transactions and sold items written before the stopping entry stay; a stop is 400 with the cart kept, and a full run is 201 with the user's cart cleared and the created transactions returned |
| Cart.ClearingKeepsCartValid | backend/src/controllers/cart.controller.js:103 | clearing a user's cart keeps the numbering and the uniqueness of (user, item) pairs |
| Buyer.AvailableItems | backend/src/controllers/buyer.controller.js:3-14 | exactly the available items, each as often as in the table, newest first |
| Buyer.SoldItemIsNotListed | backend/src/controllers/buyer.controller.js:3-14 | an item once sold no longer appears among the available items |
| Store.MarketStore.AddToWishlist | backend/src/controllers/buyer.controller.js:16-32 | an existing (user, item) row gives 400 and no write, so pairs are never duplicated; a missing item gives 500; otherwise one new row under the next id (201) |
| Store.MarketStore.RemoveFromWishlist | backend/src/controllers/buyer.controller.js:34-42 | exactly the row with that id is deleted (200); a missing id is 500 and nothing changes |
| Store.MarketStore.BuyItem | backend/src/controllers/buyer.controller.js:44-75 | 400 and no write for a missing or unavailable item; otherwise a completed transaction at the item's price, the item sold and one "sale" notice to its owner |
| Store.MarketStore.RentItem | backend/src/controllers/buyer.controller.js:77-108 | 400 and no write unless the item exists, is for rent and is available; otherwise a pending rental priced by days times rate with no date check, and one notice; the item's status is unchanged |
| Pricing.BackwardRentalDays | backend/src/controllers/buyer.controller.js:84-85 | a rental that does not end after it starts is billed zero or fewer days, which rentItem lets through |
| Pricing.BackwardRentalCharge | backend/src/controllers/buyer.controller.js:84-85 | with a positive daily rate, a rental ending at least a day before it starts is charged a negative rent |
| Pricing.ThreeDayRental | backend/src/controllers/interaction.controller.js:50-53 | three calendar days at 100 a day cost 300 |
| Pricing.PartialDayIsWholeDay | backend/src/controllers/interaction.controller.js:50-52 | one millisecond of rental is billed as a whole day |
| Pricing.ForwardRentalDays | backend/src/controllers/interaction.controller.js:50-53 | a rental that ends after it starts is billed at least one day and at most one day more than its length |
| Pricing.DepositIsAFifth | backend/src/controllers/interaction.controller.js:54-55 | the deposit is a fifth of the price |
| Buyer.BuyerOrders | backend/src/controllers/buyer.controller.js:110-122 | exactly the buyer's transactions, each as often as in the table, newest first |
| Buyer.BuyerRentals | backend/src/controllers/buyer.controller.js:124-136 | exactly the renter's rentals, each as often as in the table, newest first |
| Buyer.NotificationsFor | backend/src/controllers/buyer.controller.js:150-161 | exactly the user's notifications, each as often as in the table, newest first |
| Seller.SellerItems | backend/src/controllers/seller.controller.js:25-37 | exactly the seller's items, each as often as in the table, newest first |
| Seller.PatchWritesPresentFields | backend/src/controllers/seller.controller.js:39-50 | each of the nine editable fields present in the request body takes the body's value |
| Seller.ApplyPatch | backend/src/controllers/seller.controller.js:42-45 | the id, creation time and category link are kept, and each of the nine editable fields absent from the body keeps its old value |
| Seller.PatchLaws | backend/src/controllers/seller.controller.js:39-50 | an empty body changes nothing, and applying the same body twice is the same as once |
| Seller.PatchItemEffect | backend/src/controllers/seller.controller.js:42-45 | the update reaches only the item with that id and keeps the ids in order |
| Store.MarketStore.UpdateItem | backend/src/controllers/seller.controller.js:39-50 | the patch is written over the item with that id (200); a missing id is 500 and nothing changes |
| Store.MarketStore.DeleteItem | backend/src/controllers/seller.controller.js:52-60 | exactly the item with that id is removed (200); a missing id is 500 and nothing changes |
| Seller.SellerStats | backend/src/controllers/seller.controller.js:62-83 | each count is at most the table's size, and no sales means a revenue of 0 |
| Seller.ItemCountIsOwnedRows | backend/src/controllers/seller.controller.js:66 | totalItems is the number of items the seller owns |
| Seller.SaleCountIsSellerRows | backend/src/controllers/seller.controller.js:67 | totalSales is the number of transactions with that seller, whatever their status |
| Seller.RentalCountIsOwnedItemRows | backend/src/controllers/seller.controller.js:68 | totalRentals is the number of rentals of the seller's items |
| Seller.SaleAddsToRevenue | backend/src/controllers/seller.controller.js:69-78 | a new transaction adds one sale and its amount to its seller's statistics, and nothing to anyone else's |
| Seller.SellerTransactions | backend/src/controllers/seller.controller.js:85-97 | exactly the seller's transactions, each as often as in the table, newest first |
| Seller.SellerRentals | backend/src/controllers/seller.controller.js:99-111 | exactly the rentals of the seller's items, each as often as in the table, latest start first |
| Store.MarketStore.ApproveRental | backend/src/controllers/seller.controller.js:113-129 | the rental becomes active whatever its status, then its item rented (200); a missing item is 500 with the rental already active; a missing rental is 500 with no write |
| Store.MarketStore.EndRental | backend/src/controllers/seller.controller.js:131-147 | the rental becomes returned, then its item available, with the same partial writes |
| Seller.EndUndoesApprove | backend/src/controllers/seller.controller.js:113-147 | approve followed by end leaves the item available, as end alone would |
| Seller.EndAfterApproveReturns | backend/src/controllers/seller.controller.js:113-147 | approve followed by end leaves the rental returned |
| Chat.UpsertConversation | backend/src/controllers/chat.controller.js:9-16 | the conversation with the (buyer, seller, item) key when there is one, with no write; otherwise one new conversation under the next id |
| Chat.UpsertIsIdempotent | backend/src/controllers/chat.controller.js:9-16 | a second upsert of the same triple returns the same conversation and writes nothing |
| Chat.UpsertKeepsTriplesUnique | backend/src/controllers/chat.controller.js:9-16 | the upsert never creates a second conversation with the same triple |
| Store.MarketStore.CreateConversation | backend/src/controllers/chat.controller.js:3-22 | 400 and no write without both user ids; 500 and no write when a new conversation would name an item that does not exist; otherwise the upsert's conversation with 200 |
| Chat.UserConversations | backend/src/controllers/chat.controller.js:27-35 | exactly the conversations where the user is buyer or seller, each as often as in the table, most recently updated first |
| Chat.Summarize | backend/src/controllers/chat.controller.js:38-46 | lastMessage is a newest message of the conversation, or null exactly when it has none |
| Chat.ConversationList | backend/src/controllers/chat.controller.js:24-54 | one summary per conversation of the user, in order of latest update |
| Chat.ConversationMessages | backend/src/controllers/chat.controller.js:56-68 | exactly the conversation's messages, oldest first |
| Store.MarketStore.PostMessage | backend/src/controllers/chat.controller.js:70-93 | 400 and no write when a field is missing; 500 for an unknown conversation; otherwise one unread message appended and the conversation's updatedAt set to now (201) |
| Chat.TouchEffect | backend/src/controllers/chat.controller.js:80-82 | touching changes only that conversation's updatedAt |
| Chat.MarkReadEffect | backend/src/controllers/chat.controller.js:98-101 | the other party's messages in the conversation become read; the user's own and other conversations' messages are unchanged; a repeated call changes nothing |
| Store.MarketStore.MarkRead | backend/src/controllers/chat.controller.js:95-107 | the messages table becomes MarkRead's, with code 200 |
| Products.CalculateRating | backend/src/controllers/products.controller.js:184-195 | the product is kept; with no reviews the average is 0, otherwise the average times the number of ratings is their sum; the counts are copied |
| Products.AverageWithinBounds | backend/src/controllers/products.controller.js:186-189 | the average of ratings within a range lies within that range |
| Products.NewArrivals | backend/src/controllers/products.controller.js:198-213 | exactly the products created since a week ago, rated, in catalogue order |
| Products.SampleNewArrivals | backend/src/controllers/products.controller.js:4-181 | of the demonstration products, the five-day-old lamp is a new arrival and the ten-day-old textbook is not |
| Products.SampleReviewedRating | backend/src/controllers/products.controller.js:4-181 | the demonstration textbook with one five-star review rates 5 |
| Products.ProductDetail | backend/src/controllers/products.controller.js:216-230 | None (the 404) exactly when no product has the id; otherwise the first product with the id, rated |
| Products.SimilarProducts | backend/src/controllers/products.controller.js:233-252 | None for an unknown id; otherwise the first six (or fewer) other products of the same category, in catalogue order, rated |
| Products.SearchProducts | backend/src/controllers/products.controller.js:255-274 | [] for an empty query; otherwise exactly the products whose lowered name, description or category contains the lowered query, in order |
| Products.SearchIgnoresCase | backend/src/controllers/products.controller.js:258-267 | a query and its lowered form find the same products |
| Products.ProductsByCategory | backend/src/controllers/products.controller.js:277-289 | exactly the products whose category equals the parameter, rated, in catalogue order |
| Products.UserWishlist | backend/src/controllers/products.controller.js:292-306 | the first three catalogue products (fewer for a shorter catalogue), rated, added now |
| Categories.ResolveSlug | backend/src/controllers/categories.controller.js:13 | a slug in the map resolves to its categories, any other to itself alone |
| Categories.KnownSlugs | backend/src/controllers/categories.controller.js:4-9 | the four slugs of the map and their category names |
| Categories.CategoryQuery | backend/src/controllers/categories.controller.js:15-20 | exactly the items whose category is a resolved name or whose category row has the slug, each as often as in the table, newest first |
| Categories.ProductsByCategorySlug | backend/src/controllers/categories.controller.js:11-48 | matching rows when there are some; the placeholder for the first resolved category when there are none; the sample products of the resolved categories when the query fails (the fallback as intended; see Left out) |
| Categories.PlaceholderIffNoMatch | backend/src/controllers/categories.controller.js:21-38 | the placeholder (id 10001) is sent exactly when no item matches, and names the first resolved category |

## Left out

- The users table and the foreign keys on user ids: creating a row for an unknown user is not rejected (the schema is not part of this model).
- Referential actions when an item is deleted (cascades to its transactions, rentals, cart and wishlist rows): the schema is not part of this model, so deleteItem removes only the item.
- The nested objects that `include` adds to responses (images, owner, buyer, seller, item): responses carry the rows' own fields and ids.
- The socket broadcast (`io.emit`) in postMessage: it is I/O.
- addItem, addReview and the authentication controller are not part of this model.
- Store.MarketStore: the tables are grouped in three datatype fields (`desk`, `saved`, `chats`); each method's frame is the whole field and its postcondition gives that field's full new value.
- Products.Lower: only the ASCII letters are lowercased; JavaScript's full Unicode case mapping is not modelled.
- Pricing.RentalDays: the dates are milliseconds already; parsing of date strings (and invalid dates, which give NaN) is not modelled.
- Money is `real`, not JavaScript's binary floating point, so rounding of prices, rents, averages and sums is not modelled.
- Categories.ResolveSlug: a slug naming an inherited object property (such as "constructor") is treated as unknown.
- Products: the catalogue, and the sample list the category fallback reads, are parameters; the demonstration entries are `SampleProducts(loaded)` for the time the module was loaded.
- Query parameters that are not strings (arrays, repeated keys) are not modelled; `q`, `slug` and `category` are strings or absent.
- Chat.UpsertConversation: a null itemId is matched like any other value of the compound key.
- Request ids are integers; a `parseInt` that gives NaN is not modelled.
- Store.MarketStore.AddToWishlist, Store.MarketStore.PostMessage and Store.MarketStore.CreateConversation: a missing item or conversation is the foreign-key failure of the insert (500).
- Chat.UpsertConversation: the upsert's empty update leaves an existing conversation's `updatedAt` as it was.
- Store.MarketStore.UpdateItem: only bodies made of the nine editable item fields are modelled. A body that names `id`, `createdAt` or `images` is written by the source but cannot be expressed as an `ItemPatch`. A body with a key the item does not have makes the update throw (500) and is not modelled either.
- Categories.ProductsByCategorySlug: the model gives the intended fallback to the sample products. As written, categories.controller.js imports `SAMPLE_PRODUCTS`, which products.controller.js declares without `export`, so the module fails to link and the fallback cannot run.
- Products.WeekAgo: the window starts exactly seven days of milliseconds before now. The source goes back seven local calendar days (`setDate(getDate() - 7)`), which differs by an hour across a daylight-saving change.
