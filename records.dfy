/**
 * The rows the marketplace backend stores: items, purchase transactions,
 * rentals, notifications, cart entries, wishlist rows, conversations and chat
 * messages. Dates are integer milliseconds since the epoch, money is a real
 * number (JavaScript numbers are not modelled bit for bit), and a nullable
 * column is an Option.
 */
module Records {
  import opened Tables

  // ---------------------------------------------------------------------
  // Row types
  // ---------------------------------------------------------------------

  datatype ItemStatus = Available | Sold | Rented

  datatype Item = Item(
    id: int,
    name: string,
    description: string,
    category: string,
    categorySlug: Option<string>,   // slug of the linked category row, if any
    price: real,
    rentPrice: Option<real>,
    isForRent: bool,
    condition: string,
    status: ItemStatus,
    ownerId: int,
    createdAt: int)

  datatype TrxStatus = TrxPending | TrxCompleted | TrxCancelled

  datatype Transaction = Transaction(
    id: int,
    buyerId: int,
    sellerId: int,
    itemId: int,
    amount: real,
    status: TrxStatus,
    createdAt: int)

  datatype RentalStatus = RentalPending | RentalActive | RentalCancelled | RentalReturned

  datatype Rental = Rental(
    id: int,
    renterId: int,
    itemId: int,
    startDate: int,
    endDate: int,
    totalRent: real,
    deposit: real,
    status: RentalStatus,
    createdAt: int)

  /** `kind` is the `type` column: a free-form tag such as "purchase_request". */
  datatype Notification = Notification(
    id: int,
    userId: int,
    message: string,
    kind: string,
    createdAt: int)

  datatype CartItem = CartItem(id: int, userId: int, itemId: int, quantity: int)

  datatype WishlistRow = WishlistRow(id: int, userId: int, itemId: int)

  datatype Conversation = Conversation(
    id: int,
    buyerId: int,
    sellerId: int,
    itemId: Option<int>,
    createdAt: int,
    updatedAt: int)

  datatype Message = Message(
    id: int,
    conversationId: int,
    senderId: int,
    content: string,
    isRead: bool,
    createdAt: int)

  // ---------------------------------------------------------------------
  // Keys: primary keys, compound unique keys and sort columns
  // ---------------------------------------------------------------------

  function ItemId(x: Item): int { x.id }
  function ItemCreatedAt(x: Item): int { x.createdAt }
  function TrxId(x: Transaction): int { x.id }
  function TrxCreatedAt(x: Transaction): int { x.createdAt }
  function RentalId(x: Rental): int { x.id }
  function RentalCreatedAt(x: Rental): int { x.createdAt }
  function RentalStartDate(x: Rental): int { x.startDate }
  function NotificationId(x: Notification): int { x.id }
  function NotificationCreatedAt(x: Notification): int { x.createdAt }
  function CartItemId(x: CartItem): int { x.id }
  function CartKey(x: CartItem): (int, int) { (x.userId, x.itemId) }
  function WishlistId(x: WishlistRow): int { x.id }
  function WishlistKey(x: WishlistRow): (int, int) { (x.userId, x.itemId) }
  function ConversationId(x: Conversation): int { x.id }
  function ConversationKey(x: Conversation): (int, int, Option<int>) { (x.buyerId, x.sellerId, x.itemId) }
  function ConversationUpdatedAt(x: Conversation): int { x.updatedAt }
  function MessageId(x: Message): int { x.id }
  function MessageCreatedAt(x: Message): int { x.createdAt }

  // ---------------------------------------------------------------------
  // Single-row status updates (prisma.<table>.update({ where: { id }, data: { status } }))
  // ---------------------------------------------------------------------

  /** The items table with the status of the item `id` set to `st`; unchanged when there is no such item. */
  function SetItemStatus(items: seq<Item>, id: int, st: ItemStatus): seq<Item> {
    match IndexOf(items, ItemId, id)
    case None => items
    case Some(i) => items[i := items[i].(status := st)]
  }

  function SetTrxStatus(ts: seq<Transaction>, id: int, st: TrxStatus): seq<Transaction> {
    match IndexOf(ts, TrxId, id)
    case None => ts
    case Some(i) => ts[i := ts[i].(status := st)]
  }

  function SetRentalStatus(rs: seq<Rental>, id: int, st: RentalStatus): seq<Rental> {
    match IndexOf(rs, RentalId, id)
    case None => rs
    case Some(i) => rs[i := rs[i].(status := st)]
  }

  /** After a status update the row is found in the same place, with the new status and nothing else changed. */
  lemma SetItemStatusEffect(items: seq<Item>, id: int, st: ItemStatus, k: int)
    ensures |SetItemStatus(items, id, st)| == |items|
    ensures IndexOf(SetItemStatus(items, id, st), ItemId, k) == IndexOf(items, ItemId, k)
    ensures Find(items, ItemId, id).Some? ==>
      Find(SetItemStatus(items, id, st), ItemId, id) == Some(Find(items, ItemId, id).value.(status := st))
    ensures k != id ==> Find(SetItemStatus(items, id, st), ItemId, k) == Find(items, ItemId, k)
  {
    match IndexOf(items, ItemId, id)
    case None =>
    case Some(i) =>
      IndexOfAfterSet(items, i, items[i].(status := st), ItemId, k);
      IndexOfAfterSet(items, i, items[i].(status := st), ItemId, id);
  }

  lemma SetTrxStatusEffect(ts: seq<Transaction>, id: int, st: TrxStatus, k: int)
    ensures |SetTrxStatus(ts, id, st)| == |ts|
    ensures IndexOf(SetTrxStatus(ts, id, st), TrxId, k) == IndexOf(ts, TrxId, k)
    ensures Find(ts, TrxId, id).Some? ==>
      Find(SetTrxStatus(ts, id, st), TrxId, id) == Some(Find(ts, TrxId, id).value.(status := st))
    ensures k != id ==> Find(SetTrxStatus(ts, id, st), TrxId, k) == Find(ts, TrxId, k)
  {
    match IndexOf(ts, TrxId, id)
    case None =>
    case Some(i) =>
      IndexOfAfterSet(ts, i, ts[i].(status := st), TrxId, k);
      IndexOfAfterSet(ts, i, ts[i].(status := st), TrxId, id);
  }

  lemma SetRentalStatusEffect(rs: seq<Rental>, id: int, st: RentalStatus, k: int)
    ensures |SetRentalStatus(rs, id, st)| == |rs|
    ensures IndexOf(SetRentalStatus(rs, id, st), RentalId, k) == IndexOf(rs, RentalId, k)
    ensures Find(rs, RentalId, id).Some? ==>
      Find(SetRentalStatus(rs, id, st), RentalId, id) == Some(Find(rs, RentalId, id).value.(status := st))
    ensures k != id ==> Find(SetRentalStatus(rs, id, st), RentalId, k) == Find(rs, RentalId, k)
  {
    match IndexOf(rs, RentalId, id)
    case None =>
    case Some(i) =>
      IndexOfAfterSet(rs, i, rs[i].(status := st), RentalId, k);
      IndexOfAfterSet(rs, i, rs[i].(status := st), RentalId, id);
  }

  /** Status updates never renumber a table. */
  lemma SetItemStatusKeepsIncreasing(items: seq<Item>, id: int, st: ItemStatus)
    requires KeysIncreasing(items, ItemId)
    ensures KeysIncreasing(SetItemStatus(items, id, st), ItemId)
  {
    match IndexOf(items, ItemId, id)
    case None =>
    case Some(i) => SetKeepsIncreasing(items, i, items[i].(status := st), ItemId);
  }

  /** The relation filter `{ item: { ownerId: sellerId } }`: the row's item exists and belongs to the seller. */
  predicate OwnsItem(items: seq<Item>, itemId: int, sellerId: int) {
    match Find(items, ItemId, itemId)
    case Some(it) => it.ownerId == sellerId
    case None => false
  }

  // ---------------------------------------------------------------------
  // Text
  // ---------------------------------------------------------------------

  /** Decimal digits of a natural number, as JavaScript prints it. */
  function NatToString(n: nat): (r: string)
    ensures |r| >= 1
    ensures forall i :: 0 <= i < |r| ==> '0' <= r[i] <= '9'
  {
    var d := ['0', '1', '2', '3', '4', '5', '6', '7', '8', '9'][n % 10];
    if n < 10 then [d] else NatToString(n / 10) + [d]
  }

  /** An integer as a template literal `${n}` renders it. */
  function IntToString(n: int): string {
    if n < 0 then "-" + NatToString(-n) else NatToString(n)
  }
}
