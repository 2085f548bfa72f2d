/**
 * chat.controller: the conversation upsert, the two listings, the timestamp
 * update after a message and the bulk mark-read, as functions over the
 * conversation and message tables. The writing handlers (createConversation,
 * postMessage, markRead) are methods of Store.MarketStore built on these.
 */
module Chat {
  import opened Tables
  import opened Records

  /** `!x` in JavaScript for a numeric body field: absent (undefined or null) or 0. */
  predicate Given(x: Option<int>) {
    x.Some? && x.value != 0
  }

  /** The same for a string field: absent or empty. */
  predicate GivenText(x: Option<string>) {
    x.Some? && x.value != ""
  }

  // ---------------------------------------------------------------------
  // createConversation
  // ---------------------------------------------------------------------

  datatype Upserted = Upserted(table: seq<Conversation>, conversation: Conversation)

  /**
   * `upsert` on the compound key (buyerId, sellerId, itemId) with an empty
   * update: the conversation with that key if there is one, else a new one
   * with the next id, created and updated now.
   */
  function UpsertConversation(convs: seq<Conversation>, buyerId: int, sellerId: int, itemId: Option<int>, nextId: int, now: int): (r: Upserted)
    requires forall c :: c in convs ==> c.id < nextId
    ensures ConversationKey(r.conversation) == (buyerId, sellerId, itemId)
    ensures Find(r.table, ConversationKey, (buyerId, sellerId, itemId)) == Some(r.conversation)
    ensures Find(convs, ConversationKey, (buyerId, sellerId, itemId)).Some? ==>
      r.table == convs && r.conversation in convs
    ensures Find(convs, ConversationKey, (buyerId, sellerId, itemId)).None? ==>
      r.table == convs + [r.conversation] && r.conversation.id == nextId && forall c :: c in convs ==> c.id != r.conversation.id
    ensures Find(convs, ConversationKey, (buyerId, sellerId, itemId)).None? ==>
      r.conversation.createdAt == now && r.conversation.updatedAt == now
  {
    match Find(convs, ConversationKey, (buyerId, sellerId, itemId))
    case Some(c) => Upserted(convs, c)
    case None =>
      var c := Conversation(nextId, buyerId, sellerId, itemId, now, now);
      FindAppended(convs, c, ConversationKey);
      Upserted(convs + [c], c)
  }

  /** Upserting the same triple again returns the same conversation and writes nothing. */
  lemma UpsertIsIdempotent(convs: seq<Conversation>, buyerId: int, sellerId: int, itemId: Option<int>, nextId: int, now: int, nextId2: int, now2: int)
    requires forall c :: c in convs ==> c.id < nextId
    requires nextId <= nextId2
    ensures var first := UpsertConversation(convs, buyerId, sellerId, itemId, nextId, now);
      (forall c :: c in first.table ==> c.id < nextId2) ==>
        UpsertConversation(first.table, buyerId, sellerId, itemId, nextId2, now2) == first
  {
  }

  /** The upsert never creates a second conversation with the same triple. */
  lemma UpsertKeepsTriplesUnique(convs: seq<Conversation>, buyerId: int, sellerId: int, itemId: Option<int>, nextId: int, now: int)
    requires forall c :: c in convs ==> c.id < nextId
    requires UniqueKeys(convs, ConversationKey)
    ensures UniqueKeys(UpsertConversation(convs, buyerId, sellerId, itemId, nextId, now).table, ConversationKey)
  {
    var key := (buyerId, sellerId, itemId);
    if Find(convs, ConversationKey, key).None? {
      var c := UpsertConversation(convs, buyerId, sellerId, itemId, nextId, now).conversation;
      AppendFreshKeepsUnique(convs, c, ConversationKey);
    }
  }

  // ---------------------------------------------------------------------
  // getUserConversations
  // ---------------------------------------------------------------------

  /** The conversations the user takes part in, most recently updated first. */
  function UserConversations(convs: seq<Conversation>, userId: int): (r: seq<Conversation>)
    ensures forall c :: c in r <==> c in convs && (c.buyerId == userId || c.sellerId == userId)
    ensures SortedDesc(r, ConversationUpdatedAt)
    ensures |r| <= |convs|
    ensures forall c :: multiset(r)[c] == if c.buyerId == userId || c.sellerId == userId then multiset(convs)[c] else 0
  {
    var joined := (c: Conversation) => c.buyerId == userId || c.sellerId == userId;
    FilterCounts(convs, joined);
    SortDesc(Filter(convs, joined), ConversationUpdatedAt)
  }

  /** The messages of one conversation, in table order. */
  function MessagesIn(ms: seq<Message>, conversationId: int): (r: seq<Message>)
    ensures forall m :: m in r <==> m in ms && m.conversationId == conversationId
  {
    Filter(ms, (m: Message) => m.conversationId == conversationId)
  }

  /** `orderBy: { createdAt: "desc" }, take: 1`: a message no other is newer than, or none for no messages. */
  function Newest(ms: seq<Message>): (r: Option<Message>)
    ensures r.None? <==> ms == []
    ensures r.Some? ==> r.value in ms && forall m :: m in ms ==> m.createdAt <= r.value.createdAt
  {
    if ms == [] then None
    else
      match Newest(ms[1..])
      case None => Some(ms[0])
      case Some(n) => if n.createdAt > ms[0].createdAt then Some(n) else Some(ms[0])
  }

  datatype LastMessage = LastMessage(content: string, createdAt: int)

  /** One entry of the listing (the nested item, buyer and seller objects are reduced to their ids). */
  datatype ConversationSummary = ConversationSummary(
    id: int, itemId: Option<int>, buyerId: int, sellerId: int, lastMessage: Option<LastMessage>, updatedAt: int)

  /** `lastMessage` is the conversation's newest message, or null when it has none. */
  function Summarize(c: Conversation, ms: seq<Message>): (r: ConversationSummary)
    ensures r.id == c.id && r.itemId == c.itemId && r.updatedAt == c.updatedAt
    ensures r.lastMessage.None? <==> forall m :: m in ms ==> m.conversationId != c.id
    ensures r.lastMessage.Some? ==>
      exists m :: m in ms && m.conversationId == c.id
        && r.lastMessage.value == LastMessage(m.content, m.createdAt)
        && forall m' :: m' in ms && m'.conversationId == c.id ==> m'.createdAt <= m.createdAt
  {
    var last := match Newest(MessagesIn(ms, c.id))
      case None => None
      case Some(m) => Some(LastMessage(m.content, m.createdAt));
    ConversationSummary(c.id, c.itemId, c.buyerId, c.sellerId, last, c.updatedAt)
  }

  /** getUserConversations: a summary of each of the user's conversations, most recently updated first. */
  function ConversationList(convs: seq<Conversation>, ms: seq<Message>, userId: int): (r: seq<ConversationSummary>)
    ensures |r| == |UserConversations(convs, userId)|
    ensures forall i :: 0 <= i < |r| ==> r[i] == Summarize(UserConversations(convs, userId)[i], ms)
    ensures forall i, j :: 0 <= i < j < |r| ==> r[i].updatedAt >= r[j].updatedAt
  {
    var cs := UserConversations(convs, userId);
    seq(|cs|, i requires 0 <= i < |cs| => Summarize(cs[i], ms))
  }

  // ---------------------------------------------------------------------
  // getMessages
  // ---------------------------------------------------------------------

  /** The negated creation time: sorting by it largest first sorts oldest first. */
  function Earliness(m: Message): int { -m.createdAt }

  /** getMessages: the conversation's messages, oldest first. */
  function ConversationMessages(ms: seq<Message>, conversationId: int): (r: seq<Message>)
    ensures forall m :: m in r <==> m in ms && m.conversationId == conversationId
    ensures forall i, j :: 0 <= i < j < |r| ==> r[i].createdAt <= r[j].createdAt
    ensures multiset(r) == multiset(MessagesIn(ms, conversationId))
  {
    var r := SortDesc(MessagesIn(ms, conversationId), Earliness);
    assert forall i, j :: 0 <= i < j < |r| ==> Earliness(r[i]) >= Earliness(r[j]);
    r
  }

  // ---------------------------------------------------------------------
  // postMessage
  // ---------------------------------------------------------------------

  /** `conversation.update({ where: { id }, data: { updatedAt: now } })`. */
  function TouchConversation(convs: seq<Conversation>, id: int, now: int): seq<Conversation> {
    match IndexOf(convs, ConversationId, id)
    case None => convs
    case Some(i) => convs[i := convs[i].(updatedAt := now)]
  }

  /** Touching moves the conversation's `updatedAt` to now and changes nothing else, so its triple stays unique. */
  lemma TouchEffect(convs: seq<Conversation>, id: int, now: int, k: int)
    ensures |TouchConversation(convs, id, now)| == |convs|
    ensures Find(convs, ConversationId, id).Some? ==>
      Find(TouchConversation(convs, id, now), ConversationId, id) == Some(Find(convs, ConversationId, id).value.(updatedAt := now))
    ensures k != id ==> Find(TouchConversation(convs, id, now), ConversationId, k) == Find(convs, ConversationId, k)
    ensures KeysIncreasing(convs, ConversationId) ==> KeysIncreasing(TouchConversation(convs, id, now), ConversationId)
    ensures UniqueKeys(convs, ConversationKey) ==> UniqueKeys(TouchConversation(convs, id, now), ConversationKey)
    ensures Numbered(convs, ConversationId, k) ==> Numbered(TouchConversation(convs, id, now), ConversationId, k)
  {
    match IndexOf(convs, ConversationId, id)
    case None =>
    case Some(i) =>
      var c := convs[i].(updatedAt := now);
      IndexOfAfterSet(convs, i, c, ConversationId, k);
      IndexOfAfterSet(convs, i, c, ConversationId, id);
      if KeysIncreasing(convs, ConversationId) {
        SetKeepsIncreasing(convs, i, c, ConversationId);
      }
      assert forall j :: 0 <= j < |convs| ==> ConversationKey(convs[i := c][j]) == ConversationKey(convs[j]);
      if Numbered(convs, ConversationId, k) {
        SetKeepsNumbered(convs, i, c, ConversationId, k);
      }
  }

  // ---------------------------------------------------------------------
  // markRead
  // ---------------------------------------------------------------------

  /** The rows `updateMany` selects: unread, in the conversation, sent by someone else. */
  predicate MarkedByRead(m: Message, conversationId: int, userId: int) {
    m.conversationId == conversationId && m.senderId != userId && !m.isRead
  }

  /** markRead's `updateMany`: the selected rows become read. */
  function MarkRead(ms: seq<Message>, conversationId: int, userId: int): (r: seq<Message>)
    ensures |r| == |ms|
    ensures forall i :: 0 <= i < |ms| ==>
      r[i] == if MarkedByRead(ms[i], conversationId, userId) then ms[i].(isRead := true) else ms[i]
  {
    seq(|ms|, i requires 0 <= i < |ms| => if MarkedByRead(ms[i], conversationId, userId) then ms[i].(isRead := true) else ms[i])
  }

  /**
   * After markRead every message of the conversation from someone else is
   * read; the user's own messages, other conversations and every id stay as
   * they were; a second call changes nothing.
   */
  lemma MarkReadEffect(ms: seq<Message>, conversationId: int, userId: int)
    ensures var r := MarkRead(ms, conversationId, userId);
      && (forall i :: 0 <= i < |r| && r[i].conversationId == conversationId && r[i].senderId != userId ==> r[i].isRead)
      && (forall i :: 0 <= i < |r| && (ms[i].conversationId != conversationId || ms[i].senderId == userId) ==> r[i] == ms[i])
      && (forall i :: 0 <= i < |r| ==> r[i].(isRead := ms[i].isRead) == ms[i])
      && MarkRead(r, conversationId, userId) == r
  {
  }

  /** Marking read keeps message ids. */
  lemma MarkReadKeepsNumbered(ms: seq<Message>, conversationId: int, userId: int, next: int)
    requires Numbered(ms, MessageId, next)
    ensures Numbered(MarkRead(ms, conversationId, userId), MessageId, next)
  {
    var r := MarkRead(ms, conversationId, userId);
    assert forall i :: 0 <= i < |r| ==> r[i].id == ms[i].id;
  }
}
