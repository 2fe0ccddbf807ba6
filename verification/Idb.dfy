/** The IndexedDB backend: object stores that are read and put row by row, where the SQL backend updates in place.
    The contracts are those of the same abstract store, on the calls for which the two backends are meant to agree. */
module Idb {
  import opened Wrappers
  import opened Messages
  import opened Sorting
  import opened Sequences
  import opened KeyOrder
  import opened Store

  /** The row upsertUser puts, given the first row it read. */
  function MergedRow(existing: Option<UserRow>, user: UserRow): UserRow {
    if existing.Some? && user.lastTradeIndex.Some? && existing.value.lastTradeIndex.Some? then
      user.(lastTradeIndex := Some(Max(existing.value.lastTradeIndex.value, user.lastTradeIndex.value)))
    else user
  }

  /** The row saveOrder puts: the input, with the columns it does not carry taken from the existing row. */
  function SavedRow(config: Config, existing: Option<OrderRow>, o: SaveOrderInput, nonce: nat): OrderRow {
    OrderRow(
      o.id, o.kind, o.status, o.amount, o.fiatCode, o.minAmount, o.maxAmount, o.fiatAmount, o.paymentMethod, o.premium,
      Some(EncryptString(config, o.tradeKeys, nonce)), o.counterpartyPubkey, o.isMine, o.buyerInvoice, o.requestId,
      Some(o.tradeIndex),
      if existing.Some? && existing.value.createdAt.Some? then existing.value.createdAt else o.createdAt,
      o.expiresAt,
      if existing.Some? then existing.value.lastSeenDmTs else None,
      if existing.Some? then existing.value.disputeId else None,
      if existing.Some? then existing.value.solverPubkey else None,
      if existing.Some? then existing.value.disputeChatKey else None)
  }

  class IdbStore {
    const config: Config
    var users: map<string, UserRow>
    var orders: map<string, OrderRow>
    var chat: map<string, ChatRow>

    ghost predicate Valid()
      reads this
    {
      && Lawful(config)
      && (forall id | id in orders :: orders[id].id == id)
      && (forall id | id in users :: users[id].i0Pubkey == id)
      && ChatKeyed(chat)
    }

    ghost function Raw(): Tables
      reads this
    {
      Tables(users, orders, chat)
    }

    ghost function Contents(): Db
      reads this
    {
      View(config, Raw())
    }

    constructor (config: Config)
      requires Lawful(config)
      ensures Valid() && this.config == config && Contents() == Db(map[], map[], map[])
    {
      this.config := config;
      users, orders, chat := map[], map[], map[];
    }

    /** getAll()[0]. */
    method GetUser() returns (user: Option<UserRow>)
      ensures user.None? <==> users == map[]
      ensures user.Some? ==> exists id :: id in users && users[id] == user.value
      ensures OneIdentity(users) ==> user == TheUser(users)
    {
      if users == map[] {
        return None;
      }
      var id :| id in users;
      assert OneIdentity(users) ==> Some(users[id]) == TheUser(users);
      return Some(users[id]);
    }

    method UpsertUser(user: UserRow)
      requires Valid()
      modifies this`users
      ensures Valid()
      ensures OneIdentity(old(users)) ==> users == old(users)[user.i0Pubkey := MergedRow(TheUser(old(users)), user)]
      ensures Sound(old(Contents())) && Proper(old(Contents()), Call.UpsertUser(user)) ==>
        Contents() == Step(config, old(Contents()), Call.UpsertUser(user)).0
    {
      var existing := GetUser();
      var row := MergedRow(existing, user);
      users := users[user.i0Pubkey := row];
    }

    /** A missing user row is created under the derived identity. */
    method ReserveNextTradeIndex(noneBase: int, identity: string, now: int) returns (nextIndex: int)
      requires Valid()
      modifies this`users
      ensures Valid()
      ensures old(users) == map[] ==>
        nextIndex == noneBase + 1 && users == map[identity := UserRow(identity, Some(nextIndex), now)]
      ensures OneIdentity(old(users)) && old(users) != map[] ==>
        var user := TheUser(old(users)).value;
        && nextIndex == user.lastTradeIndex.GetOr(noneBase) + 1
        && users == map[user.i0Pubkey := user.(lastTradeIndex := Some(nextIndex))]
      ensures Sound(old(Contents())) && old(users) != map[] ==>
        (Contents(), Reserved(nextIndex)) == Step(config, old(Contents()), Reserve(noneBase, identity, now))
    {
      var user := GetUser();
      nextIndex := (if user.Some? then user.value.lastTradeIndex else None).GetOr(noneBase) + 1;
      if user.Some? {
        UpsertUser(user.value.(lastTradeIndex := Some(nextIndex)));
      } else {
        UpsertUser(UserRow(identity, Some(nextIndex), now));
      }
    }

    method SaveOrder(o: SaveOrderInput, nonce: nat) returns (inserted: bool)
      requires Valid()
      modifies this`orders
      ensures Valid()
      ensures (Contents(), Inserted(inserted)) == Step(config, old(Contents()), Call.SaveOrder(o, nonce))
    {
      var existing := Lookup(orders, o.id);
      var row := SavedRow(config, existing, o, nonce);
      ReadAfterWrite(config, o.tradeKeys, nonce);
      ViewPut(config, Raw(), o.id, row);
      ViewAt(config, Raw(), o.id);
      orders := orders[o.id := row];
      inserted := existing == None;
    }

    /** Puts a changed row under the key it was read from. */
    method Put(id: string, row: OrderRow)
      requires Valid() && id in orders && row.id == id
      modifies this`orders
      ensures Valid()
      ensures id in old(Contents()).orders && old(Contents()).orders[id] == ViewRow(config, old(orders[id]))
      ensures Contents() == old(Contents()).(orders := old(Contents()).orders[id := ViewRow(config, row)])
    {
      ViewPut(config, Raw(), id, row);
      ViewAt(config, Raw(), id);
      orders := orders[id := row];
    }

    method UpdateOrderStatus(id: string, status: string)
      requires Valid()
      modifies this`orders
      ensures Valid()
      ensures Contents() == Step(config, old(Contents()), Call.UpdateOrderStatus(id, status)).0
    {
      var existing := Lookup(orders, id);
      if existing.Some? {
        var row := existing.value.(status := Some(status));
        Put(id, row);
      }
    }

    method GetOrder(id: string) returns (reply: Reply)
      requires Valid()
      ensures reply == Step(config, Contents(), Call.GetOrder(id)).1
    {
      ViewAt(config, Raw(), id);
      var row := Lookup(orders, id);
      if row.None? {
        return GotOrder(None);
      }
      var v := ViewRow(config, row.value);
      return if Readable(v) then GotOrder(Some(v)) else Failed;
    }

    /** All rows in the order of their keys, filtered raw, then decrypted. */
    method GetActiveOrders(terminal: seq<string>) returns (reply: Reply)
      requires Valid()
      ensures reply == ReplyActive(config, Contents().orders, terminal, Ordered(Contents().orders.Keys))
    {
      var ids := ReadInOrder(orders.Keys);
      assert Contents().orders.Keys == orders.Keys;
      ActiveRows(config, Raw(), terminal, ids);
      reply := ActiveReply(Map(ViewOf(config), Filter(RawActiveIn(config, terminal), RowsAt(orders, ids))));
    }

    method UpdateLastSeenDmTs(id: string, ts: Number)
      requires Valid()
      modifies this`orders
      ensures Valid()
      ensures Contents() == Step(config, old(Contents()), Call.UpdateLastSeenDmTs(id, ts)).0
    {
      var existing := Lookup(orders, id);
      if existing.Some? {
        var last := existing.value.lastSeenDmTs;
        var row := existing.value.(lastSeenDmTs := Some(if last.None? || ts > last.value then ts else last.value));
        Put(id, row);
      }
    }

    method UpdateDisputeId(id: string, disputeId: string)
      requires Valid()
      modifies this`orders
      ensures Valid()
      ensures Contents() == Step(config, old(Contents()), Call.UpdateDisputeId(id, disputeId)).0
    {
      var existing := Lookup(orders, id);
      if existing.Some? {
        var row := existing.value.(disputeId := Some(disputeId));
        Put(id, row);
      }
    }

    method UpdateSolverChat(id: string, solverPubkey: string, sharedKey: string, nonce: nat)
      requires Valid()
      modifies this`orders
      ensures Valid()
      ensures Contents() == Step(config, old(Contents()), Call.UpdateSolverChat(id, solverPubkey, sharedKey, nonce)).0
    {
      var existing := Lookup(orders, id);
      if existing.Some? {
        var encrypted := EncryptStringOrNull(config, sharedKey, nonce);
        ReadAfterWrite(config, sharedKey, nonce);
        var row := existing.value.(solverPubkey := Some(solverPubkey), disputeChatKey := Some(encrypted));
        Put(id, row);
      }
    }

    /** put(): a later message under the same event id replaces the earlier one. */
    method SaveChatMessage(m: ChatRow)
      requires Valid()
      modifies this`chat
      ensures Valid() && chat == old(chat)[m.outerEventId := m]
      ensures Contents() == Step(config, old(Contents()), Call.SaveChatMessage(m)).0
    {
      chat := chat[m.outerEventId := m];
    }

    method GetChatMessages(orderId: string, scope: string) returns (rows: seq<ChatRow>)
      requires Valid()
      ensures Listing(rows, Matching(chat, orderId, scope))
    {
      rows := Scan(chat, orderId, scope);
      SortIsListing(rows);
      rows := Sort(ByTime(), rows);
    }

    method Wipe()
      modifies this
      ensures Contents() == Db(map[], map[], map[])
      ensures old(Valid()) ==> Valid()
    {
      chat, orders, users := map[], map[], map[];
    }
  }
}
