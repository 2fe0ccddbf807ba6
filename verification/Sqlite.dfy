/** The SQL backend: three tables and the statements run on them. Columns with secrets are encrypted on the way in and
    decrypted on the way out; the contracts speak about the rows a caller sees. Each method is one step of the abstract
    store. */
module Sqlite {
  import opened Wrappers
  import opened Messages
  import opened Sorting
  import opened Sequences
  import opened OrderedMaps
  import opened Store

  /** The user rows after an upsert: a known row keeps its place and the larger index. */
  function UpsertedUsers(users: map<string, UserRow>, user: UserRow): map<string, UserRow> {
    var id := user.i0Pubkey;
    if id in users then
      users[id := users[id].(
        lastTradeIndex := Some(Max(users[id].lastTradeIndex.GetOr(0), user.lastTradeIndex.GetOr(0))),
        createdAt := user.createdAt)]
    else users[id := user]
  }

  /** The row that is added when the order is new. */
  function Excluded(config: Config, o: SaveOrderInput, nonce: nat): OrderRow {
    OrderRow(o.id, o.kind, o.status, o.amount, o.fiatCode, o.minAmount, o.maxAmount, o.fiatAmount, o.paymentMethod,
             o.premium, Some(EncryptString(config, o.tradeKeys, nonce)), o.counterpartyPubkey, o.isMine, o.buyerInvoice,
               o.requestId,
             Some(o.tradeIndex), o.createdAt, o.expiresAt, None, None, None, None)
  }

  /** A known order takes every column of the new row, except its creation time and the columns the statement does not
      name. */
  function OnConflict(row: OrderRow, excluded: OrderRow): OrderRow {
    row.(
      kind := excluded.kind, status := excluded.status, amount := excluded.amount, fiatCode := excluded.fiatCode,
      minAmount := excluded.minAmount, maxAmount := excluded.maxAmount, fiatAmount := excluded.fiatAmount,
      paymentMethod := excluded.paymentMethod, premium := excluded.premium, tradeKeys := excluded.tradeKeys,
      counterpartyPubkey := excluded.counterpartyPubkey, isMine := excluded.isMine, buyerInvoice :=
        excluded.buyerInvoice,
      requestId := excluded.requestId, tradeIndex := excluded.tradeIndex,
      createdAt := if row.createdAt.Some? then row.createdAt else excluded.createdAt,
      expiresAt := excluded.expiresAt)
  }

  class SqliteStore {
    const config: Config
    var users: map<string, UserRow>
    /** Orders in the order in which they were first inserted: a scan meets them so. */
    var orders: OrderedMap<OrderRow>
    var chat: map<string, ChatRow>

    ghost predicate Valid()
      reads this
    {
      && Lawful(config)
      && orders.Good() && (forall id | id in orders.at :: orders.at[id].id == id)
      && (forall id | id in users :: users[id].i0Pubkey == id)
      && ChatKeyed(chat)
    }

    ghost function Raw(): Tables
      reads this
    {
      Tables(users, orders.at, chat)
    }

    ghost function Contents(): Db
      reads this
    {
      View(config, Raw())
    }

    constructor (config: Config)
      requires Lawful(config)
      ensures Valid() && this.config == config && Contents() == Db(map[], map[], map[]) && orders.keys == []
    {
      this.config := config;
      users, orders, chat := map[], OrderedMap([], map[]), map[];
    }

    method UpsertUser(user: UserRow)
      requires Valid()
      modifies this`users
      ensures Valid() && users == UpsertedUsers(old(users), user)
      ensures Contents() == Step(config, old(Contents()), Call.UpsertUser(user)).0
    {
      var id := user.i0Pubkey;
      if id in users {
        var row := users[id];
        var last := Max(row.lastTradeIndex.GetOr(0), user.lastTradeIndex.GetOr(0));
        users := users[id := row.(lastTradeIndex := Some(last), createdAt := user.createdAt)];
      } else {
        users := users[id := user];
      }
    }

    /** Any row, if there is one. */
    method GetUser() returns (user: Option<UserRow>)
      ensures user.None? <==> users == map[]
      ensures user.Some? ==> exists id :: id in users && users[id] == user.value
      ensures OneIdentity(users) ==> user == TheUser(users)
    {
      if users == map[] {
        return None;
      }
      var id :| id in users;
      assert OneIdentity(users) ==> Some(users[id]) == TheUser(users);
      return Some(users[id]);
    }

    /** Without a user row the update matches nothing, and the reserved index is not recorded. */
    method ReserveNextTradeIndex(noneBase: int, ghost identity: string, ghost now: int) returns (nextIndex: int)
      requires Valid()
      modifies this`users
      ensures Valid()
      ensures old(users) == map[] ==> users == map[] && nextIndex == noneBase + 1
      ensures Sound(old(Contents())) && old(users) != map[] ==>
        (Contents(), Reserved(nextIndex)) == Step(config, old(Contents()), Reserve(noneBase, identity, now))
    {
      var user := GetUser();
      var pubkey := if user.Some? then user.value.i0Pubkey else "";
      var last := if user.Some? then user.value.lastTradeIndex else None;
      nextIndex := last.GetOr(noneBase) + 1;
      if pubkey in users {
        users := users[pubkey := users[pubkey].(lastTradeIndex := Some(nextIndex))];
      }
    }

    method SaveOrder(o: SaveOrderInput, nonce: nat) returns (inserted: bool)
      requires Valid()
      modifies this`orders
      ensures Valid()
      ensures (Contents(), Inserted(inserted)) == Step(config, old(Contents()), Call.SaveOrder(o, nonce))
      ensures orders.keys == if o.id in old(orders.keys) then old(orders.keys) else old(orders.keys) + [o.id]
    {
      inserted := o.id !in orders.at;
      var excluded := Excluded(config, o, nonce);
      var row := if inserted then excluded else OnConflict(orders.at[o.id], excluded);
      ReadAfterWrite(config, o.tradeKeys, nonce);
      ViewPut(config, Raw(), o.id, row);
      ViewAt(config, Raw(), o.id);
      orders := orders.Set(o.id, row);
    }

    /** Rewrites one stored row in its place. */
    method WriteRow(id: string, row: OrderRow)
      requires Valid() && id in orders.at && row.id == id
      modifies this`orders
      ensures Valid() && orders.keys == old(orders.keys)
      ensures id in old(Contents()).orders && old(Contents()).orders[id] == ViewRow(config, old(orders.at[id]))
      ensures Contents() == old(Contents()).(orders := old(Contents()).orders[id := ViewRow(config, row)])
    {
      ViewPut(config, Raw(), id, row);
      ViewAt(config, Raw(), id);
      orders := orders.Set(id, row);
    }

    method UpdateOrderStatus(id: string, status: string)
      requires Valid()
      modifies this`orders
      ensures Valid() && orders.keys == old(orders.keys)
      ensures Contents() == Step(config, old(Contents()), Call.UpdateOrderStatus(id, status)).0
    {
      if id in orders.at {
        var row := orders.at[id].(status := Some(status));
        WriteRow(id, row);
      }
    }

    method GetOrder(id: string) returns (reply: Reply)
      requires Valid()
      ensures reply == Step(config, Contents(), Call.GetOrder(id)).1
    {
      ViewAt(config, Raw(), id);
      if id !in orders.at {
        return GotOrder(None);
      }
      var v := ViewRow(config, orders.at[id]);
      return if Readable(v) then GotOrder(Some(v)) else Failed;
    }

    /** The rows that have trade keys and no terminal status, selected before decrypting. */
    method GetActiveOrders(terminal: seq<string>) returns (reply: Reply)
      requires Valid()
      ensures forall id | id in orders.keys :: id in Contents().orders
      ensures reply == ReplyActive(config, Contents().orders, terminal, orders.keys)
    {
      ActiveRows(config, Raw(), terminal, orders.keys);
      var rows := RowsAt(orders.at, orders.keys);
      reply := ActiveReply(Map(ViewOf(config), Filter(RawActiveIn(config, terminal), rows)));
    }

    method UpdateLastSeenDmTs(id: string, ts: Number)
      requires Valid()
      modifies this`orders
      ensures Valid() && orders.keys == old(orders.keys)
      ensures Contents() == Step(config, old(Contents()), Call.UpdateLastSeenDmTs(id, ts)).0
    {
      if id in orders.at {
        var seen := orders.at[id].lastSeenDmTs;
        var row := orders.at[id].(lastSeenDmTs := if seen.None? || ts > seen.value then Some(ts) else seen);
        WriteRow(id, row);
      }
    }

    method UpdateDisputeId(id: string, disputeId: string)
      requires Valid()
      modifies this`orders
      ensures Valid() && orders.keys == old(orders.keys)
      ensures Contents() == Step(config, old(Contents()), Call.UpdateDisputeId(id, disputeId)).0
    {
      if id in orders.at {
        var row := orders.at[id].(disputeId := Some(disputeId));
        WriteRow(id, row);
      }
    }

    method UpdateSolverChat(id: string, solverPubkey: string, sharedKey: string, nonce: nat)
      requires Valid()
      modifies this`orders
      ensures Valid() && orders.keys == old(orders.keys)
      ensures Contents() == Step(config, old(Contents()), Call.UpdateSolverChat(id, solverPubkey, sharedKey, nonce)).0
    {
      var encrypted := EncryptStringOrNull(config, sharedKey, nonce);
      ReadAfterWrite(config, sharedKey, nonce);
      if id in orders.at {
        var row := orders.at[id].(solverPubkey := Some(solverPubkey), disputeChatKey := Some(encrypted));
        WriteRow(id, row);
      }
    }

    /** A known event id is ignored. */
    method SaveChatMessage(m: ChatRow)
      requires Valid()
      modifies this`chat
      ensures Valid()
      ensures chat == if m.outerEventId in old(chat) then old(chat) else old(chat)[m.outerEventId := m]
      ensures Proper(old(Contents()), Call.SaveChatMessage(m)) ==>
        Contents() == Step(config, old(Contents()), Call.SaveChatMessage(m)).0
    {
      if m.outerEventId !in chat {
        chat := chat[m.outerEventId := m];
      }
    }

    /** The rows of one conversation, by time. */
    method GetChatMessages(orderId: string, scope: string) returns (rows: seq<ChatRow>)
      requires Valid()
      ensures Listing(rows, Matching(chat, orderId, scope))
    {
      rows := Scan(chat, orderId, scope);
      SortIsListing(rows);
      rows := Sort(ByTime(), rows);
    }

    method Wipe()
      modifies this
      ensures Contents() == Db(map[], map[], map[]) && orders.keys == []
      ensures old(Valid()) ==> Valid()
    {
      chat, orders, users := map[], OrderedMap([], map[]), map[];
    }
  }
}
