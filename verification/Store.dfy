/** The store interface, and the one store both backends are. */
module Store {
  import opened Wrappers
  import opened Messages
  import opened Sequences
  import opened Sorting
  import opened KeyOrder

  datatype UserRow = UserRow(i0Pubkey: string, lastTradeIndex: Option<int>, createdAt: int)

  datatype OrderRow = OrderRow(
    id: string,
    kind: Option<string>,
    status: Option<string>,
    amount: Number,
    fiatCode: string,
    minAmount: Option<Number>,
    maxAmount: Option<Number>,
    fiatAmount: Number,
    paymentMethod: string,
    premium: Number,
    tradeKeys: Option<string>,
    counterpartyPubkey: Option<string>,
    isMine: bool,
    buyerInvoice: Option<string>,
    requestId: Option<Number>,
    tradeIndex: Option<Number>,
    createdAt: Option<Number>,
    expiresAt: Option<Number>,
    lastSeenDmTs: Option<Number>,
    disputeId: Option<string>,
    solverPubkey: Option<string>,
    disputeChatKey: Option<string>)

  datatype SaveOrderInput = SaveOrderInput(
    id: string,
    kind: Option<string>,
    status: Option<string>,
    amount: Number,
    fiatCode: string,
    minAmount: Option<Number>,
    maxAmount: Option<Number>,
    fiatAmount: Number,
    paymentMethod: string,
    premium: Number,
    tradeKeys: string,
    counterpartyPubkey: Option<string>,
    isMine: bool,
    buyerInvoice: Option<string>,
    requestId: Option<Number>,
    tradeIndex: Number,
    createdAt: Option<Number>,
    expiresAt: Option<Number>)

  datatype ChatRow = ChatRow(
    outerEventId: string, orderId: string, scope: string, sender: string, content: string, createdAt: Number,
    innerEventId: string)

  // --- column encryption ---

  /** `nonce` stands for the randomness an encryption draws, `comesBack` for a text written as bytes and read again:
      a text decoder drops a leading byte order mark. */
  datatype FieldEncryptor = FieldEncryptor(
    encrypt: (string, nat) -> string, decrypt: string -> Option<string>, comesBack: string -> string)

  /** What a backend is opened with; `lower` is the case folding of status strings. */
  datatype Config = Config(encryptor: Option<FieldEncryptor>, lower: string -> string)

  predicate IsEncryptedFormat(value: string) {
    "v1x" <= value || "b1x" <= value
  }

  /** Decryption undoes encryption, except that the envelope of the empty string is too short to open. */
  ghost predicate Lawful(config: Config) {
    config.encryptor.Some? ==>
      var enc := config.encryptor.value;
      forall plain: string, nonce: nat ::
        var cipher := enc.encrypt(plain, nonce);
        && IsEncryptedFormat(cipher)
        && enc.decrypt(cipher) == if plain == "" then None else Some(enc.comesBack(plain))
  }

  function EncryptString(config: Config, plain: string, nonce: nat): string {
    match config.encryptor
    case Some(enc) => enc.encrypt(plain, nonce)
    case None => plain
  }

  function EncryptStringOrNull(config: Config, plain: string, nonce: nat): string {
    if plain == "" then plain else EncryptString(config, plain, nonce)
  }

  /** What reading an encrypted column yields: no value, the empty column, a text (the empty one too, if an envelope
      decodes to it), or the decryption error. */
  datatype Field = Absent | Empty | Text(text: string) | Unreadable

  function Read(config: Config, column: Option<string>): Field {
    match column
    case None => Absent
    case Some(value) =>
      if value == "" then Empty
      else if config.encryptor.Some? && IsEncryptedFormat(value) then
        match config.encryptor.value.decrypt(value)
        case Some(plain) => Text(plain)
        case None => Unreadable
      else Text(value)
  }

  /** What a mandatory column holds after writing `plain`. */
  function Sealed(config: Config, plain: string): Field {
    if config.encryptor.Some? then
      if plain == "" then Unreadable else Text(config.encryptor.value.comesBack(plain))
    else if plain == "" then Empty else Text(plain)
  }

  /** What an optional column holds after writing `plain`: the empty text is not encrypted. */
  function SealedOrNull(config: Config, plain: string): Field {
    if plain == "" then Empty else Sealed(config, plain)
  }

  lemma ReadAfterWrite(config: Config, plain: string, nonce: nat)
    requires Lawful(config)
    ensures Read(config, Some(EncryptString(config, plain, nonce))) == Sealed(config, plain)
    ensures Read(config, Some(EncryptStringOrNull(config, plain, nonce))) == SealedOrNull(config, plain)
  {
  }

  lemma EmptyTextIsEmpty(config: Config, column: Option<string>)
    ensures Read(config, column) == Absent <==> column == None
    ensures Read(config, column) == Empty <==> column == Some("")
  {
  }

  // --- tables and their plain view ---

  datatype Tables = Tables(users: map<string, UserRow>, orders: map<string, OrderRow>, chat: map<string, ChatRow>)

  /** A row as a caller sees it; `row` keeps the columns that are never encrypted. */
  datatype OrderView = OrderView(row: OrderRow, tradeKeys: Field, chatKey: Field)

  function ViewRow(config: Config, row: OrderRow): OrderView {
    OrderView(row.(tradeKeys := None, disputeChatKey := None), Read(config, row.tradeKeys),
      Read(config, row.disputeChatKey))
  }

  datatype Db = Db(users: map<string, UserRow>, orders: map<string, OrderView>, chat: map<string, ChatRow>)

  ghost function View(config: Config, t: Tables): Db {
    Db(t.users, map id | id in t.orders :: ViewRow(config, t.orders[id]), t.chat)
  }

  // --- calls and replies ---

  datatype Call =
    | UpsertUser(user: UserRow)
    | GetUser
    | Reserve(noneBase: int, identity: string, now: int)
    | SaveOrder(input: SaveOrderInput, nonce: nat)
    | UpdateOrderStatus(id: string, status: string)
    | GetOrder(id: string)
    | GetActiveOrders(terminal: seq<string>)
    | UpdateLastSeenDmTs(id: string, ts: Number)
    | UpdateDisputeId(id: string, disputeId: string)
    | UpdateSolverChat(id: string, solverPubkey: string, sharedKey: string, nonce: nat)
    | SaveChatMessage(message: ChatRow)
    | GetChatMessages(orderId: string, scope: string)
    | Wipe

  /** Failed is a rejected promise. */
  datatype Reply =
    | Done
    | GotUser(user: Option<UserRow>)
    | Reserved(index: int)
    | Inserted(inserted: bool)
    | GotOrder(order: Option<OrderView>)
    | GotActive(active: seq<OrderView>)
    | GotChat(messages: seq<ChatRow>)
    | Failed

  predicate Readable(v: OrderView) {
    v.tradeKeys != Unreadable && v.chatKey != Unreadable
  }

  ghost function ReplyOrder(orders: map<string, OrderView>, id: string): Reply {
    if id !in orders then GotOrder(None)
    else if Readable(orders[id]) then GotOrder(Some(orders[id])) else Failed
  }

  predicate IsActive(config: Config, terminal: seq<string>, v: OrderView) {
    && v.tradeKeys != Absent && v.tradeKeys != Empty
    && (v.row.status.None? || config.lower(v.row.status.value) !in terminal)
  }

  function ActiveIn(config: Config, terminal: seq<string>): OrderView -> bool {
    (v: OrderView) => IsActive(config, terminal, v)
  }

  /** One unreadable row fails the whole call. */
  function ActiveReply(rows: seq<OrderView>): Reply {
    if forall k | 0 <= k < |rows| :: Readable(rows[k]) then GotActive(rows) else Failed
  }

  function RowsAt<V>(m: map<string, V>, ids: seq<string>): (rows: seq<V>)
    requires forall id | id in ids :: id in m
    ensures |rows| == |ids| && forall k | 0 <= k < |ids| :: ids[k] in m && rows[k] == m[ids[k]]
  {
    seq(|ids|, k requires 0 <= k < |ids| => assert ids[k] in ids; m[ids[k]])
  }

  /** The active rows, in the order in which a scan meets them. */
  function ReplyActive(config: Config, orders: map<string, OrderView>, terminal: seq<string>, scan: seq<string>): Reply
    requires forall id | id in scan :: id in orders
  {
    ActiveReply(Filter(ActiveIn(config, terminal), RowsAt(orders, scan)))
  }

  ghost function Matching(chat: map<string, ChatRow>, orderId: string, scope: string): set<ChatRow> {
    set id | id in chat && chat[id].orderId == orderId && chat[id].scope == scope :: chat[id]
  }

  // --- the abstract store ---

  function Max(a: int, b: int): int {
    if a < b then b else a
  }

  /** An identity's index never goes down, and a missing one counts as zero. */
  function MergeUser(existing: UserRow, user: UserRow): UserRow {
    user.(lastTradeIndex := Some(Max(existing.lastTradeIndex.GetOr(0), user.lastTradeIndex.GetOr(0))))
  }

  function Fresh(config: Config, o: SaveOrderInput, was: Option<OrderView>): OrderView {
    OrderView(
      OrderRow(o.id, o.kind, o.status, o.amount, o.fiatCode, o.minAmount, o.maxAmount, o.fiatAmount, o.paymentMethod,
               o.premium, None, o.counterpartyPubkey, o.isMine, o.buyerInvoice, o.requestId, Some(o.tradeIndex),
               if was.Some? && was.value.row.createdAt.Some? then was.value.row.createdAt else o.createdAt,
               o.expiresAt,
               if was.Some? then was.value.row.lastSeenDmTs else None,
               if was.Some? then was.value.row.disputeId else None,
               if was.Some? then was.value.row.solverPubkey else None,
               None),
      Sealed(config, o.tradeKeys),
      if was.Some? then was.value.chatKey else Absent)
  }

  function Lookup<V>(m: map<string, V>, id: string): Option<V> {
    if id in m then Some(m[id]) else None
  }

  /** The one user row, if any. */
  ghost function TheUser(users: map<string, UserRow>): Option<UserRow> {
    if users == map[] then None else var id :| id in users; Some(users[id])
  }

  ghost predicate OneIdentity(users: map<string, UserRow>) {
    && (forall a, b | a in users && b in users :: a == b)
    && forall id | id in users :: users[id].i0Pubkey == id
  }

  lemma TheUserIs(users: map<string, UserRow>, id: string)
    requires OneIdentity(users) && id in users
    ensures TheUser(users) == Some(users[id]) && users.Keys == {id}
  {
  }

  ghost function Step(config: Config, db: Db, call: Call): (Db, Reply) {
    match call
    case UpsertUser(user) =>
      var id := user.i0Pubkey;
      (db.(users := db.users[id := if id in db.users then MergeUser(db.users[id], user) else user]), Done)
    case GetUser => (db, GotUser(TheUser(db.users)))
    case Reserve(noneBase, identity, now) =>
      match TheUser(db.users) {
        case None => (db, Failed)
        case Some(user) =>
          var next := user.lastTradeIndex.GetOr(noneBase) + 1;
          (db.(users := db.users[user.i0Pubkey := user.(lastTradeIndex := Some(next))]), Reserved(next))
      }
    case SaveOrder(o, nonce) =>
      (db.(orders := db.orders[o.id := Fresh(config, o, Lookup(db.orders, o.id))]), Inserted(o.id !in db.orders))
    case UpdateOrderStatus(id, status) =>
      (Amend(db, id, (v: OrderView) => v.(row := v.row.(status := Some(status)))), Done)
    case GetOrder(id) => (db, ReplyOrder(db.orders, id))
    case GetActiveOrders(terminal) => (db, ReplyActive(config, db.orders, terminal, Ordered(db.orders.Keys)))
    case UpdateLastSeenDmTs(id, ts) =>
      (Amend(db, id, (v: OrderView) => v.(row := v.row.(lastSeenDmTs := Some(Later(v.row.lastSeenDmTs, ts))))), Done)
    case UpdateDisputeId(id, disputeId) =>
      (Amend(db, id, (v: OrderView) => v.(row := v.row.(disputeId := Some(disputeId)))), Done)
    case UpdateSolverChat(id, solver, key, nonce) =>
      (Amend(db, id, (v: OrderView) =>
        v.(row := v.row.(solverPubkey := Some(solver)), chatKey := SealedOrNull(config, key))), Done)
    case SaveChatMessage(m) => (db.(chat := db.chat[m.outerEventId := m]), Done)
    case GetChatMessages(orderId, scope) => (db, GotChat(ListingOf(Matching(db.chat, orderId, scope))))
    case Wipe => (Db(map[], map[], map[]), Done)
  }

  ghost function Amend(db: Db, id: string, change: OrderView -> OrderView): Db {
    if id in db.orders then db.(orders := db.orders[id := change(db.orders[id])]) else db
  }

  function Later(was: Option<Number>, ts: Number): Number {
    if was.None? || ts > was.value then ts else was.value
  }

  /** When a call is one both backends answer alike: indices given and non-negative, one identity
      whose row exists before a reservation, one content per chat event id, and conversations in which no two messages
      share a timestamp. */
  ghost predicate Proper(db: Db, call: Call) {
    match call
    case UpsertUser(user) =>
      && user.lastTradeIndex.Some? && user.lastTradeIndex.value >= 0
      && forall id | id in db.users :: id == user.i0Pubkey
    case Reserve(noneBase, identity, now) => noneBase >= 0 && db.users != map[]
    case SaveChatMessage(m) => m.outerEventId in db.chat ==> db.chat[m.outerEventId] == m
    case GetChatMessages(orderId, scope) => DistinctTimes(Matching(db.chat, orderId, scope))
    case _ => true
  }

  /** One identity at most, with a non-negative index if it has one. */
  ghost predicate Sound(db: Db) {
    && OneIdentity(db.users)
    && forall id | id in db.users :: db.users[id].lastTradeIndex.Some? ==> db.users[id].lastTradeIndex.value >= 0
  }

  lemma StepKeepsSound(config: Config, db: Db, call: Call)
    requires Sound(db) && Proper(db, call)
    ensures Sound(Step(config, db, call).0)
  {
    match call
    case UpsertUser(user) =>
      assert Step(config, db, call).0.users.Keys == {user.i0Pubkey};
    case Reserve(noneBase, identity, now) =>
      var id :| id in db.users;
      TheUserIs(db.users, id);
      assert Step(config, db, call).0.users.Keys == db.users.Keys;
    case _ =>
  }

  /** Writing one raw row changes one row of the view. */
  lemma ViewPut(config: Config, t: Tables, id: string, row: OrderRow)
    ensures View(config, t.(orders := t.orders[id := row]))
         == View(config, t).(orders := View(config, t).orders[id := ViewRow(config, row)])
  {
  }

  lemma ViewAt(config: Config, t: Tables, id: string)
    ensures id in View(config, t).orders <==> id in t.orders
    ensures id in t.orders ==> View(config, t).orders[id] == ViewRow(config, t.orders[id])
  {
  }

  /** The filter both backends run on raw rows, before decrypting. */
  predicate RawActive(config: Config, terminal: seq<string>, row: OrderRow) {
    && row.tradeKeys != None && row.tradeKeys != Some("")
    && (row.status.None? || config.lower(row.status.value) !in terminal)
  }

  function RawActiveIn(config: Config, terminal: seq<string>): OrderRow -> bool {
    (row: OrderRow) => RawActive(config, terminal, row)
  }

  function ViewOf(config: Config): OrderRow -> OrderView {
    (row: OrderRow) => ViewRow(config, row)
  }

  /** Filtering raw rows and then decrypting gives the active rows of the view. */
  lemma ActiveRows(config: Config, t: Tables, terminal: seq<string>, scan: seq<string>)
    requires forall id | id in scan :: id in t.orders
    ensures forall id | id in scan :: id in View(config, t).orders
    ensures ActiveReply(Map(ViewOf(config), Filter(RawActiveIn(config, terminal), RowsAt(t.orders, scan))))
         == ReplyActive(config, View(config, t).orders, terminal, scan)
  {
    var rows := RowsAt(t.orders, scan);
    forall k | 0 <= k < |rows|
      ensures RawActive(config, terminal, rows[k]) <==> IsActive(config, terminal, ViewRow(config, rows[k]))
    {
      EmptyTextIsEmpty(config, rows[k].tradeKeys);
    }
    FilterMapped(ViewOf(config), RawActiveIn(config, terminal), ActiveIn(config, terminal), rows);
    assert Map(ViewOf(config), rows) == RowsAt(View(config, t).orders, scan);
  }

  /** The call fails exactly when some active row it meets is unreadable. */
  lemma OneRowFailsAll(config: Config, orders: map<string, OrderView>, terminal: seq<string>, scan: seq<string>)
    requires forall id | id in scan :: id in orders
    ensures ReplyActive(config, orders, terminal, scan) == Failed
      <==> exists id :: id in scan && IsActive(config, terminal, orders[id]) && !Readable(orders[id])
  {
    var rows := RowsAt(orders, scan);
    var active := Filter(ActiveIn(config, terminal), rows);
    if id :| id in scan && IsActive(config, terminal, orders[id]) && !Readable(orders[id]) {
      var k :| 0 <= k < |scan| && scan[k] == id;
      assert rows[k] in rows;
      assert orders[id] in active;
      var m :| 0 <= m < |active| && active[m] == orders[id];
    }
    if m :| 0 <= m < |active| && !Readable(active[m]) {
      assert active[m] in active;
      var k :| 0 <= k < |rows| && rows[k] == active[m];
      assert scan[k] in scan;
    }
  }

  // --- listings ---

  function ByTime(): ChatRow -> real {
    (m: ChatRow) => m.createdAt
  }

  /** Rows listed oldest first, each once. */
  ghost predicate Listing(rows: seq<ChatRow>, messages: set<ChatRow>) {
    && Ascending(ByTime(), rows) && Distinct(rows)
    && (set m | m in rows) == messages
  }

  ghost predicate DistinctTimes(messages: set<ChatRow>) {
    forall m, n | m in messages && n in messages && m.createdAt == n.createdAt :: m == n
  }

  ghost function ListingOf(messages: set<ChatRow>): (rows: seq<ChatRow>)
    ensures Listing(rows, messages)
  {
    var rows := Enumerated(messages);
    SortIsListing(rows);
    assert (set m | m in rows) == messages;
    Sort(ByTime(), rows)
  }

  /** When no two messages share a timestamp there is only one listing, whatever order a backend scans in. */
  lemma {:induction false} ListingUnique(a: seq<ChatRow>, b: seq<ChatRow>, messages: set<ChatRow>)
    requires Listing(a, messages) && Listing(b, messages) && DistinctTimes(messages)
    ensures a == b
  {
    ListingSize(a, messages);
    ListingSize(b, messages);
    if a != [] {
      SameLast(a, b, messages);
      DropLast(a, messages);
      DropLast(b, messages);
      ListingUnique(a[..|a| - 1], b[..|b| - 1], messages - {a[|a| - 1]});
    }
  }

  /** Two messages with one timestamp can be listed either way round, so the condition is exact. */
  lemma ListingIsDetermined(messages: set<ChatRow>)
    ensures (forall a, b | Listing(a, messages) && Listing(b, messages) :: a == b) <==> DistinctTimes(messages)
  {
    if DistinctTimes(messages) {
      forall a, b | Listing(a, messages) && Listing(b, messages)
        ensures a == b
      {
        ListingUnique(a, b, messages);
      }
    } else {
      var m, n :| m in messages && n in messages && m.createdAt == n.createdAt && m != n;
      var b := TwoListings(messages, m, n);
      assert Listing(ListingOf(messages), messages);
    }
  }

  lemma TwoListings(messages: set<ChatRow>, m: ChatRow, n: ChatRow) returns (b: seq<ChatRow>)
    requires m in messages && n in messages && m.createdAt == n.createdAt && m != n
    ensures Listing(b, messages) && b != ListingOf(messages)
  {
    var a := ListingOf(messages);
    var i, j := IndexIn(a, messages, m), IndexIn(a, messages, n);
    SwapIsListing(a, messages, i, j);
    b := a[i := a[j]][j := a[i]];
    assert b[i] != a[i];
  }

  ghost function IndexIn(a: seq<ChatRow>, messages: set<ChatRow>, m: ChatRow): (k: nat)
    requires Listing(a, messages) && m in messages
    ensures k < |a| && a[k] == m
  {
    assert m in a;
    var k :| 0 <= k < |a| && a[k] == m;
    k
  }

  lemma SwapIsListing(a: seq<ChatRow>, messages: set<ChatRow>, i: nat, j: nat)
    requires Listing(a, messages) && i < |a| && j < |a| && a[i].createdAt == a[j].createdAt
    ensures Listing(a[i := a[j]][j := a[i]], messages)
  {
    var b, key := a[i := a[j]][j := a[i]], ByTime();
    forall p, q | 0 <= p < q < |b|
      ensures key(b[p]) <= key(b[q]) && b[p] != b[q]
    {
      assert key(b[p]) == key(a[p]) && key(b[q]) == key(a[q]);
    }
    forall m
      ensures m in a <==> m in b
    {
      if m in a {
        var k :| 0 <= k < |a| && a[k] == m;
        assert b[if k == i then j else if k == j then i else k] == m;
      }
      if m in b {
        var k :| 0 <= k < |b| && b[k] == m;
        assert a[if k == i then j else if k == j then i else k] == m;
      }
    }
  }

  lemma {:induction false} ListingSize(a: seq<ChatRow>, messages: set<ChatRow>)
    requires Listing(a, messages)
    ensures |a| == |messages|
  {
    if a != [] {
      var last := a[|a| - 1];
      assert last in messages;
      DropLast(a, messages);
      ListingSize(a[..|a| - 1], messages - {last});
    }
  }

  lemma SameLast(a: seq<ChatRow>, b: seq<ChatRow>, messages: set<ChatRow>)
    requires a != [] && b != [] && Listing(a, messages) && Listing(b, messages) && DistinctTimes(messages)
    ensures a[|a| - 1] == b[|b| - 1]
  {
    var m, n := a[|a| - 1], b[|b| - 1];
    assert m in messages && n in messages;
    var i :| 0 <= i < |b| && b[i] == m;
    var j :| 0 <= j < |a| && a[j] == n;
    var key := ByTime();
    assert key(b[i]) <= key(n) && key(a[j]) <= key(m);
  }

  lemma DropLast(a: seq<ChatRow>, messages: set<ChatRow>)
    requires a != [] && Listing(a, messages)
    ensures Listing(a[..|a| - 1], messages - {a[|a| - 1]})
  {
  }

  ghost predicate ChatKeyed(chat: map<string, ChatRow>) {
    forall id | id in chat :: chat[id].outerEventId == id
  }

  /** The rows of one conversation, in some scan order. */
  method Scan(chat: map<string, ChatRow>, orderId: string, scope: string) returns (rows: seq<ChatRow>)
    requires ChatKeyed(chat)
    ensures Distinct(rows) && (set m | m in rows) == Matching(chat, orderId, scope)
  {
    rows := [];
    var ids := chat.Keys;
    while ids != {}
      invariant ids <= chat.Keys && Distinct(rows)
      invariant forall m ::
                  m in rows <==>
                  exists id :: id in chat && id !in ids && chat[id] == m && m.orderId == orderId && m.scope == scope
    {
      var id :| id in ids;
      ids := ids - {id};
      if chat[id].orderId == orderId && chat[id].scope == scope {
        rows := rows + [chat[id]];
      }
    }
  }

  lemma SortIsListing(rows: seq<ChatRow>)
    requires Distinct(rows)
    ensures Listing(Sort(ByTime(), rows), set m | m in rows)
  {
    var sorted := Sort(ByTime(), rows);
    SortAscending(ByTime(), rows);
    SameElements(rows, sorted);
    DistinctIsKept(rows, sorted);
  }
}
