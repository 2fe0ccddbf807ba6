/** Where the two backends agree, and where they do not. */
module Backends {
  import opened Wrappers
  import opened Store
  import opened Sqlite
  import opened Idb
  import opened Sequences
  import opened KeyOrder

  // --- runs ---

  ghost function After(config: Config, db: Db, calls: seq<Call>): Db {
    if calls == [] then db else Step(config, After(config, db, calls[..|calls| - 1]), calls[|calls| - 1]).0
  }

  ghost function Replies(config: Config, db: Db, calls: seq<Call>): seq<Reply> {
    if calls == [] then []
    else
      Replies(config, db, calls[..|calls| - 1])
      + [Step(config, After(config, db, calls[..|calls| - 1]), calls[|calls| - 1]).1]
  }

  ghost predicate AllProper(config: Config, db: Db, calls: seq<Call>) {
    forall k | 0 <= k < |calls| :: Proper(After(config, db, calls[..k]), calls[k])
  }

  // --- the order of active orders ---

  /** The order in which a scan of the SQL table meets the orders: that of their first insertion. */
  ghost function NextScan(scan: seq<string>, call: Call): seq<string> {
    match call
    case SaveOrder(o, _) => if o.id in scan then scan else scan + [o.id]
    case Wipe => []
    case _ => scan
  }

  ghost function ScanAfter(scan: seq<string>, calls: seq<Call>): seq<string> {
    if calls == [] then scan else NextScan(ScanAfter(scan, calls[..|calls| - 1]), calls[|calls| - 1])
  }

  /** The SQL backend replies as the abstract store does, but lists active orders as the scan meets them. */
  ghost function SqlReply(config: Config, db: Db, scan: seq<string>, call: Call): Reply {
    if call.GetActiveOrders? && forall id | id in scan :: id in db.orders
    then ReplyActive(config, db.orders, call.terminal, scan)
    else Step(config, db, call).1
  }

  predicate IsActiveId(config: Config, orders: map<string, OrderView>, terminal: seq<string>, id: string) {
    id in orders && IsActive(config, terminal, orders[id])
  }

  function ActiveIdIn(config: Config, orders: map<string, OrderView>, terminal: seq<string>): string -> bool {
    (id: string) => IsActiveId(config, orders, terminal, id)
  }

  /** The active orders among those a scan meets. */
  function ActiveIds(
    config: Config, orders: map<string, OrderView>, terminal: seq<string>, scan: seq<string>): seq<string> {
    Filter(ActiveIdIn(config, orders, terminal), scan)
  }

  ghost predicate IdKeyed(db: Db) {
    forall id | id in db.orders :: db.orders[id].row.id == id
  }

  lemma RowsOfActive(config: Config, orders: map<string, OrderView>, terminal: seq<string>, scan: seq<string>)
    requires forall id | id in scan :: id in orders
    ensures forall id | id in ActiveIds(config, orders, terminal, scan) :: id in orders
    ensures Filter(ActiveIn(config, terminal), RowsAt(orders, scan))
      == RowsAt(orders, ActiveIds(config, orders, terminal, scan))
  {
    if scan != [] {
      assert scan[0] in scan;
      var row := (id: string) => if id in orders then orders[id] else orders[scan[0]];
      FilterMapped(row, ActiveIdIn(config, orders, terminal), ActiveIn(config, terminal), scan);
      assert Map(row, scan) == RowsAt(orders, scan);
      var ids := ActiveIds(config, orders, terminal, scan);
      assert Map(row, ids) == RowsAt(orders, ids);
    }
  }

  lemma RowsTellIds(orders: map<string, OrderView>, a: seq<string>, b: seq<string>)
    requires (forall id | id in orders :: orders[id].row.id == id)
    requires (forall id | id in a :: id in orders) && forall id | id in b :: id in orders
    ensures RowsAt(orders, a) == RowsAt(orders, b) <==> a == b
  {
    var rowsA, rowsB := RowsAt(orders, a), RowsAt(orders, b);
    if rowsA == rowsB {
      forall k | 0 <= k < |a|
        ensures a[k] == b[k]
      {
        assert rowsA[k].row.id == a[k] && rowsB[k].row.id == b[k];
      }
    }
  }

  lemma ListsAgree(orders: map<string, OrderView>, a: seq<string>, b: seq<string>)
    requires forall id | id in orders :: orders[id].row.id == id
    requires (forall id :: id in a <==> id in b) && forall id | id in a :: id in orders
    ensures ActiveReply(RowsAt(orders, a)) == Failed <==> ActiveReply(RowsAt(orders, b)) == Failed
    ensures ActiveReply(RowsAt(orders, a)) == ActiveReply(RowsAt(orders, b))
      <==> (ActiveReply(RowsAt(orders, b)) == Failed || a == b)
  {
    RowsTellIds(orders, a, b);
    SameRowsFail(orders, a, b);
    SameRowsFail(orders, b, a);
  }

  lemma SameRowsFail(orders: map<string, OrderView>, a: seq<string>, b: seq<string>)
    requires (forall id :: id in a <==> id in b) && forall id | id in a :: id in orders
    ensures ActiveReply(RowsAt(orders, a)) == Failed ==> ActiveReply(RowsAt(orders, b)) == Failed
  {
    var rowsA, rowsB := RowsAt(orders, a), RowsAt(orders, b);
    if k :| 0 <= k < |rowsA| && !Readable(rowsA[k]) {
      assert a[k] in a;
      var m :| 0 <= m < |b| && b[m] == a[k];
      assert rowsB[m] == rowsA[k];
    }
  }

  /** Two scans of the same orders give the same list exactly when an active row is unreadable, which fails both,
      or they meet the active ones in one order. */
  lemma ActiveListsAgree(
    config: Config, orders: map<string, OrderView>, terminal: seq<string>, a: seq<string>, b: seq<string>)
    requires forall id | id in orders :: orders[id].row.id == id
    requires (forall id :: id in a <==> id in orders) && forall id :: id in b <==> id in orders
    ensures ReplyActive(config, orders, terminal, a) == Failed <==> ReplyActive(config, orders, terminal, b) == Failed
    ensures ReplyActive(config, orders, terminal, a) == ReplyActive(config, orders, terminal, b)
      <==> (ReplyActive(config, orders, terminal, b) == Failed
            || ActiveIds(config, orders, terminal, a) == ActiveIds(config, orders, terminal, b))
  {
    var idsA, idsB := ActiveIds(config, orders, terminal, a), ActiveIds(config, orders, terminal, b);
    RowsOfActive(config, orders, terminal, a);
    RowsOfActive(config, orders, terminal, b);
    ListsAgree(orders, idsA, idsB);
  }

  lemma ActiveInKeyOrder(config: Config, orders: map<string, OrderView>, terminal: seq<string>, scan: seq<string>)
    requires (forall id | id in orders :: orders[id].row.id == id) && forall id :: id in scan <==> id in orders
    ensures var keyed := ReplyActive(config, orders, terminal, Ordered(orders.Keys));
            && (ReplyActive(config, orders, terminal, scan) == Failed <==> keyed == Failed)
            && (ReplyActive(config, orders, terminal, scan) == keyed
                <==> (keyed != Failed ==> InOrder(ActiveIds(config, orders, terminal, scan))))
  {
    var keys := Ordered(orders.Keys);
    var a, b := ActiveIds(config, orders, terminal, scan), ActiveIds(config, orders, terminal, keys);
    ActiveListsAgree(config, orders, terminal, scan, keys);
    FilterInOrder(ActiveIdIn(config, orders, terminal), keys);
    if InOrder(a) {
      OrderIsUnique(a, b);
    }
  }

  /** So the SQL list is the one in key order exactly when the active orders were first inserted in the order of their
      ids. */
  lemma ListedInKeyOrder(config: Config, db: Db, scan: seq<string>, call: Call)
    requires IdKeyed(db) && forall id :: id in scan <==> id in db.orders
    ensures SqlReply(config, db, scan, call) == Step(config, db, call).1
      <==> (call.GetActiveOrders? && Step(config, db, call).1 != Failed ==>
              InOrder(ActiveIds(config, db.orders, call.terminal, scan)))
    ensures SqlReply(config, db, scan, call) == Failed <==> Step(config, db, call).1 == Failed
  {
    match call
    case GetActiveOrders(terminal) =>
      StepListsActive(config, db, terminal);
      ActiveInKeyOrder(config, db.orders, terminal, scan);
    case _ =>
  }

  lemma StepListsActive(config: Config, db: Db, terminal: seq<string>)
    ensures Step(config, db, GetActiveOrders(terminal)).1
      == ReplyActive(config, db.orders, terminal, Ordered(db.orders.Keys))
  {
  }

  // --- runs on both ---

  method PerformSqlite(s: SqliteStore, call: Call) returns (reply: Reply)
    requires s.Valid()
    modifies s
    ensures s.Valid() && s.orders.keys == NextScan(old(s.orders.keys), call)
    ensures Sound(old(s.Contents())) && Proper(old(s.Contents()), call) ==>
      && s.Contents() == Step(s.config, old(s.Contents()), call).0
      && reply == SqlReply(s.config, old(s.Contents()), old(s.orders.keys), call)
  {
    reply := Done;
    match call {
      case UpsertUser(user) => s.UpsertUser(user);
      case GetUser => var user := s.GetUser(); reply := GotUser(user);
      case Reserve(noneBase, identity, now) =>
        var index := s.ReserveNextTradeIndex(noneBase, identity, now);
        reply := Reserved(index);
      case SaveOrder(input, nonce) => var inserted := s.SaveOrder(input, nonce); reply := Inserted(inserted);
      case UpdateOrderStatus(id, status) => s.UpdateOrderStatus(id, status);
      case GetOrder(id) => reply := s.GetOrder(id);
      case GetActiveOrders(terminal) => reply := s.GetActiveOrders(terminal);
      case UpdateLastSeenDmTs(id, ts) => s.UpdateLastSeenDmTs(id, ts);
      case UpdateDisputeId(id, disputeId) => s.UpdateDisputeId(id, disputeId);
      case UpdateSolverChat(id, solver, key, nonce) => s.UpdateSolverChat(id, solver, key, nonce);
      case SaveChatMessage(m) => s.SaveChatMessage(m);
      case GetChatMessages(orderId, scope) =>
        var rows := s.GetChatMessages(orderId, scope);
        OnlyListing(s.Contents(), orderId, scope, rows);
        reply := GotChat(rows);
      case Wipe => s.Wipe();
    }
  }

  lemma OnlyListing(db: Db, orderId: string, scope: string, rows: seq<ChatRow>)
    requires Listing(rows, Matching(db.chat, orderId, scope))
    ensures DistinctTimes(Matching(db.chat, orderId, scope)) ==> rows == ListingOf(Matching(db.chat, orderId, scope))
  {
    var stored := Matching(db.chat, orderId, scope);
    if DistinctTimes(stored) {
      ListingUnique(rows, ListingOf(stored), stored);
    }
  }

  method PerformIdb(s: IdbStore, call: Call) returns (reply: Reply)
    requires s.Valid()
    modifies s
    ensures s.Valid()
    ensures Sound(old(s.Contents())) && Proper(old(s.Contents()), call) ==>
      (s.Contents(), reply) == Step(s.config, old(s.Contents()), call)
  {
    reply := Done;
    match call {
      case UpsertUser(user) => s.UpsertUser(user);
      case GetUser => var user := s.GetUser(); reply := GotUser(user);
      case Reserve(noneBase, identity, now) =>
        var index := s.ReserveNextTradeIndex(noneBase, identity, now);
        reply := Reserved(index);
      case SaveOrder(input, nonce) => var inserted := s.SaveOrder(input, nonce); reply := Inserted(inserted);
      case UpdateOrderStatus(id, status) => s.UpdateOrderStatus(id, status);
      case GetOrder(id) => reply := s.GetOrder(id);
      case GetActiveOrders(terminal) => reply := s.GetActiveOrders(terminal);
      case UpdateLastSeenDmTs(id, ts) => s.UpdateLastSeenDmTs(id, ts);
      case UpdateDisputeId(id, disputeId) => s.UpdateDisputeId(id, disputeId);
      case UpdateSolverChat(id, solver, key, nonce) => s.UpdateSolverChat(id, solver, key, nonce);
      case SaveChatMessage(m) => s.SaveChatMessage(m);
      case GetChatMessages(orderId, scope) =>
        var rows := s.GetChatMessages(orderId, scope);
        OnlyListing(s.Contents(), orderId, scope, rows);
        reply := GotChat(rows);
      case Wipe => s.Wipe();
    }
  }

  /** The SQL reply equals the other exactly unless active orders were first inserted out of the order of their ids. */
  ghost predicate RepliesAgree(
    config: Config, start: Db, scan: seq<string>, calls: seq<Call>, k: nat, left: Reply, right: Reply)
    requires k < |calls|
  {
    && (left == right
        <==> (calls[k].GetActiveOrders? && right != Failed ==>
                InOrder(ActiveIds(config, After(config, start, calls[..k]).orders, calls[k].terminal,
                  ScanAfter(scan, calls[..k])))))
    && (left == Failed <==> right == Failed)
  }

  ghost predicate AllAgree(
    config: Config, start: Db, scan: seq<string>, calls: seq<Call>, left: seq<Reply>, right: seq<Reply>) {
    |left| == |right| <= |calls|
      && forall k | 0 <= k < |left| :: RepliesAgree(config, start, scan, calls, k, left[k], right[k])
  }

  lemma OneMoreAgrees(
    config: Config, start: Db, scan: seq<string>, calls: seq<Call>, left: seq<Reply>, right: seq<Reply>, l: Reply,
    r: Reply)
    requires AllAgree(config, start, scan, calls, left, right) && |left| < |calls|
    requires RepliesAgree(config, start, scan, calls, |left|, l, r)
    ensures AllAgree(config, start, scan, calls, left + [l], right + [r])
  {
  }

  method PerformBoth(
    sqlite: SqliteStore, idb: IdbStore, calls: seq<Call>, k: nat, ghost start: Db, ghost scan: seq<string>)
    returns (left: Reply, right: Reply)
    requires sqlite.Valid() && idb.Valid() && sqlite.config == idb.config && k < |calls|
    requires sqlite.Contents() == idb.Contents() == After(sqlite.config, start, calls[..k]) && Sound(sqlite.Contents())
    requires sqlite.orders.keys == ScanAfter(scan, calls[..k]) && Proper(sqlite.Contents(), calls[k])
    modifies sqlite, idb
    ensures sqlite.Valid() && idb.Valid()
    ensures sqlite.Contents() == idb.Contents() == After(sqlite.config, start, calls[..k + 1])
      && Sound(sqlite.Contents())
    ensures sqlite.orders.keys == ScanAfter(scan, calls[..k + 1])
    ensures right == Step(sqlite.config, After(sqlite.config, start, calls[..k]), calls[k]).1
    ensures RepliesAgree(sqlite.config, start, scan, calls, k, left, right)
  {
    assert calls[..k + 1][..k] == calls[..k];
    ghost var before, met := sqlite.Contents(), sqlite.orders.keys;
    StepKeepsSound(sqlite.config, before, calls[k]);
    ListedInKeyOrder(sqlite.config, before, met, calls[k]);
    left := PerformSqlite(sqlite, calls[k]);
    right := PerformIdb(idb, calls[k]);
  }

  /** The same proper calls on both backends leave the same contents and give the same replies, listings of messages in
      the same order; only active orders can come in two orders, and exactly when those were first inserted out of the
      order of their ids. */
  method RunBoth(sqlite: SqliteStore, idb: IdbStore, calls: seq<Call>) returns (left: seq<Reply>, right: seq<Reply>)
    requires sqlite.Valid() && idb.Valid() && sqlite.config == idb.config
    requires sqlite.Contents() == idb.Contents() && Sound(sqlite.Contents())
    requires AllProper(sqlite.config, sqlite.Contents(), calls)
    modifies sqlite, idb
    ensures right == Replies(sqlite.config, old(sqlite.Contents()), calls) && |left| == |right| == |calls|
    ensures AllAgree(sqlite.config, old(sqlite.Contents()), old(sqlite.orders.keys), calls, left, right)
    ensures sqlite.Contents() == idb.Contents() == After(sqlite.config, old(sqlite.Contents()), calls)
  {
    left, right := [], [];
    ghost var start, scan, config := sqlite.Contents(), sqlite.orders.keys, sqlite.config;
    for k := 0 to |calls|
      invariant sqlite.Valid() && idb.Valid()
      invariant sqlite.Contents() == idb.Contents() == After(config, start, calls[..k])
      invariant Sound(sqlite.Contents()) && sqlite.orders.keys == ScanAfter(scan, calls[..k])
      invariant right == Replies(config, start, calls[..k]) && |left| == |right| == k
      invariant AllAgree(config, start, scan, calls, left, right)
    {
      assert calls[..k + 1][..k] == calls[..k];
      var l, r := PerformBoth(sqlite, idb, calls, k, start, scan);
      OneMoreAgrees(config, start, scan, calls, left, right, l, r);
      left, right := left + [l], right + [r];
    }
    assert calls[..|calls|] == calls;
  }

  // --- where the backends differ ---

  lemma TwoListed(config: Config, orders: map<string, OrderView>, terminal: seq<string>, x: string, y: string)
    requires x in orders && IsActive(config, terminal, orders[x]) && Readable(orders[x])
    requires y in orders && IsActive(config, terminal, orders[y]) && Readable(orders[y])
    ensures ReplyActive(config, orders, terminal, [x, y]) == GotActive([orders[x], orders[y]])
  {
    var rows := RowsAt(orders, [x, y]);
    assert rows == [orders[x], orders[y]];
    FilterAll(ActiveIn(config, terminal), rows);
  }

  lemma KeysOfTwo(orders: map<string, OrderView>)
    requires orders.Keys == {"a", "b"}
    ensures Ordered(orders.Keys) == ["a", "b"]
  {
    assert Below("a", "b");
    OrderIsUnique(Ordered(orders.Keys), ["a", "b"]);
  }

  ghost function BothSaved(config: Config, o: SaveOrderInput): Db {
    Step(config, Step(config, Db(map[], map[], map[]), SaveOrder(o.(id := "b"), 0)).0, SaveOrder(o.(id := "a"), 1)).0
  }

  /** In `db` both rows are active, and a scan lists them in either order. */
  ghost predicate ListsBoth(config: Config, db: Db, terminal: seq<string>, a: OrderView, b: OrderView) {
    && db.orders.Keys == {"a", "b"} && a.row.id == "a" && b.row.id == "b"
    && ReplyActive(config, db.orders, terminal, ["b", "a"]) == GotActive([b, a])
    && ReplyActive(config, db.orders, terminal, Ordered(db.orders.Keys)) == GotActive([a, b])
  }

  lemma BothListed(config: Config, o: SaveOrderInput, terminal: seq<string>)
    requires o.tradeKeys != "" && o.status == None
    ensures var orders := BothSaved(config, o).orders;
            orders.Keys == {"a", "b"} && ListsBoth(config, BothSaved(config, o), terminal, orders["a"], orders["b"])
  {
    var orders := BothSaved(config, o).orders;
    assert orders.Keys == {"a", "b"};
    BothRows(config, o);
    KeysOfTwo(orders);
    TwoListed(config, orders, terminal, "b", "a");
    TwoListed(config, orders, terminal, "a", "b");
  }

  lemma BothRows(config: Config, o: SaveOrderInput)
    requires o.tradeKeys != "" && o.status == None
    ensures var orders := BothSaved(config, o).orders;
            && "a" in orders && orders["a"].row.id == "a" && orders["a"].row.status == None
            && orders["a"].tradeKeys.Text? && orders["a"].chatKey == Absent
            && "b" in orders && orders["b"].row.id == "b" && orders["b"].row.status == None
            && orders["b"].tradeKeys.Text? && orders["b"].chatKey == Absent
  {
  }

  method SaveBothInSql(config: Config, o: SaveOrderInput) returns (s: SqliteStore)
    requires Lawful(config)
    ensures fresh(s) && s.Valid() && s.config == config && s.Contents() == BothSaved(config, o)
      && s.orders.keys == ["b", "a"]
  {
    s := new SqliteStore(config);
    var _ := s.SaveOrder(o.(id := "b"), 0);
    var _ := s.SaveOrder(o.(id := "a"), 1);
  }

  method SaveBothInIdb(config: Config, o: SaveOrderInput) returns (s: IdbStore)
    requires Lawful(config)
    ensures fresh(s) && s.Valid() && s.config == config && s.Contents() == BothSaved(config, o)
  {
    s := new IdbStore(config);
    var _ := s.SaveOrder(o.(id := "b"), 0);
    var _ := s.SaveOrder(o.(id := "a"), 1);
  }

  method SaveBoth(config: Config, o: SaveOrderInput, ghost terminal: seq<string>)
    returns (sqlite: SqliteStore, idb: IdbStore, ghost a: OrderView, ghost b: OrderView)
    requires Lawful(config) && o.tradeKeys != "" && o.status == None
    ensures sqlite.Valid() && sqlite.config == config && sqlite.orders.keys == ["b", "a"]
    ensures idb.Valid() && idb.config == config && sqlite.Contents() == idb.Contents()
    ensures ListsBoth(config, idb.Contents(), terminal, a, b)
  {
    sqlite := SaveBothInSql(config, o);
    idb := SaveBothInIdb(config, o);
    BothListed(config, o, terminal);
    a, b := idb.Contents().orders["a"], idb.Contents().orders["b"];
  }

  method ListSql(s: SqliteStore, terminal: seq<string>, ghost a: OrderView, ghost b: OrderView) returns (reply: Reply)
    requires s.Valid() && s.orders.keys == ["b", "a"] && ListsBoth(s.config, s.Contents(), terminal, a, b)
    ensures reply == GotActive([b, a])
  {
    reply := s.GetActiveOrders(terminal);
  }

  method ListIdb(s: IdbStore, terminal: seq<string>, ghost a: OrderView, ghost b: OrderView) returns (reply: Reply)
    requires s.Valid() && ListsBoth(s.config, s.Contents(), terminal, a, b)
    ensures reply == GotActive([a, b])
  {
    reply := s.GetActiveOrders(terminal);
  }

  /** Two orders saved against the order of their ids: the stores hold the same, and list them in two orders. */
  method ListsDiffer(config: Config, o: SaveOrderInput, terminal: seq<string>)
    returns (sqlite: SqliteStore, idb: IdbStore, left: Reply, right: Reply)
    requires Lawful(config) && o.tradeKeys != "" && o.status == None
    ensures sqlite.Valid() && idb.Valid() && sqlite.Contents() == idb.Contents()
    ensures exists a: OrderView, b: OrderView | a.row.id == "a" && b.row.id == "b" ::
              left == GotActive([b, a]) && right == GotActive([a, b])
  {
    ghost var a, b;
    sqlite, idb, a, b := SaveBoth(config, o, terminal);
    left := ListSql(sqlite, terminal, a, b);
    right := ListIdb(idb, terminal, a, b);
  }

  /** On one identity the two upserts write the same row exactly when no index is lost to a null. */
  lemma UpsertsAgree(users: map<string, UserRow>, user: UserRow)
    requires OneIdentity(users) && forall id | id in users :: id == user.i0Pubkey
    ensures UpsertedUsers(users, user) == users[user.i0Pubkey := MergedRow(TheUser(users), user)]
      <==> (users == map[]
            || (user.lastTradeIndex.Some?
                && (users[user.i0Pubkey].lastTradeIndex.Some? || user.lastTradeIndex.value >= 0)))
  {
  }

  /** The IndexedDB upsert loses the stored index exactly when it is given none and the stored one is positive. */
  lemma NullUpsertLosesIndex(existing: UserRow, user: UserRow)
    requires existing.lastTradeIndex.GetOr(0) >= 0 && user.lastTradeIndex.GetOr(0) >= 0
    ensures existing.lastTradeIndex.GetOr(0) <= MergedRow(Some(existing), user).lastTradeIndex.GetOr(0)
      <==> (user.lastTradeIndex.Some? || existing.lastTradeIndex.GetOr(0) == 0)
  {
  }

  /** A reservation after such an upsert is above the index stored before it exactly when an index was given, or the
      base for a missing one reaches the stored one. */
  method UpsertThenReserve(s: IdbStore, user: UserRow, noneBase: nat) returns (index: int)
    requires s.Valid() && OneIdentity(s.users) && user.i0Pubkey in s.users
    modifies s
    ensures s.Valid() && OneIdentity(s.users) && user.i0Pubkey in s.users
    ensures index == MergedRow(Some(old(s.users)[user.i0Pubkey]), user).lastTradeIndex.GetOr(noneBase) + 1
    ensures s.users[user.i0Pubkey].lastTradeIndex == Some(index)
    ensures var stored := old(s.users)[user.i0Pubkey].lastTradeIndex;
            stored.Some? ==> (index > stored.value <==> user.lastTradeIndex.Some? || noneBase >= stored.value)
  {
    var id := user.i0Pubkey;
    TheUserIs(s.users, id);
    ghost var row := MergedRow(Some(s.users[id]), user);
    s.UpsertUser(user);
    assert s.users == map[id := row];
    TheUserIs(s.users, id);
    index := s.ReserveNextTradeIndex(noneBase, id, 0);
  }

  /** So on a new store an upsert without an index makes a reservation repeat an old one. */
  method NullUpsertRepeatsIndex(config: Config) returns (first: int, second: int)
    requires Lawful(config)
    ensures second == 2 < 8 == first
  {
    var s := new IdbStore(config);
    s.UpsertUser(UserRow("id", Some(7), 0));
    first := UpsertThenReserve(s, UserRow("id", Some(7), 0), 1);
    second := UpsertThenReserve(s, UserRow("id", None, 0), 1);
  }

  /** Two SQL reservations in a row give different indices exactly when the user row exists. */
  method ReserveTwice(s: SqliteStore, noneBase: nat) returns (first: int, second: int)
    requires s.Valid() && Sound(s.Contents())
    modifies s
    ensures first != second <==> old(s.users) != map[]
  {
    ghost var before := s.Contents();
    first := s.ReserveNextTradeIndex(noneBase, "", 0);
    if before.users != map[] {
      StepKeepsSound(s.config, before, Reserve(noneBase, "", 0));
      var id :| id in before.users;
      TheUserIs(before.users, id);
      TheUserIs(s.users, id);
    }
    second := s.ReserveNextTradeIndex(noneBase, "", 0);
  }

  /** An order saved without trade keys under an encryptor can never be read again. */
  lemma EmptyKeysBecomeUnreadable(config: Config, db: Db, o: SaveOrderInput, nonce: nat)
    ensures Step(config, Step(config, db, SaveOrder(o, nonce)).0, GetOrder(o.id)).1 == Failed
      <==> (config.encryptor.Some? && o.tradeKeys == "") || (o.id in db.orders && db.orders[o.id].chatKey == Unreadable)
  {
  }

  // --- trade-key freshness ---

  /** What touches the index of one identity; RestoreIndex carries every index a restore reports. */
  datatype IndexOp = ReserveIndex(noneBase: nat) | UpsertIndex(index: nat) | RestoreIndex(reported: seq<nat>,
    daemon: int)

  function Highest(reported: seq<nat>): nat {
    if reported == [] then 0
    else
      var rest := Highest(reported[..|reported| - 1]);
      if reported[|reported| - 1] > rest then reported[|reported| - 1] else rest
  }

  function EffectiveLast(reported: seq<nat>, daemon: int): nat {
    if Highest(reported) < daemon then daemon else Highest(reported)
  }

  function IndexStep(last: Option<nat>, op: IndexOp): Option<nat> {
    match op
    case ReserveIndex(noneBase) => Some(last.GetOr(noneBase) + 1)
    case UpsertIndex(index) => Some(if last.GetOr(0) < index then index else last.GetOr(0))
    case RestoreIndex(reported, daemon) =>
      if EffectiveLast(reported, daemon) > last.GetOr(0) then Some(EffectiveLast(reported, daemon)) else last
  }

  function IndexAfter(last: Option<nat>, ops: seq<IndexOp>): Option<nat> {
    if ops == [] then last else IndexStep(IndexAfter(last, ops[..|ops| - 1]), ops[|ops| - 1])
  }

  ghost function StoredIndex(db: Db, id: string): Option<int>
    requires id in db.users
  {
    db.users[id].lastTradeIndex
  }

  /** On the one identity's row, reservations and upserts of the store are index steps. */
  lemma CallsAreIndexSteps(config: Config, db: Db, id: string, user: UserRow, noneBase: nat, now: int)
    requires Sound(db) && id in db.users
    requires user.i0Pubkey == id && user.lastTradeIndex.Some? && user.lastTradeIndex.value >= 0
    ensures var last: Option<nat> := StoredIndex(db, id);
            var (upserted, _) := Step(config, db, UpsertUser(user));
            var (after, reply) := Step(config, db, Reserve(noneBase, id, now));
            && id in upserted.users
              && StoredIndex(upserted, id) == IndexStep(last, UpsertIndex(user.lastTradeIndex.value))
            && id in after.users && StoredIndex(after, id) == IndexStep(last, ReserveIndex(noneBase))
            && reply == Reserved(IndexStep(last, ReserveIndex(noneBase)).value)
  {
  }

  /** The index never goes down. */
  lemma {:induction false} IndexNeverDrops(last: Option<nat>, ops: seq<IndexOp>, i: nat)
    requires i <= |ops|
    ensures IndexAfter(last, ops[..i]).GetOr(0) <= IndexAfter(last, ops).GetOr(0)
    ensures IndexAfter(last, ops[..i]).Some? ==> IndexAfter(last, ops).Some?
  {
    if i < |ops| {
      var shorter := ops[..|ops| - 1];
      IndexNeverDrops(last, shorter, i);
      assert shorter[..i] == ops[..i];
    } else {
      assert ops[..i] == ops;
    }
  }

  ghost function ReservedAt(last: Option<nat>, ops: seq<IndexOp>, k: nat): nat
    requires k < |ops| && ops[k].ReserveIndex?
  {
    IndexAfter(last, ops[..k]).GetOr(ops[k].noneBase) + 1
  }

  lemma {:induction false} HighestCovers(reported: seq<nat>, k: nat)
    requires k < |reported|
    ensures reported[k] <= Highest(reported)
  {
    if k < |reported| - 1 {
      HighestCovers(reported[..|reported| - 1], k);
    }
  }

  /** A reserved index is at least 1, above every index reserved before it,
      and above every index an earlier restore reported. */
  lemma {:induction false} ReservationIsFresh(last: Option<nat>, ops: seq<IndexOp>, i: nat, j: nat)
    requires i < j < |ops| && ops[j].ReserveIndex?
    ensures ReservedAt(last, ops, j) >= 1
    ensures ops[i].ReserveIndex? ==> ReservedAt(last, ops, i) < ReservedAt(last, ops, j)
    ensures ops[i].UpsertIndex? ==> ops[i].index < ReservedAt(last, ops, j)
    ensures ops[i].RestoreIndex? ==>
      ops[i].daemon < ReservedAt(last, ops, j)
        && forall k | 0 <= k < |ops[i].reported| :: ops[i].reported[k] < ReservedAt(last, ops, j)
  {
    assert ops[..j][..i + 1] == ops[..i + 1];
    assert ops[..i + 1][..i] == ops[..i];
    IndexNeverDrops(last, ops[..j], i + 1);
    if ops[i].RestoreIndex? {
      forall k | 0 <= k < |ops[i].reported|
        ensures ops[i].reported[k] <= Highest(ops[i].reported)
      {
        HighestCovers(ops[i].reported, k);
      }
    }
  }
}
