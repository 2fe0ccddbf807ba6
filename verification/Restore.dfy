/** Rebuilding the local orders from the daemon's account of a session. */
module Restore {
  import opened Wrappers
  import opened Messages
  import opened StateMachine
  import opened Store
  import opened Handles
  import Applicator
  import Backends
  import opened J = Json
  import MessageCodec
  import Wire

  /** The keys a seed yields: the identity's public key, trade secrets by index, chat secrets by peer. */
  datatype Seed = Seed(identity: string, secretAt: Number -> string, chatSecret: (string, string) -> string)

  datatype Summary = Summary(
    restored: nat, alreadyKnown: nat, missingDetails: nat, roleUnknown: nat, disputes: nat, disputeStatusFailed: nat)

  // --- the index ---

  function ToIndex(n: Number): (index: nat)
    requires IsIndex(n)
    ensures index as real == n
  {
    n.Floor
  }

  predicate Indexed(orders: seq<RestoredOrder>, disputes: seq<RestoredDispute>) {
    && (forall k | 0 <= k < |orders| :: IsIndex(orders[k].tradeIndex))
    && forall k | 0 <= k < |disputes| :: IsIndex(disputes[k].tradeIndex)
  }

  function Indices(numbers: seq<Number>): (indices: seq<nat>)
    requires forall k | 0 <= k < |numbers| :: IsIndex(numbers[k])
    ensures |indices| == |numbers| && forall k | 0 <= k < |numbers| :: indices[k] as real == numbers[k]
  {
    seq(|numbers|, k requires 0 <= k < |numbers| => ToIndex(numbers[k]))
  }

  function OrderNumbers(orders: seq<RestoredOrder>): (numbers: seq<Number>)
    ensures |numbers| == |orders| && forall k | 0 <= k < |orders| :: numbers[k] == orders[k].tradeIndex
  {
    seq(|orders|, k requires 0 <= k < |orders| => orders[k].tradeIndex)
  }

  function DisputeNumbers(disputes: seq<RestoredDispute>): (numbers: seq<Number>)
    ensures |numbers| == |disputes| && forall k | 0 <= k < |disputes| :: numbers[k] == disputes[k].tradeIndex
  {
    seq(|disputes|, k requires 0 <= k < |disputes| => disputes[k].tradeIndex)
  }

  /** Restore data that came through the message decoder has proper indices. */
  lemma DecodedIsIndexed(m: Message, orders: seq<RestoredOrder>, disputes: seq<RestoredDispute>)
    requires MessageCodec.WellFormed(m) && m.kind.payload == Some(RestoreData(orders, disputes))
    ensures Indexed(orders, disputes)
  {
    MessageCodec.WellFormedRestore(m);
    GoodIsIndexed(orders, disputes);
  }

  lemma GoodIsIndexed(orders: seq<RestoredOrder>, disputes: seq<RestoredDispute>)
    requires Wire.GoodRestore(orders, disputes)
    ensures Indexed(orders, disputes)
  {
    forall k | 0 <= k < |orders|
      ensures IsIndex(orders[k].tradeIndex)
    {
      assert orders[k] in orders;
    }
    forall k | 0 <= k < |disputes|
      ensures IsIndex(disputes[k].tradeIndex)
    {
      assert disputes[k] in disputes;
    }
  }

  /** Every index a restore reports: the orders' and then the disputes'. */
  function Reported(orders: seq<RestoredOrder>, disputes: seq<RestoredDispute>): seq<nat>
    requires Indexed(orders, disputes)
  {
    Indices(OrderNumbers(orders)) + Indices(DisputeNumbers(disputes))
  }

  lemma HighestOfOneMore(reported: seq<nat>, k: nat)
    requires k < |reported|
    ensures Backends.Highest(reported[..k + 1])
         == if reported[k] > Backends.Highest(reported[..k]) then reported[k] else Backends.Highest(reported[..k])
  {
    assert reported[..k + 1][..k] == reported[..k];
  }

  lemma HighestOfOneMoreAfter(first: seq<nat>, second: seq<nat>, k: nat)
    requires k < |second|
    ensures Backends.Highest(first + second[..k + 1])
         == if second[k] > Backends.Highest(first + second[..k]) then second[k]
           else Backends.Highest(first + second[..k])
  {
    assert (first + second)[..|first| + k] == first + second[..k];
    assert (first + second)[..|first| + k + 1] == first + second[..k + 1];
    HighestOfOneMore(first + second, |first| + k);
  }

  method HighestReported(orders: seq<RestoredOrder>, disputes: seq<RestoredDispute>) returns (highest: nat)
    requires Indexed(orders, disputes)
    ensures highest == Backends.Highest(Reported(orders, disputes))
  {
    highest := HighestOrder(orders, Indices(OrderNumbers(orders)));
    highest := HighestDispute(highest, disputes, Indices(OrderNumbers(orders)), Indices(DisputeNumbers(disputes)));
  }

  method HighestDispute(
    soFar: nat, disputes: seq<RestoredDispute>, ghost first: seq<nat>, ghost second: seq<nat>) returns (highest: nat)
    requires forall k | 0 <= k < |disputes| :: IsIndex(disputes[k].tradeIndex)
    requires |second| == |disputes| && forall k | 0 <= k < |disputes| :: second[k] as real == disputes[k].tradeIndex
    requires soFar == Backends.Highest(first)
    ensures highest == Backends.Highest(first + second)
  {
    highest := soFar;
    assert first + second[..0] == first;
    for k := 0 to |disputes|
      invariant highest == Backends.Highest(first + second[..k])
    {
      HighestOfOneMoreAfter(first, second, k);
      if disputes[k].tradeIndex > highest as real { highest := ToIndex(disputes[k].tradeIndex); }
    }
    assert second[..|second|] == second;
  }

  method HighestOrder(orders: seq<RestoredOrder>, ghost indices: seq<nat>) returns (highest: nat)
    requires forall k | 0 <= k < |orders| :: IsIndex(orders[k].tradeIndex)
    requires |indices| == |orders| && forall k | 0 <= k < |orders| :: indices[k] as real == orders[k].tradeIndex
    ensures highest == Backends.Highest(indices)
  {
    highest := 0;
    for k := 0 to |orders|
      invariant highest == Backends.Highest(indices[..k])
    {
      HighestOfOneMore(indices, k);
      if orders[k].tradeIndex > highest as real { highest := ToIndex(orders[k].tradeIndex); }
    }
    assert indices[..|indices|] == indices;
  }

  /** The index moves before any row is written; on the identity's own row it is one step of the index. */
  method AdvanceIndex(
    store: Handle, seed: Seed, orders: seq<RestoredOrder>, disputes: seq<RestoredDispute>, daemon: int, now: int)
    requires store.Valid() && Indexed(orders, disputes)
    modifies store.Objects()
    ensures store.Valid() && store.Contents() == old(store.Contents()).(users := store.Contents().users)
    ensures Sound(old(store.Contents())) && seed.identity in old(store.Contents()).users ==>
      && Sound(store.Contents()) && seed.identity in store.Contents().users
      && var last: Option<nat> := Backends.StoredIndex(old(store.Contents()), seed.identity);
         Backends.StoredIndex(store.Contents(), seed.identity)
         == Backends.IndexStep(last, Backends.RestoreIndex(Reported(orders, disputes), daemon))
  {
    var restoreMax := HighestReported(orders, disputes);
    var effectiveLast := Max(restoreMax, daemon);
    assert effectiveLast == Backends.EffectiveLast(Reported(orders, disputes), daemon);
    ghost var before := store.Contents();
    var user := store.GetUser();
    if Sound(before) && seed.identity in before.users {
      TheUserIs(before.users, seed.identity);
    }
    var currentLast := if user.Some? then user.value.lastTradeIndex.GetOr(0) else 0;
    if effectiveLast > currentLast {
      var row := UserRow(seed.identity, Some(effectiveLast), if user.Some? then user.value.createdAt else now);
      if Sound(before) && seed.identity in before.users {
        StepKeepsSound(store.OpenedWith(), before, UpsertUser(row));
      }
      store.UpsertUser(row);
    }
  }

  // --- the rows ---

  /** A row or a failed read: the rows written so far stay. */
  datatype Progress = Progress(db: Db, failed: bool)

  predicate IsMine(info: RestoredOrder) {
    info.status == "pending" || info.status == "waiting-maker-bond"
  }

  function Skeleton(seed: Seed, info: RestoredOrder): SaveOrderInput {
    SaveOrderInput(info.orderId, None, Some(info.status), 0.0, "", None, None, 0.0, "", 0.0,
      seed.secretAt(info.tradeIndex),
                   None, IsMine(info), None, None, info.tradeIndex, None, None)
  }

  /** Known with real details: such an order only has its status refreshed. */
  predicate Detailed(orders: map<string, OrderView>, id: string) {
    id in orders && orders[id].row.fiatCode != ""
  }

  ghost function OrderRestored(config: Config, db: Db, seed: Seed, info: RestoredOrder): Db {
    if Detailed(db.orders, info.orderId) then Step(config, db, UpdateOrderStatus(info.orderId, info.status)).0
    else Step(config, db, SaveOrder(Skeleton(seed, info), 0)).0
  }

  /** One entry: an unreadable row stops the restore. */
  ghost function OrderTried(config: Config, db: Db, seed: Seed, info: RestoredOrder): Progress {
    if Applicator.Blocked(db, info.orderId) then Progress(db, true)
      else Progress(OrderRestored(config, db, seed, info), false)
  }

  ghost function OrdersRestored(config: Config, db: Db, seed: Seed, orders: seq<RestoredOrder>): Progress {
    if orders == [] then Progress(db, false)
    else
      var before, info := OrdersRestored(config, db, seed, orders[..|orders| - 1]), orders[|orders| - 1];
      if before.failed then before else OrderTried(config, before.db, seed, info)
  }

  ghost function DisputeRestored(config: Config, db: Db, seed: Seed, dispute: RestoredDispute): Db {
    var id := dispute.orderId;
    var marked := Step(config, db, UpdateOrderStatus(id, "dispute")).0;
    var named := Step(config, marked, UpdateDisputeId(id, dispute.disputeId)).0;
    if dispute.solverPubkey.GetOr("") == "" then named
    else
      var solver := dispute.solverPubkey.value;
      Step(config, named, UpdateSolverChat(id, solver, seed.chatSecret(seed.secretAt(dispute.tradeIndex), solver), 0)).0
  }

  /** One entry: a dispute without a stored order is passed over. */
  ghost function DisputeTried(config: Config, db: Db, seed: Seed, dispute: RestoredDispute): Progress {
    if Applicator.Blocked(db, dispute.orderId) then Progress(db, true)
    else if dispute.orderId !in db.orders then Progress(db, false)
    else Progress(DisputeRestored(config, db, seed, dispute), false)
  }

  ghost function DisputesRestored(config: Config, db: Db, seed: Seed, disputes: seq<RestoredDispute>): Progress {
    if disputes == [] then Progress(db, false)
    else
      var before, dispute := DisputesRestored(config, db, seed, disputes[..|disputes| - 1]), disputes[|disputes| - 1];
      if before.failed then before else DisputeTried(config, before.db, seed, dispute)
  }

  ghost function Restored(
    config: Config, db: Db, seed: Seed, orders: seq<RestoredOrder>, disputes: seq<RestoredDispute>): Progress {
    var first := OrdersRestored(config, db, seed, orders);
    if first.failed then first else DisputesRestored(config, first.db, seed, disputes)
  }

  method RestoreOrder(
    store: Handle, seed: Seed, info: RestoredOrder, nonce: nat, summary: Summary) returns (next: Option<Summary>)
    requires store.Valid()
    modifies store.Objects()
    ensures store.Valid() && store.Contents().users == old(store.Contents()).users
    ensures Progress(store.Contents(), next.None?) == OrderTried(store.OpenedWith(), old(store.Contents()), seed, info)
    ensures next.Some? ==>
      next.value == if Detailed(old(store.Contents()).orders, info.orderId)
        then summary.(alreadyKnown := summary.alreadyKnown + 1)
                       else summary.(restored := summary.restored + 1, missingDetails := summary.missingDetails + 1,
                                     roleUnknown := summary.roleUnknown + if IsMine(info) then 0 else 1)
  {
    var reply := store.GetOrder(info.orderId);
    if reply == Failed {
      return None;
    }
    if reply.order.Some? && reply.order.value.row.fiatCode != "" {
      store.UpdateOrderStatus(info.orderId, info.status);
      return Some(summary.(alreadyKnown := summary.alreadyKnown + 1));
    }
    SaveSkeleton(store, seed, info, nonce);
    return Some(summary.(restored := summary.restored + 1, missingDetails := summary.missingDetails + 1,
                         roleUnknown := summary.roleUnknown + if IsMine(info) then 0 else 1));
  }

  method SaveSkeleton(store: Handle, seed: Seed, info: RestoredOrder, nonce: nat)
    requires store.Valid() && !Detailed(store.Contents().orders, info.orderId)
    modifies store.Objects()
    ensures store.Valid() && store.Contents() == OrderRestored(store.OpenedWith(), old(store.Contents()), seed, info)
    ensures store.Contents().users == old(store.Contents()).users
  {
    var _ := store.SaveOrder(Skeleton(seed, info), nonce);
  }

  method MarkDisputed(store: Handle, seed: Seed, dispute: RestoredDispute, nonce: nat)
    requires store.Valid()
    modifies store.Objects()
    ensures store.Valid()
      && store.Contents() == DisputeRestored(store.OpenedWith(), old(store.Contents()), seed, dispute)
    ensures store.Contents().users == old(store.Contents()).users
  {
    var id := dispute.orderId;
    store.UpdateOrderStatus(id, "dispute");
    store.UpdateDisputeId(id, dispute.disputeId);
    if dispute.solverPubkey.GetOr("") != "" {
      var solver := dispute.solverPubkey.value;
      store.UpdateSolverChat(id, solver, seed.chatSecret(seed.secretAt(dispute.tradeIndex), solver), nonce);
    }
  }

  method RestoreDispute(
    store: Handle, seed: Seed, dispute: RestoredDispute, nonce: nat, summary: Summary) returns (next: Option<Summary>)
    requires store.Valid()
    modifies store.Objects()
    ensures store.Valid() && store.Contents().users == old(store.Contents()).users
    ensures Progress(store.Contents(), next.None?)
      == DisputeTried(store.OpenedWith(), old(store.Contents()), seed, dispute)
    ensures next.Some? ==>
      next.value == if dispute.orderId in old(store.Contents()).orders then summary
                    else summary.(disputeStatusFailed := summary.disputeStatusFailed + 1)
  {
    var reply := store.GetOrder(dispute.orderId);
    ghost var before := store.Contents();
    if reply == Failed {
      return None;
    }
    if reply.order.None? {
      return Some(summary.(disputeStatusFailed := summary.disputeStatusFailed + 1));
    }
    assert dispute.orderId in before.orders && !Applicator.Blocked(before, dispute.orderId);
    MarkDisputed(store, seed, dispute, nonce);
    return Some(summary);
  }

  /** The orders one after another, up to a failed read. */
  method RestoreOrders(
    store: Handle, seed: Seed, orders: seq<RestoredOrder>, disputes: nat) returns (summary: Option<Summary>)
    requires store.Valid()
    modifies store.Objects()
    ensures store.Valid() && store.Contents().users == old(store.Contents()).users
    ensures Progress(store.Contents(), summary.None?)
      == OrdersRestored(store.OpenedWith(), old(store.Contents()), seed, orders)
    ensures summary.Some? ==>
      && summary.value.restored + summary.value.alreadyKnown == |orders|
      && summary.value.roleUnknown <= summary.value.missingDetails == summary.value.restored
      && summary.value.disputeStatusFailed == 0 && summary.value.disputes == disputes
  {
    ghost var config, start := store.OpenedWith(), store.Contents();
    var sum := Summary(0, 0, 0, 0, disputes, 0);
    for k := 0 to |orders|
      invariant store.Valid() && store.Contents().users == start.users
      invariant Progress(store.Contents(), false) == OrdersRestored(config, start, seed, orders[..k])
      invariant sum.restored + sum.alreadyKnown == k && sum.roleUnknown <= sum.missingDetails == sum.restored
      invariant sum.disputes == disputes && sum.disputeStatusFailed == 0
    {
      assert orders[..k + 1][..k] == orders[..k];
      var next := RestoreOrder(store, seed, orders[k], k, sum);
      if next.None? {
        FailureStays(config, start, seed, orders, k + 1);
        return None;
      }
      sum := next.value;
    }
    assert orders[..|orders|] == orders;
    return Some(sum);
  }

  /** The disputes one after another, up to a failed read. */
  method RestoreDisputes(
    store: Handle, seed: Seed, disputes: seq<RestoredDispute>, orders: Summary) returns (summary: Option<Summary>)
    requires store.Valid() && orders.disputeStatusFailed == 0
    modifies store.Objects()
    ensures store.Valid() && store.Contents().users == old(store.Contents()).users
    ensures Progress(store.Contents(), summary.None?)
      == DisputesRestored(store.OpenedWith(), old(store.Contents()), seed, disputes)
    ensures summary.Some? ==>
      && summary.value == orders.(disputeStatusFailed := summary.value.disputeStatusFailed)
      && summary.value.disputeStatusFailed <= |disputes|
  {
    ghost var config, start := store.OpenedWith(), store.Contents();
    var sum := orders;
    for k := 0 to |disputes|
      invariant store.Valid() && store.Contents().users == start.users
      invariant Progress(store.Contents(), false) == DisputesRestored(config, start, seed, disputes[..k])
      invariant sum == orders.(disputeStatusFailed := sum.disputeStatusFailed) && sum.disputeStatusFailed <= k
    {
      assert disputes[..k + 1][..k] == disputes[..k];
      var next := RestoreDispute(store, seed, disputes[k], k, sum);
      if next.None? {
        DisputeFailureStays(config, start, seed, disputes, k + 1);
        return None;
      }
      sum := next.value;
    }
    assert disputes[..|disputes|] == disputes;
    return Some(sum);
  }

  /** The whole restore; a failed read stops it with the rows and the index written so far. */
  method RestoreSession(
    store: Handle, seed: Seed, orders: seq<RestoredOrder>, disputes: seq<RestoredDispute>, daemon: int, now: int)
    returns (summary: Option<Summary>)
    requires store.Valid() && Indexed(orders, disputes)
    modifies store.Objects()
    ensures store.Valid()
    ensures Sound(old(store.Contents())) && seed.identity in old(store.Contents()).users ==>
      && Sound(store.Contents()) && seed.identity in store.Contents().users
      && var last: Option<nat> := Backends.StoredIndex(old(store.Contents()), seed.identity);
         Backends.StoredIndex(store.Contents(), seed.identity)
         == Backends.IndexStep(last, Backends.RestoreIndex(Reported(orders, disputes), daemon))
    ensures var start := old(store.Contents()).(users := store.Contents().users);
            Progress(store.Contents(), summary.None?) == Restored(store.OpenedWith(), start, seed, orders, disputes)
    ensures summary.Some? ==>
      && summary.value.restored + summary.value.alreadyKnown == |orders|
      && summary.value.roleUnknown <= summary.value.missingDetails == summary.value.restored
      && summary.value.disputeStatusFailed <= summary.value.disputes == |disputes|
  {
    AdvanceIndex(store, seed, orders, disputes, daemon, now);
    summary := RestoreOrders(store, seed, orders, |disputes|);
    if summary.Some? {
      summary := RestoreDisputes(store, seed, disputes, summary.value);
    }
  }

  lemma {:induction false} FailureStays(config: Config, db: Db, seed: Seed, orders: seq<RestoredOrder>, k: nat)
    requires k <= |orders| && OrdersRestored(config, db, seed, orders[..k]).failed
    ensures OrdersRestored(config, db, seed, orders) == OrdersRestored(config, db, seed, orders[..k])
  {
    if k == |orders| {
      assert orders[..k] == orders;
    } else {
      assert orders[..|orders| - 1][..k] == orders[..k];
      FailureStays(config, db, seed, orders[..|orders| - 1], k);
    }
  }

  lemma {:induction false} DisputeFailureStays(
    config: Config, db: Db, seed: Seed, disputes: seq<RestoredDispute>, k: nat)
    requires k <= |disputes| && DisputesRestored(config, db, seed, disputes[..k]).failed
    ensures DisputesRestored(config, db, seed, disputes) == DisputesRestored(config, db, seed, disputes[..k])
  {
    if k == |disputes| {
      assert disputes[..k] == disputes;
    } else {
      assert disputes[..|disputes| - 1][..k] == disputes[..k];
      DisputeFailureStays(config, db, seed, disputes[..|disputes| - 1], k);
    }
  }

  // --- fresh trade keys over whole runs ---

  datatype IndexCall =
    | ReserveCall(noneBase: nat, now: int)
    | UpsertCall(index: nat, createdAt: int)
    | RestoreCall(orders: seq<RestoredOrder>, disputes: seq<RestoredDispute>, daemon: int, now: int)

  ghost predicate ProperCall(c: IndexCall) {
    c.RestoreCall? ==> Indexed(c.orders, c.disputes)
  }

  ghost function OpOf(c: IndexCall): Backends.IndexOp
    requires ProperCall(c)
  {
    match c
    case ReserveCall(noneBase, _) => Backends.ReserveIndex(noneBase)
    case UpsertCall(index, _) => Backends.UpsertIndex(index)
    case RestoreCall(orders, disputes, daemon, _) => Backends.RestoreIndex(Reported(orders, disputes), daemon)
  }

  ghost function OpsOf(calls: seq<IndexCall>): (ops: seq<Backends.IndexOp>)
    requires forall k | 0 <= k < |calls| :: ProperCall(calls[k])
    ensures |ops| == |calls| && forall k | 0 <= k < |calls| :: ops[k] == OpOf(calls[k])
  {
    seq(|calls|, k requires 0 <= k < |calls| => OpOf(calls[k]))
  }

  /** The store holds the identity's row, with a sound index. */
  ghost predicate Holding(store: Handle, identity: string)
    reads store.Objects()
  {
    store.Valid() && Sound(store.Contents()) && identity in store.Contents().users
  }

  ghost function LastIndex(store: Handle, identity: string): Option<nat>
    reads store.Objects()
    requires Holding(store, identity)
  {
    store.Contents().users[identity].lastTradeIndex
  }

  method CallOnce(store: Handle, seed: Seed, c: IndexCall) returns (reserved: Option<int>)
    requires Holding(store, seed.identity) && ProperCall(c)
    modifies store.Objects()
    ensures Holding(store, seed.identity)
    ensures LastIndex(store, seed.identity) == Backends.IndexStep(old(LastIndex(store, seed.identity)), OpOf(c))
    ensures reserved == if c.ReserveCall? then Some(old(LastIndex(store, seed.identity)).GetOr(c.noneBase) + 1)
      else None
  {
    reserved := None;
    match c {
      case ReserveCall(noneBase, now) =>
        var index := ReserveOnce(store, seed.identity, noneBase, now);
        reserved := Some(index);
      case UpsertCall(index, createdAt) =>
        UpsertOnce(store, seed.identity, index, createdAt);
      case RestoreCall(orders, disputes, daemon, now) =>
        var _ := RestoreSession(store, seed, orders, disputes, daemon, now);
    }
  }

  method ReserveOnce(store: Handle, identity: string, noneBase: nat, now: int) returns (index: int)
    requires Holding(store, identity)
    modifies store.Objects()
    ensures Holding(store, identity)
    ensures index == old(LastIndex(store, identity)).GetOr(noneBase) + 1 && LastIndex(store, identity) == Some(index)
  {
    ghost var before := store.Contents();
    TheUserIs(before.users, identity);
    StepKeepsSound(store.OpenedWith(), before, Reserve(noneBase, identity, now));
    index := store.ReserveNextTradeIndex(noneBase, identity, now);
  }

  method UpsertOnce(store: Handle, identity: string, index: nat, createdAt: int)
    requires Holding(store, identity)
    modifies store.Objects()
    ensures Holding(store, identity)
    ensures LastIndex(store, identity)
      == Backends.IndexStep(old(LastIndex(store, identity)), Backends.UpsertIndex(index))
  {
    var row := UserRow(identity, Some(index), createdAt);
    StepKeepsSound(store.OpenedWith(), store.Contents(), UpsertUser(row));
    store.UpsertUser(row);
  }

  /** The index is larger than every order, dispute or daemon index the restore reported. */
  ghost predicate Surpasses(index: int, c: IndexCall)
    requires ProperCall(c) && c.RestoreCall?
  {
    && c.daemon < index
    && (forall k | 0 <= k < |c.orders| :: c.orders[k].tradeIndex < index as real)
    && forall k | 0 <= k < |c.disputes| :: c.disputes[k].tradeIndex < index as real
  }

  lemma ReportedBelow(orders: seq<RestoredOrder>, disputes: seq<RestoredDispute>, index: int)
    requires Indexed(orders, disputes)
    requires var reported := Reported(orders, disputes); forall k | 0 <= k < |reported| :: reported[k] < index
    ensures forall k | 0 <= k < |orders| :: orders[k].tradeIndex < index as real
    ensures forall k | 0 <= k < |disputes| :: disputes[k].tradeIndex < index as real
  {
    var reported := Reported(orders, disputes);
    forall k | 0 <= k < |orders|
      ensures orders[k].tradeIndex < index as real
    {
      assert reported[k] as real == orders[k].tradeIndex;
    }
    forall k | 0 <= k < |disputes|
      ensures disputes[k].tradeIndex < index as real
    {
      assert reported[|orders| + k] as real == disputes[k].tradeIndex;
    }
  }

  method NextIndexCall(
    store: Handle, seed: Seed, calls: seq<IndexCall>, k: nat, ghost last: Option<nat>, ghost ops: seq<Backends.IndexOp>)
    returns (reserved: Option<int>)
    requires Holding(store, seed.identity) && forall j | 0 <= j < |calls| :: ProperCall(calls[j])
    requires k < |calls| && ops == OpsOf(calls)
      && LastIndex(store, seed.identity) == Backends.IndexAfter(last, ops[..k])
    modifies store.Objects()
    ensures Holding(store, seed.identity) && LastIndex(store, seed.identity) == Backends.IndexAfter(last, ops[..k + 1])
    ensures reserved == if calls[k].ReserveCall? then Some(Backends.ReservedAt(last, ops, k)) else None
  {
    assert ops[..k + 1][..k] == ops[..k];
    reserved := CallOnce(store, seed, calls[k]);
  }

  /** The reservations so far gave what the index steps before them give. */
  ghost predicate AsStepped(
    last: Option<nat>, calls: seq<IndexCall>, ops: seq<Backends.IndexOp>, reserved: seq<Option<int>>)
    requires forall k | 0 <= k < |calls| :: ProperCall(calls[k])
    requires ops == OpsOf(calls)
  {
    && |reserved| <= |calls|
    && forall j | 0 <= j < |reserved| && calls[j].ReserveCall? :: reserved[j] == Some(Backends.ReservedAt(last, ops, j))
  }

  lemma AsSteppedGrows(
    last: Option<nat>, calls: seq<IndexCall>, ops: seq<Backends.IndexOp>, reserved: seq<Option<int>>, r: Option<int>)
    requires forall k | 0 <= k < |calls| :: ProperCall(calls[k])
    requires ops == OpsOf(calls) && AsStepped(last, calls, ops, reserved) && |reserved| < |calls|
    requires calls[|reserved|].ReserveCall? ==> r == Some(Backends.ReservedAt(last, ops, |reserved|))
    ensures AsStepped(last, calls, ops, reserved + [r])
  {
  }

  method ReserveAll(
    store: Handle, seed: Seed, calls: seq<IndexCall>, ghost last: Option<nat>, ghost ops: seq<Backends.IndexOp>)
    returns (reserved: seq<Option<int>>)
    requires Holding(store, seed.identity) && forall k | 0 <= k < |calls| :: ProperCall(calls[k])
    requires ops == OpsOf(calls) && last == LastIndex(store, seed.identity)
    modifies store.Objects()
    ensures Holding(store, seed.identity) && |reserved| == |calls| && AsStepped(last, calls, ops, reserved)
  {
    reserved := [];
    for k := 0 to |calls|
      invariant Holding(store, seed.identity) && |reserved| == k
      invariant LastIndex(store, seed.identity) == Backends.IndexAfter(last, ops[..k])
      invariant AsStepped(last, calls, ops, reserved)
    {
      var r := NextIndexCall(store, seed, calls, k, last, ops);
      AsSteppedGrows(last, calls, ops, reserved, r);
      reserved := reserved + [r];
    }
  }

  /** In every run of reservations, upserts and restores a reserved index is at least 1, larger than every index
      reserved before it, and larger than every index an earlier restore reported. */
  method RunIndexCalls(store: Handle, seed: Seed, calls: seq<IndexCall>) returns (reserved: seq<Option<int>>)
    requires Holding(store, seed.identity) && forall k | 0 <= k < |calls| :: ProperCall(calls[k])
    modifies store.Objects()
    ensures Holding(store, seed.identity) && |reserved| == |calls|
    ensures forall j | 0 <= j < |calls| && calls[j].ReserveCall? :: reserved[j].Some? && reserved[j].value >= 1
    ensures forall i, j | 0 <= i < j < |calls| && calls[i].ReserveCall? && calls[j].ReserveCall? ::
              reserved[i].value < reserved[j].value
    ensures forall i, j | 0 <= i < j < |calls| && calls[i].RestoreCall? && calls[j].ReserveCall? ::
              Surpasses(reserved[j].value, calls[i])
  {
    ghost var last, ops := LastIndex(store, seed.identity), OpsOf(calls);
    reserved := ReserveAll(store, seed, calls, last, ops);
    FreshOverRun(last, calls, ops, reserved);
  }

  lemma FreshOverRun(last: Option<nat>, calls: seq<IndexCall>, ops: seq<Backends.IndexOp>, reserved: seq<Option<int>>)
    requires forall k | 0 <= k < |calls| :: ProperCall(calls[k])
    requires ops == OpsOf(calls) && |reserved| == |calls| && AsStepped(last, calls, ops, reserved)
    ensures forall j | 0 <= j < |calls| && calls[j].ReserveCall? :: reserved[j].Some? && reserved[j].value >= 1
    ensures forall i, j | 0 <= i < j < |calls| && calls[i].ReserveCall? && calls[j].ReserveCall? ::
              reserved[i].value < reserved[j].value
    ensures forall i, j | 0 <= i < j < |calls| && calls[i].RestoreCall? && calls[j].ReserveCall? ::
              Surpasses(reserved[j].value, calls[i])
  {
    forall i, j | 0 <= i < j < |calls| && calls[i].ReserveCall? && calls[j].ReserveCall?
      ensures reserved[i].value < reserved[j].value
    {
      Backends.ReservationIsFresh(last, ops, i, j);
    }
    forall i, j | 0 <= i < j < |calls| && calls[i].RestoreCall? && calls[j].ReserveCall?
      ensures Surpasses(reserved[j].value, calls[i])
    {
      Backends.ReservationIsFresh(last, ops, i, j);
      ReportedBelow(calls[i].orders, calls[i].disputes, Backends.ReservedAt(last, ops, j));
    }
  }

  // --- what a restore leaves in each row ---

  /** The status the last entry for an order reports. */
  function LastStatus(orders: seq<RestoredOrder>, id: string): Option<string> {
    if orders == [] then None
    else if orders[|orders| - 1].orderId == id then Some(orders[|orders| - 1].status)
    else LastStatus(orders[..|orders| - 1], id)
  }

  predicate Disputed(disputes: seq<RestoredDispute>, id: string) {
    exists k :: 0 <= k < |disputes| && disputes[k].orderId == id
  }

  function StatusText(orders: map<string, OrderView>, id: string): Option<string> {
    if id in orders then orders[id].row.status else None
  }

  lemma {:induction false} OrdersLeave(config: Config, db: Db, seed: Seed, orders: seq<RestoredOrder>, id: string)
    requires !OrdersRestored(config, db, seed, orders).failed
    ensures var after := OrdersRestored(config, db, seed, orders).db.orders;
            && (id in after <==> id in db.orders || LastStatus(orders, id).Some?)
            && StatusText(after, id)
              == (if LastStatus(orders, id).Some? then LastStatus(orders, id) else StatusText(db.orders, id))
            && (LastStatus(orders, id).None? && id in db.orders ==> after[id] == db.orders[id])
            && (Detailed(db.orders, id)
              ==> after[id] == db.orders[id].(row := db.orders[id].row.(status := StatusText(after, id))))
            && (LastStatus(orders, id).Some? && !Detailed(db.orders, id) ==> after[id].row.fiatCode == "")
  {
    if orders != [] {
      OrdersLeave(config, db, seed, orders[..|orders| - 1], id);
    }
  }

  lemma DisputedGrows(disputes: seq<RestoredDispute>, id: string)
    requires disputes != []
    ensures Disputed(disputes, id)
      <==> Disputed(disputes[..|disputes| - 1], id) || disputes[|disputes| - 1].orderId == id
  {
  }

  /** A dispute changes one row: its status and dispute, and with a solver the solver and the chat key. */
  lemma OneRowDisputed(config: Config, db: Db, seed: Seed, dispute: RestoredDispute)
    requires dispute.orderId in db.orders
    ensures var after, v := DisputeRestored(config, db, seed, dispute).orders, db.orders[dispute.orderId];
            && dispute.orderId in after
            && after == db.orders[dispute.orderId := after[dispute.orderId]]
            && after[dispute.orderId].row.status == Some("dispute")
            && after[dispute.orderId].tradeKeys == v.tradeKeys
            && (v.chatKey != Unreadable ==> after[dispute.orderId].chatKey != Unreadable)
  {
    var id := dispute.orderId;
    var marked := Step(config, db, UpdateOrderStatus(id, "dispute")).0;
    assert marked.orders == db.orders[id := marked.orders[id]];
    var named := Step(config, marked, UpdateDisputeId(id, dispute.disputeId)).0;
    assert named.orders == db.orders[id := named.orders[id]];
  }

  lemma OneDisputeLeaves(config: Config, db: Db, seed: Seed, dispute: RestoredDispute, id: string)
    requires dispute.orderId in db.orders
    ensures var after := DisputeRestored(config, db, seed, dispute).orders;
            && after.Keys == db.orders.Keys
            && StatusText(after, id) == (if id == dispute.orderId then Some("dispute") else StatusText(db.orders, id))
            && (id in db.orders && id != dispute.orderId ==> after[id] == db.orders[id])
  {
    OneRowDisputed(config, db, seed, dispute);
  }

  lemma {:induction false} DisputesLeave(config: Config, db: Db, seed: Seed, disputes: seq<RestoredDispute>, id: string)
    requires !DisputesRestored(config, db, seed, disputes).failed
    ensures var after := DisputesRestored(config, db, seed, disputes).db.orders;
            && after.Keys == db.orders.Keys
            && StatusText(after, id)
              == (if id in db.orders && Disputed(disputes, id) then Some("dispute") else StatusText(db.orders, id))
            && (!Disputed(disputes, id) && id in db.orders ==> after[id] == db.orders[id])
  {
    if disputes != [] {
      var rest, last := disputes[..|disputes| - 1], disputes[|disputes| - 1];
      DisputesLeave(config, db, seed, rest, id);
      DisputedGrows(disputes, id);
      var before := DisputesRestored(config, db, seed, rest).db;
      if last.orderId in before.orders {
        OneDisputeLeaves(config, before, seed, last, id);
      }
    }
  }

  /** What the daemon reports last is what is stored, a dispute prevails, and orders it does not name are untouched. */
  lemma RestoreLeaves(
    config: Config, db: Db, seed: Seed, orders: seq<RestoredOrder>, disputes: seq<RestoredDispute>, id: string)
    requires !Restored(config, db, seed, orders, disputes).failed
    ensures var after := Restored(config, db, seed, orders, disputes).db.orders;
            && (id in after <==> id in db.orders || LastStatus(orders, id).Some?)
            && StatusText(after, id)
               == (if id !in after then None
                   else if Disputed(disputes, id) then Some("dispute")
                   else if LastStatus(orders, id).Some? then LastStatus(orders, id)
                   else StatusText(db.orders, id))
            && (id in db.orders && LastStatus(orders, id).None? && !Disputed(disputes, id)
              ==> after[id] == db.orders[id])
  {
    OrdersLeave(config, db, seed, orders, id);
    DisputesLeave(config, OrdersRestored(config, db, seed, orders).db, seed, disputes, id);
  }

  ghost predicate AllReadable(db: Db) {
    forall id | id in db.orders :: Readable(db.orders[id])
  }

  /** With readable rows and non-empty trade secrets a restore runs to its end and leaves every row readable. */
  lemma RestoreCompletes(config: Config, db: Db, seed: Seed, orders: seq<RestoredOrder>, disputes: seq<RestoredDispute>)
    requires AllReadable(db) && forall n :: seed.secretAt(n) != ""
    ensures !Restored(config, db, seed, orders, disputes).failed
    ensures AllReadable(Restored(config, db, seed, orders, disputes).db)
  {
    OrdersComplete(config, db, seed, orders);
    DisputesComplete(config, OrdersRestored(config, db, seed, orders).db, seed, disputes);
  }

  lemma {:induction false} OrdersComplete(config: Config, db: Db, seed: Seed, orders: seq<RestoredOrder>)
    requires AllReadable(db) && forall n :: seed.secretAt(n) != ""
    ensures !OrdersRestored(config, db, seed, orders).failed && AllReadable(OrdersRestored(config, db, seed, orders).db)
  {
    if orders != [] {
      OrdersComplete(config, db, seed, orders[..|orders| - 1]);
      var info := orders[|orders| - 1];
      assert seed.secretAt(info.tradeIndex) != "";
    }
  }

  lemma DisputeStaysReadable(config: Config, db: Db, seed: Seed, dispute: RestoredDispute)
    requires AllReadable(db) && dispute.orderId in db.orders
    ensures AllReadable(DisputeRestored(config, db, seed, dispute))
  {
    OneRowDisputed(config, db, seed, dispute);
  }

  lemma {:induction false} DisputesComplete(config: Config, db: Db, seed: Seed, disputes: seq<RestoredDispute>)
    requires AllReadable(db)
    ensures !DisputesRestored(config, db, seed, disputes).failed
      && AllReadable(DisputesRestored(config, db, seed, disputes).db)
  {
    if disputes != [] {
      DisputesComplete(config, db, seed, disputes[..|disputes| - 1]);
      var before, dispute :=
        DisputesRestored(config, db, seed, disputes[..|disputes| - 1]).db, disputes[|disputes| - 1];
      if dispute.orderId in before.orders {
        DisputeStaysReadable(config, before, seed, dispute);
      }
    }
  }

  // --- the guard a restore does not consult ---

  /** A status the restore writes, as the guard would have seen it. */
  function WriteOf(voc: Vocabulary, text: string): Offer {
    Offer(ParseStatus(voc, Some(text)), "restore-session")
  }

  /** The statuses reported for one order, in order. */
  function ReportsFor(voc: Vocabulary, orders: seq<RestoredOrder>, id: string): seq<Offer> {
    if orders == [] then []
    else
      var last := orders[|orders| - 1];
      ReportsFor(voc, orders[..|orders| - 1], id) + if last.orderId == id then [WriteOf(voc, last.status)] else []
  }

  /** One write of "dispute" for each dispute of the order. */
  function DisputesFor(voc: Vocabulary, disputes: seq<RestoredDispute>, id: string): seq<Offer> {
    if disputes == [] then []
    else DisputesFor(voc, disputes[..|disputes| - 1], id) + if disputes[|disputes| - 1].orderId == id
      then [WriteOf(voc, "dispute")] else []
  }

  lemma {:induction false} ReportsEndWithLast(voc: Vocabulary, orders: seq<RestoredOrder>, id: string)
    ensures ReportsFor(voc, orders, id) != [] <==> LastStatus(orders, id).Some?
    ensures var reports := ReportsFor(voc, orders, id);
            reports != [] ==> reports[|reports| - 1].candidate == ParseStatus(voc, LastStatus(orders, id))
                              && reports[|reports| - 1].action == "restore-session"
  {
    if orders != [] {
      ReportsEndWithLast(voc, orders[..|orders| - 1], id);
    }
  }

  lemma {:induction false} DisputesForDisputed(voc: Vocabulary, disputes: seq<RestoredDispute>, id: string)
    ensures DisputesFor(voc, disputes, id) != [] <==> Disputed(disputes, id)
    ensures forall k | 0 <= k < |DisputesFor(voc, disputes, id)| ::
      DisputesFor(voc, disputes, id)[k] == WriteOf(voc, "dispute")
  {
    if disputes != [] {
      DisputesForDisputed(voc, disputes[..|disputes| - 1], id);
      DisputedGrows(disputes, id);
    }
  }

  /** Where the guard would have left a status: the first write finds the order kind `first`, the others `later`. */
  ghost function LeftByGuard(current: Status, writes: seq<Offer>, first: Option<Kind>, later: Option<Kind>): Status {
    if writes == [] then current
    else Guarded(LeftByGuard(current, writes[..|writes| - 1], first, later), writes[|writes| - 1], if |writes| == 1
      then first else later)
  }

  /** Saving a skeleton drops the order kind, refreshing a detailed order keeps it. */
  ghost function LaterKind(voc: Vocabulary, db: Db, orders: seq<RestoredOrder>, id: string): Option<Kind> {
    if Detailed(db.orders, id) || LastStatus(orders, id).None? then Applicator.KindIn(voc, db, id) else None
  }

  /** What is written before the last status: all reports if the order is disputed, else all but the last. */
  function BeforeLastWrite(reports: seq<Offer>, disputed: bool): seq<Offer> {
    if disputed || reports == [] then reports else reports[..|reports| - 1]
  }

  lemma {:induction false} RepeatsAreIdle(
    current: Status, writes: seq<Offer>, same: seq<Offer>, w: Offer, first: Option<Kind>, later: Option<Kind>)
    requires same != [] && forall k | 0 <= k < |same| :: same[k] == w
    requires writes == [] ==> first == later
    ensures LeftByGuard(current, writes + same, first, later)
      == Guarded(LeftByGuard(current, writes, first, later), w, later)
  {
    assert (writes + same)[..|writes + same| - 1] == writes + same[..|same| - 1];
    if |same| == 1 {
      assert writes + same[..0] == writes;
    } else {
      RepeatsAreIdle(current, writes, same[..|same| - 1], w, first, later);
    }
  }

  /** A stored order ends where the status guard would have left it exactly when the guard accepts the last status
      written: the last one reported, or "dispute" if the order is disputed. */
  lemma RestoreRespectsGuard(
    voc: Vocabulary, config: Config, db: Db, seed: Seed, orders: seq<RestoredOrder>, disputes: seq<RestoredDispute>,
    id: string, current: Status)
    requires !Restored(config, db, seed, orders, disputes).failed
    requires Applicator.StatusIn(voc, db, id) == Some(current)
    requires LastStatus(orders, id).Some? || Disputed(disputes, id)
    ensures var first, later := Applicator.KindIn(voc, db, id), LaterKind(voc, db, orders, id);
            var reports := ReportsFor(voc, orders, id);
            var before := BeforeLastWrite(reports, Disputed(disputes, id));
            var last := if Disputed(disputes, id) then ParseStatus(voc, Some("dispute"))
              else ParseStatus(voc, LastStatus(orders, id));
            Applicator.StatusIn(voc, Restored(config, db, seed, orders, disputes).db, id)
              == Some(LeftByGuard(current, reports + DisputesFor(voc, disputes, id), first, later))
            <==> last.Some? && ShouldApply(Some(LeftByGuard(current, before, first, later)), last.value,
                                           if before == [] then first else later, Some("restore-session"))
  {
    var first, later := Applicator.KindIn(voc, db, id), LaterKind(voc, db, orders, id);
    LastWriteIsLeft(voc, config, db, seed, orders, disputes, id);
    if Disputed(disputes, id) {
      DisputeDecides(voc, orders, disputes, id, current, first, later);
    } else {
      ReportDecides(voc, orders, disputes, id, current, first, later);
    }
  }

  /** The status read afterwards is the last one written. */
  lemma LastWriteIsLeft(
    voc: Vocabulary, config: Config, db: Db, seed: Seed, orders: seq<RestoredOrder>, disputes: seq<RestoredDispute>,
    id: string)
    requires !Restored(config, db, seed, orders, disputes).failed && id in db.orders
    requires LastStatus(orders, id).Some? || Disputed(disputes, id)
    ensures Applicator.StatusIn(voc, Restored(config, db, seed, orders, disputes).db, id)
         == ParseStatus(voc, if Disputed(disputes, id) then Some("dispute") else LastStatus(orders, id))
  {
    RestoreLeaves(config, db, seed, orders, disputes, id);
  }

  lemma DisputeDecides(
    voc: Vocabulary, orders: seq<RestoredOrder>, disputes: seq<RestoredDispute>, id: string, current: Status,
    first: Option<Kind>, later: Option<Kind>)
    requires Disputed(disputes, id) && (LastStatus(orders, id).None? ==> first == later)
    ensures var reports, w := ReportsFor(voc, orders, id), WriteOf(voc, "dispute");
            LeftByGuard(current, reports + DisputesFor(voc, disputes, id), first, later)
            == Guarded(LeftByGuard(current, reports, first, later), w, if reports == [] then first else later)
  {
    ReportsEndWithLast(voc, orders, id);
    DisputesForDisputed(voc, disputes, id);
    RepeatsAreIdle(
      current, ReportsFor(voc, orders, id), DisputesFor(voc, disputes, id), WriteOf(voc, "dispute"), first, later);
  }

  lemma ReportDecides(
    voc: Vocabulary, orders: seq<RestoredOrder>, disputes: seq<RestoredDispute>, id: string, current: Status,
    first: Option<Kind>, later: Option<Kind>)
    requires !Disputed(disputes, id) && LastStatus(orders, id).Some?
    ensures var reports := ReportsFor(voc, orders, id);
            var before := BeforeLastWrite(reports, false);
            LeftByGuard(current, reports + DisputesFor(voc, disputes, id), first, later)
            == Guarded(
              LeftByGuard(current, before, first, later),
              Offer(ParseStatus(voc, LastStatus(orders, id)), "restore-session"),
              if before == [] then first else later)
  {
    var reports := ReportsFor(voc, orders, id);
    ReportsEndWithLast(voc, orders, id);
    DisputesForDisputed(voc, disputes, id);
    assert reports + DisputesFor(voc, disputes, id) == reports;
  }

  /** So a finished order can be put back to active. */
  lemma RestoreReopens(voc: Vocabulary, config: Config, db: Db, seed: Seed, id: string, index: Number)
    requires NamesRead(voc) && Detailed(db.orders, id) && Readable(db.orders[id])
    requires Applicator.StatusIn(voc, db, id) == Some(Success)
    ensures var done := Restored(config, db, seed, [RestoredOrder(id, index, voc.statusName(Active))], []);
            !done.failed && Applicator.StatusIn(voc, done.db, id) == Some(Active)
  {
    OneRestored(config, db, seed, RestoredOrder(id, index, voc.statusName(Active)));
  }

  /** And a finished order whose report the guard accepts is put into dispute, which the guard refuses. */
  lemma RestoreDisputesFinished(
    voc: Vocabulary, config: Config, db: Db, seed: Seed, id: string, index: Number, disputeId: string)
    requires NamesRead(voc) && voc.statusName(Status.Dispute) == "dispute"
    requires Detailed(db.orders, id) && Readable(db.orders[id])
    requires Applicator.StatusIn(voc, db, id) == Some(Success)
    ensures var done := Restored(
              config, db, seed, [RestoredOrder(id, index, voc.statusName(Success))],
                [RestoredDispute(disputeId, id, index, "initiated", None, None)]);
            !done.failed && Applicator.StatusIn(voc, done.db, id) == Some(Status.Dispute)
    ensures forall kind ::
      LeftByGuard(Success, [WriteOf(voc, voc.statusName(Success)), WriteOf(voc, "dispute")], kind, kind) == Success
  {
    var info, dispute :=
      RestoredOrder(id, index, voc.statusName(Success)), RestoredDispute(disputeId, id, index, "initiated", None, None);
    OneRestored(config, db, seed, info);
    OneDisputed(config, OrdersRestored(config, db, seed, [info]).db, seed, dispute);
    forall kind {
      GuardKeepsSuccess(voc, kind);
    }
  }

  lemma GuardKeepsSuccess(voc: Vocabulary, kind: Option<Kind>)
    requires NamesRead(voc) && voc.statusName(Status.Dispute) == "dispute"
    ensures LeftByGuard(Success, [WriteOf(voc, voc.statusName(Success)), WriteOf(voc, "dispute")], kind, kind)
      == Success
  {
    var a, b := WriteOf(voc, voc.statusName(Success)), WriteOf(voc, "dispute");
    assert [a, b][..1] == [a] && [a][..0] == [];
    assert LeftByGuard(Success, [a], kind, kind) == Success;
  }

  lemma OneRestored(config: Config, db: Db, seed: Seed, info: RestoredOrder)
    requires Detailed(db.orders, info.orderId) && Readable(db.orders[info.orderId])
    ensures var done := OrdersRestored(config, db, seed, [info]);
            && !done.failed && info.orderId in done.db.orders && !Applicator.Blocked(done.db, info.orderId)
            && done.db.orders[info.orderId].row.status == Some(info.status)
  {
    assert [info][..0] == [];
    assert OrdersRestored(config, db, seed, []) == Progress(db, false);
  }

  lemma OneDisputed(config: Config, db: Db, seed: Seed, dispute: RestoredDispute)
    requires dispute.orderId in db.orders && Readable(db.orders[dispute.orderId])
    ensures var done := DisputesRestored(config, db, seed, [dispute]);
            && !done.failed && dispute.orderId in done.db.orders
            && done.db.orders[dispute.orderId].row.status == Some("dispute")
  {
    assert [dispute][..0] == [];
    assert DisputesRestored(config, db, seed, []) == Progress(db, false);
    OneRowDisputed(config, db, seed, dispute);
  }
}
