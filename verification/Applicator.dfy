/** Applying an inbound trade DM to the stored order. */
module Applicator {
  import opened Wrappers
  import opened Messages
  import opened StateMachine
  import opened Store
  import opened Handles

  /** Key derivation: the public key of a secret, and the chat secret of a secret and a peer. */
  datatype Keys = Keys(pubkey: string -> string, chatSecret: (string, string) -> string)

  datatype AppliedDm = AppliedDm(
    orderId: string,
    action: string,
    status: Option<string>,
    disputeId: Option<string>,
    solver: Option<(string, string)>,
    orderUpserted: bool)

  /** What one call needs beside the message. */
  datatype Context = Context(voc: Vocabulary, keys: Keys, orderId: string, tradeSecret: string, nonce: nat)

  function SnapshotOf(action: string, payload: Option<Payload>): Option<SmallOrder> {
    if payload.None? then None
    else if action == "add-invoice" || action == "buyer-took-order" || action == "hold-invoice-payment-accepted"
      || action == "new-order" then
      if payload.value.Order? then Some(payload.value.order) else None
    else if action == "pay-invoice" || action == "pay-bond-invoice" then
      if payload.value.PaymentRequest? then payload.value.requested else None
    else if action == "add-bond-invoice" then
      if payload.value.BondPayoutRequest? then Some(payload.value.slashedOrder) else None
    else None
  }

  function CandidateText(voc: Vocabulary, kind: MessageKind): Option<string> {
    var order := SnapshotOf(kind.action, kind.payload);
    if kind.action == "cant-do" then None
    else if order.Some? then
      var mapped := MapActionToStatus(voc, kind.action, order.value);
      if mapped.Some? then mapped else order.value.status
    else
      match InferredStatus(kind.action)
      case Some(s) => Some(voc.statusName(s))
      case None => None
  }

  /** The transition a message proposes. */
  function OfferOf(voc: Vocabulary, kind: MessageKind): Offer {
    Offer(ParseStatus(voc, CandidateText(voc, kind)), kind.action)
  }

  function Counterparty(keys: Keys, secret: string, order: SmallOrder, known: Option<string>): Option<string> {
    var buyer, seller := order.buyerTradePubkey, order.sellerTradePubkey;
    if buyer.Some? && buyer.value != "" && seller.Some? && seller.value != "" then
      var mine := keys.pubkey(secret);
      if buyer.value != mine then buyer else if seller.value != mine then seller else known
    else known
  }

  function Plain(f: Field): string {
    if f.Text? then f.text else ""
  }

  /** The status text this message may write. */
  function AppliedStatus(voc: Vocabulary, existing: Option<OrderView>, kind: MessageKind): Option<string> {
    var current := if existing.Some? then ParseStatus(voc, existing.value.row.status) else None;
    var orderKind := if existing.Some? then ParseKind(voc, existing.value.row.kind) else None;
    var candidate := OfferOf(voc, kind).candidate;
    if candidate.Some? && ShouldApply(current, candidate.value, orderKind, Some(kind.action))
      then CandidateText(voc, kind) else None
  }

  function SaveInput(ctx: Context, existing: Option<OrderView>, kind: MessageKind, order: SmallOrder): SaveOrderInput {
    var applied := AppliedStatus(ctx.voc, existing, kind);
    SaveOrderInput(
      ctx.orderId, order.kind,
      if applied.Some? then applied else if existing.Some? then existing.value.row.status else None,
      order.amount, order.fiatCode, order.minAmount, order.maxAmount, order.fiatAmount, order.paymentMethod,
        order.premium,
      if existing.Some? then Plain(existing.value.tradeKeys) else "",
      Counterparty(ctx.keys, ctx.tradeSecret, order, if existing.Some? then existing.value.row.counterpartyPubkey
        else None),
      existing.Some? && existing.value.row.isMine,
      order.buyerInvoice, kind.requestId,
      (if existing.Some? && existing.value.row.tradeIndex.Some? then existing.value.row.tradeIndex
        else kind.tradeIndex).GetOr(0.0),
      if existing.Some? && existing.value.row.createdAt.Some? then existing.value.row.createdAt else order.createdAt,
      order.expiresAt)
  }

  function HasSnapshot(kind: MessageKind): bool {
    var order := SnapshotOf(kind.action, kind.payload);
    order.Some? && order.value.id.Some? && order.value.id.value != ""
  }

  function DisputeIn(kind: MessageKind): Option<string> {
    if (kind.action == "dispute-initiated-by-you" || kind.action == "dispute-initiated-by-peer")
      && kind.payload.Some? && kind.payload.value.Dispute?
    then Some(kind.payload.value.disputeId) else None
  }

  function SolverIn(kind: MessageKind): Option<string> {
    if kind.action == "admin-took-dispute" && kind.payload.Some? && kind.payload.value.PeerPayload?
    then Some(kind.payload.value.peer.pubkey) else None
  }

  function SolverChat(ctx: Context, kind: MessageKind): Option<(string, string)> {
    match SolverIn(kind)
    case Some(pubkey) => Some((pubkey, ctx.keys.chatSecret(ctx.tradeSecret, pubkey)))
    case None => None
  }

  // --- the effect on the store ---

  ghost function AfterStatus(config: Config, db: Db, ctx: Context, kind: MessageKind): Db {
    var existing := Lookup(db.orders, ctx.orderId);
    var applied := AppliedStatus(ctx.voc, existing, kind);
    if HasSnapshot(kind) then
      Step(config, db, SaveOrder(SaveInput(ctx, existing, kind, SnapshotOf(kind.action, kind.payload).value),
        ctx.nonce)).0
    else if applied.Some? then Step(config, db, UpdateOrderStatus(ctx.orderId, applied.value)).0
    else db
  }

  ghost function AfterDispute(config: Config, db: Db, ctx: Context, kind: MessageKind): Db {
    if DisputeIn(kind).Some? then Step(config, db, UpdateDisputeId(ctx.orderId, DisputeIn(kind).value)).0 else db
  }

  ghost function AfterSolver(config: Config, db: Db, ctx: Context, kind: MessageKind): Db {
    if SolverIn(kind).Some? then
      var solver := SolverIn(kind).value;
      Step(config, db, UpdateSolverChat(ctx.orderId, solver, ctx.keys.chatSecret(ctx.tradeSecret, solver),
        ctx.nonce + 1)).0
    else db
  }

  /** The store after one DM; an order whose encrypted columns cannot be read stops the DM with no effect. */
  ghost function AfterDm(config: Config, db: Db, ctx: Context, kind: MessageKind): Db {
    if ctx.orderId in db.orders && !Readable(db.orders[ctx.orderId]) then db
    else AfterSolver(config, AfterDispute(config, AfterStatus(config, db, ctx, kind), ctx, kind), ctx, kind)
  }

  method ApplyTradeDm(store: Handle, ctx: Context, kind: MessageKind) returns (result: Result<AppliedDm, Reply>)
    requires store.Valid()
    modifies store.Objects()
    ensures store.Valid() && store.Contents() == AfterDm(store.OpenedWith(), old(store.Contents()), ctx, kind)
    ensures result.Err?
      <==> ctx.orderId in old(store.Contents()).orders && !Readable(old(store.Contents()).orders[ctx.orderId])
    ensures result.Ok? ==> result.value == AppliedDm(
      ctx.orderId, kind.action, AppliedStatus(ctx.voc, Lookup(old(store.Contents()).orders, ctx.orderId), kind),
        DisputeIn(kind),
      SolverChat(ctx, kind), HasSnapshot(kind))
  {
    var reply := store.GetOrder(ctx.orderId);
    if reply == Failed {
      return Err(Failed);
    }
    var existing := reply.order;
    assert existing == Lookup(store.Contents().orders, ctx.orderId);
    ApplyStatus(store, ctx, existing, kind);
    var disputeId := ApplyDispute(store, ctx, kind);
    var solver := ApplySolver(store, ctx, kind);
    return Ok(AppliedDm(ctx.orderId, kind.action, AppliedStatus(ctx.voc, existing, kind), disputeId, solver,
      HasSnapshot(kind)));
  }

  /** Save the snapshot, or write the status alone. */
  method ApplyStatus(store: Handle, ctx: Context, existing: Option<OrderView>, kind: MessageKind)
    requires store.Valid() && existing == Lookup(store.Contents().orders, ctx.orderId)
    modifies store.Objects()
    ensures store.Valid() && store.Contents() == AfterStatus(store.OpenedWith(), old(store.Contents()), ctx, kind)
  {
    var applied := AppliedStatus(ctx.voc, existing, kind);
    if HasSnapshot(kind) {
      var order := SnapshotOf(kind.action, kind.payload);
      var _ := store.SaveOrder(SaveInput(ctx, existing, kind, order.value), ctx.nonce);
    } else if applied.Some? {
      store.UpdateOrderStatus(ctx.orderId, applied.value);
    }
  }

  method ApplyDispute(store: Handle, ctx: Context, kind: MessageKind) returns (disputeId: Option<string>)
    requires store.Valid()
    modifies store.Objects()
    ensures store.Valid() && store.Contents() == AfterDispute(store.OpenedWith(), old(store.Contents()), ctx, kind)
    ensures disputeId == DisputeIn(kind)
  {
    disputeId := DisputeIn(kind);
    if disputeId.Some? {
      store.UpdateDisputeId(ctx.orderId, disputeId.value);
    }
  }

  method ApplySolver(store: Handle, ctx: Context, kind: MessageKind) returns (solver: Option<(string, string)>)
    requires store.Valid()
    modifies store.Objects()
    ensures store.Valid() && store.Contents() == AfterSolver(store.OpenedWith(), old(store.Contents()), ctx, kind)
    ensures solver == SolverChat(ctx, kind)
  {
    solver := None;
    if SolverIn(kind).Some? {
      var pubkey := SolverIn(kind).value;
      var secret := ctx.keys.chatSecret(ctx.tradeSecret, pubkey);
      solver := Some((pubkey, secret));
      store.UpdateSolverChat(ctx.orderId, pubkey, secret, ctx.nonce + 1);
    }
  }

  // --- what a run of DMs does to the status ---

  ghost function StatusIn(voc: Vocabulary, db: Db, id: string): Option<Status> {
    if id in db.orders then ParseStatus(voc, db.orders[id].row.status) else None
  }

  ghost function KindIn(voc: Vocabulary, db: Db, id: string): Option<Kind> {
    if id in db.orders then ParseKind(voc, db.orders[id].row.kind) else None
  }

  /** A snapshot that names the same order kind (or no snapshot at all). */
  ghost predicate KeepsKind(voc: Vocabulary, kind: MessageKind, orderKind: Option<Kind>) {
    HasSnapshot(kind) ==> ParseKind(voc, SnapshotOf(kind.action, kind.payload).value.kind) == orderKind
  }

  ghost predicate Blocked(db: Db, id: string) {
    id in db.orders && !Readable(db.orders[id])
  }

  lemma StatusEffect(config: Config, db: Db, ctx: Context, kind: MessageKind)
    requires StatusIn(ctx.voc, db, ctx.orderId).Some?
    ensures StatusIn(ctx.voc, AfterStatus(config, db, ctx, kind), ctx.orderId)
         == Some(Guarded(StatusIn(ctx.voc, db, ctx.orderId).value, OfferOf(ctx.voc, kind),
           KindIn(ctx.voc, db, ctx.orderId)))
    ensures KeepsKind(ctx.voc, kind, KindIn(ctx.voc, db, ctx.orderId)) ==>
      KindIn(ctx.voc, AfterStatus(config, db, ctx, kind), ctx.orderId) == KindIn(ctx.voc, db, ctx.orderId)
  {
  }

  lemma OtherEffects(config: Config, db: Db, ctx: Context, kind: MessageKind)
    ensures var after := AfterSolver(config, AfterDispute(config, db, ctx, kind), ctx, kind);
            && StatusIn(ctx.voc, after, ctx.orderId) == StatusIn(ctx.voc, db, ctx.orderId)
            && KindIn(ctx.voc, after, ctx.orderId) == KindIn(ctx.voc, db, ctx.orderId)
  {
  }

  /** One DM moves a known status exactly as the guard allows; an unreadable row is left alone. */
  lemma DmIsGuarded(config: Config, db: Db, ctx: Context, kind: MessageKind)
    requires StatusIn(ctx.voc, db, ctx.orderId).Some?
    ensures StatusIn(ctx.voc, AfterDm(config, db, ctx, kind), ctx.orderId)
         == if Blocked(db, ctx.orderId) then StatusIn(ctx.voc, db, ctx.orderId)
            else Some(Guarded(StatusIn(ctx.voc, db, ctx.orderId).value, OfferOf(ctx.voc, kind),
              KindIn(ctx.voc, db, ctx.orderId)))
    ensures KeepsKind(ctx.voc, kind, KindIn(ctx.voc, db, ctx.orderId)) ==>
      KindIn(ctx.voc, AfterDm(config, db, ctx, kind), ctx.orderId) == KindIn(ctx.voc, db, ctx.orderId)
  {
    StatusEffect(config, db, ctx, kind);
    OtherEffects(config, AfterStatus(config, db, ctx, kind), ctx, kind);
  }

  // Runs of any step that moves the status by the guard; the DM step is one of them.

  type DmStep = (Db, MessageKind) -> Db

  ghost function Fold(step: DmStep, db: Db, kinds: seq<MessageKind>): Db {
    if kinds == [] then db else step(Fold(step, db, kinds[..|kinds| - 1]), kinds[|kinds| - 1])
  }

  /** The offers of the DMs that found the row readable. */
  ghost function Delivered(step: DmStep, voc: Vocabulary, id: string, db: Db, kinds: seq<MessageKind>): seq<Offer> {
    if kinds == [] then []
    else
      var before := kinds[..|kinds| - 1];
      Delivered(step, voc, id, db, before)
        + if Blocked(Fold(step, db, before), id) then [] else [OfferOf(voc, kinds[|kinds| - 1])]
  }

  ghost predicate GuardedStep(step: DmStep, voc: Vocabulary, id: string) {
    forall db, kind | StatusIn(voc, db, id).Some? ::
      && StatusIn(voc, step(db, kind), id)
         == (if Blocked(db, id) then StatusIn(voc, db, id)
             else Some(Guarded(StatusIn(voc, db, id).value, OfferOf(voc, kind), KindIn(voc, db, id))))
      && (KeepsKind(voc, kind, KindIn(voc, db, id)) ==> KindIn(voc, step(db, kind), id) == KindIn(voc, db, id))
  }

  ghost function Dm(config: Config, ctx: Context): DmStep {
    (db: Db, kind: MessageKind) => AfterDm(config, db, ctx, kind)
  }

  lemma DmIsGuardedStep(config: Config, ctx: Context)
    ensures GuardedStep(Dm(config, ctx), ctx.voc, ctx.orderId)
  {
    forall db, kind | StatusIn(ctx.voc, db, ctx.orderId).Some? {
      DmIsGuarded(config, db, ctx, kind);
    }
  }

  /** The store after a run of DMs. */
  ghost function AfterDms(config: Config, db: Db, ctx: Context, kinds: seq<MessageKind>): Db {
    Fold(Dm(config, ctx), db, kinds)
  }

  /** One more DM, in terms of the states before and after it. */
  lemma NextIsGuarded(step: DmStep, voc: Vocabulary, id: string, db: Db, last: MessageKind)
    requires GuardedStep(step, voc, id) && StatusIn(voc, db, id).Some?
    ensures StatusIn(voc, step(db, last), id)
         == (if Blocked(db, id) then StatusIn(voc, db, id)
             else Some(Guarded(StatusIn(voc, db, id).value, OfferOf(voc, last), KindIn(voc, db, id))))
    ensures KeepsKind(voc, last, KindIn(voc, db, id)) ==> KindIn(voc, step(db, last), id) == KindIn(voc, db, id)
  {
  }

  lemma FinalOfOneMore(
    was: Option<Status>, now: Option<Status>, current: Status, offers: seq<Offer>, more: seq<Offer>, kind: Option<Kind>)
    requires was == Some(Final(current, offers, kind))
    requires |more| <= 1 && now == if more == [] then was else Some(Guarded(was.value, more[0], kind))
    ensures now == Some(Final(current, offers + more, kind))
  {
    if more == [] {
      assert offers + more == offers;
    } else {
      assert (offers + more)[..|offers|] == offers;
    }
  }

  lemma DeliveredGrows(
    step: DmStep, voc: Vocabulary, id: string, db: Db, kinds: seq<MessageKind>) returns (more: seq<Offer>)
    requires kinds != []
    ensures var before, last := kinds[..|kinds| - 1], kinds[|kinds| - 1];
            && more == (if Blocked(Fold(step, db, before), id) then [] else [OfferOf(voc, last)])
            && Delivered(step, voc, id, db, kinds) == Delivered(step, voc, id, db, before) + more
            && Fold(step, db, kinds) == step(Fold(step, db, before), last)
  {
    more := if Blocked(Fold(step, db, kinds[..|kinds| - 1]), id) then [] else [OfferOf(voc, kinds[|kinds| - 1])];
  }

  /** Every run with the order kind fixed is a guarded run of the delivered offers. */
  lemma {:induction false} RunIsGuarded(step: DmStep, voc: Vocabulary, id: string, db: Db, kinds: seq<MessageKind>)
    requires GuardedStep(step, voc, id) && StatusIn(voc, db, id).Some?
    requires forall k | 0 <= k < |kinds| :: KeepsKind(voc, kinds[k], KindIn(voc, db, id))
    ensures StatusIn(voc, Fold(step, db, kinds), id)
         == Some(Final(StatusIn(voc, db, id).value, Delivered(step, voc, id, db, kinds), KindIn(voc, db, id)))
    ensures KindIn(voc, Fold(step, db, kinds), id) == KindIn(voc, db, id)
  {
    if kinds != [] {
      var before, last := kinds[..|kinds| - 1], kinds[|kinds| - 1];
      RunIsGuarded(step, voc, id, db, before);
      NextIsGuarded(step, voc, id, Fold(step, db, before), last);
      var more := DeliveredGrows(step, voc, id, db, kinds);
      FinalOfOneMore(
        StatusIn(voc, Fold(step, db, before), id), StatusIn(voc, Fold(step, db, kinds), id),
        StatusIn(voc, db, id).value, Delivered(step, voc, id, db, before), more, KindIn(voc, db, id));
    }
  }

  lemma {:induction false} FrozenRun(step: DmStep, voc: Vocabulary, id: string, db: Db, kinds: seq<MessageKind>)
    requires GuardedStep(step, voc, id) && StatusIn(voc, db, id).Some?
    requires IsTerminal(StatusIn(voc, db, id).value) && StatusIn(voc, db, id).value != Success
    ensures StatusIn(voc, Fold(step, db, kinds), id) == StatusIn(voc, db, id)
  {
    if kinds != [] {
      FrozenRun(step, voc, id, db, kinds[..|kinds| - 1]);
    }
  }

  /** Whatever arrives, a terminal status other than success stays, even if snapshots change the order kind. */
  lemma TerminalOrderIsFrozen(config: Config, db: Db, ctx: Context, kinds: seq<MessageKind>)
    requires StatusIn(ctx.voc, db, ctx.orderId).Some?
    requires IsTerminal(StatusIn(ctx.voc, db, ctx.orderId).value) && StatusIn(ctx.voc, db, ctx.orderId).value != Success
    ensures StatusIn(ctx.voc, AfterDms(config, db, ctx, kinds), ctx.orderId) == StatusIn(ctx.voc, db, ctx.orderId)
  {
    DmIsGuardedStep(config, ctx);
    FrozenRun(Dm(config, ctx), ctx.voc, ctx.orderId, db, kinds);
  }

  /** A single DM takes an order out of success only by add-invoice carrying settled-hold-invoice. */
  lemma SuccessIsReopenedOnlyByAddInvoice(config: Config, db: Db, ctx: Context, kind: MessageKind)
    requires StatusIn(ctx.voc, db, ctx.orderId) == Some(Success)
    requires StatusIn(ctx.voc, AfterDm(config, db, ctx, kind), ctx.orderId) != Some(Success)
    ensures kind.action == "add-invoice" && OfferOf(ctx.voc, kind).candidate == Some(SettledHoldInvoice)
    ensures StatusIn(ctx.voc, AfterDm(config, db, ctx, kind), ctx.orderId) == Some(SettledHoldInvoice)
  {
    DmIsGuarded(config, db, ctx, kind);
  }

  /** While the order kind stays, no run lowers the phase, except through the replacement invoice. */
  lemma DmRankNeverDrops(config: Config, db: Db, ctx: Context, kinds: seq<MessageKind>)
    requires StatusIn(ctx.voc, db, ctx.orderId).Some? && KindIn(ctx.voc, db, ctx.orderId).Some?
    requires forall k | 0 <= k < |kinds| :: KeepsKind(ctx.voc, kinds[k], KindIn(ctx.voc, db, ctx.orderId))
    requires var offers := Delivered(Dm(config, ctx), ctx.voc, ctx.orderId, db, kinds);
             forall k | 0 <= k < |offers| ::
               !Reopens(Final(StatusIn(ctx.voc, db, ctx.orderId).value, offers[..k], KindIn(ctx.voc, db, ctx.orderId)),
                 offers[k])
    ensures StatusIn(ctx.voc, AfterDms(config, db, ctx, kinds), ctx.orderId).Some?
    ensures var kind, last :=
      KindIn(ctx.voc, db, ctx.orderId), StatusIn(ctx.voc, AfterDms(config, db, ctx, kinds), ctx.orderId).value;
            PhaseRank(StatusIn(ctx.voc, db, ctx.orderId).value, kind).Some? && PhaseRank(last, kind).Some? ==>
              PhaseRank(StatusIn(ctx.voc, db, ctx.orderId).value, kind).value <= PhaseRank(last, kind).value
  {
    DmIsGuardedStep(config, ctx);
    RunIsGuarded(Dm(config, ctx), ctx.voc, ctx.orderId, db, kinds);
    RankNeverDrops(
      StatusIn(ctx.voc, db, ctx.orderId).value, Delivered(Dm(config, ctx), ctx.voc, ctx.orderId, db, kinds),
      KindIn(ctx.voc, db, ctx.orderId));
  }

  ghost function Offers(voc: Vocabulary, kinds: seq<MessageKind>): seq<Offer> {
    seq(|kinds|, k requires 0 <= k < |kinds| => OfferOf(voc, kinds[k]))
  }

  // --- which messages arrive ---

  ghost function StoredKeys(db: Db, id: string): string {
    if id in db.orders then Plain(db.orders[id].tradeKeys) else ""
  }

  /** Under an encryptor, a snapshot writes an envelope of the empty text over missing trade keys. */
  ghost predicate Keyless(config: Config, db: Db, id: string) {
    config.encryptor.Some? && StoredKeys(db, id) == ""
  }

  /** Trade keys that come back as they are when they are rewritten, or none. */
  ghost predicate Steady(config: Config, keys: string) {
    keys == "" || config.encryptor.None? || config.encryptor.value.comesBack(keys) == keys
  }

  /** A message makes a row unreadable exactly when it carries a snapshot and the row, or the missing row, has no trade
      keys in a store with an encryptor. */
  lemma SnapshotMayBlock(config: Config, db: Db, ctx: Context, kind: MessageKind)
    requires !Blocked(db, ctx.orderId)
    ensures Blocked(AfterDm(config, db, ctx, kind), ctx.orderId)
      <==> HasSnapshot(kind) && Keyless(config, db, ctx.orderId)
    ensures Steady(config, StoredKeys(db, ctx.orderId)) && !Blocked(AfterDm(config, db, ctx, kind), ctx.orderId) ==>
      StoredKeys(AfterDm(config, db, ctx, kind), ctx.orderId) == StoredKeys(db, ctx.orderId)
  {
    var after := AfterStatus(config, db, ctx, kind);
    StatusKeys(config, db, ctx, kind);
    DisputeKeys(config, after, ctx, kind);
    SolverKeys(config, AfterDispute(config, after, ctx, kind), ctx, kind);
  }

  lemma StatusKeys(config: Config, db: Db, ctx: Context, kind: MessageKind)
    requires !Blocked(db, ctx.orderId)
    ensures Blocked(AfterStatus(config, db, ctx, kind), ctx.orderId)
      <==> HasSnapshot(kind) && Keyless(config, db, ctx.orderId)
    ensures Steady(config, StoredKeys(db, ctx.orderId)) && !Blocked(AfterStatus(config, db, ctx, kind), ctx.orderId) ==>
      StoredKeys(AfterStatus(config, db, ctx, kind), ctx.orderId) == StoredKeys(db, ctx.orderId)
  {
    if HasSnapshot(kind) {
      var existing := Lookup(db.orders, ctx.orderId);
      var input := SaveInput(ctx, existing, kind, SnapshotOf(kind.action, kind.payload).value);
      assert input.tradeKeys == StoredKeys(db, ctx.orderId);
      SavedKeys(config, db, input, ctx.nonce);
    }
  }

  lemma SavedKeys(config: Config, db: Db, input: SaveOrderInput, nonce: nat)
    requires !Blocked(db, input.id)
    ensures var after := Step(config, db, SaveOrder(input, nonce)).0;
            && input.id in after.orders
            && (Blocked(after, input.id) <==> config.encryptor.Some? && input.tradeKeys == "")
            && after.orders[input.id].tradeKeys == Sealed(config, input.tradeKeys)
  {
  }

  lemma DisputeKeys(config: Config, db: Db, ctx: Context, kind: MessageKind)
    ensures Blocked(AfterDispute(config, db, ctx, kind), ctx.orderId) <==> Blocked(db, ctx.orderId)
    ensures StoredKeys(AfterDispute(config, db, ctx, kind), ctx.orderId) == StoredKeys(db, ctx.orderId)
  {
  }

  lemma SolverKeys(config: Config, db: Db, ctx: Context, kind: MessageKind)
    ensures !Blocked(db, ctx.orderId) ==> !Blocked(AfterSolver(config, db, ctx, kind), ctx.orderId)
    ensures Blocked(db, ctx.orderId) && db.orders[ctx.orderId].tradeKeys == Unreadable ==>
      Blocked(AfterSolver(config, db, ctx, kind), ctx.orderId)
    ensures StoredKeys(AfterSolver(config, db, ctx, kind), ctx.orderId) == StoredKeys(db, ctx.orderId)
  {
  }

  ghost predicate AnySnapshot(kinds: seq<MessageKind>) {
    exists k :: 0 <= k < |kinds| && HasSnapshot(kinds[k])
  }

  /** The messages up to and including the first snapshot. */
  ghost function UpToSnapshot(kinds: seq<MessageKind>): seq<MessageKind> {
    if kinds == [] then []
    else if AnySnapshot(kinds[..|kinds| - 1]) then UpToSnapshot(kinds[..|kinds| - 1]) else kinds
  }

  /** The messages that arrive: all of them, but on a keyless row none after the first snapshot. */
  ghost function Arriving(keyless: bool, kinds: seq<MessageKind>): seq<MessageKind> {
    if keyless then UpToSnapshot(kinds) else kinds
  }

  /** Rows of a kind that only snapshots can make unreadable, and only if keyless. */
  ghost predicate BlockedBySnapshots(step: DmStep, id: string, keyless: bool, kept: Db -> bool) {
    && (forall d | kept(d) :: !Blocked(d, id))
    && (forall d, kind | kept(d) :: if keyless
      && HasSnapshot(kind) then Blocked(step(d, kind), id) else kept(step(d, kind)))
    && (forall d, kind | Blocked(d, id) :: step(d, kind) == d)
  }

  lemma AnySnapshotGrows(kinds: seq<MessageKind>)
    requires kinds != []
    ensures AnySnapshot(kinds) <==> AnySnapshot(kinds[..|kinds| - 1]) || HasSnapshot(kinds[|kinds| - 1])
  {
    if AnySnapshot(kinds[..|kinds| - 1]) {
      var k :| 0 <= k < |kinds| - 1 && HasSnapshot(kinds[..|kinds| - 1][k]);
      assert HasSnapshot(kinds[k]);
    }
    if AnySnapshot(kinds) {
      var k :| 0 <= k < |kinds| && HasSnapshot(kinds[k]);
      assert k < |kinds| - 1 ==> HasSnapshot(kinds[..|kinds| - 1][k]);
    }
  }

  lemma {:induction false} RunDelivers(
    step: DmStep, voc: Vocabulary, id: string, keyless: bool, kept: Db -> bool, db: Db, kinds: seq<MessageKind>)
    requires BlockedBySnapshots(step, id, keyless, kept) && kept(db)
    ensures if keyless && AnySnapshot(kinds) then Blocked(Fold(step, db, kinds), id) else kept(Fold(step, db, kinds))
    ensures Delivered(step, voc, id, db, kinds) == Offers(voc, Arriving(keyless, kinds))
  {
    if kinds != [] {
      var before, last := kinds[..|kinds| - 1], kinds[|kinds| - 1];
      RunDelivers(step, voc, id, keyless, kept, db, before);
      AnySnapshotGrows(kinds);
      NextDelivers(step, id, keyless, kept, Fold(step, db, before), before, last);
      ArrivingGrows(voc, keyless, kinds);
      var more := DeliveredGrows(step, voc, id, db, kinds);
    }
  }

  lemma NextDelivers(
    step: DmStep, id: string, keyless: bool, kept: Db -> bool, d: Db, before: seq<MessageKind>, last: MessageKind)
    requires BlockedBySnapshots(step, id, keyless, kept)
    requires if keyless && AnySnapshot(before) then Blocked(d, id) else kept(d)
    ensures Blocked(d, id) <==> keyless && AnySnapshot(before)
    ensures if keyless && (AnySnapshot(before) || HasSnapshot(last)) then Blocked(step(d, last), id)
      else kept(step(d, last))
  {
  }

  lemma ArrivingGrows(voc: Vocabulary, keyless: bool, kinds: seq<MessageKind>)
    requires kinds != []
    ensures var before := kinds[..|kinds| - 1];
            Offers(voc, Arriving(keyless, kinds))
            == Offers(voc, Arriving(keyless, before)) + if keyless
              && AnySnapshot(before) then [] else [OfferOf(voc, kinds[|kinds| - 1])]
  {
    var before := kinds[..|kinds| - 1];
    OffersOneMore(voc, kinds);
    if !AnySnapshot(before) {
      WholeIfNone(before);
    }
  }

  lemma OffersOneMore(voc: Vocabulary, kinds: seq<MessageKind>)
    requires kinds != []
    ensures Offers(voc, kinds) == Offers(voc, kinds[..|kinds| - 1]) + [OfferOf(voc, kinds[|kinds| - 1])]
  {
  }

  lemma {:induction false} WholeIfNone(kinds: seq<MessageKind>)
    requires !AnySnapshot(kinds)
    ensures UpToSnapshot(kinds) == kinds
  {
    if kinds != [] {
      AnySnapshotGrows(kinds);
    }
  }

  /** The rows that a run starting at this one goes through until it is blocked. */
  ghost function SameKeys(id: string, keys: string): Db -> bool {
    (d: Db) => !Blocked(d, id) && StoredKeys(d, id) == keys
  }

  lemma DmsBlockBySnapshots(config: Config, ctx: Context, keys: string)
    requires Steady(config, keys)
    ensures BlockedBySnapshots(Dm(config, ctx), ctx.orderId, config.encryptor.Some?
      && keys == "", SameKeys(ctx.orderId, keys))
  {
    forall d, kind | SameKeys(ctx.orderId, keys)(d)
      ensures if config.encryptor.Some? && keys == "" && HasSnapshot(kind)
              then Blocked(Dm(config, ctx)(d, kind), ctx.orderId)
                else SameKeys(ctx.orderId, keys)(Dm(config, ctx)(d, kind))
    {
      SnapshotMayBlock(config, d, ctx, kind);
    }
  }

  /** Exactly on a keyless row a snapshot stops the run: the row ends unreadable, and no later message arrives. */
  lemma DmRunDelivers(config: Config, db: Db, ctx: Context, kinds: seq<MessageKind>)
    requires !Blocked(db, ctx.orderId) && Steady(config, StoredKeys(db, ctx.orderId))
    ensures Blocked(AfterDms(config, db, ctx, kinds), ctx.orderId)
      <==> Keyless(config, db, ctx.orderId) && AnySnapshot(kinds)
    ensures Delivered(Dm(config, ctx), ctx.voc, ctx.orderId, db, kinds)
         == Offers(ctx.voc, Arriving(Keyless(config, db, ctx.orderId), kinds))
  {
    var keys := StoredKeys(db, ctx.orderId);
    DmsBlockBySnapshots(config, ctx, keys);
    RunDelivers(
      Dm(config, ctx), ctx.voc, ctx.orderId, Keyless(config, db, ctx.orderId), SameKeys(ctx.orderId, keys), db, kinds);
  }

  /** A run of DMs on a readable order: the status is the guarded run of the offers that arrive. */
  lemma DmRunStatus(config: Config, db: Db, ctx: Context, kinds: seq<MessageKind>)
    requires StatusIn(ctx.voc, db, ctx.orderId).Some? && !Blocked(db, ctx.orderId)
    requires Steady(config, StoredKeys(db, ctx.orderId))
    requires forall k | 0 <= k < |kinds| :: KeepsKind(ctx.voc, kinds[k], KindIn(ctx.voc, db, ctx.orderId))
    ensures var arriving := Arriving(Keyless(config, db, ctx.orderId), kinds);
            StatusIn(ctx.voc, AfterDms(config, db, ctx, kinds), ctx.orderId)
            == Some(Final(StatusIn(ctx.voc, db, ctx.orderId).value, Offers(ctx.voc, arriving),
              KindIn(ctx.voc, db, ctx.orderId)))
  {
    DmIsGuardedStep(config, ctx);
    RunIsGuarded(Dm(config, ctx), ctx.voc, ctx.orderId, db, kinds);
    DmRunDelivers(config, db, ctx, kinds);
  }

  // --- when the order of delivery matters ---

  ghost predicate SameMessages(a: seq<MessageKind>, b: seq<MessageKind>) {
    forall m :: m in a <==> m in b
  }

  function OfferRank(voc: Vocabulary, kind: Option<Kind>, m: MessageKind): nat {
    var candidate := OfferOf(voc, m).candidate;
    if candidate.Some? then PhaseRank(candidate.value, kind).GetOr(0) else 0
  }

  /** Each snapshot alone brings the order as far as all messages together. */
  ghost predicate SnapshotsSuffice(voc: Vocabulary, kind: Option<Kind>, rank: nat, a: seq<MessageKind>) {
    forall s, m | s in a && m in a && HasSnapshot(s) :: OfferRank(voc, kind, m) <= Max(rank, OfferRank(voc, kind, s))
  }

  lemma {:induction false} UpToSnapshotIs(kinds: seq<MessageKind>)
    ensures UpToSnapshot(kinds) <= kinds
    ensures AnySnapshot(kinds)
      ==> UpToSnapshot(kinds) != [] && HasSnapshot(UpToSnapshot(kinds)[|UpToSnapshot(kinds)| - 1])
    ensures kinds != [] ==> UpToSnapshot(kinds) != []
    ensures !AnySnapshot(kinds) ==> UpToSnapshot(kinds) == kinds
  {
    if kinds != [] {
      AnySnapshotGrows(kinds);
      UpToSnapshotIs(kinds[..|kinds| - 1]);
    }
  }

  lemma OfferedRanks(voc: Vocabulary, kind: Option<Kind>, kinds: seq<MessageKind>, rank: nat)
    ensures rank <= MaxRank(rank, Offers(voc, kinds), kind)
    ensures forall m | m in kinds :: OfferRank(voc, kind, m) <= MaxRank(rank, Offers(voc, kinds), kind)
    ensures MaxRank(rank, Offers(voc, kinds), kind) == rank
            || exists m :: m in kinds && OfferRank(voc, kind, m) == MaxRank(rank, Offers(voc, kinds), kind)
  {
    var offers := Offers(voc, kinds);
    MaxRankBounds(rank, offers, kind);
    forall m | m in kinds
      ensures OfferRank(voc, kind, m) <= MaxRank(rank, offers, kind)
    {
      var k :| 0 <= k < |kinds| && kinds[k] == m;
      assert offers[k] == OfferOf(voc, m);
      assert OfferOf(voc, m).candidate.Some? ==> OffersRank(offers, kind, OfferRank(voc, kind, m));
    }
    if MaxRank(rank, offers, kind) != rank {
      var k :| 0 <= k < |offers| && offers[k].candidate.Some?
        && RankOr(offers[k].candidate.value, kind, 0) == MaxRank(rank, offers, kind);
      assert kinds[k] in kinds && OfferRank(voc, kind, kinds[k]) == MaxRank(rank, offers, kind);
    }
  }

  /** Whatever the order, the messages that arrive reach the largest rank offered. */
  lemma ArrivingReachAll(
    voc: Vocabulary, kind: Option<Kind>, rank: nat, keyless: bool, a: seq<MessageKind>, b: seq<MessageKind>)
    requires SameMessages(a, b) && (keyless ==> SnapshotsSuffice(voc, kind, rank, a))
    ensures MaxRank(rank, Offers(voc, Arriving(keyless, b)), kind) == MaxRank(rank, Offers(voc, a), kind)
  {
    var some := Arriving(keyless, b);
    UpToSnapshotIs(b);
    OfferedRanks(voc, kind, a, rank);
    OfferedRanks(voc, kind, some, rank);
    var all, reached := MaxRank(rank, Offers(voc, a), kind), MaxRank(rank, Offers(voc, some), kind);
    forall m | m in some
      ensures m in a
    {
      assert m in b;
    }
    if keyless && AnySnapshot(b) {
      var s := some[|some| - 1];
      assert s in some && s in a && HasSnapshot(s);
      assert all != rank ==>
          exists m ::
            m in a && OfferRank(voc, kind, m) == all && OfferRank(voc, kind, m) <= Max(rank, OfferRank(voc, kind, s));
    }
  }

  ghost function RankAfter(config: Config, db: Db, ctx: Context, kinds: seq<MessageKind>): Option<nat> {
    match StatusIn(ctx.voc, AfterDms(config, db, ctx, kinds), ctx.orderId)
    case Some(status) => PhaseRank(status, KindIn(ctx.voc, db, ctx.orderId))
    case None => None
  }

  /** An ongoing, readable order of a known kind, and messages that keep the kind and do not end the trade. */
  ghost predicate Underway(config: Config, db: Db, ctx: Context, a: seq<MessageKind>) {
    && StatusIn(ctx.voc, db, ctx.orderId).Some? && !IsTerminal(StatusIn(ctx.voc, db, ctx.orderId).value)
    && KindIn(ctx.voc, db, ctx.orderId).Some? && !Blocked(db, ctx.orderId)
      && Steady(config, StoredKeys(db, ctx.orderId))
    && forall m | m in a ::
         && KeepsKind(ctx.voc, m, KindIn(ctx.voc, db, ctx.orderId))
         && (OfferOf(ctx.voc, m).candidate.Some? ==> !IsTerminal(OfferOf(ctx.voc, m).candidate.value))
  }

  ghost function RankBefore(db: Db, ctx: Context): nat {
    match StatusIn(ctx.voc, db, ctx.orderId)
    case Some(status) => RankOr(status, KindIn(ctx.voc, db, ctx.orderId), 0)
    case None => 0
  }

  lemma RankIsLargestArrived(config: Config, db: Db, ctx: Context, a: seq<MessageKind>, b: seq<MessageKind>)
    requires Underway(config, db, ctx, a) && SameMessages(a, b)
    ensures var arriving := Arriving(Keyless(config, db, ctx.orderId), b);
            RankAfter(config, db, ctx, b)
            == Some(MaxRank(RankBefore(db, ctx), Offers(ctx.voc, arriving), KindIn(ctx.voc, db, ctx.orderId)))
  {
    var arriving := Arriving(Keyless(config, db, ctx.orderId), b);
    UpToSnapshotIs(b);
    forall k | 0 <= k < |b|
      ensures KeepsKind(ctx.voc, b[k], KindIn(ctx.voc, db, ctx.orderId))
    {
      assert b[k] in b;
    }
    forall k | 0 <= k < |Offers(ctx.voc, arriving)| && Offers(ctx.voc, arriving)[k].candidate.Some?
      ensures !IsTerminal(Offers(ctx.voc, arriving)[k].candidate.value)
    {
      assert arriving[k] == b[k] && b[k] in b;
    }
    DmRunStatus(config, db, ctx, b);
    FinalRankIsMaximum(
      StatusIn(ctx.voc, db, ctx.orderId).value, Offers(ctx.voc, arriving), KindIn(ctx.voc, db, ctx.orderId));
  }

  /** The same DMs, late, twice or in another order, leave the order in the same phase, exactly unless its row is
      keyless and some snapshot among them, arriving first, would fall short of the others. */
  lemma DmOrderDoesNotMatter(config: Config, db: Db, ctx: Context, a: seq<MessageKind>)
    requires Underway(config, db, ctx, a)
    ensures (forall b, c | SameMessages(a, b)
      && SameMessages(a, c) :: RankAfter(config, db, ctx, b) == RankAfter(config, db, ctx, c))
      <==> (Keyless(config, db, ctx.orderId)
        ==> SnapshotsSuffice(ctx.voc, KindIn(ctx.voc, db, ctx.orderId), RankBefore(db, ctx), a))
  {
    var kind, rank, keyless := KindIn(ctx.voc, db, ctx.orderId), RankBefore(db, ctx), Keyless(config, db, ctx.orderId);
    if keyless && !SnapshotsSuffice(ctx.voc, kind, rank, a) {
      var b, c := OrdersThatDiffer(config, db, ctx, a);
    } else {
      forall b, c | SameMessages(a, b) && SameMessages(a, c)
        ensures RankAfter(config, db, ctx, b) == RankAfter(config, db, ctx, c)
      {
        RankIsOfAll(config, db, ctx, a, b);
        RankIsOfAll(config, db, ctx, a, c);
      }
    }
  }

  lemma RankIsOfAll(config: Config, db: Db, ctx: Context, a: seq<MessageKind>, b: seq<MessageKind>)
    requires Underway(config, db, ctx, a) && SameMessages(a, b)
    requires Keyless(config, db, ctx.orderId)
      ==> SnapshotsSuffice(ctx.voc, KindIn(ctx.voc, db, ctx.orderId), RankBefore(db, ctx), a)
    ensures RankAfter(config, db, ctx, b)
         == Some(MaxRank(RankBefore(db, ctx), Offers(ctx.voc, a), KindIn(ctx.voc, db, ctx.orderId)))
  {
    RankIsLargestArrived(config, db, ctx, a, b);
    ArrivingReachAll(ctx.voc, KindIn(ctx.voc, db, ctx.orderId), RankBefore(db, ctx), Keyless(config, db, ctx.orderId),
      a, b);
  }

  lemma OrdersThatDiffer(
    config: Config, db: Db, ctx: Context, a: seq<MessageKind>) returns (b: seq<MessageKind>, c: seq<MessageKind>)
    requires Underway(config, db, ctx, a) && Keyless(config, db, ctx.orderId)
    requires !SnapshotsSuffice(ctx.voc, KindIn(ctx.voc, db, ctx.orderId), RankBefore(db, ctx), a)
    ensures SameMessages(a, b) && SameMessages(a, c) && RankAfter(config, db, ctx, b) != RankAfter(config, db, ctx, c)
  {
    var kind, rank := KindIn(ctx.voc, db, ctx.orderId), RankBefore(db, ctx);
    var s, m :| s in a && m in a && HasSnapshot(s)
      && OfferRank(ctx.voc, kind, m) > Max(rank, OfferRank(ctx.voc, kind, s));
    TwoOrders(config, db, ctx, a, s, m);
    b, c := [s] + a, [m] + a;
  }

  /** On a keyless row the snapshot first, or the message that goes further first, end in different phases. */
  lemma TwoOrders(config: Config, db: Db, ctx: Context, a: seq<MessageKind>, s: MessageKind, m: MessageKind)
    requires Underway(config, db, ctx, a) && Keyless(config, db, ctx.orderId) && s in a && m in a && HasSnapshot(s)
    requires var kind := KindIn(ctx.voc, db, ctx.orderId);
             OfferRank(ctx.voc, kind, m) > Max(RankBefore(db, ctx), OfferRank(ctx.voc, kind, s))
    ensures SameMessages(a, [s] + a) && SameMessages(a, [m] + a)
    ensures RankAfter(config, db, ctx, [s] + a) != RankAfter(config, db, ctx, [m] + a)
  {
    var kind := KindIn(ctx.voc, db, ctx.orderId);
    RankIsLargestArrived(config, db, ctx, a, [s] + a);
    RankIsLargestArrived(config, db, ctx, a, [m] + a);
    SnapshotFirst(s, a);
    UpToSnapshotIs([m] + a);
    OfferedRanks(ctx.voc, kind, [s], RankBefore(db, ctx));
    OfferedRanks(ctx.voc, kind, UpToSnapshot([m] + a), RankBefore(db, ctx));
    assert UpToSnapshot([m] + a)[0] == m;
  }

  lemma {:induction false} SnapshotFirst(s: MessageKind, a: seq<MessageKind>)
    requires HasSnapshot(s)
    ensures UpToSnapshot([s] + a) == [s]
  {
    if a == [] {
      assert [s] + a == [s];
      assert !AnySnapshot([s][..0]);
    } else {
      assert ([s] + a)[..|a|] == [s] + a[..|a| - 1];
      SnapshotFirst(s, a[..|a| - 1]);
      assert HasSnapshot(([s] + a[..|a| - 1])[0]);
    }
  }

  /** An active buy order without trade keys under an encryptor: the snapshot of a taken order stops the news that the
      payment was sent, if it comes first. */
  lemma SnapshotStopsPayment(config: Config, db: Db, ctx: Context, snapshot: MessageKind, sent: MessageKind)
    requires NamesRead(ctx.voc) && Underway(config, db, ctx, [snapshot]) && Keyless(config, db, ctx.orderId)
    requires StatusIn(ctx.voc, db, ctx.orderId) == Some(Active) && KindIn(ctx.voc, db, ctx.orderId) == Some(Buy)
    requires snapshot.action == "buyer-took-order" && HasSnapshot(snapshot)
      && snapshot.payload.value.order.status == None
    requires sent.action == "fiat-sent-ok" && sent.payload == None
    ensures RankAfter(config, db, ctx, [snapshot, sent]) == Some(3)
      && RankAfter(config, db, ctx, [sent, snapshot]) == Some(4)
  {
    var a := [snapshot, sent];
    assert OfferOf(ctx.voc, snapshot).candidate == None;
    assert OfferOf(ctx.voc, sent).candidate == Some(FiatSent);
    RankIsLargestArrived(config, db, ctx, a, a);
    RankIsLargestArrived(config, db, ctx, a, [sent, snapshot]);
    ArrivingOfTwo(snapshot, sent);
    RanksOfPayment(ctx.voc, snapshot, sent);
  }

  lemma ArrivingOfTwo(snapshot: MessageKind, other: MessageKind)
    requires HasSnapshot(snapshot) && !HasSnapshot(other)
    ensures UpToSnapshot([snapshot, other]) == [snapshot] && UpToSnapshot([other, snapshot]) == [other, snapshot]
  {
    assert [snapshot, other] == [snapshot] + [other];
    SnapshotFirst(snapshot, [other]);
    assert !AnySnapshot([other, snapshot][..1]);
  }

  lemma RanksOfPayment(voc: Vocabulary, snapshot: MessageKind, sent: MessageKind)
    requires OfferOf(voc, snapshot).candidate == None && OfferOf(voc, sent).candidate == Some(FiatSent)
    ensures MaxRank(3, Offers(voc, [snapshot]), Some(Buy)) == 3
      && MaxRank(3, Offers(voc, [sent, snapshot]), Some(Buy)) == 4
  {
    OfferedRanks(voc, Some(Buy), [snapshot], 3);
    OfferedRanks(voc, Some(Buy), [sent, snapshot], 3);
    assert sent in [sent, snapshot];
  }

  /** A row a snapshot has made unreadable also fails every listing of active orders that meets it, unless its status is
      terminal. */
  lemma BlockedRowFailsListing(
    config: Config, db: Db, ctx: Context, kind: MessageKind, terminal: seq<string>, scan: seq<string>)
    requires !Blocked(db, ctx.orderId) && HasSnapshot(kind) && Keyless(config, db, ctx.orderId)
    requires var after := AfterDm(config, db, ctx, kind).orders;
             ctx.orderId in scan && forall id | id in scan :: id in after
    ensures var after := AfterDm(config, db, ctx, kind).orders;
            var status := after[ctx.orderId].row.status;
            status.None? || config.lower(status.value) !in terminal ==>
              ReplyActive(config, after, terminal, scan) == Failed
  {
    var after := AfterDm(config, db, ctx, kind).orders;
    SnapshotMayBlock(config, db, ctx, kind);
    SnapshotSpoilsKeys(config, db, ctx, kind);
    OneRowFailsAll(config, after, terminal, scan);
  }

  lemma SnapshotSpoilsKeys(config: Config, db: Db, ctx: Context, kind: MessageKind)
    requires !Blocked(db, ctx.orderId) && HasSnapshot(kind) && Keyless(config, db, ctx.orderId)
    ensures var after := AfterDm(config, db, ctx, kind).orders;
            ctx.orderId in after && after[ctx.orderId].tradeKeys == Unreadable
  {
    var existing := Lookup(db.orders, ctx.orderId);
    SavedKeys(config, db, SaveInput(ctx, existing, kind, SnapshotOf(kind.action, kind.payload).value), ctx.nonce);
  }
}
