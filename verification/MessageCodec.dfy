/** Payloads and messages over the codecs of their parts. The seventeen payload variants, the message body and the
    envelope with its variant name are written and read here, for any lawful codecs of the parts; the wire codecs are
    put in at the end. */
module MessageCodec {
  import opened Wrappers
  import M = Messages
  import opened Json
  import Wire

  /** The codecs a payload is made of. */
  datatype Parts = Parts(
    order: Codec<M.SmallOrder>,
    peer: Codec<M.Peer>,
    dispute: Codec<M.SolverDisputeInfo>,
    restore: Codec<(seq<M.RestoredOrder>, seq<M.RestoredDispute>)>,
    lockProof: Codec<Wire.LockProof>,
    signature: Codec<M.CashuProofSignature>,
    text: Codec<string>)

  ghost predicate LawfulParts(c: Parts) {
    && Lawful(c.order) && Lawful(c.peer) && Lawful(c.dispute) && Lawful(c.restore) && Lawful(c.lockProof)
      && Lawful(c.signature)
    && Lawful(c.text)
  }

  function WireParts(): Parts {
    Parts(Wire.OrderCodec(), Wire.PeerCodec(), Wire.DisputeCodec(), Wire.RestoreCodec(), Wire.LockProofCodec(),
          Wire.SignatureCodec(), Wire.TextCodec())
  }

  // --- the seventeen variants ---

  datatype PayloadVariant =
    | OrderVariant | PaymentRequestVariant | TextMessageVariant | PeerVariant | RatingUserVariant
    | AmountVariant | DisputeVariant | CantDoVariant | NextTradeVariant | PaymentFailedVariant | RestoreDataVariant
    | IdsVariant | OrdersVariant | BondResolutionVariant | BondPayoutRequestVariant | CashuLockProofVariant
    | CashuSignaturesVariant

  function VariantName(v: PayloadVariant): string {
    match v
    case OrderVariant => "order"
    case PaymentRequestVariant => "payment_request"
    case TextMessageVariant => "text_message"
    case PeerVariant => "peer"
    case RatingUserVariant => "rating_user"
    case AmountVariant => "amount"
    case DisputeVariant => "dispute"
    case CantDoVariant => "cant_do"
    case NextTradeVariant => "next_trade"
    case PaymentFailedVariant => "payment_failed"
    case RestoreDataVariant => "restore_data"
    case IdsVariant => "ids"
    case OrdersVariant => "orders"
    case BondResolutionVariant => "bond_resolution"
    case BondPayoutRequestVariant => "bond_payout_request"
    case CashuLockProofVariant => "cashu_lock_proof"
    case CashuSignaturesVariant => "cashu_signatures"
  }

  function VariantNamed(name: string): Option<PayloadVariant> {
    if name == "order" then Some(OrderVariant)
    else if name == "payment_request" then Some(PaymentRequestVariant)
    else if name == "text_message" then Some(TextMessageVariant)
    else if name == "peer" then Some(PeerVariant)
    else if name == "rating_user" then Some(RatingUserVariant)
    else if name == "amount" then Some(AmountVariant)
    else if name == "dispute" then Some(DisputeVariant)
    else if name == "cant_do" then Some(CantDoVariant)
    else if name == "next_trade" then Some(NextTradeVariant)
    else if name == "payment_failed" then Some(PaymentFailedVariant)
    else if name == "restore_data" then Some(RestoreDataVariant)
    else if name == "ids" then Some(IdsVariant)
    else if name == "orders" then Some(OrdersVariant)
    else if name == "bond_resolution" then Some(BondResolutionVariant)
    else if name == "bond_payout_request" then Some(BondPayoutRequestVariant)
    else if name == "cashu_lock_proof" then Some(CashuLockProofVariant)
    else if name == "cashu_signatures" then Some(CashuSignaturesVariant)
    else None
  }

  lemma VariantNameRoundTrip(v: PayloadVariant)
    ensures VariantNamed(VariantName(v)) == Some(v)
  {
  }

  function VariantOf(p: M.Payload): PayloadVariant {
    match p
    case Order(_) => OrderVariant
    case PaymentRequest(_, _, _) => PaymentRequestVariant
    case TextMessage(_) => TextMessageVariant
    case PeerPayload(_) => PeerVariant
    case RatingUser(_) => RatingUserVariant
    case Amount(_) => AmountVariant
    case Dispute(_, _) => DisputeVariant
    case CantDo(_) => CantDoVariant
    case NextTrade(_, _) => NextTradeVariant
    case PaymentFailed(_, _) => PaymentFailedVariant
    case RestoreData(_, _) => RestoreDataVariant
    case Ids(_) => IdsVariant
    case Orders(_) => OrdersVariant
    case BondResolution(_, _) => BondResolutionVariant
    case BondPayoutRequest(_, _) => BondPayoutRequestVariant
    case CashuLockProof(_, _, _, _, _, _) => CashuLockProofVariant
    case CashuSignatures(_) => CashuSignaturesVariant
  }

  // --- payload bodies ---

  function BodyToJson(c: Parts, p: M.Payload): Json {
    match p
    case Order(order) => c.order.write(order)
    case PaymentRequest(order, invoice, amount) =>
      Arr([if order.Some? then c.order.write(order.value) else Null, c.text.write(invoice), NumOrNull(amount)])
    case TextMessage(text) => c.text.write(text)
    case PeerPayload(peer) => c.peer.write(peer)
    case RatingUser(rating) => Num(rating)
    case Amount(amount) => Num(amount)
    case Dispute(id, info) => Arr([c.text.write(id), if info.Some? then c.dispute.write(info.value) else Null])
    case CantDo(reason) => if reason.Some? then c.text.write(reason.value) else Null
    case NextTrade(pubkey, index) => Arr([c.text.write(pubkey), Num(index)])
    case PaymentFailed(attempts, interval) =>
      Obj(["payment_attempts", "payment_retries_interval"],
          map["payment_attempts" := Num(attempts), "payment_retries_interval" := Num(interval)])
    case RestoreData(orders, disputes) => c.restore.write((orders, disputes))
    case Ids(ids) => Arr(All(ids, c.text.write))
    case Orders(orders) => Arr(All(orders, c.order.write))
    case BondResolution(seller, buyer) =>
      Obj(["slash_seller", "slash_buyer"], map["slash_seller" := Bool(seller), "slash_buyer" := Bool(buyer)])
    case BondPayoutRequest(order, at) =>
      Obj(["order", "slashed_at"], map["order" := c.order.write(order), "slashed_at" := Num(at)])
    case CashuLockProof(_, _, _, _, _, _) => c.lockProof.write(p)
    case CashuSignatures(signatures) => Arr(All(signatures, c.signature.write))
  }

  function Mapped<T, U>(r: Read<T>, f: T -> U): Read<U> {
    match r
    case Ok(v) => Ok(f(v))
    case Err(e) => Err(e)
  }

  /** Null stands for no value. */
  function NullOr<T>(codec: Codec<T>, j: Json): Read<Option<T>> {
    if j.Null? then Ok(None) else Mapped(codec.read(j), v => Some(v))
  }

  function ListOf<T>(codec: Codec<T>, j: Json): Read<seq<T>> {
    if !j.Arr? then Err("expected a JSON array") else Each(j.items, codec.read)
  }

  function Tuple(j: Json, size: nat): Read<seq<Json>> {
    if !j.Arr? || |j.items| != size then Err("expected a tuple") else Ok(j.items)
  }

  function PaymentRequestFromJson(c: Parts, j: Json): Read<M.Payload> {
    var items :- Tuple(j, 3);
    var order :- NullOr(c.order, items[0]);
    var invoice :- c.text.read(items[1]);
    Checked(IsCastNumber(Some(items[2])), M.PaymentRequest(order, invoice, OptionalNumberIn(Some(items[2]))))
  }

  function DisputeFromJson(c: Parts, j: Json): Read<M.Payload> {
    var items :- Tuple(j, 2);
    var id :- c.text.read(items[0]);
    var info :- NullOr(c.dispute, items[1]);
    Ok(M.Dispute(id, info))
  }

  function NextTradeFromJson(c: Parts, j: Json): Read<M.Payload> {
    var items :- Tuple(j, 2);
    var pubkey :- c.text.read(items[0]);
    Checked(IsNumber(Some(items[1])), M.NextTrade(pubkey, NumberIn(Some(items[1]))))
  }

  function PaymentFailedFromJson(j: Json): Read<M.Payload> {
    Checked(IsNumber(j.Get("payment_attempts")) && IsNumber(j.Get("payment_retries_interval")),
            M.PaymentFailed(NumberIn(j.Get("payment_attempts")), NumberIn(j.Get("payment_retries_interval"))))
  }

  function BondResolutionFromJson(j: Json): Read<M.Payload> {
    Checked(IsFlag(j.Get("slash_seller")) && IsFlag(j.Get("slash_buyer")),
            M.BondResolution(FlagIn(j.Get("slash_seller")), FlagIn(j.Get("slash_buyer"))))
  }

  function BondPayoutFromJson(c: Parts, j: Json): Read<M.Payload> {
    if j.Get("order").None? || !IsNumber(j.Get("slashed_at")) then Err("malformed bond payout request")
    else Mapped(c.order.read(j.Get("order").value), o => M.BondPayoutRequest(o, NumberIn(j.Get("slashed_at"))))
  }

  function BodyFromJson(c: Parts, v: PayloadVariant, j: Json): Read<M.Payload> {
    match v
    case OrderVariant => Mapped(c.order.read(j), o => M.Order(o))
    case PaymentRequestVariant => PaymentRequestFromJson(c, j)
    case TextMessageVariant => Mapped(c.text.read(j), s => M.TextMessage(s))
    case PeerVariant => Mapped(c.peer.read(j), p => M.PeerPayload(p))
    case RatingUserVariant => Checked(IsNumber(Some(j)), M.RatingUser(NumberIn(Some(j))))
    case AmountVariant => Checked(IsNumber(Some(j)), M.Amount(NumberIn(Some(j))))
    case DisputeVariant => DisputeFromJson(c, j)
    case CantDoVariant => Mapped(NullOr(c.text, j), reason => M.CantDo(reason))
    case NextTradeVariant => NextTradeFromJson(c, j)
    case PaymentFailedVariant => PaymentFailedFromJson(j)
    case RestoreDataVariant =>
      Mapped(c.restore.read(j), (both: (seq<M.RestoredOrder>, seq<M.RestoredDispute>)) => M.RestoreData(both.0, both.1))
    case IdsVariant => Mapped(ListOf(c.text, j), ids => M.Ids(ids))
    case OrdersVariant => Mapped(ListOf(c.order, j), orders => M.Orders(orders))
    case BondResolutionVariant => BondResolutionFromJson(j)
    case BondPayoutRequestVariant => BondPayoutFromJson(c, j)
    case CashuLockProofVariant => Mapped(c.lockProof.read(j), (p: Wire.LockProof) => p)
    case CashuSignaturesVariant => Mapped(ListOf(c.signature, j), s => M.CashuSignatures(s))
  }

  predicate GoodPayload(c: Parts, p: M.Payload) {
    match p
    case Order(order) => c.order.good(order)
    case PaymentRequest(order, invoice, _) => (order.Some? ==> c.order.good(order.value)) && c.text.good(invoice)
    case TextMessage(text) => c.text.good(text)
    case PeerPayload(peer) => c.peer.good(peer)
    case Dispute(id, info) => c.text.good(id) && (info.Some? ==> c.dispute.good(info.value))
    case CantDo(reason) => reason.Some? ==> c.text.good(reason.value)
    case NextTrade(pubkey, _) => c.text.good(pubkey)
    case RestoreData(orders, disputes) => c.restore.good((orders, disputes))
    case Ids(ids) => forall id | id in ids :: c.text.good(id)
    case Orders(orders) => forall o | o in orders :: c.order.good(o)
    case BondPayoutRequest(order, _) => c.order.good(order)
    case CashuLockProof(_, _, _, _, _, _) => c.lockProof.good(p)
    case CashuSignatures(signatures) => forall s | s in signatures :: c.signature.good(s)
    case _ => true
  }

  lemma NullOrInverts<T(!new)>(codec: Codec<T>, t: Option<T>)
    requires Lawful(codec)
    ensures Inverts(NullOr(codec, if t.Some? then codec.write(t.value) else Null), t, t.Some? ==> codec.good(t.value))
  {
    if t.Some? {
      assert !codec.write(t.value).Null? && Inverts(codec.read(codec.write(t.value)), t.value, codec.good(t.value));
    }
  }

  lemma ListInverts<T(!new)>(codec: Codec<T>, ts: seq<T>)
    requires Lawful(codec)
    ensures Inverts(ListOf(codec, Arr(All(ts, codec.write))), ts, forall t | t in ts :: codec.good(t))
  {
    EachInverts(ts, codec.write, codec.read, codec.good);
  }

  ghost predicate BodyInverts(c: Parts, p: M.Payload) {
    Inverts(BodyFromJson(c, VariantOf(p), BodyToJson(c, p)), p, GoodPayload(c, p))
  }

  lemma SingleBody(c: Parts, p: M.Payload)
    requires LawfulParts(c)
    requires p.Order? || p.TextMessage? || p.PeerPayload? || p.CashuLockProof? || p.BondPayoutRequest?
    ensures BodyInverts(c, p)
  {
  }

  lemma RestoreBody(c: Parts, p: M.Payload)
    requires LawfulParts(c) && p.RestoreData?
    ensures BodyInverts(c, p)
  {
  }

  lemma PlainBody(c: Parts, p: M.Payload)
    requires LawfulParts(c) && (p.RatingUser? || p.Amount? || p.PaymentFailed? || p.BondResolution? || p.NextTrade?)
    ensures BodyInverts(c, p)
  {
  }

  lemma OptionalBody(c: Parts, p: M.Payload)
    requires LawfulParts(c) && (p.PaymentRequest? || p.Dispute? || p.CantDo?)
    ensures BodyInverts(c, p)
  {
    match p
    case PaymentRequest(order, _, _) => NullOrInverts(c.order, order);
    case Dispute(_, info) => NullOrInverts(c.dispute, info);
    case CantDo(reason) => NullOrInverts(c.text, reason);
  }

  lemma ListBody(c: Parts, p: M.Payload)
    requires LawfulParts(c) && (p.Ids? || p.Orders?)
    ensures BodyInverts(c, p)
  {
    match p
    case Ids(ids) => ListInverts(c.text, ids);
    case Orders(orders) => ListInverts(c.order, orders);
  }

  lemma SignaturesBody(c: Parts, p: M.Payload)
    requires LawfulParts(c) && p.CashuSignatures?
    ensures BodyInverts(c, p)
  {
    ListInverts(c.signature, p.signatures);
  }

  /** Every payload body is read back as it was written, exactly when its parts are good. */
  lemma BodyRoundTrip(c: Parts, p: M.Payload)
    requires LawfulParts(c)
    ensures BodyInverts(c, p)
  {
    if p.PaymentRequest? || p.Dispute? || p.CantDo? {
      OptionalBody(c, p);
    } else if p.Ids? || p.Orders? {
      ListBody(c, p);
    } else if p.CashuSignatures? {
      SignaturesBody(c, p);
    } else if p.RestoreData? {
      RestoreBody(c, p);
    } else if p.RatingUser? || p.Amount? || p.PaymentFailed? || p.BondResolution? || p.NextTrade? {
      PlainBody(c, p);
    } else {
      SingleBody(c, p);
    }
  }

  // --- payloads, message kinds and messages ---

  /** An object with a single field. */
  function Tagged(name: string, body: Json): (j: Json)
    ensures j.Obj?
  {
    Obj([name], map[name := body])
  }

  function Untagged(j: Json): Read<(string, Json)> {
    if j.Obj? && |j.names| == 1 && j.names[0] in j.at then Ok((j.names[0], j.at[j.names[0]]))
    else Err("expected an object with exactly one key")
  }

  function PayloadToJson(c: Parts, p: M.Payload): (j: Json)
    ensures j.Obj?
  {
    Tagged(VariantName(VariantOf(p)), BodyToJson(c, p))
  }

  function PayloadFromJson(c: Parts, j: Json): Read<M.Payload> {
    var tagged :- Untagged(j);
    var v := VariantNamed(tagged.0);
    if v.None? then Err("unknown payload variant") else BodyFromJson(c, v.value, tagged.1)
  }

  lemma PayloadRoundTrip(c: Parts, p: M.Payload)
    requires LawfulParts(c)
    ensures Inverts(PayloadFromJson(c, PayloadToJson(c, p)), p, GoodPayload(c, p))
  {
    VariantNameRoundTrip(VariantOf(p));
    BodyRoundTrip(c, p);
  }

  function KindToJson(c: Parts, k: M.MessageKind): (j: Json)
    ensures j.Obj?
  {
    var payload := if k.payload.Some? then PayloadToJson(c, k.payload.value) else Null;
    var at := map["version" := Num(k.version), "request_id" := NumOrNull(k.requestId), "trade_index" :=
      NumOrNull(k.tradeIndex),
                  "action" := Str(k.action), "payload" := payload];
    if k.id.None? then Obj(["version", "request_id", "trade_index", "action", "payload"], at)
    else Obj(["version", "request_id", "trade_index", "id", "action", "payload"], at["id" := Str(k.id.value)])
  }

  function KindFromJson(c: Parts, j: Json): Read<M.MessageKind> {
    if !j.Obj? || !IsNumber(j.Get("version")) || j.Get("action").None?
      || !j.Get("action").value.Str? then Err("malformed message kind")
    else if !IsOptionalInteger(j.Get("request_id")) || !IsOptionalInteger(j.Get("trade_index"))
      || !IsOptionalText(j.Get("id")) then
      Err("malformed message field")
    else
      var payload :- if Nullish(j.Get("payload")) then Ok(None)
        else Mapped(PayloadFromJson(c, j.Get("payload").value), p => Some(p));
      Ok(M.MessageKind(NumberIn(j.Get("version")), OptionalNumberIn(j.Get("request_id")),
        OptionalNumberIn(j.Get("trade_index")),
                       OptionalTextIn(j.Get("id")), TextIn(j.Get("action")), payload))
  }

  predicate IndexIfAny(n: Option<real>) {
    n.Some? ==> IsIndex(n.value)
  }

  predicate GoodKind(c: Parts, k: M.MessageKind) {
    IndexIfAny(k.requestId) && IndexIfAny(k.tradeIndex) && ShortIfAny(k.id)
      && (k.payload.Some? ==> GoodPayload(c, k.payload.value))
  }

  lemma KindRoundTrip(c: Parts, k: M.MessageKind)
    requires LawfulParts(c)
    ensures Inverts(KindFromJson(c, KindToJson(c, k)), k, GoodKind(c, k))
  {
    var j := KindToJson(c, k);
    var payload := if k.payload.Some? then PayloadToJson(c, k.payload.value) else Null;
    KindFields(c, k, payload);
    if k.payload.Some? {
      PayloadRoundTrip(c, k.payload.value);
    }
    KindRead(c, j, k, payload);
  }

  ghost predicate HasKind(j: Json, k: M.MessageKind, payload: Json) {
    && j.Obj? && j.Get("version") == Some(Num(k.version)) && j.Get("request_id") == Some(NumOrNull(k.requestId))
    && j.Get("trade_index") == Some(NumOrNull(k.tradeIndex)) && j.Get("id") == AsField(k.id)
    && j.Get("action") == Some(Str(k.action)) && j.Get("payload") == Some(payload)
  }

  lemma KindFields(c: Parts, k: M.MessageKind, payload: Json)
    requires payload == if k.payload.Some? then PayloadToJson(c, k.payload.value) else Null
    ensures HasKind(KindToJson(c, k), k, payload)
  {
  }

  lemma KindRead(c: Parts, j: Json, k: M.MessageKind, payload: Json)
    requires HasKind(j, k, payload) && (k.payload.None? <==> payload.Null?)
    requires k.payload.Some? ==> Inverts(PayloadFromJson(c, payload), k.payload.value, GoodPayload(c, k.payload.value))
    ensures Inverts(KindFromJson(c, j), k, GoodKind(c, k))
  {
  }

  function VariantText(v: M.Variant): string {
    match v
    case OrderMessage => "order"
    case DisputeMessage => "dispute"
    case CantDoMessage => "cant-do"
    case RateMessage => "rate"
    case DmMessage => "dm"
    case RestoreMessage => "restore"
  }

  function VariantRead(s: string): Option<M.Variant> {
    if s == "order" then Some(M.OrderMessage)
    else if s == "dispute" then Some(M.DisputeMessage)
    else if s == "cant-do" then Some(M.CantDoMessage)
    else if s == "rate" then Some(M.RateMessage)
    else if s == "dm" then Some(M.DmMessage)
    else if s == "restore" then Some(M.RestoreMessage)
    else None
  }

  lemma VariantTextRoundTrip(v: M.Variant)
    ensures VariantRead(VariantText(v)) == Some(v)
  {
  }

  function ToJson(c: Parts, m: M.Message): (j: Json)
    ensures j.Obj?
  {
    Tagged(VariantText(m.variant), KindToJson(c, m.kind))
  }

  function FromJson(c: Parts, j: Json): Read<M.Message> {
    var tagged :- Untagged(j);
    var kind :- KindFromJson(c, tagged.1);
    var v := VariantRead(tagged.0);
    if v.None? then Err("unknown message variant") else Ok(M.Message(v.value, kind))
  }

  function MessageToJson(m: M.Message): (j: Json)
    ensures j.Obj?
  {
    ToJson(WireParts(), m)
  }

  function MessageFromJson(j: Json): Read<M.Message> {
    FromJson(WireParts(), j)
  }

  /** The limits of the wire format. */
  predicate WellFormed(m: M.Message) {
    GoodKind(WireParts(), m.kind)
  }

  /** A message comes back unchanged exactly when it is within the limits; otherwise it is refused. */
  lemma MessageRoundTrip(m: M.Message)
    ensures MessageFromJson(MessageToJson(m)).Ok? <==> WellFormed(m)
    ensures WellFormed(m) ==> MessageFromJson(MessageToJson(m)) == Ok(m)
  {
    var c := WireParts();
    Wire.PartsAreLawful();
    KindRoundTrip(c, m.kind);
    VariantTextRoundTrip(m.variant);
    Enveloped(c, m);
  }

  lemma Enveloped(c: Parts, m: M.Message)
    requires Inverts(KindFromJson(c, KindToJson(c, m.kind)), m.kind, GoodKind(c, m.kind))
    requires VariantRead(VariantText(m.variant)) == Some(m.variant)
    ensures Inverts(FromJson(c, ToJson(c, m)), m, GoodKind(c, m.kind))
  {
  }

  // --- whatever is accepted is within the limits ---

  lemma NullOrScreens<T(!new)>(codec: Codec<T>, j: Json)
    requires Lawful(codec) && NullOr(codec, j).Ok?
    ensures NullOr(codec, j).value.Some? ==> codec.good(NullOr(codec, j).value.value)
  {
    assert codec.read(j).Ok? ==> codec.good(codec.read(j).value);
  }

  lemma ListScreens<T(!new)>(codec: Codec<T>, j: Json)
    requires Lawful(codec) && ListOf(codec, j).Ok?
    ensures forall t | t in ListOf(codec, j).value :: codec.good(t)
  {
    EachScreens(j.items, codec.read, codec.good);
  }

  lemma TupleScreens(c: Parts, v: PayloadVariant, j: Json)
    requires LawfulParts(c) && BodyFromJson(c, v, j).Ok?
      && (v.PaymentRequestVariant? || v.DisputeVariant? || v.NextTradeVariant? || v.CantDoVariant?)
    ensures GoodPayload(c, BodyFromJson(c, v, j).value)
  {
    match v
    case PaymentRequestVariant => NullOrScreens(c.order, j.items[0]);
    case DisputeVariant => NullOrScreens(c.dispute, j.items[1]);
    case CantDoVariant => NullOrScreens(c.text, j);
    case NextTradeVariant =>
  }

  lemma ListBodyScreens(c: Parts, v: PayloadVariant, j: Json)
    requires LawfulParts(c) && BodyFromJson(c, v, j).Ok?
      && (v.IdsVariant? || v.OrdersVariant? || v.CashuSignaturesVariant?)
    ensures GoodPayload(c, BodyFromJson(c, v, j).value)
  {
    match v
    case IdsVariant => ListScreens(c.text, j);
    case OrdersVariant => ListScreens(c.order, j);
    case CashuSignaturesVariant => ListScreens(c.signature, j);
  }

  lemma BodyScreens(c: Parts, v: PayloadVariant, j: Json)
    requires LawfulParts(c) && BodyFromJson(c, v, j).Ok?
    ensures GoodPayload(c, BodyFromJson(c, v, j).value)
  {
    match v
    case PaymentRequestVariant | DisputeVariant | NextTradeVariant | CantDoVariant => TupleScreens(c, v, j);
    case IdsVariant | OrdersVariant | CashuSignaturesVariant => ListBodyScreens(c, v, j);
    case _ =>
  }

  /** A message the decoder accepts is within the limits, so writing it and reading it again gives it back. */
  lemma DecodedIsWellFormed(j: Json)
    requires MessageFromJson(j).Ok?
    ensures WellFormed(MessageFromJson(j).value)
    ensures MessageFromJson(MessageToJson(MessageFromJson(j).value)) == MessageFromJson(j)
  {
    var c := WireParts();
    Wire.PartsAreLawful();
    KindScreens(c, Untagged(j).value.1);
    MessageRoundTrip(MessageFromJson(j).value);
  }

  lemma WellFormedRestore(m: M.Message)
    requires WellFormed(m) && m.kind.payload.Some? && m.kind.payload.value.RestoreData?
    ensures Wire.GoodRestore(m.kind.payload.value.restoredOrders, m.kind.payload.value.restoredDisputes)
  {
    assert WireParts().restore.good == Wire.GoodRestoreData;
  }

  lemma KindScreens(c: Parts, j: Json)
    requires LawfulParts(c) && KindFromJson(c, j).Ok?
    ensures GoodKind(c, KindFromJson(c, j).value)
  {
    if !Nullish(j.Get("payload")) {
      PayloadScreens(c, j.Get("payload").value);
    }
  }

  lemma PayloadScreens(c: Parts, j: Json)
    requires LawfulParts(c) && PayloadFromJson(c, j).Ok?
    ensures GoodPayload(c, PayloadFromJson(c, j).value)
  {
    var tagged := Untagged(j).value;
    BodyScreens(c, VariantNamed(tagged.0).value, tagged.1);
  }

  function WireCodec(): Codec<M.Message> {
    Codec(MessageToJson, MessageFromJson, WellFormed)
  }

  /** Decoding undoes encoding exactly on the messages within the limits, and nothing else is ever decoded. */
  lemma WireCodecIsLawful()
    ensures Lawful(WireCodec())
  {
    var codec := WireCodec();
    forall m: M.Message
      ensures !codec.write(m).Null? && Inverts(codec.read(codec.write(m)), m, codec.good(m))
    {
      MessageRoundTrip(m);
    }
    forall j | codec.read(j).Ok?
      ensures codec.good(codec.read(j).value)
    {
      DecodedIsWellFormed(j);
    }
  }
}
