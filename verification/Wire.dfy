/** The parts of a message as JSON values and back: orders, peers, dispute reports, restore data, escrow proofs. Each
    part has a writer, a reader and the limits within which the reader undoes the writer; beyond them it refuses. Names
    are those on the wire. */
module Wire {
  import opened Wrappers
  import M = Messages
  import opened Json

  // --- orders ---

  const OrderNames := [
    "id", "kind", "status", "amount", "fiat_code", "min_amount", "max_amount", "fiat_amount", "payment_method",
      "premium", "buyer_trade_pubkey",
    "seller_trade_pubkey", "buyer_invoice", "created_at", "expires_at"]

  function OrderTerms(o: M.SmallOrder): map<string, Json> {
    map[
      "kind" := OrNull(o.kind),
      "status" := OrNull(o.status),
      "amount" := Num(o.amount),
      "fiat_code" := Str(o.fiatCode),
      "min_amount" := NumOrNull(o.minAmount),
      "max_amount" := NumOrNull(o.maxAmount),
      "fiat_amount" := Num(o.fiatAmount),
      "payment_method" := Str(o.paymentMethod),
      "premium" := Num(o.premium),
      "created_at" := NumOrNull(o.createdAt),
      "expires_at" := NumOrNull(o.expiresAt)]
  }

  /** The fields left out when there is no value. */
  function WithAddresses(at: map<string, Json>, o: M.SmallOrder): map<string, Json> {
    var first := WithSome(WithSome(at, "id", o.id), "buyer_trade_pubkey", o.buyerTradePubkey);
    WithSome(WithSome(first, "seller_trade_pubkey", o.sellerTradePubkey), "buyer_invoice", o.buyerInvoice)
  }

  function OrderFields(o: M.SmallOrder): map<string, Json> {
    WithAddresses(OrderTerms(o), o)
  }

  function SmallOrderToJson(o: M.SmallOrder): (j: Json)
    ensures j.Obj?
  {
    Obj(Present(OrderNames, OrderFields(o)), OrderFields(o))
  }

  predicate IsOrder(j: Json) {
    && j.Obj?
    && IsCastText(j.Get("id")) && IsCastText(j.Get("kind")) && IsCastText(j.Get("status"))
    && IsNumber(j.Get("amount")) && IsText(j.Get("fiat_code"))
    && IsCastNumber(j.Get("min_amount")) && IsCastNumber(j.Get("max_amount")) && IsNumber(j.Get("fiat_amount"))
    && IsText(j.Get("payment_method")) && IsNumber(j.Get("premium"))
    && IsCastText(j.Get("buyer_trade_pubkey")) && IsCastText(j.Get("seller_trade_pubkey"))
      && IsCastText(j.Get("buyer_invoice"))
    && IsCastNumber(j.Get("created_at")) && IsCastNumber(j.Get("expires_at"))
  }

  function OrderIn(j: Json): M.SmallOrder {
    M.SmallOrder(
      OptionalTextIn(j.Get("id")), OptionalTextIn(j.Get("kind")), OptionalTextIn(j.Get("status")),
        NumberIn(j.Get("amount")),
      TextIn(j.Get("fiat_code")), OptionalNumberIn(j.Get("min_amount")), OptionalNumberIn(j.Get("max_amount")),
        NumberIn(j.Get("fiat_amount")),
      TextIn(j.Get("payment_method")), NumberIn(j.Get("premium")), OptionalTextIn(j.Get("buyer_trade_pubkey")),
      OptionalTextIn(j.Get("seller_trade_pubkey")), OptionalTextIn(j.Get("buyer_invoice")),
        OptionalNumberIn(j.Get("created_at")),
      OptionalNumberIn(j.Get("expires_at")))
  }

  function SmallOrderFromJson(j: Json): Read<M.SmallOrder> {
    Checked(IsOrder(j), OrderIn(j))
  }

  predicate GoodOrder(o: M.SmallOrder) {
    Short(o.fiatCode) && Short(o.paymentMethod)
  }

  ghost predicate HasTerms(at: map<string, Json>, o: M.SmallOrder) {
    && Field(at, "kind") == Some(OrNull(o.kind)) && Field(at, "status") == Some(OrNull(o.status))
    && Field(at, "amount") == Some(Num(o.amount)) && Field(at, "fiat_code") == Some(Str(o.fiatCode))
    && Field(at, "min_amount") == Some(NumOrNull(o.minAmount))
      && Field(at, "max_amount") == Some(NumOrNull(o.maxAmount))
    && Field(at, "fiat_amount") == Some(Num(o.fiatAmount)) && Field(at, "payment_method") == Some(Str(o.paymentMethod))
    && Field(at, "premium") == Some(Num(o.premium))
    && Field(at, "created_at") == Some(NumOrNull(o.createdAt))
      && Field(at, "expires_at") == Some(NumOrNull(o.expiresAt))
  }

  ghost predicate HasAddresses(at: map<string, Json>, o: M.SmallOrder) {
    && Field(at, "id") == AsField(o.id) && Field(at, "buyer_trade_pubkey") == AsField(o.buyerTradePubkey)
    && Field(at, "seller_trade_pubkey") == AsField(o.sellerTradePubkey)
      && Field(at, "buyer_invoice") == AsField(o.buyerInvoice)
  }

  ghost predicate HasOrderFields(j: Json, o: M.SmallOrder) {
    j.Obj? && HasTerms(j.at, o) && HasAddresses(j.at, o)
  }

  lemma TermsWritten(o: M.SmallOrder)
    ensures HasTerms(OrderTerms(o), o)
    ensures var at := OrderTerms(o);
            "id" !in at && "buyer_trade_pubkey" !in at && "seller_trade_pubkey" !in at && "buyer_invoice" !in at
  {
  }

  lemma AddressesWritten(at: map<string, Json>, o: M.SmallOrder)
    requires HasTerms(at, o)
    requires "id" !in at && "buyer_trade_pubkey" !in at && "seller_trade_pubkey" !in at && "buyer_invoice" !in at
    ensures HasTerms(WithAddresses(at, o), o) && HasAddresses(WithAddresses(at, o), o)
  {
  }

  lemma OrderFieldsRead(j: Json, o: M.SmallOrder)
    requires HasOrderFields(j, o)
    ensures Inverts(SmallOrderFromJson(j), o, GoodOrder(o))
  {
  }

  lemma SmallOrderRoundTrip(o: M.SmallOrder)
    ensures Inverts(SmallOrderFromJson(SmallOrderToJson(o)), o, GoodOrder(o))
  {
    TermsWritten(o);
    AddressesWritten(OrderTerms(o), o);
    OrderFieldsRead(SmallOrderToJson(o), o);
  }

  // --- reputation and peers ---

  function UserInfoToJson(u: M.UserInfo): (j: Json)
    ensures j.Obj?
  {
    Obj(["rating", "reviews", "operating_days"],
        map["rating" := Num(u.rating), "reviews" := Num(u.reviews), "operating_days" := Num(u.operatingDays)])
  }

  /** Any value may be asked for its properties, except null and undefined. */
  function UserInfoFromJson(v: Option<Json>): Read<M.UserInfo> {
    if Nullish(v) then Err("cannot read properties of null or undefined")
    else
      var j := v.value;
      Checked(IsNumber(j.Get("rating")) && IsNumber(j.Get("reviews")) && IsNumber(j.Get("operating_days")),
              M.UserInfo(NumberIn(j.Get("rating")), NumberIn(j.Get("reviews")), NumberIn(j.Get("operating_days"))))
  }

  lemma UserInfoRoundTrip(u: M.UserInfo)
    ensures UserInfoFromJson(Some(UserInfoToJson(u))) == Ok(u)
  {
  }

  function InfoOrNull(u: Option<M.UserInfo>): (j: Json)
    ensures j.Null? <==> u.None?
  {
    match u
    case Some(info) => UserInfoToJson(info)
    case None => Null
  }

  /** Null is no snapshot; a missing field is an error. */
  function NullOrInfo(v: Option<Json>): Read<Option<M.UserInfo>> {
    if v == Some(Null) then Ok(None)
    else
      match UserInfoFromJson(v)
      case Ok(u) => Ok(Some(u))
      case Err(e) => Err(e)
  }

  lemma InfoOrNullRoundTrip(u: Option<M.UserInfo>)
    ensures NullOrInfo(Some(InfoOrNull(u))) == Ok(u)
  {
    if u.Some? {
      UserInfoRoundTrip(u.value);
    }
  }

  function PeerToJson(p: M.Peer): (j: Json)
    ensures j.Obj?
  {
    if p.reputation.None? then Obj(["pubkey"], map["pubkey" := Str(p.pubkey)])
    else Obj(["pubkey", "reputation"],
      map["pubkey" := Str(p.pubkey), "reputation" := UserInfoToJson(p.reputation.value)])
  }

  function PeerFromJson(j: Json): Read<M.Peer> {
    if !j.Obj? || !IsText(j.Get("pubkey")) then Err("malformed peer")
    else if Nullish(j.Get("reputation")) then Ok(M.Peer(j.Get("pubkey").value.text, None))
    else
      match UserInfoFromJson(j.Get("reputation"))
      case Ok(u) => Ok(M.Peer(j.Get("pubkey").value.text, Some(u)))
      case Err(e) => Err(e)
  }

  predicate GoodPeer(p: M.Peer) {
    Short(p.pubkey)
  }

  lemma PeerRoundTrip(p: M.Peer)
    ensures Inverts(PeerFromJson(PeerToJson(p)), p, GoodPeer(p))
  {
    if p.reputation.Some? {
      UserInfoRoundTrip(p.reputation.value);
    }
  }

  // --- disputes ---

  const DisputeNames := [
    "id", "kind", "status", "hash", "preimage", "order_previous_status", "initiator_pubkey", "buyer_pubkey",
      "seller_pubkey",
    "initiator_full_privacy", "counterpart_full_privacy", "initiator_info", "counterpart_info", "premium",
      "payment_method",
    "amount", "fiat_amount", "fee", "routing_fee", "buyer_invoice", "invoice_held_at", "taken_at", "created_at"]

  function DisputeFields(d: M.SolverDisputeInfo): map<string, Json> {
    map[
      "id" := Str(d.id),
      "kind" := Str(d.kind),
      "status" := Str(d.status),
      "hash" := OrNull(d.hash),
      "preimage" := OrNull(d.preimage),
      "order_previous_status" := Str(d.orderPreviousStatus),
      "initiator_pubkey" := Str(d.initiatorPubkey),
      "buyer_pubkey" := OrNull(d.buyerPubkey),
      "seller_pubkey" := OrNull(d.sellerPubkey),
      "initiator_full_privacy" := Bool(d.initiatorFullPrivacy),
      "counterpart_full_privacy" := Bool(d.counterpartFullPrivacy),
      "initiator_info" := InfoOrNull(d.initiatorInfo),
      "counterpart_info" := InfoOrNull(d.counterpartInfo),
      "premium" := Num(d.premium),
      "payment_method" := Str(d.paymentMethod),
      "amount" := Num(d.amount),
      "fiat_amount" := Num(d.fiatAmount),
      "fee" := Num(d.fee),
      "routing_fee" := Num(d.routingFee),
      "buyer_invoice" := OrNull(d.buyerInvoice),
      "invoice_held_at" := Num(d.invoiceHeldAt),
      "taken_at" := Num(d.takenAt),
      "created_at" := Num(d.createdAt)]
  }

  function DisputeInfoToJson(d: M.SolverDisputeInfo): (j: Json)
    ensures j.Obj?
  {
    Obj(DisputeNames, DisputeFields(d))
  }

  predicate IsDisputeCase(j: Json) {
    && IsText(j.Get("id")) && IsText(j.Get("kind")) && IsText(j.Get("status"))
    && IsCastText(j.Get("hash")) && IsCastText(j.Get("preimage")) && IsText(j.Get("order_previous_status"))
    && IsText(j.Get("initiator_pubkey")) && IsCastText(j.Get("buyer_pubkey")) && IsCastText(j.Get("seller_pubkey"))
    && IsFlag(j.Get("initiator_full_privacy")) && IsFlag(j.Get("counterpart_full_privacy"))
  }

  predicate IsDisputeTerms(j: Json) {
    && IsNumber(j.Get("premium")) && IsText(j.Get("payment_method")) && IsNumber(j.Get("amount"))
      && IsNumber(j.Get("fiat_amount"))
    && IsNumber(j.Get("fee")) && IsNumber(j.Get("routing_fee")) && IsCastText(j.Get("buyer_invoice"))
    && IsNumber(j.Get("invoice_held_at")) && IsNumber(j.Get("taken_at")) && IsNumber(j.Get("created_at"))
  }

  function DisputeIn(j: Json, initiator: Option<M.UserInfo>, counterpart: Option<M.UserInfo>): M.SolverDisputeInfo {
    M.SolverDisputeInfo(
      TextIn(j.Get("id")), TextIn(j.Get("kind")), TextIn(j.Get("status")), OptionalTextIn(j.Get("hash")),
      OptionalTextIn(j.Get("preimage")), TextIn(j.Get("order_previous_status")), TextIn(j.Get("initiator_pubkey")),
      OptionalTextIn(j.Get("buyer_pubkey")), OptionalTextIn(j.Get("seller_pubkey")),
        FlagIn(j.Get("initiator_full_privacy")),
      FlagIn(j.Get("counterpart_full_privacy")), initiator, counterpart, NumberIn(j.Get("premium")),
        TextIn(j.Get("payment_method")),
      NumberIn(j.Get("amount")), NumberIn(j.Get("fiat_amount")), NumberIn(j.Get("fee")), NumberIn(j.Get("routing_fee")),
      OptionalTextIn(j.Get("buyer_invoice")), NumberIn(j.Get("invoice_held_at")), NumberIn(j.Get("taken_at")),
        NumberIn(j.Get("created_at")))
  }

  function DisputeInfoFromJson(j: Json): Read<M.SolverDisputeInfo> {
    var initiator, counterpart := NullOrInfo(j.Get("initiator_info")), NullOrInfo(j.Get("counterpart_info"));
    if j.Null? || initiator.Err? || counterpart.Err? then Err("malformed dispute")
    else Checked(IsDisputeCase(j) && IsDisputeTerms(j), DisputeIn(j, initiator.value, counterpart.value))
  }

  predicate GoodDispute(d: M.SolverDisputeInfo) {
    && Short(d.id) && Short(d.kind) && Short(d.status) && Short(d.orderPreviousStatus) && Short(d.initiatorPubkey)
    && Short(d.paymentMethod)
  }

  ghost predicate HasCase(at: map<string, Json>, d: M.SolverDisputeInfo) {
    && Field(at, "id") == Some(Str(d.id)) && Field(at, "kind") == Some(Str(d.kind))
      && Field(at, "status") == Some(Str(d.status))
    && Field(at, "hash") == Some(OrNull(d.hash)) && Field(at, "preimage") == Some(OrNull(d.preimage))
    && Field(at, "order_previous_status") == Some(Str(d.orderPreviousStatus))
  }

  ghost predicate HasParties(at: map<string, Json>, d: M.SolverDisputeInfo) {
    && Field(at, "initiator_pubkey") == Some(Str(d.initiatorPubkey))
      && Field(at, "buyer_pubkey") == Some(OrNull(d.buyerPubkey))
    && Field(at, "seller_pubkey") == Some(OrNull(d.sellerPubkey))
    && Field(at, "initiator_full_privacy") == Some(Bool(d.initiatorFullPrivacy))
    && Field(at, "counterpart_full_privacy") == Some(Bool(d.counterpartFullPrivacy))
  }

  ghost predicate HasDisputeTerms(at: map<string, Json>, d: M.SolverDisputeInfo) {
    && Field(at, "initiator_info") == Some(InfoOrNull(d.initiatorInfo))
      && Field(at, "counterpart_info") == Some(InfoOrNull(d.counterpartInfo))
    && Field(at, "premium") == Some(Num(d.premium)) && Field(at, "payment_method") == Some(Str(d.paymentMethod))
    && Field(at, "amount") == Some(Num(d.amount)) && Field(at, "fiat_amount") == Some(Num(d.fiatAmount))
    && Field(at, "fee") == Some(Num(d.fee)) && Field(at, "routing_fee") == Some(Num(d.routingFee))
    && Field(at, "buyer_invoice") == Some(OrNull(d.buyerInvoice))
      && Field(at, "invoice_held_at") == Some(Num(d.invoiceHeldAt))
    && Field(at, "taken_at") == Some(Num(d.takenAt)) && Field(at, "created_at") == Some(Num(d.createdAt))
  }

  lemma CaseWritten(d: M.SolverDisputeInfo)
    ensures HasCase(DisputeFields(d), d)
  {
  }

  lemma PartiesWritten(d: M.SolverDisputeInfo)
    ensures HasParties(DisputeFields(d), d)
  {
  }

  lemma DisputeTermsWritten(d: M.SolverDisputeInfo)
    ensures HasDisputeTerms(DisputeFields(d), d)
  {
  }

  ghost predicate HasDispute(j: Json, d: M.SolverDisputeInfo) {
    j.Obj? && HasCase(j.at, d) && HasParties(j.at, d) && HasDisputeTerms(j.at, d)
  }

  lemma DisputeFieldsChecked(j: Json, d: M.SolverDisputeInfo)
    requires HasDispute(j, d)
    ensures IsDisputeCase(j) && IsDisputeTerms(j) <==> GoodDispute(d)
  {
  }

  lemma DisputeFieldsRead(j: Json, d: M.SolverDisputeInfo)
    requires HasDispute(j, d)
    ensures DisputeIn(j, d.initiatorInfo, d.counterpartInfo) == d
  {
  }

  lemma DisputeRoundTrip(d: M.SolverDisputeInfo)
    ensures Inverts(DisputeInfoFromJson(DisputeInfoToJson(d)), d, GoodDispute(d))
  {
    CaseWritten(d);
    PartiesWritten(d);
    DisputeTermsWritten(d);
    DisputeFieldsChecked(DisputeInfoToJson(d), d);
    DisputeFieldsRead(DisputeInfoToJson(d), d);
    InfoOrNullRoundTrip(d.initiatorInfo);
    InfoOrNullRoundTrip(d.counterpartInfo);
  }

  // --- restore data ---

  const MaxRestoreItems := 10_000

  function RestoredOrderToJson(o: M.RestoredOrder): (j: Json) {
    Obj(["order_id", "trade_index", "status"],
        map["order_id" := Str(o.orderId), "trade_index" := Num(o.tradeIndex), "status" := Str(o.status)])
  }

  function RestoredOrderFromJson(j: Json): Read<M.RestoredOrder> {
    Checked(IsText(j.Get("order_id")) && IsInteger(j.Get("trade_index")) && IsText(j.Get("status")),
            M.RestoredOrder(TextIn(j.Get("order_id")), NumberIn(j.Get("trade_index")), TextIn(j.Get("status"))))
  }

  predicate GoodRestoredOrder(o: M.RestoredOrder) {
    Short(o.orderId) && IsIndex(o.tradeIndex) && Short(o.status)
  }

  lemma RestoredOrderRoundTrip(o: M.RestoredOrder)
    ensures Inverts(RestoredOrderFromJson(RestoredOrderToJson(o)), o, GoodRestoredOrder(o))
  {
  }

  function RestoredDisputeToJson(d: M.RestoredDispute): (j: Json) {
    Obj(["dispute_id", "order_id", "trade_index", "status", "initiator", "solver_pubkey"],
        map["dispute_id" := Str(d.disputeId), "order_id" := Str(d.orderId), "trade_index" := Num(d.tradeIndex),
            "status" := Str(d.status), "initiator" := OrNull(d.initiator), "solver_pubkey" := OrNull(d.solverPubkey)])
  }

  function RestoredDisputeFromJson(j: Json): Read<M.RestoredDispute> {
    Checked(&& IsText(j.Get("dispute_id")) && IsText(j.Get("order_id")) && IsInteger(j.Get("trade_index"))
      && IsText(j.Get("status"))
            && IsCastText(j.Get("initiator")) && IsOptionalText(j.Get("solver_pubkey")),
            M.RestoredDispute(TextIn(j.Get("dispute_id")), TextIn(j.Get("order_id")), NumberIn(j.Get("trade_index")),
                              TextIn(j.Get("status")), OptionalTextIn(j.Get("initiator")),
                                OptionalTextIn(j.Get("solver_pubkey"))))
  }

  predicate GoodRestoredDispute(d: M.RestoredDispute) {
    Short(d.disputeId) && Short(d.orderId) && IsIndex(d.tradeIndex) && Short(d.status) && ShortIfAny(d.solverPubkey)
  }

  lemma RestoredDisputeRoundTrip(d: M.RestoredDispute)
    ensures Inverts(RestoredDisputeFromJson(RestoredDisputeToJson(d)), d, GoodRestoredDispute(d))
  {
  }

  function RestoreToJson(orders: seq<M.RestoredOrder>, disputes: seq<M.RestoredDispute>): (j: Json) {
    Obj(["orders", "disputes"],
        map["orders" := Arr(All(orders, RestoredOrderToJson)), "disputes" := Arr(All(disputes, RestoredDisputeToJson))])
  }

  /** A missing or null list is empty. */
  function ListIn(v: Option<Json>): Read<seq<Json>> {
    if Nullish(v) then Ok([]) else if v.value.Arr? then Ok(v.value.items) else Err("not a list")
  }

  function RestoreFromJson(j: Json): Read<(seq<M.RestoredOrder>, seq<M.RestoredDispute>)> {
    var orders, disputes := ListIn(j.Get("orders")), ListIn(j.Get("disputes"));
    if j.Null? || orders.Err? || disputes.Err? then Err("malformed restore data")
    else if |orders.value| > MaxRestoreItems || |disputes.value| > MaxRestoreItems then Err("too many items")
    else
      var first, second := Each(orders.value, RestoredOrderFromJson), Each(disputes.value, RestoredDisputeFromJson);
      if first.Ok? && second.Ok? then Ok((first.value, second.value)) else Err("malformed restore item")
  }

  predicate GoodRestore(orders: seq<M.RestoredOrder>, disputes: seq<M.RestoredDispute>) {
    && |orders| <= MaxRestoreItems && |disputes| <= MaxRestoreItems
    && (forall o | o in orders :: GoodRestoredOrder(o)) && forall d | d in disputes :: GoodRestoredDispute(d)
  }

  lemma RestoredOrdersRoundTrip(orders: seq<M.RestoredOrder>)
    ensures Inverts(Each(All(orders, RestoredOrderToJson), RestoredOrderFromJson), orders, forall o | o in orders ::
      GoodRestoredOrder(o))
  {
    forall o | o in orders {
      RestoredOrderRoundTrip(o);
    }
    EachInverts(orders, RestoredOrderToJson, RestoredOrderFromJson, GoodRestoredOrder);
  }

  lemma RestoredDisputesRoundTrip(disputes: seq<M.RestoredDispute>)
    ensures Inverts(Each(All(disputes, RestoredDisputeToJson), RestoredDisputeFromJson), disputes,
      forall d | d in disputes :: GoodRestoredDispute(d))
  {
    forall d | d in disputes {
      RestoredDisputeRoundTrip(d);
    }
    EachInverts(disputes, RestoredDisputeToJson, RestoredDisputeFromJson, GoodRestoredDispute);
  }

  lemma RestoreListsWritten(orders: seq<M.RestoredOrder>, disputes: seq<M.RestoredDispute>)
    ensures ListIn(RestoreToJson(orders, disputes).Get("orders")) == Ok(All(orders, RestoredOrderToJson))
    ensures ListIn(RestoreToJson(orders, disputes).Get("disputes")) == Ok(All(disputes, RestoredDisputeToJson))
    ensures !RestoreToJson(orders, disputes).Null?
  {
  }

  lemma RestoreListsRead(
    j: Json, first: seq<Json>, second: seq<Json>, orders: seq<M.RestoredOrder>, disputes: seq<M.RestoredDispute>)
    requires !j.Null? && ListIn(j.Get("orders")) == Ok(first) && ListIn(j.Get("disputes")) == Ok(second)
    requires |first| == |orders| && |second| == |disputes|
    requires Inverts(Each(first, RestoredOrderFromJson), orders, forall o | o in orders :: GoodRestoredOrder(o))
    requires Inverts(Each(second, RestoredDisputeFromJson), disputes, forall d | d in disputes ::
      GoodRestoredDispute(d))
    ensures Inverts(RestoreFromJson(j), (orders, disputes), GoodRestore(orders, disputes))
  {
  }

  lemma RestoreRoundTrip(orders: seq<M.RestoredOrder>, disputes: seq<M.RestoredDispute>)
    ensures Inverts(RestoreFromJson(RestoreToJson(orders, disputes)), (orders, disputes), GoodRestore(orders, disputes))
  {
    RestoredOrdersRoundTrip(orders);
    RestoredDisputesRoundTrip(disputes);
    RestoreListsWritten(orders, disputes);
    RestoreListsRead(
      RestoreToJson(orders, disputes), All(orders, RestoredOrderToJson), All(disputes, RestoredDisputeToJson), orders,
        disputes);
  }

  lemma RestoreScreens(j: Json)
    requires RestoreFromJson(j).Ok?
    ensures GoodRestore(RestoreFromJson(j).value.0, RestoreFromJson(j).value.1)
  {
    assert Screens(RestoredOrderFromJson, GoodRestoredOrder);
    assert Screens(RestoredDisputeFromJson, GoodRestoredDispute);
    EachScreens(ListIn(j.Get("orders")).value, RestoredOrderFromJson, GoodRestoredOrder);
    EachScreens(ListIn(j.Get("disputes")).value, RestoredDisputeFromJson, GoodRestoredDispute);
  }

  // --- cashu ---

  type LockProof = p: M.Payload | p.CashuLockProof? witness M.CashuLockProof("", "", "", "", "", None)

  function LockProofToJson(p: LockProof): (j: Json)
    ensures j.Obj?
  {
    var names, at :=
      ["token", "mint_url", "buyer_pubkey", "seller_pubkey", "mostro_pubkey"],
      map["token" := Str(p.token), "mint_url" := Str(p.mintUrl), "buyer_pubkey" := Str(p.buyerPubkey),
          "seller_pubkey" := Str(p.sellerPubkey), "mostro_pubkey" := Str(p.mostroPubkey)];
    if p.feeToken.Some? then Obj(names + ["fee_token"], at["fee_token" := Str(p.feeToken.value)]) else Obj(names, at)
  }

  function LockProofFromJson(j: Json): Read<LockProof> {
    Checked(&& IsText(j.Get("token")) && IsText(j.Get("mint_url")) && IsText(j.Get("buyer_pubkey"))
      && IsText(j.Get("seller_pubkey"))
            && IsText(j.Get("mostro_pubkey")) && IsCastText(j.Get("fee_token")),
            M.CashuLockProof(TextIn(j.Get("token")), TextIn(j.Get("mint_url")), TextIn(j.Get("buyer_pubkey")),
                             TextIn(j.Get("seller_pubkey")), TextIn(j.Get("mostro_pubkey")),
                               OptionalTextIn(j.Get("fee_token"))))
  }

  predicate GoodLockProof(p: LockProof) {
    Short(p.token) && Short(p.mintUrl) && Short(p.buyerPubkey) && Short(p.sellerPubkey) && Short(p.mostroPubkey)
  }

  lemma LockProofRoundTrip(p: LockProof)
    ensures Inverts(LockProofFromJson(LockProofToJson(p)), p, GoodLockProof(p))
  {
  }

  function ProofSignatureToJson(s: M.CashuProofSignature): (j: Json) {
    Obj(["secret", "signature"], map["secret" := Str(s.secret), "signature" := Str(s.signature)])
  }

  function ProofSignatureFromJson(j: Json): Read<M.CashuProofSignature> {
    Checked(IsText(j.Get("secret")) && IsText(j.Get("signature")),
            M.CashuProofSignature(TextIn(j.Get("secret")), TextIn(j.Get("signature"))))
  }

  predicate GoodProofSignature(s: M.CashuProofSignature) {
    Short(s.secret) && Short(s.signature)
  }

  lemma ProofSignatureRoundTrip(s: M.CashuProofSignature)
    ensures Inverts(ProofSignatureFromJson(ProofSignatureToJson(s)), s, GoodProofSignature(s))
  {
  }

  // --- the parts of a payload ---

  function TextJson(s: string): Json {
    Str(s)
  }

  function TextFromJson(j: Json): Read<string> {
    Checked(IsText(Some(j)), TextIn(Some(j)))
  }

  function RestoreDataToJson(both: (seq<M.RestoredOrder>, seq<M.RestoredDispute>)): Json {
    RestoreToJson(both.0, both.1)
  }

  predicate GoodRestoreData(both: (seq<M.RestoredOrder>, seq<M.RestoredDispute>)) {
    GoodRestore(both.0, both.1)
  }

  function OrderCodec(): Codec<M.SmallOrder> {
    Codec(SmallOrderToJson, SmallOrderFromJson, GoodOrder)
  }

  function PeerCodec(): Codec<M.Peer> {
    Codec(PeerToJson, PeerFromJson, GoodPeer)
  }

  function DisputeCodec(): Codec<M.SolverDisputeInfo> {
    Codec(DisputeInfoToJson, DisputeInfoFromJson, GoodDispute)
  }

  function RestoreCodec(): Codec<(seq<M.RestoredOrder>, seq<M.RestoredDispute>)> {
    Codec(RestoreDataToJson, RestoreFromJson, GoodRestoreData)
  }

  function LockProofCodec(): Codec<LockProof> {
    Codec(LockProofToJson, LockProofFromJson, GoodLockProof)
  }

  function SignatureCodec(): Codec<M.CashuProofSignature> {
    Codec(ProofSignatureToJson, ProofSignatureFromJson, GoodProofSignature)
  }

  function TextCodec(): Codec<string> {
    Codec(TextJson, TextFromJson, Short)
  }

  /** Every part is read back as it was written, exactly when its texts, lists and indices are within the limits. */
  lemma PartsAreLawful()
    ensures Lawful(OrderCodec()) && Lawful(PeerCodec()) && Lawful(DisputeCodec())
    ensures Lawful(RestoreCodec()) && Lawful(LockProofCodec()) && Lawful(SignatureCodec()) && Lawful(TextCodec())
  {
    OrderCodecIsLawful();
    DisputeCodecIsLawful();
    SmallCodecsAreLawful();
    RestoreCodecIsLawful();
  }

  lemma OrderCodecIsLawful()
    ensures Lawful(OrderCodec())
  {
    forall o: M.SmallOrder {
      SmallOrderRoundTrip(o);
    }
  }

  lemma DisputeCodecIsLawful()
    ensures Lawful(DisputeCodec())
  {
    forall d: M.SolverDisputeInfo {
      DisputeRoundTrip(d);
    }
  }

  lemma RestoreCodecIsLawful()
    ensures Lawful(RestoreCodec())
  {
    forall j | RestoreFromJson(j).Ok?
      ensures GoodRestoreData(RestoreFromJson(j).value)
    {
      RestoreScreens(j);
    }
    forall both: (seq<M.RestoredOrder>, seq<M.RestoredDispute>)
      ensures Inverts(RestoreFromJson(RestoreDataToJson(both)), both, GoodRestoreData(both))
    {
      RestoreRoundTrip(both.0, both.1);
      assert both == (both.0, both.1);
    }
  }

  lemma SmallCodecsAreLawful()
    ensures Lawful(PeerCodec()) && Lawful(LockProofCodec()) && Lawful(SignatureCodec()) && Lawful(TextCodec())
  {
    forall p: M.Peer {
      PeerRoundTrip(p);
    }
    forall p: LockProof {
      LockProofRoundTrip(p);
    }
    forall s: M.CashuProofSignature {
      ProofSignatureRoundTrip(s);
    }
  }
}
