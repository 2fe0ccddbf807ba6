/** The protocol's message types, with the types their declarations give. */
module Messages {
  import opened Wrappers

  /** A finite JSON number. */
  type Number = real

  datatype UserInfo = UserInfo(rating: Number, reviews: Number, operatingDays: Number)

  datatype Peer = Peer(pubkey: string, reputation: Option<UserInfo>)

  /** The wire view of an order; `rating` occurs on order-book events only and is not modelled. */
  datatype SmallOrder = SmallOrder(
    id: Option<string>,
    kind: Option<string>,
    status: Option<string>,
    amount: Number,
    fiatCode: string,
    minAmount: Option<Number>,
    maxAmount: Option<Number>,
    fiatAmount: Number,
    paymentMethod: string,
    premium: Number,
    buyerTradePubkey: Option<string>,
    sellerTradePubkey: Option<string>,
    buyerInvoice: Option<string>,
    createdAt: Option<Number>,
    expiresAt: Option<Number>)

  datatype SolverDisputeInfo = SolverDisputeInfo(
    id: string,
    kind: string,
    status: string,
    hash: Option<string>,
    preimage: Option<string>,
    orderPreviousStatus: string,
    initiatorPubkey: string,
    buyerPubkey: Option<string>,
    sellerPubkey: Option<string>,
    initiatorFullPrivacy: bool,
    counterpartFullPrivacy: bool,
    initiatorInfo: Option<UserInfo>,
    counterpartInfo: Option<UserInfo>,
    premium: Number,
    paymentMethod: string,
    amount: Number,
    fiatAmount: Number,
    fee: Number,
    routingFee: Number,
    buyerInvoice: Option<string>,
    invoiceHeldAt: Number,
    takenAt: Number,
    createdAt: Number)

  datatype RestoredOrder = RestoredOrder(orderId: string, tradeIndex: Number, status: string)

  datatype RestoredDispute = RestoredDispute(
    disputeId: string,
    orderId: string,
    tradeIndex: Number,
    status: string,
    initiator: Option<string>,
    solverPubkey: Option<string>)

  datatype CashuProofSignature = CashuProofSignature(secret: string, signature: string)

  /** The seventeen payload variants. */
  datatype Payload =
    | Order(order: SmallOrder)
    | PaymentRequest(requested: Option<SmallOrder>, invoice: string, requestedAmount: Option<Number>)
    | TextMessage(text: string)
    | PeerPayload(peer: Peer)
    | RatingUser(rating: Number)
    | Amount(amount: Number)
    | Dispute(disputeId: string, info: Option<SolverDisputeInfo>)
    | CantDo(reason: Option<string>)
    | NextTrade(nextPubkey: string, nextIndex: Number)
    | PaymentFailed(attempts: Number, retriesInterval: Number)
    | RestoreData(restoredOrders: seq<RestoredOrder>, restoredDisputes: seq<RestoredDispute>)
    | Ids(ids: seq<string>)
    | Orders(orders: seq<SmallOrder>)
    | BondResolution(slashSeller: bool, slashBuyer: bool)
    | BondPayoutRequest(slashedOrder: SmallOrder, slashedAt: Number)
    | CashuLockProof(token: string, mintUrl: string, buyerPubkey: string, sellerPubkey: string, mostroPubkey: string,
      feeToken: Option<string>)
    | CashuSignatures(signatures: seq<CashuProofSignature>)

  datatype MessageKind = MessageKind(
    version: Number,
    requestId: Option<Number>,
    tradeIndex: Option<Number>,
    id: Option<string>,
    action: string,
    payload: Option<Payload>)

  datatype Message = Message(variant: Variant, kind: MessageKind)

  datatype Variant = OrderMessage | DisputeMessage | CantDoMessage | RateMessage | DmMessage | RestoreMessage
}
