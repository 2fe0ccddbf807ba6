/** The actor-aware phase graph of order statuses. */
module StateMachine {
  import opened Wrappers
  import opened Messages

  datatype Status =
    | Active | Canceled | CanceledByAdmin | SettledByAdmin | CompletedByAdmin | Dispute | Expired | FiatSent
    | SettledHoldInvoice | Pending | Success | WaitingBuyerInvoice | WaitingPayment | WaitingTakerBond
    | CooperativelyCanceled | InProgress | WaitingMakerBond

  datatype Kind = Buy | Sell

  /** The wire names of statuses and kinds, and the parsers that read them. */
  datatype Vocabulary = Vocabulary(
    statusName: Status -> string,
    readStatus: string -> Option<Status>,
    readKind: string -> Option<Kind>)

  ghost predicate NamesRead(voc: Vocabulary) {
    forall s: Status :: voc.statusName(s) != "" && voc.readStatus(voc.statusName(s)) == Some(s)
  }

  /** Null and the empty string have no status. */
  function ParseStatus(voc: Vocabulary, s: Option<string>): Option<Status> {
    if s.None? || s.value == "" then None else voc.readStatus(s.value)
  }

  function ParseKind(voc: Vocabulary, s: Option<string>): Option<Kind> {
    if s.None? || s.value == "" then None else voc.readKind(s.value)
  }

  predicate IsTerminal(s: Status) {
    match s
    case Canceled | CanceledByAdmin | SettledByAdmin | CompletedByAdmin | Expired | CooperativelyCanceled | Success =>
      true
    case _ => false
  }

  function PhaseRank(s: Status, kind: Option<Kind>): Option<nat> {
    match s
    case Pending | WaitingTakerBond | WaitingMakerBond => Some(0)
    case WaitingPayment => if kind == Some(Buy) then Some(1) else if kind == Some(Sell) then Some(2) else None
    case WaitingBuyerInvoice => if kind == Some(Buy) then Some(2) else if kind == Some(Sell) then Some(1) else None
    case InProgress | Active => Some(3)
    case FiatSent => Some(4)
    case SettledHoldInvoice => Some(5)
    case Dispute => Some(6)
    case Success => Some(7)
    case _ => None
  }

  predicate ShouldApply(current: Option<Status>, candidate: Status, kind: Option<Kind>, action: Option<string>) {
    if current.None? then true
    else if current.value == candidate then true
    else if IsTerminal(current.value) then
      action == Some("add-invoice") && current.value == Success && candidate == SettledHoldInvoice
    else if IsTerminal(candidate) then true
    else
      var curRank, candRank := PhaseRank(current.value, kind), PhaseRank(candidate, kind);
      curRank.Some? && candRank.Some? && candRank.value >= curRank.value
  }

  /** The status a message without an order snapshot stands for. */
  function InferredStatus(action: string): Option<Status> {
    if action == "canceled" then Some(Canceled)
    else if action == "cooperative-cancel-accepted" then Some(CooperativelyCanceled)
    else if action == "waiting-buyer-invoice" || action == "add-invoice" then Some(WaitingBuyerInvoice)
    else if action == "waiting-seller-to-pay" || action == "pay-invoice" then Some(WaitingPayment)
    else if action == "pay-bond-invoice" then Some(WaitingTakerBond)
    else if action == "admin-canceled" then Some(CanceledByAdmin)
    else if action == "fiat-sent-ok" then Some(FiatSent)
    else if action == "release" || action == "released"
      || action == "hold-invoice-payment-settled" then Some(SettledHoldInvoice)
    else if action == "purchase-completed" then Some(Success)
    else if action == "dispute-initiated-by-you" || action == "dispute-initiated-by-peer" then Some(Status.Dispute)
    else None
  }

  /** Prefer the status Mostro put in the order. */
  function MapActionToStatus(voc: Vocabulary, action: string, order: SmallOrder): Option<string> {
    if order.status.Some? && order.status.value != "" then order.status
    else
      match InferredStatus(action)
      case Some(s) => Some(voc.statusName(s))
      case None => None
  }

  // --- runs of guarded transitions ---

  /** One inbound message as the guard sees it. */
  datatype Offer = Offer(candidate: Option<Status>, action: string)

  function Guarded(current: Status, offer: Offer, kind: Option<Kind>): Status {
    if offer.candidate.Some? && ShouldApply(Some(current), offer.candidate.value, kind, Some(offer.action))
    then offer.candidate.value else current
  }

  ghost function Final(current: Status, offers: seq<Offer>, kind: Option<Kind>): Status {
    if offers == [] then current
    else Guarded(Final(current, offers[..|offers| - 1], kind), offers[|offers| - 1], kind)
  }

  ghost predicate Reopens(current: Status, offer: Offer) {
    current == Success && offer == Offer(Some(SettledHoldInvoice), "add-invoice")
  }

  /** A terminal status other than success never changes. */
  lemma {:induction false} TerminalIsSticky(current: Status, offers: seq<Offer>, kind: Option<Kind>)
    requires IsTerminal(current) && current != Success
    ensures Final(current, offers, kind) == current
  {
    if offers != [] {
      TerminalIsSticky(current, offers[..|offers| - 1], kind);
    }
  }

  /** Success is left only by the replacement-invoice message. */
  lemma {:induction false} SuccessIsLeftOnlyByReopening(offers: seq<Offer>, kind: Option<Kind>)
    requires Final(Success, offers, kind) != Success
    ensures exists k :: 0 <= k < |offers| && Reopens(Final(Success, offers[..k], kind), offers[k])
  {
    var last := |offers| - 1;
    if Final(Success, offers[..last], kind) == Success {
      assert Reopens(Final(Success, offers[..last], kind), offers[last]);
    } else {
      SuccessIsLeftOnlyByReopening(offers[..last], kind);
      var k :| 0 <= k < last && Reopens(Final(Success, offers[..last][..k], kind), offers[..last][k]);
      assert offers[..last][..k] == offers[..k];
    }
  }

  ghost function RankOr(s: Status, kind: Option<Kind>, default: nat): nat {
    PhaseRank(s, kind).GetOr(default)
  }

  /** With the kind known, a transition to a ranked status never lowers the rank, unless it reopens. */
  lemma {:induction false} RankNeverDrops(current: Status, offers: seq<Offer>, kind: Option<Kind>)
    requires kind.Some?
    requires forall k | 0 <= k < |offers| :: !Reopens(Final(current, offers[..k], kind), offers[k])
    ensures PhaseRank(current, kind).Some? && PhaseRank(Final(current, offers, kind), kind).Some? ==>
      PhaseRank(current, kind).value <= PhaseRank(Final(current, offers, kind), kind).value
    ensures PhaseRank(current, kind).None? ==> Final(current, offers, kind) == current
  {
    if offers != [] {
      var last := |offers| - 1;
      forall k | 0 <= k < last
        ensures !Reopens(Final(current, offers[..last][..k], kind), offers[..last][k])
      {
        assert offers[..last][..k] == offers[..k];
      }
      RankNeverDrops(current, offers[..last], kind);
      GuardedNeverDrops(Final(current, offers[..last], kind), offers[last], kind);
    }
  }

  lemma GuardedNeverDrops(before: Status, offer: Offer, kind: Option<Kind>)
    requires kind.Some? && !Reopens(before, offer)
    ensures PhaseRank(before, kind).None? ==> Guarded(before, offer, kind) == before
    ensures PhaseRank(before, kind).Some? && PhaseRank(Guarded(before, offer, kind), kind).Some? ==>
      PhaseRank(before, kind).value <= PhaseRank(Guarded(before, offer, kind), kind).value
  {
    if !IsTerminal(before) {
      OngoingIsRanked(before, kind);
    } else {
      assert PhaseRank(before, kind).Some? ==> before == Success;
    }
  }

  ghost function MaxRank(rank: nat, offers: seq<Offer>, kind: Option<Kind>): nat {
    if offers == [] then rank
    else
      var rest, offer := MaxRank(rank, offers[..|offers| - 1], kind), offers[|offers| - 1];
      if offer.candidate.Some?
        && RankOr(offer.candidate.value, kind, 0) > rest then RankOr(offer.candidate.value, kind, 0) else rest
  }

  ghost predicate Ongoing(offers: seq<Offer>) {
    forall k | 0 <= k < |offers| :: offers[k].candidate.Some? ==> !IsTerminal(offers[k].candidate.value)
  }

  /** With the kind known and nothing terminal on offer, the final rank is the largest rank seen. */
  lemma {:induction false} FinalRankIsMaximum(current: Status, offers: seq<Offer>, kind: Option<Kind>)
    requires kind.Some? && !IsTerminal(current) && Ongoing(offers)
    ensures !IsTerminal(Final(current, offers, kind))
    ensures PhaseRank(Final(current, offers, kind), kind) == Some(MaxRank(RankOr(current, kind, 0), offers, kind))
  {
    OngoingIsRanked(current, kind);
    if offers != [] {
      FinalRankIsMaximum(current, offers[..|offers| - 1], kind);
      GuardedRank(Final(current, offers[..|offers| - 1], kind), offers[|offers| - 1], kind);
    }
  }

  lemma OngoingIsRanked(s: Status, kind: Option<Kind>)
    requires kind.Some? && !IsTerminal(s)
    ensures PhaseRank(s, kind).Some?
  {
    match kind.value
    case Buy =>
    case Sell =>
  }

  lemma GuardedRank(current: Status, offer: Offer, kind: Option<Kind>)
    requires kind.Some? && !IsTerminal(current)
    requires offer.candidate.Some? ==> !IsTerminal(offer.candidate.value)
    ensures !IsTerminal(Guarded(current, offer, kind))
    ensures RankOr(Guarded(current, offer, kind), kind, 0)
         == if offer.candidate.Some? && RankOr(offer.candidate.value, kind, 0) > RankOr(current, kind, 0)
            then RankOr(offer.candidate.value, kind, 0) else RankOr(current, kind, 0)
    ensures PhaseRank(Guarded(current, offer, kind), kind).Some?
  {
    OngoingIsRanked(current, kind);
    if offer.candidate.Some? {
      OngoingIsRanked(offer.candidate.value, kind);
    }
  }

  ghost predicate OffersRank(offers: seq<Offer>, kind: Option<Kind>, rank: nat) {
    exists k :: 0 <= k < |offers| && offers[k].candidate.Some? && RankOr(offers[k].candidate.value, kind, 0) == rank
  }

  lemma {:induction false} MaxRankBounds(rank: nat, offers: seq<Offer>, kind: Option<Kind>)
    ensures rank <= MaxRank(rank, offers, kind)
    ensures MaxRank(rank, offers, kind) == rank || OffersRank(offers, kind, MaxRank(rank, offers, kind))
    ensures forall r: nat | OffersRank(offers, kind, r) :: r <= MaxRank(rank, offers, kind)
  {
    if offers != [] {
      var rest, last := offers[..|offers| - 1], offers[|offers| - 1];
      MaxRankBounds(rank, rest, kind);
      if OffersRank(rest, kind, MaxRank(rank, rest, kind)) {
        var k :| 0 <= k < |rest| && rest[k].candidate.Some?
          && RankOr(rest[k].candidate.value, kind, 0) == MaxRank(rank, rest, kind);
        assert offers[k] == rest[k];
      }
      forall r: nat | OffersRank(offers, kind, r)
        ensures r <= MaxRank(rank, offers, kind)
      {
        var k :| 0 <= k < |offers| && offers[k].candidate.Some? && RankOr(offers[k].candidate.value, kind, 0) == r;
        if k < |rest| {
          assert rest[k] == offers[k];
          assert OffersRank(rest, kind, r);
        }
      }
    }
  }

  /** So late, repeated or reordered messages end in the same phase. */
  lemma {:induction false} DeliveryOrderDoesNotMatter(current: Status, a: seq<Offer>, b: seq<Offer>, kind: Option<Kind>)
    requires kind.Some? && !IsTerminal(current)
    requires Ongoing(a) && forall offer :: offer in a <==> offer in b
    ensures PhaseRank(Final(current, a, kind), kind) == PhaseRank(Final(current, b, kind), kind)
  {
    forall k | 0 <= k < |b|
      ensures b[k] in a
    {
      assert b[k] in b;
    }
    SameRanks(a, b, kind);
    SameRanks(b, a, kind);
    FinalRankIsMaximum(current, a, kind);
    FinalRankIsMaximum(current, b, kind);
    MaxRankBounds(RankOr(current, kind, 0), a, kind);
    MaxRankBounds(RankOr(current, kind, 0), b, kind);
  }

  lemma SameRanks(a: seq<Offer>, b: seq<Offer>, kind: Option<Kind>)
    requires forall offer :: offer in a <==> offer in b
    ensures forall r: nat | OffersRank(a, kind, r) :: OffersRank(b, kind, r)
  {
    forall r: nat | OffersRank(a, kind, r)
      ensures OffersRank(b, kind, r)
    {
      var k :| 0 <= k < |a| && a[k].candidate.Some? && RankOr(a[k].candidate.value, kind, 0) == r;
      assert a[k] in a;
      var m :| 0 <= m < |b| && b[m] == a[k];
    }
  }
}
