/** Routing inbound direct messages to waiters and to tracked orders. */
module DmRouter {
  import opened Wrappers
  import opened Sequences
  import opened Sorting
  import opened OrderedMaps
  import M = Messages
  import opened Json
  import Transport

  datatype DmEvent = DmEvent(id: string, kind: nat, pubkey: string, content: string, createdAt: int, signed: bool)

  /** Trying a trade key on an event: no message when it is not for this key, or malformed. */
  type Unwrapper = (DmEvent, string) -> Option<M.Message>

  function TryUnwrap(c: Transport.Crypto, codec: Codec<M.Message>, event: DmEvent, secret: string): Option<M.Message> {
    match Transport.Unwrap(c, codec, Transport.Event(event.kind, event.pubkey, event.content), secret, false)
    case Ok(Some(u)) => Some(u.message)
    case _ => None
  }

  /** A message wrapped for a trade key opens with that key, and as the same message. */
  lemma WrappedMessageOpens(
    c: Transport.Crypto, codec: Codec<M.Message>, m: M.Message, p: Transport.WrapParams, secret: string, event: DmEvent)
    requires Transport.LawfulCrypto(c) && Lawful(codec) && p.receiverPubkey == c.pubkey(secret)
    requires codec.good(m) && Transport.Holdable(c, codec.write(m))
    requires Transport.Wrap(c, codec, m, p) == Some(event.content)
    requires event.kind == Transport.DirectMessage && event.pubkey == c.pubkey(p.tradeSecret)
    ensures TryUnwrap(c, codec, event, secret) == Some(m)
  {
    Transport.UnwrapUndoesWrap(c, codec, m, p, secret, false);
  }

  datatype Settings = Settings(
    mostroPubkey: string, eventKind: nat, unwrap: Unwrapper, pubkeyOf: string -> string, onOrder: bool, onMessage: bool)

  datatype Waiter = Waiter(id: nat, secret: string)

  datatype Tracked = Tracked(orderId: string, secret: string)

  datatype Resolution = Resolution(waiter: Waiter, event: DmEvent)

  datatype Callback =
    | OrderMessage(orderId: string, message: M.Message, event: DmEvent)
    | AnyMessage(order: Option<string>, message: M.Message, event: DmEvent)

  /** A correctly signed event of the right kind from the daemon that is not our own. */
  predicate Accepts(s: Settings, own: set<string>, event: DmEvent) {
    FromDaemon(s, event) && event.id !in own
  }

  predicate Opens(s: Settings, event: DmEvent, w: Waiter) {
    s.unwrap(event, w.secret).Some?
  }

  function OpenedBy(s: Settings, event: DmEvent): Waiter -> bool {
    (w: Waiter) => Opens(s, event, w)
  }

  function LeftBy(s: Settings, event: DmEvent): Waiter -> bool {
    (w: Waiter) => !Opens(s, event, w)
  }

  function Resolutions(waiters: seq<Waiter>, event: DmEvent): seq<Resolution> {
    seq(|waiters|, k requires 0 <= k < |waiters| => Resolution(waiters[k], event))
  }

  /** The first tracked key that opens the event. */
  function Route(s: Settings, tracked: seq<Tracked>, event: DmEvent): Option<(string, M.Message)> {
    if tracked == [] then None
    else
      var m := s.unwrap(event, tracked[0].secret);
      if m.Some? then Some((tracked[0].orderId, m.value)) else Route(s, tracked[1..], event)
  }

  /** Each callback once, and none when no tracked key opens the event. */
  function Callbacks(s: Settings, tracked: seq<Tracked>, event: DmEvent): seq<Callback> {
    match Route(s, tracked, event)
    case None => []
    case Some((orderId, m)) =>
      (if s.onOrder then [OrderMessage(orderId, m, event)] else [])
      + if s.onMessage then [AnyMessage(Some(orderId), m, event)] else []
  }

  /** What the search after an unrouted event would report. */
  function LateCallbacks(found: Option<(string, M.Message)>, event: DmEvent): seq<Callback> {
    match found
    case None => []
    case Some((orderId, m)) => [AnyMessage(Some(orderId), m, event)]
  }

  /** Nothing is routed exactly when no tracked key opens the event. */
  lemma {:induction false} UnroutedOpensNowhere(s: Settings, tracked: seq<Tracked>, event: DmEvent)
    ensures Route(s, tracked, event).None? <==> forall t | t in tracked :: s.unwrap(event, t.secret).None?
    ensures Route(s, tracked, event).Some? ==>
      exists t :: t in tracked && Route(s, tracked, event).value.0 == t.orderId
        && s.unwrap(event, t.secret) == Some(Route(s, tracked, event).value.1)
  {
    if tracked != [] {
      UnroutedOpensNowhere(s, tracked[1..], event);
      assert forall t :: t in tracked <==> t == tracked[0] || t in tracked[1..];
    }
  }

  predicate FromDaemon(s: Settings, event: DmEvent) {
    event.kind == s.eventKind && event.signed && event.pubkey == s.mostroPubkey
  }

  /** Every waiter was resolved by a signed event of the daemon that its key opens. */
  ghost predicate Deserved(s: Settings, resolved: seq<Resolution>) {
    forall r | r in resolved :: FromDaemon(s, r.event) && Opens(s, r.event, r.waiter)
  }

  lemma MoreDeserved(s: Settings, resolved: seq<Resolution>, woken: seq<Waiter>, event: DmEvent)
    requires Deserved(s, resolved) && FromDaemon(s, event) && forall w | w in woken :: Opens(s, event, w)
    ensures Deserved(s, resolved + Resolutions(woken, event))
  {
  }

  /** The public key of every tracked or awaited secret is subscribed. */
  ghost predicate Covered(s: Settings, secrets: set<string>, waiters: seq<Waiter>, pubkeys: set<string>) {
    && (forall secret | secret in secrets :: s.pubkeyOf(secret) in pubkeys)
    && (forall w | w in waiters :: s.pubkeyOf(w.secret) in pubkeys)
  }

  lemma CoversOneMore(s: Settings, secrets: set<string>, waiters: seq<Waiter>, pubkeys: set<string>, w: Waiter)
    requires Covered(s, secrets, waiters, pubkeys) && s.pubkeyOf(w.secret) in pubkeys
    ensures Covered(s, secrets, waiters + [w], pubkeys)
  {
  }

  lemma CoversOneMoreSecret(
    s: Settings, secrets: set<string>, waiters: seq<Waiter>, pubkeys: set<string>, secret: string)
    requires Covered(s, secrets, waiters, pubkeys) && s.pubkeyOf(secret) in pubkeys
    ensures Covered(s, secrets + {secret}, waiters, pubkeys)
  {
  }

  /** Subscriptions are known by the first sixteen characters of the public key. */
  function SubscriptionId(pubkey: string): string {
    "mostro-dm-" + if |pubkey| < 16 then pubkey else pubkey[..16]
  }

  function IdFor(s: Settings, secret: string): string {
    SubscriptionId(s.pubkeyOf(secret))
  }

  /** Every tracked key has, or had, the entry of its subscription. */
  ghost predicate Tracks(s: Settings, orders: OrderedMap<Tracked>, secrets: set<string>) {
    && (forall id | id in orders.at :: orders.at[id].secret in secrets && id == IdFor(s, orders.at[id].secret))
    && (forall secret | secret in secrets :: IdFor(s, secret) in orders.at)
  }

  lemma TracksOneMore(s: Settings, orders: OrderedMap<Tracked>, secrets: set<string>, t: Tracked)
    requires Tracks(s, orders, secrets)
    ensures Tracks(s, orders.Set(IdFor(s, t.secret), t), secrets + {t.secret})
  {
  }

  ghost predicate IsTracked(orders: OrderedMap<Tracked>, secret: string)
    requires orders.Good()
  {
    exists t :: t in orders.Values() && t.secret == secret
  }

  /** No two tracked keys share the shortened id. */
  ghost predicate Apart(s: Settings, secrets: set<string>) {
    forall a, b | a in secrets && b in secrets && IdFor(s, a) == IdFor(s, b) :: a == b
  }

  /** Every key keeps its order exactly when no two of them share the shortened id: the later one takes the entry. */
  lemma KeysKeepOrders(s: Settings, orders: OrderedMap<Tracked>, secrets: set<string>)
    requires orders.Good() && Tracks(s, orders, secrets)
    ensures (forall secret | secret in secrets :: IsTracked(orders, secret)) <==> Apart(s, secrets)
  {
    forall secret | secret in secrets
      ensures IsTracked(orders, secret) <==> orders.at[IdFor(s, secret)].secret == secret
    {
      EntryOf(s, orders, secrets, secret);
    }
  }

  lemma EntryOf(s: Settings, orders: OrderedMap<Tracked>, secrets: set<string>, secret: string)
    requires orders.Good() && Tracks(s, orders, secrets) && secret in secrets
    ensures IsTracked(orders, secret) <==> orders.at[IdFor(s, secret)].secret == secret
  {
    var id := IdFor(s, secret);
    if orders.at[id].secret == secret {
      assert id in orders.keys;
      var k :| 0 <= k < |orders.keys| && orders.keys[k] == id;
      assert orders.Values()[k] == orders.at[id];
      assert orders.at[id] in orders.Values();
    }
    if t :| t in orders.Values() && t.secret == secret {
      var k :| 0 <= k < |orders.keys| && orders.Values()[k] == t;
      assert orders.keys[k] in orders.keys;
    }
  }

  /** Then an event is routed exactly when some tracked key opens it. */
  lemma RoutedExactly(s: Settings, orders: OrderedMap<Tracked>, secrets: set<string>, event: DmEvent)
    requires orders.Good() && Tracks(s, orders, secrets) && Apart(s, secrets)
    ensures Route(s, orders.Values(), event).Some?
      <==> exists secret :: secret in secrets && s.unwrap(event, secret).Some?
  {
    UnroutedOpensNowhere(s, orders.Values(), event);
    KeysKeepOrders(s, orders, secrets);
    if t :| t in orders.Values() && s.unwrap(event, t.secret).Some? {
      var k :| 0 <= k < |orders.keys| && orders.Values()[k] == t;
      assert orders.keys[k] in orders.keys;
    }
    if secret :| secret in secrets && s.unwrap(event, secret).Some? {
      assert IsTracked(orders, secret);
    }
  }

  class DmRouter {
    const settings: Settings
    var waiters: seq<Waiter>
    var subscribedSecrets: set<string>
    var orders: OrderedMap<Tracked>
    var subscriptionByPubkey: map<string, string>
    var ownOutboundIds: set<string>
    var nextWaiter: nat
    /** Promises resolved, relay subscriptions opened and callbacks made so far. */
    ghost var resolved: seq<Resolution>
    ghost var subscriptions: seq<string>
    ghost var callbacks: seq<Callback>

    /** Every key has its entry and its subscription. */
    ghost predicate Registered()
      reads this
    {
      && orders.Good() && Tracks(settings, orders, subscribedSecrets)
      && Covered(settings, subscribedSecrets, waiters, subscriptionByPubkey.Keys)
    }

    /** No waiter waits or was resolved twice, no key is subscribed twice, and every tracked key is subscribed. */
    ghost predicate Valid()
      reads this
    {
      && Registered()
      && WaitersDistinct(waiters, resolved, nextWaiter)
      && Deserved(settings, resolved)
      && Distinct(subscriptions) && (forall p :: p in subscriptions <==> p in subscriptionByPubkey)
      && (forall p | p in subscriptionByPubkey :: subscriptionByPubkey[p] == SubscriptionId(p))
    }

    constructor (settings: Settings)
      ensures Valid() && this.settings == settings && waiters == [] && resolved == [] && callbacks == []
        && subscriptions == []
      ensures orders == Empty() && subscribedSecrets == {} && ownOutboundIds == {}
    {
      this.settings := settings;
      waiters, subscribedSecrets, orders, subscriptionByPubkey, ownOutboundIds, nextWaiter :=
        [], {}, Empty(), map[], {}, 0;
      resolved, subscriptions, callbacks := [], [], [];
    }

    /** Opens a relay subscription for the key's public key, unless there is one. */
    method SubscribePubkey(secret: string) returns (subscription: string)
      requires Valid()
      modifies this`subscriptionByPubkey, this`subscriptions
      ensures Valid()
      ensures subscriptionByPubkey.Keys == old(subscriptionByPubkey).Keys + {settings.pubkeyOf(secret)}
      ensures subscription == subscriptionByPubkey[settings.pubkeyOf(secret)]
      ensures subscriptions == if settings.pubkeyOf(secret) in old(subscriptionByPubkey) then old(subscriptions)
                               else old(subscriptions) + [settings.pubkeyOf(secret)]
    {
      var pubkey := settings.pubkeyOf(secret);
      if pubkey in subscriptionByPubkey {
        return subscriptionByPubkey[pubkey];
      }
      subscriptions := subscriptions + [pubkey];
      subscription := SubscriptionId(pubkey);
      subscriptionByPubkey := subscriptionByPubkey[pubkey := subscription];
    }

    method WaitForDm(secret: string) returns (waiter: Waiter)
      requires Valid()
      modifies this`waiters, this`nextWaiter, this`subscriptionByPubkey, this`subscriptions
      ensures Valid()
      ensures waiters == old(waiters) + [waiter] && waiter.secret == secret
      ensures forall r | r in resolved :: r.waiter != waiter
    {
      waiter := Waiter(nextWaiter, secret);
      var _ := SubscribePubkey(secret);
      Queue(waiter);
    }

    /** The new waiter comes last. */
    method Queue(waiter: Waiter)
      requires Registered() && WaitersDistinct(waiters, resolved, nextWaiter)
      requires waiter.id == nextWaiter && settings.pubkeyOf(waiter.secret) in subscriptionByPubkey
      modifies this`waiters, this`nextWaiter
      ensures Registered() && WaitersDistinct(waiters, resolved, nextWaiter) && waiters == old(waiters) + [waiter]
    {
      NewWaiterIsDistinct(waiters, resolved, waiter);
      CoversOneMore(settings, subscribedSecrets, waiters, subscriptionByPubkey.Keys, waiter);
      waiters, nextWaiter := waiters + [waiter], nextWaiter + 1;
    }

    /** Tracks a trade key for an order; a key that is already tracked keeps its order. */
    method TrackOrder(orderId: string, secret: string)
      requires Valid()
      modifies this`subscribedSecrets, this`orders, this`subscriptionByPubkey, this`subscriptions
      ensures Valid() && secret in subscribedSecrets
      ensures subscribedSecrets == old(subscribedSecrets) + {secret}
      ensures secret in old(subscribedSecrets) ==> orders == old(orders) && subscriptions == old(subscriptions)
      ensures secret !in old(subscribedSecrets)
        ==> orders == old(orders).Set(IdFor(settings, secret), Tracked(orderId, secret))
    {
      if secret in subscribedSecrets {
        return;
      }
      var subscription := SubscribePubkey(secret);
      Enter(subscription, Tracked(orderId, secret));
    }

    /** Gives a subscription to a key; the key that had it loses it. */
    method Enter(subscription: string, t: Tracked)
      requires Registered() && subscription == IdFor(settings, t.secret)
        && settings.pubkeyOf(t.secret) in subscriptionByPubkey
      modifies this`subscribedSecrets, this`orders
      ensures Registered() && subscribedSecrets == old(subscribedSecrets) + {t.secret}
        && orders == old(orders).Set(subscription, t)
    {
      TracksOneMore(settings, orders, subscribedSecrets, t);
      CoversOneMoreSecret(settings, subscribedSecrets, waiters, subscriptionByPubkey.Keys, t.secret);
      subscribedSecrets := subscribedSecrets + {t.secret};
      orders := orders.Set(subscription, t);
    }

    method NoteOutbound(eventId: string)
      requires Valid()
      modifies this`ownOutboundIds
      ensures Valid() && ownOutboundIds == old(ownOutboundIds) + {eventId}
    {
      ownOutboundIds := ownOutboundIds + {eventId};
    }

    /** A foreign event changes nothing. An accepted one resolves exactly the waiters it opens for, leaves the others in
        their order, and reaches each callback at most once: the search after an unrouted event never finds anything. */
    method HandleEvent(event: DmEvent)
      requires Valid()
      modifies this`waiters, this`resolved, this`callbacks
      ensures Valid()
      ensures !Accepts(settings, ownOutboundIds, event) ==>
        waiters == old(waiters) && resolved == old(resolved) && callbacks == old(callbacks)
      ensures Accepts(settings, ownOutboundIds, event) ==>
        && waiters == Filter(LeftBy(settings, event), old(waiters))
        && resolved == old(resolved) + Resolutions(Filter(OpenedBy(settings, event), old(waiters)), event)
        && callbacks == old(callbacks) + Callbacks(settings, orders.Values(), event)
    {
      if event.kind != settings.eventKind || !event.signed || event.pubkey != settings.mostroPubkey
        || event.id in ownOutboundIds {
        return;
      }
      ConsumeWaiters(event);
      Announce(event);
    }

    /** Reports the event to the callbacks, if a tracked key opens it. */
    method Announce(event: DmEvent)
      requires Valid()
      modifies this`callbacks
      ensures Valid() && callbacks == old(callbacks) + Callbacks(settings, orders.Values(), event)
    {
      var routed := RouteTracked(event);
      if routed.Some? {
        if settings.onOrder {
          callbacks := callbacks + [OrderMessage(routed.value.0, routed.value.1, event)];
        }
        if settings.onMessage {
          callbacks := callbacks + [AnyMessage(Some(routed.value.0), routed.value.1, event)];
        }
        return;
      }
      if settings.onMessage {
        var late := RouteTracked(event);
        callbacks := callbacks + LateCallbacks(late, event);
      }
    }

    method ConsumeWaiters(event: DmEvent)
      requires Valid() && FromDaemon(settings, event)
      modifies this`waiters, this`resolved
      ensures Valid()
      ensures waiters == Filter(LeftBy(settings, event), old(waiters))
      ensures resolved == old(resolved) + Resolutions(Filter(OpenedBy(settings, event), old(waiters)), event)
    {
      var all := waiters;
      var remaining, woken := Partition(settings, event, all);
      MoreDeserved(settings, resolved, woken, event);
      resolved := resolved + Resolutions(woken, event);
      StillDistinct(settings, event, all, old(resolved), nextWaiter);
      assert forall w | w in remaining :: w in all;
      waiters := remaining;
    }

    method RouteTracked(event: DmEvent) returns (routed: Option<(string, M.Message)>)
      requires Valid()
      ensures routed == Route(settings, orders.Values(), event)
    {
      var tracked := orders.Values();
      for k := 0 to |tracked|
        invariant Route(settings, tracked, event) == Route(settings, tracked[k..], event)
      {
        assert tracked[k..][1..] == tracked[k + 1..];
        var m := settings.unwrap(event, tracked[k].secret);
        if m.Some? {
          return Some((tracked[k].orderId, m.value));
        }
      }
      return None;
    }
  }

  /** Those who keep waiting and those the event is for, each in their order. */
  method Partition(s: Settings, event: DmEvent, all: seq<Waiter>) returns (remaining: seq<Waiter>, woken: seq<Waiter>)
    ensures remaining == Filter(LeftBy(s, event), all) && woken == Filter(OpenedBy(s, event), all)
  {
    remaining, woken := [], [];
    var left, opens := LeftBy(s, event), OpenedBy(s, event);
    for k := 0 to |all|
      invariant remaining == Filter(left, all[..k]) && woken == Filter(opens, all[..k])
    {
      assert all[..k + 1][..k] == all[..k];
      if s.unwrap(event, all[k].secret).Some? {
        woken := woken + [all[k]];
      } else {
        remaining := remaining + [all[k]];
      }
    }
    assert all[..|all|] == all;
  }

  // --- each waiter once ---

  ghost predicate WaitersDistinct(waiters: seq<Waiter>, resolved: seq<Resolution>, next: nat) {
    && (forall w | w in waiters :: w.id < next)
    && (forall r | r in resolved :: r.waiter.id < next)
    && (forall i, j | 0 <= i < j < |waiters| :: waiters[i].id != waiters[j].id)
    && (forall i, j | 0 <= i < j < |resolved| :: resolved[i].waiter.id != resolved[j].waiter.id)
    && (forall w, r | w in waiters && r in resolved :: w.id != r.waiter.id)
  }

  lemma NewWaiterIsDistinct(waiters: seq<Waiter>, resolved: seq<Resolution>, w: Waiter)
    requires WaitersDistinct(waiters, resolved, w.id)
    ensures WaitersDistinct(waiters + [w], resolved, w.id + 1)
  {
  }

  ghost predicate DistinctIds(waiters: seq<Waiter>) {
    forall i, j | 0 <= i < j < |waiters| :: waiters[i].id != waiters[j].id
  }

  lemma {:induction false} FilterKeepsIds(keep: Waiter -> bool, waiters: seq<Waiter>)
    requires DistinctIds(waiters)
    ensures DistinctIds(Filter(keep, waiters))
  {
    if waiters != [] {
      var rest, last := waiters[..|waiters| - 1], waiters[|waiters| - 1];
      FilterKeepsIds(keep, rest);
      var kept := Filter(keep, rest);
      forall i | 0 <= i < |kept|
        ensures kept[i].id != last.id
      {
        assert kept[i] in kept;
        var j :| 0 <= j < |rest| && rest[j] == kept[i];
        assert waiters[j] == kept[i];
      }
    }
  }

  lemma SameIdSameWaiter(waiters: seq<Waiter>, v: Waiter, w: Waiter)
    requires DistinctIds(waiters) && v in waiters && w in waiters && v.id == w.id
    ensures v == w
  {
  }

  lemma ResolvedStayDistinct(resolved: seq<Resolution>, woken: seq<Waiter>, event: DmEvent)
    requires DistinctIds(woken) && forall w, r | w in woken && r in resolved :: w.id != r.waiter.id
    requires forall i, j | 0 <= i < j < |resolved| :: resolved[i].waiter.id != resolved[j].waiter.id
    ensures var all := resolved + Resolutions(woken, event);
            forall i, j | 0 <= i < j < |all| :: all[i].waiter.id != all[j].waiter.id
  {
  }

  lemma StillDistinct(s: Settings, event: DmEvent, waiters: seq<Waiter>, resolved: seq<Resolution>, next: nat)
    requires WaitersDistinct(waiters, resolved, next)
    ensures WaitersDistinct(
              Filter(LeftBy(s, event), waiters), resolved + Resolutions(Filter(OpenedBy(s, event), waiters), event),
                next)
  {
    var left, woken := Filter(LeftBy(s, event), waiters), Filter(OpenedBy(s, event), waiters);
    FilterKeepsIds(LeftBy(s, event), waiters);
    FilterKeepsIds(OpenedBy(s, event), waiters);
    ResolvedStayDistinct(resolved, woken, event);
    forall r | r in Resolutions(woken, event)
      ensures r.waiter in woken
    {
      var k :| 0 <= k < |woken| && Resolutions(woken, event)[k] == r;
      assert woken[k] in woken;
    }
    forall w, v | w in left && v in woken
      ensures w.id != v.id
    {
      if w.id == v.id {
        SameIdSameWaiter(waiters, v, w);
      }
    }
  }

  // --- deliveries ---

  function CallbacksOf(s: Settings, own: set<string>, tracked: seq<Tracked>, event: DmEvent): seq<Callback> {
    if Accepts(s, own, event) then Callbacks(s, tracked, event) else []
  }

  function AllCallbacks(s: Settings, own: set<string>, tracked: seq<Tracked>, events: seq<DmEvent>): seq<Callback> {
    if events == [] then []
    else AllCallbacks(s, own, tracked, events[..|events| - 1]) + CallbacksOf(s, own, tracked, events[|events| - 1])
  }

  predicate OpenedByAny(s: Settings, own: set<string>, events: seq<DmEvent>, w: Waiter) {
    exists k :: 0 <= k < |events| && Accepts(s, own, events[k]) && Opens(s, events[k], w)
  }

  function UnopenedBy(s: Settings, own: set<string>, events: seq<DmEvent>): Waiter -> bool {
    (w: Waiter) => !OpenedByAny(s, own, events, w)
  }

  lemma OpenedByOneMore(s: Settings, own: set<string>, events: seq<DmEvent>, event: DmEvent, w: Waiter)
    ensures OpenedByAny(s, own, events + [event], w)
      <==> OpenedByAny(s, own, events, w) || (Accepts(s, own, event) && Opens(s, event, w))
  {
    var all := events + [event];
    if OpenedByAny(s, own, events, w) {
      var k :| 0 <= k < |events| && Accepts(s, own, events[k]) && Opens(s, events[k], w);
      assert all[k] == events[k];
    }
    if Accepts(s, own, event) && Opens(s, event, w) {
      assert all[|events|] == event;
    }
  }

  lemma LeftByOneMore(s: Settings, own: set<string>, events: seq<DmEvent>, event: DmEvent, waiters: seq<Waiter>)
    ensures Filter(UnopenedBy(s, own, events + [event]), waiters)
         == if Accepts(s, own, event) then Filter(LeftBy(s, event), Filter(UnopenedBy(s, own, events), waiters))
            else Filter(UnopenedBy(s, own, events), waiters)
  {
    forall w
      ensures OpenedByAny(s, own, events + [event], w)
        <==> OpenedByAny(s, own, events, w) || (Accepts(s, own, event) && Opens(s, event, w))
    {
      OpenedByOneMore(s, own, events, event, w);
    }
    if Accepts(s, own, event) {
      FilterFiltered(UnopenedBy(s, own, events), LeftBy(s, event), UnopenedBy(s, own, events + [event]), waiters);
    } else {
      FilterAlike(UnopenedBy(s, own, events), UnopenedBy(s, own, events + [event]), waiters);
    }
  }

  /** What some deliveries leave of the waiters, and what they report. */
  ghost predicate Delivered(r: DmRouter, events: seq<DmEvent>, waiting: seq<Waiter>, called: seq<Callback>)
    reads r
  {
    && r.Valid()
    && r.waiters == Filter(UnopenedBy(r.settings, r.ownOutboundIds, events), waiting)
    && r.callbacks == called + AllCallbacks(r.settings, r.ownOutboundIds, r.orders.Values(), events)
  }

  method HandleNext(
    r: DmRouter, ghost before: seq<DmEvent>, event: DmEvent, ghost waiting: seq<Waiter>, ghost called: seq<Callback>)
    requires Delivered(r, before, waiting, called)
    modifies r`waiters, r`resolved, r`callbacks
    ensures Delivered(r, before + [event], waiting, called)
  {
    ghost var s, own, tracked, left, made := r.settings, r.ownOutboundIds, r.orders.Values(), r.waiters, r.callbacks;
    r.HandleEvent(event);
    LeftByOneMore(s, own, before, event, waiting);
    CallbacksOneMore(s, own, tracked, before, event, called, made, r.callbacks);
  }

  lemma CallbacksOneMore(
    s: Settings, own: set<string>, tracked: seq<Tracked>, before: seq<DmEvent>, event: DmEvent,
    called: seq<Callback>, made: seq<Callback>, now: seq<Callback>)
    requires made == called + AllCallbacks(s, own, tracked, before) && now == made + CallbacksOf(s, own, tracked, event)
    ensures now == called + AllCallbacks(s, own, tracked, before + [event])
  {
    assert (before + [event])[..|before|] == before;
    Associative(called, AllCallbacks(s, own, tracked, before), CallbacksOf(s, own, tracked, event));
  }

  lemma Associative(a: seq<Callback>, b: seq<Callback>, c: seq<Callback>)
    ensures (a + b) + c == a + (b + c)
  {
  }

  method HandleAt(
    r: DmRouter, events: seq<DmEvent>, k: nat, ghost waiting: seq<Waiter>, ghost called: seq<Callback>)
    requires k < |events| && Delivered(r, events[..k], waiting, called)
    modifies r`waiters, r`resolved, r`callbacks
    ensures Delivered(r, events[..k + 1], waiting, called)
  {
    assert events[..k + 1] == events[..k] + [events[k]];
    HandleNext(r, events[..k], events[k], waiting, called);
  }

  /** Over a run of deliveries each waiter is gone once some accepted event opens it, and stays gone; callbacks are made
      for every delivery, so an event delivered twice is reported twice. */
  method HandleAll(r: DmRouter, events: seq<DmEvent>)
    requires r.Valid()
    modifies r`waiters, r`resolved, r`callbacks
    ensures r.Valid()
    ensures r.waiters == Filter(UnopenedBy(r.settings, r.ownOutboundIds, events), old(r.waiters))
    ensures r.callbacks == old(r.callbacks) + AllCallbacks(r.settings, r.ownOutboundIds, r.orders.Values(), events)
  {
    ghost var waiting, called := r.waiters, r.callbacks;
    FilterAll(UnopenedBy(r.settings, r.ownOutboundIds, []), waiting);
    for k := 0 to |events|
      invariant Delivered(r, events[..k], waiting, called)
    {
      HandleAt(r, events, k, waiting, called);
    }
    assert events[..|events|] == events;
  }

  /** An event delivered again reaches no further waiter, but each callback a second time. */
  method HandleTwice(r: DmRouter, event: DmEvent)
    requires r.Valid()
    modifies r`waiters, r`resolved, r`callbacks
    ensures r.Valid()
    ensures Accepts(r.settings, r.ownOutboundIds, event) ==>
      && r.waiters == Filter(LeftBy(r.settings, event), old(r.waiters))
      && r.resolved == old(r.resolved) + Resolutions(Filter(OpenedBy(r.settings, event), old(r.waiters)), event)
      && r.callbacks == old(r.callbacks) + Callbacks(r.settings, r.orders.Values(), event)
        + Callbacks(r.settings, r.orders.Values(), event)
  {
    ghost var left := Filter(LeftBy(r.settings, event), r.waiters);
    FilterAll(LeftBy(r.settings, event), left);
    FilterNone(OpenedBy(r.settings, event), left);
    r.HandleEvent(event);
    r.HandleEvent(event);
  }

  /** Two keys with one shortened id: the event of the first, which the second does not open, is reported to nobody. */
  method SecondKeyTakesEntry(s: Settings, first: Tracked, second: Tracked, event: DmEvent) returns (r: DmRouter)
    requires first.secret != second.secret && IdFor(s, first.secret) == IdFor(s, second.secret)
    requires Accepts(s, {}, event) && s.unwrap(event, first.secret).Some? && s.unwrap(event, second.secret).None?
    ensures r.Valid() && r.settings == s && first.secret in r.subscribedSecrets && r.callbacks == []
  {
    r := TrackBoth(s, first, second);
    TakenOver(IdFor(s, first.secret), first, second);
    UnroutedOpensNowhere(s, [second], event);
    r.HandleEvent(event);
  }

  method TrackBoth(s: Settings, first: Tracked, second: Tracked) returns (r: DmRouter)
    requires first.secret != second.secret && IdFor(s, first.secret) == IdFor(s, second.secret)
    ensures fresh(r) && r.Valid() && r.settings == s && first.secret in r.subscribedSecrets && r.ownOutboundIds == {}
    ensures r.orders == Empty<Tracked>().Set(IdFor(s, first.secret), first).Set(IdFor(s, first.secret), second)
      && r.callbacks == []
  {
    r := new DmRouter(s);
    TrackNew(r, first);
    TrackNew(r, second);
  }

  method TrackNew(r: DmRouter, t: Tracked)
    requires r.Valid() && t.secret !in r.subscribedSecrets
    modifies r
    ensures r.Valid() && r.orders == old(r.orders).Set(IdFor(r.settings, t.secret), t)
    ensures r.subscribedSecrets == old(r.subscribedSecrets) + {t.secret}
    ensures r.ownOutboundIds == old(r.ownOutboundIds) && r.callbacks == old(r.callbacks)
  {
    r.TrackOrder(t.orderId, t.secret);
  }

  lemma TakenOver(id: string, first: Tracked, second: Tracked)
    ensures var orders := Empty<Tracked>().Set(id, first).Set(id, second);
            orders.Good() && orders.Values() == [second]
  {
  }

  // --- replay at startup ---

  datatype Replayed = Replayed(trade: Tracked, message: M.Message, createdAt: int)

  function ReplayedBy(s: Settings, trade: Tracked, events: seq<DmEvent>): seq<Replayed> {
    if events == [] then []
    else
      var e := events[|events| - 1];
      var m := s.unwrap(e, trade.secret);
      ReplayedBy(s, trade, events[..|events| - 1])
        + if Accepts(s, {}, e) && m.Some? then [Replayed(trade, m.value, e.createdAt)] else []
  }

  function ReplayedAll(s: Settings, trades: seq<Tracked>, query: Tracked -> seq<DmEvent>): seq<Replayed> {
    if trades == [] then []
    else
      ReplayedAll(s, trades[..|trades| - 1], query)
      + ReplayedBy(s, trades[|trades| - 1], query(trades[|trades| - 1]))
  }

  function ByAge(): Replayed -> real {
    (r: Replayed) => r.createdAt as real
  }

  /** The messages of all trades that pass the checks, oldest first. */
  method ReplayTradeDms(
    s: Settings, trades: seq<Tracked>, query: Tracked -> seq<DmEvent>) returns (results: seq<Replayed>)
    ensures multiset(results) == multiset(ReplayedAll(s, trades, query))
    ensures forall i, j | 0 <= i < j < |results| :: results[i].createdAt <= results[j].createdAt
  {
    var found: seq<Replayed> := [];
    for t := 0 to |trades|
      invariant found == ReplayedAll(s, trades[..t], query)
    {
      assert trades[..t + 1][..t] == trades[..t];
      var more := ReplayTrade(s, trades[t], query(trades[t]));
      found := found + more;
    }
    assert trades[..|trades|] == trades;
    results := Sort(ByAge(), found);
    SortAscending(ByAge(), found);
    var key := ByAge();
    assert forall i, j | 0 <= i < j < |results| :: key(results[i]) <= key(results[j]);
  }

  method ReplayTrade(s: Settings, trade: Tracked, events: seq<DmEvent>) returns (found: seq<Replayed>)
    ensures found == ReplayedBy(s, trade, events)
  {
    found := [];
    for k := 0 to |events|
      invariant found == ReplayedBy(s, trade, events[..k])
    {
      assert events[..k + 1][..k] == events[..k];
      var e := events[k];
      if e.kind != s.eventKind || !e.signed || e.pubkey != s.mostroPubkey {
        continue;
      }
      var m := s.unwrap(e, trade.secret);
      if m.None? {
        continue;
      }
      found := found + [Replayed(trade, m.value, e.createdAt)];
    }
    assert events[..|events|] == events;
  }
}
