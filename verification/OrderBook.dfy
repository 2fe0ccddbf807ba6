/** Orders read from the tags of order events, and the newest snapshot of each. */
module OrderBook {
  import opened Wrappers
  import opened Sequences
  import opened Sorting
  import opened Text
  import opened OrderedMaps
  import opened Revisions
  import opened M = Messages

  /** An optional minus sign and at least one decimal digit. */
  predicate IsIntegerText(s: string) {
    var digits := if s != "" && s[0] == '-' then s[1..] else s;
    digits != "" && forall k | 0 <= k < |digits| :: IsDigit(digits[k])
  }

  /** Reading names and integers: unknown names have no value. */
  datatype Reader = Reader(kind: string -> Option<string>, status: string -> Option<string>, integer: string -> real)

  function ParseInt(r: Reader, v: string): Option<real> {
    if IsIntegerText(v) then Some(r.integer(v)) else None
  }

  const Blank := M.SmallOrder(None, None, None, 0.0, "", None, None, 0.0, "", 0.0, None, None, None, None, None)

  function FirstValue(tag: seq<string>): string {
    if |tag| >= 2 then tag[1] else ""
  }

  /** What one tag sets; a decimal amount is ignored, and a later tag overrules an earlier one. */
  function ApplyTag(r: Reader, order: M.SmallOrder, tag: seq<string>): M.SmallOrder {
    var v := FirstValue(tag);
    if tag == [] then order
    else if tag[0] == "d" then order.(id := if v == "" then None else Some(v))
    else if tag[0] == "k" then order.(kind := r.kind(v))
    else if tag[0] == "f" then order.(fiatCode := v)
    else if tag[0] == "s" then order.(status := Some(r.status(v).GetOr("pending")))
    else if tag[0] == "amt" then order.(amount := ParseInt(r, v).GetOr(0.0))
    else if tag[0] == "fa" then
      if '.' in v then order
      else if |tag| >= 3 then order.(minAmount := ParseInt(r, v), maxAmount := ParseInt(r, tag[2]))
      else order.(fiatAmount := ParseInt(r, v).GetOr(0.0))
    else if tag[0] == "pm" then order.(paymentMethod := Join(tag[1..], ','))
    else if tag[0] == "premium" then order.(premium := ParseInt(r, v).GetOr(0.0))
    else order
  }

  function TagsApplied(r: Reader, tags: seq<seq<string>>): M.SmallOrder {
    if tags == [] then Blank else ApplyTag(r, TagsApplied(r, tags[..|tags| - 1]), tags[|tags| - 1])
  }

  method OrderFromTags(r: Reader, tags: seq<seq<string>>) returns (order: M.SmallOrder)
    ensures order == TagsApplied(r, tags)
  {
    order := Blank;
    for k := 0 to |tags|
      invariant order == TagsApplied(r, tags[..k])
    {
      assert tags[..k + 1][..k] == tags[..k];
      order := ApplyTag(r, order, tags[k]);
    }
    assert tags[..|tags|] == tags;
  }

  // --- the newest snapshot of each order ---

  datatype OrderEvent = OrderEvent(createdAt: int, tags: seq<seq<string>>)

  /** An order event with an id and a known kind. */
  datatype Snapshot = Snapshot(id: string, createdAt: int, order: M.SmallOrder)

  function SnapshotId(s: Snapshot): string {
    s.id
  }

  function SnapshotTime(s: Snapshot): int {
    s.createdAt
  }

  function SnapshotsOf(r: Reader, event: OrderEvent): seq<Snapshot> {
    var order := TagsApplied(r, event.tags);
    if order.id.None? || order.kind.None? then []
    else [Snapshot(order.id.value, event.createdAt, order.(createdAt := Some(event.createdAt as real)))]
  }

  ghost function AllSnapshots(r: Reader, events: seq<OrderEvent>): seq<Snapshot> {
    if events == [] then [] else AllSnapshots(r, events[..|events| - 1]) + SnapshotsOf(r, events[|events| - 1])
  }

  /** Relays may replay old revisions in any order: what is kept of an order is its newest snapshot. */
  method AggregateLatestOrdersById(r: Reader, events: seq<OrderEvent>) returns (latest: OrderedMap<Snapshot>)
    ensures latest == Latest(SnapshotId, SnapshotTime, AllSnapshots(r, events))
  {
    latest := Empty();
    for k := 0 to |events|
      invariant latest == Latest(SnapshotId, SnapshotTime, AllSnapshots(r, events[..k]))
    {
      assert events[..k + 1][..k] == events[..k];
      var order := OrderFromTags(r, events[k].tags);
      if order.id.None? || order.kind.None? {
        assert AllSnapshots(r, events[..k + 1]) == AllSnapshots(r, events[..k]);
        continue;
      }
      var s := Snapshot(order.id.value, events[k].createdAt, order.(createdAt := Some(events[k].createdAt as real)));
      LatestGrows(SnapshotId, SnapshotTime, AllSnapshots(r, events[..k]), s);
      if s.id !in latest.at || s.createdAt > latest.at[s.id].createdAt {
        latest := latest.Set(s.id, s);
      }
    }
    assert events[..|events|] == events;
  }

  // --- the public book ---

  predicate Listed(currencies: seq<string>, s: Snapshot) {
    s.order.status == Some("pending") && (currencies == [] || s.order.fiatCode in currencies)
  }

  function NewestFirst(): Snapshot -> real {
    (s: Snapshot) => -(s.createdAt as real)
  }

  /** The pending orders in the wanted currencies, newest first, each once. */
  method PendingOrdersForBook(latest: OrderedMap<Snapshot>, currencies: seq<string>) returns (book: seq<Snapshot>)
    requires latest.Good() && forall k | k in latest.at :: latest.at[k].id == k
    ensures forall i, j | 0 <= i < j < |book| :: book[i].createdAt >= book[j].createdAt
    ensures Distinct(book)
    ensures forall s :: s in book <==> s.id in latest.at && latest.at[s.id] == s && Listed(currencies, s)
  {
    var rows := [];
    for k := 0 to |latest.keys|
      invariant Distinct(rows)
      invariant forall s ::
                  s in rows <==> Listed(currencies, s) && exists j :: 0 <= j < k && latest.at[latest.keys[j]] == s
    {
      assert latest.keys[k] in latest.keys;
      var s := latest.at[latest.keys[k]];
      if Listed(currencies, s) {
        rows := rows + [s];
      }
    }
    book := Sort(NewestFirst(), rows);
    SortAscending(NewestFirst(), rows);
    SameElements(rows, book);
    DistinctIsKept(rows, book);
    var key := NewestFirst();
    assert forall i, j | 0 <= i < j < |book| :: key(book[i]) <= key(book[j]);
  }
}
