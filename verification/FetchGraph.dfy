/** The bounded, best-first collection of attestations around a root. */
module FetchGraph {
  import opened Wrappers
  import opened Graph
  import opened Sequences
  import opened Sorting
  import opened Sums
  import opened Attestations
  import opened Revisions
  import opened Layers

  datatype SeedEdge = SeedEdge(from: Option<Node>, to: Node, weight: real, hint: Option<string>, createdAt: int)

  datatype Params = Params(
    relays: seq<string>,
    root: Node,
    seed: seq<SeedEdge>,
    maxHop: nat,
    maxHints: nat,
    maxNodes: int,
    maxOutDegree: int,
    minWeight: real,
    deadline: real,
    requireHint: bool)

  /** The outside world: what a relay answers to the n-th event of the run, and the time that event happens. */
  datatype Network = Network(query: (nat, string, set<Node>) -> Option<seq<Event>>, elapsed: nat -> real)

  /** One relay query of one hop. */
  datatype Query = Query(hop: nat, relay: string, authors: set<Node>)

  predicate OverDeadline(params: Params, net: Network, moment: nat) {
    params.deadline > 0.0 && net.elapsed(moment) > params.deadline
  }

  /** The deadline had passed at some event up to now. */
  ghost predicate Late(params: Params, net: Network, now: nat) {
    exists moment: nat :: moment <= now && OverDeadline(params, net, moment)
  }

  datatype Walk = Walk(
    queried: set<Node>,
    seeds: seq<Attestation>,
    fetched: seq<Attestation>,
    hints: map<Node, seq<string>>,
    priority: map<Node, real>,
    frontier: seq<Node>)

  function Max(a: real, b: real): real {
    if a < b then b else a
  }

  function Get(m: map<Node, real>, n: Node, default: real): real {
    if n in m then m[n] else default
  }

  function AddHint(hints: map<Node, seq<string>>, a: Attestation): map<Node, seq<string>> {
    if !HasHint(a) then hints
    else
      var known := if a.trustee in hints then hints[a.trustee] else [];
      hints[a.trustee := if a.hint.value in known then known else known + [a.hint.value]]
  }

  ghost predicate InUnit(priority: map<Node, real>) {
    forall n | n in priority :: 0.0 <= priority[n] <= 1.0
  }

  // --- seeds ---

  ghost predicate FairSeeds(seed: seq<SeedEdge>) {
    forall k | 0 <= k < |seed| :: seed[k].weight >= 0.0
  }

  function SeedAttestation(root: Node, e: SeedEdge): Attestation {
    Attestation(e.from.GetOr(root), e.to, e.weight, "seed:" + e.to, e.createdAt, e.hint, None, true)
  }

  ghost function Starts(params: Params): set<Node> {
    {params.root} + set k | 0 <= k < |params.seed| :: params.seed[k].to
  }

  ghost predicate ListsAll(s: seq<Node>, nodes: set<Node>) {
    Distinct(s) && forall n :: n in s <==> n in nodes
  }

  method SeedSum(seed: seq<SeedEdge>) returns (sum: real)
    ensures sum != 0.0
    ensures FairSeeds(seed) ==> sum > 0.0 && forall k | 0 <= k < |seed| :: seed[k].weight <= sum
  {
    sum := 0.0;
    for k := 0 to |seed|
      invariant FairSeeds(seed) ==> sum >= 0.0 && forall j | 0 <= j < k :: seed[j].weight <= sum
    {
      sum := sum + seed[k].weight;
    }
    if sum == 0.0 {
      sum := 1.0;
    }
  }

  lemma ShareInUnit(weight: real, sum: real, share: real)
    requires 0.0 <= weight <= sum && sum > 0.0 && share == weight / sum
    ensures 0.0 <= share <= 1.0
  {
  }

  method SeedWalk(params: Params) returns (w: Walk)
    ensures w.queried == {} && ListsAll(w.frontier, Starts(params))
    ensures w.fetched == [] && |w.seeds| == |params.seed|
      && forall k | 0 <= k < |w.seeds| :: w.seeds[k] == SeedAttestation(params.root, params.seed[k])
    ensures FairSeeds(params.seed) ==> InUnit(w.priority)
    ensures HintsFrom(map[], w.seeds, w.hints)
  {
    var sum := SeedSum(params.seed);
    w := Walk({}, [], [], map[], map[params.root := 1.0], [params.root]);
    for k := 0 to |params.seed|
      invariant w.queried == {}
      invariant ListsAll(w.frontier, {params.root} + set j | 0 <= j < k :: params.seed[j].to)
      invariant w.fetched == [] && |w.seeds| == k
        && forall j | 0 <= j < k :: w.seeds[j] == SeedAttestation(params.root, params.seed[j])
      invariant FairSeeds(params.seed) ==> InUnit(w.priority)
      invariant HintsFrom(map[], w.seeds, w.hints)
    {
      var a := SeedAttestation(params.root, params.seed[k]);
      if FairSeeds(params.seed) {
        ShareInUnit(a.weight, sum, a.weight / sum);
      }
      HintsGrow(map[], w.seeds, w.hints, a);
      var share := if a.truster == params.root then a.weight / sum else 1.0;
      w := w.(
        seeds := w.seeds + [a],
        hints := AddHint(w.hints, a),
        priority := w.priority[a.trustee := Max(Get(w.priority, a.trustee, 0.0), share)],
        frontier := if a.trustee in w.frontier then w.frontier else w.frontier + [a.trustee]);
    }
  }

  // --- one hop: whom to ask ---

  function ByPriority(priority: map<Node, real>): Node -> real {
    (n: Node) => -Get(priority, n, 0.0)
  }

  function Unasked(queried: set<Node>): Node -> bool {
    (n: Node) => n !in queried
  }

  function Open(w: Walk): seq<Node> {
    Filter(Unasked(w.queried), w.frontier)
  }

  lemma {:induction false} FilterDistinct(keep: Node -> bool, nodes: seq<Node>)
    requires Distinct(nodes)
    ensures Distinct(Filter(keep, nodes))
  {
    if nodes != [] {
      FilterDistinct(keep, nodes[..|nodes| - 1]);
    }
  }

  /** What is left of the node budget for so many open nodes. */
  function Remaining(params: Params, w: Walk): int {
    if params.maxNodes > 0 then params.maxNodes - |w.queried| else |Open(w)|
  }

  /** As many of the frontier's unasked nodes as the node budget allows, the best ones, best first. */
  method ChooseAuthors(params: Params, w: Walk) returns (authors: seq<Node>, trimmed: bool, exhausted: bool)
    requires Distinct(w.frontier)
    ensures Distinct(authors) && forall n | n in authors :: n in w.frontier && n !in w.queried
    ensures Ascending(ByPriority(w.priority), authors) && Best(ByPriority(w.priority), authors, Open(w))
    ensures |authors| == if Remaining(params, w) >= |Open(w)| then |Open(w)| else if Remaining(params, w) < 0 then 0
      else Remaining(params, w)
    ensures trimmed <==> Remaining(params, w) < |Open(w)|
    ensures exhausted <==> Remaining(params, w) <= 0
    ensures !trimmed ==> forall n | n in w.frontier && n !in w.queried :: n in authors
  {
    authors := Sort(ByPriority(w.priority), Open(w));
    trimmed := false;
    var remaining := if params.maxNodes > 0 then params.maxNodes - |w.queried| else |authors|;
    exhausted := remaining <= 0;
    FirstAreBest(w, |authors|);
    assert authors[..|authors|] == authors;
    if |authors| > remaining {
      var count := if remaining < 0 then 0 else remaining;
      FirstAreBest(w, count);
      authors := authors[..count];
      trimmed := true;
    }
  }

  lemma FirstAreBest(w: Walk, count: nat)
    requires Distinct(w.frontier) && count <= |Open(w)|
    ensures var key, first := ByPriority(w.priority), Sort(ByPriority(w.priority), Open(w))[..count];
            && Distinct(first) && Ascending(key, first) && Best(key, first, Open(w))
            && (forall n | n in first :: n in w.frontier && n !in w.queried)
            && (count == |Open(w)| ==> forall n | n in w.frontier && n !in w.queried :: n in first)
  {
    SortedOpen(w);
    PrefixStays(ByPriority(w.priority), Sort(ByPriority(w.priority), Open(w)), count);
    PrefixIsBest(ByPriority(w.priority), Open(w), count);
  }

  lemma SortedOpen(w: Walk)
    requires Distinct(w.frontier)
    ensures var sorted := Sort(ByPriority(w.priority), Open(w));
            && Distinct(sorted) && Ascending(ByPriority(w.priority), sorted)
            && forall n :: n in sorted <==> n in w.frontier && n !in w.queried
  {
    var key, open := ByPriority(w.priority), Open(w);
    FilterDistinct(Unasked(w.queried), w.frontier);
    SameElements(open, Sort(key, open));
    DistinctIsKept(open, Sort(key, open));
    SortAscending(key, open);
  }

  // --- one hop: where to ask ---

  function RelaysOf(params: Params, hints: map<Node, seq<string>>, author: Node): seq<string> {
    if author in hints && hints[author] != [] then
      hints[author][..if params.maxHints < |hints[author]| then params.maxHints else |hints[author]|]
    else params.relays
  }

  type Groups = map<string, set<Node>>

  function AddTo(groups: Groups, relay: string, author: Node): Groups {
    groups[relay := (if relay in groups then groups[relay] else {}) + {author}]
  }

  ghost predicate Grouped(groups: Groups, relay: string, author: Node) {
    relay in groups && author in groups[relay]
  }

  ghost predicate RoutedTo(params: Params, hints: map<Node, seq<string>>, authors: seq<Node>, groups: Groups) {
    forall r, a :: Grouped(groups, r, a) <==> a in authors && r in RelaysOf(params, hints, a)
  }

  method Route(params: Params, hints: map<Node, seq<string>>, authors: seq<Node>) returns (groups: Groups, hinted: nat)
    ensures RoutedTo(params, hints, authors, groups)
    ensures hinted <= |authors|
  {
    groups, hinted := map[], 0;
    for k := 0 to |authors|
      invariant RoutedTo(params, hints, authors[..k], groups)
      invariant hinted <= k
    {
      var author := authors[k];
      if author in hints && hints[author] != [] {
        hinted := hinted + 1;
      }
      groups := RouteOne(groups, author, RelaysOf(params, hints, author));
      assert authors[..k + 1] == authors[..k] + [author];
    }
    assert authors[..|authors|] == authors;
  }

  method RouteOne(groups: Groups, author: Node, relays: seq<string>) returns (more: Groups)
    ensures forall r, a :: Grouped(more, r, a) <==> Grouped(groups, r, a) || (a == author && r in relays)
  {
    more := groups;
    for k := 0 to |relays|
      invariant forall r, a :: Grouped(more, r, a) <==> Grouped(groups, r, a) || (a == author && r in relays[..k])
    {
      assert relays[..k + 1] == relays[..k] + [relays[k]];
      more := AddTo(more, relays[k], author);
    }
    assert relays[..|relays|] == relays;
  }

  // --- one hop: the answers ---

  ghost predicate Believable(params: Params, authors: set<Node>, a: Attestation) {
    a.truster in authors && 0.0 <= a.weight && !a.isLocal && Accepts(params.requireHint, a)
  }

  ghost predicate Parses(num: Numerals, events: seq<Event>, a: Attestation) {
    exists e :: e in events && Parsed(num, e) == Some(a)
  }

  method Read(params: Params, num: Numerals, events: seq<Event>, authors: set<Node>) returns (atts: seq<Attestation>)
    ensures forall a | a in atts :: Believable(params, authors, a)
    ensures forall a :: a in atts <==> a.truster in authors && Accepts(params.requireHint, a) && Parses(num, events, a)
  {
    atts := [];
    for k := 0 to |events|
      invariant forall a | a in atts :: Believable(params, authors, a)
      invariant forall a ::
                  a in atts <==> a.truster in authors && Accepts(params.requireHint, a) && Parses(num, events[..k], a)
    {
      assert events[..k + 1] == events[..k] + [events[k]];
      if events[k].pubkey !in authors {
        continue;
      }
      var a := ParseAttestation(num, events[k]);
      if a.None? || (params.requireHint && !HasHint(a.value)) {
        continue;
      }
      atts := atts + [a.value];
    }
    assert events[..|events|] == events;
  }

  /** What is there to be found: the attestations published, as far as the collector accepts them, and which relay
      serves which author. */
  datatype Outlook = Outlook(published: Attestation -> bool, serves: (string, Node) -> bool)

  /** No relay can make up an attestation of an author it is asked for; it may withhold some, fail, or add others'. A
      relay that serves an author answers, at whatever moment, with all the author published. */
  ghost predicate Matches(params: Params, num: Numerals, net: Network, o: Outlook) {
    && (forall moment, relay, authors: set<Node>, a: Attestation |
          Answers(num, net.query(moment, relay, authors), a) && a.truster in authors
            && Accepts(params.requireHint, a) :: o.published(a))
    && (forall moment, relay, authors: set<Node>, a: Attestation | a.truster in authors && o.serves(relay, a.truster)
      && o.published(a) ::
          Answers(num, net.query(moment, relay, authors), a) && Accepts(params.requireHint, a))
  }

  ghost predicate Answers(num: Numerals, answer: Option<seq<Event>>, a: Attestation) {
    answer.Some? && Parses(num, answer.value, a)
  }

  ghost predicate AskedFrom(groups: Groups, hop: nat, asked: seq<Query>) {
    && (forall i | 0 <= i < |asked| ::
          asked[i].hop == hop && asked[i].relay in groups && asked[i].authors == groups[asked[i].relay])
    && (forall i, j | 0 <= i < j < |asked| :: asked[i].relay != asked[j].relay)
  }

  /** Whatever a serving relay of these groups holds has come in. */
  ghost predicate CameIn(o: Outlook, groups: Groups, relays: set<string>, atts: seq<Attestation>) {
    forall r, a: Attestation :: r in relays && Grouped(groups, r, a.truster) && o.serves(r, a.truster) && o.published(a)
      ==> a in atts
  }

  ghost predicate AllPublished(o: Outlook, atts: seq<Attestation>) {
    forall a | a in atts :: o.published(a)
  }

  /** One relay's answer; a failed query answers nothing. */
  method AskRelay(
    params: Params, num: Numerals, net: Network, relay: string, authors: set<Node>, moment: nat, ghost o: Outlook)
    returns (atts: seq<Attestation>)
    ensures forall a | a in atts :: Believable(params, authors, a)
    ensures Matches(params, num, net, o) ==>
      AllPublished(o, atts) && forall a: Attestation | a.truster in authors && o.serves(relay, a.truster)
        && o.published(a) :: a in atts
  {
    var answer := net.query(moment, relay, authors);
    atts := [];
    if answer.Some? {
      atts := Read(params, num, answer.value, authors);
    }
    assert forall a: Attestation ::
        a in atts <==> a.truster in authors && Accepts(params.requireHint, a) && Answers(num, answer, a);
  }

  /** Each relay of a hop is asked once, in no particular order; a failed query or a passed deadline answers nothing. */
  method Ask(
    params: Params, num: Numerals, net: Network, groups: Groups, hop: nat, moment: nat, ghost o: Outlook,
    ghost authors: set<Node>)
    returns (atts: seq<Attestation>, relays: set<string>, late: bool, now: nat, ghost asked: seq<Query>)
    requires forall r | r in groups :: groups[r] <= authors
    ensures forall a | a in atts :: Believable(params, authors, a)
    ensures AskedFrom(groups, hop, asked) && relays <= groups.Keys
    ensures moment <= now && (late ==> Late(params, net, now))
    ensures !late ==> relays == groups.Keys
    ensures Matches(params, num, net, o) ==> AllPublished(o, atts) && (!late ==> CameIn(o, groups, relays, atts))
  {
    atts, relays, late, now, asked := [], {}, false, moment, [];
    var rest := groups.Keys;
    while rest != {}
      invariant rest <= groups.Keys && relays <= groups.Keys - rest && moment <= now
        && (late ==> Late(params, net, now))
      invariant forall a | a in atts :: Believable(params, authors, a)
      invariant AskedFrom(groups, hop, asked) && forall i | 0 <= i < |asked| :: asked[i].relay !in rest
      invariant !late ==> relays == groups.Keys - rest
      invariant Matches(params, num, net, o) ==> AllPublished(o, atts) && (!late ==> CameIn(o, groups, relays, atts))
    {
      var relay :| relay in rest;
      rest := rest - {relay};
      now := now + 1;
      if OverDeadline(params, net, now) {
        late := true;
        continue;
      }
      now := now + 1;
      var more := AskRelay(params, num, net, relay, groups[relay], now, o);
      if Matches(params, num, net, o) {
        CameInGrows(o, groups, relays, atts, relay, more);
      }
      relays := relays + {relay};
      asked := asked + [Query(hop, relay, groups[relay])];
      atts := atts + more;
    }
  }

  lemma CameInGrows(
    o: Outlook, groups: Groups, relays: set<string>, atts: seq<Attestation>, relay: string, more: seq<Attestation>)
    requires relay in groups
    requires forall a: Attestation | a.truster in groups[relay] && o.serves(relay, a.truster)
      && o.published(a) :: a in more
    ensures CameIn(o, groups, relays, atts) ==> CameIn(o, groups, relays + {relay}, atts + more)
  {
  }

  // --- one hop: the next frontier ---

  function From(u: Node): Attestation -> bool {
    (a: Attestation) => a.truster == u
  }

  function OfTruster(atts: seq<Attestation>, u: Node): (r: seq<Attestation>) {
    Filter(From(u), atts)
  }

  lemma OfTrusterOfBoth(a: seq<Attestation>, b: seq<Attestation>, u: Node)
    ensures OfTruster(a + b, u) == OfTruster(a, u) + OfTruster(b, u)
  {
    FilterBoth(From(u), a, b);
  }

  lemma AllOfTruster(atts: seq<Attestation>, t: Node, u: Node)
    requires forall a | a in atts :: a.truster == t
    ensures OfTruster(atts, u) == if u == t then atts else []
  {
    if u == t {
      FilterAll(From(u), atts);
    } else {
      FilterNone(From(u), atts);
    }
  }

  function Weighty(min: real): Attestation -> bool {
    (a: Attestation) => a.weight >= min
  }

  function ByWeight(): Attestation -> real {
    (a: Attestation) => -a.weight
  }

  /** The strongest edges of one truster: an edge of sufficient weight, or a copy of one, is dropped only for a full
      list of edges at least as strong, copies counted. */
  method Strongest(params: Params, list: seq<Attestation>) returns (kept: seq<Attestation>)
    ensures params.maxOutDegree > 0 ==> |kept| <= params.maxOutDegree
    ensures multiset(kept) <= multiset(list)
    ensures forall a | a in kept :: a in list && a.weight >= params.minWeight
    ensures forall b | b in multiset(list) - multiset(kept) && b.weight >= params.minWeight ::
              params.maxOutDegree > 0 && |kept| == params.maxOutDegree && forall a | a in kept :: b.weight <= a.weight
  {
    var chosen := list;
    if params.maxOutDegree > 0 {
      var count := if params.maxOutDegree < |list| then params.maxOutDegree else |list|;
      chosen := Sort(ByWeight(), list)[..count];
    }
    kept := Filter(Weighty(params.minWeight), chosen);
    ChosenAreStrongest(params, list);
  }

  function Foremost(params: Params, list: seq<Attestation>): seq<Attestation> {
    if params.maxOutDegree > 0
    then Sort(ByWeight(), list)[..if params.maxOutDegree < |list| then params.maxOutDegree else |list|]
    else list
  }

  lemma ChosenAreStrongest(params: Params, list: seq<Attestation>)
    ensures var kept := Filter(Weighty(params.minWeight), Foremost(params, list));
            && (params.maxOutDegree > 0 ==> |kept| <= params.maxOutDegree) && multiset(kept) <= multiset(list)
            && (forall a | a in kept :: a in list && a.weight >= params.minWeight)
            && forall b | b in multiset(list) - multiset(kept) && b.weight >= params.minWeight ::
                 params.maxOutDegree > 0 && |kept| == params.maxOutDegree
                   && forall a | a in kept :: b.weight <= a.weight
  {
    var chosen := Foremost(params, list);
    var kept := Filter(Weighty(params.minWeight), chosen);
    ChosenCounts(params, list);
    forall x: Attestation
      ensures multiset(kept)[x] <= multiset(list)[x]
    {
      FilterCounts(Weighty(params.minWeight), chosen, x);
    }
    forall a | a in kept
      ensures a in list
    {
      assert a in multiset(chosen) && a in multiset(list);
    }
    forall b | b in multiset(list) - multiset(kept) && b.weight >= params.minWeight
      ensures params.maxOutDegree > 0 && |kept| == params.maxOutDegree && forall a | a in kept :: b.weight <= a.weight
    {
      FilterCounts(Weighty(params.minWeight), chosen, b);
      DroppedIsWeaker(params, list, b);
    }
  }

  lemma ChosenCounts(params: Params, list: seq<Attestation>)
    ensures multiset(Foremost(params, list)) <= multiset(list)
  {
    if params.maxOutDegree > 0 {
      var sorted, n := Sort(ByWeight(), list), |Foremost(params, list)|;
      assert sorted == sorted[..n] + sorted[n..];
    }
  }

  lemma DroppedIsWeaker(params: Params, list: seq<Attestation>, b: Attestation)
    requires multiset(Foremost(params, list))[b] < multiset(list)[b] && b.weight >= params.minWeight
    ensures var kept := Filter(Weighty(params.minWeight), Foremost(params, list));
            params.maxOutDegree > 0 && |kept| == params.maxOutDegree && forall a | a in kept :: b.weight <= a.weight
  {
    var sorted, chosen := Sort(ByWeight(), list), Foremost(params, list);
    assert sorted == chosen + sorted[|chosen|..];
    assert b in multiset(sorted[|chosen|..]);
    SortAscending(ByWeight(), list);
    RestIsWeaker(sorted, |chosen|, b);
    FilterAll(Weighty(params.minWeight), chosen);
  }

  lemma RestIsWeaker(sorted: seq<Attestation>, count: nat, b: Attestation)
    requires Ascending(ByWeight(), sorted) && count <= |sorted| && b in sorted[count..]
    ensures forall a | a in sorted[..count] :: b.weight <= a.weight
  {
    var j :| count <= j < |sorted| && sorted[j] == b;
    forall i | 0 <= i < count
      ensures b.weight <= sorted[i].weight
    {
      var key := ByWeight();
      assert key(sorted[i]) <= key(sorted[j]);
    }
  }

  /** With copies from two relays a list of two edges is full although the cap of two would hold both. */
  method CopiesFillList(params: Params, strong: Attestation, weak: Attestation) returns (kept: seq<Attestation>)
    requires params.maxOutDegree == 2 && strong.weight > weak.weight >= params.minWeight
    ensures weak !in kept
  {
    var list := [strong, strong, weak];
    kept := Strongest(params, list);
    CopiesWin(params, strong, weak, kept);
  }

  lemma TwoOfOne(kept: seq<Attestation>, strong: Attestation, weak: Attestation)
    requires |kept| <= 2 && strong != weak
    ensures multiset(kept)[strong] >= 2 ==> weak !in kept
  {
    if |kept| == 2 {
      assert kept == [kept[0], kept[1]];
    } else if |kept| == 1 {
      assert kept == [kept[0]];
    }
  }

  lemma CopiesWin(params: Params, strong: Attestation, weak: Attestation, kept: seq<Attestation>)
    requires params.maxOutDegree == 2 && strong.weight > weak.weight >= params.minWeight && |kept| <= 2
    requires multiset(kept) <= multiset([strong, strong, weak])
    requires forall b | b in multiset([strong, strong, weak]) - multiset(kept) && b.weight >= params.minWeight ::
               forall a | a in kept :: b.weight <= a.weight
    ensures weak !in kept
  {
    assert multiset([strong, strong, weak]) == multiset{strong, strong, weak};
    if multiset(kept)[strong] < 2 {
      assert strong in multiset([strong, strong, weak]) - multiset(kept);
    } else {
      TwoOfOne(kept, strong, weak);
    }
  }

  method WeightSum(atts: seq<Attestation>) returns (sum: real)
    ensures (forall a | a in atts :: a.weight >= 0.0) ==> sum >= 0.0 && forall a | a in atts :: a.weight <= sum
  {
    sum := 0.0;
    for k := 0 to |atts|
      invariant (forall a | a in atts :: a.weight >= 0.0)
        ==> sum >= 0.0 && forall j | 0 <= j < k :: atts[j].weight <= sum
    {
      assert atts[k] in atts;
      sum := sum + atts[k].weight;
    }
  }

  lemma ChildInUnit(parent: real, weight: real, sum: real, child: real)
    requires 0.0 <= parent <= 1.0 && 0.0 <= weight <= sum
    requires child == if sum > 0.0 then parent * (weight / sum) else parent
    ensures 0.0 <= child <= 1.0
  {
    if sum > 0.0 {
      var share := weight / sum;
      ShareInUnit(weight, sum, share);
      ProductInUnit(parent, share, parent * share);
    }
  }

  lemma ProductInUnit(x: real, y: real, xy: real)
    requires 0.0 <= x <= 1.0 && 0.0 <= y <= 1.0 && xy == x * y
    ensures 0.0 <= xy <= 1.0
  {
    TimesNonNegative(x, y);
    TimesNonNegative(x, 1.0 - y);
  }

  ghost predicate Trustees(atts: seq<Attestation>, queried: set<Node>, next: seq<Node>) {
    Distinct(next) && forall n :: n in next <==> n !in queried && exists a :: a in atts && a.trustee == n
  }

  /** The hints known are the old ones and those of the attestations added. */
  ghost predicate HintsFrom(was: map<Node, seq<string>>, added: seq<Attestation>, hints: map<Node, seq<string>>) {
    forall n, r :: Hinted(hints, n, r)
      <==> Hinted(was, n, r) || exists a :: a in added && HasHint(a) && a.trustee == n && a.hint.value == r
  }

  ghost predicate Hinted(hints: map<Node, seq<string>>, n: Node, r: string) {
    n in hints && r in hints[n]
  }

  lemma HintsGrow(was: map<Node, seq<string>>, added: seq<Attestation>, hints: map<Node, seq<string>>, a: Attestation)
    requires HintsFrom(was, added, hints)
    ensures HintsFrom(was, added + [a], AddHint(hints, a))
  {
    var more := AddHint(hints, a);
    forall n, r
      ensures Hinted(more, n, r) <==> Hinted(hints, n, r) || (HasHint(a) && a.trustee == n && a.hint.value == r)
    {
    }
  }

  /** What following some answers has led to so far. */
  datatype Reach = Reach(
    added: seq<Attestation>, hints: map<Node, seq<string>>, next: seq<Node>, priority: map<Node, real>)

  /** Adds one truster's kept edges. */
  method Follow(
    kept: seq<Attestation>, queried: set<Node>, parent: real, reach: Reach,
    ghost was: map<Node, seq<string>>) returns (more: Reach)
    requires Trustees(reach.added, queried, reach.next) && HintsFrom(was, reach.added, reach.hints)
    ensures more.added == reach.added + kept && Trustees(more.added, queried, more.next)
      && HintsFrom(was, more.added, more.hints)
    ensures 0.0 <= parent <= 1.0 && InUnit(reach.priority) && (forall a | a in kept :: a.weight >= 0.0)
      ==> InUnit(more.priority)
  {
    var sum := WeightSum(kept);
    more := reach;
    for k := 0 to |kept|
      invariant more.added == reach.added + kept[..k] && Trustees(more.added, queried, more.next)
      invariant HintsFrom(was, more.added, more.hints)
      invariant 0.0 <= parent <= 1.0 && InUnit(reach.priority) && (forall a | a in kept :: a.weight >= 0.0)
        ==> InUnit(more.priority)
    {
      var a := kept[k];
      assert a in kept;
      var child := if sum > 0.0 then parent * (a.weight / sum) else parent;
      if 0.0 <= parent <= 1.0 && forall b | b in kept :: b.weight >= 0.0 {
        ChildInUnit(parent, a.weight, sum, child);
      }
      HintsGrow(was, more.added, more.hints, a);
      more := FollowOne(more, a, queried, child);
      assert kept[..k + 1] == kept[..k] + [a];
    }
    assert kept[..|kept|] == kept;
  }

  method FollowOne(reach: Reach, a: Attestation, queried: set<Node>, child: real) returns (more: Reach)
    requires Trustees(reach.added, queried, reach.next)
    ensures more.added == reach.added + [a] && Trustees(more.added, queried, more.next)
      && more.hints == AddHint(reach.hints, a)
    ensures 0.0 <= child <= 1.0 && InUnit(reach.priority) ==> InUnit(more.priority)
  {
    more := Reach(
      reach.added + [a], AddHint(reach.hints, a),
      if a.trustee !in queried && a.trustee !in reach.next then reach.next + [a.trustee] else reach.next,
      reach.priority[a.trustee := Max(Get(reach.priority, a.trustee, 0.0), child)]);
  }

  ghost predicate Capped(params: Params, atts: seq<Attestation>) {
    params.maxOutDegree > 0 ==> forall u :: |OfTruster(atts, u)| <= params.maxOutDegree
  }

  /** Only trusters with a full list of kept edges lose edges of sufficient weight. */
  ghost predicate FullyKept(params: Params, atts: seq<Attestation>, added: seq<Attestation>) {
    forall a | a in atts && a.weight >= params.minWeight && a !in added ::
      params.maxOutDegree > 0 && |OfTruster(added, a.truster)| == params.maxOutDegree
  }

  /** Caps every truster's out-degree, collects the next frontier and raises the priorities. */
  method Expand(params: Params, w: Walk, atts: seq<Attestation>) returns (next: Walk, ghost added: seq<Attestation>)
    requires forall a | a in atts :: a.weight >= 0.0
    ensures next.queried == w.queried && next.seeds == w.seeds && next.fetched == w.fetched + added
    ensures forall a | a in added :: a in atts && a.weight >= params.minWeight
    ensures Capped(params, added) && FullyKept(params, atts, added)
    ensures Strongmost(params, atts, added)
    ensures Trustees(added, w.queried, next.frontier)
    ensures InUnit(w.priority) ==> InUnit(next.priority)
    ensures HintsFrom(w.hints, added, next.hints)
  {
    var reach := Reach([], w.hints, [], map[]);
    var trusters := set a | a in atts :: a.truster;
    var rest := trusters;
    NothingExpanded(params, w, atts, rest);
    while rest != {}
      invariant rest <= trusters && Expanded(params, w, atts, rest, reach)
    {
      var truster :| truster in rest;
      reach := ExpandOne(params, w, atts, rest, truster, reach);
      rest := rest - {truster};
    }
    added := reach.added;
    AllExpanded(params, w, atts, reach);
    next := w.(fetched := w.fetched + reach.added, hints := reach.hints, frontier := reach.next, priority :=
      Raised(w.priority, reach.priority));
  }

  /** All trusters but the rest have been dealt with. */
  ghost predicate Expanded(params: Params, w: Walk, atts: seq<Attestation>, rest: set<Node>, reach: Reach) {
    && (forall a | a in reach.added :: a in atts && a.weight >= params.minWeight && a.truster !in rest)
    && Capped(params, reach.added)
    && FullyKept(params, Filter(Outside(rest), atts), reach.added)
    && Strongmost(params, Filter(Outside(rest), atts), reach.added)
    && Trustees(reach.added, w.queried, reach.next)
    && (InUnit(w.priority) ==> InUnit(reach.priority))
    && HintsFrom(w.hints, reach.added, reach.hints)
  }

  lemma NothingExpanded(params: Params, w: Walk, atts: seq<Attestation>, rest: set<Node>)
    requires forall a | a in atts :: a.truster in rest
    ensures Expanded(params, w, atts, rest, Reach([], w.hints, [], map[]))
  {
    FilterNone(Outside(rest), atts);
  }

  lemma AllExpanded(params: Params, w: Walk, atts: seq<Attestation>, reach: Reach)
    requires Expanded(params, w, atts, {}, reach)
    ensures FullyKept(params, atts, reach.added) && Strongmost(params, atts, reach.added)
  {
    FilterAll(Outside({}), atts);
  }

  method ExpandOne(
    params: Params, w: Walk, atts: seq<Attestation>, ghost rest: set<Node>, truster: Node,
    reach: Reach) returns (more: Reach)
    requires truster in rest && Expanded(params, w, atts, rest, reach) && forall a | a in atts :: a.weight >= 0.0
    ensures Expanded(params, w, atts, rest - {truster}, more)
  {
    var list := OfTruster(atts, truster);
    var kept := Strongest(params, list);
    CappedGrows(params, reach.added, kept, truster);
    FullyKeptGrows(params, atts, rest, reach.added, kept, truster);
    more := Follow(kept, w.queried, Get(w.priority, truster, 1.0), reach, w.hints);
  }

  /** An edge dropped for the cap is no heavier than those its truster keeps. */
  ghost predicate Strongmost(params: Params, atts: seq<Attestation>, added: seq<Attestation>) {
    forall a, b | a in added && b in atts && b !in added && b.truster == a.truster
      && b.weight >= params.minWeight :: b.weight <= a.weight
  }

  /** The attestations of trusters already dealt with. */
  function Outside(rest: set<Node>): Attestation -> bool {
    (a: Attestation) => a.truster !in rest
  }

  lemma FullyKeptGrows(
    params: Params, atts: seq<Attestation>, rest: set<Node>, added: seq<Attestation>, kept: seq<Attestation>,
    truster: Node)
    requires truster in rest && forall a | a in added :: a.truster !in rest
    requires FullyKept(params, Filter(Outside(rest), atts), added)
      && Strongmost(params, Filter(Outside(rest), atts), added)
    requires forall a | a in kept :: a.truster == truster
    requires forall b | b in multiset(OfTruster(atts, truster)) - multiset(kept) && b.weight >= params.minWeight ::
               params.maxOutDegree > 0 && |kept| == params.maxOutDegree && forall a | a in kept :: b.weight <= a.weight
    ensures FullyKept(params, Filter(Outside(rest - {truster}), atts), added + kept)
    ensures Strongmost(params, Filter(Outside(rest - {truster}), atts), added + kept)
  {
    var more := rest - {truster};
    forall b | b in Filter(Outside(more), atts) && b.weight >= params.minWeight && b !in added + kept
      ensures params.maxOutDegree > 0 && |OfTruster(added + kept, b.truster)| == params.maxOutDegree
    {
      OfTrusterOfBoth(added, kept, b.truster);
      AllOfTruster(kept, truster, b.truster);
      if b.truster == truster {
        assert b in OfTruster(atts, truster) && b in multiset(OfTruster(atts, truster)) - multiset(kept);
        NoneOfTruster(added, truster);
      } else {
        assert b in Filter(Outside(rest), atts);
      }
    }
    forall a, b | a in added + kept && b in Filter(Outside(more), atts) && b !in added + kept && b.truster == a.truster
      && b.weight >= params.minWeight
      ensures b.weight <= a.weight
    {
      if b.truster == truster {
        assert b in OfTruster(atts, truster) && b in multiset(OfTruster(atts, truster)) - multiset(kept) && a in kept;
      } else {
        assert b in Filter(Outside(rest), atts) && a in added;
      }
    }
  }

  function Raised(was: map<Node, real>, raised: map<Node, real>): map<Node, real> {
    map n | n in was.Keys + raised.Keys :: if n in raised then Max(Get(was, n, 0.0), raised[n]) else was[n]
  }

  lemma CappedGrows(params: Params, added: seq<Attestation>, kept: seq<Attestation>, truster: Node)
    requires Capped(params, added)
    requires forall a | a in added :: a.truster != truster
    requires forall a | a in kept :: a.truster == truster
    requires params.maxOutDegree > 0 ==> |kept| <= params.maxOutDegree
    ensures Capped(params, added + kept)
  {
    forall u
      ensures |OfTruster(added + kept, u)| == if u == truster then |kept| else |OfTruster(added, u)|
    {
      OfTrusterOfBoth(added, kept, u);
      AllOfTruster(kept, truster, u);
      if u == truster {
        NoneOfTruster(added, u);
      }
    }
  }

  lemma NoneOfTruster(atts: seq<Attestation>, u: Node)
    requires forall a | a in atts :: a.truster != u
    ensures OfTruster(atts, u) == []
  {
    FilterNone(From(u), atts);
  }

  // --- the walk ---

  /** No author is asked for in two hops, or twice by the same relay. */
  ghost predicate AskedOnce(asked: seq<Query>) {
    forall i, j, n | 0 <= i < j < |asked| && n in asked[i].authors && n in asked[j].authors ::
      asked[i].hop == asked[j].hop && asked[i].relay != asked[j].relay
  }

  ghost predicate AskedSoFar(asked: seq<Query>, hop: nat, queried: set<Node>) {
    forall i | 0 <= i < |asked| :: asked[i].hop < hop && asked[i].authors <= queried
  }

  lemma AskedGrows(
    asked: seq<Query>, more: seq<Query>, hop: nat, queried: set<Node>, groups: Groups, authors: set<Node>)
    requires AskedOnce(asked) && AskedSoFar(asked, hop, queried)
    requires AskedFrom(groups, hop, more) && (forall r | r in groups :: groups[r] <= authors) && authors !! queried
    ensures AskedOnce(asked + more) && AskedSoFar(asked + more, hop + 1, queried + authors)
  {
  }

  /** What the walk keeps at every hop. */
  ghost predicate Sane(params: Params, w: Walk) {
    && Distinct(w.frontier) && (forall n | n in w.frontier :: n !in w.queried)
    && (forall a | a in w.fetched :: a.truster in w.queried && !a.isLocal)
    && Capped(params, w.fetched)
    && (params.maxNodes > 0 ==> |w.queried| <= params.maxNodes)
    && (FairSeeds(params.seed) ==> InUnit(w.priority))
  }

  /** Some published attestation of enough weight leads from m to n. */
  ghost predicate Leads(params: Params, o: Outlook, a: Attestation, m: Node, n: Node) {
    o.published(a) && a.truster == m && a.trustee == n && a.weight >= params.minWeight
  }

  ghost function TrustLinks(params: Params, o: Outlook): Links {
    (m, n) => exists a :: Leads(params, o, a, m, n)
  }

  /** Some bootstrap relay serves each node, and the relay an attestation or seed names as a hint serves its trustee.
      Nothing is asked of any other relay. */
  ghost predicate WellServed(params: Params, o: Outlook) {
    && params.maxHints > 0
    && (forall n: Node :: BootstrapServes(params, o, n))
    && (forall k | 0 <= k < |params.seed| :: HintServes(o, SeedAttestation(params.root, params.seed[k])))
    && (forall a | o.published(a) :: HintServes(o, a))
  }

  ghost predicate Served(params: Params, num: Numerals, net: Network, o: Outlook) {
    Matches(params, num, net, o) && WellServed(params, o)
  }

  ghost predicate BootstrapServes(params: Params, o: Outlook, n: Node) {
    exists r :: r in params.relays && o.serves(r, n)
  }

  ghost predicate HintServes(o: Outlook, a: Attestation) {
    HasHint(a) ==> o.serves(a.hint.value, a.trustee)
  }

  ghost predicate HintsServe(o: Outlook, hints: map<Node, seq<string>>) {
    forall n, r | Hinted(hints, n, r) :: o.serves(r, n)
  }

  /** No truster's list of kept edges is full. */
  ghost predicate Roomy(params: Params, fetched: seq<Attestation>) {
    params.maxOutDegree > 0 ==> forall u :: |OfTruster(fetched, u)| < params.maxOutDegree
  }

  /** So it is enough that every truster's edges, counted once each, and times the copies that came, stay below the cap.
      */
  lemma RoomyIfFew(params: Params, fetched: seq<Attestation>, copies: nat)
    requires forall a :: multiset(fetched)[a] <= copies
    requires params.maxOutDegree > 0 ==> forall u :: copies * |EdgesFetched(fetched, u)| < params.maxOutDegree
    ensures Roomy(params, fetched)
  {
    forall u
      ensures |OfTruster(fetched, u)| <= copies * |EdgesFetched(fetched, u)|
    {
      forall a
        ensures multiset(OfTruster(fetched, u))[a] <= copies
      {
        FilterCounts(From(u), fetched, a);
      }
      FewCopies(OfTruster(fetched, u), EdgesFetched(fetched, u), copies);
    }
  }

  ghost function EdgesFetched(fetched: seq<Attestation>, u: Node): set<Attestation> {
    set a | a in OfTruster(fetched, u)
  }

  lemma RoomyParts(params: Params, known: seq<Attestation>, added: seq<Attestation>)
    requires Roomy(params, known + added)
    ensures Roomy(params, known) && Roomy(params, added)
  {
    forall u
      ensures |OfTruster(known, u)| + |OfTruster(added, u)| == |OfTruster(known + added, u)|
    {
      OfTrusterOfBoth(known, added, u);
    }
  }

  ghost function Nodes(s: seq<Node>): (nodes: set<Node>)
    ensures forall n :: n in nodes <==> n in s
  {
    set n | n in s
  }

  lemma {:induction false} NodesSize(s: seq<Node>)
    requires Distinct(s)
    ensures |Nodes(s)| == |s|
  {
    if s != [] {
      NodesSize(s[..|s| - 1]);
      assert s == s[..|s| - 1] + [s[|s| - 1]];
      assert Nodes(s) == Nodes(s[..|s| - 1]) + {s[|s| - 1]};
    }
  }

  lemma CappedApart(params: Params, known: seq<Attestation>, added: seq<Attestation>, queried: set<Node>)
    requires Capped(params, known) && Capped(params, added)
    requires forall a | a in known :: a.truster in queried
    requires forall a | a in added :: a.truster !in queried
    ensures Capped(params, known + added)
  {
    forall u
      ensures |OfTruster(known + added, u)| == if u in queried then |OfTruster(known, u)| else |OfTruster(added, u)|
    {
      OfTrusterOfBoth(known, added, u);
      if u in queried {
        NoneOfTruster(added, u);
      } else {
        NoneOfTruster(known, u);
      }
    }
  }

  /** Every author was routed to a relay that serves it. */
  lemma SomeRelayServes(params: Params, o: Outlook, hints: map<Node, seq<string>>, author: Node)
    returns (r: string)
    requires WellServed(params, o) && HintsServe(o, hints)
    ensures r in RelaysOf(params, hints, author) && o.serves(r, author)
  {
    if author in hints && hints[author] != [] {
      r := hints[author][0];
      assert RelaysOf(params, hints, author)[0] == r;
      assert Hinted(hints, author, r);
    } else {
      assert BootstrapServes(params, o, author);
      r :| r in params.relays && o.serves(r, author);
    }
  }

  /** So in time, what comes in is what the authors have published. */
  lemma AnswersAreComplete(
    params: Params, o: Outlook, hints: map<Node, seq<string>>, authors: seq<Node>, groups: Groups,
    atts: seq<Attestation>)
    requires WellServed(params, o) && HintsServe(o, hints) && RoutedTo(params, hints, authors, groups)
    requires CameIn(o, groups, groups.Keys, atts) && AllPublished(o, atts)
    requires forall a | a in atts :: a.truster in authors
    ensures forall a: Attestation :: a in atts <==> a.truster in authors && o.published(a)
  {
    forall a: Attestation | a.truster in authors && o.published(a)
      ensures a in atts
    {
      var r := SomeRelayServes(params, o, hints, a.truster);
      assert Grouped(groups, r, a.truster);
    }
  }

  lemma HintsStayGood(o: Outlook, was: map<Node, seq<string>>, added: seq<Attestation>, hints: map<Node, seq<string>>)
    requires HintsFrom(was, added, hints) && HintsServe(o, was)
    requires forall a | a in added :: HintServes(o, a)
    ensures HintsServe(o, hints)
  {
  }

  /** The attestations fetched are exactly those of the asked authors with enough weight. */
  ghost predicate Gathered(params: Params, o: Outlook, queried: set<Node>, fetched: seq<Attestation>) {
    forall a: Attestation :: a in fetched <==> a.truster in queried && a.weight >= params.minWeight && o.published(a)
  }

  /** The whole frontier was asked, and the next one is exactly what it points at. */
  ghost predicate FullHop(params: Params, o: Outlook, w: Walk, next: Walk) {
    && next.queried == w.queried + Nodes(w.frontier)
    && (Gathered(params, o, w.queried, w.fetched) ==> Gathered(params, o, next.queried, next.fetched))
    && forall n :: n in next.frontier <==> n !in next.queried && Follows(TrustLinks(params, o), Nodes(w.frontier), n)
  }

  lemma AllIsKept(params: Params, o: Outlook, w: Walk, next: Walk, atts: seq<Attestation>, added: seq<Attestation>)
    requires next.queried == w.queried + Nodes(w.frontier) && next.fetched == w.fetched + added
    requires forall a: Attestation :: a in atts <==> a.truster in w.frontier && o.published(a)
    requires forall a | a in added :: a in atts && a.weight >= params.minWeight
    requires FullyKept(params, atts, added) && Roomy(params, added) && Trustees(added, next.queried, next.frontier)
    ensures FullHop(params, o, w, next)
  {
    forall a: Attestation
      ensures a in added <==> a.truster in w.frontier && a.weight >= params.minWeight && o.published(a)
    {
    }
    AddedLeadOn(params, o, w.frontier, added, next);
  }

  lemma AddedLeadOn(params: Params, o: Outlook, authors: seq<Node>, added: seq<Attestation>, next: Walk)
    requires forall a: Attestation ::
               a in added <==> a.truster in authors && a.weight >= params.minWeight && o.published(a)
    requires Trustees(added, next.queried, next.frontier)
    ensures forall n :: n in next.frontier <==> n !in next.queried && Follows(TrustLinks(params, o), Nodes(authors), n)
  {
    var links := TrustLinks(params, o);
    forall n
      ensures (exists a :: a in added && a.trustee == n) <==> Follows(links, Nodes(authors), n)
    {
      if Follows(links, Nodes(authors), n) {
        var m :| m in Nodes(authors) && links(m, n);
        var a :| Leads(params, o, a, m, n);
        assert a in added;
      }
      if a :| a in added && a.trustee == n {
        assert Leads(params, o, a, a.truster, n);
        assert links(a.truster, n);
      }
    }
  }

  /** Only a passed deadline or a used-up node budget cuts the walk short. */
  ghost predicate Excused(params: Params, net: Network, now: nat, queried: set<Node>) {
    Late(params, net, now) || (params.maxNodes > 0 && |queried| == params.maxNodes)
  }

  /** Who is asked is of the frontier, no worse than who is not, and leaves none out unless the node budget is used up.
      */
  ghost predicate BestAsked(params: Params, w: Walk, queried: set<Node>) {
    && w.queried <= queried <= w.queried + Nodes(w.frontier)
    && forall n | n in w.frontier && n !in queried ::
         && params.maxNodes > 0 && |queried| == params.maxNodes
         && forall m | m in queried && m !in w.queried :: Get(w.priority, n, 0.0) <= Get(w.priority, m, 0.0)
  }

  lemma AskedAreBest(params: Params, w: Walk, authors: seq<Node>)
    requires Sane(params, w) && Best(ByPriority(w.priority), authors, w.frontier) && Distinct(authors)
    requires forall n | n in authors :: n in w.frontier
    requires (params.maxNodes > 0 && |w.queried| + |authors| == params.maxNodes)
      || forall n | n in w.frontier :: n in authors
    ensures BestAsked(params, w, w.queried + Nodes(authors))
  {
    NodesSize(authors);
    forall n, m | n in w.frontier && n !in w.queried + Nodes(authors) && m in authors
      ensures Get(w.priority, n, 0.0) <= Get(w.priority, m, 0.0)
    {
      var key := ByPriority(w.priority);
      assert key(m) <= key(n);
    }
  }

  method Hop(
    params: Params, num: Numerals, net: Network, w: Walk, hop: nat, moment: nat, ghost o: Outlook,
    ghost before: seq<Query>)
    returns (next: Walk, relays: set<string>, hinted: nat, truncated: bool, exhausted: bool, now: nat,
      ghost asked: seq<Query>)
    requires Sane(params, w) && w.frontier != [] && AskedOnce(before) && AskedSoFar(before, hop, w.queried)
    ensures Sane(params, next) && AskedOnce(asked) && AskedSoFar(asked, hop + 1, next.queried)
    ensures next.seeds == w.seeds && w.queried <= next.queried && w.fetched <= next.fetched
    ensures exhausted ==> truncated && next == w
    ensures moment <= now && (truncated ==> Excused(params, net, now, next.queried))
    ensures BestAsked(params, w, next.queried)
    ensures Served(params, num, net, o) && HintsServe(o, w.hints) ==>
      && HintsServe(o, next.hints)
      && (!truncated && Roomy(params, next.fetched) ==> FullHop(params, o, w, next))
  {
    var authors, trimmed;
    authors, trimmed, exhausted := ChooseAuthors(params, w);
    OpenIsFrontier(w);
    AskedAreBest(params, w, authors);
    assert exhausted ==> w.queried + Nodes(authors) == w.queried;
    next, relays, hinted, truncated, now, asked := w, {}, 0, trimmed || exhausted, moment, before;
    if exhausted {
      return;
    }
    var late;
    next, relays, hinted, late, now, asked := AskAndExpand(params, num, net, w, authors, hop, moment, o, before);
    truncated := truncated || late;
  }

  /** Asks the authors chosen and follows their answers. */
  method AskAndExpand(
    params: Params, num: Numerals, net: Network, w: Walk, authors: seq<Node>, hop: nat, moment: nat, ghost o: Outlook,
    ghost before: seq<Query>)
    returns (next: Walk, relays: set<string>, hinted: nat, late: bool, now: nat, ghost asked: seq<Query>)
    requires Sane(params, w) && Distinct(authors) && (forall n | n in authors :: n in w.frontier)
    requires params.maxNodes > 0 ==> |w.queried| + |authors| <= params.maxNodes
    requires AskedOnce(before) && AskedSoFar(before, hop, w.queried)
    ensures Sane(params, next) && AskedOnce(asked) && AskedSoFar(asked, hop + 1, next.queried)
    ensures next.seeds == w.seeds && next.queried == w.queried + Nodes(authors) && w.fetched <= next.fetched
    ensures |next.queried| == |w.queried| + |authors|
    ensures moment <= now && (late ==> Late(params, net, now))
    ensures Served(params, num, net, o) && HintsServe(o, w.hints) ==>
      && HintsServe(o, next.hints)
      && (!late && (forall n | n in w.frontier :: n in authors) && Roomy(params, next.fetched)
        ==> FullHop(params, o, w, next))
  {
    ghost var group := Nodes(authors);
    var groups, atts;
    ghost var more, added;
    groups, hinted := Route(params, w.hints, authors);
    GroupsWithin(params, w.hints, authors, groups);
    atts, relays, late, now, more := Ask(params, num, net, groups, hop, moment, o, group);
    AskedGrows(before, more, hop, w.queried, groups, group);
    asked := before + more;
    now := now + 1;
    late := late || OverDeadline(params, net, now);
    next, added := Expand(params, w.(queried := w.queried + set n | n in authors), atts);
    HopIsSane(params, w, next, authors, added);
    if Served(params, num, net, o) && HintsServe(o, w.hints) {
      HintsStayGood(o, w.hints, added, next.hints);
      if !late && (forall n | n in w.frontier :: n in authors) && Roomy(params, next.fetched) {
        HopIsFull(params, o, w, next, authors, groups, atts, added);
      }
    }
  }

  lemma HopIsSane(params: Params, w: Walk, next: Walk, authors: seq<Node>, added: seq<Attestation>)
    requires Sane(params, w) && Distinct(authors) && (forall n | n in authors :: n in w.frontier)
    requires params.maxNodes > 0 ==> |w.queried| + |authors| <= params.maxNodes
    requires next.queried == w.queried + Nodes(authors) && next.fetched == w.fetched + added
    requires (forall a | a in added :: a.truster in authors && !a.isLocal) && Capped(params, added)
    requires Trustees(added, next.queried, next.frontier) && (InUnit(w.priority) ==> InUnit(next.priority))
    ensures Sane(params, next) && |next.queried| == |w.queried| + |authors|
  {
    NodesSize(authors);
    CappedApart(params, w.fetched, added, w.queried);
  }

  lemma HopIsFull(
    params: Params, o: Outlook, w: Walk, next: Walk, authors: seq<Node>, groups: Groups, atts: seq<Attestation>,
    added: seq<Attestation>)
    requires WellServed(params, o) && HintsServe(o, w.hints) && RoutedTo(params, w.hints, authors, groups)
    requires CameIn(o, groups, groups.Keys, atts) && AllPublished(o, atts)
      && forall a | a in atts :: a.truster in authors
    requires forall n :: n in authors <==> n in w.frontier
    requires next.queried == w.queried + Nodes(authors) && next.fetched == w.fetched + added
    requires forall a | a in added :: a in atts && a.weight >= params.minWeight
    requires FullyKept(params, atts, added) && Roomy(params, next.fetched)
      && Trustees(added, next.queried, next.frontier)
    ensures FullHop(params, o, w, next)
  {
    AnswersAreComplete(params, o, w.hints, authors, groups, atts);
    RoomyParts(params, w.fetched, added);
    assert Nodes(authors) == Nodes(w.frontier);
    AllIsKept(params, o, w, next, atts, added);
  }

  lemma OpenIsFrontier(w: Walk)
    requires forall n | n in w.frontier :: n !in w.queried
    ensures Open(w) == w.frontier
  {
    FilterAll(Unasked(w.queried), w.frontier);
  }

  lemma GroupsWithin(params: Params, hints: map<Node, seq<string>>, authors: seq<Node>, groups: Groups)
    requires RoutedTo(params, hints, authors, groups)
    ensures forall r | r in groups :: groups[r] <= Nodes(authors)
  {
    forall r, a | r in groups && a in groups[r]
      ensures a in authors
    {
      assert Grouped(groups, r, a);
    }
  }

  /** Where a walk stands after `hop` full hops. */
  ghost predicate Explored(links: Links, starts: set<Node>, w: Walk, hop: nat) {
    && IsBall(links, starts, hop, w.queried + Nodes(w.frontier))
    && (if hop == 0 then w.queried == {} else IsBall(links, starts, hop - 1, w.queried))
    && forall n | Follows(links, w.queried, n) :: n in w.queried || n in w.frontier
  }

  lemma ExploredStep(params: Params, o: Outlook, starts: set<Node>, w: Walk, next: Walk, hop: nat)
    requires Explored(TrustLinks(params, o), starts, w, hop) && FullHop(params, o, w, next)
    ensures Explored(TrustLinks(params, o), starts, next, hop + 1)
  {
    var links := TrustLinks(params, o);
    var ball, after := w.queried + Nodes(w.frontier), next.queried + Nodes(next.frontier);
    forall n
      ensures n in after <==> n in ball || Follows(links, ball, n)
    {
      if Follows(links, ball, n) {
        var m :| m in ball && links(m, n);
        if m in w.queried {
          assert Follows(links, w.queried, n);
        } else {
          assert Follows(links, Nodes(w.frontier), n);
        }
      }
      if Follows(links, Nodes(w.frontier), n) {
        var m :| m in Nodes(w.frontier) && links(m, n);
        assert m in ball;
      }
    }
    NextBall(links, starts, hop, ball, after);
  }

  datatype Collection = Collection(
    graph: Adjacency, attestations: seq<Attestation>, relays: set<string>, hinted: nat, truncated: bool)

  ghost predicate SeedsKept(params: Params, seeds: seq<Attestation>) {
    |seeds| == |params.seed| && forall k | 0 <= k < |seeds| :: seeds[k] == SeedAttestation(params.root, params.seed[k])
  }

  /** Where a walk stands: the hop it is at, and what is known of the events so far. */
  datatype Tour = Tour(walk: Walk, hop: nat, moment: nat, relays: set<string>, hinted: nat, truncated: bool, stop: bool)

  ghost predicate Kept(params: Params, tour: Tour, asked: seq<Query>) {
    && tour.hop <= params.maxHop && Sane(params, tour.walk) && SeedsKept(params, tour.walk.seeds)
    && AskedOnce(asked) && AskedSoFar(asked, tour.hop, tour.walk.queried)
  }

  /** As long as nothing was cut, the walk has asked a whole ball, fetched all it published, and found the next layer.
      */
  ghost predicate OnTrack(params: Params, num: Numerals, net: Network, o: Outlook, tour: Tour) {
    && (tour.truncated ==> Excused(params, net, tour.moment, tour.walk.queried))
    && (tour.stop ==> tour.truncated)
    && (Served(params, num, net, o) ==> Guided(params, o, tour))
  }

  ghost predicate Guided(params: Params, o: Outlook, tour: Tour) {
    && HintsServe(o, tour.walk.hints)
    && (!tour.truncated && Roomy(params, tour.walk.fetched) ==> UpToDate(params, o, tour.walk, tour.hop))
  }

  ghost predicate UpToDate(params: Params, o: Outlook, w: Walk, hop: nat) {
    Gathered(params, o, w.queried, w.fetched) && Explored(TrustLinks(params, o), Starts(params), w, hop)
  }

  lemma StaysUpToDate(params: Params, o: Outlook, w: Walk, next: Walk, hop: nat)
    requires UpToDate(params, o, w, hop) && FullHop(params, o, w, next)
    ensures UpToDate(params, o, next, hop + 1)
  {
    ExploredStep(params, o, Starts(params), w, next, hop);
  }

  /** One turn of the loop. */
  method Advance(params: Params, num: Numerals, net: Network, tour: Tour, ghost o: Outlook, ghost before: seq<Query>)
    returns (next: Tour, ghost asked: seq<Query>)
    requires Kept(params, tour, before) && OnTrack(params, num, net, o, tour)
    requires tour.hop < params.maxHop && tour.walk.frontier != [] && !tour.stop
    ensures Kept(params, next, asked) && OnTrack(params, num, net, o, next)
    ensures next.hop == tour.hop + 1 || (next.hop == tour.hop && next.stop)
  {
    var moment := tour.moment + 1;
    if OverDeadline(params, net, moment) {
      return tour.(moment := moment, truncated := true, stop := true), before;
    }
    var w, relays, hinted, cut, exhausted;
    w, relays, hinted, cut, exhausted, moment, asked := Hop(params, num, net, tour.walk, tour.hop, moment, o, before);
    moment := moment + 1;
    var late := OverDeadline(params, net, moment);
    next := Tour(w, tour.hop + 1, moment, tour.relays + relays, tour.hinted + hinted, tour.truncated || cut
      || late, exhausted || late);
    StaysOnTrack(params, num, net, o, tour, next, cut, late);
  }

  lemma StaysOnTrack(
    params: Params, num: Numerals, net: Network, o: Outlook, tour: Tour, next: Tour, cut: bool, late: bool)
    requires OnTrack(params, num, net, o, tour) && Sane(params, next.walk) && next.hop == tour.hop + 1
    requires tour.walk.queried <= next.walk.queried && tour.walk.fetched <= next.walk.fetched
    requires next.truncated == (tour.truncated || cut || late) && (next.stop ==> next.truncated)
    requires tour.moment <= next.moment && (cut ==> Excused(params, net, next.moment, next.walk.queried))
    requires late ==> OverDeadline(params, net, next.moment)
    requires Served(params, num, net, o) && HintsServe(o, tour.walk.hints) ==>
      && HintsServe(o, next.walk.hints)
      && (!cut && Roomy(params, next.walk.fetched) ==> FullHop(params, o, tour.walk, next.walk))
    ensures OnTrack(params, num, net, o, next)
  {
    if tour.truncated {
      StaysExcused(params, net, tour.moment, tour.walk.queried, next.moment, next.walk.queried);
    }
    if Served(params, num, net, o) {
      StaysGuided(params, o, tour, next);
    }
  }

  lemma StaysGuided(params: Params, o: Outlook, tour: Tour, next: Tour)
    requires Guided(params, o, tour) && HintsServe(o, next.walk.hints) && next.hop == tour.hop + 1
    requires tour.walk.fetched <= next.walk.fetched && (tour.truncated ==> next.truncated)
    requires !next.truncated && Roomy(params, next.walk.fetched) ==> FullHop(params, o, tour.walk, next.walk)
    ensures Guided(params, o, next)
  {
    if !next.truncated && Roomy(params, next.walk.fetched) {
      RoomyBefore(params, tour.walk.fetched, next.walk.fetched);
      StaysUpToDate(params, o, tour.walk, next.walk, tour.hop);
    }
  }

  lemma StaysExcused(params: Params, net: Network, moment: nat, queried: set<Node>, now: nat, more: set<Node>)
    requires Excused(params, net, moment, queried) && moment <= now
    requires queried <= more && (params.maxNodes > 0 ==> |more| <= params.maxNodes)
    ensures Excused(params, net, now, more)
  {
    SmallerSet(queried, more);
  }

  lemma RoomyBefore(params: Params, known: seq<Attestation>, all: seq<Attestation>)
    requires known <= all && Roomy(params, all)
    ensures Roomy(params, known)
  {
    assert all == known + all[|known|..];
    RoomyParts(params, known, all[|known|..]);
  }

  lemma SmallerSet(a: set<Node>, b: set<Node>)
    requires a <= b
    ensures |a| <= |b|
  {
    assert a + (b - a) == b && |a + (b - a)| == |a| + |b - a|;
  }

  lemma StartsOnTrack(params: Params, num: Numerals, net: Network, o: Outlook, tour: Tour)
    requires tour.hop == 0 && tour.walk.queried == {} && tour.walk.fetched == [] && SeedsKept(params, tour.walk.seeds)
    requires ListsAll(tour.walk.frontier, Starts(params)) && HintsFrom(map[], tour.walk.seeds, tour.walk.hints)
      && !tour.truncated && !tour.stop
    ensures OnTrack(params, num, net, o, tour)
  {
    StartsAreBall(TrustLinks(params, o), Starts(params));
    assert tour.walk.queried + Nodes(tour.walk.frontier) == Starts(params);
    if Served(params, num, net, o) {
      HintsStayGood(o, map[], tour.walk.seeds, tour.walk.hints);
    }
  }

  /** Nothing was cut: then exactly the nodes within maxHop - 1 steps were asked, and all their edges of enough weight
      are there. */
  ghost predicate Complete(
    params: Params, num: Numerals, net: Network, o: Outlook, now: nat, truncated: bool, w: Walk) {
    && (truncated ==> Excused(params, net, now, w.queried))
    && (Served(params, num, net, o) && !truncated && Roomy(params, w.fetched) && params.maxHop > 0 ==>
          && IsBall(TrustLinks(params, o), Starts(params), params.maxHop - 1, w.queried)
          && Gathered(params, o, w.queried, w.fetched))
  }

  lemma EndsComplete(params: Params, num: Numerals, net: Network, o: Outlook, tour: Tour)
    requires OnTrack(params, num, net, o, tour) && tour.hop <= params.maxHop
    requires tour.hop == params.maxHop || tour.walk.frontier == [] || tour.stop
    ensures Complete(params, num, net, o, tour.moment, tour.truncated, tour.walk)
  {
    if Served(params, num, net, o) && !tour.truncated && Roomy(params, tour.walk.fetched) && params.maxHop > 0 {
      WholeBall(TrustLinks(params, o), params.root, Starts(params), tour.walk, tour.hop, params.maxHop);
    }
  }

  /** The newest published revision of an asked author's edge decides the edge in the result exactly when its weight
      reaches the minimum: a revocation below the minimum is dropped like any light edge, and an older revision may
      stand. */
  lemma NewestDecides(
    params: Params, o: Outlook, queried: set<Node>, seeds: seq<Attestation>, fetched: seq<Attestation>, a: Attestation,
    now: real)
    requires Gathered(params, o, queried, fetched) && a.truster in queried && o.published(a)
    requires forall b | o.published(b) && Key(b) == Key(a) && b.truster in queried
      && b != a :: b.createdAt < a.createdAt
    requires forall seed | seed in seeds :: Key(seed) != Key(a)
    ensures var latest := LatestOf(seeds + fetched);
            Key(a) in latest.at && latest.at[Key(a)] == a <==> a.weight >= params.minWeight
    ensures a.weight >= params.minWeight ==> (Stands(seeds + fetched, false, now, Key(a)) <==> Live(a, now))
  {
    var all := seeds + fetched;
    LatestIsNewest(Key, Stamp, all, Key(a));
    AllTaken(all);
    if a.weight >= params.minWeight {
      assert a in fetched && a in all && Occurs(Key, all, Key(a));
    } else {
      assert a !in fetched && a !in seeds;
    }
  }

  lemma AllTaken(atts: seq<Attestation>)
    ensures Accepted(atts, false) == atts
  {
  }

  /** For instance: a published revocation of weight zero leaves the older edge standing where a minimum weight is set.
      */
  lemma LightRevocationIsLost(
    params: Params, o: Outlook, queried: set<Node>, fetched: seq<Attestation>, edge: Attestation,
    revocation: Attestation, now: real)
    requires Gathered(params, o, queried, fetched) && edge.truster in queried && Key(edge) == Key(revocation)
    requires o.published(edge) && o.published(revocation) && edge.createdAt < revocation.createdAt
      && revocation.weight == 0.0
    requires 0.0 < params.minWeight <= edge.weight && edge.expiresAt == None
    requires forall b | o.published(b) && Key(b) == Key(edge) :: b == edge || b == revocation
    ensures Stands(fetched, false, now, Key(edge))
  {
    AllTaken(fetched);
    LatestIsNewest(Key, Stamp, fetched, Key(edge));
    assert edge in fetched && Occurs(Key, fetched, Key(edge));
  }

  /** The whole collection. Every budget is kept whatever the relays answer; only a passed deadline or a used-up node
      budget is reported as a cut; and if nothing was cut, whatever the budgets, exactly the nodes within maxHop - 1
      steps were asked. */
  method Fetch(params: Params, num: Numerals, net: Network, now: real, ghost o: Outlook)
    returns (result: Collection, w: Walk, ghost asked: seq<Query>)
    ensures result.attestations == w.seeds + w.fetched && result.graph == AdjacencyOf(result.attestations, false, now)
    ensures |w.seeds| == |params.seed|
      && forall k | 0 <= k < |w.seeds| :: w.seeds[k] == SeedAttestation(params.root, params.seed[k])
    ensures AskedOnce(asked)
    ensures forall i | 0 <= i < |asked| :: asked[i].hop < params.maxHop && asked[i].authors <= w.queried
    ensures params.maxNodes > 0 ==> |w.queried| <= params.maxNodes
    ensures params.maxOutDegree > 0 ==> forall u :: |OfTruster(w.fetched, u)| <= params.maxOutDegree
    ensures forall a | a in w.fetched :: a.truster in w.queried && !a.isLocal
    ensures FairSeeds(params.seed) ==> forall n | n in w.priority :: 0.0 <= w.priority[n] <= 1.0
    ensures result.truncated ==>
      (exists moment :: OverDeadline(params, net, moment)) || (params.maxNodes > 0 && |w.queried| == params.maxNodes)
    ensures Served(params, num, net, o) && !result.truncated && Roomy(params, w.fetched) && params.maxHop > 0 ==>
      && IsBall(TrustLinks(params, o), Starts(params), params.maxHop - 1, w.queried)
      && Gathered(params, o, w.queried, w.fetched)
  {
    var tour;
    tour, asked := Explore(params, num, net, o);
    w := tour.walk;
    var graph := AdjacencyFromAttestations(w.seeds + w.fetched, false, now);
    result := Collection(graph, w.seeds + w.fetched, tour.relays, tour.hinted, tour.truncated);
  }

  method Explore(
    params: Params, num: Numerals, net: Network, ghost o: Outlook) returns (tour: Tour, ghost asked: seq<Query>)
    ensures Kept(params, tour, asked) && Complete(params, num, net, o, tour.moment, tour.truncated, tour.walk)
  {
    var w := SeedWalk(params);
    tour, asked := Tour(w, 0, 0, {}, 0, false, false), [];
    StartsOnTrack(params, num, net, o, tour);
    while tour.hop < params.maxHop && tour.walk.frontier != [] && !tour.stop
      invariant Kept(params, tour, asked) && OnTrack(params, num, net, o, tour)
      decreases params.maxHop - tour.hop, !tour.stop
    {
      tour, asked := Advance(params, num, net, tour, o, asked);
    }
    EndsComplete(params, num, net, o, tour);
  }

  lemma WholeBall(links: Links, root: Node, starts: set<Node>, w: Walk, hop: nat, maxHop: nat)
    requires Explored(links, starts, w, hop) && root in starts
    requires hop <= maxHop && maxHop > 0 && (hop == maxHop || w.frontier == [])
    ensures IsBall(links, starts, maxHop - 1, w.queried)
  {
    if hop < maxHop {
      assert w.queried + Nodes(w.frontier) == w.queried;
      if hop == 0 {
        StartsAreBall(links, starts);
        assert false;
      } else {
        BallStops(links, starts, hop - 1, w.queried, maxHop - 1);
      }
    }
  }
}
