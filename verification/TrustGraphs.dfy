/** The viewer's attestation cache, what authoring does to it, and the adjacency rebuilt from it. */
module TrustGraphs {
  import opened Wrappers
  import opened Graph
  import opened Sorting
  import opened Sequences
  import opened OrderedMaps
  import opened Revisions
  import opened Attestations
  import opened Attest
  import opened Authoring
  import TrustPath

  // --- filters on the adjacency ---

  /** Rewrites every truster's edges and drops trusters left without any. */
  function MapEdges(graph: Adjacency, f: (Node, seq<Edge>) -> seq<Edge>): Adjacency {
    map u | u in graph && f(u, graph[u]) != [] :: f(u, graph[u])
  }

  function AtLeast(min: real): Edge -> bool {
    (e: Edge) => e.weight >= min
  }

  function ByEdgeWeight(): Edge -> real {
    (e: Edge) => -e.weight
  }

  function Heaviest(edges: seq<Edge>, cap: nat): (kept: seq<Edge>)
    ensures |kept| == if |edges| <= cap then |edges| else cap
    ensures forall e | e in kept :: e in edges
    ensures forall e, d | e in kept && d in edges && d !in kept :: d.weight <= e.weight
    ensures |edges| <= cap ==> kept == edges
  {
    if |edges| <= cap then edges
    else
      SameElements(edges, Sort(ByEdgeWeight(), edges));
      PrefixIsBest(ByEdgeWeight(), edges, cap);
      assert forall e: Edge :: ByEdgeWeight()(e) == -e.weight;
      Sort(ByEdgeWeight(), edges)[..cap]
  }

  ghost predicate HasEdge(graph: Adjacency, u: Node, v: Node) {
    exists w :: Edge(v, w) in EdgesOf(graph, u)
  }

  function Pairs(graph: Adjacency): set<(Node, Node)> {
    set u, k | u in graph && 0 <= k < |graph[u]| :: (u, graph[u][k].to)
  }

  function AnsweredIn(pairs: set<(Node, Node)>, u: Node): Edge -> bool {
    (e: Edge) => (e.to, u) in pairs
  }

  function DropNonMutual(graph: Adjacency): Adjacency {
    var pairs := Pairs(graph);
    MapEdges(graph, (u, edges) => Filter(AnsweredIn(pairs, u), edges))
  }

  datatype Settings = Settings(maxOutDegree: nat, minWeight: real, hardReciprocal: bool)

  function HeavyGraph(graph: Adjacency, min: real): Adjacency {
    if min > 0.0 then MapEdges(graph, (u, edges) => Filter(AtLeast(min), edges)) else graph
  }

  function CappedGraph(graph: Adjacency, cap: nat): Adjacency {
    if cap > 0 then map u | u in graph :: Heaviest(graph[u], cap) else graph
  }

  function Filtered(graph: Adjacency, settings: Settings): Adjacency {
    var capped := CappedGraph(HeavyGraph(graph, settings.minWeight), settings.maxOutDegree);
    if settings.hardReciprocal then DropNonMutual(capped) else capped
  }

  /** Dropping non-mutual edges keeps exactly the edges that are answered, so what is left is mutual. */
  lemma MutualEdges(graph: Adjacency, u: Node, e: Edge)
    ensures e in EdgesOf(DropNonMutual(graph), u) <==> e in EdgesOf(graph, u) && HasEdge(graph, e.to, u)
  {
  }

  lemma MutualIsSymmetric(graph: Adjacency, u: Node, v: Node)
    ensures HasEdge(DropNonMutual(graph), u, v) <==> HasEdge(graph, u, v) && HasEdge(graph, v, u)
    ensures HasEdge(DropNonMutual(graph), u, v) <==> HasEdge(DropNonMutual(graph), v, u)
  {
  }

  lemma HeavyEdges(graph: Adjacency, min: real, u: Node)
    ensures forall e ::
              e in EdgesOf(HeavyGraph(graph, min), u) <==> e in EdgesOf(graph, u) && (min > 0.0 ==> e.weight >= min)
  {
  }

  lemma CappedEdges(graph: Adjacency, cap: nat, u: Node)
    ensures forall e | e in EdgesOf(CappedGraph(graph, cap), u) :: e in EdgesOf(graph, u)
    ensures cap > 0 ==> |EdgesOf(CappedGraph(graph, cap), u)| <= cap
    ensures forall e | e in EdgesOf(graph, u)
      && e !in EdgesOf(CappedGraph(graph, cap), u) :: CrowdedOut(EdgesOf(CappedGraph(graph, cap), u), cap, e)
  {
  }

  lemma MutualShrinks(graph: Adjacency, u: Node)
    ensures |EdgesOf(DropNonMutual(graph), u)| <= |EdgesOf(graph, u)|
  {
  }

  /** The list is full, and of edges at least as heavy. */
  ghost predicate CrowdedOut(kept: seq<Edge>, cap: nat, e: Edge) {
    cap > 0 && |kept| == cap && forall d | d in kept :: e.weight <= d.weight
  }

  /** An edge survives the filters exactly when it is heavy enough, is not crowded out by the cap, and in strict mode is
      answered by an edge that itself survives minimum and cap; what is left in strict mode is mutual. */
  lemma FilteredEdges(graph: Adjacency, settings: Settings, u: Node)
    ensures var heavy, capped :=
      HeavyGraph(graph, settings.minWeight), CappedGraph(HeavyGraph(graph, settings.minWeight), settings.maxOutDegree);
            && (forall e ::
                  e in EdgesOf(heavy, u)
                  <==> e in EdgesOf(graph, u) && (settings.minWeight > 0.0 ==> e.weight >= settings.minWeight))
            && (forall e | e in EdgesOf(capped, u) :: e in EdgesOf(heavy, u))
            && (forall e | e in EdgesOf(heavy, u)
              && e !in EdgesOf(capped, u) :: CrowdedOut(EdgesOf(capped, u), settings.maxOutDegree, e))
            && forall e :: e in EdgesOf(Filtered(graph, settings), u)
                           <==> e in EdgesOf(capped, u) && (settings.hardReciprocal ==> HasEdge(capped, e.to, u))
    ensures settings.maxOutDegree > 0 ==> |EdgesOf(Filtered(graph, settings), u)| <= settings.maxOutDegree
    ensures settings.hardReciprocal ==>
      forall v :: HasEdge(Filtered(graph, settings), u, v) <==> HasEdge(Filtered(graph, settings), v, u)
  {
    var heavy := HeavyGraph(graph, settings.minWeight);
    var capped := CappedGraph(heavy, settings.maxOutDegree);
    HeavyEdges(graph, settings.minWeight, u);
    CappedEdges(heavy, settings.maxOutDegree, u);
    if settings.hardReciprocal {
      MutualShrinks(capped, u);
      forall e
        ensures e in EdgesOf(DropNonMutual(capped), u) <==> e in EdgesOf(capped, u) && HasEdge(capped, e.to, u)
      {
        MutualEdges(capped, u, e);
      }
      forall v
        ensures HasEdge(DropNonMutual(capped), u, v) <==> HasEdge(DropNonMutual(capped), v, u)
      {
        MutualIsSymmetric(capped, u, v);
      }
    }
  }

  /** So weights stay positive, which the trust path relies on. */
  lemma FilteredStaysPositive(graph: Adjacency, settings: Settings)
    requires TrustPath.PositiveWeights(graph)
    ensures TrustPath.PositiveWeights(Filtered(graph, settings))
  {
    var out: Adjacency := Filtered(graph, settings);
    forall u: Node, k: nat | u in out && k < |out[u]|
      ensures out[u][k].weight > 0.0
    {
      FilteredEdges(graph, settings, u);
      assert out[u][k] in EdgesOf(out, u);
      assert out[u][k] in graph[u];
    }
  }

  // --- the log behind the cache ---

  /** Every later revision of an edge carries a later time. */
  ghost predicate Increasing(log: seq<Attestation>) {
    forall i, j | 0 <= i < j < |log| && Key(log[i]) == Key(log[j]) :: log[i].createdAt < log[j].createdAt
  }

  ghost predicate IsLast(log: seq<Attestation>, i: nat) {
    i < |log| && forall j | i < j < |log| :: Key(log[j]) != Key(log[i])
  }

  /** The cache of last writes is the newest-wins replay of the log. */
  ghost predicate Replays(cache: OrderedMap<Attestation>, log: seq<Attestation>) {
    cache == LatestOf(log) && Increasing(log)
  }

  ghost predicate Newer(cache: OrderedMap<Attestation>, a: Attestation) {
    Key(a) in cache.at ==> a.createdAt > cache.at[Key(a)].createdAt
  }

  lemma NewerReplays(cache: OrderedMap<Attestation>, log: seq<Attestation>, a: Attestation)
    requires Replays(cache, log) && Newer(cache, a)
    ensures Replays(cache.Set(Key(a), a), log + [a])
  {
    OverwriteIsLatest(Key, Stamp, log, a);
    LatestIsNewest(Key, Stamp, log, Key(a));
    forall i | 0 <= i < |log| && Key(log[i]) == Key(a)
      ensures log[i].createdAt < a.createdAt
    {
      assert log[i] in log;
    }
  }

  /** An overwrite that does not look at times agrees with the replay exactly when it brings something newer, or nothing
      new. */
  lemma OverwriteAgrees(cache: OrderedMap<Attestation>, log: seq<Attestation>, a: Attestation)
    requires cache == LatestOf(log)
    ensures cache.Set(Key(a), a) == LatestOf(log + [a]) <==> Newer(cache, a) || a == cache.at[Key(a)]
  {
  }

  /** So a stale revision, arriving late, displaces the newer one. */
  lemma StaleRevisionWins(a: Attestation, stale: Attestation)
    requires Key(a) == Key(stale) && stale.createdAt < a.createdAt
    ensures Written([a, stale]).at[Key(a)] == stale && LatestOf([a, stale]).at[Key(a)] == a
  {
    assert [a, stale][..1] == [a] && [a][..0] == [];
    LatestGrows(Key, Stamp, [], a);
    assert [] + [a] == [a];
    LatestGrows(Key, Stamp, [a], stale);
    assert [a] + [stale] == [a, stale];
  }

  lemma {:induction false} LastOfKey(log: seq<Attestation>, k: string) returns (i: nat)
    requires exists j :: 0 <= j < |log| && Key(log[j]) == k
    ensures IsLast(log, i) && Key(log[i]) == k
  {
    var n := |log| - 1;
    if Key(log[n]) == k {
      i := n;
    } else {
      var j :| 0 <= j < |log| && Key(log[j]) == k;
      assert log[..n][j] == log[j];
      i := LastOfKey(log[..n], k);
      assert forall m | i < m < n :: log[..n][m] == log[m];
    }
  }

  /** In an increasing log the last revision of an edge is the one that counts. */
  lemma LastCounts(log: seq<Attestation>, i: nat)
    requires Increasing(log) && IsLast(log, i)
    ensures Key(log[i]) in LatestOf(log).at && LatestOf(log).at[Key(log[i])] == log[i]
  {
    var k := Key(log[i]);
    LatestIsNewest(Key, Stamp, log, k);
    assert log[i] in log;
    var newest := LatestOf(log).at[k];
    var j :| 0 <= j < |log| && log[j] == newest;
    assert Key(log[j]) == Key(log[i]);
  }

  lemma AllAccepted(log: seq<Attestation>)
    ensures Accepted(log, false) == log
  {
  }

  /** The adjacency of the cache's values is the adjacency of the whole log. */
  lemma CacheAdjacency(cache: OrderedMap<Attestation>, log: seq<Attestation>, now: real)
    requires Replays(cache, log)
    ensures AdjacencyOf(cache.Values(), false, now) == AdjacencyOf(log, false, now)
  {
    AllAccepted(log);
    AllAccepted(cache.Values());
    LatestOfValues(Key, Stamp, cache);
  }

  ghost predicate Accounts(log: seq<Attestation>, now: real, u: Node, e: Edge, i: nat) {
    IsLast(log, i) && Live(log[i], now) && log[i].truster == u && EdgeOf(log[i]) == e
  }

  /** An edge is there exactly when the last accepted revision of some address has positive weight and is unexpired. */
  lemma EdgeIsLastAccepted(log: seq<Attestation>, now: real, u: Node, e: Edge)
    requires Increasing(log)
    ensures e in EdgesOf(AdjacencyOf(log, false, now), u) <==> exists i: nat :: Accounts(log, now, u, e, i)
  {
    AllAccepted(log);
    var latest := LatestOf(log);
    var values := latest.Values();
    GraphEdges(values, u, now);
    EdgesInMembers(values, u, now, e);
    if m :| 0 <= m < |values| && Live(values[m], now) && values[m].truster == u && EdgeOf(values[m]) == e {
      assert latest.keys[m] in latest.keys;
      LatestIsNewest(Key, Stamp, log, latest.keys[m]);
      var j :| 0 <= j < |log| && log[j] == values[m];
      var i := LastOfKey(log, latest.keys[m]);
      LastCounts(log, i);
      assert Accounts(log, now, u, e, i);
    }
    if i: nat :| Accounts(log, now, u, e, i) {
      LastCounts(log, i);
      assert Key(log[i]) in latest.keys;
      var m :| 0 <= m < |latest.keys| && latest.keys[m] == Key(log[i]);
      assert values[m] == log[i];
    }
  }

  method Load(stored: seq<Attestation>) returns (cache: OrderedMap<Attestation>)
    ensures cache == Written(stored)
  {
    cache := Empty();
    for i := 0 to |stored|
      invariant cache == Written(stored[..i])
    {
      assert stored[..i + 1][..i] == stored[..i];
      cache := cache.Set(Key(stored[i]), stored[i]);
    }
    assert stored[..|stored|] == stored;
  }

  /** A cache replays its own values: their addresses differ. */
  lemma ValuesReplay(cache: OrderedMap<Attestation>)
    requires KeyedBy(cache)
    ensures Replays(cache, cache.Values())
  {
    LatestOfValues(Key, Stamp, cache);
    forall i, j | 0 <= i < j < |cache.keys|
      ensures Key(cache.Values()[i]) != Key(cache.Values()[j])
    {
      assert cache.keys[i] in cache.keys && cache.keys[j] in cache.keys;
    }
  }

  // --- authoring ---

  predicate IsMine(root: Node, a: Attestation) {
    a.truster == root && !a.isLocal && a.weight > 0.0
  }

  /** The address an authored edge is expected to have. */
  predicate Canonical(a: Attestation) {
    a.trustee != "" && ContextOf(a.d).Some? && a.d == DTag(a.trustee, ContextOf(a.d).value)
  }

  ghost predicate Tidy(root: Node, cache: OrderedMap<Attestation>) {
    forall k | k in cache.at && IsMine(root, cache.at[k]) :: Canonical(cache.at[k])
  }

  function OursIn(root: Node, context: string): Attestation -> bool {
    (a: Attestation) => Ours(root, context, a)
  }

  /** The root's own attestations (of one context, if given). */
  function Mine(root: Node, context: string, values: seq<Attestation>): (mine: seq<Attestation>) {
    Filter(OursIn(root, context), values)
  }

  lemma BuiltIsTidy(root: Node, cache: OrderedMap<Attestation>, signer: string, p: Request, createdAt: int)
    ensures var a := Built(signer, p, createdAt);
            Tidy(root, cache) && p.trustee != "" && Recoverable(p) ==>
              Tidy(root, cache.Set(Key(a), a))
  {
    ContextRoundTrip(p.trustee, ContextIn(p));
  }

  predicate Ours(root: Node, context: string, a: Attestation) {
    IsMine(root, a) && (context == "" || ContextOf(a.d) == Some(context))
  }

  ghost predicate DistinctKeys(atts: seq<Attestation>) {
    forall i, j | 0 <= i < j < |atts| :: Key(atts[i]) != Key(atts[j])
  }

  /** What is yet to come, and what was tried in vain, is as it was. */
  ghost predicate Untouched(cache: OrderedMap<Attestation>, mine: seq<Attestation>, i: nat, accepted: nat -> bool) {
    forall j | 0 <= j < |mine| && (j < i ==> !accepted(j)) :: Holds(cache, Key(mine[j]), mine[j])
  }

  /** Whatever of ours is still in the cache was refused or is yet to come. */
  ghost predicate Leftover(mine: seq<Attestation>, i: nat, accepted: nat -> bool, k: string) {
    exists j :: 0 <= j < |mine| && Key(mine[j]) == k && (j < i ==> !accepted(j))
  }

  ghost predicate Remaining(
    root: Node, context: string, cache: OrderedMap<Attestation>, mine: seq<Attestation>, i: nat,
    accepted: nat -> bool) {
    forall k | k in cache.at && Ours(root, context, cache.at[k]) :: Leftover(mine, i, accepted, k)
  }

  /** After revoking the first `i` edges of `mine`. */
  ghost predicate Pending(
    root: Node, context: string, cache: OrderedMap<Attestation>, mine: seq<Attestation>, i: nat,
    accepted: nat -> bool) {
    && DistinctKeys(mine) && (forall a | a in mine :: Canonical(a) && a.truster == root)
    && Untouched(cache, mine, i, accepted) && Remaining(root, context, cache, mine, i, accepted)
  }

  lemma DistinctKeysGrow(atts: seq<Attestation>, a: Attestation)
    requires DistinctKeys(atts) && forall b | b in atts :: Key(b) != Key(a)
    ensures DistinctKeys(atts + [a])
  {
  }

  lemma {:induction false} MineDistinct(keep: Attestation -> bool, values: seq<Attestation>)
    requires DistinctKeys(values)
    ensures DistinctKeys(Filter(keep, values))
  {
    if values != [] {
      var rest, a := values[..|values| - 1], values[|values| - 1];
      assert DistinctKeys(rest);
      MineDistinct(keep, rest);
      forall b | b in Filter(keep, rest)
        ensures Key(b) != Key(a)
      {
        var j :| 0 <= j < |rest| && rest[j] == b;
        assert values[j] == b;
      }
      DistinctKeysGrow(Filter(keep, rest), a);
    }
  }

  /** The values of a keyed map: each under its own key. */
  lemma ValuesKeyed(cache: OrderedMap<Attestation>, a: Attestation)
    requires KeyedBy(cache)
    ensures a in cache.Values() <==> Key(a) in cache.at && cache.at[Key(a)] == a
  {
  }

  lemma NothingRevokedYet(root: Node, context: string, cache: OrderedMap<Attestation>, accepted: nat -> bool)
    requires KeyedBy(cache) && Tidy(root, cache)
    ensures Pending(root, context, cache, Mine(root, context, cache.Values()), 0, accepted)
  {
    var values := cache.Values();
    var mine := Mine(root, context, values);
    ValuesReplay(cache);
    forall i, j | 0 <= i < j < |values|
      ensures Key(values[i]) != Key(values[j])
    {
      assert cache.keys[i] in cache.keys && cache.keys[j] in cache.keys;
    }
    MineDistinct(OursIn(root, context), values);
    forall a | a in mine
      ensures Canonical(a) && a.truster == root && Key(a) in cache.at && cache.at[Key(a)] == a
    {
      ValuesKeyed(cache, a);
    }
    forall j | 0 <= j < |mine|
      ensures Holds(cache, Key(mine[j]), mine[j])
    {
      assert mine[j] in mine;
    }
    forall k | k in cache.at && Ours(root, context, cache.at[k])
      ensures Leftover(mine, 0, accepted, k)
    {
      var a := cache.at[k];
      ValuesKeyed(cache, a);
      assert a in mine;
      var j :| 0 <= j < |mine| && mine[j] == a;
      assert Key(mine[j]) == k;
    }
  }

  lemma OneMoreRevoked(
    root: Node, context: string, cache: OrderedMap<Attestation>, mine: seq<Attestation>, i: nat, accepted: nat -> bool,
    a: Attestation)
    requires i < |mine| && Pending(root, context, cache, mine, i, accepted)
    requires Key(a) == Key(mine[i]) && a.weight == 0.0
    ensures Pending(root, context, if accepted(i) then cache.Set(Key(a), a) else cache, mine, i + 1, accepted)
  {
    var k, next := Key(a), if accepted(i) then cache.Set(Key(a), a) else cache;
    forall j | 0 <= j < |mine| && (j < i + 1 ==> !accepted(j))
      ensures Holds(next, Key(mine[j]), mine[j])
    {
      assert Holds(cache, Key(mine[j]), mine[j]);
      assert j < i ==> Key(mine[j]) != Key(mine[i]);
      assert j > i ==> Key(mine[i]) != Key(mine[j]);
    }
    forall m | m in next.at && Ours(root, context, next.at[m])
      ensures Leftover(mine, i + 1, accepted, m)
    {
      assert m in cache.at && cache.at[m] == next.at[m];
      var j :| 0 <= j < |mine| && Key(mine[j]) == m && (j < i ==> !accepted(j));
      assert j == i ==> !accepted(j);
    }
  }

  /** On an orderly cache the next revocation hits the address of the edge it is for, and is newer. */
  lemma RevokesSameEdge(
    root: Node, context: string, cache: OrderedMap<Attestation>, mine: seq<Attestation>, i: nat, accepted: nat -> bool,
    at: int)
    requires i < |mine| && Pending(root, context, cache, mine, i, accepted) && at > mine[i].createdAt
    ensures var a := mine[i];
            var revoked := Built(root, Revocation(a), at);
            && Key(revoked) == Key(a) && a.trustee != "" && Newer(cache, revoked)
            && Pending(root, context, if accepted(i) then cache.Set(Key(revoked), revoked)
              else cache, mine, i + 1, accepted)
  {
    var a := mine[i];
    assert a in mine;
    var revoked := Built(root, Revocation(a), at);
    assert revoked.d == a.d;
    OneMoreRevoked(root, context, cache, mine, i, accepted, revoked);
  }

  ghost predicate FailuresLeft(
    root: Node, context: string, cache: OrderedMap<Attestation>, mine: seq<Attestation>, accepted: nat -> bool)
    requires cache.Good()
  {
    forall a :: a in cache.Values() && Ours(root, context, a)
      <==> exists j :: 0 <= j < |mine| && mine[j] == a && !accepted(j)
  }

  /** What is left of ours is exactly what was tried in vain. */
  lemma OnlyUnacceptedLeft(
    root: Node, context: string, cache: OrderedMap<Attestation>, mine: seq<Attestation>, accepted: nat -> bool)
    requires KeyedBy(cache) && Pending(root, context, cache, mine, |mine|, accepted)
      && forall a | a in mine :: Ours(root, context, a)
    ensures FailuresLeft(root, context, cache, mine, accepted)
  {
    forall a
      ensures a in cache.Values() && Ours(root, context, a)
        <==> exists j :: 0 <= j < |mine| && mine[j] == a && !accepted(j)
    {
      ValuesKeyed(cache, a);
      if a in cache.Values() && Ours(root, context, a) {
        assert Leftover(mine, |mine|, accepted, Key(a));
        var j :| 0 <= j < |mine| && Key(mine[j]) == Key(a) && !accepted(j);
        assert Holds(cache, Key(mine[j]), mine[j]);
      }
      if j :| 0 <= j < |mine| && mine[j] == a && !accepted(j) {
        assert Holds(cache, Key(mine[j]), mine[j]) && mine[j] in mine;
      }
    }
  }

  lemma RevocationIsZero(p: Request)
    requires p.weight == 0.0
    ensures Rounded(p.weight) == 0 && !Refused(p) && Recoverable(p)
  {
  }

  lemma RevocationNoted(
    signer: string, p: Request, createdAt: int, cache0: OrderedMap<Attestation>, log0: seq<Attestation>,
    cache: OrderedMap<Attestation>, log: seq<Attestation>)
    requires p.weight == 0.0 && p.trustee != ""
      && Noted(signer, [Attempt(p, createdAt, true)], cache0, log0, cache, log)
    ensures var k := Address(signer, p);
            k in cache.at && cache.at[k].weight == 0.0 && cache == cache0.Set(k, cache.at[k])
              && log == log0 + [cache.at[k]]
  {
    RevocationIsZero(p);
    NotedOne(signer, Attempt(p, createdAt, true), cache0, log0);
    assert Key(Built(signer, p, createdAt)) == Address(signer, p);
  }

  /** The edges published so far, none of them refused, each no earlier than its place in the batch allows. */
  ghost predicate PublishedInOrder(
    num: Numerals, signer: string, edges: seq<Request>, results: seq<(Event, bool)>, base: int, accepted: nat -> bool)
  {
    && |results| <= |edges|
    && forall i | 0 <= i < |results| ::
         !Refused(edges[i]) && Reports(num, signer, edges[i], results[i], base + i, accepted(i))
  }

  lemma PublishedOneMore(
    num: Numerals, signer: string, edges: seq<Request>, results: seq<(Event, bool)>, base: int, accepted: nat -> bool,
    result: (Event, bool))
    requires PublishedInOrder(num, signer, edges, results, base, accepted) && |results| < |edges|
    requires !Refused(edges[|results|])
      && Reports(num, signer, edges[|results|], result, base + |results|, accepted(|results|))
    ensures PublishedInOrder(num, signer, edges, results + [result], base, accepted)
  {
  }

  /** The revocations sent so far: each for its edge, stamped after it. */
  ghost predicate RevokedInOrder(
    num: Numerals, signer: string, mine: seq<Attestation>, results: seq<(Event, bool)>, base: int,
    accepted: nat -> bool)
  {
    && |results| <= |mine|
    && forall i | 0 <= i < |results| ::
         Reports(num, signer, Revocation(mine[i]), results[i], base + i, accepted(i))
           && results[i].0.createdAt > mine[i].createdAt
  }

  lemma RevokedOneMore(
    num: Numerals, signer: string, mine: seq<Attestation>, results: seq<(Event, bool)>, base: int,
    accepted: nat -> bool, result: (Event, bool))
    requires RevokedInOrder(num, signer, mine, results, base, accepted) && |results| < |mine|
    requires Reports(num, signer, Revocation(mine[|results|]), result, base + |results|, accepted(|results|))
    requires result.0.createdAt > mine[|results|].createdAt
    ensures RevokedInOrder(num, signer, mine, results + [result], base, accepted)
  {
  }

  class TrustGraph {
    const root: Node
    const settings: Settings
    const num: Numerals
    var cache: OrderedMap<Attestation>
    var adjacency: Adjacency
    /** What the cache started from and every attestation it was given since. */
    ghost var log: seq<Attestation>

    ghost predicate Valid()
      reads this
    {
      Faithful(num) && KeyedBy(cache) && TrustPath.PositiveWeights(adjacency)
    }

    /** Takes up the attestations an earlier session stored. */
    constructor (root: Node, settings: Settings, num: Numerals, stored: seq<Attestation>)
      requires Faithful(num)
      ensures Valid() && this.root == root && this.settings == settings && this.num == num
      ensures cache == Written(stored) && log == cache.Values() && Replays(cache, log)
    {
      this.root, this.settings, this.num := root, settings, num;
      adjacency := map[];
      var loaded := Load(stored);
      cache, log := loaded, loaded.Values();
      ValuesReplay(loaded);
    }

    method ApplyEvent(event: Event)
      requires Valid()
      modifies this`cache, this`log
      ensures Valid()
      ensures Parsed(num, event).None? ==> cache == old(cache) && log == old(log)
      ensures Parsed(num, event).Some? ==>
        var a := Parsed(num, event).value;
        && cache == old(cache).Set(Key(a), a) && log == old(log) + [a]
        && (old(cache) == LatestOf(old(log)) ==>
              (cache == LatestOf(log) <==> Newer(old(cache), a) || a == old(cache).at[Key(a)]))
    {
      var att := ParseAttestation(num, event);
      if att.Some? {
        if cache == LatestOf(log) {
          OverwriteAgrees(cache, log, att.value);
        }
        cache := cache.Set(Key(att.value), att.value);
        log := log + [att.value];
      }
    }

    function NextCreatedAt(d: string, now: int): (at: int)
      reads this
      ensures at >= now
      ensures root + "\n" + d in cache.at ==> at > cache.at[root + "\n" + d].createdAt
    {
      var key := root + "\n" + d;
      var next := (if key in cache.at then cache.at[key].createdAt else 0) + 1;
      if now > next then now else next
    }

    /** Builds one event, and notes it once a relay has accepted it. */
    method Author(signer: string, p: Request, createdAt: int, accepted: bool) returns (event: Result<Event, string>)
      requires Valid()
      modifies this`cache, this`log
      ensures Valid()
      ensures event == BuildAttestation(num, signer, p, createdAt)
      ensures Noted(signer, [Attempt(p, createdAt, accepted)], old(cache), old(log), cache, log)
      ensures old(Replays(cache, log)) && Newer(old(cache), Built(signer, p, createdAt)) ==> Replays(cache, log)
      ensures old(Tidy(root, cache)) && Recoverable(p) ==> Tidy(root, cache)
    {
      event := BuildAttestation(num, signer, p, createdAt);
      NotedOne(signer, Attempt(p, createdAt, accepted), cache, log);
      if event.Ok? {
        ParseUndoesBuild(num, signer, p, createdAt);
        if accepted {
          BuiltIsTidy(root, cache, signer, p, createdAt);
          if Replays(cache, log) && Newer(cache, Built(signer, p, createdAt)) {
            NewerReplays(cache, log, Built(signer, p, createdAt));
          }
          ApplyEvent(event.value);
        }
      }
    }

    method Recompute(now: real)
      requires Valid()
      modifies this`adjacency
      ensures Valid()
      ensures adjacency == Filtered(AdjacencyOf(cache.Values(), false, now), settings)
      ensures Replays(cache, log) ==> adjacency == Filtered(AdjacencyOf(log, false, now), settings)
    {
      var graph := AdjacencyFromAttestations(cache.Values(), false, now);
      FilteredStaysPositive(graph, settings);
      adjacency := Filtered(graph, settings);
      if Replays(cache, log) {
        CacheAdjacency(cache, log, now);
      }
    }

    /** Why an identity is trusted: the strongest path on the current adjacency. */
    method FindTrustPath(identity: Node) returns (answer: TrustPath.Answer)
      requires Valid()
      ensures answer.Found? <==> TrustPath.Reachable(adjacency, root, identity)
      ensures answer.Found? ==>
        && TrustPath.IsPath(adjacency, root, identity, answer.edges)
          && answer.score == TrustPath.Score(adjacency, answer.edges)
        && forall path | TrustPath.IsPath(adjacency, root, identity, path) ::
          TrustPath.Score(adjacency, path) <= answer.score
    {
      answer := TrustPath.StrongestPath(adjacency, root, identity);
    }

    /** Publishes (or updates) one edge. Refused or unaccepted edges change nothing; an accepted one is noted, stamped
        after the revision it replaces. */
    method PublishAttestation(
      signer: string, p: Request, now: int, accepted: bool, later: real) returns (event: Result<Event, string>)
      requires Valid()
      modifies this
      ensures Valid()
      ensures event.Ok? <==> accepted && !Refused(p)
      ensures event.Ok? ==> Reports(num, signer, p, (event.value, true), now, true)
      ensures event.Ok? && signer == root ==> Newer(old(cache), Built(signer, p, event.value.createdAt))
      ensures Noted(signer, AttemptOf(p, event), old(cache), old(log), cache, log)
      ensures signer == root && old(Replays(cache, log)) ==> Replays(cache, log)
      ensures old(Tidy(root, cache)) && Recoverable(p) ==> Tidy(root, cache)
      ensures if event.Ok? then adjacency == Filtered(AdjacencyOf(cache.Values(), false, later), settings)
        else adjacency == old(adjacency)
    {
      var at := NextCreatedAt(DTag(p.trustee, ContextIn(p)), now);
      if signer == root {
        assert Key(Built(signer, p, at)) == root + "\n" + DTag(p.trustee, ContextIn(p));
        assert Newer(cache, Built(signer, p, at));
      }
      NotedOne(signer, Attempt(p, at, accepted), cache, log);
      event := Author(signer, p, at, accepted);
      if event.Err? {
        return;
      }
      if !accepted {
        return Err("no relay accepted the attestation");
      }
      Recompute(later);
    }

    /** Publishes weight zero for one edge: afterwards no adjacency has it, whatever its former weight. */
    method RevokeAttestation(
      signer: string, trustee: string, hint: Option<string>, context: Option<string>, now: int, accepted: bool,
      later: real)
      returns (event: Result<Event, string>)
      requires Valid()
      modifies this
      ensures Valid()
      ensures event.Ok? <==> accepted
      ensures event.Ok? ==> Reports(num, signer, RevokeRequest(trustee, hint, context), (event.value, true), now, true)
      ensures event.Ok? && signer == root
        ==> Newer(old(cache), Built(signer, RevokeRequest(trustee, hint, context), event.value.createdAt))
      ensures Noted(signer, AttemptOf(RevokeRequest(trustee, hint, context), event), old(cache), old(log), cache, log)
      ensures event.Ok? && trustee != "" ==>
        var k := signer + "\n" + DTag(trustee, context.GetOr(Market));
        k in cache.at && cache.at[k].weight == 0.0 && cache == old(cache).Set(k, cache.at[k])
          && log == old(log) + [cache.at[k]]
      ensures signer == root && old(Replays(cache, log)) ==> Replays(cache, log)
      ensures old(Tidy(root, cache)) ==> Tidy(root, cache)
      ensures if event.Ok? then adjacency == Filtered(AdjacencyOf(cache.Values(), false, later), settings)
        else adjacency == old(adjacency)
    {
      var p := RevokeRequest(trustee, hint, context);
      RevocationIsZero(p);
      event := PublishAttestation(signer, p, now, accepted, later);
      if event.Ok? && trustee != "" {
        RevocationNoted(signer, p, event.value.createdAt, old(cache), old(log), cache, log);
      }
    }

    /** One edge of a batch: stamped after the batch's own clock and after the revision it replaces. */
    method PublishNext(
      signer: string, e: Request, floor: int, now: int, accepted: bool) returns (event: Result<Event, string>)
      requires Valid()
      modifies this`cache, this`log
      ensures Valid()
      ensures event.Err? <==> Refused(e)
      ensures event.Err? ==> cache == old(cache) && log == old(log)
      ensures event.Ok? ==>
        && Reports(num, signer, e, (event.value, accepted), floor, accepted)
        && Noted(signer, [Attempt(e, event.value.createdAt, accepted)], old(cache), old(log), cache, log)
      ensures signer == root && old(Replays(cache, log)) ==> Replays(cache, log)
      ensures old(Tidy(root, cache)) && Recoverable(e) ==> Tidy(root, cache)
    {
      var next := NextCreatedAt(DTag(e.trustee, ContextIn(e)), now);
      var at := if floor > next then floor else next;
      if signer == root {
        assert Key(Built(signer, e, at)) == root + "\n" + DTag(e.trustee, ContextIn(e));
      }
      NotedOne(signer, Attempt(e, at, accepted), cache, log);
      event := Author(signer, e, at, accepted);
    }

    /** Publishes the edge after those already published. */
    method PublishOneMore(
      signer: string, edges: seq<Request>, results: seq<(Event, bool)>, floor: int, now: int, accepted: bool,
      ghost cache0: OrderedMap<Attestation>, ghost log0: seq<Attestation>) returns (result: Option<(Event, bool)>)
      requires Valid() && |results| < |edges| && Noted(signer, AttemptsOf(edges, results), cache0, log0, cache, log)
      modifies this`cache, this`log
      ensures Valid()
      ensures result.None? <==> Refused(edges[|results|])
      ensures result.None? ==> cache == old(cache) && log == old(log)
      ensures result.Some? ==>
        && Reports(num, signer, edges[|results|], result.value, floor, accepted)
        && Noted(signer, AttemptsOf(edges, results + [result.value]), cache0, log0, cache, log)
      ensures signer == root && old(Replays(cache, log)) ==> Replays(cache, log)
      ensures old(Tidy(root, cache)) && Recoverable(edges[|results|]) ==> Tidy(root, cache)
    {
      var event := PublishNext(signer, edges[|results|], floor, now, accepted);
      if event.Err? {
        return None;
      }
      NotedMore(signer, edges, results, (event.value, accepted), cache0, log0, old(cache), old(log), cache, log);
      return Some((event.value, accepted));
    }

    /** Publishes edges one after another, and notes the accepted ones; a refused edge aborts the rest and the
        recomputation. */
    method PublishAll(signer: string, edges: seq<Request>, clock: nat -> int, accepted: nat -> bool, later: real)
      returns (results: seq<(Event, bool)>, aborted: bool)
      requires Valid()
      modifies this
      ensures Valid()
      ensures |results| <= |edges| && (aborted <==> |results| < |edges|)
      ensures aborted ==> Refused(edges[|results|])
      ensures PublishedInOrder(num, signer, edges, results, clock(0), accepted)
      ensures Noted(signer, AttemptsOf(edges, results), old(cache), old(log), cache, log)
      ensures signer == root && old(Replays(cache, log)) ==> Replays(cache, log)
      ensures old(Tidy(root, cache)) && (forall e | e in edges :: Recoverable(e)) ==> Tidy(root, cache)
      ensures if aborted then adjacency == old(adjacency)
        else adjacency == Filtered(AdjacencyOf(cache.Values(), false, later), settings)
    {
      results, aborted := [], false;
      var base := clock(0);
      NotedNothing(signer, edges, cache, log);
      for i := 0 to |edges|
        invariant Valid() && |results| == i
        invariant PublishedInOrder(num, signer, edges, results, base, accepted)
        invariant Noted(signer, AttemptsOf(edges, results), old(cache), old(log), cache, log)
        invariant signer == root && old(Replays(cache, log)) ==> Replays(cache, log)
        invariant old(Tidy(root, cache)) && (forall e | e in edges :: Recoverable(e)) ==> Tidy(root, cache)
        invariant adjacency == old(adjacency)
      {
        var next := PublishOneMore(signer, edges, results, base + i, clock(i + 1), accepted(i), old(cache), old(log));
        if next.None? {
          aborted := true;
          return;
        }
        PublishedOneMore(num, signer, edges, results, base, accepted, next.value);
        results := results + [next.value];
      }
      Recompute(later);
    }

    /** One revocation of a batch, stamped after the batch's own clock and after the revision it replaces. */
    method RevokeNext(
      signer: string, a: Attestation, floor: int, accepted: bool,
      ghost context: string, ghost mine: seq<Attestation>, ghost i: nat,
      ghost verdicts: nat -> bool) returns (event: Event)
      requires Valid() && i < |mine| && mine[i] == a && verdicts(i) == accepted
      modifies this`cache, this`log
      ensures Valid()
      ensures Reports(num, signer, Revocation(a), (event, accepted), floor, accepted) && event.createdAt > a.createdAt
      ensures Noted(signer, [Attempt(Revocation(a), event.createdAt, accepted)], old(cache), old(log), cache, log)
      ensures signer == root && old(Pending(root, context, cache, mine, i, verdicts)) ==>
        && Pending(root, context, cache, mine, i + 1, verdicts)
        && (old(Replays(cache, log)) ==> Replays(cache, log))
      ensures old(Tidy(root, cache)) ==> Tidy(root, cache)
    {
      var request := RevokeRequest(a.trustee, None, ContextOf(a.d));
      var at := if floor > a.createdAt + 1 then floor else a.createdAt + 1;
      ghost var revoked, before := Built(signer, request, at), cache;
      ghost var orderly := signer == root && Pending(root, context, cache, mine, i, verdicts);
      if orderly {
        RevokesSameEdge(root, context, cache, mine, i, verdicts, at);
      }
      NotedOne(signer, Attempt(request, at, accepted), cache, log);
      var built := Author(signer, request, at, accepted);
      event := built.value;
      assert orderly ==> cache == if accepted then before.Set(Key(revoked), revoked) else before;
    }

    /** Revokes the edge after those already revoked. */
    method RevokeOneMore(
      signer: string, mine: seq<Attestation>, results: seq<(Event, bool)>, floor: int, accepted: bool,
      ghost context: string,
      ghost verdicts: nat -> bool, ghost cache0: OrderedMap<Attestation>,
      ghost log0: seq<Attestation>) returns (result: (Event, bool))
      requires Valid() && |results| < |mine| && verdicts(|results|) == accepted
      requires Noted(signer, AttemptsOf(Revocations(mine), results), cache0, log0, cache, log)
      modifies this`cache, this`log
      ensures Valid()
      ensures Reports(num, signer, Revocation(mine[|results|]), result, floor, accepted)
        && result.0.createdAt > mine[|results|].createdAt
      ensures Noted(signer, AttemptsOf(Revocations(mine), results + [result]), cache0, log0, cache, log)
      ensures signer == root && old(Pending(root, context, cache, mine, |results|, verdicts)) ==>
        && Pending(root, context, cache, mine, |results| + 1, verdicts)
        && (old(Replays(cache, log)) ==> Replays(cache, log))
      ensures old(Tidy(root, cache)) ==> Tidy(root, cache)
    {
      var event := RevokeNext(signer, mine[|results|], floor, accepted, context, mine, |results|, verdicts);
      result := (event, accepted);
      NotedMore(signer, Revocations(mine), results, result, cache0, log0, old(cache), old(log), cache, log);
    }

    /** Revokes the root's published edges (of one context, if given) that the cache held when called. Over the root's
        own key and ordinary addresses exactly those are left whose revocation no relay accepted. */
    method RevokeAll(
      signer: string, context: string, base: int, accepted: nat -> bool,
      later: real) returns (results: seq<(Event, bool)>)
      requires Valid()
      modifies this
      ensures Valid()
      ensures var mine := Mine(root, context, old(cache).Values());
              && |results| == |mine|
              && RevokedInOrder(num, signer, mine, results, base, accepted)
              && Noted(signer, AttemptsOf(Revocations(mine), results), old(cache), old(log), cache, log)
              && (signer == root && old(Tidy(root, cache)) ==>
                    FailuresLeft(root, context, cache, mine, accepted))
      ensures signer == root && old(Replays(cache, log)) && old(Tidy(root, cache)) ==> Replays(cache, log)
      ensures old(Tidy(root, cache)) ==> Tidy(root, cache)
      ensures adjacency == Filtered(AdjacencyOf(cache.Values(), false, later), settings)
    {
      var mine := Mine(root, context, cache.Values());
      ghost var orderly := signer == root && Tidy(root, cache);
      if orderly {
        NothingRevokedYet(root, context, cache, accepted);
      }
      results := RevokeEach(signer, context, mine, base, accepted);
      if orderly {
        OnlyUnacceptedLeft(root, context, cache, mine, accepted);
      }
      Recompute(later);
    }

    method RevokeEach(signer: string, ghost context: string, mine: seq<Attestation>, base: int, accepted: nat -> bool)
      returns (results: seq<(Event, bool)>)
      requires Valid()
      modifies this`cache, this`log
      ensures Valid() && |results| == |mine| && RevokedInOrder(num, signer, mine, results, base, accepted)
      ensures Noted(signer, AttemptsOf(Revocations(mine), results), old(cache), old(log), cache, log)
      ensures signer == root && old(Pending(root, context, cache, mine, 0, accepted)) ==>
        Pending(root, context, cache, mine, |mine|, accepted) && (old(Replays(cache, log)) ==> Replays(cache, log))
      ensures old(Tidy(root, cache)) ==> Tidy(root, cache)
    {
      results := [];
      NotedNothing(signer, Revocations(mine), cache, log);
      ghost var orderly, replayed, tidy :=
        signer == root && Pending(root, context, cache, mine, 0, accepted), Replays(cache, log), Tidy(root, cache);
      for i := 0 to |mine|
        invariant Valid() && |results| == i && RevokedInOrder(num, signer, mine, results, base, accepted)
        invariant Noted(signer, AttemptsOf(Revocations(mine), results), old(cache), old(log), cache, log)
        invariant orderly ==> Pending(root, context, cache, mine, i, accepted) && (replayed ==> Replays(cache, log))
        invariant tidy ==> Tidy(root, cache)
      {
        var result := RevokeOneMore(signer, mine, results, base + i, accepted(i), context, accepted, old(cache),
          old(log));
        RevokedOneMore(num, signer, mine, results, base, accepted, result);
        results := results + [result];
      }
    }
  }
}
