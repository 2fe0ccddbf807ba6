/** Runs of publications and revocations, and the edges they leave. */
module AuthoringRuns {
  import opened Wrappers
  import opened Graph
  import opened OrderedMaps
  import opened Sequences
  import opened Attestations
  import opened Attest
  import opened Authoring
  import opened TrustGraphs

  /** A call, with the clock it sees, the relays' verdicts, and the moment of the recomputation that ends it. */
  datatype Op =
    | Publish(p: Request, now: int, accepted: bool, later: real)
    | Revoke(trustee: string, hint: Option<string>, context: Option<string>, now: int, accepted: bool, later: real)
    | PublishMany(edges: seq<Request>, clock: nat -> int, verdicts: nat -> bool, later: real)
    | RevokeEvery(only: string, base: int, verdicts: nat -> bool, later: real)

  /** The contexts of live edges can be read back, which only revoking everything relies on. */
  ghost predicate RecoverableOp(op: Op) {
    match op
    case Publish(p, _, _, _) => Recoverable(p)
    case Revoke(_, _, _, _, _, _) => true
    case PublishMany(edges, _, _, _) => forall e | e in edges :: Recoverable(e)
    case RevokeEvery(_, _, _, _) => true
  }

  /** One publication counts when it is accepted and not refused. */
  predicate IsOutcome(p: Request, now: int, accepted: bool, done: seq<Attempt>) {
    if accepted && !Refused(p) then |done| == 1 && done[0].request == p && done[0].accepted && done[0].createdAt >= now
    else done == []
  }

  /** What a call attempts: its own edge, its edges up to the first refused one, or every edge of ours the cache held.
      */
  ghost predicate Performs(root: Node, op: Op, before: OrderedMap<Attestation>, done: seq<Attempt>)
    requires before.Good()
  {
    match op
    case Publish(p, now, accepted, _) => IsOutcome(p, now, accepted, done)
    case Revoke(trustee, hint, context, now, accepted, _) =>
      IsOutcome(RevokeRequest(trustee, hint, context), now, accepted, done)
    case PublishMany(edges, clock, verdicts, _) =>
      && |done| <= |edges| && (|done| < |edges| ==> Refused(edges[|done|]))
      && forall i | 0 <= i < |done| ::
           !Refused(edges[i]) && done[i].request == edges[i] && done[i].accepted == verdicts(i)
             && done[i].createdAt >= clock(0) + i
    case RevokeEvery(only, base, verdicts, _) =>
      var mine := Mine(root, only, before.Values());
      && |done| == |mine|
      && forall i | 0 <= i < |done| ::
           && done[i].request == Revocation(mine[i]) && done[i].accepted == verdicts(i)
           && done[i].createdAt >= base + i && done[i].createdAt > mine[i].createdAt
  }

  /** The calls that end without a recomputation. */
  predicate EndsEarly(op: Op, done: seq<Attempt>) {
    match op
    case Publish(_, _, _, _) => done == []
    case Revoke(_, _, _, _, _, _) => done == []
    case PublishMany(edges, _, _, _) => |done| < |edges|
    case RevokeEvery(_, _, _, _) => false
  }

  ghost predicate Ready(graph: TrustGraph)
    reads graph
  {
    graph.Valid() && Replays(graph.cache, graph.log)
  }

  /** One call by the root: what it attempts is noted, in cache and log alike, and the adjacency is that of the whole
      log. */
  method Perform(graph: TrustGraph, op: Op) returns (done: seq<Attempt>)
    requires Ready(graph) && (op.RevokeEvery? ==> Tidy(graph.root, graph.cache))
    modifies graph
    ensures Ready(graph) && Performs(graph.root, op, old(graph.cache), done)
    ensures old(Tidy(graph.root, graph.cache)) && RecoverableOp(op) ==> Tidy(graph.root, graph.cache)
    ensures Noted(graph.root, done, old(graph.cache), old(graph.log), graph.cache, graph.log)
    ensures graph.adjacency
         == if EndsEarly(op, done) then old(graph.adjacency)
           else Filtered(AdjacencyOf(graph.log, false, op.later), graph.settings)
  {
    match op {
      case Publish(p, now, accepted, later) =>
        var event := graph.PublishAttestation(graph.root, p, now, accepted, later);
        done := AttemptOf(p, event);
      case Revoke(trustee, hint, context, now, accepted, later) =>
        var event := graph.RevokeAttestation(graph.root, trustee, hint, context, now, accepted, later);
        RevocationIsZero(RevokeRequest(trustee, hint, context));
        done := AttemptOf(RevokeRequest(trustee, hint, context), event);
      case PublishMany(edges, clock, verdicts, later) =>
        done := PerformMany(graph, edges, clock, verdicts, later);
      case RevokeEvery(only, base, verdicts, later) =>
        done := PerformRevokeEvery(graph, only, base, verdicts, later);
    }
    CacheAdjacency(graph.cache, graph.log, op.later);
  }

  method PerformMany(
    graph: TrustGraph, edges: seq<Request>, clock: nat -> int, verdicts: nat -> bool,
    later: real) returns (done: seq<Attempt>)
    requires Ready(graph)
    modifies graph
    ensures old(Tidy(graph.root, graph.cache)) && (forall e | e in edges :: Recoverable(e))
      ==> Tidy(graph.root, graph.cache)
    ensures Ready(graph) && Performs(graph.root, PublishMany(edges, clock, verdicts, later), old(graph.cache), done)
    ensures Noted(graph.root, done, old(graph.cache), old(graph.log), graph.cache, graph.log)
    ensures graph.adjacency
         == if |done| < |edges| then old(graph.adjacency)
           else Filtered(AdjacencyOf(graph.cache.Values(), false, later), graph.settings)
  {
    var results, aborted := graph.PublishAll(graph.root, edges, clock, verdicts, later);
    done := AttemptsOf(edges, results);
  }

  method PerformRevokeEvery(
    graph: TrustGraph, only: string, base: int, verdicts: nat -> bool, later: real) returns (done: seq<Attempt>)
    requires Ready(graph) && Tidy(graph.root, graph.cache)
    modifies graph
    ensures Ready(graph) && Tidy(graph.root, graph.cache)
      && Performs(graph.root, RevokeEvery(only, base, verdicts, later), old(graph.cache), done)
    ensures Noted(graph.root, done, old(graph.cache), old(graph.log), graph.cache, graph.log)
    ensures graph.adjacency == Filtered(AdjacencyOf(graph.cache.Values(), false, later), graph.settings)
  {
    var mine := Mine(graph.root, only, graph.cache.Values());
    var results := graph.RevokeAll(graph.root, only, base, verdicts, later);
    done := AttemptsOf(Revocations(mine), results);
  }

  // --- the edges left ---

  predicate LiveAttempt(t: Attempt, now: real) {
    Rounded(t.request.weight) > 0
    && match ExpiresAt(t.request, t.createdAt)
       case Some(at) => at > 0 ==> at as real > now
       case None => true
  }

  lemma BuiltIsLive(signer: string, t: Attempt, now: real)
    ensures Live(Built(signer, t.request, t.createdAt), now) <==> LiveAttempt(t, now)
    ensures EdgeOf(Built(signer, t.request, t.createdAt)) == Edge(t.request.trustee, Rounded(t.request.weight) as real)
  {
  }

  ghost predicate Standing(cache: OrderedMap<Attestation>, k: string, now: real) {
    k in cache.at && Live(cache.at[k], now)
  }

  ghost predicate StandsFor(cache: OrderedMap<Attestation>, k: string, now: real, u: Node, e: Edge) {
    Standing(cache, k, now) && cache.at[k].truster == u && EdgeOf(cache.at[k]) == e
  }

  /** An edge is in the adjacency exactly when some address of the cache stands for it. */
  lemma CacheEdges(cache: OrderedMap<Attestation>, log: seq<Attestation>, now: real, u: Node, e: Edge)
    requires Replays(cache, log)
    ensures e in EdgesOf(AdjacencyOf(log, false, now), u) <==> exists k :: StandsFor(cache, k, now, u, e)
  {
    AllAccepted(log);
    var values := cache.Values();
    GraphEdges(values, u, now);
    EdgesInMembers(values, u, now, e);
    if m :| 0 <= m < |values| && Live(values[m], now) && values[m].truster == u && EdgeOf(values[m]) == e {
      assert cache.keys[m] in cache.keys;
      assert StandsFor(cache, cache.keys[m], now, u, e);
    }
    if k :| StandsFor(cache, k, now, u, e) {
      assert k in cache.keys;
      var m :| 0 <= m < |cache.keys| && cache.keys[m] == k;
      assert values[m] == cache.at[k];
    }
  }

  /** An edge of the run: the last attempt that counts at its address is live. */
  ghost predicate Authored(root: Node, done: seq<Attempt>, now: real, e: Edge, t: Attempt) {
    && t in done && LastAt(root, done, Address(root, t.request)) == Some(t)
    && LiveAttempt(t, now) && e == Edge(t.request.trustee, Rounded(t.request.weight) as real)
  }

  /** An edge from before the run, at an address the run did not touch. */
  ghost predicate Inherited(
    root: Node, before: OrderedMap<Attestation>, done: seq<Attempt>, now: real, e: Edge, k: string) {
    StandsFor(before, k, now, root, e) && LastAt(root, done, k) == None
  }

  ghost predicate Explained(root: Node, before: OrderedMap<Attestation>, done: seq<Attempt>, now: real, e: Edge) {
    (exists t :: Authored(root, done, now, e, t)) || exists k :: Inherited(root, before, done, now, e, k)
  }

  lemma AddressExplained(
    root: Node, before: OrderedMap<Attestation>, done: seq<Attempt>, after: OrderedMap<Attestation>, now: real, e: Edge,
    k: string)
    requires after == WrittenOver(before, AllNotes(root, done))
    ensures StandsFor(after, k, now, root, e)
      <==> Inherited(root, before, done, now, e, k)
           || exists t :: Authored(root, done, now, e, t) && Address(root, t.request) == k
  {
    CacheAfter(root, before, done, k);
    LastAtIsAt(root, done, k);
    if LastAt(root, done, k).Some? {
      var t := LastAt(root, done, k).value;
      BuiltIsLive(root, t, now);
      if StandsFor(after, k, now, root, e) {
        assert Authored(root, done, now, e, t);
      }
    }
    if t :| Authored(root, done, now, e, t) && Address(root, t.request) == k {
      BuiltIsLive(root, t, now);
    }
  }

  /** The root's edges after a run: those whose last accepted attempt is live, and the old ones it did not touch. */
  lemma EdgesExplained(
    root: Node, before: OrderedMap<Attestation>, done: seq<Attempt>, after: OrderedMap<Attestation>,
    log: seq<Attestation>, now: real, e: Edge)
    requires after == WrittenOver(before, AllNotes(root, done)) && Replays(after, log)
    ensures e in EdgesOf(AdjacencyOf(log, false, now), root) <==> Explained(root, before, done, now, e)
  {
    CacheEdges(after, log, now, root, e);
    if k :| StandsFor(after, k, now, root, e) {
      AddressExplained(root, before, done, after, now, e, k);
    }
    if t :| Authored(root, done, now, e, t) {
      AddressExplained(root, before, done, after, now, e, Address(root, t.request));
    }
    if k :| Inherited(root, before, done, now, e, k) {
      AddressExplained(root, before, done, after, now, e, k);
    }
  }

  /** So an edge stands at its address exactly when the last attempt that counts for it is live, or as before if there
      is none. */
  lemma LastAttemptDecides(
    root: Node, before: OrderedMap<Attestation>, done: seq<Attempt>, trustee: string, context: string, now: real)
    requires (PlainTrustees(done) && ':' !in trustee) || (PlainContexts(done) && ':' !in context)
    ensures var k, after := root + "\n" + DTag(trustee, context), WrittenOver(before, AllNotes(root, done));
            Standing(after, k, now)
            <==> match LastFor(done, trustee, context)
                 case Some(t) => LiveAttempt(t, now)
                 case None => Standing(before, k, now)
  {
    var k := root + "\n" + DTag(trustee, context);
    CacheAfter(root, before, done, k);
    LastAtIsLastFor(root, done, trustee, context);
    if LastFor(done, trustee, context).Some? {
      BuiltIsLive(root, LastFor(done, trustee, context).value, now);
    }
  }

  // --- runs ---

  ghost predicate PerformsAll(root: Node, ops: seq<Op>, before: OrderedMap<Attestation>, parts: seq<seq<Attempt>>)
    requires KeyedBy(before)
  {
    && |parts| <= |ops|
    && forall k | 0 <= k < |parts| ::
      Performs(root, ops[k], WrittenOver(before, AllNotes(root, Flat(parts[..k]))), parts[k])
  }

  lemma PerformedOneMore(
    root: Node, ops: seq<Op>, before: OrderedMap<Attestation>, parts: seq<seq<Attempt>>, done: seq<Attempt>)
    requires KeyedBy(before) && PerformsAll(root, ops, before, parts) && |parts| < |ops|
    requires Performs(root, ops[|parts|], WrittenOver(before, AllNotes(root, Flat(parts))), done)
    ensures PerformsAll(root, ops, before, parts + [done])
    ensures Flat(parts + [done]) == Flat(parts) + done
  {
    assert (parts + [done])[..|parts|] == parts;
    forall k | 0 <= k <= |parts|
      ensures Performs(root, ops[k], WrittenOver(before, AllNotes(root, Flat((parts + [done])[..k]))),
        (parts + [done])[k])
    {
      if k < |parts| {
        assert (parts + [done])[..k] == parts[..k];
      }
    }
  }

  /** Revoking everything goes by the contexts read back from addresses. */
  ghost predicate RevokesTidily(root: Node, cache: OrderedMap<Attestation>, ops: seq<Op>) {
    (exists op :: op in ops && op.RevokeEvery?) ==> Tidy(root, cache) && forall op | op in ops :: RecoverableOp(op)
  }

  method RunNext(
    graph: TrustGraph, ops: seq<Op>, parts: seq<seq<Attempt>>, ghost cache0: OrderedMap<Attestation>,
    ghost log0: seq<Attestation>)
    returns (more: seq<seq<Attempt>>)
    requires Ready(graph) && KeyedBy(cache0) && |parts| < |ops| && RevokesTidily(graph.root, graph.cache, ops)
    requires PerformsAll(graph.root, ops, cache0, parts)
    requires Noted(graph.root, Flat(parts), cache0, log0, graph.cache, graph.log)
    modifies graph
    ensures Ready(graph) && |more| == |parts| + 1 && PerformsAll(graph.root, ops, cache0, more)
    ensures RevokesTidily(graph.root, graph.cache, ops)
    ensures Noted(graph.root, Flat(more), cache0, log0, graph.cache, graph.log)
  {
    assert ops[|parts|] in ops;
    var done := Perform(graph, ops[|parts|]);
    PerformedOneMore(graph.root, ops, cache0, parts, done);
    NotedThen(graph.root, Flat(parts), done, cache0, log0, old(graph.cache), old(graph.log), graph.cache, graph.log);
    more := parts + [done];
  }

  /** In every run of publications and revocations by the root the log grows by exactly the accepted events, stays
      increasing along each address, and gives the adjacency of the cache; and the root has exactly the edges whose last
      accepted event is live. */
  method Run(graph: TrustGraph, ops: seq<Op>) returns (parts: seq<seq<Attempt>>)
    requires Ready(graph) && RevokesTidily(graph.root, graph.cache, ops)
    modifies graph
    ensures Ready(graph) && |parts| == |ops| && PerformsAll(graph.root, ops, old(graph.cache), parts)
    ensures Noted(graph.root, Flat(parts), old(graph.cache), old(graph.log), graph.cache, graph.log)
      && Increasing(graph.log)
    ensures forall now :: AdjacencyOf(graph.cache.Values(), false, now) == AdjacencyOf(graph.log, false, now)
    ensures forall now, e ::
              e in EdgesOf(AdjacencyOf(graph.log, false, now), graph.root)
              <==> Explained(graph.root, old(graph.cache), Flat(parts), now, e)
  {
    parts := [];
    for k := 0 to |ops|
      invariant Ready(graph) && |parts| == k && PerformsAll(graph.root, ops, old(graph.cache), parts)
      invariant RevokesTidily(graph.root, graph.cache, ops)
      invariant Noted(graph.root, Flat(parts), old(graph.cache), old(graph.log), graph.cache, graph.log)
    {
      parts := RunNext(graph, ops, parts, old(graph.cache), old(graph.log));
    }
    forall now
      ensures AdjacencyOf(graph.cache.Values(), false, now) == AdjacencyOf(graph.log, false, now)
    {
      CacheAdjacency(graph.cache, graph.log, now);
    }
    forall now, e
      ensures e in EdgesOf(AdjacencyOf(graph.log, false, now), graph.root)
        <==> Explained(graph.root, old(graph.cache), Flat(parts), now, e)
    {
      EdgesExplained(graph.root, old(graph.cache), Flat(parts), graph.cache, graph.log, now, e);
    }
  }
}
