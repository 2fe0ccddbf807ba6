/** Attestation events, and the adjacency built from a log of them. */
module Attestations {
  import opened Wrappers
  import opened Graph
  import opened OrderedMaps
  import opened Revisions
  import TrustPath

  const Kind: nat := 30500

  datatype Event = Event(kind: nat, pubkey: string, createdAt: int, tags: seq<seq<string>>)

  datatype Attestation = Attestation(
    truster: string,
    trustee: string,
    weight: real,
    d: string,
    createdAt: int,
    hint: Option<string>,
    expiresAt: Option<real>,
    isLocal: bool)

  /** Number printing and reading; `read` gives no value for text that is not a finite number. */
  datatype Numerals = Numerals(show: real -> string, read: string -> Option<real>)

  function Printed(num: Numerals, n: int): string {
    num.show(n as real)
  }

  /** Whole numbers are read as they were printed. */
  ghost predicate Faithful(num: Numerals) {
    forall n: int :: Printed(num, n) != "" && num.read(Printed(num, n)) == Some(n as real)
  }

  predicate IsRelayUrl(s: string) {
    "wss://" <= s || "ws://" <= s
  }

  predicate HasHint(a: Attestation) {
    a.hint.Some? && a.hint.value != ""
  }

  // --- reading one event ---

  predicate Valued(tag: seq<string>, name: string) {
    |tag| >= 2 && tag[0] == name && tag[1] != ""
  }

  /** The first tag with this name and a non-empty value. */
  function FirstValued(tags: seq<seq<string>>, name: string): Option<seq<string>> {
    if tags == [] then None
    else if Valued(tags[0], name) then Some(tags[0])
    else FirstValued(tags[1..], name)
  }

  method FindTag(tags: seq<seq<string>>, name: string) returns (found: Option<seq<string>>)
    ensures found == FirstValued(tags, name)
    ensures found.None? <==> forall k | 0 <= k < |tags| :: !Valued(tags[k], name)
    ensures found.Some? ==> exists k | 0 <= k < |tags| && (forall j | 0 <= j < k :: !Valued(tags[j], name)) ::
                              tags[k] == found.value && Valued(tags[k], name)
  {
    for k := 0 to |tags|
      invariant forall j | 0 <= j < k :: !Valued(tags[j], name)
      invariant FirstValued(tags, name) == FirstValued(tags[k..], name)
    {
      if Valued(tags[k], name) {
        return Some(tags[k]);
      }
      assert tags[k..][1..] == tags[k + 1..];
    }
    return None;
  }

  function Clamp(x: real): real {
    if x > 100.0 then 100.0 else if x < 0.0 then 0.0 else x
  }

  function ValueOf(tag: Option<seq<string>>): Option<string> {
    if tag.Some? && |tag.value| >= 2 then Some(tag.value[1]) else None
  }

  function WeightOf(num: Numerals, text: Option<string>): real {
    match text
    case None => 0.0
    case Some(s) => Clamp(num.read(s).GetOr(0.0))
  }

  function ExpiryOf(num: Numerals, text: Option<string>): Option<real> {
    match text
    case None => None
    case Some(s) => if num.read(s).Some? && num.read(s).value > 0.0 then num.read(s) else None
  }

  function HintOf(tag: seq<string>): Option<string> {
    if |tag| >= 3 && tag[2] != "" && IsRelayUrl(tag[2]) then Some(tag[2]) else None
  }

  function Parsed(num: Numerals, event: Event): Option<Attestation> {
    var p, d := FirstValued(event.tags, "p"), ValueOf(FirstValued(event.tags, "d"));
    if event.kind != Kind || ValueOf(p).None? || d.None? then None
    else
      Some(Attestation(
        event.pubkey, ValueOf(p).value, WeightOf(num, ValueOf(FirstValued(event.tags, "w"))), d.value, event.createdAt,
        HintOf(p.value), ExpiryOf(num, ValueOf(FirstValued(event.tags, "expiration"))), false))
  }

  method ParseAttestation(num: Numerals, event: Event) returns (a: Option<Attestation>)
    ensures a == Parsed(num, event)
    ensures a.Some? ==> 0.0 <= a.value.weight <= 100.0 && !a.value.isLocal && a.value.truster == event.pubkey
  {
    if event.kind != Kind {
      return None;
    }
    var p := FindTag(event.tags, "p");
    var d := FindTag(event.tags, "d");
    if p.None? || d.None? {
      return None;
    }
    var w := FindTag(event.tags, "w");
    var e := FindTag(event.tags, "expiration");
    return Some(Attestation(
                  event.pubkey, p.value[1], WeightOf(num, ValueOf(w)), d.value[1], event.createdAt,
                  HintOf(p.value), ExpiryOf(num, ValueOf(e)), false));
  }

  // --- the newest revision of every edge ---

  /** The replaceable address of an edge. */
  function Key(a: Attestation): string {
    a.truster + "\n" + a.d
  }

  function Stamp(a: Attestation): int {
    a.createdAt
  }

  ghost function LatestOf(atts: seq<Attestation>): OrderedMap<Attestation> {
    Latest(Key, Stamp, atts)
  }

  predicate Accepts(requireHint: bool, a: Attestation) {
    !requireHint || HasHint(a)
  }

  ghost function Accepted(atts: seq<Attestation>, requireHint: bool): seq<Attestation> {
    if atts == [] then []
    else Accepted(atts[..|atts| - 1], requireHint) + if Accepts(requireHint, atts[|atts| - 1]) then [atts[|atts| - 1]]
      else []
  }

  predicate Live(a: Attestation, now: real) {
    a.weight > 0.0 && (a.expiresAt.None? || a.expiresAt.value > now)
  }

  function EdgeOf(a: Attestation): Edge {
    Edge(a.trustee, a.weight)
  }

  function Push(graph: Adjacency, u: Node, e: Edge): Adjacency {
    graph[u := (if u in graph then graph[u] else []) + [e]]
  }

  ghost function GraphOf(atts: seq<Attestation>, now: real): Adjacency {
    if atts == [] then map[]
    else
      var graph, a := GraphOf(atts[..|atts| - 1], now), atts[|atts| - 1];
      if Live(a, now) then Push(graph, a.truster, EdgeOf(a)) else graph
  }

  ghost function AdjacencyOf(atts: seq<Attestation>, requireHint: bool, now: real): Adjacency {
    GraphOf(LatestOf(Accepted(atts, requireHint)).Values(), now)
  }

  method AdjacencyFromAttestations(atts: seq<Attestation>, requireHint: bool, now: real) returns (graph: Adjacency)
    ensures graph == AdjacencyOf(atts, requireHint, now)
    ensures TrustPath.PositiveWeights(graph)
  {
    var latest := NewestRevisions(atts, requireHint);
    graph := BuildGraph(latest.Values(), now);
  }

  method NewestRevisions(atts: seq<Attestation>, requireHint: bool) returns (latest: OrderedMap<Attestation>)
    ensures latest == LatestOf(Accepted(atts, requireHint))
  {
    latest := Empty();
    for k := 0 to |atts|
      invariant latest == LatestOf(Accepted(atts[..k], requireHint))
    {
      assert atts[..k + 1] == atts[..k] + [atts[k]];
      var a := atts[k];
      AcceptedGrows(atts[..k], a, requireHint);
      if requireHint && !HasHint(a) {
        continue;
      }
      if Key(a) !in latest.at || a.createdAt > latest.at[Key(a)].createdAt {
        latest := latest.Set(Key(a), a);
      }
    }
    assert atts[..|atts|] == atts;
  }

  method BuildGraph(values: seq<Attestation>, now: real) returns (graph: Adjacency)
    ensures graph == GraphOf(values, now)
    ensures TrustPath.PositiveWeights(graph)
  {
    graph := map[];
    for k := 0 to |values|
      invariant graph == GraphOf(values[..k], now)
      invariant TrustPath.PositiveWeights(graph)
    {
      assert values[..k + 1][..k] == values[..k];
      var a := values[k];
      if a.weight <= 0.0 || (a.expiresAt.Some? && a.expiresAt.value <= now) {
        continue;
      }
      graph := Push(graph, a.truster, EdgeOf(a));
    }
    assert values[..|values|] == values;
  }

  lemma AcceptedGrows(atts: seq<Attestation>, a: Attestation, requireHint: bool)
    ensures Accepted(atts + [a], requireHint) == Accepted(atts, requireHint) + if Accepts(requireHint, a) then [a]
      else []
    ensures Accepts(requireHint, a)
      ==> LatestOf(Accepted(atts + [a], requireHint)) == Supersede(Key, Stamp, LatestOf(Accepted(atts, requireHint)), a)
    ensures !Accepts(requireHint, a) ==> Accepted(atts + [a], requireHint) == Accepted(atts, requireHint)
  {
  }

  // --- what the adjacency says ---

  /** The edges of one truster, in the order their addresses were first seen. */
  ghost function EdgesIn(atts: seq<Attestation>, u: Node, now: real): seq<Edge> {
    if atts == [] then []
    else
      var a := atts[|atts| - 1];
      EdgesIn(atts[..|atts| - 1], u, now) + if Live(a, now) && a.truster == u then [EdgeOf(a)] else []
  }

  lemma {:induction false} GraphEdges(atts: seq<Attestation>, u: Node, now: real)
    ensures u in GraphOf(atts, now) <==> EdgesIn(atts, u, now) != []
    ensures EdgesOf(GraphOf(atts, now), u) == EdgesIn(atts, u, now)
  {
    if atts != [] {
      GraphEdges(atts[..|atts| - 1], u, now);
    }
  }

  lemma {:induction false} EdgesInMembers(atts: seq<Attestation>, u: Node, now: real, e: Edge)
    ensures e in EdgesIn(atts, u, now)
      <==> exists k :: 0 <= k < |atts| && Live(atts[k], now) && atts[k].truster == u && EdgeOf(atts[k]) == e
  {
    if atts != [] {
      var rest, last := atts[..|atts| - 1], atts[|atts| - 1];
      EdgesInMembers(rest, u, now, e);
      if e in EdgesIn(rest, u, now) {
        var k :| 0 <= k < |rest| && Live(rest[k], now) && rest[k].truster == u && EdgeOf(rest[k]) == e;
        assert atts[k] == rest[k];
      }
      if k :| 0 <= k < |atts| && Live(atts[k], now) && atts[k].truster == u && EdgeOf(atts[k]) == e {
        if k < |rest| {
          assert rest[k] == atts[k];
        }
      }
    }
  }

  ghost predicate Stands(atts: seq<Attestation>, requireHint: bool, now: real, k: string) {
    var latest := LatestOf(Accepted(atts, requireHint));
    k in latest.at && Live(latest.at[k], now)
  }

  /** A newer revocation takes its edge down exactly when it is accepted: one without a hint is skipped
      by a caller that requires hints, and the edge stands as before. */
  lemma RevocationTakesEffect(atts: seq<Attestation>, requireHint: bool, now: real, a: Attestation)
    requires a.weight <= 0.0 && forall b | b in atts && Key(b) == Key(a) :: b.createdAt < a.createdAt
    ensures Stands(atts + [a], requireHint, now, Key(a))
      <==> !Accepts(requireHint, a) && Stands(atts, requireHint, now, Key(a))
  {
    AcceptedGrows(atts, a, requireHint);
    AcceptedAreOffered(atts, requireHint);
    LatestIsNewest(Key, Stamp, Accepted(atts, requireHint), Key(a));
  }

  lemma {:induction false} AcceptedAreOffered(atts: seq<Attestation>, requireHint: bool)
    ensures forall a :: a in Accepted(atts, requireHint) <==> a in atts && Accepts(requireHint, a)
  {
    if atts != [] {
      AcceptedAreOffered(atts[..|atts| - 1], requireHint);
      assert atts == atts[..|atts| - 1] + [atts[|atts| - 1]];
    }
  }
}
