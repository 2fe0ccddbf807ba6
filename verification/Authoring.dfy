/** What a sequence of authored events leaves in a cache of last writes. */
module Authoring {
  import opened Wrappers
  import opened OrderedMaps
  import opened Attestations
  import opened Attest

  /** One event built and offered to the relays, and whether one of them accepted it. */
  datatype Attempt = Attempt(request: Request, createdAt: int, accepted: bool)

  predicate Refused(p: Request) {
    Rounded(p.weight) > 0 && !IsRelayUrl(p.hint)
  }

  /** The event exists, was accepted, and is an attestation. */
  predicate Counts(t: Attempt) {
    t.accepted && !Refused(t.request) && t.request.trustee != ""
  }

  /** The attestations noted for some attempts. */
  function AllNotes(signer: string, attempts: seq<Attempt>): seq<Attestation> {
    if attempts == [] then []
    else
      var last := attempts[|attempts| - 1];
      AllNotes(signer, attempts[..|attempts| - 1]) + if Counts(last) then [Built(signer, last.request, last.createdAt)]
        else []
  }

  ghost predicate KeyedBy(cache: OrderedMap<Attestation>) {
    cache.Good() && forall k | k in cache.at :: Key(cache.at[k]) == k
  }

  /** Later entries overwrite earlier ones, whatever their times. */
  ghost function WrittenOver(cache: OrderedMap<Attestation>, atts: seq<Attestation>): (m: OrderedMap<Attestation>)
    ensures KeyedBy(cache) ==> KeyedBy(m)
  {
    if atts == [] then cache
    else
      var a := atts[|atts| - 1];
      WrittenOver(cache, atts[..|atts| - 1]).Set(Key(a), a)
  }

  ghost function Written(stored: seq<Attestation>): (m: OrderedMap<Attestation>)
    ensures KeyedBy(m)
  {
    WrittenOver(Empty(), stored)
  }

  /** A cache and its log, before and after some attempts: exactly their notes were added. */
  ghost predicate Noted(
    signer: string, attempts: seq<Attempt>, wasCache: OrderedMap<Attestation>, wasLog: seq<Attestation>,
    cache: OrderedMap<Attestation>, log: seq<Attestation>)
  {
    log == wasLog + AllNotes(signer, attempts) && cache == WrittenOver(wasCache, AllNotes(signer, attempts))
  }

  /** A single attempt adds at most one attestation. */
  lemma NotedOne(signer: string, t: Attempt, cache: OrderedMap<Attestation>, log: seq<Attestation>)
    ensures var a := Built(signer, t.request, t.createdAt);
            if Counts(t) then Noted(signer, [t], cache, log, cache.Set(Key(a), a), log + [a])
              else Noted(signer, [t], cache, log, cache, log)
  {
    assert [t][..0] == [];
    var a := Built(signer, t.request, t.createdAt);
    assert [a][..0] == [];
  }

  /** The attempts that a list of requests and their outcomes stand for. */
  function AttemptsOf(requests: seq<Request>, results: seq<(Event, bool)>): (attempts: seq<Attempt>)
    requires |results| <= |requests|
    ensures |attempts| == |results|
    ensures forall i | 0 <= i < |results| :: attempts[i] == Attempt(requests[i], results[i].0.createdAt, results[i].1)
  {
    seq(|results|, i requires 0 <= i < |results| => Attempt(requests[i], results[i].0.createdAt, results[i].1))
  }

  lemma OneMoreAttempt(requests: seq<Request>, results: seq<(Event, bool)>, result: (Event, bool))
    requires |results| < |requests|
    ensures AttemptsOf(requests, results + [result])
         == AttemptsOf(requests, results) + [Attempt(requests[|results|], result.0.createdAt, result.1)]
  {
  }

  lemma NotedNothing(signer: string, requests: seq<Request>, cache: OrderedMap<Attestation>, log: seq<Attestation>)
    ensures Noted(signer, AttemptsOf(requests, []), cache, log, cache, log)
  {
  }

  /** One more result of a batch. */
  lemma NotedMore(
    signer: string, requests: seq<Request>, results: seq<(Event, bool)>, result: (Event, bool),
    cache0: OrderedMap<Attestation>, log0: seq<Attestation>, cache1: OrderedMap<Attestation>, log1: seq<Attestation>,
    cache2: OrderedMap<Attestation>, log2: seq<Attestation>)
    requires |results| < |requests| && Noted(signer, AttemptsOf(requests, results), cache0, log0, cache1, log1)
    requires Noted(signer, [Attempt(requests[|results|], result.0.createdAt, result.1)], cache1, log1, cache2, log2)
    ensures Noted(signer, AttemptsOf(requests, results + [result]), cache0, log0, cache2, log2)
  {
    OneMoreAttempt(requests, results, result);
    NotedThen(
      signer, AttemptsOf(requests, results), [Attempt(requests[|results|], result.0.createdAt, result.1)],
      cache0, log0, cache1, log1, cache2, log2);
  }

  /** A live edge's context can be read back from its address. */
  predicate Recoverable(p: Request) {
    GoodContext(ContextIn(p)) || Rounded(p.weight) == 0
  }

  /** A single publication that failed counts for nothing. */
  function AttemptOf(p: Request, event: Result<Event, string>): seq<Attempt> {
    if event.Ok? then [Attempt(p, event.value.createdAt, true)] else []
  }

  function Revocation(a: Attestation): Request {
    RevokeRequest(a.trustee, None, ContextOf(a.d))
  }

  /** A revocation built from a stored edge goes to the address of that edge exactly when its context can be read back.
      */
  lemma RevocationHits(signer: string, p: Request, createdAt: int)
    ensures Address(signer, Revocation(Built(signer, p, createdAt))) == Address(signer, p)
      <==> GoodContext(ContextIn(p))
  {
    var context := ContextIn(p);
    var revoked := Revocation(Built(signer, p, createdAt));
    ContextRoundTrip(p.trustee, context);
    if Address(signer, revoked) == Address(signer, p) {
      SameAddress(signer, DTag(p.trustee, ContextIn(revoked)), DTag(p.trustee, context));
      SameContext(p.trustee, ContextIn(revoked), context);
      if ContextOf(DTag(p.trustee, context)).None? {
        assert ContextIn(revoked)[0] == 'm';
        NoContextStarts(p.trustee, context);
      }
    }
  }

  lemma SameContext(trustee: string, context: string, other: string)
    requires DTag(trustee, context) == DTag(trustee, other)
    ensures context == other
  {
    assert |context| == |other|;
    assert DTag(trustee, context)[|Prefix|..][..|context|] == context;
    assert DTag(trustee, other)[|Prefix|..][..|other|] == other;
  }

  lemma NoContextStarts(trustee: string, context: string)
    requires ContextOf(DTag(trustee, context)).None?
    ensures context == "" || context[0] == ':'
  {
    var rest := DTag(trustee, context)[|Prefix|..];
    assert rest == context + [':'] + trustee;
    assert rest[|context|] == ':';
  }

  function Revocations(atts: seq<Attestation>): (requests: seq<Request>)
    ensures |requests| == |atts| && forall i | 0 <= i < |atts| :: requests[i] == Revocation(atts[i])
  {
    seq(|atts|, i requires 0 <= i < |atts| => Revocation(atts[i]))
  }

  /** The event is the one asked for, not stamped before `floor`. */
  ghost predicate Reports(
    num: Numerals, signer: string, p: Request, result: (Event, bool), floor: int, accepted: bool) {
    result.1 == accepted && result.0.createdAt >= floor
      && BuildAttestation(num, signer, p, result.0.createdAt) == Ok(result.0)
  }

  lemma {:induction false} NotesOfBoth(signer: string, a: seq<Attempt>, b: seq<Attempt>)
    ensures AllNotes(signer, a + b) == AllNotes(signer, a) + AllNotes(signer, b)
  {
    if b == [] {
      assert a + b == a;
    } else {
      assert (a + b)[..|a + b| - 1] == a + b[..|b| - 1];
      NotesOfBoth(signer, a, b[..|b| - 1]);
    }
  }

  lemma {:induction false} WrittenOverBoth(cache: OrderedMap<Attestation>, a: seq<Attestation>, b: seq<Attestation>)
    ensures WrittenOver(cache, a + b) == WrittenOver(WrittenOver(cache, a), b)
  {
    if b == [] {
      assert a + b == a;
    } else {
      assert (a + b)[..|a + b| - 1] == a + b[..|b| - 1];
      WrittenOverBoth(cache, a, b[..|b| - 1]);
    }
  }

  lemma NotedThen(
    signer: string, a: seq<Attempt>, b: seq<Attempt>, cache0: OrderedMap<Attestation>, log0: seq<Attestation>,
    cache1: OrderedMap<Attestation>, log1: seq<Attestation>, cache2: OrderedMap<Attestation>, log2: seq<Attestation>)
    requires Noted(signer, a, cache0, log0, cache1, log1) && Noted(signer, b, cache1, log1, cache2, log2)
    ensures Noted(signer, a + b, cache0, log0, cache2, log2)
  {
    NotesOfBoth(signer, a, b);
    WrittenOverBoth(cache0, AllNotes(signer, a), AllNotes(signer, b));
  }

  // --- the last attempt at an address ---

  function Address(signer: string, p: Request): string {
    signer + "\n" + DTag(p.trustee, ContextIn(p))
  }

  function LastAt(signer: string, attempts: seq<Attempt>, k: string): Option<Attempt> {
    if attempts == [] then None
    else
      var last := attempts[|attempts| - 1];
      if Counts(last) && Address(signer, last.request) == k then Some(last)
        else LastAt(signer, attempts[..|attempts| - 1], k)
  }

  /** The last attempt that counts for one edge. */
  function LastFor(attempts: seq<Attempt>, trustee: string, context: string): Option<Attempt> {
    if attempts == [] then None
    else
      var last := attempts[|attempts| - 1];
      if Counts(last) && last.request.trustee == trustee && ContextIn(last.request) == context then Some(last)
      else LastFor(attempts[..|attempts| - 1], trustee, context)
  }

  lemma {:induction false} LastAtIsAt(signer: string, attempts: seq<Attempt>, k: string)
    ensures LastAt(signer, attempts, k).Some? ==>
      var t := LastAt(signer, attempts, k).value;
      t in attempts && Counts(t) && Address(signer, t.request) == k
  {
    if attempts != [] {
      LastAtIsAt(signer, attempts[..|attempts| - 1], k);
    }
  }

  ghost predicate PlainContexts(attempts: seq<Attempt>) {
    forall i | 0 <= i < |attempts| :: ':' !in ContextIn(attempts[i].request)
  }

  ghost predicate PlainTrustees(attempts: seq<Attempt>) {
    forall i | 0 <= i < |attempts| :: ':' !in attempts[i].request.trustee
  }

  /** Without colons in trustees, as public keys have none, or without any in contexts, an address is one edge's. */
  lemma {:induction false} LastAtIsLastFor(signer: string, attempts: seq<Attempt>, trustee: string, context: string)
    requires (PlainTrustees(attempts) && ':' !in trustee) || (PlainContexts(attempts) && ':' !in context)
    ensures LastAt(signer, attempts, signer + "\n" + DTag(trustee, context)) == LastFor(attempts, trustee, context)
  {
    if attempts != [] {
      var last := attempts[|attempts| - 1].request;
      LastAtIsLastFor(signer, attempts[..|attempts| - 1], trustee, context);
      if Address(signer, last) == signer + "\n" + DTag(trustee, context) {
        SameAddress(signer, DTag(last.trustee, ContextIn(last)), DTag(trustee, context));
        if ':' !in trustee && ':' !in last.trustee {
          TrusteesApart(last.trustee, ContextIn(last), trustee, context);
        } else {
          DTagInjective(last.trustee, ContextIn(last), trustee, context);
        }
      }
    }
  }

  lemma SameAddress(signer: string, d: string, e: string)
    requires signer + "\n" + d == signer + "\n" + e
    ensures d == e
  {
    assert (signer + "\n" + d)[|signer + "\n"|..] == d;
    assert (signer + "\n" + e)[|signer + "\n"|..] == e;
  }

  ghost predicate Holds(cache: OrderedMap<Attestation>, k: string, a: Attestation) {
    k in cache.at && cache.at[k] == a
  }

  /** What a cache holds after some attempts: the last one's attestation at the addresses they touched, and what it held
      at the others. */
  lemma {:induction false} CacheAfter(signer: string, cache: OrderedMap<Attestation>, attempts: seq<Attempt>, k: string)
    ensures var after := WrittenOver(cache, AllNotes(signer, attempts));
            match LastAt(signer, attempts, k)
            case Some(t) => Holds(after, k, Built(signer, t.request, t.createdAt))
            case None => (k in after.at <==> k in cache.at) && (k in cache.at ==> after.at[k] == cache.at[k])
  {
    if attempts != [] {
      var rest, last := attempts[..|attempts| - 1], attempts[|attempts| - 1];
      CacheAfter(signer, cache, rest, k);
      var notes := AllNotes(signer, attempts);
      if !Counts(last) {
        assert notes == AllNotes(signer, rest);
      } else {
        assert notes[..|notes| - 1] == AllNotes(signer, rest);
        assert Key(Built(signer, last.request, last.createdAt)) == Address(signer, last.request);
      }
    }
  }
}
