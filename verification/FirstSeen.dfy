/** Which order first claimed an (identity, nonce) pair. */
module FirstSeen {
  import opened Wrappers
  import opened Encoding
  import opened Text
  import opened Sequences

  datatype Verdict = Valid | Invalid

  datatype Claim = Claim(orderId: string, ts: int)

  type Ledger = map<string, Claim>

  function KeyOf(identity: string, nonce: seq<Byte>): string {
    identity + "\n" + ToHex(nonce)
  }

  /** Different pairs have different keys. */
  lemma KeyIsInjective(identity: string, nonce: seq<Byte>, other: string, otherNonce: seq<Byte>)
    requires KeyOf(identity, nonce) == KeyOf(other, otherNonce)
    ensures identity == other && nonce == otherNonce
  {
    assert identity + ['\n'] + ToHex(nonce) == other + ['\n'] + ToHex(otherNonce);
    SplitLastUnique('\n', identity, ToHex(nonce), other, ToHex(otherNonce));
    HexRoundTrip(nonce);
    HexRoundTrip(otherNonce);
  }

  function Min(a: int, b: int): int {
    if a < b then a else b
  }

  /** The ledger after an order with this time asks for a key, and the answer. */
  function Judge(ledger: Ledger, key: string, orderId: string, ts: int): (Ledger, Verdict) {
    if key !in ledger then (ledger[key := Claim(orderId, ts)], Valid)
    else if ledger[key].orderId == orderId then (ledger, Valid)
    else if ts > ledger[key].ts then (ledger, Invalid)
    else (ledger[key := Claim(orderId, ts)], Valid)
  }

  class FirstSeenTracker {
    /** Order to its earliest time seen. */
    var birth: map<string, int>
    /** Key to the first order that claimed it. */
    var first: Ledger

    constructor ()
      ensures birth == map[] && first == map[]
    {
      birth, first := map[], map[];
    }

    method Check(identity: string, nonce: seq<Byte>, orderId: string, eventCreatedAt: int) returns (verdict: Verdict)
      modifies this
      ensures var ts := if orderId in old(birth) then Min(old(birth)[orderId], eventCreatedAt) else eventCreatedAt;
              && birth == old(birth)[orderId := ts]
              && (first, verdict) == Judge(old(first), KeyOf(identity, nonce), orderId, ts)
    {
      var ts := if orderId in birth && birth[orderId] < eventCreatedAt then birth[orderId] else eventCreatedAt;
      birth := birth[orderId := ts];
      var key := KeyOf(identity, nonce);
      if key !in first {
        first := first[key := Claim(orderId, ts)];
        return Valid;
      }
      var prev := first[key];
      if prev.orderId == orderId {
        return Valid;
      }
      if ts > prev.ts {
        return Invalid;
      }
      first := first[key := Claim(orderId, ts)];
      return Valid;
    }

    method NoteOrder(orderId: string, observedAt: int)
      modifies this`birth
      ensures birth == old(birth)[orderId := if orderId in old(birth) then Min(old(birth)[orderId], observedAt)
        else observedAt]
    {
      if orderId !in birth || observedAt < birth[orderId] {
        birth := birth[orderId := observedAt];
      } else {
        assert birth[orderId := birth[orderId]] == birth;
      }
    }

    method ExportState() returns (state: Ledger)
      ensures state == first
    {
      return first;
    }

    /** Imported claims overrule the ones held. */
    method ImportState(state: Ledger)
      modifies this`first
      ensures first == old(first) + state
    {
      var rest := state.Keys;
      while rest != {}
        invariant rest <= state.Keys
        invariant first == old(first) + map k | k in state && k !in rest :: state[k]
      {
        var k :| k in rest;
        rest := rest - {k};
        first := first[k := state[k]];
      }
      assert (map k | k in state && k !in rest :: state[k]) == state;
    }
  }

  /** An order's time is what is given, else its noted birth, else the present; an earlier birth prevails. */
  method ObserveOrder(
    tracker: FirstSeenTracker, identity: string, nonce: seq<Byte>, orderId: string, observedAt: Option<int>, now: int)
    returns (verdict: Verdict)
    modifies tracker
    ensures var at := if observedAt.Some? then observedAt.value
                      else if orderId in old(tracker.birth) then old(tracker.birth)[orderId] else now;
            var ts := if orderId in old(tracker.birth) then Min(old(tracker.birth)[orderId], at) else at;
            && tracker.birth == old(tracker.birth)[orderId := ts]
            && (tracker.first, verdict) == Judge(old(tracker.first), KeyOf(identity, nonce), orderId, ts)
    ensures observedAt.None? && orderId in old(tracker.birth) ==>
      && tracker.birth == old(tracker.birth)
      && (tracker.first, verdict)
        == Judge(old(tracker.first), KeyOf(identity, nonce), orderId, old(tracker.birth)[orderId])
  {
    var at := if observedAt.Some? then observedAt.value
              else if orderId in tracker.birth then tracker.birth[orderId]
              else now;
    if observedAt.None? && orderId in tracker.birth {
      assert tracker.birth[orderId := tracker.birth[orderId]] == tracker.birth;
    }
    verdict := tracker.Check(identity, nonce, orderId, at);
  }

  /** A ledger survives export into a new tracker. */
  method Transfer(from: FirstSeenTracker) returns (to: FirstSeenTracker)
    ensures fresh(to) && to.first == from.first
  {
    to := new FirstSeenTracker();
    var state := from.ExportState();
    to.ImportState(state);
  }

  // --- runs in which every order has one fixed time ---

  datatype Sighting = Sighting(key: string, orderId: string)

  type Times = string -> int

  ghost function After(times: Times, run: seq<Sighting>): Ledger {
    if run == [] then map[]
    else
      var s := run[|run| - 1];
      Judge(After(times, run[..|run| - 1]), s.key, s.orderId, times(s.orderId)).0
  }

  /** An order that asked for the key during the run. */
  ghost predicate Asked(run: seq<Sighting>, key: string, orderId: string) {
    Sighting(key, orderId) in run
  }

  /** The claim of the order with the least time among those that asked. */
  ghost predicate IsEarliest(times: Times, run: seq<Sighting>, key: string, c: Claim) {
    && Asked(run, key, c.orderId) && c.ts == times(c.orderId)
    && forall o | Asked(run, key, o) :: c.ts <= times(o)
  }

  /** The ledger holds, for exactly the keys asked for, an order of the least time asked so far. */
  lemma {:induction false} LedgerHoldsEarliest(times: Times, run: seq<Sighting>, key: string)
    ensures key in After(times, run) <==> exists o :: Asked(run, key, o)
    ensures key in After(times, run) ==> IsEarliest(times, run, key, After(times, run)[key])
  {
    if run != [] {
      var rest, s := run[..|run| - 1], run[|run| - 1];
      LedgerHoldsEarliest(times, rest, key);
      assert run == rest + [s];
      assert forall o :: Asked(run, key, o) <==> Asked(rest, key, o) || s == Sighting(key, o);
      if s.key == key {
        assert Asked(run, key, s.orderId);
      }
    }
  }

  /** An order with a strictly smaller time asked for the key before. */
  ghost predicate Forestalled(times: Times, before: seq<Sighting>, key: string, orderId: string) {
    exists o :: Asked(before, key, o) && times(o) < times(orderId)
  }

  /** Exactly such an order is refused. */
  lemma VerdictIsExact(times: Times, run: seq<Sighting>, key: string, orderId: string)
    ensures Judge(After(times, run), key, orderId, times(orderId)).1 == Invalid
      <==> Forestalled(times, run, key, orderId)
  {
    LedgerHoldsEarliest(times, run, key);
  }

  /** With distinct times the final holder does not depend on the order of arrival, or on repetitions. */
  lemma HolderIsOrderFree(times: Times, a: seq<Sighting>, b: seq<Sighting>, key: string)
    requires forall s :: s in a <==> s in b
    requires forall o, p | Asked(a, key, o) && Asked(a, key, p) && times(o) == times(p) :: o == p
    ensures key in After(times, a) <==> key in After(times, b)
    ensures key in After(times, a) ==> After(times, a)[key] == After(times, b)[key]
  {
    LedgerHoldsEarliest(times, a, key);
    LedgerHoldsEarliest(times, b, key);
    assert forall o :: Asked(a, key, o) <==> Asked(b, key, o);
  }

  function Under(key: string): Sighting -> bool {
    (s: Sighting) => s.key == key
  }

  function Only(run: seq<Sighting>, key: string): seq<Sighting> {
    Filter(Under(key), run)
  }

  /** What happens under other keys has no influence on a key. */
  lemma {:induction false} KeysDoNotInterfere(times: Times, run: seq<Sighting>, key: string)
    ensures key in After(times, run) <==> key in After(times, Only(run, key))
    ensures key in After(times, run) ==> After(times, run)[key] == After(times, Only(run, key))[key]
  {
    if run != [] {
      var rest, s := run[..|run| - 1], run[|run| - 1];
      KeysDoNotInterfere(times, rest, key);
      if s.key == key {
        var only := Only(run, key);
        assert only[..|only| - 1] == Only(rest, key) && only[|only| - 1] == s;
      } else {
        assert Only(run, key) == Only(rest, key);
      }
    }
  }

  // --- a tracker over such a run ---

  datatype Ask = Ask(identity: string, nonce: seq<Byte>, orderId: string)

  function SightingOf(a: Ask): Sighting {
    Sighting(KeyOf(a.identity, a.nonce), a.orderId)
  }

  function Sightings(asks: seq<Ask>): (run: seq<Sighting>)
    ensures |run| == |asks| && forall k | 0 <= k < |asks| :: run[k] == SightingOf(asks[k])
  {
    seq(|asks|, k requires 0 <= k < |asks| => SightingOf(asks[k]))
  }

  /** Each order is known, if at all, under its fixed time, and the ledger is that of the run. */
  ghost predicate Replays(tracker: FirstSeenTracker, times: Times, run: seq<Sighting>)
    reads tracker
  {
    && tracker.first == After(times, run)
    && forall o | o in tracker.birth :: tracker.birth[o] == times(o)
  }

  method ReplayNext(
    tracker: FirstSeenTracker, times: Times, ghost before: seq<Sighting>, a: Ask) returns (verdict: Verdict)
    requires Replays(tracker, times, before)
    modifies tracker
    ensures Replays(tracker, times, before + [SightingOf(a)])
    ensures verdict == Invalid <==> Forestalled(times, before, SightingOf(a).key, a.orderId)
  {
    VerdictIsExact(times, before, SightingOf(a).key, a.orderId);
    assert (before + [SightingOf(a)])[..|before|] == before;
    verdict := tracker.Check(a.identity, a.nonce, a.orderId, times(a.orderId));
  }

  /** The orders refused are exactly those forestalled. */
  ghost predicate Exact(times: Times, run: seq<Sighting>, verdicts: seq<Verdict>) {
    && |verdicts| <= |run|
    && forall k | 0 <= k < |verdicts| ::
         verdicts[k] == Invalid <==> Forestalled(times, run[..k], run[k].key, run[k].orderId)
  }

  lemma OneMoreExact(times: Times, run: seq<Sighting>, verdicts: seq<Verdict>, verdict: Verdict)
    requires Exact(times, run, verdicts) && |verdicts| < |run|
    requires var s := run[|verdicts|]; verdict == Invalid <==> Forestalled(times, run[..|verdicts|], s.key, s.orderId)
    ensures Exact(times, run, verdicts + [verdict])
  {
  }

  /** A new tracker ends with the ledger of the run, and refuses exactly the orders that were forestalled. */
  method Replay(times: Times, asks: seq<Ask>) returns (tracker: FirstSeenTracker, verdicts: seq<Verdict>)
    ensures fresh(tracker) && tracker.first == After(times, Sightings(asks)) && |verdicts| == |asks|
    ensures Exact(times, Sightings(asks), verdicts)
  {
    tracker := new FirstSeenTracker();
    verdicts := [];
    ghost var run := Sightings(asks);
    for k := 0 to |asks|
      invariant fresh(tracker) && Replays(tracker, times, run[..k]) && |verdicts| == k && Exact(times, run, verdicts)
    {
      assert run[..k + 1] == run[..k] + [SightingOf(asks[k])];
      var verdict := ReplayNext(tracker, times, run[..k], asks[k]);
      OneMoreExact(times, run, verdicts, verdict);
      verdicts := verdicts + [verdict];
    }
    assert run[..|asks|] == run;
  }

  // --- when an order's time is lowered later ---

  /** Every claim carries the present time of its holder. */
  ghost predicate Current(birth: map<string, int>, ledger: Ledger) {
    forall k | k in ledger :: ledger[k].orderId in birth && ledger[k].ts == birth[ledger[k].orderId]
  }

  /** The time is below that of a claim the order holds, under whatever key. */
  ghost predicate Undercuts(ledger: Ledger, orderId: string, time: int) {
    exists k :: k in ledger && ledger[k].orderId == orderId && time < ledger[k].ts
  }

  /** A check keeps the ledger current exactly when it does not lower the time of a claim its order already holds. */
  lemma CheckKeepsCurrent(birth: map<string, int>, ledger: Ledger, key: string, orderId: string, createdAt: int)
    requires Current(birth, ledger)
    ensures var ts := if orderId in birth then Min(birth[orderId], createdAt) else createdAt;
            Current(birth[orderId := ts], Judge(ledger, key, orderId, ts).0) <==> !Undercuts(ledger, orderId, createdAt)
  {
    var ts := if orderId in birth then Min(birth[orderId], createdAt) else createdAt;
    if Undercuts(ledger, orderId, createdAt) {
      var k :| k in ledger && ledger[k].orderId == orderId && createdAt < ledger[k].ts;
      assert Judge(ledger, key, orderId, ts).0[k] == ledger[k];
    }
  }

  /** Noting an order keeps it so under the same condition. */
  lemma NoteKeepsCurrent(birth: map<string, int>, ledger: Ledger, orderId: string, observedAt: int)
    requires Current(birth, ledger)
    ensures var ts := if orderId in birth then Min(birth[orderId], observedAt) else observedAt;
            Current(birth[orderId := ts], ledger) <==> !Undercuts(ledger, orderId, observedAt)
  {
    if Undercuts(ledger, orderId, observedAt) {
      var k :| k in ledger && ledger[k].orderId == orderId && observedAt < ledger[k].ts;
      assert ledger[k].ts == birth[orderId];
    }
  }

  /** A lower time under another key, too, leaves an earlier claim behind. */
  lemma OtherKeyLeavesClaimBehind(k1: string, k2: string)
    requires k1 != k2
    ensures var birth, ledger := map["a" := 10], map[k1 := Claim("a", 10)];
            && Current(birth, ledger)
            && !Current(birth["a" := 5], Judge(ledger, k2, "a", 5).0)
            && !Current(birth["a" := 5], ledger)
  {
    var birth, ledger := map["a" := 10], map[k1 := Claim("a", 10)];
    assert ledger[k1].ts != birth["a" := 5]["a"];
    assert Judge(ledger, k2, "a", 5).0[k1] == ledger[k1];
  }

  /** So an order seen at 10 and then at 5 still loses its key to one seen at 7. */
  lemma LoweredHolderLoses(key: string)
    ensures var one := Judge(map[], key, "a", 10).0;
            var two := Judge(one, key, "a", 5).0;
            two[key] == Claim("a", 10) && Judge(two, key, "b", 7) == (two[key := Claim("b", 7)], Valid)
  {
  }
}
