/** Building attestation events and their edge addresses. */
module Attest {
  import opened Wrappers
  import opened Text
  import opened Attestations

  const Prefix := "tg:v1:"
  const Market := "market"

  /** One address per context and trustee. */
  function DTag(trustee: string, context: string): string {
    Prefix + context + ":" + trustee
  }

  /** The longest non-empty colon-free text after the prefix that a colon follows. */
  function ContextOf(d: string): Option<string> {
    if !(Prefix <= d) then None
    else
      var rest := d[|Prefix|..];
      var k := IndexOf(rest, ':');
      if k == 0 || k == |rest| then None else Some(rest[..k])
  }

  predicate GoodContext(context: string) {
    context != "" && ':' !in context
  }

  /** The context is recovered exactly when it is non-empty and has no colon. */
  lemma ContextRoundTrip(trustee: string, context: string)
    ensures ContextOf(DTag(trustee, context)) == Some(context) <==> GoodContext(context)
  {
    var rest := DTag(trustee, context)[|Prefix|..];
    assert rest == context + [':'] + trustee;
    if ':' !in context {
      IndexOfFirst(':', context, trustee);
      assert rest[..|context|] == context;
    }
  }

  /** Different edges have different addresses, as long as their contexts have no colon. */
  lemma DTagInjective(trustee: string, context: string, trustee2: string, context2: string)
    requires ':' !in context && ':' !in context2 && DTag(trustee, context) == DTag(trustee2, context2)
    ensures trustee == trustee2 && context == context2
  {
    var d := DTag(trustee, context);
    assert d[|Prefix|..] == context + [':'] + trustee;
    assert DTag(trustee2, context2)[|Prefix|..] == context2 + [':'] + trustee2;
    SplitUnique(':', context, trustee, context2, trustee2);
  }

  /** And as long as their trustees have none, whatever their contexts. */
  lemma TrusteesApart(trustee: string, context: string, trustee2: string, context2: string)
    requires ':' !in trustee && ':' !in trustee2 && DTag(trustee, context) == DTag(trustee2, context2)
    ensures trustee == trustee2 && context == context2
  {
    assert (Prefix + context) + [':'] + trustee == (Prefix + context2) + [':'] + trustee2;
    SplitLastUnique(':', Prefix + context, trustee, Prefix + context2, trustee2);
    assert (Prefix + context)[|Prefix|..] == context && (Prefix + context2)[|Prefix|..] == context2;
  }

  /** Two edges that share an address differ in their contexts: the longer context and the other's trustee have a colon.
      */
  lemma CollisionNeedsColons(trustee: string, context: string, trustee2: string, context2: string)
    requires DTag(trustee, context) == DTag(trustee2, context2) && |context| <= |context2|
    ensures (trustee == trustee2 && context == context2) || (':' in trustee && ':' in context2)
  {
    var d := DTag(trustee, context)[|Prefix|..];
    assert d == context + [':'] + trustee && d == context2 + [':'] + trustee2;
    if |context| == |context2| {
      assert d[..|context|] == context && d[..|context2|] == context2;
      assert d[|context| + 1..] == trustee && d[|context2| + 1..] == trustee2;
    } else {
      assert d[|context|] == context2[|context|] == ':';
      assert d[|context2|] == trustee[|context2| - |context| - 1] == ':';
    }
  }

  /** So with a colon in one context and in the other trustee two edges can share an address. */
  lemma ColonsCollide()
    ensures DTag("b:c", "a") == DTag("c", "a:b")
  {
  }

  /** An edge shares its address with no edge of a colon-free context exactly when its own context has no colon. */
  lemma CollidesExactlyWithColons(trustee: string, context: string)
    ensures ':' !in context
      <==> forall t2, c2 | ':' !in c2 && DTag(t2, c2) == DTag(trustee, context) :: t2 == trustee && c2 == context
  {
    if ':' !in context {
      forall t2, c2 | ':' !in c2 && DTag(t2, c2) == DTag(trustee, context)
        ensures t2 == trustee && c2 == context
      {
        DTagInjective(t2, c2, trustee, context);
      }
    } else {
      var k := IndexOf(context, ':');
      CutAt(trustee, context, k);
    }
  }

  /** Cut at its first colon, such a context yields another edge with the same address. */
  lemma CutAt(trustee: string, context: string, k: nat)
    requires k < |context| && context[k] == ':' && ':' !in context[..k]
    ensures DTag(context[k + 1..] + ":" + trustee, context[..k]) == DTag(trustee, context) && context[..k] != context
  {
    assert context == context[..k] + ":" + context[k + 1..];
    assert Prefix + context[..k] + ":" + (context[k + 1..] + ":" + trustee)
        == Prefix + (context[..k] + ":" + context[k + 1..]) + ":" + trustee;
  }

  datatype Request = Request(
    trustee: string,
    weight: real,
    hint: string,
    context: Option<string>,
    expiration: Option<int>,
    ttl: Option<int>)

  /** Rounding half up, then clamping to the range of the protocol. */
  function Rounded(weight: real): (w: int)
    ensures 0 <= w <= 100
  {
    var r := (weight + 0.5).Floor;
    if r > 100 then 100 else if r < 0 then 0 else r
  }

  /** In whole seconds; zero counts as none. */
  function ExpiresAt(p: Request, createdAt: int): Option<int> {
    var at := if p.expiration.Some? then p.expiration
              else if p.ttl.GetOr(0) != 0 then Some(createdAt + p.ttl.value) else None;
    if at == Some(0) then None else at
  }

  function ContextIn(p: Request): string {
    p.context.GetOr(Market)
  }

  function TagsOf(num: Numerals, p: Request, createdAt: int): seq<seq<string>> {
    var context := ContextIn(p);
    [["d", DTag(p.trustee, context)], ["p", p.trustee, p.hint], ["w", Printed(num, Rounded(p.weight))], ["t", context]]
    + if ExpiresAt(p, createdAt).Some? then [["expiration", Printed(num, ExpiresAt(p, createdAt).value)]] else []
  }

  /** A live edge without a valid relay hint is refused. */
  function BuildAttestation(num: Numerals, pubkey: string, p: Request, createdAt: int): Result<Event, string> {
    if Rounded(p.weight) > 0 && !IsRelayUrl(p.hint) then Err("a valid relay hint is required for a live edge")
    else Ok(Event(Kind, pubkey, createdAt, TagsOf(num, p, createdAt)))
  }

  function RevokeRequest(trustee: string, hint: Option<string>, context: Option<string>): Request {
    Request(trustee, 0.0, hint.GetOr(""), context, None, None)
  }

  /** What reading a built event gives back. */
  function Built(pubkey: string, p: Request, createdAt: int): Attestation {
    var at := ExpiresAt(p, createdAt);
    Attestation(pubkey, p.trustee, Rounded(p.weight) as real, DTag(p.trustee, ContextIn(p)), createdAt,
                if IsRelayUrl(p.hint) then Some(p.hint) else None,
                if at.Some? && at.value > 0 then Some(at.value as real) else None, false)
  }

  lemma {:induction false} Skip(tags: seq<seq<string>>, k: nat, name: string)
    requires k <= |tags| && forall j | 0 <= j < k :: !Valued(tags[j], name)
    ensures FirstValued(tags, name) == FirstValued(tags[k..], name)
  {
    if k > 0 {
      Skip(tags[1..], k - 1, name);
      assert tags[1..][k - 1..] == tags[k..];
    }
  }

  lemma FirstAt(tags: seq<seq<string>>, k: nat, name: string)
    requires k < |tags| && Valued(tags[k], name) && forall j | 0 <= j < k :: !Valued(tags[j], name)
    ensures FirstValued(tags, name) == Some(tags[k])
  {
    Skip(tags, k, name);
    assert tags[k..][0] == tags[k];
  }

  lemma NoneAt(tags: seq<seq<string>>, name: string)
    requires forall j | 0 <= j < |tags| :: !Valued(tags[j], name)
    ensures FirstValued(tags, name) == None
  {
  }

  lemma Shows(num: Numerals, n: int)
    requires Faithful(num)
    ensures Printed(num, n) != "" && num.read(Printed(num, n)) == Some(n as real)
  {
  }

  /** Reading undoes building; an event without a trustee is not an attestation. */
  lemma ParseUndoesBuild(num: Numerals, pubkey: string, p: Request, createdAt: int)
    requires Faithful(num) && BuildAttestation(num, pubkey, p, createdAt).Ok?
    ensures Parsed(num, BuildAttestation(num, pubkey, p, createdAt).value)
         == if p.trustee == "" then None else Some(Built(pubkey, p, createdAt))
  {
    var tags := TagsOf(num, p, createdAt);
    assert tags[0] == ["d", DTag(p.trustee, ContextIn(p))];
    assert tags[1] == ["p", p.trustee, p.hint];
    assert tags[2] == ["w", Printed(num, Rounded(p.weight))];
    assert tags[3] == ["t", ContextIn(p)];
    Shows(num, Rounded(p.weight));
    FirstAt(tags, 0, "d");
    FirstAt(tags, 2, "w");
    if p.trustee == "" {
      NoneAt(tags, "p");
    } else {
      FirstAt(tags, 1, "p");
    }
    if ExpiresAt(p, createdAt).Some? {
      Shows(num, ExpiresAt(p, createdAt).value);
      assert tags[4] == ["expiration", Printed(num, ExpiresAt(p, createdAt).value)];
      FirstAt(tags, 4, "expiration");
    } else {
      NoneAt(tags, "expiration");
    }
  }
}
