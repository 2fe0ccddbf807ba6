/** Binding an identity to an order: challenge, token, and verification. */
module Binding {
  import opened Wrappers
  import opened Sequences
  import opened Text
  import opened Encoding
  import opened Token
  import M = Messages
  import opened OrderBook

  // --- the challenge ---

  /** Amounts as the challenge spells them. */
  datatype Amounts = Single(amount: string) | Range(min: string, max: string)

  datatype Fields = Fields(
    mostroPubkey: string, kind: string, fiatCode: string, amounts: Amounts, premium: string, base: string)

  function VariantOf(f: Fields): Variant {
    if f.amounts.Range? then V1r else V1
  }

  function Line(first: string, rest: string): string {
    first + ['\n'] + rest
  }

  function DomainTag(v: Variant): string {
    match v
    case V1 => "mostro-ppr-v1"
    case V1r => "mostro-ppr-v1-range"
  }

  function Tail(f: Fields, nonce: seq<Byte>): string {
    Line(f.premium, Line(f.base, ToBase64(nonce)))
  }

  function AmountLines(f: Fields, nonce: seq<Byte>): string {
    match f.amounts
    case Single(amount) => Line(amount, Tail(f, nonce))
    case Range(min, max) => Line(min, Line(max, Tail(f, nonce)))
  }

  /** The signed text: the fields, one a line, without a final newline. */
  function Challenge(f: Fields, nonce: seq<Byte>): string {
    Line(DomainTag(VariantOf(f)), Line(f.mostroPubkey, Line(f.kind, Line(f.fiatCode, AmountLines(f, nonce)))))
  }

  predicate OneLine(s: string) {
    '\n' !in s
  }

  /** Every field but the base is free of newlines. */
  predicate SingleLines(f: Fields) {
    && OneLine(f.mostroPubkey) && OneLine(f.kind) && OneLine(f.fiatCode) && OneLine(f.premium)
    && match f.amounts
       case Single(amount) => OneLine(amount)
       case Range(min, max) => OneLine(min) && OneLine(max)
  }

  lemma LineUnique(a: string, x: string, b: string, y: string)
    requires OneLine(a) && OneLine(b) && Line(a, x) == Line(b, y)
    ensures a == b && x == y
  {
    SplitUnique('\n', a, x, b, y);
  }

  lemma TagsAreLines(v: Variant, w: Variant)
    ensures OneLine(DomainTag(v))
    ensures DomainTag(v) == DomainTag(w) ==> v == w
  {
  }

  lemma TailInjective(f: Fields, n: seq<Byte>, g: Fields, m: seq<Byte>)
    requires SingleLines(f) && SingleLines(g) && Tail(f, n) == Tail(g, m)
    ensures f.premium == g.premium && f.base == g.base && n == m
  {
    LineUnique(f.premium, Line(f.base, ToBase64(n)), g.premium, Line(g.base, ToBase64(m)));
    NoDotInDigits(ToBase64(n));
    NoDotInDigits(ToBase64(m));
    SplitLastUnique('\n', f.base, ToBase64(n), g.base, ToBase64(m));
    Base64RoundTrip(n);
    Base64RoundTrip(m);
  }

  lemma AmountsInjective(f: Fields, n: seq<Byte>, g: Fields, m: seq<Byte>)
    requires SingleLines(f) && SingleLines(g) && VariantOf(f) == VariantOf(g) && AmountLines(f, n) == AmountLines(g, m)
    ensures f.amounts == g.amounts && Tail(f, n) == Tail(g, m)
  {
    match f.amounts
    case Single(amount) =>
      LineUnique(amount, Tail(f, n), g.amounts.amount, Tail(g, m));
    case Range(min, max) =>
      LineUnique(min, Line(max, Tail(f, n)), g.amounts.min, Line(g.amounts.max, Tail(g, m)));
      LineUnique(max, Tail(f, n), g.amounts.max, Tail(g, m));
  }

  /** No two orders share a challenge, whatever newlines the payment text may hold. */
  lemma ChallengeInjective(f: Fields, n: seq<Byte>, g: Fields, m: seq<Byte>)
    requires SingleLines(f) && SingleLines(g) && Challenge(f, n) == Challenge(g, m)
    ensures f == g && n == m
  {
    TagsAreLines(VariantOf(f), VariantOf(g));
    TagsAreLines(VariantOf(g), VariantOf(f));
    var f3, g3 := Line(f.fiatCode, AmountLines(f, n)), Line(g.fiatCode, AmountLines(g, m));
    var f2, g2 := Line(f.kind, f3), Line(g.kind, g3);
    LineUnique(DomainTag(VariantOf(f)), Line(f.mostroPubkey, f2), DomainTag(VariantOf(g)), Line(g.mostroPubkey, g2));
    LineUnique(f.mostroPubkey, f2, g.mostroPubkey, g2);
    LineUnique(f.kind, f3, g.kind, g3);
    LineUnique(f.fiatCode, AmountLines(f, n), g.fiatCode, AmountLines(g, m));
    AmountsInjective(f, n, g, m);
    TailInjective(f, n, g, m);
  }

  // A newline in another field lets two orders share a challenge: cutting the fields anew at the newlines,
  // with what is left over going into the base, gives single lines and the same text.

  function Lines(fields: seq<string>, rest: string): string {
    if fields == [] then rest else Line(fields[0], Lines(fields[1..], rest))
  }

  /** The fields cut anew, and the base that takes what is left over. */
  function Recut(fields: seq<string>, base: string): (r: (seq<string>, string))
    ensures |r.0| == |fields| && forall k | 0 <= k < |fields| :: OneLine(r.0[k])
    decreases |fields|
  {
    if fields == [] then ([], base)
    else if OneLine(fields[0]) then
      var rest := Recut(fields[1..], base);
      ([fields[0]] + rest.0, rest.1)
    else
      var k := IndexOf(fields[0], '\n');
      var more := [fields[0][k + 1..]] + fields[1..];
      var rest := Recut(more[..|fields| - 1], Line(more[|fields| - 1], base));
      ([fields[0][..k]] + rest.0, rest.1)
  }

  lemma LineOfLine(a: string, b: string, rest: string)
    ensures Line(Line(a, b), rest) == Line(a, Line(b, rest))
  {
  }

  lemma {:induction false} LinesOfLast(fields: seq<string>, last: string, rest: string)
    ensures Lines(fields + [last], rest) == Lines(fields, Line(last, rest))
  {
    if fields != [] {
      assert (fields + [last])[1..] == fields[1..] + [last];
      LinesOfLast(fields[1..], last, rest);
    }
  }

  lemma LinesOfFirst(first: string, fields: seq<string>, rest: string)
    ensures Lines([first] + fields, rest) == Line(first, Lines(fields, rest))
  {
  }

  /** Cutting the first field in two moves the last one into the base. */
  lemma CutFirst(
    head: string, tail: string, others: seq<string>, kept: seq<string>, last: string, base: string, enc: string)
    requires [tail] + others == kept + [last]
    ensures Lines([Line(head, tail)] + others, Line(base, enc)) == Line(head, Lines(kept, Line(Line(last, base), enc)))
  {
    LinesOfFirst(Line(head, tail), others, Line(base, enc));
    LineOfLine(head, tail, Lines(others, Line(base, enc)));
    LinesOfFirst(tail, others, Line(base, enc));
    LinesOfLast(kept, last, Line(base, enc));
    LineOfLine(last, base, enc);
  }

  lemma {:induction false} RecutKeepsText(fields: seq<string>, base: string, enc: string)
    ensures Lines(Recut(fields, base).0, Line(Recut(fields, base).1, enc)) == Lines(fields, Line(base, enc))
    decreases |fields|
  {
    if fields == [] {
    } else if OneLine(fields[0]) {
      var rest := Recut(fields[1..], base);
      RecutKeepsText(fields[1..], base, enc);
      LinesOfFirst(fields[0], rest.0, Line(rest.1, enc));
    } else {
      var head, tail := Cut(fields[0], '\n');
      var more := [tail] + fields[1..];
      var kept, last := more[..|fields| - 1], more[|fields| - 1];
      var rest := Recut(kept, Line(last, base));
      RecutKeepsText(kept, Line(last, base), enc);
      CutKeepsText(fields, base, enc, head, tail, kept, last, rest.0, rest.1);
    }
  }

  /** Cutting the first field at its first newline leaves the text as it is, if recutting the rest does. */
  lemma CutKeepsText(
    fields: seq<string>, base: string, enc: string, head: string, tail: string, kept: seq<string>, last: string,
    rest: seq<string>, restBase: string)
    requires fields != [] && fields[0] == Line(head, tail) && [tail] + fields[1..] == kept + [last]
    requires Lines(rest, Line(restBase, enc)) == Lines(kept, Line(Line(last, base), enc))
    ensures Lines([head] + rest, Line(restBase, enc)) == Lines(fields, Line(base, enc))
  {
    CutFirst(head, tail, fields[1..], kept, last, base, enc);
    LinesOfFirst(head, rest, Line(restBase, enc));
    assert [Line(head, tail)] + fields[1..] == fields;
  }

  function FieldList(f: Fields): seq<string> {
    [f.mostroPubkey, f.kind, f.fiatCode]
    + (match f.amounts case Single(amount) => [amount] case Range(min, max) => [min, max]) + [f.premium]
  }

  function FromList(v: Variant, fields: seq<string>, base: string): (f: Fields)
    requires |fields| == if v == V1 then 5 else 6
    ensures VariantOf(f) == v && FieldList(f) == fields && f.base == base
  {
    Fields(fields[0], fields[1], fields[2], if v == V1 then Single(fields[3]) else Range(fields[3], fields[4]),
           fields[|fields| - 1], base)
  }

  lemma LinesOfThree(a: string, b: string, c: string, fields: seq<string>, rest: string)
    ensures Lines([a, b, c] + fields, rest) == Line(a, Line(b, Line(c, Lines(fields, rest))))
  {
    LinesOfFirst(c, fields, rest);
    LinesOfFirst(b, [c] + fields, rest);
    LinesOfFirst(a, [b] + ([c] + fields), rest);
    assert [a, b, c] + fields == [a] + ([b] + ([c] + fields));
  }

  lemma LinesOfTwo(a: string, b: string, rest: string)
    ensures Lines([a, b], rest) == Line(a, Line(b, rest))
  {
    LinesOfFirst(b, [], rest);
    LinesOfFirst(a, [b] + [], rest);
    assert [a, b] == [a] + ([b] + []);
  }

  lemma LinesOfAmounts(f: Fields, rest: string)
    ensures Lines((match f.amounts case Single(amount) => [amount] case Range(min, max) => [min, max]) + [f.premium],
      rest)
         == match f.amounts
            case Single(amount) => Line(amount, Line(f.premium, rest))
            case Range(min, max) => Line(min, Line(max, Line(f.premium, rest)))
  {
    match f.amounts
    case Single(amount) =>
      assert [amount] + [f.premium] == [amount, f.premium];
      LinesOfTwo(amount, f.premium, rest);
    case Range(min, max) =>
      assert [min, max] + [f.premium] == [min, max, f.premium] + [];
      LinesOfThree(min, max, f.premium, [], rest);
  }

  lemma ChallengeIsLines(f: Fields, nonce: seq<Byte>)
    ensures Challenge(f, nonce) == Line(DomainTag(VariantOf(f)), Lines(FieldList(f), Line(f.base, ToBase64(nonce))))
  {
    var rest := Line(f.base, ToBase64(nonce));
    var more := (match f.amounts case Single(amount) => [amount] case Range(min, max) => [min, max]) + [f.premium];
    assert FieldList(f) == [f.mostroPubkey, f.kind, f.fiatCode] + more;
    LinesOfThree(f.mostroPubkey, f.kind, f.fiatCode, more, rest);
    LinesOfAmounts(f, rest);
  }

  lemma SingleLinesOfList(f: Fields)
    ensures SingleLines(f) <==> forall k | 0 <= k < |FieldList(f)| :: OneLine(FieldList(f)[k])
  {
    var list := FieldList(f);
    assert list[0] == f.mostroPubkey && list[1] == f.kind && list[2] == f.fiatCode && list[|list| - 1] == f.premium;
    if f.amounts.Single? {
      assert list[3] == f.amounts.amount;
    } else {
      assert list[3] == f.amounts.min && list[4] == f.amounts.max;
    }
  }

  /** Exactly the single-line orders are told apart from every other single-line order by their challenge. */
  lemma ChallengeIsExact(f: Fields, nonce: seq<Byte>)
    ensures SingleLines(f) <==> forall g | SingleLines(g) && Challenge(g, nonce) == Challenge(f, nonce) :: g == f
  {
    if SingleLines(f) {
      forall g | SingleLines(g) && Challenge(g, nonce) == Challenge(f, nonce)
        ensures g == f
      {
        ChallengeInjective(g, nonce, f, nonce);
      }
    } else {
      var cut := Recut(FieldList(f), f.base);
      var g := FromList(VariantOf(f), cut.0, cut.1);
      RecutKeepsText(FieldList(f), f.base, ToBase64(nonce));
      ChallengeIsLines(f, nonce);
      ChallengeIsLines(g, nonce);
      SingleLinesOfList(g);
      assert SingleLines(g) && Challenge(g, nonce) == Challenge(f, nonce) && g != f;
    }
  }

  lemma NewlinesCollide()
    ensures var f, g := Fields("m", "buy", "A\nB", Single("C"), "1", ""),
      Fields("m", "buy", "A", Single("B"), "C", "1\n");
            f != g && Challenge(f, []) == Challenge(g, [])
  {
  }

  // --- tokens ---

  /** Signatures over a digest of the challenge; `nonce` stands for the randomness of signing. */
  datatype Signer = Signer(
    pubkey: string -> string,
    digest: string -> string,
    sign: (string, string, nat) -> seq<Byte>,
    verify: (seq<Byte>, string, string) -> bool)

  ghost predicate LawfulSigner(s: Signer) {
    forall digest, secret, nonce :: |s.sign(digest, secret, nonce)| == 64
      && s.verify(s.sign(digest, secret, nonce), digest, s.pubkey(secret))
  }

  function BuildToken(s: Signer, f: Fields, secret: string, nonce: seq<Byte>, aux: nat): string {
    PrintToken(Parsed(VariantOf(f), nonce, s.sign(s.digest(Challenge(f, nonce)), secret, aux)))
  }

  predicate VerifyToken(s: Signer, f: Fields, token: string, identity: string) {
    var parsed := ParseToken(token);
    && parsed.Some? && parsed.value.variant == VariantOf(f)
    && s.verify(parsed.value.sig, s.digest(Challenge(f, parsed.value.nonce)), identity)
  }

  /** A built token verifies against the fields it was built from; an empty nonce would leave it unreadable. */
  lemma BuiltTokenVerifies(s: Signer, f: Fields, secret: string, nonce: seq<Byte>, aux: nat)
    requires LawfulSigner(s)
    ensures VerifyToken(s, f, BuildToken(s, f, secret, nonce, aux), s.pubkey(secret)) <==> nonce != []
  {
    ParseUndoesPrint(Parsed(VariantOf(f), nonce, s.sign(s.digest(Challenge(f, nonce)), secret, aux)));
  }

  lemma BuiltIsToken(s: Signer, f: Fields, secret: string, nonce: seq<Byte>, aux: nat)
    ensures IsToken(BuildToken(s, f, secret, nonce, aux)) && ',' !in BuildToken(s, f, secret, nonce, aux)
  {
    PrintedIsToken(Parsed(VariantOf(f), nonce, s.sign(s.digest(Challenge(f, nonce)), secret, aux)));
  }

  // --- building and verifying a binding ---

  /** Number printing: `canonical` is what a number read from text prints as. */
  datatype Spelling = Spelling(show: real -> string, canonical: string -> string)

  ghost predicate LawfulNumerals(n: Spelling, r: Reader) {
    && (forall x :: n.canonical(n.show(x)) == n.show(x))
    && (forall v | IsIntegerText(v) :: n.show(r.integer(v)) == n.canonical(v))
  }

  datatype Price = Fixed(amount: real) | Between(min: real, max: real)

  datatype Params = Params(
    mostroPubkey: string, kind: string, fiatCode: string, premium: real, paymentMethod: string, price: Price)

  function FieldsOf(n: Spelling, p: Params): Fields {
    Fields(p.mostroPubkey, p.kind, p.fiatCode,
           match p.price case Fixed(a) => Single(n.show(a)) case Between(lo, hi) => Range(n.show(lo), n.show(hi)),
           n.show(p.premium), CanonicalBase(p.paymentMethod))
  }

  datatype Built = Built(token: string, pm: string)

  function BuildOrderBinding(s: Signer, n: Spelling, p: Params, secret: string, nonce: seq<Byte>, aux: nat): Built {
    var f := FieldsOf(n, p);
    var token := BuildToken(s, f, secret, nonce, aux);
    Built(token, InsertToken(f.base, token))
  }

  datatype Verdict = Bound(base: string, token: string) | NoToken | MultiToken | SigMismatch | BadFields

  predicate Named(name: string, tag: seq<string>) {
    tag != [] && tag[0] == name
  }

  function TagValues(tags: seq<seq<string>>, name: string): seq<string> {
    if tags == [] then []
    else TagValues(tags[..|tags| - 1], name) + if Named(name, tags[|tags| - 1]) then tags[|tags| - 1][1..] else []
  }

  /** The token among the payment segments, or why there is none. */
  function TokenVerdict(segments: seq<string>): Verdict {
    var tokens := Filter(IsToken, segments);
    if |tokens| == 0 then NoToken
    else if |tokens| > 1 then MultiToken
    else Bound(Join(Filter(IsPlain, segments), ','), tokens[0])
  }

  function Judge(s: Signer, f: Fields, v: Verdict, identity: string): Verdict
    requires v.Bound?
  {
    if VerifyToken(s, f, v.token, identity) then v else SigMismatch
  }

  function AmountsIn(n: Spelling, order: M.SmallOrder): Amounts {
    if order.minAmount.Some?
      && order.maxAmount.Some? then Range(n.show(order.minAmount.value), n.show(order.maxAmount.value))
    else Single(n.show(order.fiatAmount))
  }

  function AmountsTagged(n: Spelling, fa: seq<string>): Amounts
    requires fa != []
  {
    if |fa| >= 2 then Range(n.canonical(fa[0]), n.canonical(fa[1])) else Single(n.canonical(fa[0]))
  }

  function FieldsTagged(
    n: Spelling, pubkey: string, k: seq<string>, f: seq<string>, premium: seq<string>, fa: seq<string>,
    base: string): Fields
    requires k != [] && f != [] && premium != [] && fa != []
  {
    Fields(pubkey, k[0], f[0], AmountsTagged(n, fa), n.canonical(premium[0]), base)
  }

  function VerifyOrderBinding(
    s: Signer, n: Spelling, pubkey: string, tags: seq<seq<string>>, identity: string): Verdict {
    var v := TokenVerdict(TagValues(tags, "pm"));
    if !v.Bound? then v
    else
      var k, f, premium, fa :=
        TagValues(tags, "k"), TagValues(tags, "f"), TagValues(tags, "premium"), TagValues(tags, "fa");
      if k == [] || f == [] || premium == [] || fa == [] then BadFields
      else
        Judge(s, FieldsTagged(n, pubkey, k, f, premium, fa, v.base), v, identity)
  }

  function VerifyOrderBindingFromOrder(
    s: Signer, n: Spelling, order: M.SmallOrder, mostroPubkey: string, identity: string): Verdict {
    var v := TokenVerdict(SplitPm(order.paymentMethod));
    if !v.Bound? then v
    else if order.kind.None? || order.fiatCode == "" then BadFields
    else
      Judge(s, Fields(mostroPubkey, order.kind.value, order.fiatCode, AmountsIn(n, order), n.show(order.premium),
        v.base), v, identity)
  }

  /** The tags under which the daemon publishes the order: its own fields, and the payment text split at commas. */
  ghost predicate Publishes(n: Spelling, p: Params, pm: string, tags: seq<seq<string>>) {
    && TagValues(tags, "pm") == SplitPm(pm)
    && TagValues(tags, "k") == [p.kind] && TagValues(tags, "f") == [p.fiatCode]
      && TagValues(tags, "premium") == [n.show(p.premium)]
    && TagValues(tags, "fa") == PriceTexts(n, p.price)
  }

  lemma TokenVerdictOfInserted(raw: string, token: string)
    requires IsToken(token) && ',' !in token
    ensures TokenVerdict(SplitPm(InsertToken(CanonicalBase(raw), token))) == Bound(CanonicalBase(raw), token)
  {
    TokenIsFound(raw, token);
  }

  function PriceTexts(n: Spelling, price: Price): (fa: seq<string>)
    ensures fa != []
  {
    match price
    case Fixed(a) => [n.show(a)]
    case Between(lo, hi) => [n.show(lo), n.show(hi)]
  }

  lemma FieldsAsTagged(n: Spelling, r: Reader, p: Params)
    requires LawfulNumerals(n, r)
    ensures FieldsTagged(n, p.mostroPubkey, [p.kind], [p.fiatCode], [n.show(p.premium)], PriceTexts(n, p.price),
      CanonicalBase(p.paymentMethod))
         == FieldsOf(n, p)
  {
  }

  lemma PublishedFields(
    s: Signer, n: Spelling, r: Reader, p: Params, pm: string, token: string, tags: seq<seq<string>>, identity: string)
    requires LawfulNumerals(n, r) && Publishes(n, p, pm, tags)
    requires TokenVerdict(SplitPm(pm)) == Bound(CanonicalBase(p.paymentMethod), token)
    ensures VerifyOrderBinding(s, n, p.mostroPubkey, tags, identity)
         == Judge(s, FieldsOf(n, p), Bound(CanonicalBase(p.paymentMethod), token), identity)
  {
    FieldsAsTagged(n, r, p);
  }

  /** A binding built by the maker is accepted by a viewer who reads it from the published order. */
  lemma BuiltBindingIsAccepted(
    s: Signer, n: Spelling, r: Reader, p: Params, secret: string, nonce: seq<Byte>, aux: nat, tags: seq<seq<string>>)
    requires LawfulSigner(s) && LawfulNumerals(n, r) && nonce != []
    requires Publishes(n, p, BuildOrderBinding(s, n, p, secret, nonce, aux).pm, tags)
    ensures VerifyOrderBinding(s, n, p.mostroPubkey, tags, s.pubkey(secret))
         == Bound(CanonicalBase(p.paymentMethod), BuildOrderBinding(s, n, p, secret, nonce, aux).token)
  {
    var f := FieldsOf(n, p);
    var token := BuildToken(s, f, secret, nonce, aux);
    BuiltIsToken(s, f, secret, nonce, aux);
    TokenVerdictOfInserted(p.paymentMethod, token);
    PublishedFields(s, n, r, p, InsertToken(CanonicalBase(p.paymentMethod), token), token, tags, s.pubkey(secret));
    BuiltTokenVerifies(s, f, secret, nonce, aux);
  }

  // --- the two readings of an order agree ---

  ghost predicate OnlyTag(tags: seq<seq<string>>, name: string, k: nat) {
    k < |tags| && Named(name, tags[k]) && forall j | 0 <= j < |tags| && j != k :: !Named(name, tags[j])
  }

  lemma {:induction false} NoTagNoValues(tags: seq<seq<string>>, name: string)
    requires forall j | 0 <= j < |tags| :: !Named(name, tags[j])
    ensures TagValues(tags, name) == []
  {
    if tags != [] {
      NoTagNoValues(tags[..|tags| - 1], name);
    }
  }

  lemma {:induction false} OnlyTagValues(tags: seq<seq<string>>, name: string, k: nat)
    requires OnlyTag(tags, name, k)
    ensures TagValues(tags, name) == tags[k][1..]
  {
    var rest := tags[..|tags| - 1];
    if k == |tags| - 1 {
      NoTagNoValues(rest, name);
    } else {
      OnlyTagValues(rest, name, k);
    }
  }

  /** A part of the order that only tags of one name touch. */
  ghost predicate OwnedBy<X(!new)>(r: Reader, part: M.SmallOrder -> X, name: string) {
    forall order, tag | !Named(name, tag) :: part(ApplyTag(r, order, tag)) == part(order)
  }

  lemma {:induction false} UntouchedPart<X(!new)>(
    r: Reader, part: M.SmallOrder -> X, name: string, tags: seq<seq<string>>)
    requires OwnedBy(r, part, name) && forall j | 0 <= j < |tags| :: !Named(name, tags[j])
    ensures part(TagsApplied(r, tags)) == part(Blank)
  {
    if tags != [] {
      UntouchedPart(r, part, name, tags[..|tags| - 1]);
    }
  }

  /** Such a part is set by the only tag of that name. */
  lemma {:induction false} OnlyTagSets<X(!new)>(
    r: Reader, part: M.SmallOrder -> X, name: string, tags: seq<seq<string>>, k: nat)
    returns (before: M.SmallOrder)
    requires OwnedBy(r, part, name) && OnlyTag(tags, name, k)
    ensures part(before) == part(Blank) && part(TagsApplied(r, tags)) == part(ApplyTag(r, before, tags[k]))
  {
    var rest := tags[..|tags| - 1];
    if k == |tags| - 1 {
      UntouchedPart(r, part, name, rest);
      before := TagsApplied(r, rest);
    } else {
      before := OnlyTagSets(r, part, name, rest, k);
    }
  }

  /** Where the tags of a well-formed order are: each once, with integer amounts and plain payment segments. */
  datatype Places = Places(kind: nat, fiat: nat, amount: nat, payment: nat, premium: nat)

  ghost predicate WellFormed(r: Reader, tags: seq<seq<string>>, at: Places) {
    && OnlyTag(tags, "k", at.kind) && |tags[at.kind]| >= 2 && r.kind(tags[at.kind][1]) == Some(tags[at.kind][1])
    && OnlyTag(tags, "f", at.fiat) && |tags[at.fiat]| >= 2 && tags[at.fiat][1] != ""
    && OnlyTag(tags, "premium", at.premium) && |tags[at.premium]| >= 2 && IsIntegerText(tags[at.premium][1])
    && OnlyTag(tags, "fa", at.amount) && |tags[at.amount]| >= 2 && IsIntegerText(tags[at.amount][1])
    && (|tags[at.amount]| >= 3 ==> IsIntegerText(tags[at.amount][2]))
    && OnlyTag(tags, "pm", at.payment) && forall s | s in tags[at.payment][1..] :: s != "" && ',' !in s
  }

  lemma KindOf(r: Reader, tags: seq<seq<string>>, k: nat)
    requires OnlyTag(tags, "k", k) && |tags[k]| >= 2
    ensures TagsApplied(r, tags).kind == r.kind(tags[k][1])
  {
    var _ := OnlyTagSets(r, (o: M.SmallOrder) => o.kind, "k", tags, k);
  }

  lemma FiatOf(r: Reader, tags: seq<seq<string>>, k: nat)
    requires OnlyTag(tags, "f", k) && |tags[k]| >= 2
    ensures TagsApplied(r, tags).fiatCode == tags[k][1]
  {
    var _ := OnlyTagSets(r, (o: M.SmallOrder) => o.fiatCode, "f", tags, k);
  }

  lemma PaymentOf(r: Reader, tags: seq<seq<string>>, k: nat)
    requires OnlyTag(tags, "pm", k)
    ensures TagsApplied(r, tags).paymentMethod == Join(tags[k][1..], ',')
  {
    var _ := OnlyTagSets(r, (o: M.SmallOrder) => o.paymentMethod, "pm", tags, k);
  }

  lemma PremiumOf(r: Reader, tags: seq<seq<string>>, k: nat)
    requires OnlyTag(tags, "premium", k) && |tags[k]| >= 2 && IsIntegerText(tags[k][1])
    ensures TagsApplied(r, tags).premium == r.integer(tags[k][1])
  {
    var _ := OnlyTagSets(r, (o: M.SmallOrder) => o.premium, "premium", tags, k);
  }

  lemma NoDotInInteger(v: string)
    requires IsIntegerText(v)
    ensures '.' !in v
  {
    forall k | 0 <= k < |v|
      ensures v[k] != '.'
    {
      if v[0] != '-' {
        assert IsDigit(v[k]);
      } else if k > 0 {
        assert IsDigit(v[1..][k - 1]);
      }
    }
  }

  lemma AmountsOf(r: Reader, tags: seq<seq<string>>, k: nat)
    requires OnlyTag(tags, "fa", k) && |tags[k]| >= 2 && IsIntegerText(tags[k][1])
    requires |tags[k]| >= 3 ==> IsIntegerText(tags[k][2])
    ensures var o := TagsApplied(r, tags);
            if |tags[k]| >= 3 then o.minAmount == Some(r.integer(tags[k][1]))
              && o.maxAmount == Some(r.integer(tags[k][2]))
            else o.minAmount == None && o.fiatAmount == r.integer(tags[k][1])
  {
    NoDotInInteger(tags[k][1]);
    var _ := OnlyTagSets(r, (o: M.SmallOrder) => (o.minAmount, o.maxAmount, o.fiatAmount), "fa", tags, k);
  }

  /** The order and the tags name the same fields. */
  ghost predicate SameFields(n: Spelling, order: M.SmallOrder, tags: seq<seq<string>>) {
    && SplitPm(order.paymentMethod) == TagValues(tags, "pm")
    && TagValues(tags, "k") != [] && order.kind == Some(TagValues(tags, "k")[0])
    && TagValues(tags, "f") != [] && order.fiatCode == TagValues(tags, "f")[0] && order.fiatCode != ""
    && TagValues(tags, "premium") != [] && n.show(order.premium) == n.canonical(TagValues(tags, "premium")[0])
    && TagValues(tags, "fa") != [] && AmountsIn(n, order) == AmountsTagged(n, TagValues(tags, "fa"))
  }

  lemma SameFieldsAgree(
    s: Signer, n: Spelling, order: M.SmallOrder, pubkey: string, tags: seq<seq<string>>, identity: string)
    requires SameFields(n, order, tags)
    ensures VerifyOrderBindingFromOrder(s, n, order, pubkey, identity)
      == VerifyOrderBinding(s, n, pubkey, tags, identity)
  {
  }

  lemma AmountsAgree(n: Spelling, r: Reader, tags: seq<seq<string>>, k: nat)
    requires LawfulNumerals(n, r) && OnlyTag(tags, "fa", k) && |tags[k]| >= 2 && IsIntegerText(tags[k][1])
    requires |tags[k]| >= 3 ==> IsIntegerText(tags[k][2])
    ensures TagValues(tags, "fa") != [] && AmountsIn(n, TagsApplied(r, tags)) == AmountsTagged(n, TagValues(tags, "fa"))
  {
    AmountsOf(r, tags, k);
    OnlyTagValues(tags, "fa", k);
  }

  lemma PaymentAgrees(r: Reader, tags: seq<seq<string>>, k: nat)
    requires OnlyTag(tags, "pm", k) && forall s | s in tags[k][1..] :: s != "" && ',' !in s
    ensures SplitPm(TagsApplied(r, tags).paymentMethod) == TagValues(tags, "pm")
  {
    PaymentOf(r, tags, k);
    OnlyTagValues(tags, "pm", k);
    SplitOfJoined(tags[k][1..]);
  }

  /** On well-formed integer tags the parsed order gives the same verdict as the event itself. */
  lemma ReadingsAgree(
    s: Signer, n: Spelling, r: Reader, pubkey: string, tags: seq<seq<string>>, at: Places, identity: string)
    requires LawfulNumerals(n, r) && WellFormed(r, tags, at)
    ensures VerifyOrderBindingFromOrder(s, n, TagsApplied(r, tags), pubkey, identity)
      == VerifyOrderBinding(s, n, pubkey, tags, identity)
  {
    WellFormedFields(n, r, tags, at);
    SameFieldsAgree(s, n, TagsApplied(r, tags), pubkey, tags, identity);
  }

  lemma WellFormedFields(n: Spelling, r: Reader, tags: seq<seq<string>>, at: Places)
    requires LawfulNumerals(n, r) && WellFormed(r, tags, at)
    ensures SameFields(n, TagsApplied(r, tags), tags)
  {
    KindOf(r, tags, at.kind);
    FiatOf(r, tags, at.fiat);
    PremiumOf(r, tags, at.premium);
    PaymentAgrees(r, tags, at.payment);
    AmountsAgree(n, r, tags, at.amount);
    OnlyTagValues(tags, "k", at.kind);
    OnlyTagValues(tags, "f", at.fiat);
    OnlyTagValues(tags, "premium", at.premium);
  }
}
