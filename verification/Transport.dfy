/** The direct-message transport: a signed tuple inside an encrypted event. */
module Transport {
  import opened Wrappers
  import opened Json
  import M = Messages
  import MessageCodec

  /** Keys, signatures, encryption and JSON text. `nonce` stands for the randomness a step draws. */
  datatype Crypto = Crypto(
    pubkey: string -> string,
    digest: string -> string,
    sign: (string, string, nat) -> string,
    verify: (string, string, string) -> bool,
    conversationKey: (string, string) -> string,
    encrypt: (string, string, nat) -> Option<string>,
    decrypt: (string, string) -> Option<string>,
    stringify: Json -> string,
    parse: string -> Option<Json>,
    holds: real -> bool)

  /** Every number in the value is one the program can hold. */
  ghost predicate Holdable(c: Crypto, j: Json) {
    match j
    case Num(n) => c.holds(n)
    case Arr(items) => forall k | 0 <= k < |items| :: Holdable(c, items[k])
    case Obj(_, at) => forall name | name in at :: Holdable(c, at[name])
    case _ => true
  }

  /** Signatures verify, both sides derive one conversation key, decryption undoes encryption,
      and parsing undoes printing of values whose numbers the program can hold. */
  ghost predicate LawfulCrypto(c: Crypto) {
    && (forall d, secret, nonce :: c.verify(c.sign(d, secret, nonce), d, c.pubkey(secret)))
    && (forall a, b :: c.conversationKey(a, c.pubkey(b)) == c.conversationKey(b, c.pubkey(a)))
    && (forall text, key, nonce ::
          c.encrypt(text, key, nonce).Some? ==> c.decrypt(c.encrypt(text, key, nonce).value, key) == Some(text))
    && (forall j | Holdable(c, j) :: c.parse(c.stringify(j)) == Some(j))
  }

  const DirectMessage: nat := 14

  function SignMessage(c: Crypto, text: string, secret: string, nonce: nat): string {
    c.sign(c.digest(text), secret, nonce)
  }

  predicate VerifyMessage(c: Crypto, text: string, pubkey: string, sig: string) {
    c.verify(sig, c.digest(text), pubkey)
  }

  /** The domain tag and the trade key bind an identity proof to one message of one trade. */
  function IdentityProofPayload(tradePubkey: string, text: string): string {
    "mostro-transport-v2-identity:" + tradePubkey + ":" + text
  }

  datatype WrapParams = WrapParams(
    identitySecret: string, tradeSecret: string, receiverPubkey: string, signed: bool, nonce: nat)

  function TradeSig(c: Crypto, codec: Codec<M.Message>, m: M.Message, p: WrapParams): Option<string> {
    if p.signed then Some(SignMessage(c, c.stringify(codec.write(m)), p.tradeSecret, p.nonce)) else None
  }

  function IdentityProof(c: Crypto, codec: Codec<M.Message>, m: M.Message, p: WrapParams): Json {
    var trade, identity := c.pubkey(p.tradeSecret), c.pubkey(p.identitySecret);
    if identity == trade then Null
    else
      var payload := IdentityProofPayload(trade, c.stringify(codec.write(m)));
      Arr([Str(identity), Str(SignMessage(c, payload, p.identitySecret, p.nonce + 1))])
  }

  /** The message, the trade signature, and the identity proof. */
  function InnerTuple(c: Crypto, codec: Codec<M.Message>, m: M.Message, p: WrapParams): (items: seq<Json>)
    ensures |items| == 3
  {
    [codec.write(m), OrNull(TradeSig(c, codec, m, p)), IdentityProof(c, codec, m, p)]
  }

  /** The encrypted content; encryption refuses texts of a length it cannot pad. */
  function Wrap(c: Crypto, codec: Codec<M.Message>, m: M.Message, p: WrapParams): Option<string> {
    c.encrypt(c.stringify(Arr(InnerTuple(c, codec, m, p))), c.conversationKey(p.tradeSecret, p.receiverPubkey),
      p.nonce + 2)
  }

  datatype Event = Event(kind: nat, pubkey: string, content: string)

  datatype Unwrapped = Unwrapped(message: M.Message, signature: Option<string>, sender: string, identity: string)

  /** The inner checks on a decrypted tuple. */
  function OpenTuple(
    c: Crypto, codec: Codec<M.Message>, items: seq<Json>, sender: string, requireSignature: bool): Read<Unwrapped>
    requires |items| == 3
  {
    var text := c.stringify(items[0]);
    if requireSignature && !items[1].Str? then Err("missing required trade signature")
    else if items[1].Str? && !VerifyMessage(c, text, sender, items[1].text) then Err("trade signature does not verify")
    else if items[2].Arr?
      && !ProvesIdentity(c, items[2].items, sender, text) then Err("identity signature does not verify")
    else
      var message :- codec.read(items[0]);
      Ok(Unwrapped(message, if items[1].Str? then Some(items[1].text) else None, sender,
                   if items[2].Arr? then items[2].items[0].text else sender))
  }

  predicate ProvesIdentity(c: Crypto, proof: seq<Json>, sender: string, text: string) {
    && |proof| >= 2 && proof[0].Str? && proof[1].Str?
    && VerifyMessage(c, IdentityProofPayload(sender, text), proof[0].text, proof[1].text)
  }

  /** None when the content does not open with the receiver's key. */
  function Unwrap(
    c: Crypto, codec: Codec<M.Message>, event: Event, receiverSecret: string,
    requireSignature: bool): Read<Option<Unwrapped>> {
    if event.kind != DirectMessage then Err("event is not a direct message")
    else
      var plain := c.decrypt(event.content, c.conversationKey(receiverSecret, event.pubkey));
      if plain.None? then Ok(None)
      else
        var tuple := c.parse(plain.value);
        if tuple.None? || !tuple.value.Arr? || |tuple.value.items| != 3 then Err("malformed direct-message tuple")
        else
          var u :- OpenTuple(c, codec, tuple.value.items, event.pubkey, requireSignature);
          Ok(Some(u))
  }

  ghost predicate Opened(c: Crypto, codec: Codec<M.Message>, m: M.Message, p: WrapParams, u: Unwrapped) {
    u == Unwrapped(m, TradeSig(c, codec, m, p), c.pubkey(p.tradeSecret), c.pubkey(p.identitySecret))
  }

  lemma TupleOpens(c: Crypto, codec: Codec<M.Message>, m: M.Message, p: WrapParams, requireSignature: bool)
    requires LawfulCrypto(c) && Lawful(codec)
    ensures var result := OpenTuple(c, codec, InnerTuple(c, codec, m, p), c.pubkey(p.tradeSecret), requireSignature);
            && (result.Ok? <==> codec.good(m) && (requireSignature ==> p.signed))
            && (result.Ok? ==> Opened(c, codec, m, p, result.value))
  {
    assert Inverts(codec.read(codec.write(m)), m, codec.good(m));
  }

  lemma TupleIsHoldable(c: Crypto, codec: Codec<M.Message>, m: M.Message, p: WrapParams)
    requires Holdable(c, codec.write(m))
    ensures Holdable(c, Arr(InnerTuple(c, codec, m, p)))
  {
  }

  /** Both sides derive one key, so what the sender printed is what the receiver parses. */
  lemma TupleArrives(c: Crypto, j: Json, tradeSecret: string, receiverSecret: string, nonce: nat)
    requires LawfulCrypto(c) && Holdable(c, j)
    ensures var sealed := c.encrypt(c.stringify(j), c.conversationKey(tradeSecret, c.pubkey(receiverSecret)), nonce);
            sealed.Some? ==>
              var plain := c.decrypt(sealed.value, c.conversationKey(receiverSecret, c.pubkey(tradeSecret)));
              plain.Some? && c.parse(plain.value) == Some(j)
  {
  }

  lemma UnwrapOpens(
    c: Crypto, codec: Codec<M.Message>, event: Event, receiverSecret: string, requireSignature: bool, items: seq<Json>)
    requires event.kind == DirectMessage && |items| == 3
    requires var plain := c.decrypt(event.content, c.conversationKey(receiverSecret, event.pubkey));
             plain.Some? && c.parse(plain.value) == Some(Arr(items))
    ensures var inner, result :=
      OpenTuple(c, codec, items, event.pubkey, requireSignature),
      Unwrap(c, codec, event, receiverSecret, requireSignature);
            (result.Ok? <==> inner.Ok?) && (inner.Ok? ==> result.value == Some(inner.value))
  {
  }

  /** What the receiver unwraps is the message that was wrapped, from the trade key, with the identity proven and
      a signature exactly when signing was on; a message beyond the wire limits is refused. */
  lemma UnwrapUndoesWrap(
    c: Crypto, codec: Codec<M.Message>, m: M.Message, p: WrapParams, receiverSecret: string, requireSignature: bool)
    requires LawfulCrypto(c) && Lawful(codec) && p.receiverPubkey == c.pubkey(receiverSecret)
    requires Wrap(c, codec, m, p).Some? && Holdable(c, codec.write(m))
    ensures var result :=
      Unwrap(c, codec, Event(DirectMessage, c.pubkey(p.tradeSecret), Wrap(c, codec, m, p).value), receiverSecret,
      requireSignature);
            && (result.Ok? <==> codec.good(m) && (requireSignature ==> p.signed))
            && (result.Ok? ==> result.value.Some? && Opened(c, codec, m, p, result.value.value))
  {
    var items := InnerTuple(c, codec, m, p);
    var event := Event(DirectMessage, c.pubkey(p.tradeSecret), Wrap(c, codec, m, p).value);
    TupleIsHoldable(c, codec, m, p);
    TupleArrives(c, Arr(items), p.tradeSecret, receiverSecret, p.nonce + 2);
    UnwrapOpens(c, codec, event, receiverSecret, requireSignature, items);
    TupleOpens(c, codec, m, p, requireSignature);
  }

  /** So every message within the wire limits travels unchanged over the wire codec. */
  lemma MessageTravels(c: Crypto, m: M.Message, p: WrapParams, receiverSecret: string)
    requires LawfulCrypto(c) && p.receiverPubkey == c.pubkey(receiverSecret) && MessageCodec.WellFormed(m)
    requires Wrap(c, MessageCodec.WireCodec(), m, p).Some? && Holdable(c, MessageCodec.WireCodec().write(m))
    ensures var codec := MessageCodec.WireCodec();
            var event := Event(DirectMessage, c.pubkey(p.tradeSecret), Wrap(c, codec, m, p).value);
            Unwrap(c, codec, event, receiverSecret, false)
            == Ok(Some(Unwrapped(m, TradeSig(c, codec, m, p), c.pubkey(p.tradeSecret), c.pubkey(p.identitySecret))))
  {
    var codec := MessageCodec.WireCodec();
    MessageCodec.WireCodecIsLawful();
    assert codec.good(m);
    UnwrapUndoesWrap(c, codec, m, p, receiverSecret, false);
  }

  /** Whatever opens is authentic: the message is within the limits, a reported signature verifies over the message text
      under the sender's key, and a foreign identity is reported only with a proof naming the sender's key and that
      text. */
  lemma OpenedIsAuthentic(
    c: Crypto, codec: Codec<M.Message>, event: Event, receiverSecret: string, requireSignature: bool)
    requires Screens(codec.read, codec.good)
    requires Unwrap(c, codec, event, receiverSecret, requireSignature).Ok?
      && Unwrap(c, codec, event, receiverSecret, requireSignature).value.Some?
    ensures var u := Unwrap(c, codec, event, receiverSecret, requireSignature).value.value;
            && u.sender == event.pubkey && codec.good(u.message) && (requireSignature ==> u.signature.Some?)
            && exists j: Json ::
                 && codec.read(j) == Ok(u.message)
                 && (u.signature.Some? ==> VerifyMessage(c, c.stringify(j), u.sender, u.signature.value))
                 && (u.identity != u.sender
                   ==> exists sig :: VerifyMessage(c, IdentityProofPayload(u.sender, c.stringify(j)), u.identity, sig))
  {
    var u := Unwrap(c, codec, event, receiverSecret, requireSignature).value.value;
    var plain := c.decrypt(event.content, c.conversationKey(receiverSecret, event.pubkey)).value;
    var items := c.parse(plain).value.items;
    assert codec.read(items[0]) == Ok(u.message);
    if u.identity != u.sender {
      assert VerifyMessage(c, IdentityProofPayload(u.sender, c.stringify(items[0])), u.identity,
        items[2].items[1].text);
    }
  }
}
