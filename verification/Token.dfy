/** The order-binding token inside a payment text. */
module Token {
  import opened Wrappers
  import opened Sequences
  import opened Text
  import opened Encoding

  datatype Variant = V1 | V1r

  function Prefix(v: Variant): string {
    match v
    case V1 => "tg:v1~"
    case V1r => "tg:v1r~"
  }

  // --- payment segments ---

  predicate IsToken(s: string) {
    "tg:v1~" <= s || "tg:v1r~" <= s
  }

  predicate IsPlain(s: string) {
    !IsToken(s)
  }

  predicate IsSegment(s: string) {
    s != ""
  }

  function SplitPm(pm: string): seq<string> {
    Filter(IsSegment, Split(pm, ','))
  }

  function CanonicalBase(pm: string): string {
    Join(Filter(IsPlain, SplitPm(pm)), ',')
  }

  datatype Extracted = Extracted(token: string, base: string)

  /** Exactly one token is required. */
  function ExtractToken(segments: seq<string>): Option<Extracted> {
    var tokens := Filter(IsToken, segments);
    if |tokens| != 1 then None else Some(Extracted(tokens[0], Join(Filter(IsPlain, segments), ',')))
  }

  function InsertToken(base: string, token: string): string {
    if base == "" then token else base + "," + token
  }

  lemma SplitOfSegment(s: string)
    requires s != "" && ',' !in s
    ensures SplitPm(s) == [s]
  {
    assert Split(s, ',') == [s];
    FilterAll(IsSegment, [s]);
  }

  lemma SplitOfBoth(a: string, b: string)
    ensures SplitPm(a + "," + b) == SplitPm(a) + SplitPm(b)
  {
    SplitBoth(a, b, ',');
    assert [','] == ",";
    FilterBoth(IsSegment, Split(a, ','), Split(b, ','));
  }

  lemma SplitOfEmpty()
    ensures SplitPm("") == []
  {
  }

  /** Joining and splitting again changes nothing, exactly for non-empty segments without commas. */
  lemma SplitOfJoined(segments: seq<string>)
    ensures SplitPm(Join(segments, ',')) == segments <==> forall s | s in segments :: s != "" && ',' !in s
  {
    if forall s | s in segments :: s != "" && ',' !in s {
      if segments == [] {
        SplitOfEmpty();
      } else {
        SplitJoin(segments, ',');
        FilterAll(IsSegment, segments);
      }
    }
    PartsHaveNoSeparator(Join(segments, ','), ',');
  }

  /** Inserting a token adds it behind the segments of the text. */
  lemma SplitOfInserted(base: string, token: string)
    requires token != "" && ',' !in token
    ensures SplitPm(InsertToken(base, token)) == SplitPm(base) + [token]
  {
    SplitOfSegment(token);
    if base == "" {
      SplitOfEmpty();
    } else {
      SplitOfBoth(base, token);
    }
  }

  lemma TokenIsNotEmpty(token: string)
    requires IsToken(token)
    ensures token != ""
  {
  }

  lemma FilterOneMore(segments: seq<string>, token: string)
    requires IsToken(token)
    ensures Filter(IsToken, segments + [token]) == Filter(IsToken, segments) + [token]
    ensures Filter(IsPlain, segments + [token]) == Filter(IsPlain, segments)
  {
  }

  lemma ExtractOneMore(segments: seq<string>, token: string)
    requires IsToken(token)
    ensures ExtractToken(segments + [token])
         == if Filter(IsToken, segments) == [] then Some(Extracted(token, Join(Filter(IsPlain, segments), ',')))
           else None
  {
    FilterOneMore(segments, token);
  }

  /** The token and the canonical base come back exactly when the text had no token of its own. */
  lemma ExtractUndoesInsert(raw: string, token: string)
    requires IsToken(token) && ',' !in token
    ensures ExtractToken(SplitPm(InsertToken(raw, token)))
         == if Filter(IsToken, SplitPm(raw)) == [] then Some(Extracted(token, CanonicalBase(raw))) else None
  {
    TokenIsNotEmpty(token);
    SplitOfInserted(raw, token);
    ExtractOneMore(SplitPm(raw), token);
  }

  lemma BaseSegments(raw: string)
    ensures SplitPm(CanonicalBase(raw)) == Filter(IsPlain, SplitPm(raw))
  {
    PartsHaveNoSeparator(raw, ',');
    SplitOfJoined(Filter(IsPlain, SplitPm(raw)));
  }

  /** A canonical base is its own canonical base and has no token. */
  lemma BaseIsCanonical(raw: string)
    ensures CanonicalBase(CanonicalBase(raw)) == CanonicalBase(raw)
    ensures Filter(IsToken, SplitPm(CanonicalBase(raw))) == []
  {
    BaseSegments(raw);
    var plain := Filter(IsPlain, SplitPm(raw));
    FilterAll(IsPlain, plain);
    FilterNone(IsToken, plain);
  }

  /** So a token put behind any canonical base is found again, with that base. */
  lemma TokenIsFound(raw: string, token: string)
    requires IsToken(token) && ',' !in token
    ensures ExtractToken(SplitPm(InsertToken(CanonicalBase(raw), token))) == Some(Extracted(token, CanonicalBase(raw)))
  {
    BaseIsCanonical(raw);
    ExtractUndoesInsert(CanonicalBase(raw), token);
  }

  // --- printing and parsing ---

  datatype Parsed = Parsed(variant: Variant, nonce: seq<Byte>, sig: seq<Byte>)

  function PrintToken(p: Parsed): string {
    Prefix(p.variant) + ToBase64(p.nonce) + "." + ToHex(p.sig)
  }

  const SigDigits := 128

  /** What follows the prefix: digits, a dot, and 128 hexadecimal digits. */
  function ParseBody(v: Variant, body: string): Option<Parsed> {
    var k := IndexOf(body, '.');
    if k == 0 || k == |body| || !AllDigits64(body[..k]) then None
    else
      var tail := body[k + 1..];
      if |tail| != SigDigits || !AllHex(tail) then None
      else
        var nonce, sig := FromBase64(body[..k]), FromHex(tail);
        if nonce.None? || sig.None? then None else Some(Parsed(v, nonce.value, sig.value))
  }

  function ParseToken(token: string): Option<Parsed> {
    if Prefix(V1) <= token then ParseBody(V1, token[|Prefix(V1)|..])
    else if Prefix(V1r) <= token then ParseBody(V1r, token[|Prefix(V1r)|..])
    else None
  }

  lemma NoDotInDigits(s: string)
    requires AllDigits64(s)
    ensures '.' !in s && ',' !in s && '\n' !in s
  {
  }

  lemma BodyRoundTrip(p: Parsed)
    ensures ParseBody(p.variant, ToBase64(p.nonce) + "." + ToHex(p.sig)) == if p.nonce != []
      && |p.sig| == 64 then Some(p) else None
  {
    var head, tail := ToBase64(p.nonce), ToHex(p.sig);
    NoDotInDigits(head);
    assert head + "." + tail == head + ['.'] + tail;
    IndexOfFirst('.', head, tail);
    var body := head + "." + tail;
    assert body[..|head|] == head && body[|head| + 1..] == tail;
    Base64RoundTrip(p.nonce);
    HexRoundTrip(p.sig);
  }

  lemma PrefixParses(v: Variant, body: string)
    ensures ParseToken(Prefix(v) + body) == ParseBody(v, body)
  {
    var token := Prefix(v) + body;
    assert token[|Prefix(v)|..] == body;
    if v == V1r {
      assert token[5] == 'r' && Prefix(V1)[5] == '~';
    }
  }

  /** Parsing undoes printing for every non-empty nonce and 64-byte signature, and only for those. */
  lemma ParseUndoesPrint(p: Parsed)
    ensures ParseToken(PrintToken(p)) == if p.nonce != [] && |p.sig| == 64 then Some(p) else None
  {
    var body := ToBase64(p.nonce) + "." + ToHex(p.sig);
    PrintOfParts(p.variant, body, p);
    PrefixParses(p.variant, body);
    BodyRoundTrip(p);
  }

  lemma BodyIsCanonical(v: Variant, body: string)
    requires ParseBody(v, body).Some?
    ensures var p := ParseBody(v, body).value; body == ToBase64(p.nonce) + "." + ToHex(p.sig) && p.variant == v
  {
    var head, tail := Cut(body, '.');
    Base64IsCanonical(head);
    HexIsCanonical(tail);
  }

  lemma ParsedHasPrefix(token: string) returns (v: Variant, body: string)
    requires ParseToken(token).Some?
    ensures token == Prefix(v) + body && ParseToken(token) == ParseBody(v, body)
  {
    v := if Prefix(V1) <= token then V1 else V1r;
    body := token[|Prefix(v)|..];
  }

  /** Whatever parses was printed from what it parses to: a token cannot be respelled. */
  lemma PrintUndoesParse(token: string)
    requires ParseToken(token).Some?
    ensures PrintToken(ParseToken(token).value) == token
  {
    var v, body := ParsedHasPrefix(token);
    BodyIsCanonical(v, body);
    PrintOfParts(v, body, ParseToken(token).value);
  }

  lemma PrintOfParts(v: Variant, body: string, p: Parsed)
    requires p.variant == v && body == ToBase64(p.nonce) + "." + ToHex(p.sig)
    ensures PrintToken(p) == Prefix(v) + body
  {
  }

  lemma PrintedIsToken(p: Parsed)
    ensures IsToken(PrintToken(p)) && ',' !in PrintToken(p)
  {
  }
}
