/** Reading amount, time and expiry out of a lightning invoice: the human-readable part with its multiplier, and behind
    the separator the data part with its timestamp and tagged fields. */
module Invoice {
  import opened Wrappers
  import opened Text

  // --- the human-readable part ---

  predicate AllDigits(s: string) {
    forall k | 0 <= k < |s| :: IsDigit(s[k])
  }

  datatype Multiplier = Whole | Milli | Micro | Nano | Pico

  function MultiplierOf(c: char): Option<Multiplier> {
    if c == 'm' then Some(Milli) else if c == 'u' then Some(Micro) else if c == 'n' then Some(Nano)
    else if c == 'p' then Some(Pico) else None
  }

  function Letter(m: Multiplier): string {
    match m
    case Whole => ""
    case Milli => "m"
    case Micro => "u"
    case Nano => "n"
    case Pico => "p"
  }

  datatype Currency = Bitcoin | Testnet | Regtest | Signet

  function CurrencyText(c: Currency): string {
    match c
    case Bitcoin => "lnbc"
    case Testnet => "lntb"
    case Regtest => "lnbcrt"
    case Signet => "lnsb"
  }

  /** What the pattern matches: digits, multiplier, and where the data begins. */
  datatype Hrp = Hrp(digits: string, multiplier: Multiplier, dataAt: nat)

  function RunLength(s: string, from: nat): (n: nat)
    requires from <= |s|
    ensures from + n <= |s| && forall k | from <= k < from + n :: IsDigit(s[k])
    ensures from + n < |s| ==> !IsDigit(s[from + n])
    decreases |s| - from
  {
    if from == |s| || !IsDigit(s[from]) then 0 else 1 + RunLength(s, from + 1)
  }

  /** After exactly `d` digits: an optional multiplier, preferring one, and the separator. */
  function MatchAfter(s: string, from: nat, d: nat): Option<Hrp>
    requires from + d <= |s|
  {
    var p := from + d;
    if p + 1 < |s| && MultiplierOf(s[p]).Some?
      && s[p + 1] == '1' then Some(Hrp(s[from..p], MultiplierOf(s[p]).value, p + 2))
    else if p < |s| && s[p] == '1' then Some(Hrp(s[from..p], Whole, p + 1))
    else None
  }

  /** As many digits as possible first, giving back one at a time. */
  function MatchDigits(s: string, from: nat, d: nat): Option<Hrp>
    requires from + d <= |s|
  {
    if MatchAfter(s, from, d).Some? then MatchAfter(s, from, d)
    else if d == 0 then None
    else MatchDigits(s, from, d - 1)
  }

  function MatchFrom(s: string, from: nat): Option<Hrp>
    requires from <= |s|
  {
    MatchDigits(s, from, RunLength(s, from))
  }

  /** The first currency that leads to a match. */
  function TryCurrencies(s: string, currencies: seq<Currency>): Option<Hrp> {
    if currencies == [] then None
    else
      var prefix := CurrencyText(currencies[0]);
      if prefix <= s && MatchFrom(s, |prefix|).Some? then MatchFrom(s, |prefix|) else TryCurrencies(s, currencies[1..])
  }

  /** ^ln(?:bc|tb|bcrt|sb)(\d*)([munp]?)1, alternatives in that order. */
  function MatchHrp(s: string): Option<Hrp> {
    TryCurrencies(s, [Bitcoin, Testnet, Regtest, Signet])
  }

  lemma {:induction false} NoLaterMatch(s: string, from: nat, sep: nat, d: nat)
    requires from <= sep < |s| && s[sep] == '1' && from + d <= |s| && sep <= from + d
    requires forall k | sep < k < |s| :: s[k] != '1'
    requires forall k | from <= k < sep :: IsDigit(s[k])
    ensures MatchDigits(s, from, d) == Some(Hrp(s[from..sep], Whole, sep + 1))
  {
    if from + d > sep {
      NoLaterMatch(s, from, sep, d - 1);
    }
  }

  /** With no '1' behind it, the separator is where the match ends. */
  lemma MatchAtSeparator(s: string, from: nat, digits: string, m: Multiplier, data: string)
    requires from <= |s| && s[from..] == digits + Letter(m) + "1" + data
    requires AllDigits(digits) && '1' !in data
    ensures MatchFrom(s, from) == Some(Hrp(digits, m, |s| - |data|))
  {
    var sep := from + |digits| + |Letter(m)|;
    var r := s[from..];
    assert forall k | from <= k < |s| :: s[k] == r[k - from];
    assert s[sep] == '1';
    forall k | sep < k < |s|
      ensures s[k] != '1'
    {
      assert s[k] == data[k - sep - 1];
    }
    forall k | from <= k < from + |digits|
      ensures IsDigit(s[k])
    {
      assert s[k] == digits[k - from];
    }
    assert s[from..from + |digits|] == digits;
    if m == Whole {
      RunCovers(s, from, |digits| + 1);
      NoLaterMatch(s, from, sep, RunLength(s, from));
    } else {
      assert s[from + |digits|] == Letter(m)[0];
      RunIs(s, from, |digits|);
    }
  }

  lemma {:induction false} RunCovers(s: string, from: nat, n: nat)
    requires from + n <= |s| && forall k | from <= k < from + n :: IsDigit(s[k])
    ensures RunLength(s, from) >= n
    decreases n
  {
  }

  lemma RunIs(s: string, from: nat, n: nat)
    requires from + n < |s| && (forall k | from <= k < from + n :: IsDigit(s[k])) && !IsDigit(s[from + n])
    ensures RunLength(s, from) == n
  {
  }

  lemma RegtestIsNotBitcoin(s: string)
    requires CurrencyText(Regtest) <= s
    ensures MatchFrom(s, 4) == None
  {
  }

  /** No two currencies fit one request. */
  lemma OneCurrencyFits(s: string, c: Currency, other: Currency)
    requires CurrencyText(c) <= s && MatchFrom(s, |CurrencyText(c)|).Some? && other != c
    ensures !(CurrencyText(other) <= s && MatchFrom(s, |CurrencyText(other)|).Some?)
  {
    if CurrencyText(Regtest) <= s {
      RegtestIsNotBitcoin(s);
    }
    assert s[2] == CurrencyText(c)[2];
  }

  lemma {:induction false} CurrencyDecides(s: string, c: Currency, currencies: seq<Currency>)
    requires CurrencyText(c) <= s && MatchFrom(s, |CurrencyText(c)|).Some? && c in currencies
    ensures TryCurrencies(s, currencies) == MatchFrom(s, |CurrencyText(c)|)
  {
    if currencies[0] != c {
      OneCurrencyFits(s, c, currencies[0]);
      CurrencyDecides(s, c, currencies[1..]);
    }
  }

  function RequestText(c: Currency, digits: string, m: Multiplier, data: string): string {
    CurrencyText(c) + (digits + Letter(m) + "1" + data)
  }

  lemma AfterPrefix(prefix: string, rest: string)
    ensures prefix <= prefix + rest && (prefix + rest)[|prefix|..] == rest
  {
  }

  lemma HrpOfText(s: string, c: Currency, digits: string, m: Multiplier, data: string)
    requires CurrencyText(c) <= s && s[|CurrencyText(c)|..] == digits + Letter(m) + "1" + data
    requires AllDigits(digits) && '1' !in data
    ensures MatchHrp(s) == Some(Hrp(digits, m, |s| - |data|))
  {
    MatchAtSeparator(s, |CurrencyText(c)|, digits, m, data);
    CurrencyDecides(s, c, [Bitcoin, Testnet, Regtest, Signet]);
  }

  /** The pattern splits a request with bech32 data at its last '1', whatever ones and digits surround it. */
  lemma HrpSplitsAtLastOne(c: Currency, digits: string, m: Multiplier, data: string)
    requires AllDigits(digits) && '1' !in data
    ensures var s := RequestText(c, digits, m, data); MatchHrp(s) == Some(Hrp(digits, m, |s| - |data|))
  {
    AfterPrefix(CurrencyText(c), digits + Letter(m) + "1" + data);
    HrpOfText(RequestText(c, digits, m, data), c, digits, m, data);
  }

  // --- the amount ---

  function DecimalValue(digits: string): nat
    requires AllDigits(digits)
  {
    if digits == "" then 0
    else DecimalValue(digits[..|digits| - 1]) * 10 + (digits[|digits| - 1] as int - '0' as int)
  }

  /** Millisatoshis in one unit of the multiplier. */
  function UnitMsat(m: Multiplier): real {
    match m
    case Whole => 100_000_000_000.0
    case Milli => 100_000_000.0
    case Micro => 100_000.0
    case Nano => 100.0
    case Pico => 0.1
  }

  function ExactMsat(n: nat, m: Multiplier): real {
    n as real * UnitMsat(m)
  }

  function RoundedMsat(n: nat, m: Multiplier): int {
    (ExactMsat(n, m) + 0.5).Floor
  }

  /** None for an amountless or zero request. */
  function AmountMsat(s: string): Option<int> {
    match MatchHrp(s)
    case None => None
    case Some(hrp) =>
      if !AllDigits(hrp.digits) || DecimalValue(hrp.digits) == 0 then None
      else Some(RoundedMsat(DecimalValue(hrp.digits), hrp.multiplier))
  }

  /** The amount is the exact millisatoshi value; only a pico amount that is not a multiple of ten is rounded, by at
      most one half. */
  lemma AmountIsExact(c: Currency, digits: string, m: Multiplier, data: string)
    requires AllDigits(digits) && '1' !in data
    ensures var amount, exact := AmountMsat(RequestText(c, digits, m, data)), ExactMsat(DecimalValue(digits), m);
            && (amount.None? <==> DecimalValue(digits) == 0)
            && (amount.Some? ==> -0.5 < amount.value as real - exact <= 0.5)
            && (amount.Some? ==> (amount.value as real == exact <==> m != Pico || DecimalValue(digits) % 10 == 0))
  {
    HrpSplitsAtLastOne(c, digits, m, data);
    RoundingIsExact(DecimalValue(digits), m);
  }

  lemma RoundingIsExact(n: nat, m: Multiplier)
    ensures var r, exact := RoundedMsat(n, m) as real, ExactMsat(n, m);
            -0.5 < r - exact <= 0.5 && (r == exact <==> m != Pico || n % 10 == 0)
  {
    match m {
      case Whole => WholeFloor(n * 100_000_000_000, ExactMsat(n, m));
      case Milli => WholeFloor(n * 100_000_000, ExactMsat(n, m));
      case Micro => WholeFloor(n * 100_000, ExactMsat(n, m));
      case Nano => WholeFloor(n * 100, ExactMsat(n, m));
      case Pico => TenthFloor(n / 10, n % 10, ExactMsat(n, m));
    }
  }

  lemma WholeFloor(k: nat, exact: real)
    requires exact == k as real
    ensures (exact + 0.5).Floor == k
  {
  }

  lemma TenthFloor(q: nat, d: nat, exact: real)
    requires d < 10 && exact == (10 * q + d) as real * 0.1
    ensures var r := (exact + 0.5).Floor as real; -0.5 < r - exact <= 0.5 && (r == exact <==> d == 0)
  {
    assert exact == q as real + d as real * 0.1;
    assert (exact + 0.5).Floor == if d < 5 then q else q + 1;
  }

  // --- bech32 characters ---

  type Five = v: int | 0 <= v < 32

  const Charset := "qpzry9x8gf2tvdw0s3jn54khce6mua7l"

  /** The first place of a character in the charset from place `i` on; -1 for a foreign one. */
  function IndexFrom(c: char, i: nat): (v: int)
    requires i <= 32
    ensures -1 <= v < 32
    decreases 32 - i
  {
    if i == 32 then -1 else if Charset[i] == c then i else IndexFrom(c, i + 1)
  }

  function CharValue(c: char): (v: int)
    ensures -1 <= v < 32
  {
    IndexFrom(c, 0)
  }

  /** The charset as a table, which shows that no character occurs twice. */
  function Place(c: char): int {
    match c
    case 'q' => 0
    case 'p' => 1
    case 'z' => 2
    case 'r' => 3
    case 'y' => 4
    case '9' => 5
    case 'x' => 6
    case '8' => 7
    case 'g' => 8
    case 'f' => 9
    case '2' => 10
    case 't' => 11
    case 'v' => 12
    case 'd' => 13
    case 'w' => 14
    case '0' => 15
    case 's' => 16
    case '3' => 17
    case 'j' => 18
    case 'n' => 19
    case '5' => 20
    case '4' => 21
    case 'k' => 22
    case 'h' => 23
    case 'c' => 24
    case 'e' => 25
    case '6' => 26
    case 'm' => 27
    case 'u' => 28
    case 'a' => 29
    case '7' => 30
    case 'l' => 31
    case _ => -1
  }

  lemma PlaceInCharset(v: Five)
    ensures Place(Charset[v]) == v
  {
  }

  lemma {:induction false} FoundFrom(v: Five, i: nat)
    requires i <= v
    ensures IndexFrom(Charset[v], i) == v
    decreases v - i
  {
    if i < v {
      PlaceInCharset(v);
      PlaceInCharset(i);
      FoundFrom(v, i + 1);
    }
  }

  lemma CharsetPlaces(v: Five)
    ensures CharValue(Charset[v]) == v
  {
    FoundFrom(v, 0);
  }

  function Chars(values: seq<Five>): (s: string)
    ensures |s| == |values| && forall k | 0 <= k < |values| :: s[k] == Charset[values[k]]
  {
    seq(|values|, k requires 0 <= k < |values| => Charset[values[k]])
  }

  function Base32(values: seq<Five>): nat {
    if values == [] then 0 else Base32(values[..|values| - 1]) * 32 + values[|values| - 1]
  }

  /** What the characters stand for, foreign ones included. */
  function Values(s: string): (values: seq<int>)
    ensures |values| == |s|
  {
    if s == "" then [] else Values(s[..|s| - 1]) + [CharValue(s[|s| - 1])]
  }

  lemma {:induction false} ValuesAt(s: string, k: nat)
    requires k < |s|
    ensures Values(s)[k] == CharValue(s[k])
  {
    if k < |s| - 1 {
      ValuesAt(s[..|s| - 1], k);
    }
  }

  lemma {:induction false} ValuesOfChars(values: seq<Five>)
    ensures Values(Chars(values)) == values
  {
    if values != [] {
      var rest := values[..|values| - 1];
      assert Chars(values)[..|rest|] == Chars(rest);
      ValuesOfChars(rest);
      CharsetPlaces(values[|rest|]);
    }
  }

  /** The number that the values spell, or nothing if one of them is foreign. */
  function Spelled(values: seq<int>): Option<nat> {
    if values == [] then Some(0)
    else
      var before, v := Spelled(values[..|values| - 1]), values[|values| - 1];
      if before.None? || v < 0 then None else Some(before.value * 32 + v)
  }

  lemma {:induction false} SpelledFives(values: seq<Five>)
    ensures Spelled(values) == Some(Base32(values))
  {
    if values != [] {
      SpelledFives(values[..|values| - 1]);
    }
  }

  lemma {:induction false} ForeignValue(values: seq<int>, k: nat)
    requires k < |values| && values[k] < 0
    ensures Spelled(values) == None
  {
    if k < |values| - 1 {
      ForeignValue(values[..|values| - 1], k);
    }
  }

  method Spell(s: string, start: nat, stop: nat, ghost values: seq<int>) returns (acc: Option<nat>)
    requires start <= stop <= |s| && values == Values(s)
    ensures acc == Spelled(values[start..stop])
  {
    var n := 0;
    for i := start to stop
      invariant Spelled(values[start..i]) == Some(n)
    {
      assert values[start..i + 1][..i - start] == values[start..i];
      var v := CharValue(s[i]);
      ValuesAt(s, i);
      if v < 0 {
        ForeignValue(values[start..stop], i - start);
        return None;
      }
      n := n * 32 + v;
    }
    return Some(n);
  }

  // --- the timestamp ---

  method Timestamp(s: string) returns (t: Option<nat>)
    ensures t == TimestampOf(s)
  {
    var m := MatchHrp(s);
    if m.None? || m.value.dataAt > |s| {
      return None;
    }
    var data := s[m.value.dataAt..];
    if |data| < 7 {
      return None;
    }
    t := Spell(data, 0, 7, Values(data));
    assert Values(data)[0..7] == Values(data)[..7];
  }

  /** The values of the data part. */
  function DataText(s: string, hrp: Option<Hrp>): Option<string> {
    if hrp.None? || hrp.value.dataAt > |s| then None else Some(s[hrp.value.dataAt..])
  }

  function DataOf(s: string): Option<seq<int>> {
    match DataText(s, MatchHrp(s))
    case None => None
    case Some(text) => Some(Values(text))
  }

  function TimestampOf(s: string): Option<nat> {
    match DataOf(s)
    case None => None
    case Some(values) => if |values| < 7 then None else Spelled(values[..7])
  }

  function Digits32(t: nat, count: nat): (values: seq<Five>)
    ensures |values| == count
  {
    if count == 0 then [] else Digits32(t / 32, count - 1) + [t % 32]
  }

  function Power32(count: nat): nat {
    if count == 0 then 1 else 32 * Power32(count - 1)
  }

  lemma {:induction false} DigitsOfNumber(t: nat, count: nat)
    requires t < Power32(count)
    ensures Base32(Digits32(t, count)) == t
  {
    if count > 0 {
      DigitsOfNumber(t / 32, count - 1);
      assert Digits32(t, count)[..count - 1] == Digits32(t / 32, count - 1);
    }
  }

  lemma NoOneInChars(values: seq<Five>)
    ensures '1' !in Chars(values)
  {
  }

  lemma DataIsSuffix(c: Currency, digits: string, m: Multiplier, data: string)
    ensures var s := RequestText(c, digits, m, data); |data| <= |s| && s[|s| - |data|..] == data
  {
  }

  lemma DataAfter(s: string, digits: string, m: Multiplier, text: string)
    requires |text| <= |s| && s[|s| - |text|..] == text
    ensures DataText(s, Some(Hrp(digits, m, |s| - |text|))) == Some(text)
  {
  }

  lemma DataOfText(s: string, c: Currency, digits: string, m: Multiplier, text: string)
    requires CurrencyText(c) <= s && s[|CurrencyText(c)|..] == digits + Letter(m) + "1" + text
    requires |text| <= |s| && s[|s| - |text|..] == text
    requires AllDigits(digits) && '1' !in text
    ensures DataOf(s) == Some(Values(text))
  {
    HrpOfText(s, c, digits, m, text);
    DataAfter(s, digits, m, text);
  }

  /** The data part of a request is what follows the separator. */
  lemma DataIsRead(c: Currency, digits: string, m: Multiplier, text: string)
    requires AllDigits(digits) && '1' !in text
    ensures DataOf(RequestText(c, digits, m, text)) == Some(Values(text))
  {
    AfterPrefix(CurrencyText(c), digits + Letter(m) + "1" + text);
    DataIsSuffix(c, digits, m, text);
    DataOfText(RequestText(c, digits, m, text), c, digits, m, text);
  }

  lemma ValuesAreRead(c: Currency, digits: string, m: Multiplier, data: seq<Five>)
    requires AllDigits(digits)
    ensures DataOf(RequestText(c, digits, m, Chars(data))) == Some(data)
  {
    NoOneInChars(data);
    DataIsRead(c, digits, m, Chars(data));
    ValuesOfChars(data);
  }

  /** Any time below 2^35 is read back from its seven characters. */
  lemma TimestampIsRead(c: Currency, digits: string, m: Multiplier, t: nat, rest: seq<Five>)
    requires AllDigits(digits) && t < 0x8_0000_0000
    ensures TimestampOf(RequestText(c, digits, m, Chars(Digits32(t, 7) + rest))) == Some(t)
  {
    var values := Digits32(t, 7);
    ValuesAreRead(c, digits, m, values + rest);
    assert (values + rest)[..7] == values;
    SpelledFives(values);
    PowerOfSeven();
    DigitsOfNumber(t, 7);
  }

  lemma PowerOfSeven()
    ensures Power32(7) == 0x8_0000_0000
  {
    assert Power32(3) == 32768;
    assert Power32(7) == 32 * (32 * (32 * (32 * Power32(3))));
  }

  // --- the expiry ---

  const SigChars := 104
  const ChecksumChars := 6
  const ExpiryTag: Five := 6

  /** Fields from `pos` on: the first one with the expiry tag, unless a malformed one comes before it. */
  function Scan(v: seq<int>, end: int, pos: nat): Option<nat>
    requires end <= |v|
    decreases end - pos
  {
    if pos + 3 > end then None
    else
      var len := v[pos + 1] * 32 + v[pos + 2];
      if v[pos] < 0 || len < 0 || pos + 3 + len > end then None
      else if v[pos] == ExpiryTag then Spelled(v[pos + 3..pos + 3 + len])
      else Scan(v, end, pos + 3 + len)
  }

  function ExpiryOf(s: string): Option<nat> {
    match DataOf(s)
    case None => None
    case Some(v) => Scan(v, |v| - SigChars, 7)
  }

  /** The scan ends on every input: each field it passes is at least three characters long. */
  method ExpirySeconds(s: string) returns (seconds: Option<nat>)
    ensures seconds == ExpiryOf(s)
  {
    var m := MatchHrp(s);
    if m.None? || m.value.dataAt > |s| {
      return None;
    }
    seconds := ScanData(s[m.value.dataAt..], Values(s[m.value.dataAt..]));
  }

  method ReadHead(data: string, pos: nat, ghost v: seq<int>) returns (tag: int, len: int)
    requires pos + 3 <= |data| && v == Values(data)
    ensures tag == v[pos] && len == v[pos + 1] * 32 + v[pos + 2]
  {
    ValuesAt(data, pos);
    ValuesAt(data, pos + 1);
    ValuesAt(data, pos + 2);
    tag := CharValue(data[pos]);
    len := CharValue(data[pos + 1]) * 32 + CharValue(data[pos + 2]);
  }

  method ScanData(data: string, ghost v: seq<int>) returns (seconds: Option<nat>)
    requires v == Values(data)
    ensures seconds == Scan(v, |v| - SigChars, 7)
  {
    var end := |data| - SigChars;
    var pos := 7;
    ghost var target := Scan(v, end, pos);
    while pos + 3 <= end
      invariant Scan(v, end, pos) == target
      decreases end - pos
    {
      var tag, len := ReadHead(data, pos, v);
      if tag < 0 || len < 0 {
        return None;
      }
      var stop := pos + 3 + len;
      if stop > end {
        return None;
      }
      if tag == ExpiryTag {
        seconds := Spell(data, pos + 3, stop, v);
        return;
      }
      pos := stop;
    }
    return None;
  }

  /** A tagged field: its tag, its length in two characters, its data. */
  datatype Tagged = Tagged(tag: Five, values: seq<Five>)

  predicate Fits(f: Tagged) {
    |f.values| < 1024
  }

  function FieldValues(f: Tagged): (values: seq<Five>)
    requires Fits(f)
    ensures |values| == 3 + |f.values|
  {
    [f.tag, |f.values| / 32, |f.values| % 32] + f.values
  }

  function AllValues(fields: seq<Tagged>): seq<Five>
    requires forall f | f in fields :: Fits(f)
  {
    if fields == [] then [] else FieldValues(fields[0]) + AllValues(fields[1..])
  }

  function FirstExpiry(fields: seq<Tagged>): Option<nat> {
    if fields == [] then None
    else if fields[0].tag == ExpiryTag then Some(Base32(fields[0].values))
    else FirstExpiry(fields[1..])
  }

  lemma ScanField(before: seq<Five>, f: Tagged, after: seq<Five>, end: int)
    requires Fits(f) && |before| + 3 + |f.values| <= end <= |before| + 3 + |f.values| + |after|
    ensures var v := before + FieldValues(f) + after;
            Scan(v, end, |before|) == if f.tag == ExpiryTag then Some(Base32(f.values))
              else Scan(v, end, |before| + 3 + |f.values|)
  {
    var v := before + FieldValues(f) + after;
    assert v[|before| + 3..|before| + 3 + |f.values|] == f.values;
    SpelledFives(f.values);
  }

  /** Both groupings of four adjoining pieces. */
  lemma Regrouped(before: seq<Five>, first: seq<Five>, rest: seq<Five>, after: seq<Five>)
    ensures before + first + (rest + after) == before + (first + rest) + after
    ensures (before + first) + rest + after == before + (first + rest) + after
  {
  }

  /** The scan passes the fields up to the first expiry field. */
  ghost predicate Passes(before: seq<Five>, fields: seq<Tagged>, after: seq<Five>, end: int)
    requires forall f | f in fields :: Fits(f)
    requires |before| + |AllValues(fields)| <= end <= |before| + |AllValues(fields)| + |after|
  {
    Scan(before + AllValues(fields) + after, end, |before|)
    == if FirstExpiry(fields).Some? then FirstExpiry(fields)
       else Scan(before + AllValues(fields) + after, end, |before| + |AllValues(fields)|)
  }

  lemma OneMoreField(before: seq<Five>, f: Tagged, fields: seq<Tagged>, after: seq<Five>, end: int)
    requires Fits(f) && forall g | g in fields :: Fits(g)
    requires |before| + |FieldValues(f)| + |AllValues(fields)| <= end <= |before| + |FieldValues(f)|
      + |AllValues(fields)| + |after|
    requires Passes(before + FieldValues(f), fields, after, end)
    ensures Passes(before, [f] + fields, after, end)
  {
    assert ([f] + fields)[1..] == fields;
    assert AllValues([f] + fields) == FieldValues(f) + AllValues(fields);
    ScanField(before, f, AllValues(fields) + after, end);
    Regrouped(before, FieldValues(f), AllValues(fields), after);
  }

  lemma {:induction false} ScanFields(before: seq<Five>, fields: seq<Tagged>, after: seq<Five>, end: int)
    requires forall f | f in fields :: Fits(f)
    requires |before| + |AllValues(fields)| <= end <= |before| + |AllValues(fields)| + |after|
    ensures Passes(before, fields, after, end)
    decreases |fields|
  {
    if fields != [] {
      assert fields[0] in fields;
      ScanFields(before + FieldValues(fields[0]), fields[1..], after, end);
      OneMoreField(before, fields[0], fields[1..], after, end);
      assert [fields[0]] + fields[1..] == fields;
    }
  }

  // The six characters of the signature that the scan still takes for fields.

  predicate Phantom(six: seq<Five>)
    requires |six| >= 6
  {
    || (six[0] == ExpiryTag && six[1] == 0 && six[2] <= 3)
    || (six[0] != ExpiryTag && six[1] == 0 && six[2] == 0 && six[3] == ExpiryTag && six[4] == 0 && six[5] == 0)
  }

  /** The expiry those characters are taken for. */
  function PhantomValue(six: seq<Five>): (expiry: Option<nat>)
    requires |six| >= 6
    ensures expiry.Some? <==> Phantom(six)
  {
    if !Phantom(six) then None
    else if six[0] == ExpiryTag then Some(Base32(six[3..3 + six[2]]))
    else Some(0)
  }

  ghost predicate InCharset(v: seq<int>) {
    forall k | 0 <= k < |v| :: 0 <= v[k] < 32
  }

  lemma ScanLastThree(v: seq<int>, pos: nat)
    requires InCharset(v) && pos + 3 <= |v|
    ensures Scan(v, pos + 3, pos) == if v[pos] == ExpiryTag && v[pos + 1] == 0 && v[pos + 2] == 0 then Some(0) else None
  {
  }

  lemma ScanLastSix(v: seq<int>, pos: nat)
    requires InCharset(v) && pos + 6 <= |v|
    ensures var len := v[pos + 1] * 32 + v[pos + 2];
            Scan(v, pos + 6, pos)
              == if len > 3 then None
                 else if v[pos] == ExpiryTag then Spelled(v[pos + 3..pos + 3 + len])
                 else if len == 0 then Scan(v, pos + 6, pos + 3) else None
  {
  }

  lemma ScanSignature(before: seq<Five>, sig: seq<Five>)
    requires |sig| >= 6
    ensures Scan(before + sig, |before| + 6, |before|) == PhantomValue(sig)
  {
    var v: seq<int>, pos := before + sig, |before|;
    assert forall k | 0 <= k < 6 :: v[pos + k] == sig[k];
    assert InCharset(v);
    if sig[1] == 0 && sig[2] <= 3 {
      assert v[pos + 3..pos + 3 + sig[2]] == sig[3..3 + sig[2]];
    }
    ScanSix(v, pos, sig);
  }

  lemma ScanSix(v: seq<int>, pos: nat, sig: seq<Five>)
    requires InCharset(v) && pos + 6 <= |v| && |sig| >= 6 && forall k | 0 <= k < 6 :: v[pos + k] == sig[k]
    requires sig[1] == 0 && sig[2] <= 3 ==> v[pos + 3..pos + 3 + sig[2]] == sig[3..3 + sig[2]]
    ensures Scan(v, pos + 6, pos) == PhantomValue(sig)
  {
    assert v[pos] == sig[0] && v[pos + 1] == sig[1] && v[pos + 2] == sig[2];
    assert v[pos + 3] == sig[3] && v[pos + 4] == sig[4] && v[pos + 5] == sig[5];
    ScanLastSix(v, pos);
    ScanLastThree(v, pos + 3);
    if sig[1] == 0 && sig[2] <= 3 {
      SpelledFives(sig[3..3 + sig[2]]);
    }
  }

  /** The first expiry field of a well-formed request is the expiry. Without one there is none, exactly when the first
      six characters of the signature do not happen to read as one: the scan stops 104 characters from the end, not 110.
      */
  lemma ExpiryIsFirstField(c: Currency, digits: string, m: Multiplier, t: nat, fields: seq<Tagged>, sig: seq<Five>)
    requires AllDigits(digits) && (forall f | f in fields :: Fits(f)) && |sig| == SigChars + ChecksumChars
    ensures var expiry := ExpiryOf(RequestText(c, digits, m, Chars(Digits32(t, 7) + AllValues(fields) + sig)));
            && (FirstExpiry(fields).Some? ==> expiry == FirstExpiry(fields))
            && (FirstExpiry(fields).None? ==> expiry == PhantomValue(sig) && (expiry.None? <==> !Phantom(sig)))
  {
    var before, values := Digits32(t, 7), AllValues(fields);
    var data := before + values + sig;
    ValuesAreRead(c, digits, m, data);
    ScanFields(before, fields, sig, |data| - SigChars);
    ScanSignature(before + values, sig);
  }

  /** A signature beginning "xqq" gives a request without an expiry field the expiry zero. */
  lemma PhantomExpiry(c: Currency, digits: string, m: Multiplier, t: nat)
    requires AllDigits(digits)
    ensures var sig: seq<Five> := [ExpiryTag, 0, 0] + seq(107, _ => 0);
            ExpiryOf(RequestText(c, digits, m, Chars(Digits32(t, 7) + [] + sig))) == Some(0)
  {
    var sig: seq<Five> := [ExpiryTag, 0, 0] + seq(107, _ => 0);
    ExpiryIsFirstField(c, digits, m, t, [], sig);
  }
}
