/** Unpadded base64url (RFC 4648, section 5) and hexadecimal (section 8) text of bytes. Decoding is strict:
    it accepts exactly what encoding writes, so that a byte string has one spelling and a spelling one byte string. */
module Encoding {
  import opened Wrappers

  type Byte = b: int | 0 <= b < 256

  // --- base64url ---

  function Digit64(n: int): (c: char)
    requires 0 <= n < 64
    ensures IsDigit64(c)
  {
    if n < 26 then (n + 'A' as int) as char
    else if n < 52 then (n - 26 + 'a' as int) as char
    else if n < 62 then (n - 52 + '0' as int) as char
    else if n == 62 then '-'
    else '_'
  }

  predicate IsDigit64(c: char) {
    'A' <= c <= 'Z' || 'a' <= c <= 'z' || '0' <= c <= '9' || c == '-' || c == '_'
  }

  function Value64(c: char): (n: int)
    requires IsDigit64(c)
    ensures 0 <= n < 64 && Digit64(n) == c
  {
    if 'A' <= c <= 'Z' then c as int - 'A' as int
    else if 'a' <= c <= 'z' then c as int - 'a' as int + 26
    else if '0' <= c <= '9' then c as int - '0' as int + 52
    else if c == '-' then 62
    else 63
  }

  lemma ValueOfDigit64(n: int)
    requires 0 <= n < 64
    ensures Value64(Digit64(n)) == n
  {
  }

  predicate AllDigits64(s: string) {
    forall k | 0 <= k < |s| :: IsDigit64(s[k])
  }

  function Couple(p: Byte): (s: string)
    ensures |s| == 2 && AllDigits64(s)
  {
    [Digit64(p / 4), Digit64(p % 4 * 16)]
  }

  function Triplet(p: Byte, q: Byte): (s: string)
    ensures |s| == 3 && AllDigits64(s)
  {
    [Digit64(p / 4), Digit64(p % 4 * 16 + q / 16), Digit64(q % 16 * 4)]
  }

  function Quad(p: Byte, q: Byte, r: Byte): (s: string)
    ensures |s| == 4 && AllDigits64(s)
  {
    [Digit64(p / 4), Digit64(p % 4 * 16 + q / 16), Digit64(q % 16 * 4 + r / 64), Digit64(r % 64)]
  }

  function ToBase64(b: seq<Byte>): (s: string)
    ensures AllDigits64(s)
    ensures s == "" <==> b == []
  {
    if |b| == 0 then ""
    else if |b| == 1 then Couple(b[0])
    else if |b| == 2 then Triplet(b[0], b[1])
    else
      Quad(b[0], b[1], b[2]) + ToBase64(b[3..])
  }

  function Bytes3(w: int, x: int, y: int, z: int): seq<Byte>
    requires 0 <= w < 64 && 0 <= x < 64 && 0 <= y < 64 && 0 <= z < 64
  {
    [w * 4 + x / 16, x % 16 * 16 + y / 4, y % 4 * 64 + z]
  }

  /** Foreign characters, a single left-over character and non-zero left-over bits are refused. */
  function FromBase64(s: string): Option<seq<Byte>> {
    if !AllDigits64(s) then None
    else if |s| == 0 then Some([])
    else if |s| == 1 then None
    else
      var w, x := Value64(s[0]), Value64(s[1]);
      if |s| == 2 then if x % 16 == 0 then Some([w * 4 + x / 16]) else None
      else
        var y := Value64(s[2]);
        if |s| == 3 then if y % 4 == 0 then Some([w * 4 + x / 16, x % 16 * 16 + y / 4]) else None
        else
          match FromBase64(s[4..])
          case None => None
          case Some(rest) => Some(Bytes3(w, x, y, Value64(s[3])) + rest)
  }

  lemma Regrouped2(p: Byte, q: Byte)
    ensures var w, x, y := p / 4, p % 4 * 16 + q / 16, q % 16 * 4;
            y % 4 == 0 && w * 4 + x / 16 == p && x % 16 * 16 + y / 4 == q
  {
  }

  lemma PairRoundTrip(p: Byte, q: Byte)
    ensures FromBase64(ToBase64([p, q])) == Some([p, q])
  {
    var w, x, y := p / 4, p % 4 * 16 + q / 16, q % 16 * 4;
    Regrouped2(p, q);
    var s := ToBase64([p, q]);
    assert s == [Digit64(w), Digit64(x), Digit64(y)];
    ValueOfDigit64(w);
    ValueOfDigit64(x);
    ValueOfDigit64(y);
  }

  lemma SingleRoundTrip(p: Byte)
    ensures FromBase64(ToBase64([p])) == Some([p])
  {
    var w, x := p / 4, p % 4 * 16;
    var s := ToBase64([p]);
    assert s == [Digit64(w), Digit64(x)];
    ValueOfDigit64(w);
    ValueOfDigit64(x);
  }

  lemma QuadValues(p: Byte, q: Byte, r: Byte)
    ensures var s := Quad(p, q, r); Bytes3(Value64(s[0]), Value64(s[1]), Value64(s[2]), Value64(s[3])) == [p, q, r]
  {
    ValueOfDigit64(p / 4);
    ValueOfDigit64(p % 4 * 16 + q / 16);
    ValueOfDigit64(q % 16 * 4 + r / 64);
    ValueOfDigit64(r % 64);
    Regrouped(p, q, r);
  }

  /** A quad in front stands for its three bytes. */
  lemma FromQuad(quad: string, rest: string)
    requires |quad| == 4 && AllDigits64(quad) && FromBase64(rest).Some?
    ensures FromBase64(quad + rest)
         == Some(Bytes3(Value64(quad[0]), Value64(quad[1]), Value64(quad[2]), Value64(quad[3]))
           + FromBase64(rest).value)
  {
    assert (quad + rest)[4..] == rest;
  }

  lemma {:induction false} Base64RoundTrip(b: seq<Byte>)
    ensures FromBase64(ToBase64(b)) == Some(b)
  {
    if |b| >= 3 {
      Base64RoundTrip(b[3..]);
      QuadValues(b[0], b[1], b[2]);
      FromQuad(Quad(b[0], b[1], b[2]), ToBase64(b[3..]));
      assert b == [b[0], b[1], b[2]] + b[3..];
    } else if |b| == 2 {
      PairRoundTrip(b[0], b[1]);
      assert b == [b[0], b[1]];
    } else if |b| == 1 {
      SingleRoundTrip(b[0]);
      assert b == [b[0]];
    }
  }

  lemma Regrouped(p: Byte, q: Byte, r: Byte)
    ensures Bytes3(p / 4, p % 4 * 16 + q / 16, q % 16 * 4 + r / 64, r % 64) == [p, q, r]
  {
  }

  lemma Resplit(w: int, x: int, y: int, z: int)
    requires 0 <= w < 64 && 0 <= x < 64 && 0 <= y < 64 && 0 <= z < 64
    ensures var b := Bytes3(w, x, y, z);
            b[0] / 4 == w && b[0] % 4 * 16 + b[1] / 16 == x && b[1] % 16 * 4 + b[2] / 64 == y && b[2] % 64 == z
  {
  }

  lemma Resplit2(w: int, x: int, y: int)
    requires 0 <= w < 64 && 0 <= x < 64 && 0 <= y < 64 && y % 4 == 0
    ensures var p, q := w * 4 + x / 16, x % 16 * 16 + y / 4;
            p / 4 == w && p % 4 * 16 + q / 16 == x && q % 16 * 4 == y
  {
  }

  lemma PairIsCanonical(s: string)
    requires |s| == 3 && FromBase64(s).Some?
    ensures ToBase64(FromBase64(s).value) == s
  {
    var w, x, y := Value64(s[0]), Value64(s[1]), Value64(s[2]);
    var p: Byte, q: Byte := w * 4 + x / 16, x % 16 * 16 + y / 4;
    Resplit2(w, x, y);
    assert FromBase64(s).value == [p, q];
    assert p / 4 == w && p % 4 * 16 + q / 16 == x && q % 16 * 4 == y;
    assert s == Triplet(p, q);
  }

  lemma Resplit1(w: int, x: int)
    requires 0 <= w < 64 && 0 <= x < 64 && x % 16 == 0
    ensures (w * 4 + x / 16) / 4 == w && (w * 4 + x / 16) % 4 * 16 == x
  {
  }

  lemma SingleIsCanonical(s: string)
    requires |s| == 2 && FromBase64(s).Some?
    ensures ToBase64(FromBase64(s).value) == s
  {
    var w, x := Value64(s[0]), Value64(s[1]);
    var p: Byte := w * 4 + x / 16;
    Resplit1(w, x);
    assert FromBase64(s).value == [p];
    assert s == Couple(p);
  }

  lemma ToQuad(b: seq<Byte>, rest: seq<Byte>)
    requires |b| == 3
    ensures ToBase64(b + rest) == Quad(b[0], b[1], b[2]) + ToBase64(rest)
  {
    assert (b + rest)[3..] == rest;
  }

  lemma QuadIsCanonical(quad: string, rest: string)
    requires |quad| == 4 && AllDigits64(quad) && FromBase64(rest).Some? && ToBase64(FromBase64(rest).value) == rest
    ensures FromBase64(quad + rest).Some? && ToBase64(FromBase64(quad + rest).value) == quad + rest
  {
    var w, x, y, z := Value64(quad[0]), Value64(quad[1]), Value64(quad[2]), Value64(quad[3]);
    FromQuad(quad, rest);
    ToQuad(Bytes3(w, x, y, z), FromBase64(rest).value);
    QuadOfValues(quad);
  }

  lemma QuadOfValues(quad: string)
    requires |quad| == 4 && AllDigits64(quad)
    ensures var b := Bytes3(Value64(quad[0]), Value64(quad[1]), Value64(quad[2]), Value64(quad[3]));
            Quad(b[0], b[1], b[2]) == quad
  {
    Resplit(Value64(quad[0]), Value64(quad[1]), Value64(quad[2]), Value64(quad[3]));
    assert quad == [quad[0], quad[1], quad[2], quad[3]];
  }

  /** Only the text an encoder writes is accepted, so no two texts decode alike. */
  lemma {:induction false} Base64IsCanonical(s: string)
    requires FromBase64(s).Some?
    ensures ToBase64(FromBase64(s).value) == s
  {
    if |s| >= 4 {
      Base64IsCanonical(s[4..]);
      QuadIsCanonical(s[..4], s[4..]);
      assert s == s[..4] + s[4..];
    } else if |s| == 3 {
      PairIsCanonical(s);
    } else if |s| == 2 {
      SingleIsCanonical(s);
    }
  }

  // --- hexadecimal ---

  predicate IsHexDigit(c: char) {
    '0' <= c <= '9' || 'a' <= c <= 'f'
  }

  predicate AllHex(s: string) {
    forall k | 0 <= k < |s| :: IsHexDigit(s[k])
  }

  function HexDigit(n: int): (c: char)
    requires 0 <= n < 16
    ensures IsHexDigit(c)
  {
    if n < 10 then (n + '0' as int) as char else (n - 10 + 'a' as int) as char
  }

  function HexValue(c: char): (n: int)
    requires IsHexDigit(c)
    ensures 0 <= n < 16 && HexDigit(n) == c
  {
    if '0' <= c <= '9' then c as int - '0' as int else c as int - 'a' as int + 10
  }

  function ToHex(b: seq<Byte>): (s: string)
    ensures |s| == 2 * |b| && AllHex(s)
  {
    if b == [] then "" else [HexDigit(b[0] / 16), HexDigit(b[0] % 16)] + ToHex(b[1..])
  }

  function FromHex(s: string): Option<seq<Byte>> {
    if !AllHex(s) || |s| % 2 != 0 then None
    else if |s| == 0 then Some([])
    else
      match FromHex(s[2..])
      case None => None
      case Some(rest) => Some([HexValue(s[0]) * 16 + HexValue(s[1])] + rest)
  }

  lemma FromHexPair(high: char, low: char, rest: string)
    requires IsHexDigit(high) && IsHexDigit(low) && FromHex(rest).Some?
    ensures FromHex([high, low] + rest) == Some([HexValue(high) * 16 + HexValue(low)] + FromHex(rest).value)
  {
    PairIsHex(high, low, rest);
    assert ([high, low] + rest)[2..] == rest;
  }

  lemma PairIsHex(high: char, low: char, rest: string)
    requires IsHexDigit(high) && IsHexDigit(low) && AllHex(rest)
    ensures AllHex([high, low] + rest) && |[high, low] + rest| == |rest| + 2
    ensures ([high, low] + rest)[0] == high && ([high, low] + rest)[1] == low
  {
  }

  lemma HexValueOfDigit(n: int)
    requires 0 <= n < 16
    ensures HexValue(HexDigit(n)) == n
  {
  }

  lemma HexOfOneMore(b: Byte, rest: seq<Byte>)
    ensures ToHex([b] + rest) == [HexDigit(b / 16), HexDigit(b % 16)] + ToHex(rest)
  {
    assert ([b] + rest)[1..] == rest;
  }

  lemma HexStep(x: Byte, rest: seq<Byte>)
    requires FromHex(ToHex(rest)) == Some(rest)
    ensures FromHex(ToHex([x] + rest)) == Some([x] + rest)
  {
    HexOfOneMore(x, rest);
    FromHexPair(HexDigit(x / 16), HexDigit(x % 16), ToHex(rest));
    HexValueOfDigit(x / 16);
    HexValueOfDigit(x % 16);
  }

  lemma {:induction false} HexRoundTrip(b: seq<Byte>)
    ensures FromHex(ToHex(b)) == Some(b)
  {
    if b != [] {
      HexRoundTrip(b[1..]);
      HexStep(b[0], b[1..]);
      assert b == [b[0]] + b[1..];
    }
  }

  lemma HexDigitsOf(high: char, low: char)
    requires IsHexDigit(high) && IsHexDigit(low)
    ensures var b := HexValue(high) * 16 + HexValue(low); HexDigit(b / 16) == high && HexDigit(b % 16) == low
  {
    var h, l := HexValue(high), HexValue(low);
    assert (h * 16 + l) / 16 == h && (h * 16 + l) % 16 == l;
  }

  lemma {:induction false} HexIsCanonical(s: string)
    requires FromHex(s).Some?
    ensures ToHex(FromHex(s).value) == s
  {
    if |s| > 0 {
      HexIsCanonical(s[2..]);
      HexDigitsOf(s[0], s[1]);
      HexOfOneMore(HexValue(s[0]) * 16 + HexValue(s[1]), FromHex(s[2..]).value);
      assert s == [s[0], s[1]] + s[2..];
    }
  }

  function LowerCase(c: char): char {
    if 'A' <= c <= 'Z' then (c as int - 'A' as int + 'a' as int) as char else c
  }

  function Lowered(s: string): (r: string)
    ensures |r| == |s|
  {
    seq(|s|, k requires 0 <= k < |s| => LowerCase(s[k]))
  }

  lemma HexIsLower(b: seq<Byte>)
    ensures Lowered(ToHex(b)) == ToHex(b)
  {
  }
}
