/**
 * `_b64url_to_int`: the base64url integers of JSON Web Keys.
 *
 * Padding, decoding and the big-endian reading are modelled separately, as in the
 * source.  Characters are turned into six-bit digits first; four digits make three
 * octets, and only the last group may be incomplete.
 */
module Base64Url {
  import opened Wrappers

  type Byte = n: nat | n < 256
  type Six = n: nat | n < 64

  // ---------------------------------------------------------------------------
  // Characters and digits
  // ---------------------------------------------------------------------------

  /** The value of a base64 character.  The decoder maps '-' and '_' onto '+' and '/', so it takes both. */
  function Sextet(c: char): (r: Option<Six>) {
    if 'A' <= c <= 'Z' then Some(c as int - 'A' as int)
    else if 'a' <= c <= 'z' then Some(c as int - 'a' as int + 26)
    else if '0' <= c <= '9' then Some(c as int - '0' as int + 52)
    else if c == '-' || c == '+' then Some(62)
    else if c == '_' || c == '/' then Some(63)
    else None
  }

  predicate Alphabetic(s: string) {
    forall i :: 0 <= i < |s| ==> Sextet(s[i]).Some?
  }

  function Digits(s: string): (d: seq<Six>)
    requires Alphabetic(s)
  {
    seq(|s|, i requires 0 <= i < |s| => Sextet(s[i]).value)
  }

  /** The URL-safe character of a digit. */
  function Char(d: Six): (c: char) {
    if d < 26 then ('A' as int + d) as char
    else if d < 52 then ('a' as int + d - 26) as char
    else if d < 62 then ('0' as int + d - 52) as char
    else if d == 62 then '-' else '_'
  }

  const Upper := "ABCDEFGHIJKLMNOPQRSTUVWXYZ"
  const Lower := "abcdefghijklmnopqrstuvwxyz"
  const Decimals := "0123456789"

  const Standard := Upper + Lower + Decimals + "+/"
  const UrlSafe := Upper + Lower + Decimals + "-_"

  lemma UpperAt(d: Six)
    requires d < 26
    ensures Upper[d] == Char(d)
  {
  }

  lemma LowerAt(d: Six)
    requires 26 <= d < 52
    ensures Lower[d - 26] == Char(d)
  {
  }

  lemma DecimalAt(d: Six)
    requires 52 <= d < 62
    ensures Decimals[d - 52] == Char(d)
  {
  }

  /** A character's value is its place in either of the two alphabets (sections 4 and 5 of RFC 4648). */
  lemma SextetIsIndex(c: char, d: Six)
    ensures Sextet(c) == Some(d) <==> Standard[d] == c || UrlSafe[d] == c
  {
    if d < 26 {
      UpperAt(d);
    } else if d < 52 {
      LowerAt(d);
    } else if d < 62 {
      DecimalAt(d);
    }
  }

  function Text(d: seq<Six>): (s: string) {
    seq(|d|, i requires 0 <= i < |d| => Char(d[i]))
  }

  lemma SextetOfChar(d: Six)
    ensures Sextet(Char(d)) == Some(d)
  {
  }

  lemma DigitsOfText(d: seq<Six>)
    ensures Alphabetic(Text(d)) && Digits(Text(d)) == d
  {
    forall i | 0 <= i < |d| ensures Sextet(Text(d)[i]) == Some(d[i]) { SextetOfChar(d[i]); }
  }

  // ---------------------------------------------------------------------------
  // Decoding
  // ---------------------------------------------------------------------------

  function Padding(n: nat): string {
    if n == 0 then "" else Padding(n - 1) + "="
  }

  /** `value + "=" * (-len(value) % 4)`; Python's `%` is never negative here, as Dafny's is not. */
  function Padded(value: string): string {
    value + Padding((-|value|) % 4)
  }

  function WithoutPadding(t: string): string {
    if t != [] && t[|t| - 1] == '=' then WithoutPadding(t[..|t| - 1]) else t
  }

  /** Three octets for four digits; two or three digits left over give one octet or two. */
  function DecodeDigits(d: seq<Six>): (r: Option<seq<Byte>>) {
    if |d| == 0 then Some([])
    else if |d| == 1 then None
    else if |d| == 2 then Some([Octet1(d[0], d[1])])
    else if |d| == 3 then Some([Octet1(d[0], d[1]), Octet2(d[1], d[2])])
    else
      var rest := DecodeDigits(d[4..]);
      if rest.None? then None
      else Some([Octet1(d[0], d[1]), Octet2(d[1], d[2]), Octet3(d[2], d[3])] + rest.value)
  }

  function Octet1(x: Six, y: Six): (r: Byte) {
    4 * (x as nat) + y as nat / 16
  }

  function Octet2(y: Six, z: Six): (r: Byte) {
    16 * (y as nat % 16) + z as nat / 4
  }

  function Octet3(z: Six, w: Six): (r: Byte) {
    64 * (z as nat % 4) + w as nat
  }

  /** Decoding of padded text. */
  function Decode(t: string): (r: Option<seq<Byte>>) {
    var data := WithoutPadding(t);
    if Alphabetic(data) && |t| == |Padded(data)| then DecodeDigits(Digits(data)) else None
  }

  /** Reading on in octets, big end first, from what has been read so far. */
  function ReadOctets(sofar: nat, bs: seq<Byte>): (n: nat)
    decreases |bs|
  {
    if bs == [] then sofar else ReadOctets(256 * sofar + bs[0], bs[1..])
  }

  /** `int.from_bytes(octets, "big")`. */
  function FromBytes(bs: seq<Byte>): (n: nat) {
    ReadOctets(0, bs)
  }

  /** The decoder; `None` stands for the exception. */
  function ToInt(value: string): (r: Option<nat>) {
    var bytes := Decode(Padded(value));
    if bytes.None? then None else Some(FromBytes(bytes.value))
  }

  lemma {:induction false} PaddingIsRemoved(s: string, n: nat)
    requires Alphabetic(s)
    ensures WithoutPadding(s + Padding(n)) == s && |Padding(n)| == n
  {
    if n == 0 {
      assert s + Padding(0) == s;
      if s != [] { assert Sextet(s[|s| - 1]).Some?; }
    } else {
      var t := s + Padding(n);
      assert t[..|t| - 1] == s + Padding(n - 1) && t[|t| - 1] == '=';
      PaddingIsRemoved(s, n - 1);
    }
  }

  /** Decoding a padded text over the alphabet is decoding its digits. */
  lemma DecodePadded(value: string)
    requires Alphabetic(value)
    ensures Decode(Padded(value)) == DecodeDigits(Digits(value))
  {
    PaddingIsRemoved(value, (-|value|) % 4);
  }

  // ---------------------------------------------------------------------------
  // What number a text denotes
  // ---------------------------------------------------------------------------

  /** Reading on in digits of base 64, from what has been read so far. */
  function ReadDigits(sofar: nat, d: seq<Six>): (n: nat)
    decreases |d|
  {
    if d == [] then sofar else ReadDigits(64 * sofar + d[0], d[1..])
  }

  /** Digits as a number in base 64. */
  function Number(d: seq<Six>): (n: nat) {
    ReadDigits(0, d)
  }

  /** By how much the bits of the last character that are not used scale the number. */
  function SpareScale(n: nat): (k: nat)
    ensures k > 0
  {
    if n % 4 == 2 then 16 else if n % 4 == 3 then 4 else 1
  }

  function Pow2(n: nat): (p: nat) {
    if n == 0 then 1 else 2 * Pow2(n - 1)
  }

  /** A text of `n` characters has 6n bits, of which 6n modulo 8 are spare. */
  lemma SpareScaleIsPow2(n: nat)
    requires n % 4 != 1
    ensures SpareScale(n) == Pow2(6 * n % 8)
  {
    var k := n / 4;
    if n % 4 == 0 { assert 6 * n == 8 * (3 * k); }
    if n % 4 == 2 { assert 6 * n == 8 * (3 * k + 1) + 4; }
    if n % 4 == 3 { assert 6 * n == 8 * (3 * k + 2) + 2; }
    assert Pow2(2) == 4 && Pow2(4) == 16;
  }

  lemma ReadTwoDigits(sofar: nat, d: seq<Six>)
    requires |d| >= 2
    ensures ReadDigits(sofar, d) == ReadDigits(64 * (64 * sofar + d[0]) + d[1], d[2..])
  {
    var d' := d[1..];
    assert ReadDigits(sofar, d) == ReadDigits(64 * sofar + d[0], d');
    assert d'[0] == d[1] && d'[1..] == d[2..];
  }

  lemma ReadTwoOctets(sofar: nat, bs: seq<Byte>)
    requires |bs| >= 2
    ensures ReadOctets(sofar, bs) == ReadOctets(256 * (256 * sofar + bs[0]) + bs[1], bs[2..])
  {
    var bs' := bs[1..];
    assert ReadOctets(sofar, bs) == ReadOctets(256 * sofar + bs[0], bs');
    assert bs'[0] == bs[1] && bs'[1..] == bs[2..];
  }

  /** What has been read after four more digits. */
  function FourMore(sofar: nat, x: Six, y: Six, z: Six, w: Six): (n: nat) {
    64 * (64 * (64 * (64 * sofar + x) + y) + z) + w
  }

  lemma ReadFour(sofar: nat, d: seq<Six>)
    requires |d| >= 4
    ensures ReadDigits(sofar, d) == ReadDigits(FourMore(sofar, d[0], d[1], d[2], d[3]), d[4..])
  {
    ReadTwoDigits(sofar, d);
    ReadTwoDigits(64 * (64 * sofar + d[0]) + d[1], d[2..]);
    assert d[2..][2..] == d[4..];
  }

  /** The three octets of four digits carry the same 24 bits. */
  lemma OctetsOfFour(sofar: nat, x: Six, y: Six, z: Six, w: Six)
    ensures 256 * (256 * (256 * sofar + Octet1(x, y)) + Octet2(y, z)) + Octet3(z, w) == FourMore(sofar, x, y, z, w)
  {
  }

  lemma ReadThree(sofar: nat, a: Byte, b: Byte, c: Byte, rest: seq<Byte>)
    ensures ReadOctets(sofar, [a, b, c] + rest) == ReadOctets(256 * (256 * (256 * sofar + a) + b) + c, rest)
  {
    var bs := [a, b, c] + rest;
    ReadTwoOctets(sofar, bs);
    assert bs[2..][0] == c && bs[2..][1..] == rest;
  }

  /** Four digits more, three octets more. */
  lemma FourDenote(sofar: nat, d: seq<Six>, rest: seq<Byte>)
    requires |d| >= 4 && DecodeDigits(d[4..]) == Some(rest)
    ensures exists now: nat ::
      && ReadDigits(sofar, d) == ReadDigits(now, d[4..])
      && ReadOctets(sofar, DecodeDigits(d).value) == ReadOctets(now, rest)
  {
    var now := FourMore(sofar, d[0], d[1], d[2], d[3]);
    ReadFour(sofar, d);
    OctetsOfFour(sofar, d[0], d[1], d[2], d[3]);
    ReadThree(sofar, Octet1(d[0], d[1]), Octet2(d[1], d[2]), Octet3(d[2], d[3]), rest);
  }

  /** The octets that two and three digits left over give. */
  lemma TwoDenote(sofar: nat, d: seq<Six>)
    requires |d| == 2
    ensures ReadOctets(sofar, DecodeDigits(d).value) == ReadDigits(sofar, d) / 16
  {
    ReadTwoDigits(sofar, d);
    SpareOfTwo(sofar, d[0], d[1]);
    OneLeft(sofar, Octet1(d[0], d[1]));
  }

  lemma ThreeDenote(sofar: nat, d: seq<Six>)
    requires |d| == 3
    ensures ReadOctets(sofar, DecodeDigits(d).value) == ReadDigits(sofar, d) / 4
  {
    ThreeLeft(sofar, d);
    SpareOfThree(sofar, d[0], d[1], d[2]);
    TwoLeft(sofar, Octet1(d[0], d[1]), Octet2(d[1], d[2]));
  }

  lemma OneLeft(sofar: nat, b: Byte)
    ensures ReadOctets(sofar, [b]) == 256 * sofar + b
  {
    assert [b][1..] == [];
  }

  lemma TwoLeft(sofar: nat, a: Byte, b: Byte)
    ensures ReadOctets(sofar, [a, b]) == 256 * (256 * sofar + a) + b
  {
    ReadTwoOctets(sofar, [a, b]);
  }

  lemma ThreeLeft(sofar: nat, d: seq<Six>)
    requires |d| == 3
    ensures ReadDigits(sofar, d) == 64 * (64 * (64 * sofar + d[0]) + d[1]) + d[2]
  {
    ReadTwoDigits(sofar, d);
    assert d[2..][0] == d[2] && d[2..][1..] == [];
  }

  /** Twelve bits of which four are spare; eighteen of which two are. */
  lemma SpareOfTwo(sofar: nat, x: Six, y: Six)
    ensures (64 * (64 * sofar + x) + y) / 16 == 256 * sofar + Octet1(x, y)
  {
  }

  lemma SpareOfThree(sofar: nat, x: Six, y: Six, z: Six)
    ensures (64 * (64 * (64 * sofar + x) + y) + z) / 4 == 256 * (256 * sofar + Octet1(x, y)) + Octet2(y, z)
  {
  }

  lemma {:induction false} DigitsDenote(sofar: nat, d: seq<Six>)
    ensures DecodeDigits(d).Some? <==> |d| % 4 != 1
    ensures DecodeDigits(d).Some? ==>
      ReadOctets(sofar, DecodeDigits(d).value) == ReadDigits(sofar, d) / SpareScale(|d|)
    decreases |d|
  {
    if |d| == 2 {
      TwoDenote(sofar, d);
    } else if |d| == 3 {
      ThreeDenote(sofar, d);
    } else if |d| >= 4 {
      SameSpare(|d|);
      DigitsDenote(0, d[4..]);
      if DecodeDigits(d[4..]).Some? {
        var rest := DecodeDigits(d[4..]).value;
        FourDenote(sofar, d, rest);
        var now: nat :| ReadDigits(sofar, d) == ReadDigits(now, d[4..]) &&
          ReadOctets(sofar, DecodeDigits(d).value) == ReadOctets(now, rest);
        DigitsDenote(now, d[4..]);
      }
    }
  }

  lemma SameSpare(n: nat)
    requires n >= 4
    ensures n % 4 == (n - 4) % 4 && SpareScale(n) == SpareScale(n - 4)
  {
  }

  /**
   * On text over the alphabet, decoding fails exactly when the length is 1 modulo 4, and
   * otherwise gives the base-64 number with the spare bits of the last character dropped.
   */
  lemma ToIntIsBase64Number(value: string)
    requires Alphabetic(value)
    ensures ToInt(value).Some? <==> |value| % 4 != 1
    ensures |value| % 4 != 1 ==>
      SpareScale(|value|) == Pow2(6 * |value| % 8) &&
      ToInt(value) == Some(Number(Digits(value)) / SpareScale(|value|))
  {
    DecodePadded(value);
    DigitsDenote(0, Digits(value));
    if |value| % 4 != 1 { SpareScaleIsPow2(|value|); }
  }

  /** Text that is padded already is read as its unpadded form is. */
  lemma PaddedReadsTheSame(value: string)
    requires Alphabetic(value)
    ensures ToInt(Padded(value)) == ToInt(value)
  {
    var n := (-|value|) % 4;
    PaddingIsRemoved(value, n);
    assert (|value| + n) % 4 == 0;
    assert Padded(Padded(value)) == Padded(value);
  }

  // ---------------------------------------------------------------------------
  // Round trip
  // ---------------------------------------------------------------------------

  /** Three octets to four digits; one or two left over to two or three. */
  function EncodeDigits(bs: seq<Byte>): (d: seq<Six>) {
    if |bs| == 0 then []
    else if |bs| == 1 then [Digit1(bs[0]), Digit2(bs[0], 0)]
    else if |bs| == 2 then [Digit1(bs[0]), Digit2(bs[0], bs[1]), Digit3(bs[1], 0)]
    else [Digit1(bs[0]), Digit2(bs[0], bs[1]), Digit3(bs[1], bs[2]), Digit4(bs[2])] + EncodeDigits(bs[3..])
  }

  function Digit1(a: Byte): (d: Six) {
    a as nat / 4
  }

  function Digit2(a: Byte, b: Byte): (d: Six) {
    16 * (a as nat % 4) + b as nat / 16
  }

  function Digit3(b: Byte, c: Byte): (d: Six) {
    4 * (b as nat % 16) + c as nat / 64
  }

  function Digit4(c: Byte): (d: Six) {
    c as nat % 64
  }

  /** Base64url without padding (section 5 of RFC 4648). */
  function Encode(bs: seq<Byte>): (s: string) {
    Text(EncodeDigits(bs))
  }

  lemma OctetsComeBack(a: Byte, b: Byte, c: Byte)
    ensures Octet1(Digit1(a), Digit2(a, b)) == a
    ensures Octet2(Digit2(a, b), Digit3(b, c)) == b
    ensures Octet3(Digit3(b, c), Digit4(c)) == c
  {
  }

  lemma DecodeFour(x: Six, y: Six, z: Six, w: Six, d: seq<Six>, bs: seq<Byte>)
    requires DecodeDigits(d) == Some(bs)
    ensures DecodeDigits([x, y, z, w] + d) == Some([Octet1(x, y), Octet2(y, z), Octet3(z, w)] + bs)
  {
    assert ([x, y, z, w] + d)[4..] == d;
  }

  lemma {:induction false} DigitsComeBack(bs: seq<Byte>)
    ensures DecodeDigits(EncodeDigits(bs)) == Some(bs)
    decreases |bs|
  {
    if |bs| == 1 {
      TailsComeBack(bs[0], 0, 0);
      assert bs == [bs[0]];
    } else if |bs| == 2 {
      TailsComeBack(bs[0], bs[1], 0);
      assert bs == [bs[0], bs[1]];
    } else if |bs| >= 3 {
      DigitsComeBack(bs[3..]);
      ThreeComeBack(bs[0], bs[1], bs[2], bs[3..]);
      assert bs == [bs[0], bs[1], bs[2]] + bs[3..];
    }
  }

  lemma DecodeTwo(x: Six, y: Six)
    ensures DecodeDigits([x, y]) == Some([Octet1(x, y)])
  {
  }

  lemma DecodeThree(x: Six, y: Six, z: Six)
    ensures DecodeDigits([x, y, z]) == Some([Octet1(x, y), Octet2(y, z)])
  {
  }

  lemma TailsComeBack(a: Byte, b: Byte, zero: Byte)
    ensures DecodeDigits([Digit1(a), Digit2(a, b)]) == Some([a])
    ensures DecodeDigits([Digit1(a), Digit2(a, b), Digit3(b, zero)]) == Some([a, b])
  {
    OctetsComeBack(a, b, zero);
    DecodeTwo(Digit1(a), Digit2(a, b));
    DecodeThree(Digit1(a), Digit2(a, b), Digit3(b, zero));
  }

  lemma ThreeComeBack(a: Byte, b: Byte, c: Byte, rest: seq<Byte>)
    requires DecodeDigits(EncodeDigits(rest)) == Some(rest)
    ensures DecodeDigits([Digit1(a), Digit2(a, b), Digit3(b, c), Digit4(c)] + EncodeDigits(rest)) ==
      Some([a, b, c] + rest)
  {
    OctetsComeBack(a, b, c);
    DecodeFour(Digit1(a), Digit2(a, b), Digit3(b, c), Digit4(c), EncodeDigits(rest), rest);
  }

  /** Decoding the unpadded base64url of any octets gives those octets back, and their number. */
  lemma DecodesEncodedOctets(bs: seq<Byte>)
    ensures Decode(Padded(Encode(bs))) == Some(bs) && ToInt(Encode(bs)) == Some(FromBytes(bs))
  {
    DigitsOfText(EncodeDigits(bs));
    DecodePadded(Encode(bs));
    DigitsComeBack(bs);
  }

  /** The octets of a number without leading zeros; zero is one zero octet. */
  function MinimalOctets(v: nat): (bs: seq<Byte>) {
    if v < 256 then [v] else MinimalOctets(v / 256) + [v % 256]
  }

  lemma {:induction false} ReadLast(sofar: nat, bs: seq<Byte>, b: Byte)
    ensures ReadOctets(sofar, bs + [b]) == 256 * ReadOctets(sofar, bs) + b
    decreases |bs|
  {
    if bs == [] {
      assert [] + [b] == [b];
    } else {
      assert (bs + [b])[1..] == bs[1..] + [b];
      ReadLast(256 * sofar + bs[0], bs[1..], b);
    }
  }

  lemma {:induction false} MinimalOctetsDenote(v: nat)
    ensures FromBytes(MinimalOctets(v)) == v
    ensures v > 0 ==> MinimalOctets(v)[0] != 0
  {
    if v < 256 {
      OneLeft(0, v);
    } else {
      MinimalOctetsDenote(v / 256);
      ReadLast(0, MinimalOctets(v / 256), v % 256);
    }
  }

  lemma EncodedIsNotEmpty(v: nat)
    ensures |Encode(MinimalOctets(v))| >= 2
  {
  }

  /** Base64urlUInt round trip (section 2 of RFC 7518): every natural number comes back. */
  lemma Base64UrlUIntRoundTrip(v: nat)
    ensures ToInt(Encode(MinimalOctets(v))) == Some(v)
  {
    MinimalOctetsDenote(v);
    DecodesEncodedOctets(MinimalOctets(v));
  }
}
