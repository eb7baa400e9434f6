/** The cache keys of the userinfo clients: "<user id>:<token prefix>". */
module UserKeys {

  function Digit(d: nat): (c: char)
    requires d < 10
  {
    "0123456789"[d]
  }

  function Digits(n: nat): (s: string) {
    if n < 10 then [Digit(n)] else Digits(n / 10) + [Digit(n % 10)]
  }

  /** An integer as `str` formats it. */
  function Decimal(i: int): (s: string) {
    if i < 0 then "-" + Digits(-i) else Digits(i)
  }

  function UserPrefix(userId: int): (s: string) {
    Decimal(userId) + ":"
  }

  function CacheKey(userId: int, tokenPrefix: string): (s: string) {
    UserPrefix(userId) + tokenPrefix
  }

  /** The number a string of digits denotes. */
  function DigitsValue(s: string): (n: int) {
    if s == [] then 0 else 10 * DigitsValue(s[..|s| - 1]) + (s[|s| - 1] as int - '0' as int)
  }

  lemma {:induction false} DigitsDenote(n: nat)
    ensures DigitsValue(Digits(n)) == n
    ensures Digits(n) != [] && forall c :: c in Digits(n) ==> '0' <= c <= '9'
  {
    assert Digit(n % 10) as int - '0' as int == n % 10;
    if n < 10 {
      assert [Digit(n)][..0] == [];
    } else {
      DigitsDenote(n / 10);
      assert Digits(n)[..|Digits(n)| - 1] == Digits(n / 10);
    }
  }

  /** The shortest such string: no leading zero. */
  lemma {:induction false} NoLeadingZero(n: nat)
    ensures |Digits(n)| == 1 || Digits(n)[0] != '0'
  {
    if n >= 10 {
      NoLeadingZero(n / 10);
      if n / 10 < 10 { assert Digits(n)[0] == Digit(n / 10); }
    }
  }

  /** A formatted integer contains no colon. */
  lemma NoColon(i: int)
    ensures ':' !in Decimal(i)
  {
    DigitsDenote(if i < 0 then -i else i);
  }

  lemma DecimalIsInjective(i: int, j: int)
    requires Decimal(i) == Decimal(j)
    ensures i == j
  {
    DigitsDenote(if i < 0 then -i else i);
    DigitsDenote(if j < 0 then -j else j);
    if i < 0 {
      assert Decimal(i)[0] == '-';
      assert Decimal(i)[1..] == Digits(-i);
    }
    if j < 0 {
      assert Decimal(j)[0] == '-';
      assert Decimal(j)[1..] == Digits(-j);
    }
    if i >= 0 { assert Digits(i)[0] in Digits(i); }
    if j >= 0 { assert Digits(j)[0] in Digits(j); }
  }

  /** Two strings cut at their first colon: equal wholes have equal parts. */
  lemma CutAtColon(a: string, x: string, b: string, y: string)
    requires ':' !in a && ':' !in b && a + ":" + x == b + ":" + y
    ensures a == b && x == y
  {
    var s := a + ":" + x;
    assert forall i :: 0 <= i < |a| ==> s[i] == a[i] && a[i] != ':';
    assert forall i :: 0 <= i < |b| ==> s[i] == b[i] && b[i] != ':';
    assert s[|a|] == ':' && s[|b|] == ':';
    assert |a| == |b|;
    assert s[..|a|] == a && s[..|b|] == b;
    assert s[|a| + 1..] == x && s[|b| + 1..] == y;
  }

  /** The scan's test is an exact code for the user: 4 does not match 42, nor -4, nor 4's neighbour. */
  lemma PrefixNamesUser(userId: int, tokenPrefix: string, other: int)
    ensures UserPrefix(other) <= CacheKey(userId, tokenPrefix) <==> userId == other
  {
    var key := CacheKey(userId, tokenPrefix);
    if UserPrefix(other) <= key {
      var rest := key[|UserPrefix(other)|..];
      assert key == Decimal(other) + ":" + rest;
      assert key == Decimal(userId) + ":" + tokenPrefix;
      NoColon(userId);
      NoColon(other);
      CutAtColon(Decimal(userId), tokenPrefix, Decimal(other), rest);
      DecimalIsInjective(userId, other);
    }
  }

  /** Two calls share a cache slot only if they share both user and token prefix. */
  lemma KeysSeparateUsers(userId: int, tokenPrefix: string, other: int, otherPrefix: string)
    ensures CacheKey(userId, tokenPrefix) == CacheKey(other, otherPrefix) <==>
      userId == other && tokenPrefix == otherPrefix
  {
    if CacheKey(userId, tokenPrefix) == CacheKey(other, otherPrefix) {
      PrefixNamesUser(userId, tokenPrefix, other);
      NoColon(userId);
      CutAtColon(Decimal(userId), tokenPrefix, Decimal(other), otherPrefix);
    }
  }
}
