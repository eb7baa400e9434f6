/**
 * `_parse_jwks`: a JSON Web Key Set document (section 5 of RFC 7517) to a map from key
 * ids to keys.
 *
 * `build` stands for the body of the `try` block up to the assignment: decoding `n` and
 * `e` and constructing the public key, with `None` for any exception.
 */
module JwkParser {
  import opened Wrappers
  import opened Base64Url

  type Key(!new)

  /** A parsed JSON value. */
  datatype Json =
    | Null
    | Bool(b: bool)
    | Number(x: real)
    | String(s: string)
    | Array(items: seq<Json>)
    | Object(fields: map<string, Json>)

  /** Python's truth value. */
  predicate Truthy(j: Json) {
    match j
    case Null => false
    case Bool(b) => b
    case Number(x) => x != 0.0
    case String(s) => s != ""
    case Array(items) => items != []
    case Object(fields) => fields != map[]
  }

  /** `d.get(name)`. */
  function Get(fields: map<string, Json>, name: string): Json {
    if name in fields then fields[name] else Null
  }

  /** The value as a dictionary key: `True` is the key 1, and lists and dictionaries are refused. */
  function Hashed(j: Json): (r: Option<Json>) {
    match j
    case Array(_) => None
    case Object(_) => None
    case Bool(b) => Some(Number(if b then 1.0 else 0.0))
    case _ => Some(j)
  }

  datatype Registered = Registered(kid: Json, key: Key)

  /** What one JWK contributes, if it is usable. */
  function Usable(build: (string, string) -> Option<Key>, jwk: Json): (r: Option<Registered>) {
    if !jwk.Object? || Get(jwk.fields, "kty") != String("RSA") then None else
    var kid, n, e := Get(jwk.fields, "kid"), Get(jwk.fields, "n"), Get(jwk.fields, "e");
    if !(Truthy(kid) && Truthy(n) && Truthy(e)) || !n.String? || !e.String? then None else
    var key, hashed := build(n.s, e.s), Hashed(kid);
    if key.None? || hashed.None? then None else Some(Registered(hashed.value, key.value))
  }

  predicate Readable(payload: Json) {
    && payload.Object?
    && "keys" in payload.fields
    && payload.fields["keys"].Array?
    && forall i :: 0 <= i < |payload.fields["keys"].items| ==> payload.fields["keys"].items[i].Object?
  }

  predicate AnyUsable(build: (string, string) -> Option<Key>, items: seq<Json>) {
    exists i :: 0 <= i < |items| && Usable(build, items[i]).Some?
  }

  /** The map that a list of JWKs leaves behind. */
  function Parsed(build: (string, string) -> Option<Key>, items: seq<Json>): (out: map<Json, Key>) {
    if items == [] then map[]
    else
      var before := Parsed(build, items[..|items| - 1]);
      var last := Usable(build, items[|items| - 1]);
      if last.None? then before else before[last.value.kid := last.value.key]
  }

  /**
   * Parses a document; `None` stands for the exception.
   *
   * Whatever `keys` is instead of a list, the source fails: a number or null cannot be
   * iterated, the characters of a string and the member names of an object have no `get`,
   * and an empty one leaves no usable key.
   */
  method ParseJwks(build: (string, string) -> Option<Key>, payload: Json) returns (r: Option<map<Json, Key>>)
    ensures r.Some? <==> Readable(payload) && AnyUsable(build, payload.fields["keys"].items)
    ensures r.Some? ==> r.value == Parsed(build, payload.fields["keys"].items) && r.value != map[]
  {
    if !payload.Object? || "keys" !in payload.fields || !payload.fields["keys"].Array? {
      return None;
    }
    var items := payload.fields["keys"].items;
    var out: map<Json, Key> := map[];
    for i := 0 to |items|
      invariant forall j :: 0 <= j < i ==> items[j].Object?
      invariant out == Parsed(build, items[..i])
    {
      assert items[..i + 1][..i] == items[..i];
      var jwk := items[i];
      if !jwk.Object? {
        return None;
      }
      var kty := Get(jwk.fields, "kty");
      if kty != String("RSA") {
        continue;
      }
      var kid, n, e := Get(jwk.fields, "kid"), Get(jwk.fields, "n"), Get(jwk.fields, "e");
      if !(Truthy(kid) && Truthy(n) && Truthy(e)) || !n.String? || !e.String? {
        continue;
      }
      var key := build(n.s, e.s);
      var hashed := Hashed(kid);
      if key.Some? && hashed.Some? {
        out := out[hashed.value := key.value];
      }
    }
    assert items[..|items|] == items;
    EmptyExactlyWhenUnusable(build, items);
    return if out == map[] then None else Some(out);
  }

  // ---------------------------------------------------------------------------
  // The last usable key wins
  // ---------------------------------------------------------------------------

  /** The `i`th JWK is usable under `kid`. */
  ghost predicate UsableAs(build: (string, string) -> Option<Key>, items: seq<Json>, i: nat, kid: Json) {
    i < |items| && Usable(build, items[i]).Some? && Usable(build, items[i]).value.kid == kid
  }

  ghost predicate LastUsableAs(build: (string, string) -> Option<Key>, items: seq<Json>, i: nat, kid: Json) {
    UsableAs(build, items, i, kid) && forall j: nat :: i < j ==> !UsableAs(build, items, j, kid)
  }

  /** A key id is in the map exactly when some JWK is usable under it, and has the key of the last such JWK. */
  lemma {:induction false} LastUsableWins(build: (string, string) -> Option<Key>, items: seq<Json>, kid: Json)
    ensures kid in Parsed(build, items) <==> exists i: nat :: UsableAs(build, items, i, kid)
    ensures kid in Parsed(build, items) ==> exists i: nat :: LastUsableAs(build, items, i, kid)
    ensures forall i: nat :: LastUsableAs(build, items, i, kid) ==>
      Parsed(build, items)[kid] == Usable(build, items[i]).value.key
    decreases |items|
  {
    if items != [] {
      var k := |items| - 1;
      var before := items[..k];
      LastUsableWins(build, before, kid);
      forall i: nat
        ensures UsableAs(build, items, i, kid) ==
          (UsableAs(build, before, i, kid) || (i == k && UsableAs(build, items, k, kid)))
      {
      }
      if UsableAs(build, items, k, kid) {
        assert LastUsableAs(build, items, k, kid);
      } else {
        SkippedJwk(build, items, kid);
        if i: nat :| LastUsableAs(build, before, i, kid) {
          assert LastUsableAs(build, items, i, kid);
        }
      }
    }
  }

  lemma SkippedJwk(build: (string, string) -> Option<Key>, items: seq<Json>, kid: Json)
    requires items != [] && !UsableAs(build, items, |items| - 1, kid)
    ensures forall i: nat :: LastUsableAs(build, items, i, kid) == LastUsableAs(build, items[..|items| - 1], i, kid)
  {
    var before := items[..|items| - 1];
    assert forall j: nat :: UsableAs(build, items, j, kid) == UsableAs(build, before, j, kid);
    forall i: nat ensures LastUsableAs(build, items, i, kid) == LastUsableAs(build, before, i, kid) {
    }
  }

  lemma EmptyExactlyWhenUnusable(build: (string, string) -> Option<Key>, items: seq<Json>)
    ensures Parsed(build, items) == map[] <==> !AnyUsable(build, items)
  {
    if i :| 0 <= i < |items| && Usable(build, items[i]).Some? {
      var kid := Usable(build, items[i]).value.kid;
      assert UsableAs(build, items, i, kid);
      LastUsableWins(build, items, kid);
    } else if kid :| kid in Parsed(build, items) {
      LastUsableWins(build, items, kid);
    }
  }

  /** Parsing two lists one after the other overrides the first map with the second. */
  lemma {:induction false} ConcatenationOverrides(build: (string, string) -> Option<Key>, a: seq<Json>, b: seq<Json>)
    ensures Parsed(build, a + b) == Parsed(build, a) + Parsed(build, b)
    decreases |b|
  {
    if b == [] {
      assert a + b == a;
    } else {
      var k := |b| - 1;
      assert (a + b)[..|a + b| - 1] == a + b[..k] && (a + b)[|a + b| - 1] == b[k];
      ConcatenationOverrides(build, a, b[..k]);
      assert Parsed(build, a + b[..k]) == Parsed(build, a) + Parsed(build, b[..k]);
    }
  }

  /** An unusable JWK changes nothing, wherever it is put. */
  lemma UnusableIsSkipped(build: (string, string) -> Option<Key>, a: seq<Json>, jwk: Json, b: seq<Json>)
    requires Usable(build, jwk).None?
    ensures Parsed(build, a + [jwk] + b) == Parsed(build, a + b)
  {
    assert [jwk][..0] == [];
    assert Parsed(build, [jwk]) == map[];
    ConcatenationOverrides(build, a + [jwk], b);
    ConcatenationOverrides(build, a, [jwk]);
    ConcatenationOverrides(build, a, b);
  }

  // ---------------------------------------------------------------------------
  // What makes a JWK usable
  // ---------------------------------------------------------------------------

  predicate HasMember(jwk: Json, name: string, value: Json) {
    jwk.Object? && name in jwk.fields && jwk.fields[name] == value
  }

  /** The ids a key can be registered under: nonempty strings, numbers other than 0, and `true`, which is 1. */
  predicate NamesKey(id: Json, kid: Json) {
    match id
    case String(s) => s != "" && kid == id
    case Number(x) => x != 0.0 && kid == id
    case Bool(b) => b && kid == Number(1.0)
    case _ => false
  }

  /**
   * The JWK is an RSA key with an id that names `kid`, and nonempty texts `n` and `e` of
   * which `key` can be built.  Nothing else about it matters.
   */
  ghost predicate Offers(build: (string, string) -> Option<Key>, jwk: Json, kid: Json, key: Key) {
    && HasMember(jwk, "kty", String("RSA"))
    && (exists id :: HasMember(jwk, "kid", id) && NamesKey(id, kid))
    && (exists n, e :: n != "" && e != "" && HasMember(jwk, "n", String(n)) && HasMember(jwk, "e", String(e)) &&
         build(n, e) == Some(key))
  }

  lemma UsableExactlyWhen(build: (string, string) -> Option<Key>, jwk: Json, kid: Json, key: Key)
    ensures Usable(build, jwk) == Some(Registered(kid, key)) <==> Offers(build, jwk, kid, key)
  {
    if Usable(build, jwk) == Some(Registered(kid, key)) {
      var id, n, e := jwk.fields["kid"], jwk.fields["n"].s, jwk.fields["e"].s;
      assert HasMember(jwk, "kid", id) && NamesKey(id, kid);
      assert HasMember(jwk, "n", String(n)) && HasMember(jwk, "e", String(e)) && build(n, e) == Some(key);
    }
    if Offers(build, jwk, kid, key) {
      var id :| HasMember(jwk, "kid", id) && NamesKey(id, kid);
      var n, e :| n != "" && e != "" && HasMember(jwk, "n", String(n)) && HasMember(jwk, "e", String(e)) &&
        build(n, e) == Some(key);
      assert Get(jwk.fields, "n") == String(n) && Get(jwk.fields, "e") == String(e);
    }
  }

  /**
   * What one more JWK does to the map, whatever other members it carries: if it offers a
   * key for a kid it registers that key, and otherwise it changes nothing.
   */
  lemma OneJwkContributes(build: (string, string) -> Option<Key>, items: seq<Json>, jwk: Json)
    ensures forall kid, key :: Offers(build, jwk, kid, key) ==>
      Parsed(build, items + [jwk]) == Parsed(build, items)[kid := key]
    ensures (forall kid, key :: !Offers(build, jwk, kid, key)) ==> Parsed(build, items + [jwk]) == Parsed(build, items)
  {
    assert (items + [jwk])[..|items|] == items;
    forall kid, key ensures Usable(build, jwk) == Some(Registered(kid, key)) <==> Offers(build, jwk, kid, key) {
      UsableExactlyWhen(build, jwk, kid, key);
    }
    if Usable(build, jwk).Some? {
      assert Offers(build, jwk, Usable(build, jwk).value.kid, Usable(build, jwk).value.key);
    }
  }

  ghost predicate OffersKey(build: (string, string) -> Option<Key>, jwk: Json) {
    exists kid, key :: Offers(build, jwk, kid, key)
  }

  lemma UsableIfOffered(build: (string, string) -> Option<Key>, jwk: Json)
    ensures Usable(build, jwk).Some? <==> OffersKey(build, jwk)
  {
    if Usable(build, jwk).Some? {
      UsableExactlyWhen(build, jwk, Usable(build, jwk).value.kid, Usable(build, jwk).value.key);
    }
    if OffersKey(build, jwk) {
      var kid, key :| Offers(build, jwk, kid, key);
      UsableExactlyWhen(build, jwk, kid, key);
    }
  }

  /** A list of JWKs leaves a key behind, so that its document is read, if and only if one of them offers one. */
  lemma ReadExactlyWhenOffered(build: (string, string) -> Option<Key>, items: seq<Json>)
    ensures Parsed(build, items) != map[] <==> exists i :: 0 <= i < |items| && OffersKey(build, items[i])
  {
    EmptyExactlyWhenUnusable(build, items);
    forall i | 0 <= i < |items| ensures Usable(build, items[i]).Some? <==> OffersKey(build, items[i]) {
      UsableIfOffered(build, items[i]);
    }
  }

  /** The payload is an object with a list of objects as its member `keys`, whatever else it has. */
  predicate IsKeySet(payload: Json, items: seq<Json>) {
    HasMember(payload, "keys", Array(items)) && forall jwk :: jwk in items ==> jwk.Object?
  }

  /** What `ParseJwks` reads, and where it fails, in terms of what the document says. */
  lemma ReadsExactlyKeySets(build: (string, string) -> Option<Key>, payload: Json)
    ensures Readable(payload) && AnyUsable(build, payload.fields["keys"].items) <==>
      exists items, jwk :: IsKeySet(payload, items) && jwk in items && OffersKey(build, jwk)
  {
    if Readable(payload) {
      var items := payload.fields["keys"].items;
      assert IsKeySet(payload, items);
      forall i | 0 <= i < |items| ensures Usable(build, items[i]).Some? <==> OffersKey(build, items[i]) {
        UsableIfOffered(build, items[i]);
      }
      if AnyUsable(build, items) {
        var i :| 0 <= i < |items| && Usable(build, items[i]).Some?;
        assert items[i] in items;
      }
    }
  }

  // ---------------------------------------------------------------------------
  // Reading back a published key set
  // ---------------------------------------------------------------------------

  /** An RSA public key with its id, as an identity provider holds it. */
  datatype Public = Public(kid: string, n: nat, e: nat)

  /**
   * A JWK of it, with `n` and `e` in Base64urlUInt form (section 6.3.1 of RFC 7518), and
   * any other members (`use`, `alg`, `x5c` and so on).
   */
  predicate IsJwk(jwk: Json, p: Public) {
    && HasMember(jwk, "kty", String("RSA")) && HasMember(jwk, "kid", String(p.kid))
    && HasMember(jwk, "n", String(Encode(MinimalOctets(p.n)))) &&
        HasMember(jwk, "e", String(Encode(MinimalOctets(p.e))))
  }

  predicate IsDocument(items: seq<Json>, ps: seq<Public>) {
    |items| == |ps| && forall i :: 0 <= i < |ps| ==> IsJwk(items[i], ps[i])
  }

  /** The try block, with `make` for the library's key construction from numbers `n` and `e`. */
  function Building(make: (nat, nat) -> Option<Key>): (string, string) -> Option<Key> {
    (n: string, e: string) =>
      if ToInt(e).None? || ToInt(n).None? then None else make(ToInt(n).value, ToInt(e).value)
  }

  lemma JwkIsUsable(make: (nat, nat) -> Option<Key>, jwk: Json, p: Public)
    requires IsJwk(jwk, p) && p.kid != "" && make(p.n, p.e).Some?
    ensures Usable(Building(make), jwk) == Some(Registered(String(p.kid), make(p.n, p.e).value))
  {
    Base64UrlUIntRoundTrip(p.n);
    Base64UrlUIntRoundTrip(p.e);
    EncodedIsNotEmpty(p.n);
    EncodedIsNotEmpty(p.e);
  }

  predicate Publishable(make: (nat, nat) -> Option<Key>, ps: seq<Public>) {
    && (forall i :: 0 <= i < |ps| ==> ps[i].kid != "" && make(ps[i].n, ps[i].e).Some?)
    && forall i, j :: 0 <= i < j < |ps| ==> ps[i].kid != ps[j].kid
  }

  lemma DocumentIsUsable(make: (nat, nat) -> Option<Key>, items: seq<Json>, ps: seq<Public>, i: nat, kid: Json)
    requires Publishable(make, ps) && IsDocument(items, ps)
    ensures UsableAs(Building(make), items, i, kid) <==> i < |ps| && kid == String(ps[i].kid)
    ensures i < |ps| ==>
      Usable(Building(make), items[i]) == Some(Registered(String(ps[i].kid), make(ps[i].n, ps[i].e).value))
  {
    if i < |ps| { JwkIsUsable(make, items[i], ps[i]); }
  }

  /**
   * A key set published under distinct, nonempty ids, whatever other members its JWKs
   * carry, is read back completely: each id maps to the key made of its own two numbers,
   * and no other id is in the map.
   */
  lemma PublishedKeysAreRead(make: (nat, nat) -> Option<Key>, items: seq<Json>, ps: seq<Public>, kid: Json)
    requires Publishable(make, ps) && IsDocument(items, ps)
    ensures kid in Parsed(Building(make), items) <==> exists i :: 0 <= i < |ps| && kid == String(ps[i].kid)
    ensures kid in Parsed(Building(make), items) ==>
      forall i :: 0 <= i < |ps| && kid == String(ps[i].kid) ==>
        Some(Parsed(Building(make), items)[kid]) == make(ps[i].n, ps[i].e)
  {
    var build := Building(make);
    LastUsableWins(build, items, kid);
    if kid in Parsed(build, items) {
      var i: nat :| UsableAs(build, items, i, kid);
      DocumentIsUsable(make, items, ps, i, kid);
    }
    forall i: nat | i < |ps| && kid == String(ps[i].kid)
      ensures kid in Parsed(build, items) && Some(Parsed(build, items)[kid]) == make(ps[i].n, ps[i].e)
    {
      PublishedOnce(make, items, ps, i);
    }
  }

  lemma PublishedOnce(make: (nat, nat) -> Option<Key>, items: seq<Json>, ps: seq<Public>, i: nat)
    requires Publishable(make, ps) && IsDocument(items, ps) && i < |ps|
    ensures String(ps[i].kid) in Parsed(Building(make), items)
    ensures Some(Parsed(Building(make), items)[String(ps[i].kid)]) == make(ps[i].n, ps[i].e)
  {
    var build, kid := Building(make), String(ps[i].kid);
    forall j: nat ensures UsableAs(build, items, j, kid) <==> j == i {
      DocumentIsUsable(make, items, ps, j, kid);
    }
    DocumentIsUsable(make, items, ps, i, kid);
    assert LastUsableAs(build, items, i, kid);
    LastUsableWins(build, items, kid);
  }
}
