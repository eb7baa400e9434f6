/**
 * The recency order of the bounded JWKS cache.
 *
 * An `OrderedDict` is seen here through its key order, oldest key first.  `Store`
 * and `Touch` are what `_store_entry` and `_touch_entry` do to that order.  The
 * reference notion they are measured against is the stack distance: how many
 * other keys have been used since a key was last used.
 */
module Lru {

  datatype Op<T> = Stored(key: T) | Touched(key: T)

  function Elems<T(==, !new)>(s: seq<T>): (r: set<T>) {
    set x | x in s
  }

  predicate NoDups<T(==, !new)>(s: seq<T>) {
    forall i, j :: 0 <= i < j < |s| ==> s[i] != s[j]
  }

  /** The order with `u` taken out. */
  function Without<T(==, !new)>(order: seq<T>, u: T): (r: seq<T>) {
    if order == [] then []
    else
      var front, x := order[..|order| - 1], order[|order| - 1];
      if x == u then Without(front, u) else Without(front, u) + [x]
  }

  lemma {:induction false} WithoutElems<T(!new)>(order: seq<T>, u: T)
    ensures forall x :: x in Without(order, u) <==> x in order && x != u
    ensures u !in order ==> Without(order, u) == order
  {
    if order != [] { WithoutElems(order[..|order| - 1], u); }
  }

  lemma {:induction false} WithoutNoDups<T(!new)>(order: seq<T>, u: T)
    requires NoDups(order)
    ensures NoDups(Without(order, u))
    ensures |Without(order, u)| == if u in order then |order| - 1 else |order|
  {
    WithoutElems(order, u);
    if order != [] {
      var front, x := order[..|order| - 1], order[|order| - 1];
      WithoutNoDups(front, u);
      WithoutElems(front, u);
      assert x !in Without(front, u);
      assert u in order <==> u == x || u in front;
    }
  }

  /** The last `n` elements, or all of them. */
  function Suffix<T>(s: seq<T>, n: nat): (r: seq<T>) {
    if |s| <= n then s else s[|s| - n..]
  }

  function MoveToEnd<T(==, !new)>(order: seq<T>, u: T): (r: seq<T>) {
    Without(order, u) + [u]
  }

  function Store<T(==, !new)>(order: seq<T>, u: T, cap: nat): (r: seq<T>) {
    Suffix(MoveToEnd(order, u), cap)
  }

  function Touch<T(==, !new)>(order: seq<T>, u: T): (r: seq<T>) {
    if u in order then MoveToEnd(order, u) else order
  }

  function Apply<T(==, !new)>(order: seq<T>, op: Op<T>, cap: nat): (r: seq<T>) {
    match op
    case Stored(u) => Store(order, u, cap)
    case Touched(u) => Touch(order, u)
  }

  /** The key order after a trace of stores and touches on an empty cache. */
  function Run<T(==, !new)>(ops: seq<Op<T>>, cap: nat): (r: seq<T>) {
    if ops == [] then [] else Apply(Run(ops[..|ops| - 1], cap), ops[|ops| - 1], cap)
  }

  // ---------------------------------------------------------------------------
  // The reference: stack distance
  // ---------------------------------------------------------------------------

  /** The distinct values that occur after the last occurrence of `u`. */
  function After<T(==, !new)>(uses: seq<T>, u: T): (r: set<T>) {
    if uses == [] || uses[|uses| - 1] == u then {}
    else After(uses[..|uses| - 1], u) + {uses[|uses| - 1]}
  }

  /** `u` is among the `cap` most recently used distinct keys. */
  predicate Resident<T(==, !new)>(uses: seq<T>, cap: nat, u: T) {
    u in uses && |After(uses, u)| < cap
  }

  /** The uses that count: every store, and every touch of a resident key. */
  function EffectiveUses<T(==, !new)>(ops: seq<Op<T>>, cap: nat): (r: seq<T>) {
    if ops == [] then []
    else
      var before := EffectiveUses(ops[..|ops| - 1], cap);
      var op := ops[|ops| - 1];
      if op.Stored? || Resident(before, cap, op.key) then before + [op.key] else before
  }

  /** The distinct keys of a use trace, least recently used first. */
  function Recency<T(==, !new)>(uses: seq<T>): (r: seq<T>) {
    if uses == [] then [] else MoveToEnd(Recency(uses[..|uses| - 1]), uses[|uses| - 1])
  }

  lemma MoveToEndNoDups<T(!new)>(order: seq<T>, u: T)
    requires NoDups(order)
    ensures NoDups(MoveToEnd(order, u)) && Elems(MoveToEnd(order, u)) == Elems(order) + {u}
    ensures |MoveToEnd(order, u)| == if u in order then |order| else |order| + 1
  {
    WithoutNoDups(order, u);
    WithoutElems(order, u);
  }

  lemma {:induction false} RecencyNoDups<T(!new)>(uses: seq<T>)
    ensures NoDups(Recency(uses)) && Elems(Recency(uses)) == Elems(uses)
  {
    if uses != [] {
      var front, x := uses[..|uses| - 1], uses[|uses| - 1];
      RecencyNoDups(front);
      MoveToEndNoDups(Recency(front), x);
      assert Elems(uses) == Elems(front) + {x};
    }
  }

  lemma {:induction false} AfterWithout<T(!new)>(s: seq<T>, x: T, y: T)
    requires x != y
    ensures After(Without(s, x), y) == After(s, y) - {x}
  {
    if s != [] {
      var front, z := s[..|s| - 1], s[|s| - 1];
      AfterWithout(front, x, y);
      if z != x {
        assert (Without(front, x) + [z])[..|Without(front, x)|] == Without(front, x);
      }
    }
  }

  /** Recency keeps stack distances: what follows `u` in it was used after `u`. */
  lemma {:induction false} RecencyKeepsDistance<T(!new)>(uses: seq<T>, u: T)
    ensures After(Recency(uses), u) == After(uses, u)
  {
    if uses != [] {
      var front, x := uses[..|uses| - 1], uses[|uses| - 1];
      var r := Without(Recency(front), x);
      assert (r + [x])[..|r|] == r;
      RecencyKeepsDistance(front, u);
      if u != x { AfterWithout(Recency(front), x, u); }
    }
  }

  /** Every element of `After` does occur, so its size is at most the length. */
  lemma {:induction false} AfterOccurs<T(!new)>(s: seq<T>, u: T)
    ensures forall x :: x in After(s, u) ==> x in s
  {
    if s != [] { AfterOccurs(s[..|s| - 1], u); }
  }

  /** In a duplicate-free order, the last `cap` elements are those at distance below `cap`. */
  lemma {:induction false} SuffixByDistance<T(!new)>(order: seq<T>, cap: nat, u: T)
    requires NoDups(order)
    ensures u in Suffix(order, cap) <==> Resident(order, cap, u)
  {
    if order != [] && cap > 0 {
      var front, x := order[..|order| - 1], order[|order| - 1];
      SuffixByDistance(front, cap - 1, u);
      assert Suffix(order, cap) == Suffix(front, cap - 1) + [x];
      AfterOccurs(front, u);
    }
  }

  lemma WithoutSnoc<T(!new)>(s: seq<T>, x: T, u: T)
    ensures Without(s + [x], u) == if x == u then Without(s, u) else Without(s, u) + [x]
  {
    assert (s + [x])[..|s|] == s;
  }

  lemma SuffixSnoc<T(!new)>(s: seq<T>, x: T, n: nat)
    ensures Suffix(s + [x], n + 1) == Suffix(s, n) + [x]
  {
  }

  lemma {:induction false} SuffixAfterRemoval<T(!new)>(order: seq<T>, u: T, cap: nat)
    requires NoDups(order)
    ensures Suffix(Without(Suffix(order, cap + 1), u), cap) == Suffix(Without(order, u), cap)
  {
    if order != [] {
      var front, x := order[..|order| - 1], order[|order| - 1];
      assert order == front + [x];
      var kept := Suffix(front, cap);
      SuffixSnoc(front, x, cap);
      assert Suffix(order, cap + 1) == kept + [x];
      WithoutSnoc(kept, x, u);
      WithoutSnoc(front, x, u);
      if x == u {
        LastIsNew(front, x, cap);
      } else if cap > 0 {
        SuffixAfterRemoval(front, u, cap - 1);
        SuffixSnoc(Without(kept, u), x, cap - 1);
        SuffixSnoc(Without(front, u), x, cap - 1);
      }
    }
  }

  lemma LastIsNew<T(!new)>(front: seq<T>, x: T, cap: nat)
    requires NoDups(front + [x])
    ensures Without(front, x) == front && Without(Suffix(front, cap), x) == Suffix(front, cap)
    ensures Suffix(Suffix(front, cap), cap) == Suffix(front, cap)
  {
    assert (front + [x])[|front|] == x;
    assert forall i :: 0 <= i < |front| ==> (front + [x])[i] == front[i];
    WithoutElems(front, x);
    WithoutElems(Suffix(front, cap), x);
  }

  /** Evicting after every step loses nothing that evicting once at the end would keep. */
  lemma MoveThenTrim<T(!new)>(order: seq<T>, u: T, cap: nat)
    requires NoDups(order) && cap > 0
    ensures Store(Suffix(order, cap), u, cap) == Suffix(MoveToEnd(order, u), cap)
  {
    SuffixAfterRemoval(order, u, cap - 1);
    SuffixSnoc(Without(Suffix(order, cap), u), u, cap - 1);
    SuffixSnoc(Without(order, u), u, cap - 1);
  }

  /** A store on a capped order: the new key is last, and only the oldest may be lost. */
  lemma StoreElems<T(!new)>(order: seq<T>, u: T, cap: nat)
    requires NoDups(order) && |order| <= cap && cap > 0
    ensures var r := Store(order, u, cap);
      && NoDups(r) && 0 < |r| <= cap && r[|r| - 1] == u
      && Elems(r) == if u in order || |order| < cap then Elems(order) + {u} else Elems(order) - {order[0]} + {u}
  {
    if u in order || |order| < cap {
      MoveToEndNoDups(order, u);
      assert Store(order, u, cap) == MoveToEnd(order, u);
    } else {
      StoreOnFull(order, u);
    }
  }

  /** A new key on a full order pushes the oldest out. */
  lemma StoreOnFull<T(!new)>(order: seq<T>, u: T)
    requires NoDups(order) && u !in order && order != []
    ensures var r := Store(order, u, |order|);
      r == order[1..] + [u] && NoDups(r) && Elems(r) == Elems(order) - {order[0]} + {u}
  {
    MoveToEndNoDups(order, u);
    WithoutElems(order, u);
    var moved := order + [u];
    assert MoveToEnd(order, u) == moved;
    assert Store(order, u, |order|) == moved[1..];
    assert moved[1..] == order[1..] + [u];
    TailElems(moved);
    assert Elems(moved) == Elems(order) + {u};
  }

  lemma TailElems<T(!new)>(s: seq<T>)
    requires NoDups(s) && s != []
    ensures NoDups(s[1..]) && Elems(s[1..]) == Elems(s) - {s[0]}
  {
    forall x ensures x in s[1..] <==> x in s && x != s[0] {
      if x in s && x != s[0] {
        var i :| 0 <= i < |s| && s[i] == x;
        assert s[1..][i - 1] == x;
      }
    }
  }

  /** A touch of a cached key is a store without an eviction. */
  lemma TouchIsStore<T(!new)>(order: seq<T>, u: T, cap: nat)
    requires NoDups(order) && u in order && |order| <= cap
    ensures Touch(order, u) == Store(order, u, cap)
  {
    MoveToEndNoDups(order, u);
  }

  /** A use of `u` on the trimmed recency order gives the trimmed order of the longer use trace. */
  lemma UseTrims<T(!new)>(uses: seq<T>, u: T, cap: nat)
    requires cap > 0
    ensures Store(Suffix(Recency(uses), cap), u, cap) == Suffix(Recency(uses + [u]), cap)
    ensures NoDups(Suffix(Recency(uses), cap))
    ensures u in Suffix(Recency(uses), cap) <==> Resident(uses, cap, u)
  {
    var r := Recency(uses);
    RecencyNoDups(uses);
    assert u in r <==> u in Elems(r);
    assert (uses + [u])[..|uses|] == uses;
    SuffixByDistance(r, cap, u);
    RecencyKeepsDistance(uses, u);
    MoveThenTrim(r, u, cap);
  }

  lemma {:induction false} RunIsTrimmedRecency<T(!new)>(ops: seq<Op<T>>, cap: nat)
    requires cap > 0
    ensures Run(ops, cap) == Suffix(Recency(EffectiveUses(ops, cap)), cap)
  {
    if ops != [] {
      var before, op := ops[..|ops| - 1], ops[|ops| - 1];
      RunIsTrimmedRecency(before, cap);
      var uses := EffectiveUses(before, cap);
      UseTrims(uses, op.key, cap);
      var order := Suffix(Recency(uses), cap);
      if op.Touched? && op.key in order { TouchIsStore(order, op.key, cap); }
    }
  }

  /** The later of two keys of a duplicate-free order lies in the `After` of the earlier. */
  lemma {:induction false} LaterIsAfter<T(!new)>(order: seq<T>, i: nat, j: nat)
    requires NoDups(order) && i < j < |order|
    ensures order[j] in After(order, order[i])
  {
    if j < |order| - 1 { LaterIsAfter(order[..|order| - 1], i, j); }
  }

  lemma {:induction false} NoDupsCount<T(!new)>(s: seq<T>)
    requires NoDups(s)
    ensures |Elems(s)| == |s|
  {
    if s != [] {
      var front, x := s[..|s| - 1], s[|s| - 1];
      NoDupsCount(front);
      assert Elems(s) == Elems(front) + {x};
    }
  }

  /** The last `n` of a duplicate-free order, later keys lying after earlier ones. */
  lemma SuffixOrdered<T(!new)>(order: seq<T>, n: nat, i: nat, j: nat)
    requires NoDups(order) && i < j < |Suffix(order, n)|
    ensures Suffix(order, n)[j] in After(order, Suffix(order, n)[i])
  {
    var d := |order| - |Suffix(order, n)|;
    LaterIsAfter(order, d + i, d + j);
  }

  lemma RecencySize<T(!new)>(uses: seq<T>)
    ensures |Recency(uses)| == |Elems(uses)|
  {
    RecencyNoDups(uses);
    NoDupsCount(Recency(uses));
  }

  /**
   * LRU refines the recency specification: a key is cached exactly when fewer than
   * `cap` distinct keys were used since its last effective use, cached keys stand in
   * the order of those uses, the size is capped, and a key just stored stays.
   */
  lemma LruRefinesRecency<T(!new)>(ops: seq<Op<T>>, cap: nat)
    requires cap > 0
    ensures var order, uses := Run(ops, cap), EffectiveUses(ops, cap);
      && (forall u :: u in order <==> Resident(uses, cap, u))
      && (forall i, j :: 0 <= i < j < |order| ==> order[j] in After(uses, order[i]))
      && NoDups(order)
      && |order| == (if |Elems(uses)| < cap then |Elems(uses)| else cap)
      && (ops != [] && ops[|ops| - 1].Stored? ==> order != [] && order[|order| - 1] == ops[|ops| - 1].key)
  {
    var order, uses := Run(ops, cap), EffectiveUses(ops, cap);
    var r := Recency(uses);
    RunIsTrimmedRecency(ops, cap);
    RecencySize(uses);
    RecencyNoDups(uses);
    forall u ensures u in order <==> Resident(uses, cap, u) {
      assert u in r <==> u in Elems(r);
      SuffixByDistance(r, cap, u);
      RecencyKeepsDistance(uses, u);
    }
    forall i, j | 0 <= i < j < |order| ensures order[j] in After(uses, order[i]) {
      SuffixOrdered(r, cap, i, j);
      RecencyKeepsDistance(uses, order[i]);
    }
  }

  // ---------------------------------------------------------------------------
  // Inclusion between two capacities
  // ---------------------------------------------------------------------------

  /** `a` is `b` with some elements left out. */
  predicate Subseq<T(==, !new)>(a: seq<T>, b: seq<T>)
    decreases |b|
  {
    a == [] ||
    (b != [] &&
     if a[|a| - 1] == b[|b| - 1]
     then Subseq(a[..|a| - 1], b[..|b| - 1])
     else Subseq(a, b[..|b| - 1]))
  }

  lemma {:induction false} SubseqRefl<T(!new)>(a: seq<T>)
    ensures Subseq(a, a)
  {
    if a != [] { SubseqRefl(a[..|a| - 1]); }
  }

  lemma {:induction false} SubseqShrink<T(!new)>(a: seq<T>, b: seq<T>)
    requires Subseq(a, b) && a != []
    ensures Subseq(a[..|a| - 1], b)
    decreases |b|
  {
    var front := a[..|a| - 1];
    if front != [] {
      if a[|a| - 1] == b[|b| - 1] {
        if front[|front| - 1] == b[|b| - 1] { SubseqShrink(front, b[..|b| - 1]); }
      } else {
        SubseqShrink(a, b[..|b| - 1]);
        if front[|front| - 1] == b[|b| - 1] { SubseqShrink(front, b[..|b| - 1]); }
      }
    }
  }

  lemma SubseqGrow<T(!new)>(a: seq<T>, b: seq<T>, x: T)
    requires Subseq(a, b)
    ensures Subseq(a, b + [x])
  {
    assert (b + [x])[..|b|] == b;
    if a != [] && a[|a| - 1] == x { SubseqShrink(a, b); }
  }

  lemma SubseqSnoc<T(!new)>(a: seq<T>, b: seq<T>, x: T)
    requires Subseq(a, b)
    ensures Subseq(a + [x], b + [x])
  {
    assert (a + [x])[..|a|] == a && (b + [x])[..|b|] == b;
  }

  lemma {:induction false} SubseqWithout<T(!new)>(a: seq<T>, b: seq<T>, u: T)
    requires Subseq(a, b)
    ensures Subseq(Without(a, u), Without(b, u))
    decreases |b|
  {
    if a != [] {
      var b', x := b[..|b| - 1], b[|b| - 1];
      if a[|a| - 1] == x {
        SubseqWithout(a[..|a| - 1], b', u);
        if x != u { SubseqSnoc(Without(a[..|a| - 1], u), Without(b', u), x); }
      } else {
        SubseqWithout(a, b', u);
        if x != u { SubseqGrow(Without(a, u), Without(b', u), x); }
      }
    }
  }

  lemma {:induction false} SubseqDropFirst<T(!new)>(a: seq<T>, b: seq<T>)
    requires Subseq(a, b) && a != []
    ensures Subseq(a[1..], b) && Subseq(a[1..], b[1..])
    decreases |b|
  {
    if |a| > 1 {
      var a', b' := a[..|a| - 1], b[..|b| - 1];
      assert a[1..][..|a[1..]| - 1] == a'[1..];
      if a[|a| - 1] == b[|b| - 1] {
        SubseqDropFirst(a', b');
        assert b' != [];
        assert b[1..][..|b[1..]| - 1] == b'[1..];
      } else {
        SubseqDropFirst(a, b');
        assert b[1..][..|b[1..]| - 1] == b'[1..];
      }
    }
  }

  lemma {:induction false} SubseqElems<T(!new)>(a: seq<T>, b: seq<T>)
    requires Subseq(a, b)
    ensures forall x :: x in a ==> x in b
    ensures |a| <= |b|
    decreases |b|
  {
    if a != [] {
      var a', b' := a[..|a| - 1], b[..|b| - 1];
      if a[|a| - 1] == b[|b| - 1] {
        SubseqElems(a', b');
        assert forall x :: x in a ==> x in a' || x == b[|b| - 1];
      } else {
        SubseqElems(a, b');
      }
    }
  }

  /** What two runs of one trace agree on: nested orders, equal until the smaller cache is full. */
  ghost predicate Nested<T(!new)>(a: seq<T>, small: nat, b: seq<T>, large: nat) {
    && NoDups(a) && NoDups(b) && |a| <= small && |b| <= large
    && Subseq(a, b) && (|a| < small ==> a == b)
  }

  lemma NestedStore<T(!new)>(a: seq<T>, small: nat, b: seq<T>, large: nat, u: T)
    requires Nested(a, small, b, large) && 0 < small <= large
    ensures Nested(Store(a, u, small), small, Store(b, u, large), large)
  {
    StoreElems(a, u, small);
    StoreElems(b, u, large);
    if |a| < small {
      MoveToEndNoDups(a, u);
      SubseqRefl(MoveToEnd(a, u));
    } else {
      StoreSubseq(a, small, b, large, u);
    }
  }

  lemma MoveSubseq<T(!new)>(a: seq<T>, b: seq<T>, u: T)
    requires Subseq(a, b)
    ensures Subseq(MoveToEnd(a, u), MoveToEnd(b, u))
  {
    SubseqWithout(a, b, u);
    SubseqSnoc(Without(a, u), Without(b, u), u);
  }

  /** A full smaller cache: trimming both orders keeps one inside the other. */
  lemma TrimSubseq<T(!new)>(a: seq<T>, small: nat, b: seq<T>, large: nat)
    requires Subseq(a, b) && small <= |a| <= small + 1 && |b| <= large + 1
    requires |b| <= large || small < |a|
    ensures Subseq(Suffix(a, small), Suffix(b, large))
  {
    if small < |a| {
      SubseqDropFirst(a, b);
      assert Suffix(a, small) == a[1..];
      assert Suffix(b, large) == if |b| <= large then b else b[1..];
    }
  }

  lemma StoreSubseq<T(!new)>(a: seq<T>, small: nat, b: seq<T>, large: nat, u: T)
    requires NoDups(a) && NoDups(b) && Subseq(a, b) && |a| == small && |b| <= large && 0 < small <= large
    ensures Subseq(Store(a, u, small), Store(b, u, large)) && |Store(a, u, small)| == small
  {
    MoveToEndNoDups(a, u);
    MoveToEndNoDups(b, u);
    SubseqElems(a, b);
    MoveSubseq(a, b, u);
    TrimSubseq(MoveToEnd(a, u), small, MoveToEnd(b, u), large);
  }

  lemma NestedTouch<T(!new)>(a: seq<T>, small: nat, b: seq<T>, large: nat, u: T)
    requires Nested(a, small, b, large) && 0 < small <= large
    ensures Nested(Touch(a, u), small, Touch(b, u), large)
  {
    MoveToEndNoDups(a, u);
    MoveToEndNoDups(b, u);
    SubseqElems(a, b);
    SubseqWithout(a, b, u);
    WithoutElems(a, u);
    if u in a {
      SubseqSnoc(Without(a, u), Without(b, u), u);
    } else if u in b {
      SubseqGrow(a, Without(b, u), u);
    }
  }

  /** LRU inclusion: raising the cap never loses an entry nor reorders the kept ones. */
  lemma {:induction false} LruInclusion<T(!new)>(ops: seq<Op<T>>, small: nat, large: nat)
    requires 0 < small <= large
    ensures Subseq(Run(ops, small), Run(ops, large))
    ensures Nested(Run(ops, small), small, Run(ops, large), large)
  {
    if ops != [] {
      var before, op := ops[..|ops| - 1], ops[|ops| - 1];
      LruInclusion(before, small, large);
      if op.Stored? {
        NestedStore(Run(before, small), small, Run(before, large), large, op.key);
      } else {
        NestedTouch(Run(before, small), small, Run(before, large), large, op.key);
      }
    }
  }
}
