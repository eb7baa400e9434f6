/**
 * `AuthConfig.is_public_path`: which request paths skip authentication.
 *
 * The source compares strings; what it decides is a comparison of path segments.
 */
module PublicPaths {

  function RStrip(p: string): (q: string)
    ensures q <= p
  {
    if p != "" && p[|p| - 1] == '/' then RStrip(p[..|p| - 1]) else p
  }

  predicate Matches(p: string, path: string) {
    path == p || RStrip(p) + "/" <= path
  }

  /** `any(... for p in public_paths)`. */
  predicate IsPublicPath(publicPaths: seq<string>, path: string) {
    publicPaths != [] && (Matches(publicPaths[0], path) || IsPublicPath(publicPaths[1..], path))
  }

  // ---------------------------------------------------------------------------
  // Segments
  // ---------------------------------------------------------------------------

  /** The segments of a path, separated by slashes; there is always at least one. */
  function Split(s: string): (segments: seq<string>)
    ensures segments != []
  {
    if s == "" then [""] else WithChar(s[0], Split(s[1..]))
  }

  /** The segments when one more character stands in front. */
  function WithChar(c: char, segments: seq<string>): (r: seq<string>)
    requires segments != []
    ensures r != []
  {
    if c == '/' then [""] + segments else [[c] + segments[0]] + segments[1..]
  }

  function Join(segments: seq<string>): (s: string)
    requires segments != []
  {
    if |segments| == 1 then segments[0] else segments[0] + "/" + Join(segments[1..])
  }

  lemma {:induction false} JoinOfSplit(s: string)
    ensures Join(Split(s)) == s
  {
    if s != "" {
      var rest := Split(s[1..]);
      JoinOfSplit(s[1..]);
      if s[0] == '/' {
        assert Split(s)[1..] == rest;
      } else if |rest| > 1 {
        assert Split(s)[1..] == rest[1..];
        assert Join(Split(s)) == [s[0]] + rest[0] + "/" + Join(rest[1..]);
      }
    }
  }

  lemma {:induction false} SplitAtSlash(a: string, b: string)
    ensures Split(a + "/" + b) == Split(a) + Split(b)
  {
    var t := a + "/" + b;
    if a == "" {
      assert t[1..] == b;
    } else {
      SplitAtSlash(a[1..], b);
      assert t[0] == a[0] && t[1..] == a[1..] + "/" + b;
      WithCharConcat(a[0], Split(a[1..]), Split(b));
    }
  }

  lemma WithCharConcat(c: char, a: seq<string>, b: seq<string>)
    requires a != []
    ensures WithChar(c, a + b) == WithChar(c, a) + b
  {
    assert (a + b)[1..] == a[1..] + b;
  }

  lemma {:induction false} JoinOfConcat(a: seq<string>, b: seq<string>)
    requires a != [] && b != []
    ensures Join(a + b) == Join(a) + "/" + Join(b)
  {
    assert (a + b)[1..] == a[1..] + b;
    if |a| > 1 {
      JoinOfConcat(a[1..], b);
    }
  }

  // ---------------------------------------------------------------------------
  // Matching is by whole segments
  // ---------------------------------------------------------------------------

  /** `q` followed by a slash begins the path exactly when its segments are a proper prefix of the path's. */
  lemma BeginsWithSlashExactlyWhen(q: string, path: string)
    ensures q + "/" <= path <==> Split(q) < Split(path)
  {
    if q + "/" <= path {
      var rest := path[|q| + 1..];
      assert path == q + "/" + rest;
      SplitAtSlash(q, rest);
    }
    if Split(q) < Split(path) {
      var rest := Split(path)[|Split(q)|..];
      assert Split(path) == Split(q) + rest;
      JoinOfConcat(Split(q), rest);
      JoinOfSplit(q);
      JoinOfSplit(path);
    }
  }

  lemma SameSegmentsSamePath(a: string, b: string)
    requires Split(a) == Split(b)
    ensures a == b
  {
    JoinOfSplit(a);
    JoinOfSplit(b);
  }

  predicate EndsInSlash(p: string) {
    p != "" && p[|p| - 1] == '/'
  }

  /** What is stripped is slashes only, and all of them. */
  lemma {:induction false} RStripLeavesSlashes(p: string)
    ensures !EndsInSlash(RStrip(p))
    ensures forall i :: |RStrip(p)| <= i < |p| ==> p[i] == '/'
    ensures !EndsInSlash(p) <==> RStrip(p) == p
  {
    if EndsInSlash(p) { RStripLeavesSlashes(p[..|p| - 1]); }
  }

  /**
   * An entry without a trailing slash matches a path exactly when its segments are a prefix
   * of the path's; one with trailing slashes exactly when the segments before them are a
   * proper prefix.
   */
  lemma MatchesBySegments(p: string, path: string)
    ensures Matches(p, path) <==>
      if EndsInSlash(p) then Split(RStrip(p)) < Split(path) else Split(p) <= Split(path)
  {
    var q := RStrip(p);
    RStripLeavesSlashes(p);
    BeginsWithSlashExactlyWhen(q, path);
    if EndsInSlash(p) {
      assert p[|q|] == '/';
      assert q + "/" == p[..|q| + 1];
    } else if Split(p) == Split(path) {
      SameSegmentsSamePath(p, path);
    }
  }

  /** A path is public exactly when some configured entry covers its leading segments. */
  lemma {:induction false} PublicExactlyWhen(publicPaths: seq<string>, path: string)
    ensures IsPublicPath(publicPaths, path) <==>
      exists p :: p in publicPaths &&
        if EndsInSlash(p) then Split(RStrip(p)) < Split(path) else Split(p) <= Split(path)
  {
    if publicPaths != [] {
      MatchesBySegments(publicPaths[0], path);
      PublicExactlyWhen(publicPaths[1..], path);
      assert forall p :: p in publicPaths <==> p == publicPaths[0] || p in publicPaths[1..];
    }
  }

  /** Only whole segments count: an entry "/health" does not make "/healthz" public. */
  lemma SiblingIsNotPublic(p: string, c: char, rest: string)
    requires c != '/' && !EndsInSlash(p)
    ensures !Matches(p, p + [c] + rest)
  {
    assert (p + [c] + rest)[|p|] == c;
    RStripLeavesSlashes(p);
  }
}
