/** Pieces of a sequence by their place in it, for the modules that read what they have written. */
module Places {
  /** `p` stands in `s` at position `i`. */
  ghost predicate StandsAt<T>(s: seq<T>, i: nat, p: seq<T>) {
    i + |p| <= |s| && s[i..i + |p|] == p
  }

  lemma PlaceFits<T>(s: seq<T>, i: nat, p: seq<T>)
    requires StandsAt(s, i, p)
    ensures i + |p| <= |s|
  {
  }

  lemma SplitAt<T>(s: seq<T>, i: nat, p: seq<T>, q: seq<T>)
    requires StandsAt(s, i, p + q)
    ensures StandsAt(s, i, p) && StandsAt(s, i + |p|, q)
  {
    var w := s[i..i + |p + q|];
    assert s[i..i + |p|] == w[..|p|] && s[i + |p|..i + |p| + |q|] == w[|p|..];
  }

  lemma ElementAt<T>(s: seq<T>, i: nat, p: seq<T>, k: nat)
    requires StandsAt(s, i, p) && k < |p|
    ensures i + k < |s| && s[i + k] == p[k]
  {
    assert s[i + k] == s[i..i + |p|][k];
  }

  lemma ElementsAt<T>(s: seq<T>, i: nat, p: seq<T>)
    requires StandsAt(s, i, p)
    ensures i + |p| <= |s| && forall k :: 0 <= k < |p| ==> s[i + k] == p[k]
  {
    forall k | 0 <= k < |p| ensures s[i + k] == p[k] {
      ElementAt(s, i, p, k);
    }
  }

  /** A piece of a piece. */
  lemma PartAt<T>(s: seq<T>, i: nat, p: seq<T>, a: nat, b: nat)
    requires StandsAt(s, i, p) && a <= b <= |p|
    ensures StandsAt(s, i + a, p[a..b])
  {
    forall k | 0 <= k < b - a ensures s[i + a + k] == p[a..b][k] {
      ElementAt(s, i, p, a + k);
    }
  }
}
