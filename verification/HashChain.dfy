/** Hash chains: each body commits to the digest of the one before, so the head determines the whole
    history. Instances for the stdio and runtime journals; the HTTP journal and the proof pack have
    theirs beside their models. */
module HashChain {
  import opened Common

  function Head<Body>(hash: Body -> Digest, genesis: Digest, bodies: seq<Body>): Digest {
    if bodies == [] then genesis else hash(bodies[|bodies| - 1])
  }

  ghost predicate Chained<Body>(hash: Body -> Digest, previous: Body -> Digest, genesis: Digest, bodies: seq<Body>) {
    forall i {:trigger bodies[i]} :: 0 <= i < |bodies| ==> previous(bodies[i]) == Head(hash, genesis, bodies[..i])
  }

  /** Two chains with one head: the shorter is the end of the longer, and if it is not all of it,
      some body of the longer hashes to the genesis value. */
  lemma {:induction false} SameHead<Body(!new)>(hash: Body -> Digest, previous: Body -> Digest, genesis: Digest,
                                                a: seq<Body>, b: seq<Body>)
    requires CollisionFree(hash)
    requires Chained(hash, previous, genesis, a) && Chained(hash, previous, genesis, b)
    requires Head(hash, genesis, a) == Head(hash, genesis, b) && |a| <= |b|
    ensures a == b[|b| - |a|..]
    ensures |a| < |b| ==> hash(b[|b| - |a| - 1]) == genesis
    decreases |a|
  {
    hide Chained, CollisionFree, Head;
    if a != [] {
      var (m, n) := (|a| - 1, |b| - 1);
      LastLink(hash, previous, genesis, a);
      LastLink(hash, previous, genesis, b);
      SameLast(hash, a[m], b[n]);
      SameHead(hash, previous, genesis, a[..m], b[..n]);
      OneMore(a, b, m, n);
    } else {
      Empty(hash, genesis, b);
    }
  }

  lemma LastLink<Body>(hash: Body -> Digest, previous: Body -> Digest, genesis: Digest, bodies: seq<Body>)
    requires Chained(hash, previous, genesis, bodies) && bodies != []
    ensures var n := |bodies| - 1;
            && Head(hash, genesis, bodies) == hash(bodies[n])
            && previous(bodies[n]) == Head(hash, genesis, bodies[..n])
            && Chained(hash, previous, genesis, bodies[..n])
  {
    PrefixIsChained(hash, previous, genesis, bodies, |bodies| - 1);
  }

  lemma SameLast<Body(!new)>(hash: Body -> Digest, x: Body, y: Body)
    requires CollisionFree(hash) && hash(x) == hash(y)
    ensures x == y
  {
  }

  lemma OneMore<Body>(a: seq<Body>, b: seq<Body>, m: nat, n: nat)
    requires |a| == m + 1 && |b| == n + 1 && m <= n && a[m] == b[n] && a[..m] == b[..n][n - m..]
    ensures a == b[n - m..]
  {
    assert a == a[..m] + [a[m]];
    assert b[n - m..] == b[..n][n - m..] + [b[n]];
  }

  lemma Empty<Body>(hash: Body -> Digest, genesis: Digest, b: seq<Body>)
    ensures Head(hash, genesis, []) == genesis
    ensures b != [] ==> Head(hash, genesis, b) == hash(b[|b| - 1])
    ensures b[|b|..] == []
  {
  }

  lemma PrefixIsChained<Body>(hash: Body -> Digest, previous: Body -> Digest, genesis: Digest, bodies: seq<Body>, n: nat)
    requires Chained(hash, previous, genesis, bodies) && n <= |bodies|
    ensures Chained(hash, previous, genesis, bodies[..n])
  {
    forall i | 0 <= i < n
      ensures previous(bodies[..n][i]) == Head(hash, genesis, bodies[..n][..i])
    {
      assert bodies[..n][i] == bodies[i] && bodies[..n][..i] == bodies[..i];
    }
  }

  ghost predicate IsDigestOf<Body(!new)>(hash: Body -> Digest, d: Digest) {
    exists body :: hash(body) == d
  }

  /** If nothing hashes to the genesis value, chains with one head are equal. */
  lemma SameHeadSameHistory<Body(!new)>(hash: Body -> Digest, previous: Body -> Digest, genesis: Digest,
                                        a: seq<Body>, b: seq<Body>)
    requires CollisionFree(hash) && !IsDigestOf(hash, genesis)
    requires Chained(hash, previous, genesis, a) && Chained(hash, previous, genesis, b)
    requires Head(hash, genesis, a) == Head(hash, genesis, b)
    ensures a == b
  {
    if |a| <= |b| {
      SameHead(hash, previous, genesis, a, b);
    } else {
      SameHead(hash, previous, genesis, b, a);
    }
  }

  /** Numbered chains need no such assumption unless one of them is empty. */
  lemma SameHeadNumbered<Body(!new)>(hash: Body -> Digest, previous: Body -> Digest, number: Body -> int, genesis: Digest,
                                     a: seq<Body>, b: seq<Body>)
    requires CollisionFree(hash)
    requires Chained(hash, previous, genesis, a) && Chained(hash, previous, genesis, b)
    requires forall i :: 0 <= i < |a| ==> number(a[i]) == i
    requires forall i :: 0 <= i < |b| ==> number(b[i]) == i
    requires Head(hash, genesis, a) == Head(hash, genesis, b)
    ensures a == b || ((a == [] || b == []) && IsDigestOf(hash, genesis))
  {
    if a != [] && b != [] {
      assert a[|a| - 1] == b[|b| - 1];
    }
    if |a| <= |b| {
      SameHead(hash, previous, genesis, a, b);
    } else {
      SameHead(hash, previous, genesis, b, a);
    }
  }
}
