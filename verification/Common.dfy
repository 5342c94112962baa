/** Vocabulary shared by every component: results, digests, instants and the
    identifier formats that the evidence schemas check. */
module Common {

  datatype Option<+T> = None | Some(value: T)

  datatype Result<+T, +E> = Ok(value: T) | Err(error: E)

  /** A SHA-256 value. Digests are only ever compared, so their text is not modelled. */
  newtype Digest = d: int | 0 <= d

  /** A fixed-width ISO instant; text order on those is order on naturals. */
  type Time = nat

  const GENESIS: Digest := 0

  const MAX_SAFE_INTEGER := 0x1F_FFFF_FFFF_FFFF

  predicate SafeInteger(n: int) {
    -MAX_SAFE_INTEGER <= n <= MAX_SAFE_INTEGER
  }

  /** The idealisation of SHA-256: two contents with one digest are one content. */
  ghost predicate CollisionFree<Content(!new)>(hash: Content -> Digest) {
    forall a, b :: hash(a) == hash(b) ==> a == b
  }

  lemma SomeElement<T>(s: set<T>) returns (x: T)
    requires s != {}
    ensures x in s
  {
    x :| x in s;
  }

  predicate AlphaNumeric(c: char) {
    'A' <= c <= 'Z' || 'a' <= c <= 'z' || '0' <= c <= '9'
  }

  predicate StableId(s: string) {
    && 1 <= |s| <= 200
    && AlphaNumeric(s[0])
    && forall i :: 1 <= i < |s| ==> AlphaNumeric(s[i]) || s[i] in "_.:-"
  }

  predicate PrintableMediaType(s: string) {
    1 <= |s| <= 200 && forall i :: 0 <= i < |s| ==> ' ' <= s[i] <= '~'
  }

  /** Strict lexicographic order on sequences of code units. */
  predicate Precedes(a: seq<int>, b: seq<int>) {
    b != [] && (a == [] || a[0] < b[0] || (a[0] == b[0] && Precedes(a[1..], b[1..])))
  }

  function Units(s: string): seq<int> {
    seq(|s|, i requires 0 <= i < |s| => s[i] as int)
  }

  predicate StrictlyOrdered(ids: seq<string>) {
    forall i :: 1 <= i < |ids| ==> Precedes(Units(ids[i - 1]), Units(ids[i]))
  }
}
