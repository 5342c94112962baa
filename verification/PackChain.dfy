/** The texts that a proof pack hashes: a seed that names the schema, and one link for each episode that
    names the head before it (src/proof-pack.ts). Nothing numbers the links, so it is their texts that must
    differ from one another and from the seed's. */
module PackChain {
  import opened Common
  import opened TextUnits
  import opened JsonStrings
  import opened JsonText
  import opened CanonicalOrder
  import opened CanonicalValues
  import opened CanonicalDigest

  /** What normalize makes of a parsed JSON value. */
  type NormalJson = j: Json | Canonical(j) witness JNull

  const SCHEMA: Text := [115, 99, 104, 101, 109, 97]
  const FRAMES_SCHEMA: Text := Ascii("gradia-wind-tunnel-frames.v1")
  const EPISODE: Text := [101, 112, 105, 115, 111, 100, 101]
  const PREV: Text := [112, 114, 101, 118]

  function Ascii(s: string): Text
    requires forall i :: 0 <= i < |s| ==> s[i] as int < 0x80
  {
    seq(|s|, i requires 0 <= i < |s| => s[i] as int as Unit)
  }

  // ----- digests as text -----

  /** The hexadecimal digits of a digest, at least so many. No bound is put on digests, since a function
      without collisions has no fixed-width values. */
  function HexDigits(d: nat, width: nat): Text
    decreases d, width
  {
    if d == 0 && width == 0 then []
    else HexDigits(d / 16, if width == 0 then 0 else width - 1) + [HexDigit(d % 16)]
  }

  function DigestText(d: Digest): Text { HexDigits(d as nat, 64) }

  function HexNumber(t: Text): nat {
    if t == [] then 0
    else
      match HexValue(t[|t| - 1])
      case None => 0
      case Some(n) => 16 * HexNumber(t[..|t| - 1]) + n
  }

  lemma {:induction false} ReadHexDigits(d: nat, width: nat)
    ensures HexNumber(HexDigits(d, width)) == d
    decreases d, width
  {
    hide HexValue, HexDigit;
    if d != 0 || width != 0 {
      var rest := HexDigits(d / 16, if width == 0 then 0 else width - 1);
      ReadHexDigits(d / 16, if width == 0 then 0 else width - 1);
      HexOfDigit(d % 16);
      assert HexDigits(d, width)[..|rest|] == rest;
    }
  }

  lemma DigestTextIdentifies(d: Digest, e: Digest)
    requires DigestText(d) == DigestText(e)
    ensures d == e
  {
    ReadHexDigits(d as nat, 64);
    ReadHexDigits(e as nat, 64);
  }

  // ----- seed and links -----

  function SeedValue(): NormalJson {
    var members := [Member(SCHEMA, JString(FRAMES_SCHEMA))];
    assert Canonical(members[0].value);
    JObject(members)
  }

  /** The fields of a link in canonical order. */
  function LinkValue(prev: Digest, episode: NormalJson): NormalJson {
    var members := [Member(EPISODE, episode), Member(PREV, JString(DigestText(prev)))];
    assert Canonical(members[0].value) && Canonical(members[1].value);
    assert Before(members[0].key, members[1].key);
    JObject(members)
  }

  function TextOf(j: NormalJson): Text {
    CanonicalIsPlain(j);
    Encode(j)
  }

  function SeedText(): Text { TextOf(SeedValue()) }

  function LinkText(prev: Digest, episode: NormalJson): Text { TextOf(LinkValue(prev, episode)) }

  lemma SameDigestSameValue(sha256: TextHash, a: NormalJson, b: NormalJson)
    requires TextCollisionFree(sha256) && sha256(TextOf(a)) == sha256(TextOf(b))
    ensures a == b
  {
    CanonicalIsPlain(a);
    CanonicalIsPlain(b);
    DigestOfText(sha256, a, b);
  }

  /** Two links with one digest follow one head and hold one episode. */
  lemma LinkDigestIdentifies(sha256: TextHash, p: Digest, a: NormalJson, q: Digest, b: NormalJson)
    requires TextCollisionFree(sha256) && sha256(LinkText(p, a)) == sha256(LinkText(q, b))
    ensures p == q && a == b
  {
    hide TextOf, DigestText, TextCollisionFree;
    SameDigestSameValue(sha256, LinkValue(p, a), LinkValue(q, b));
    var (x, y) := (LinkValue(p, a).members, LinkValue(q, b).members);
    assert x[0] == y[0] && x[1] == y[1];
    DigestTextIdentifies(p, q);
  }

  /** No link has the digest of the seed. */
  lemma LinkIsNotSeed(sha256: TextHash, prev: Digest, episode: NormalJson)
    requires TextCollisionFree(sha256)
    ensures sha256(LinkText(prev, episode)) != sha256(SeedText())
  {
    hide TextOf, DigestText, TextCollisionFree;
    assert |LinkValue(prev, episode).members| == 2 && |SeedValue().members| == 1;
    if sha256(LinkText(prev, episode)) == sha256(SeedText()) {
      SameDigestSameValue(sha256, LinkValue(prev, episode), SeedValue());
    }
  }
}
