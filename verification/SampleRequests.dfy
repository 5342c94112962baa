/** Parts of the requests that the instances are made of: a body that names a model, and the reason codes
    that the dispatcher always gives (src/http-egress.ts). */
module SampleRequests {
  import opened Common
  import opened GatewayFrames

  /** {"model":"1"} */
  const MODEL_BODY: seq<bv8> := [123, 34, 109, 111, 100, 101, 108, 34, 58, 34, 49, 34, 125]

  const ZEROES: string := seq(64, _ => '0')

  const BOUNDARY_CODE := "enforcement_boundary_sha256:" + ZEROES
  const CONFIGURATION_CODE := "http_configuration_sha256:" + ZEROES
  const IDENTITY_CODE := "workload_identity_sha256:" + ZEROES

  lemma DigestCodesAreStable()
    ensures StableId(BOUNDARY_CODE) && StableId(CONFIGURATION_CODE) && StableId(IDENTITY_CODE)
  {
    CodeIsStable("enforcement_boundary_sha256:");
    CodeIsStable("http_configuration_sha256:");
    CodeIsStable("workload_identity_sha256:");
  }

  lemma CodeIsStable(prefix: string)
    requires StableId(prefix) && |prefix| <= 100
    ensures StableId(prefix + ZEROES)
  {
    assert forall i :: 0 <= i < |ZEROES| ==> ZEROES[i] == '0';
    var code := prefix + ZEROES;
    forall i | 1 <= i < |code|
      ensures AlphaNumeric(code[i]) || code[i] in "_.:-"
    {
      if i >= |prefix| { assert code[i] == ZEROES[i - |prefix|]; }
    }
  }

  /** The first difference decides the order. */
  lemma UnitDecides(a: string, b: string, n: nat)
    requires n < |a| && n < |b| && a[..n] == b[..n] && a[n] < b[n]
    ensures Precedes(Units(a), Units(b))
  {
    forall i | 0 <= i < n
      ensures Units(a)[i] == Units(b)[i]
    {
      assert a[i] == a[..n][i] && b[i] == b[..n][i];
    }
    FirstDifference(Units(a), Units(b), n);
  }

  lemma {:induction false} FirstDifference(a: seq<int>, b: seq<int>, n: nat)
    requires n < |a| && n < |b| && a[n] < b[n]
    requires forall i :: 0 <= i < n ==> a[i] == b[i]
    ensures Precedes(a, b)
  {
    if n > 0 { FirstDifference(a[1..], b[1..], n - 1); }
  }

  lemma ModelOneIsPinned()
    ensures ModelPin("1")
  {
    var s := "1";
    assert '0' <= s[0] <= '9';
    forall i, j | 0 <= i <= j <= |s|
      ensures LowerAll(s[i..j]) !in {"latest", "current", "default", "auto"}
    {
      assert |LowerAll(s[i..j])| <= 1;
    }
  }

  lemma JsonIsPrintable()
    ensures PrintableMediaType("application/json")
  {
  }
}
