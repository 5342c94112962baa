/** The identifier formats of the evidence schemas, by character code (src/security.ts, src/gateway.ts,
    src/runtime-evidence.ts). */
module Formats {
  import opened Common
  import opened GatewayFrames
  import opened RuntimeJournal

  /** 0-9, A-Z, a-z */
  predicate Word(c: char) { 48 <= c as int <= 57 || 65 <= c as int <= 90 || 97 <= c as int <= 122 }

  /** One word character, and up to `more` that are word characters or among the given codes. */
  predicate Named(s: string, codes: set<int>, more: nat) {
    && 1 <= |s| <= 1 + more && Word(s[0])
    && forall i :: 1 <= i < |s| ==> Word(s[i]) || s[i] as int in codes
  }

  /** A stable id may go on with underscore, point, colon and hyphen. */
  lemma StableIdForm(s: string)
    ensures StableId(s) <==> Named(s, {95, 46, 58, 45}, 199)
  {
    assert forall c: char :: c in "_.:-" <==> c as int in {95, 46, 58, 45};
  }

  /** A provider is one of four, or a custom name after its prefix. */
  lemma KnownProviderForm(p: string)
    ensures KnownProvider(p) <==>
              || p == "anthropic" || p == "openai" || p == "xai" || p == "gemini"
              || (|p| > 7 && p[..7] == "custom:" && Named(p[7..], {95, 46, 45}, 79))
  {
    assert forall c: char :: c in "_.-" <==> c as int in {95, 46, 45};
    if |p| > 7 {
      assert forall i :: 8 <= i < |p| ==> p[i] == p[7..][i - 7];
    }
  }

  /** A part of the name stands between separators or ends, and names a moving alias in any case. */
  predicate AliasAt(s: string, i: nat, j: nat) {
    && i <= j <= |s|
    && (i == 0 || s[i - 1] as int in {46, 95, 58, 47, 45}) && (j == |s| || s[j] as int in {46, 95, 58, 47, 45})
    && LowerAll(s[i..j]) in {"latest", "current", "default", "auto"}
  }

  lemma LowerForm(s: string, i: nat)
    requires i < |s|
    ensures |LowerAll(s)| == |s|
    ensures LowerAll(s)[i] as int == if 65 <= s[i] as int <= 90 then s[i] as int + 32 else s[i] as int
  {
  }

  /** A model is pinned by a name with a digit that names no moving alias. */
  lemma ModelPinForm(s: string)
    ensures ModelPin(s) <==>
              && Named(s, {46, 95, 58, 47, 45}, 199)
              && (exists i :: 0 <= i < |s| && 48 <= s[i] as int <= 57)
              && (forall i, j :: 0 <= i <= j <= |s| ==> !AliasAt(s, i, j))
  {
    hide LowerAll;
    forall c: char
      ensures ModelSeparator(c) <==> c as int in {46, 95, 58, 47, 45}
    {
    }
    hide ModelSeparator;
    if NamesAlias(s) {
      var i, j :| 0 <= i <= j <= |s| && (i == 0 || ModelSeparator(s[i - 1])) && (j == |s| || ModelSeparator(s[j]))
                  && LowerAll(s[i..j]) in {"latest", "current", "default", "auto"};
      assert AliasAt(s, i, j);
    }
  }

  /** Printable characters only. */
  lemma MediaTypeForm(s: string)
    ensures PrintableMediaType(s) <==> 1 <= |s| <= 200 && forall i :: 0 <= i < |s| ==> 32 <= s[i] as int <= 126
  {
  }

  lemma SignalForm(s: string)
    ensures SignalName(s) <==>
              && |s| >= 4 && s[..3] == "SIG"
              && forall i :: 3 <= i < |s| ==> 65 <= s[i] as int <= 90 || 48 <= s[i] as int <= 57
  {
  }
}
