/** canonicalJson is a parseable encoding that identifies exactly the values that are the same up to key
    order and the sign of zero (src/canonical.ts). */
module CanonicalTheorems {
  import opened Common
  import opened TextUnits
  import opened JsonNumbers
  import opened JsonText
  import opened CanonicalOrder
  import opened CanonicalValues
  import opened CanonicalDigest

  /** canonicalJson */
  function CanonicalJson(v: Host): Result<Text, CanonicalError>
    requires WellMade(v)
  {
    match Normalize(v, [])
    case Err(e) => Err(e)
    case Ok(j) =>
      NormalIsCanonical(v, []);
      CanonicalIsPlain(j);
      Ok(Encode(j))
  }

  // ----- idempotence -----

  /** A normalized value as a host value again. */
  function Lift(j: Json): Host {
    match j
    case JNull => HNull
    case JBool(b) => HBool(b)
    case JNumber(x) => HNumber(x)
    case JString(t) => HString(t)
    case JArray(items) => HArray(LiftItems(items))
    case JObject(members) => HObject(true, LiftMembers(members))
  }

  function LiftItems(items: seq<Json>): (lifted: seq<Host>)
    ensures |lifted| == |items| && forall i :: 0 <= i < |items| ==> lifted[i] == Lift(items[i])
  {
    if items == [] then [] else [Lift(items[0])] + LiftItems(items[1..])
  }

  function LiftMembers(members: seq<Member>): (lifted: seq<Keyed<Host>>)
    ensures |lifted| == |members|
    ensures forall i :: 0 <= i < |members| ==> lifted[i] == Keyed(members[i].key, Lift(members[i].value))
  {
    if members == [] then []
    else [Keyed(members[0].key, Lift(members[0].value))] + LiftMembers(members[1..])
  }

  lemma LiftedItems(items: seq<Json>, path: seq<Step>)
    requires forall i :: 0 <= i < |items| ==> Normalize(Lift(items[i]), ItemPath(path, i)) == Ok(items[i])
    ensures Normalize(HArray(LiftItems(items)), path) == Ok(JArray(items))
  {
    hide Normalize;
    ArrayCase(LiftItems(items), path);
    var outcomes := NormalizeItems(LiftItems(items), path, 0);
    forall i | 0 <= i < |items|
      ensures outcomes[i] == Ok(items[i])
    {
      assert outcomes[i] == Normalize(Lift(items[i]), ItemPath(path, i));
    }
    AllOkOf(outcomes, items);
  }

  lemma {:induction false} AllOkOf(outcomes: seq<Outcome>, items: seq<Json>)
    requires |outcomes| == |items| && forall i :: 0 <= i < |items| ==> outcomes[i] == Ok(items[i])
    ensures AllOk(outcomes) == Ok(items)
  {
    if items != [] {
      AllOkOf(outcomes[1..], items[1..]);
      assert items == [items[0]] + items[1..];
    }
  }

  lemma {:induction false} AllMembersOf(outcomes: seq<Keyed<Outcome>>, members: seq<Member>)
    requires |outcomes| == |members|
    requires forall i :: 0 <= i < |members| ==> outcomes[i] == Keyed(members[i].key, Ok(members[i].value))
    ensures AllMembers(outcomes) == Ok(members)
  {
    if members != [] {
      AllMembersOf(outcomes[1..], members[1..]);
      assert members == [members[0]] + members[1..];
    }
  }

  lemma LiftedMembers(members: seq<Member>, path: seq<Step>)
    requires forall i, k :: 0 <= i < k < |members| ==> Before(members[i].key, members[k].key)
    requires forall i :: 0 <= i < |members| ==>
               NormalizeMember(Lift(members[i].value), MemberPath(path, members[i].key)) == Ok(members[i].value)
    ensures Normalize(HObject(true, LiftMembers(members)), path) == Ok(JObject(members))
  {
    hide Normalize, NormalizeMember;
    var entries := LiftMembers(members);
    ObjectCase(entries, path);
    var outcomes := NormalizeEntries(entries, path);
    forall i | 0 <= i < |members|
      ensures outcomes[i] == Keyed(members[i].key, Ok(members[i].value))
    {
      assert outcomes[i] == Keyed(entries[i].key, NormalizeMember(entries[i].value, MemberPath(path, entries[i].key)));
    }
    assert Sorted(outcomes);
    SortOfSorted(outcomes);
    AllMembersOf(outcomes, members);
  }

  lemma {:induction false} NormalizeLifted(j: Json, path: seq<Step>)
    requires Canonical(j)
    ensures Normalize(Lift(j), path) == Ok(j)
    decreases j
  {
    match j
    case JArray(items) =>
      hide Normalize;
      forall i | 0 <= i < |items|
        ensures Normalize(Lift(items[i]), ItemPath(path, i)) == Ok(items[i])
      {
        NormalizeLifted(items[i], ItemPath(path, i));
      }
      LiftedItems(items, path);
    case JObject(members) =>
      hide Normalize;
      forall i | 0 <= i < |members|
        ensures NormalizeMember(Lift(members[i].value), MemberPath(path, members[i].key)) == Ok(members[i].value)
      {
        NormalizeLifted(members[i].value, MemberPath(path, members[i].key));
      }
      LiftedMembers(members, path);
    case _ =>
  }

  /** Normalizing twice is normalizing once. */
  lemma NormalizeIsIdempotent(v: Host, path: seq<Step>, again: seq<Step>)
    requires WellMade(v) && Normalize(v, path).Ok?
    ensures Normalize(Lift(Normalize(v, path).value), again) == Normalize(v, path)
  {
    hide Normalize;
    NormalIsCanonical(v, path);
    NormalizeLifted(Normalize(v, path).value, again);
  }

  // ----- the encoding -----

  /** Parsing the canonical text of a value gives its normal form. */
  lemma CanonicalJsonParses(v: Host)
    requires WellMade(v) && CanonicalJson(v).Ok?
    ensures Parse(CanonicalJson(v).value).Some? && Normalize(v, []) == Ok(Parse(CanonicalJson(v).value).value)
  {
    hide Normalize, Encode, Parse;
    var j := Normalize(v, []).value;
    NormalIsCanonical(v, []);
    CanonicalIsPlain(j);
    ParseEncoded(j);
  }

  /** Two values have one canonical text exactly if they are the same up to key order and the sign of
      zero. */
  lemma CanonicalJsonIdentifies(a: Host, b: Host)
    requires WellMade(a) && WellMade(b) && CanonicalJson(a).Ok? && CanonicalJson(b).Ok?
    ensures CanonicalJson(a) == CanonicalJson(b) <==> SameValue(a, b)
  {
    hide Normalize, Encode, Parse;
    if SameValue(a, b) {
      SameMeansSameNormal(a, b, []);
    }
    if CanonicalJson(a) == CanonicalJson(b) {
      CanonicalJsonParses(a);
      CanonicalJsonParses(b);
      SameNormalMeansSame(a, b, []);
    }
  }

  /** A text that canonicalJson refuses, it refuses in the same way for any insertion order. */
  lemma RefusalForgetsOrder(a: Host, b: Host)
    requires WellMade(a) && WellMade(b) && SameValue(a, b)
    ensures CanonicalJson(a) == CanonicalJson(b)
  {
    hide Normalize, Encode;
    SameMeansSameNormal(a, b, []);
  }

  /** digestCanonical, with the hash of a text as a parameter. */
  function DigestCanonical(sha256: TextHash, v: Host): Result<Digest, CanonicalError>
    requires WellMade(v)
  {
    match CanonicalJson(v)
    case Err(e) => Err(e)
    case Ok(text) => Ok(sha256(text))
  }

  /** But for collisions of the hash on well-formed texts, a digest identifies the value. */
  lemma DigestIdentifies(sha256: TextHash, a: Host, b: Host)
    requires TextCollisionFree(sha256) && WellMade(a) && WellMade(b)
    requires DigestCanonical(sha256, a).Ok? && DigestCanonical(sha256, b).Ok?
    ensures DigestCanonical(sha256, a) == DigestCanonical(sha256, b) <==> SameValue(a, b)
  {
    CanonicalIsWellFormed(a);
    CanonicalIsWellFormed(b);
    hide CanonicalJson, WellFormed;
    CanonicalJsonIdentifies(a, b);
  }

  /** A canonical text holds no lone surrogate, even for strings that do. */
  lemma CanonicalIsWellFormed(v: Host)
    requires WellMade(v) && CanonicalJson(v).Ok?
    ensures WellFormed(CanonicalJson(v).value)
  {
    hide Normalize, Encode, WellFormed;
    var j := Normalize(v, []).value;
    NormalIsCanonical(v, []);
    CanonicalIsPlain(j);
    EncodingIsWellFormed(j);
  }

  // ----- the algorithm -----

  lemma {:induction false} NormalizeInserted(x: Keyed<Host>, s: seq<Keyed<Host>>, path: seq<Step>)
    ensures NormalizeEntries(Insert(x, s), path) ==
              Insert(Keyed(x.key, NormalizeMember(x.value, MemberPath(path, x.key))), NormalizeEntries(s, path))
  {
    hide Normalize, NormalizeMember;
    if s != [] && Before(s[0].key, x.key) {
      NormalizeInserted(x, s[1..], path);
      assert Insert(x, s)[1..] == Insert(x, s[1..]);
      assert NormalizeEntries(s, path)[1..] == NormalizeEntries(s[1..], path);
    } else {
      assert ([x] + s)[1..] == s;
      assert s != [] ==> NormalizeEntries(s, path)[0].key == s[0].key;
    }
  }

  /** Sorting the keys first and normalizing then is normalizing first. */
  lemma {:induction false} NormalizeSorted(entries: seq<Keyed<Host>>, path: seq<Step>)
    ensures NormalizeEntries(SortByKey(entries), path) == SortByKey(NormalizeEntries(entries, path))
  {
    hide Normalize, NormalizeMember;
    if entries != [] {
      NormalizeSorted(entries[1..], path);
      NormalizeInserted(entries[0], SortByKey(entries[1..]), path);
      assert NormalizeEntries(entries, path)[1..] == NormalizeEntries(entries[1..], path);
    }
  }

  lemma SortedIn<T>(s: seq<Keyed<T>>, i: nat)
    requires i < |SortByKey(s)|
    ensures SortByKey(s)[i] in s
  {
    SortKeeps(s);
    assert SortByKey(s)[i] in multiset(SortByKey(s));
  }

  function Prefixed(output: seq<Member>, r: Result<seq<Member>, CanonicalError>): Outcome {
    match r
    case Err(e) => Err(e)
    case Ok(more) => Ok(JObject(output + more))
  }

  function PrefixedItems(output: seq<Json>, r: Result<seq<Json>, CanonicalError>): Outcome {
    match r
    case Err(e) => Err(e)
    case Ok(more) => Ok(JArray(output + more))
  }

  lemma ItemStep(output: seq<Json>, rest: seq<Outcome>)
    ensures PrefixedItems([], AllOk(rest)) == AsArray(rest)
    ensures PrefixedItems(output, AllOk([])) == Ok(JArray(output))
    ensures rest != [] ==>
              PrefixedItems(output, AllOk(rest)) ==
              if rest[0].Err? then Err(rest[0].error) else PrefixedItems(output + [rest[0].value], AllOk(rest[1..]))
  {
    if AllOk(rest).Ok? { assert [] + AllOk(rest).value == AllOk(rest).value; }
    assert output + [] == output;
    if rest != [] && rest[0].Ok? && AllOk(rest[1..]).Ok? {
      var more := AllOk(rest[1..]).value;
      assert output + ([rest[0].value] + more) == output + [rest[0].value] + more;
    }
  }

  lemma MemberStep(output: seq<Member>, rest: seq<Keyed<Outcome>>)
    ensures Prefixed([], AllMembers(rest)) == AsObject(rest)
    ensures Prefixed(output, AllMembers([])) == Ok(JObject(output))
    ensures rest != [] ==>
              Prefixed(output, AllMembers(rest)) ==
              if rest[0].value.Err? then Err(rest[0].value.error)
              else Prefixed(output + [Member(rest[0].key, rest[0].value.value)], AllMembers(rest[1..]))
  {
    if AllMembers(rest).Ok? { assert [] + AllMembers(rest).value == AllMembers(rest).value; }
    assert output + [] == output;
    if rest != [] && rest[0].value.Ok? && AllMembers(rest[1..]).Ok? {
      var more := AllMembers(rest[1..]).value;
      var m := Member(rest[0].key, rest[0].value.value);
      assert output + ([m] + more) == output + [m] + more;
    }
  }

  lemma FirstOutcome(entries: seq<Keyed<Host>>, path: seq<Step>)
    requires entries != []
    ensures var outcomes := NormalizeEntries(entries, path);
            && outcomes[0] == Keyed(entries[0].key, NormalizeMember(entries[0].value, MemberPath(path, entries[0].key)))
            && outcomes[1..] == NormalizeEntries(entries[1..], path)
  {
    hide Normalize, NormalizeMember;
  }

  /** normalize: walks the keys in order and fills the output member by member. */
  method NormalizeValue(v: Host, path: seq<Step>) returns (r: Outcome)
    ensures r == Normalize(v, path)
    decreases v, 1
  {
    match v {
      case HNull => return Ok(JNull);
      case HBool(b) => return Ok(JBool(b));
      case HString(t) => return Ok(JString(t));
      case HNumber(x) =>
        if !x.Finite() { return Err(NonFiniteNumber(path)); }
        if x == Zero(true) { return Ok(JNumber(Zero(false))); }
        return Ok(JNumber(x));
      case HArray(items) =>
        r := NormalizeArray(items, path);
      case HObject(plain, entries) =>
        if !plain { return Err(NonPlainObject(path)); }
        r := NormalizeObject(entries, path);
        ObjectCase(entries, path);
      case HUndefined => return Err(UnsupportedType(path));
      case HOther => return Err(UnsupportedType(path));
    }
  }

  method NormalizeArray(items: seq<Host>, path: seq<Step>) returns (r: Outcome)
    ensures r == Normalize(HArray(items), path)
    decreases items, 0
  {
    hide Normalize, AllOk, PrefixedItems, NormalizeItems;
    ArrayCase(items, path);
    var output: seq<Json> := [];
    ItemStep([], NormalizeItems(items, path, 0));
    for k := 0 to |items|
      invariant Normalize(HArray(items), path) == PrefixedItems(output, AllOk(NormalizeItems(items, path, k)))
    {
      var item := NormalizeValue(items[k], path + [Index(k)]);
      ItemStep(output, NormalizeItems(items, path, k));
      LaterItems(items, path, k);
      if item.Err? { return Err(item.error); }
      output := output + [item.value];
    }
    ItemStep(output, []);
    return Ok(JArray(output));
  }

  lemma LaterItems(items: seq<Host>, path: seq<Step>, k: nat)
    requires k < |items|
    ensures NormalizeItems(items, path, k)[1..] == NormalizeItems(items, path, k + 1)
    ensures NormalizeItems(items, path, |items|) == []
  {
  }

  method NormalizeObject(entries: seq<Keyed<Host>>, path: seq<Step>) returns (r: Outcome)
    ensures r == Normalize(HObject(true, entries), path)
    decreases entries, 0
  {
    hide Normalize, SortByKey, AllMembers, Prefixed, NormalizeEntries;
    ObjectCase(entries, path);
    NormalizeSorted(entries, path);
    var sorted := SortByKey(entries);
    var output: seq<Member> := [];
    assert sorted[0..] == sorted;
    MemberStep([], NormalizeEntries(sorted, path));
    for k := 0 to |sorted|
      invariant Normalize(HObject(true, entries), path) == Prefixed(output, AllMembers(NormalizeEntries(sorted[k..], path)))
    {
      SortedIn(entries, k);
      var entry := sorted[k];
      assert sorted[k..][1..] == sorted[k + 1..];
      FirstOutcome(sorted[k..], path);
      MemberStep(output, NormalizeEntries(sorted[k..], path));
      var at := path + [Name(entry.key)];
      if entry.value == HUndefined { return Err(UndefinedMember(at)); }
      var value := NormalizeValue(entry.value, at);
      if value.Err? { return Err(value.error); }
      output := output + [Member(entry.key, value.value)];
    }
    MemberStep(output, []);
    return Ok(JObject(output));
  }
}
