/** canonicalJson: normalization of host values and their one text (src/canonical.ts). */
module CanonicalValues {
  import opened Common
  import opened TextUnits
  import opened JsonNumbers
  import opened JsonText
  import opened CanonicalOrder

  /** What a caller can hand to canonicalJson. Object keys that read as array indices, and the key
      __proto__, are enumerated or stored differently by the host and are not meant here. */
  datatype Host =
    | HUndefined
    | HOther
    | HNull
    | HBool(truth: bool)
    | HNumber(number: Number)
    | HString(text: Text)
    | HArray(items: seq<Host>)
    | HObject(plain: bool, entries: seq<Keyed<Host>>)

  datatype Step = Index(i: nat) | Name(key: Text)

  datatype CanonicalError =
    | NonFiniteNumber(path: seq<Step>)
    | NonPlainObject(path: seq<Step>)
    | UndefinedMember(path: seq<Step>)
    | UnsupportedType(path: seq<Step>)

  type Outcome = Result<Json, CanonicalError>

  /** What any host value satisfies: an object has no key twice, a number is a number. */
  predicate WellMade(v: Host) {
    match v
    case HNumber(x) => x.Valid()
    case HArray(items) => forall i :: 0 <= i < |items| ==> WellMade(items[i])
    case HObject(_, entries) => Distinct(entries) && forall i :: 0 <= i < |entries| ==> WellMade(entries[i].value)
    case _ => true
  }

  // ----- normalization -----

  function NormalNumber(x: Number): Number {
    if x == Zero(true) then Zero(false) else x
  }

  /** What normalize gives or throws; errors are met in the order of the sorted keys. */
  function Normalize(v: Host, path: seq<Step>): Outcome
    decreases v, 0
  {
    match v
    case HNull => Ok(JNull)
    case HBool(b) => Ok(JBool(b))
    case HString(t) => Ok(JString(t))
    case HNumber(x) => if x.Finite() then Ok(JNumber(NormalNumber(x))) else Err(NonFiniteNumber(path))
    case HArray(items) => AsArray(NormalizeItems(items, path, 0))
    case HObject(plain, entries) =>
      if !plain then Err(NonPlainObject(path)) else AsObject(SortByKey(NormalizeEntries(entries, path)))
    case _ => Err(UnsupportedType(path))
  }

  function NormalizeItems(items: seq<Host>, path: seq<Step>, from: nat): (outcomes: seq<Outcome>)
    requires from <= |items|
    ensures |outcomes| == |items| - from
    ensures forall i :: 0 <= i < |outcomes| ==> outcomes[i] == Normalize(items[from + i], path + [Index(from + i)])
    decreases items, |items| - from
  {
    if from == |items| then []
    else [Normalize(items[from], path + [Index(from)])] + NormalizeItems(items, path, from + 1)
  }

  function NormalizeMember(v: Host, path: seq<Step>): Outcome
    decreases v, 1
  {
    if v == HUndefined then Err(UndefinedMember(path)) else Normalize(v, path)
  }

  function NormalizeEntries(entries: seq<Keyed<Host>>, path: seq<Step>): (outcomes: seq<Keyed<Outcome>>)
    ensures |outcomes| == |entries|
    ensures forall i :: 0 <= i < |outcomes| ==>
              outcomes[i] == Keyed(entries[i].key, NormalizeMember(entries[i].value, path + [Name(entries[i].key)]))
    decreases entries
  {
    if entries == [] then []
    else
      var first := entries[0];
      [Keyed(first.key, NormalizeMember(first.value, path + [Name(first.key)]))] + NormalizeEntries(entries[1..], path)
  }

  /** All values, or the first error. */
  function AllOk(outcomes: seq<Outcome>): (r: Result<seq<Json>, CanonicalError>)
    ensures r.Ok? ==> |r.value| == |outcomes| && forall i :: 0 <= i < |outcomes| ==> outcomes[i] == Ok(r.value[i])
    ensures r.Err? ==> exists i :: 0 <= i < |outcomes| && outcomes[i] == Err(r.error)
  {
    if outcomes == [] then Ok([])
    else if outcomes[0].Err? then Err(outcomes[0].error)
    else
      match AllOk(outcomes[1..])
      case Err(e) => Err(e)
      case Ok(more) => Ok([outcomes[0].value] + more)
  }

  function AllMembers(outcomes: seq<Keyed<Outcome>>): (r: Result<seq<Member>, CanonicalError>)
    ensures r.Ok? ==> |r.value| == |outcomes| && forall i :: 0 <= i < |outcomes| ==>
                        outcomes[i] == Keyed(r.value[i].key, Ok(r.value[i].value))
  {
    if outcomes == [] then Ok([])
    else if outcomes[0].value.Err? then Err(outcomes[0].value.error)
    else
      match AllMembers(outcomes[1..])
      case Err(e) => Err(e)
      case Ok(more) => Ok([Member(outcomes[0].key, outcomes[0].value.value)] + more)
  }

  function AsArray(outcomes: seq<Outcome>): Outcome {
    match AllOk(outcomes)
    case Err(e) => Err(e)
    case Ok(items) => Ok(JArray(items))
  }

  function AsObject(outcomes: seq<Keyed<Outcome>>): Outcome {
    match AllMembers(outcomes)
    case Err(e) => Err(e)
    case Ok(members) => Ok(JObject(members))
  }

  // ----- normal values -----

  /** Plain values whose members are in key order all the way down. */
  predicate Canonical(j: Json) {
    match j
    case JNumber(x) => x.Finite() && x.Valid() && x != Zero(true)
    case JArray(items) => forall i :: 0 <= i < |items| ==> Canonical(items[i])
    case JObject(members) =>
      && (forall i :: 0 <= i < |members| ==> Canonical(members[i].value))
      && forall i, k :: 0 <= i < k < |members| ==> Before(members[i].key, members[k].key)
    case _ => true
  }

  lemma {:induction false} CanonicalIsPlain(j: Json)
    requires Canonical(j)
    ensures Plain(j)
  {
    match j
    case JArray(items) =>
      forall i | 0 <= i < |items| ensures Plain(items[i]) { CanonicalIsPlain(items[i]); }
    case JObject(members) =>
      forall i | 0 <= i < |members| ensures Plain(members[i].value) { CanonicalIsPlain(members[i].value); }
      forall i, k | 0 <= i < k < |members|
        ensures members[i].key != members[k].key
      {
        BeforeIsTotal(members[i].key, members[k].key);
      }
    case _ =>
  }

  function ItemPath(path: seq<Step>, i: nat): seq<Step> { path + [Index(i)] }

  function MemberPath(path: seq<Step>, key: Text): seq<Step> { path + [Name(key)] }

  lemma ArrayCase(items: seq<Host>, path: seq<Step>)
    ensures Normalize(HArray(items), path) == AsArray(NormalizeItems(items, path, 0))
  {
  }

  lemma ObjectCase(entries: seq<Keyed<Host>>, path: seq<Step>)
    ensures Normalize(HObject(true, entries), path) == AsObject(SortByKey(NormalizeEntries(entries, path)))
    ensures Normalize(HObject(false, entries), path) == Err(NonPlainObject(path))
  {
  }

  lemma SortedOutcomes(entries: seq<Keyed<Host>>, path: seq<Step>)
    requires Distinct(entries)
    ensures Distinct(NormalizeEntries(entries, path))
    ensures Sorted(SortByKey(NormalizeEntries(entries, path)))
    ensures forall x :: x in SortByKey(NormalizeEntries(entries, path)) <==> x in NormalizeEntries(entries, path)
  {
    hide Normalize, NormalizeMember;
    var given := NormalizeEntries(entries, path);
    SortKeeps(given);
    var outcomes := SortByKey(given);
    forall x
      ensures x in outcomes <==> x in given
    {
      assert x in outcomes <==> x in multiset(outcomes);
      assert x in given <==> x in multiset(given);
    }
  }

  lemma ItemsAreCanonical(items: seq<Host>, path: seq<Step>)
    requires Normalize(HArray(items), path).Ok?
    requires forall i :: 0 <= i < |items| && Normalize(items[i], ItemPath(path, i)).Ok? ==>
               Canonical(Normalize(items[i], ItemPath(path, i)).value)
    ensures Canonical(Normalize(HArray(items), path).value)
  {
    hide Normalize;
    ArrayCase(items, path);
    var outcomes := NormalizeItems(items, path, 0);
    var values := AllOk(outcomes).value;
    forall i | 0 <= i < |values|
      ensures Canonical(values[i])
    {
      assert outcomes[i] == Normalize(items[i], ItemPath(path, i));
    }
  }

  lemma MembersAreCanonical(entries: seq<Keyed<Host>>, path: seq<Step>)
    requires Distinct(entries) && Normalize(HObject(true, entries), path).Ok?
    requires forall k :: 0 <= k < |entries| && Normalize(entries[k].value, MemberPath(path, entries[k].key)).Ok? ==>
               Canonical(Normalize(entries[k].value, MemberPath(path, entries[k].key)).value)
    ensures Canonical(Normalize(HObject(true, entries), path).value)
  {
    hide Normalize, SortByKey;
    ObjectCase(entries, path);
    SortedOutcomes(entries, path);
    var given := NormalizeEntries(entries, path);
    var outcomes := SortByKey(given);
    var members := AllMembers(outcomes).value;
    forall i | 0 <= i < |members|
      ensures Canonical(members[i].value)
    {
      assert outcomes[i] in given;
      var k :| 0 <= k < |given| && given[k] == outcomes[i];
      assert given[k].value == NormalizeMember(entries[k].value, MemberPath(path, entries[k].key));
    }
    forall i, k | 0 <= i < k < |members|
      ensures Before(members[i].key, members[k].key)
    {
      assert outcomes[i].key == members[i].key && outcomes[k].key == members[k].key;
    }
  }

  /** What normalize returns is plain, with keys in order. */
  lemma {:induction false} NormalIsCanonical(v: Host, path: seq<Step>)
    requires WellMade(v) && Normalize(v, path).Ok?
    ensures Canonical(Normalize(v, path).value)
    decreases v
  {
    match v
    case HArray(items) =>
      hide Normalize, Canonical;
      forall i | 0 <= i < |items| && Normalize(items[i], ItemPath(path, i)).Ok?
        ensures Canonical(Normalize(items[i], ItemPath(path, i)).value)
      {
        NormalIsCanonical(items[i], ItemPath(path, i));
      }
      ItemsAreCanonical(items, path);
    case HObject(plain, entries) =>
      hide Normalize, Canonical;
      ObjectCase(entries, path);
      forall k | 0 <= k < |entries| && Normalize(entries[k].value, MemberPath(path, entries[k].key)).Ok?
        ensures Canonical(Normalize(entries[k].value, MemberPath(path, entries[k].key)).value)
      {
        NormalIsCanonical(entries[k].value, MemberPath(path, entries[k].key));
      }
      MembersAreCanonical(entries, path);
    case _ =>
  }

  // ----- sameness -----

  function Keys<T>(s: seq<Keyed<T>>): set<Text> {
    set i | 0 <= i < |s| :: s[i].key
  }

  /** The same value but for the order of object keys and the sign of zero. */
  ghost predicate SameValue(a: Host, b: Host)
    decreases a
  {
    match (a, b)
    case (HNumber(x), HNumber(y)) => NormalNumber(x) == NormalNumber(y)
    case (HArray(xs), HArray(ys)) => |xs| == |ys| && forall i :: 0 <= i < |xs| ==> SameValue(xs[i], ys[i])
    case (HObject(p, xs), HObject(q, ys)) =>
      && p == q && Keys(xs) == Keys(ys)
      && forall i, k :: 0 <= i < |xs| && 0 <= k < |ys| && xs[i].key == ys[k].key ==> SameValue(xs[i].value, ys[k].value)
    case _ => a == b
  }

  lemma SameKeysSameElements<T>(left: seq<Keyed<T>>, right: seq<Keyed<T>>)
    requires Keys(left) == Keys(right)
    requires forall i, k :: 0 <= i < |left| && 0 <= k < |right| && left[i].key == right[k].key ==> left[i] == right[k]
    ensures forall x :: x in left <==> x in right
  {
    forall i | 0 <= i < |left|
      ensures left[i] in right
    {
      assert left[i].key in Keys(right);
      var k :| 0 <= k < |right| && right[k].key == left[i].key;
      assert left[i] == right[k];
    }
    forall k | 0 <= k < |right|
      ensures right[k] in left
    {
      assert right[k].key in Keys(left);
      var i :| 0 <= i < |left| && left[i].key == right[k].key;
      assert left[i] == right[k];
    }
  }

  lemma KeysOfOutcomes(entries: seq<Keyed<Host>>, path: seq<Step>)
    ensures Keys(NormalizeEntries(entries, path)) == Keys(entries)
  {
    hide Normalize, NormalizeMember;
    var given := NormalizeEntries(entries, path);
    forall i | 0 <= i < |entries|
      ensures given[i].key == entries[i].key
    {
    }
    assert Keys(given) <= Keys(entries);
    forall key | key in Keys(entries)
      ensures key in Keys(given)
    {
      var i :| 0 <= i < |entries| && entries[i].key == key;
      assert given[i].key == key;
    }
  }

  lemma SameUndefined(a: Host, b: Host)
    requires SameValue(a, b)
    ensures a == HUndefined <==> b == HUndefined
  {
  }

  lemma SameItems(xs: seq<Host>, ys: seq<Host>, path: seq<Step>)
    requires |xs| == |ys|
    requires forall i :: 0 <= i < |xs| ==> Normalize(xs[i], ItemPath(path, i)) == Normalize(ys[i], ItemPath(path, i))
    ensures Normalize(HArray(xs), path) == Normalize(HArray(ys), path)
  {
    hide Normalize;
    ArrayCase(xs, path);
    ArrayCase(ys, path);
    var left, right := NormalizeItems(xs, path, 0), NormalizeItems(ys, path, 0);
    forall i | 0 <= i < |xs|
      ensures left[i] == right[i]
    {
      assert left[i] == Normalize(xs[i], ItemPath(path, i)) && right[i] == Normalize(ys[i], ItemPath(path, i));
    }
    assert left == right;
  }

  lemma SameEntries(xs: seq<Keyed<Host>>, ys: seq<Keyed<Host>>, path: seq<Step>)
    requires Distinct(xs) && Distinct(ys) && Keys(xs) == Keys(ys)
    requires forall i, k :: 0 <= i < |xs| && 0 <= k < |ys| && xs[i].key == ys[k].key ==>
               NormalizeMember(xs[i].value, MemberPath(path, xs[i].key)) == NormalizeMember(ys[k].value, MemberPath(path, xs[i].key))
    ensures Normalize(HObject(true, xs), path) == Normalize(HObject(true, ys), path)
  {
    hide Normalize, NormalizeMember, SortByKey;
    ObjectCase(xs, path);
    ObjectCase(ys, path);
    SortedOutcomes(xs, path);
    SortedOutcomes(ys, path);
    KeysOfOutcomes(xs, path);
    KeysOfOutcomes(ys, path);
    var left, right := NormalizeEntries(xs, path), NormalizeEntries(ys, path);
    forall i, k | 0 <= i < |left| && 0 <= k < |right| && left[i].key == right[k].key
      ensures left[i] == right[k]
    {
      assert left[i] == Keyed(xs[i].key, NormalizeMember(xs[i].value, MemberPath(path, xs[i].key)));
      assert right[k] == Keyed(ys[k].key, NormalizeMember(ys[k].value, MemberPath(path, ys[k].key)));
    }
    hide NormalizeEntries, Keys;
    SameKeysSameElements(left, right);
    SortForgetsOrder(left, right);
  }

  lemma {:induction false} SameMeansSameNormal(a: Host, b: Host, path: seq<Step>)
    requires WellMade(a) && WellMade(b) && SameValue(a, b)
    ensures Normalize(a, path) == Normalize(b, path)
    decreases a
  {
    match (a, b)
    case (HArray(xs), HArray(ys)) =>
      hide Normalize;
      forall i | 0 <= i < |xs|
        ensures Normalize(xs[i], ItemPath(path, i)) == Normalize(ys[i], ItemPath(path, i))
      {
        SameMeansSameNormal(xs[i], ys[i], ItemPath(path, i));
      }
      SameItems(xs, ys, path);
    case (HObject(p, xs), HObject(q, ys)) =>
      hide Normalize;
      forall i, k | 0 <= i < |xs| && 0 <= k < |ys| && xs[i].key == ys[k].key
        ensures NormalizeMember(xs[i].value, MemberPath(path, xs[i].key)) == NormalizeMember(ys[k].value, MemberPath(path, xs[i].key))
      {
        SameUndefined(xs[i].value, ys[k].value);
        SameMeansSameNormal(xs[i].value, ys[k].value, MemberPath(path, xs[i].key));
      }
      hide SameValue, NormalizeMember;
      SameEntries(xs, ys, path);
      ObjectCase(xs, path);
      ObjectCase(ys, path);
    case _ =>
  }

  lemma SameNormalKind(a: Host, b: Host, path: seq<Step>)
    requires Normalize(a, path).Ok? && Normalize(a, path) == Normalize(b, path)
    ensures a.HArray? <==> b.HArray?
    ensures a.HObject? <==> b.HObject?
    ensures a.HObject? ==> a.plain && b.plain
    ensures !a.HArray? && !a.HObject? ==> SameValue(a, b)
  {
  }

  lemma SameNormalItems(xs: seq<Host>, ys: seq<Host>, path: seq<Step>)
    requires Normalize(HArray(xs), path).Ok? && Normalize(HArray(xs), path) == Normalize(HArray(ys), path)
    ensures |xs| == |ys|
    ensures forall i :: 0 <= i < |xs| ==>
              Normalize(xs[i], ItemPath(path, i)).Ok? && Normalize(xs[i], ItemPath(path, i)) == Normalize(ys[i], ItemPath(path, i))
  {
    hide Normalize;
    ArrayCase(xs, path);
    ArrayCase(ys, path);
    var left, right := NormalizeItems(xs, path, 0), NormalizeItems(ys, path, 0);
    var values := AllOk(left).value;
    forall i | 0 <= i < |xs|
      ensures Normalize(xs[i], ItemPath(path, i)).Ok? && Normalize(xs[i], ItemPath(path, i)) == Normalize(ys[i], ItemPath(path, i))
    {
      assert left[i] == Ok(values[i]) && right[i] == Ok(values[i]);
    }
  }

  lemma SameMembers(left: seq<Keyed<Outcome>>, right: seq<Keyed<Outcome>>)
    requires AllMembers(left).Ok? && AllMembers(left) == AllMembers(right)
    ensures left == right
    ensures forall x :: x in left ==> x.value.Ok?
  {
  }

  lemma SortedKeyIsUnique<T>(s: seq<Keyed<T>>, x: Keyed<T>, y: Keyed<T>)
    requires Sorted(s) && x in s && y in s && x.key == y.key
    ensures x == y
  {
    SortedIsDistinct(s);
    var i :| 0 <= i < |s| && s[i] == x;
    var j :| 0 <= j < |s| && s[j] == y;
  }

  lemma SameNormalEntries(xs: seq<Keyed<Host>>, ys: seq<Keyed<Host>>, path: seq<Step>)
    requires Distinct(xs) && Distinct(ys)
    requires Normalize(HObject(true, xs), path).Ok? && Normalize(HObject(true, xs), path) == Normalize(HObject(true, ys), path)
    ensures Keys(xs) == Keys(ys)
    ensures forall i, k :: 0 <= i < |xs| && 0 <= k < |ys| && xs[i].key == ys[k].key ==>
              && Normalize(xs[i].value, MemberPath(path, xs[i].key)).Ok?
              && Normalize(xs[i].value, MemberPath(path, xs[i].key)) == Normalize(ys[k].value, MemberPath(path, xs[i].key))
  {
    hide Normalize, SortByKey;
    ObjectCase(xs, path);
    ObjectCase(ys, path);
    SortedOutcomes(xs, path);
    SortedOutcomes(ys, path);
    KeysOfOutcomes(xs, path);
    KeysOfOutcomes(ys, path);
    var left, right := NormalizeEntries(xs, path), NormalizeEntries(ys, path);
    var s := SortByKey(left);
    SameMembers(s, SortByKey(right));
    forall i, k | 0 <= i < |xs| && 0 <= k < |ys| && xs[i].key == ys[k].key
      ensures && Normalize(xs[i].value, MemberPath(path, xs[i].key)).Ok?
              && Normalize(xs[i].value, MemberPath(path, xs[i].key)) == Normalize(ys[k].value, MemberPath(path, xs[i].key))
    {
      assert left[i] == Keyed(xs[i].key, NormalizeMember(xs[i].value, MemberPath(path, xs[i].key)));
      assert right[k] == Keyed(ys[k].key, NormalizeMember(ys[k].value, MemberPath(path, ys[k].key)));
      assert left[i] in s && right[k] in s;
      SortedKeyIsUnique(s, left[i], right[k]);
    }
    hide NormalizeEntries;
    SameElementsSameKeys(left, right);
  }

  lemma SameElementsSameKeys<T>(left: seq<Keyed<T>>, right: seq<Keyed<T>>)
    requires forall x :: x in left <==> x in right
    ensures Keys(left) == Keys(right)
  {
    forall i | 0 <= i < |left| ensures left[i].key in Keys(right) { assert left[i] in right; }
    forall i | 0 <= i < |right| ensures right[i].key in Keys(left) { assert right[i] in left; }
  }

  lemma {:induction false} SameNormalMeansSame(a: Host, b: Host, path: seq<Step>)
    requires WellMade(a) && WellMade(b)
    requires Normalize(a, path).Ok? && Normalize(a, path) == Normalize(b, path)
    ensures SameValue(a, b)
    decreases a
  {
    hide Normalize;
    SameNormalKind(a, b, path);
    if a.HArray? {
      SameNormalItems(a.items, b.items, path);
      forall i | 0 <= i < |a.items|
        ensures SameValue(a.items[i], b.items[i])
      {
        SameNormalMeansSame(a.items[i], b.items[i], ItemPath(path, i));
      }
    } else if a.HObject? {
      var xs, ys := a.entries, b.entries;
      SameNormalEntries(xs, ys, path);
      forall i, k | 0 <= i < |xs| && 0 <= k < |ys| && xs[i].key == ys[k].key
        ensures SameValue(xs[i].value, ys[k].value)
      {
        SameNormalMeansSame(xs[i].value, ys[k].value, MemberPath(path, xs[i].key));
      }
    }
  }
}
