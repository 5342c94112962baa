/** What canonicalJson orders by and what it refuses, said apart from the algorithm (src/canonical.ts). */
module CanonicalForms {
  import opened Common
  import opened TextUnits
  import opened JsonNumbers
  import opened CanonicalOrder
  import opened CanonicalValues

  // ----- the order of keys -----

  /** The sequences agree before i, where the smaller unit stands on the left or the left one ends. */
  predicate Decides(a: Text, b: Text, i: nat) {
    i <= |a| && i < |b| && (forall k :: 0 <= k < i ==> a[k] == b[k]) && (i == |a| || a[i] < b[i])
  }

  /** Where two texts first differ the smaller unit decides; a proper prefix comes first. */
  lemma {:induction false} BeforeMeans(a: Text, b: Text)
    ensures Before(a, b) <==> exists i :: 0 <= i < |b| && Decides(a, b, i)
    decreases |a|
  {
    if a != [] && b != [] && a[0] == b[0] {
      BeforeMeans(a[1..], b[1..]);
      if Before(a, b) {
        var i :| 0 <= i < |b| - 1 && Decides(a[1..], b[1..], i);
        forall k | 0 <= k < i + 1
          ensures a[k] == b[k]
        {
          if k > 0 { assert a[k] == a[1..][k - 1] && b[k] == b[1..][k - 1]; }
        }
        assert Decides(a, b, i + 1);
      }
      if i :| 0 < i < |b| && Decides(a, b, i) {
        assert Decides(a[1..], b[1..], i - 1);
      }
    } else if Before(a, b) {
      assert Decides(a, b, 0);
    }
  }

  /** The sequences agree before i, where the smaller unit stands on the left or the left one ends. */
  predicate DecidesId(a: seq<int>, b: seq<int>, i: nat) {
    i <= |a| && i < |b| && (forall k :: 0 <= k < i ==> a[k] == b[k]) && (i == |a| || a[i] < b[i])
  }

  /** The same of the order of identifiers. */
  lemma {:induction false} PrecedesMeans(a: seq<int>, b: seq<int>)
    ensures Precedes(a, b) <==> exists i :: 0 <= i < |b| && DecidesId(a, b, i)
    decreases |a|
  {
    if a != [] && b != [] && a[0] == b[0] {
      PrecedesMeans(a[1..], b[1..]);
      if Precedes(a, b) {
        var i :| 0 <= i < |b| - 1 && DecidesId(a[1..], b[1..], i);
        forall k | 0 <= k < i + 1
          ensures a[k] == b[k]
        {
          if k > 0 { assert a[k] == a[1..][k - 1] && b[k] == b[1..][k - 1]; }
        }
        assert DecidesId(a, b, i + 1);
      }
      if i :| 0 < i < |b| && DecidesId(a, b, i) {
        assert DecidesId(a[1..], b[1..], i - 1);
      }
    } else if Precedes(a, b) {
      assert DecidesId(a, b, 0);
    }
  }

  // ----- refusals -----

  /** No undefined or unsupported value anywhere, no number but finite ones, no object but plain ones. */
  predicate Acceptable(v: Host) {
    match v
    case HNumber(x) => x.Zero? || x.Decimal?
    case HArray(items) => forall i :: 0 <= i < |items| ==> Acceptable(items[i])
    case HObject(plain, entries) => plain && forall i :: 0 <= i < |entries| ==> Acceptable(entries[i].value)
    case HUndefined => false
    case HOther => false
    case _ => true
  }

  /** The steps lead to the first unacceptable place, items by index and members by key, and the error is of
      its kind. */
  predicate FirstFault(v: Host, steps: seq<Step>, e: CanonicalError)
    decreases |steps|
  {
    if steps == [] then
      || (v.HNumber? && !v.number.Zero? && !v.number.Decimal? && e.NonFiniteNumber?)
      || (v.HObject? && !v.plain && e.NonPlainObject?)
      || ((v.HUndefined? || v.HOther?) && e.UnsupportedType?)
    else
      match v
      case HArray(items) =>
        && steps[0].Index? && steps[0].i < |items|
        && (forall j :: 0 <= j < steps[0].i ==> Acceptable(items[j]))
        && FirstFault(items[steps[0].i], steps[1..], e)
      case HObject(plain, entries) =>
        && plain && steps[0].Name?
        && (forall j :: 0 <= j < |entries| && Before(entries[j].key, steps[0].key) ==> Acceptable(entries[j].value))
        && exists k :: 0 <= k < |entries| && entries[k].key == steps[0].key
                    && (if entries[k].value.HUndefined? then |steps| == 1 && e.UndefinedMember?
                        else FirstFault(entries[k].value, steps[1..], e))
      case _ => false
  }

  /** The outcome names the first fault, if there is one. */
  predicate Answered(v: Host, path: seq<Step>, r: Outcome) {
    && (r.Ok? <==> Acceptable(v))
    && (r.Err? ==> path <= r.error.path && FirstFault(v, r.error.path[|path|..], r.error))
  }

  lemma {:induction false} FirstError(outcomes: seq<Outcome>) returns (i: nat)
    ensures i <= |outcomes| && forall j :: 0 <= j < i ==> outcomes[j].Ok?
    ensures AllOk(outcomes).Ok? <==> i == |outcomes|
    ensures i < |outcomes| ==> outcomes[i].Err? && AllOk(outcomes) == Err(outcomes[i].error)
  {
    assert AllOk(outcomes).Ok? || AllOk(outcomes).Err?;
    if outcomes == [] || outcomes[0].Err? {
      i := 0;
    } else {
      var k := FirstError(outcomes[1..]);
      i := k + 1;
    }
  }

  lemma {:induction false} FirstMemberError(outcomes: seq<Keyed<Outcome>>) returns (i: nat)
    ensures i <= |outcomes| && forall j :: 0 <= j < i ==> outcomes[j].value.Ok?
    ensures AllMembers(outcomes).Ok? <==> i == |outcomes|
    ensures i < |outcomes| ==> outcomes[i].value.Err? && AllMembers(outcomes) == Err(outcomes[i].value.error)
  {
    assert AllMembers(outcomes).Ok? || AllMembers(outcomes).Err?;
    if outcomes == [] || outcomes[0].value.Err? {
      i := 0;
    } else {
      var k := FirstMemberError(outcomes[1..]);
      i := k + 1;
    }
  }

  /** One step further. */
  lemma StepInto(path: seq<Step>, step: Step, longer: seq<Step>)
    requires path + [step] <= longer
    ensures path <= longer && longer[|path|..] == [step] + longer[|path| + 1..]
    ensures longer[|path|..][1..] == longer[|path + [step]|..]
  {
    assert longer[|path|] == (path + [step])[|path|];
    assert longer[..|path|] == (path + [step])[..|path|];
  }

  lemma ItemsAnswered(items: seq<Host>, path: seq<Step>)
    requires forall i :: 0 <= i < |items| ==> Answered(items[i], ItemPath(path, i), Normalize(items[i], ItemPath(path, i)))
    ensures Answered(HArray(items), path, Normalize(HArray(items), path))
  {
    hide Normalize, FirstFault, Acceptable;
    ArrayCase(items, path);
    var outcomes := NormalizeItems(items, path, 0);
    var i := FirstError(outcomes);
    forall j | 0 <= j < |items|
      ensures outcomes[j] == Normalize(items[j], ItemPath(path, j))
    {
    }
    ArrayAccepted(items);
    if i < |items| {
      var e := outcomes[i].error;
      StepInto(path, Index(i), e.path);
      ArrayFault(items, i, e.path[|path|..], e);
      assert !Acceptable(items[i]);
    }
  }

  lemma ArrayAccepted(items: seq<Host>)
    ensures Acceptable(HArray(items)) <==> forall i :: 0 <= i < |items| ==> Acceptable(items[i])
  {
  }

  lemma ArrayFault(items: seq<Host>, i: nat, steps: seq<Step>, e: CanonicalError)
    requires i < |items| && steps != [] && steps[0] == Index(i)
    requires forall j :: 0 <= j < i ==> Acceptable(items[j])
    requires FirstFault(items[i], steps[1..], e)
    ensures FirstFault(HArray(items), steps, e)
  {
  }

  /** What a member answers: undefined is refused by its own name. */
  predicate MemberAnswered(v: Host, path: seq<Step>, r: Outcome) {
    && (r.Ok? <==> Acceptable(v))
    && (r.Err? ==> path <= r.error.path
                   && if v.HUndefined? then r.error.path == path && r.error.UndefinedMember?
                      else FirstFault(v, r.error.path[|path|..], r.error))
  }

  lemma MembersAnswered(entries: seq<Keyed<Host>>, path: seq<Step>)
    requires Distinct(entries)
    requires forall k :: 0 <= k < |entries| ==>
               MemberAnswered(entries[k].value, MemberPath(path, entries[k].key),
                              NormalizeMember(entries[k].value, MemberPath(path, entries[k].key)))
    ensures Answered(HObject(true, entries), path, Normalize(HObject(true, entries), path))
  {
    hide Normalize, NormalizeMember, FirstFault, Acceptable, SortByKey, Distinct;
    ObjectCase(entries, path);
    SortedOutcomes(entries, path);
    var given := NormalizeEntries(entries, path);
    var outcomes := SortByKey(given);
    var i := FirstMemberError(outcomes);
    forall j | 0 <= j < |entries|
      ensures given[j] == Keyed(entries[j].key, NormalizeMember(entries[j].value, MemberPath(path, entries[j].key)))
    {
    }
    ObjectAccepted(entries);
    if i < |outcomes| {
      assert outcomes[i] in given;
      var k :| 0 <= k < |given| && given[k] == outcomes[i];
      var e := outcomes[i].value.error;
      StepInto(path, Name(entries[k].key), e.path);
      forall j | 0 <= j < |entries| && Before(entries[j].key, entries[k].key)
        ensures Acceptable(entries[j].value)
      {
        EarlierIsOk(given, outcomes, i, j);
      }
      ObjectFault(entries, k, e.path[|path|..], e);
    } else {
      forall j | 0 <= j < |entries|
        ensures Acceptable(entries[j].value)
      {
        assert given[j] in outcomes;
      }
    }
  }

  /** In a sorted sequence an element with a smaller key is before. */
  lemma EarlierIsOk(given: seq<Keyed<Outcome>>, outcomes: seq<Keyed<Outcome>>, i: nat, j: nat)
    requires Sorted(outcomes) && i < |outcomes| && j < |given| && given[j] in outcomes
    requires forall p :: 0 <= p < i ==> outcomes[p].value.Ok?
    requires Before(given[j].key, outcomes[i].key)
    ensures given[j].value.Ok?
  {
    var p :| 0 <= p < |outcomes| && outcomes[p] == given[j];
    BeforeIsTotal(outcomes[p].key, outcomes[i].key);
  }

  lemma ObjectAccepted(entries: seq<Keyed<Host>>)
    ensures Acceptable(HObject(true, entries)) <==> forall i :: 0 <= i < |entries| ==> Acceptable(entries[i].value)
    ensures Acceptable(HUndefined) == false
  {
  }

  lemma ObjectFault(entries: seq<Keyed<Host>>, k: nat, steps: seq<Step>, e: CanonicalError)
    requires k < |entries| && steps != [] && steps[0] == Name(entries[k].key)
    requires forall j :: 0 <= j < |entries| && Before(entries[j].key, entries[k].key) ==> Acceptable(entries[j].value)
    requires if entries[k].value.HUndefined? then |steps| == 1 && e.UndefinedMember?
             else FirstFault(entries[k].value, steps[1..], e)
    ensures FirstFault(HObject(true, entries), steps, e)
  {
  }

  lemma MemberOf(v: Host, path: seq<Step>)
    requires Answered(v, path, Normalize(v, path))
    ensures MemberAnswered(v, path, NormalizeMember(v, path))
  {
    hide Normalize, FirstFault;
  }

  lemma LeafAnswered(v: Host, path: seq<Step>)
    requires !v.HArray? && !(v.HObject? && v.plain)
    ensures Answered(v, path, Normalize(v, path))
  {
    assert path[|path|..] == [];
  }

  /** A value is refused exactly if something in it is unacceptable, and the error names the first such place
      in the order of indices and keys. */
  lemma {:induction false} RefusalNamesFirstFault(v: Host, path: seq<Step>)
    requires WellMade(v)
    ensures Normalize(v, path).Ok? <==> Acceptable(v)
    ensures Normalize(v, path).Err? ==>
              var e := Normalize(v, path).error;
              path <= e.path && FirstFault(v, e.path[|path|..], e)
    decreases v
  {
    hide Normalize, FirstFault, Acceptable;
    if v.HArray? {
      forall i | 0 <= i < |v.items|
        ensures Answered(v.items[i], ItemPath(path, i), Normalize(v.items[i], ItemPath(path, i)))
      {
        RefusalNamesFirstFault(v.items[i], ItemPath(path, i));
      }
      ItemsAnswered(v.items, path);
    } else if v.HObject? && v.plain {
      forall k | 0 <= k < |v.entries|
        ensures MemberAnswered(v.entries[k].value, MemberPath(path, v.entries[k].key),
                               NormalizeMember(v.entries[k].value, MemberPath(path, v.entries[k].key)))
      {
        RefusalNamesFirstFault(v.entries[k].value, MemberPath(path, v.entries[k].key));
        MemberOf(v.entries[k].value, MemberPath(path, v.entries[k].key));
      }
      MembersAnswered(v.entries, path);
    } else {
      LeafAnswered(v, path);
    }
  }
}
