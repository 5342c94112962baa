/** Locale-independent order of strings, and sorting by key (src/canonical.ts). */
module CanonicalOrder {
  import opened TextUnits

  /** a < b on strings: lexicographic in UTF-16 code units. */
  predicate Before(a: Text, b: Text) {
    b != [] && (a == [] || a[0] < b[0] || (a[0] == b[0] && Before(a[1..], b[1..])))
  }

  /** compareCanonicalStrings */
  function Compare(a: Text, b: Text): int {
    if Before(a, b) then -1 else if Before(b, a) then 1 else 0
  }

  lemma {:induction false} BeforeIsTotal(a: Text, b: Text)
    ensures a != b ==> Before(a, b) || Before(b, a)
    ensures Before(a, b) ==> !Before(b, a) && a != b
    decreases |a|
  {
    if a != [] && b != [] && a[0] == b[0] {
      BeforeIsTotal(a[1..], b[1..]);
      assert a == [a[0]] + a[1..] && b == [b[0]] + b[1..];
    }
  }

  lemma {:induction false} BeforeIsTransitive(a: Text, b: Text, c: Text)
    requires Before(a, b) && Before(b, c)
    ensures Before(a, c)
    decreases |a|
  {
    if a != [] && a[0] == b[0] && b[0] == c[0] {
      BeforeIsTransitive(a[1..], b[1..], c[1..]);
    }
  }

  /** compareCanonicalStrings returns zero for equal strings only, and is antisymmetric. */
  lemma CompareDecides(a: Text, b: Text)
    ensures Compare(a, b) == 0 <==> a == b
    ensures Compare(a, b) == -Compare(b, a)
  {
    BeforeIsTotal(a, b);
    BeforeIsTotal(b, a);
  }

  /** isStrictCanonicalStringOrder */
  predicate IsStrictOrder(values: seq<Text>) {
    forall i :: 1 <= i < |values| ==> Compare(values[i - 1], values[i]) < 0
  }

  /** Neighbours in order are enough: all pairs are, so nothing occurs twice. */
  lemma {:induction false} StrictOrderIsGlobal(values: seq<Text>, i: nat, j: nat)
    requires IsStrictOrder(values) && i < j < |values|
    ensures Before(values[i], values[j]) && values[i] != values[j]
    decreases j - i
  {
    assert Compare(values[j - 1], values[j]) < 0;
    if i < j - 1 {
      StrictOrderIsGlobal(values, i, j - 1);
      BeforeIsTransitive(values[i], values[j - 1], values[j]);
    }
    BeforeIsTotal(values[i], values[j]);
  }

  // ----- sorting -----

  datatype Keyed<T> = Keyed(key: Text, value: T)

  predicate Distinct<T>(s: seq<Keyed<T>>) {
    forall i, j :: 0 <= i < j < |s| ==> s[i].key != s[j].key
  }

  predicate Sorted<T>(s: seq<Keyed<T>>) {
    forall i, j :: 0 <= i < j < |s| ==> Before(s[i].key, s[j].key)
  }

  function Insert<T>(x: Keyed<T>, s: seq<Keyed<T>>): seq<Keyed<T>> {
    if s == [] || !Before(s[0].key, x.key) then [x] + s else [s[0]] + Insert(x, s[1..])
  }

  function SortByKey<T>(s: seq<Keyed<T>>): (r: seq<Keyed<T>>)
  {
    if s == [] then [] else Insert(s[0], SortByKey(s[1..]))
  }

  lemma {:induction false} InsertKeeps<T>(x: Keyed<T>, s: seq<Keyed<T>>)
    ensures multiset(Insert(x, s)) == multiset(s) + multiset{x}
  {
    if s != [] && Before(s[0].key, x.key) {
      InsertKeeps(x, s[1..]);
      assert s == [s[0]] + s[1..];
    }
  }

  lemma InsertedFrom<T>(x: Keyed<T>, s: seq<Keyed<T>>, i: nat)
    requires i < |Insert(x, s)|
    ensures Insert(x, s)[i] == x || Insert(x, s)[i] in s
  {
    InsertKeeps(x, s);
    assert Insert(x, s)[i] in multiset(Insert(x, s));
  }

  lemma {:induction false} InsertKeepsOrder<T>(x: Keyed<T>, s: seq<Keyed<T>>)
    requires Sorted(s) && forall i :: 0 <= i < |s| ==> s[i].key != x.key
    ensures Sorted(Insert(x, s))
  {
    if s != [] && Before(s[0].key, x.key) {
      InsertKeepsOrder(x, s[1..]);
      forall i | 0 <= i < |Insert(x, s[1..])|
        ensures Before(s[0].key, Insert(x, s[1..])[i].key)
      {
        InsertedFrom(x, s[1..], i);
      }
    } else {
      forall i | 0 <= i < |s|
        ensures Before(x.key, s[i].key)
      {
        BeforeIsTotal(x.key, s[0].key);
        if i > 0 { BeforeIsTransitive(x.key, s[0].key, s[i].key); }
      }
    }
  }

  lemma {:induction false} SortKeepsElements<T>(s: seq<Keyed<T>>)
    ensures multiset(SortByKey(s)) == multiset(s)
  {
    if s != [] {
      SortKeepsElements(s[1..]);
      InsertKeeps(s[0], SortByKey(s[1..]));
      assert s == [s[0]] + s[1..];
    }
  }

  lemma SortedFrom<T>(s: seq<Keyed<T>>, i: nat)
    requires i < |SortByKey(s)|
    ensures SortByKey(s)[i] in s
  {
    SortKeepsElements(s);
    assert SortByKey(s)[i] in multiset(SortByKey(s));
  }

  lemma {:induction false} SortOrders<T>(s: seq<Keyed<T>>)
    requires Distinct(s)
    ensures Sorted(SortByKey(s))
  {
    if s != [] {
      var r := SortByKey(s[1..]);
      SortOrders(s[1..]);
      forall i | 0 <= i < |r|
        ensures r[i].key != s[0].key
      {
        SortedFrom(s[1..], i);
      }
      InsertKeepsOrder(s[0], r);
    }
  }

  lemma SortKeeps<T>(s: seq<Keyed<T>>)
    ensures multiset(SortByKey(s)) == multiset(s)
    ensures Distinct(s) ==> Sorted(SortByKey(s))
  {
    SortKeepsElements(s);
    if Distinct(s) { SortOrders(s); }
  }

  lemma SortedIsDistinct<T>(s: seq<Keyed<T>>)
    requires Sorted(s)
    ensures Distinct(s)
  {
    forall i, j | 0 <= i < j < |s|
      ensures s[i].key != s[j].key
    {
      BeforeIsTotal(s[i].key, s[j].key);
    }
  }

  /** Two sorted sequences with the same elements are equal. */
  lemma {:induction false} SortedIsUnique<T>(a: seq<Keyed<T>>, b: seq<Keyed<T>>)
    requires Sorted(a) && Sorted(b)
    requires forall x :: x in a <==> x in b
    ensures a == b
    decreases |a|
  {
    if a == [] {
      if b != [] { FirstIsMember(b); }
    } else {
      assert a[0] in a && a[0] in b;
      assert b != [];
      assert b[0] in b && b[0] in a;
      SortedHead(a, b);
      forall x
        ensures x in a[1..] <==> x in b[1..]
      {
        TailElements(a, x);
        TailElements(b, x);
      }
      SortedIsUnique(a[1..], b[1..]);
      assert a == [a[0]] + a[1..] && b == [b[0]] + b[1..];
    }
  }

  lemma FirstIsMember<T>(s: seq<T>)
    requires s != []
    ensures s[0] in s
  {
  }

  lemma SortedHead<T>(a: seq<Keyed<T>>, b: seq<Keyed<T>>)
    requires Sorted(a) && Sorted(b) && a != [] && b != []
    requires a[0] in b && b[0] in a
    ensures a[0] == b[0]
  {
    var i :| 0 <= i < |b| && b[i] == a[0];
    var j :| 0 <= j < |a| && a[j] == b[0];
    BeforeIsTotal(a[0].key, b[0].key);
  }

  lemma TailElements<T>(s: seq<Keyed<T>>, x: Keyed<T>)
    requires Sorted(s) && s != []
    ensures x in s[1..] <==> x in s && x != s[0]
  {
    assert s == [s[0]] + s[1..];
    if x in s[1..] {
      var i :| 0 <= i < |s| - 1 && s[1..][i] == x;
      BeforeIsTotal(s[0].key, s[i + 1].key);
    }
  }

  /** The order in which distinct keys are given does not matter. */
  lemma SortForgetsOrder<T>(a: seq<Keyed<T>>, b: seq<Keyed<T>>)
    requires Distinct(a) && Distinct(b)
    requires forall x :: x in a <==> x in b
    ensures SortByKey(a) == SortByKey(b)
  {
    SortKeeps(a);
    SortKeeps(b);
    forall x
      ensures x in SortByKey(a) <==> x in SortByKey(b)
    {
      assert x in SortByKey(a) <==> x in multiset(SortByKey(a));
      assert x in a <==> x in multiset(a);
      assert x in b <==> x in multiset(b);
      assert x in SortByKey(b) <==> x in multiset(SortByKey(b));
    }
    SortedIsUnique(SortByKey(a), SortByKey(b));
  }

  /** Sorting what is sorted changes nothing. */
  lemma SortOfSorted<T>(s: seq<Keyed<T>>)
    requires Sorted(s)
    ensures SortByKey(s) == s
  {
    SortedIsDistinct(s);
    SortKeeps(s);
    forall x
      ensures x in SortByKey(s) <==> x in s
    {
      assert x in SortByKey(s) <==> x in multiset(SortByKey(s));
      assert x in s <==> x in multiset(s);
    }
    SortedIsUnique(SortByKey(s), s);
  }
}
