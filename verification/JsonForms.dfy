/** The form of JSON texts, beside their reading back: how JSON.stringify writes numbers, escapes, words
    and punctuation (src/canonical.ts). */
module JsonForms {
  import opened TextUnits
  import opened JsonNumbers
  import opened JsonStrings
  import opened JsonText

  // ----- the value of a number -----

  function Power(n: nat): (p: int)
    ensures p > 0
  {
    if n == 0 then 1 else 10 * Power(n - 1)
  }

  function Ten(e: int): (p: real)
    ensures p > 0.0
  {
    if e >= 0 then Power(e) as real else 1.0 / Power(-e) as real
  }

  /** The magnitude of a number that is not zero: 0.d1 d2 .. dk times ten to the n. */
  function Value(x: Number): real
    requires x.Decimal? && x.Valid()
  {
    Times(ReadNat(x.digits), Ten(x.point - |x.digits|))
  }

  function Times(n: int, p: real): real { n as real * p }

  predicate Whole(v: real) { v.Floor as real == v }

  lemma {:induction false} PowerAdds(a: nat, b: nat)
    ensures Power(a + b) == Power(a) * Power(b)
  {
    if a > 0 {
      PowerAdds(a - 1, b);
      assert Power(a + b) == 10 * Power(a - 1 + b);
      assert 10 * (Power(a - 1) * Power(b)) == (10 * Power(a - 1)) * Power(b);
    }
  }

  lemma TenSteps(e: int)
    ensures Ten(e + 1) == 10.0 * Ten(e)
  {
    if e < 0 {
      assert Power(-e) == 10 * Power(-e - 1);
      var (p, q) := (Power(-e - 1) as real, Power(-e) as real);
      assert q == 10.0 * p && 10.0 * (1.0 / q) == 1.0 / p;
    }
  }

  lemma {:induction false} TenAdds(a: int, n: nat)
    ensures Ten(a + n) == Times(Power(n), Ten(a))
  {
    hide Ten, Power, Times;
    PowerSteps(n);
    Once(Ten(a));
    if n > 0 {
      TenAdds(a, n - 1);
      TenSteps(a + n - 1);
      TenTimes(Ten(a), Power(n - 1));
    }
  }

  lemma PowerSteps(n: nat)
    ensures if n == 0 then Power(n) == 1 else Power(n) == 10 * Power(n - 1)
  {
  }

  lemma TenTimes(t: real, p: int)
    ensures 10.0 * Times(p, t) == Times(10 * p, t)
  {
  }

  lemma Once(t: real)
    ensures Times(1, t) == t
  {
  }

  lemma {:induction false} TenGrows(a: int, b: int)
    requires a < b
    ensures 10.0 * Ten(a) <= Ten(b)
    decreases b - a
  {
    TenSteps(a);
    TenSteps(b - 1);
    if a < b - 1 { TenGrows(a, b - 1); }
  }

  lemma {:induction false} ReadNatBelow(t: Text)
    requires AllDigits(t)
    ensures ReadNat(t) < Power(|t|)
  {
    if t != [] { ReadNatBelow(t[..|t| - 1]); }
  }

  lemma {:induction false} ReadNatAtLeast(t: Text)
    requires t != [] && AllDigits(t) && t[0] != ZERO
    ensures ReadNat(t) >= Power(|t| - 1)
  {
    if |t| > 1 {
      ReadNatAtLeast(t[..|t| - 1]);
    } else {
      assert ReadNat([]) == 0 && t[..0] == [];
    }
  }

  lemma {:induction false} ReadNatPadded(t: Text, n: nat)
    requires AllDigits(t)
    ensures AllDigits(t + Zeros(n)) && ReadNat(t + Zeros(n)) == ReadNat(t) * Power(n)
  {
    hide ReadNat, Power;
    PowerSteps(n);
    if n == 0 {
      assert t + Zeros(0) == t;
    } else {
      ReadNatPadded(t, n - 1);
      OneMoreZero(t, n);
      TenProduct(ReadNat(t), Power(n - 1));
    }
  }

  lemma OneMoreZero(t: Text, n: nat)
    requires AllDigits(t) && n > 0
    ensures AllDigits(t + Zeros(n)) && AllDigits(t + Zeros(n - 1))
    ensures ReadNat(t + Zeros(n)) == 10 * ReadNat(t + Zeros(n - 1))
  {
    hide ReadNat;
    var padded := t + Zeros(n);
    assert padded[..|padded| - 1] == t + Zeros(n - 1) && padded[|padded| - 1] == ZERO;
    ReadNatStep(padded);
  }

  lemma TenProduct(d: int, p: int)
    ensures 10 * (d * p) == d * (10 * p)
  {
  }

  lemma {:induction false} ReadNatLeading(n: nat, t: Text)
    requires AllDigits(t)
    ensures AllDigits(Zeros(n) + t) && ReadNat(Zeros(n) + t) == ReadNat(t)
    decreases |t|, n
  {
    var padded := Zeros(n) + t;
    if t != [] {
      ReadNatLeading(n, t[..|t| - 1]);
      assert padded[..|padded| - 1] == Zeros(n) + t[..|t| - 1];
    } else if n > 0 {
      ReadNatLeading(n - 1, t);
      assert padded[..|padded| - 1] == Zeros(n - 1) + t;
    } else {
      assert padded == t;
    }
  }

  /** A numeral without a leading zero is the one ShowNat writes. */
  lemma {:induction false} ShowReadNat(t: Text)
    requires t != [] && AllDigits(t) && t[0] != ZERO
    ensures ShowNat(ReadNat(t)) == t && ReadNat(t) > 0
  {
    var front := t[..|t| - 1];
    assert t == front + [t[|t| - 1]];
    if |t| == 1 {
      assert ReadNat([]) == 0 && front == [];
    } else {
      ShowReadNat(front);
    }
  }

  lemma Scales(a: int, p: real, low: int, high: int)
    requires p > 0.0 && low <= a < high
    ensures Times(low, p) <= Times(a, p) < Times(high, p)
  {
  }

  /** The point gives the magnitude. */
  lemma ValueBounds(x: Number)
    requires x.Decimal? && x.Valid()
    ensures Ten(x.point - 1) <= Value(x) < Ten(x.point)
  {
    var k := |x.digits|;
    ReadNatBelow(x.digits);
    ReadNatAtLeast(x.digits);
    TenAdds(x.point - k, k);
    TenAdds(x.point - k, k - 1);
    hide ReadNat, Ten, Power, Times;
    Scales(ReadNat(x.digits), Ten(x.point - k), Power(k - 1), Power(k));
  }

  lemma PointDecides(x: Number, e: int)
    requires x.Decimal? && x.Valid()
    ensures Value(x) < Ten(e) <==> x.point <= e
  {
    hide Value, Ten;
    ValueBounds(x);
    if x.point < e { TenGrows(x.point, e); }
    if e < x.point - 1 { TenGrows(e, x.point - 1); }
  }

  /** The number is whole exactly if no digit is behind its point. */
  lemma WholeExactly(x: Number)
    requires x.Decimal? && x.Valid()
    ensures Whole(Value(x)) <==> |x.digits| <= x.point
    ensures |x.digits| <= x.point ==> Value(x).Floor == ReadNat(x.digits) * Power(x.point - |x.digits|)
  {
    hide Times, Ten, Power, ReadNat, Whole;
    var (k, n) := (|x.digits|, x.point);
    var d := ReadNat(x.digits);
    if k <= n {
      TenOf(n - k);
      WholeTimes(d, Power(n - k));
    } else {
      LastDigit(x.digits);
      PowerSteps(k - n);
      TenAdds(n - k, k - n);
      TenOf(0);
      PowerSteps(0);
      Unscaled(d, Power(k - n - 1), Ten(n - k));
    }
  }

  lemma TenOf(n: nat)
    ensures Ten(n) == Power(n) as real
  {
  }

  lemma WholeTimes(d: int, p: int)
    ensures Whole(Times(d, p as real)) && Times(d, p as real).Floor == d * p
  {
    assert Times(d, p as real) == (d * p) as real;
  }

  lemma LastDigit(t: Text)
    requires t != [] && AllDigits(t) && t[|t| - 1] != ZERO
    ensures ReadNat(t) % 10 != 0
  {
    var last := (t[|t| - 1] - 48) as int;
    assert 0 < last < 10;
    hide ReadNat;
    var front := ReadNat(t[..|t| - 1]);
    assert ReadNat(t) == 10 * front + last by { ReadNatStep(t); }
  }

  lemma ReadNatStep(t: Text)
    requires t != [] && AllDigits(t)
    ensures ReadNat(t) == 10 * ReadNat(t[..|t| - 1]) + (t[|t| - 1] - 48) as int
  {
  }

  lemma Unscaled(d: int, p: int, t: real)
    requires Times(10 * p, t) == 1.0 && d % 10 != 0
    ensures !Whole(Times(d, t))
  {
    if Whole(Times(d, t)) {
      var v := Times(d, t).Floor;
      var q := (10 * p) as real;
      assert v as real * q == d as real * (q * t);
      WholeProduct(v, p, d);
    }
  }

  lemma WholeProduct(v: int, p: int, d: int)
    requires v as real * (10 * p) as real == d as real
    ensures d % 10 == 0
  {
    assert v as real * (10 * p) as real == (v * (10 * p)) as real;
    assert v * (10 * p) == 10 * (v * p);
  }

  // ----- numbers -----

  /** The digits of a natural number: none but the first may be zero. */
  lemma NaturalText(n: nat, d: nat)
    requires d < 10
    ensures ShowNat(d) == [48 + d as Unit]
    ensures n > 0 ==> ShowNat(10 * n + d) == ShowNat(n) + [48 + d as Unit]
    ensures ShowNat(n)[0] == ZERO <==> n == 0
  {
    LeadingDigit(n);
  }

  lemma {:induction false} LeadingDigit(n: nat)
    ensures ShowNat(n)[0] == ZERO <==> n == 0
  {
    if n >= 10 { LeadingDigit(n / 10); }
  }

  /** A whole number below 10^21 is written as its sign and its decimal digits alone. */
  lemma WholeNumberText(x: Number)
    requires x.Decimal? && x.Valid() && Whole(Value(x)) && Value(x) < Ten(21)
    ensures Value(x).Floor > 0
    ensures Show(x) == (if x.negative then [45] else []) + ShowNat(Value(x).Floor)
  {
    WholeExactly(x);
    PointDecides(x, 21);
    var n := x.point - |x.digits|;
    ReadNatPadded(x.digits, n);
    ShowReadNat(x.digits + Zeros(n));
    hide Value, Ten, ShowNat, ReadNat, Zeros;
  }

  lemma ZeroText(negative: bool)
    ensures Show(Zero(negative)) == [48]
  {
  }

  /** Digits on both sides of one point, and their value. */
  predicate Pointed(whole: Text, fraction: Text, v: real) {
    && whole != [] && AllDigits(whole) && (|whole| > 1 ==> whole[0] != ZERO)
    && fraction != [] && AllDigits(fraction) && fraction[|fraction| - 1] != ZERO
    && AllDigits(whole + fraction) && v == Times(ReadNat(whole + fraction), Ten(-|fraction|))
  }

  /** A fraction of at least 10^-6 and below 10^21 is written with one point and no exponent. */
  lemma FractionText(x: Number) returns (whole: Text, fraction: Text)
    requires x.Decimal? && x.Valid() && !Whole(Value(x)) && Ten(-6) <= Value(x) < Ten(21)
    ensures Show(x) == (if x.negative then [45] else []) + whole + [46] + fraction
    ensures Pointed(whole, fraction, Value(x))
  {
    WholeExactly(x);
    PointDecides(x, 21);
    PointDecides(x, -6);
    whole, fraction := SplitDigits(x.digits, x.point);
    hide ReadNat, Ten, Unsigned, Power, Zeros, ShowNat, Times;
    assert |fraction| == |x.digits| - x.point;
    Signed(Sign(x.negative), whole, fraction);
  }

  lemma Signed(sign: Text, whole: Text, fraction: Text)
    ensures sign + (whole + [46] + fraction) == sign + whole + [46] + fraction
  {
  }

  /** The digits on both sides of the point. */
  lemma SplitDigits(digits: Text, n: int) returns (whole: Text, fraction: Text)
    requires Decimal(false, digits, n).Valid() && -6 < n <= 21 && n < |digits|
    ensures Unsigned(digits, n) == whole + [46] + fraction && |fraction| == |digits| - n
    ensures whole != [] && AllDigits(whole) && (|whole| > 1 ==> whole[0] != ZERO)
    ensures fraction != [] && AllDigits(fraction) && fraction[|fraction| - 1] != ZERO
    ensures AllDigits(whole + fraction) && ReadNat(whole + fraction) == ReadNat(digits)
  {
    hide ReadNat;
    if n > 0 {
      whole, fraction := digits[..n], digits[n..];
      hide Unsigned;
      assert whole + fraction == digits;
      PointedText(digits, n);
    } else {
      whole, fraction := [ZERO], Zeros(-n) + digits;
      SmallText(digits, n);
      hide Unsigned;
      ReadNatLeading(1 - n, digits);
      assert whole + fraction == Zeros(1 - n) + digits;
    }
  }

  lemma PointedText(digits: Text, n: int)
    requires 0 < n < |digits| && n <= 21
    ensures Unsigned(digits, n) == digits[..n] + [46] + digits[n..]
  {
  }

  lemma SmallText(digits: Text, n: int)
    requires digits != [] && -6 < n <= 0
    ensures Unsigned(digits, n) == [ZERO] + [46] + (Zeros(-n) + digits)
  {
    assert [ZERO, POINT] + Zeros(-n) + digits == [ZERO] + [46] + (Zeros(-n) + digits);
  }

  /** Every other number, and no number above, is written with one exponent and one digit before its point. */
  lemma ExponentText(x: Number) returns (lead: Unit, fraction: Text, e: int)
    requires x.Decimal? && x.Valid() && !(Ten(-6) <= Value(x) < Ten(21))
    ensures Show(x) == (if x.negative then [45] else []) + [lead] + (if fraction == [] then [] else [46] + fraction)
                       + [101, if e < 0 then 45 else 43] + ShowNat(if e < 0 then -e else e)
    ensures 49 <= lead <= 57 && AllDigits(fraction) && (fraction != [] ==> fraction[|fraction| - 1] != ZERO)
    ensures AllDigits([lead] + fraction) && Value(x) == Times(ReadNat([lead] + fraction), Ten(e - |fraction|))
  {
    PointDecides(x, 21);
    PointDecides(x, -6);
    hide ReadNat, Ten, ShowNat, Power, Exponential, Unsigned, Times;
    lead, fraction, e := x.digits[0], x.digits[1..], x.point - 1;
    assert [lead] + fraction == x.digits && x.digits[..1] == [lead];
    var mark: Text := [EXPONENT, if e < 0 then MINUS else PLUS];
    var shown := ShowNat(if e < 0 then -e else e);
    ScaledText(x.digits, x.point);
    ExponentJoins(Sign(x.negative), [lead], if fraction == [] then [] else [POINT] + fraction, mark, shown);
  }

  lemma ScaledText(digits: Text, n: int)
    requires digits != [] && !(-6 < n <= 21)
    ensures Unsigned(digits, n) ==
              [digits[0]] + (if |digits| == 1 then [] else [POINT] + digits[1..])
              + ([EXPONENT, if n - 1 < 0 then MINUS else PLUS] + ShowNat(if n - 1 < 0 then -(n - 1) else n - 1))
  {
    hide ShowNat;
    assert digits[..1] == [digits[0]];
  }

  lemma ExponentJoins(sign: Text, lead: Text, fraction: Text, mark: Text, digits: Text)
    ensures sign + (lead + fraction + (mark + digits)) == sign + lead + fraction + mark + digits
  {
  }

  // ----- strings -----

  /** The value of a lower-case hexadecimal digit. */
  predicate LowerHex(u: Unit, n: int) {
    (48 <= u <= 57 && n == u as int - 48) || (97 <= u <= 102 && n == u as int - 87)
  }

  /** Short escapes for seven units, the four-digit escape for the other controls and for surrogates that
      stand alone, and every other unit as it is. */
  lemma EscapeForms(u: Unit)
    ensures u == 8 ==> EscapeUnit(u) == [92, 98]
    ensures u == 9 ==> EscapeUnit(u) == [92, 116]
    ensures u == 10 ==> EscapeUnit(u) == [92, 110]
    ensures u == 12 ==> EscapeUnit(u) == [92, 102]
    ensures u == 13 ==> EscapeUnit(u) == [92, 114]
    ensures u == 34 || u == 92 ==> EscapeUnit(u) == [92, u]
    ensures u in {8, 9, 10, 12, 13, 34, 92} <==> |EscapeUnit(u)| == 2
    ensures (u < 32 && u !in {8, 9, 10, 12, 13}) || 0xD800 <= u <= 0xDFFF <==> |EscapeUnit(u)| == 6
    ensures |EscapeUnit(u)| == 1 || |EscapeUnit(u)| == 2 || |EscapeUnit(u)| == 6
    ensures |EscapeUnit(u)| == 1 ==> EscapeUnit(u) == [u]
    ensures |EscapeUnit(u)| == 6 ==>
              && EscapeUnit(u)[..2] == [92, 117]
              && LowerHex(EscapeUnit(u)[2], u as int / 4096) && LowerHex(EscapeUnit(u)[3], u as int / 256 % 16)
              && LowerHex(EscapeUnit(u)[4], u as int / 16 % 16) && LowerHex(EscapeUnit(u)[5], u as int % 16)
  {
  }

  /** A literal stands between quotation marks; a pair of surrogates stays as it is, any other unit is escaped
      on its own. */
  lemma LiteralForms(u: Unit, v: Unit, t: Text)
    ensures Quoted(t) == [34] + Escaped(t) + [34] && Escaped([]) == []
    ensures 0xD800 <= u <= 0xDBFF && 0xDC00 <= v <= 0xDFFF ==> Escaped([u, v] + t) == [u, v] + Escaped(t)
    ensures !(0xD800 <= u <= 0xDBFF && t != [] && 0xDC00 <= t[0] <= 0xDFFF) ==> Escaped([u] + t) == EscapeUnit(u) + Escaped(t)
  {
    hide EscapeUnit;
    assert ([u, v] + t)[2..] == t && ([u, v] + t)[..2] == [u, v] && ([u] + t)[1..] == t;
  }

  predicate High(t: Text, i: int) { 0 <= i < |t| && 0xD800 <= t[i] <= 0xDBFF }

  predicate Low(t: Text, i: int) { 0 <= i < |t| && 0xDC00 <= t[i] <= 0xDFFF }

  /** A text is well-formed exactly if every high surrogate is followed by a low one and every low one follows
      a high one. */
  lemma {:induction false} WellFormedMeans(t: Text)
    ensures WellFormed(t) <==> forall i :: (High(t, i) ==> Low(t, i + 1)) && (Low(t, i) ==> High(t, i - 1))
    decreases |t|
  {
    if t != [] {
      var n := if StartsPair(t) then 2 else 1;
      var rest := t[n..];
      WellFormedMeans(rest);
      forall i
        ensures i >= 0 ==> (High(rest, i) <==> High(t, i + n)) && (Low(rest, i) <==> Low(t, i + n))
      {
      }
      Shifted(t, rest, n);
    }
  }

  /** What stands after a first pair, or after a first unit that starts none. */
  lemma Shifted(t: Text, rest: Text, n: nat)
    requires 1 <= n <= |t| && rest == t[n..] && n == (if StartsPair(t) then 2 else 1)
    requires forall i :: i >= 0 ==> (High(rest, i) <==> High(t, i + n)) && (Low(rest, i) <==> Low(t, i + n))
    ensures (forall i :: (High(t, i) ==> Low(t, i + 1)) && (Low(t, i) ==> High(t, i - 1))) <==>
              && (n == 2 || !Surrogate(t[0]))
              && forall i :: (High(rest, i) ==> Low(rest, i + 1)) && (Low(rest, i) ==> High(rest, i - 1))
  {
    if forall i :: (High(t, i) ==> Low(t, i + 1)) && (Low(t, i) ==> High(t, i - 1)) {
      assert High(t, 0) ==> Low(t, 1);
      assert Low(t, 0) ==> High(t, -1);
      forall i
        ensures (High(rest, i) ==> Low(rest, i + 1)) && (Low(rest, i) ==> High(rest, i - 1))
      {
        if i >= 0 {
          assert High(t, i + n) ==> Low(t, i + n + 1);
          assert Low(t, i + n) ==> High(t, i + n - 1);
        }
      }
    }
    if (n == 2 || !Surrogate(t[0])) && forall i :: (High(rest, i) ==> Low(rest, i + 1)) && (Low(rest, i) ==> High(rest, i - 1)) {
      forall i
        ensures (High(t, i) ==> Low(t, i + 1)) && (Low(t, i) ==> High(t, i - 1))
      {
        if i >= n {
          assert High(rest, i - n) ==> Low(rest, i - n + 1);
          assert Low(rest, i - n) ==> High(rest, i - n - 1);
        }
      }
    }
  }

  // ----- values -----

  /** Words, brackets and separators. */
  lemma ValueForms()
    ensures Encode(JNull) == [110, 117, 108, 108]
    ensures Encode(JBool(true)) == [116, 114, 117, 101] && Encode(JBool(false)) == [102, 97, 108, 115, 101]
    ensures Encode(JArray([])) == [91, 93] && Encode(JObject([])) == [123, 125]
  {
  }

  lemma ItemForms(first: Json, items: seq<Json>)
    requires Plain(first) && forall i :: 0 <= i < |items| ==> Plain(items[i])
    ensures Encode(JArray([first])) == [91] + Encode(first) + [93]
    ensures items != [] ==>
              Encode(JArray([first] + items)) == [91] + Encode(first) + [44] + Encode(JArray(items))[1..]
  {
    hide Encode, EncodeItems;
    ItemsText(first, items);
    assert Plain(JArray([first]));
    EncodeArray([first]);
    ItemsText(first, []);
    if items != [] {
      assert Plain(JArray(items)) && Plain(JArray([first] + items));
      EncodeArray(items);
      EncodeArray([first] + items);
      Bracketed(91, Encode(first), EncodeItems(items), 93);
    }
  }

  lemma ItemsText(first: Json, items: seq<Json>)
    requires Plain(first) && forall i :: 0 <= i < |items| ==> Plain(items[i])
    ensures EncodeItems([first]) == Encode(first)
    ensures items != [] ==> EncodeItems([first] + items) == Encode(first) + [44] + EncodeItems(items)
  {
    hide Encode;
    assert ([first] + items)[1..] == items;
  }

  lemma Bracketed(left: Unit, first: Text, others: Text, right: Unit)
    ensures [left] + (first + [44] + others) + [right] == [left] + first + [44] + ([left] + others + [right])[1..]
  {
    assert ([left] + others + [right])[1..] == others + [right];
  }

  lemma MemberForms(first: Member, members: seq<Member>)
    requires Plain(JObject([first] + members)) && Plain(JObject(members)) && Plain(first.value)
    ensures Encode(JObject([first])) == [123] + EncodeMember(first) + [125]
    ensures EncodeMember(first) == [34] + Escaped(first.key) + [34] + [58] + Encode(first.value)
    ensures members != [] ==>
              Encode(JObject([first] + members)) == [123] + EncodeMember(first) + [44] + Encode(JObject(members))[1..]
  {
    hide Encode, EncodeMembers, EncodeMember;
    MemberText(first);
    assert Plain(JObject([first]));
    EncodeObject([first]);
    MembersTextOf(first, members);
    if members != [] {
      EncodeObject(members);
      EncodeObject([first] + members);
      Bracketed(123, EncodeMember(first), EncodeMembers(members), 125);
    }
  }

  lemma MembersTextOf(first: Member, members: seq<Member>)
    requires Plain(first.value) && forall i :: 0 <= i < |members| ==> Plain(members[i].value)
    ensures EncodeMembers([first]) == EncodeMember(first)
    ensures members != [] ==> EncodeMembers([first] + members) == EncodeMember(first) + [44] + EncodeMembers(members)
  {
    hide EncodeMember;
    assert ([first] + members)[1..] == members;
  }

  lemma MemberText(m: Member)
    requires Plain(m.value)
    ensures EncodeMember(m) == [34] + Escaped(m.key) + [34] + [58] + Encode(m.value)
  {
    hide Encode, Escaped;
  }
}
