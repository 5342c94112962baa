/** Numbers as JSON.stringify writes them and a JSON reader takes them back: the shortest decimal
    digits of a double and the position of the decimal point. */
module JsonNumbers {
  import opened Common
  import opened TextUnits

  const ZERO: Unit := 48
  const POINT: Unit := 46
  const PLUS: Unit := 43
  const MINUS: Unit := 45
  const EXPONENT: Unit := 101

  predicate Digit(u: Unit) { 48 <= u <= 57 }

  predicate AllDigits(t: Text) { forall i :: 0 <= i < |t| ==> Digit(t[i]) }

  /** Decimal(negative, d1 d2 .. dk, n) is the number 0.d1 d2 .. dk times ten to the n. */
  datatype Number =
    | NotANumber
    | Infinite(negative: bool)
    | Zero(negative: bool)
    | Decimal(negative: bool, digits: Text, point: int)
  {
    predicate Valid() {
      Decimal? ==> digits != [] && AllDigits(digits) && digits[0] != ZERO && digits[|digits| - 1] != ZERO
    }

    predicate Finite() { Zero? || Decimal? }
  }

  function Zeros(n: nat): Text { seq(n, _ => ZERO) }

  function ShowNat(n: nat): (t: Text)
    ensures t != [] && AllDigits(t)
  {
    if n < 10 then [48 + n as Unit] else ShowNat(n / 10) + [48 + (n % 10) as Unit]
  }

  function ReadNat(t: Text): nat
    requires AllDigits(t)
  {
    if t == [] then 0 else 10 * ReadNat(t[..|t| - 1]) + (t[|t| - 1] - 48) as nat
  }

  function Sign(negative: bool): Text { if negative then [MINUS] else [] }

  function Exponential(e: int): Text {
    [EXPONENT, if e < 0 then MINUS else PLUS] + ShowNat(if e < 0 then -e else e)
  }

  function Unsigned(digits: Text, n: int): Text
    requires digits != []
  {
    var k := |digits|;
    if k <= n <= 21 then digits + Zeros(n - k)
    else if 0 < n <= 21 then digits[..n] + [POINT] + digits[n..]
    else if -6 < n <= 0 then [ZERO, POINT] + Zeros(-n) + digits
    else digits[..1] + (if k == 1 then [] else [POINT] + digits[1..]) + Exponential(n - 1)
  }

  /** The text of a finite number; a negative zero is written without its sign. */
  function Show(x: Number): Text
    requires x.Finite() && x.Valid()
  {
    match x
    case Zero(_) => [ZERO]
    case Decimal(negative, digits, n) => Sign(negative) + Unsigned(digits, n)
  }

  // ----- reading -----

  predicate NumeralUnit(u: Unit) { Digit(u) || u in {PLUS, MINUS, POINT, EXPONENT, 69} }

  function DigitRun(t: Text): (run: Text)
    ensures AllDigits(run) && run <= t
    ensures |run| < |t| ==> !Digit(t[|run|])
  {
    if t == [] || !Digit(t[0]) then [] else [t[0]] + DigitRun(t[1..])
  }

  function WithoutLeading(digits: Text): Text {
    if digits != [] && digits[0] == ZERO then WithoutLeading(digits[1..]) else digits
  }

  function WithoutTrailing(digits: Text): Text {
    if digits != [] && digits[|digits| - 1] == ZERO then WithoutTrailing(digits[..|digits| - 1]) else digits
  }

  /** The number with the given digits and decimal point, leading and trailing zeros dropped. */
  function FromDigits(negative: bool, digits: Text, point: int): Number {
    var leading := WithoutLeading(digits);
    if leading == [] then Zero(negative)
    else Decimal(negative, WithoutTrailing(leading), point - (|digits| - |leading|))
  }

  /** The exponent part of a numeral. */
  function ReadExponent(t: Text): Option<int> {
    if t == [] then Some(0)
    else if t[0] != EXPONENT && t[0] != 69 then None
    else
      var signed := |t| > 1 && t[1] in {PLUS, MINUS};
      var digits := if signed then t[2..] else t[1..];
      if digits == [] || DigitRun(digits) != digits then None
      else
        var e: int := ReadNat(digits);
        Some(if signed && t[1] == MINUS then -e else e)
  }

  /** The fraction part of a numeral, and what follows it. */
  function ReadFraction(t: Text): Option<(Text, Text)> {
    if t == [] || t[0] != POINT then Some(([], t))
    else
      var fraction := DigitRun(t[1..]);
      if fraction == [] then None else Some((fraction, t[1 + |fraction|..]))
  }

  function ReadUnsigned(negative: bool, t: Text): Option<Number> {
    var whole := DigitRun(t);
    if whole == [] || (|whole| > 1 && whole[0] == ZERO) then None
    else
      match ReadFraction(t[|whole|..])
      case None => None
      case Some((fraction, rest)) =>
        match ReadExponent(rest)
        case None => None
        case Some(e) => Some(FromDigits(negative, whole + fraction, |whole| + e))
  }

  /** The number a numeral of RFC 8259 section 6 denotes. */
  function ReadNumeral(t: Text): Option<Number> {
    if t != [] && t[0] == MINUS then ReadUnsigned(true, t[1..]) else ReadUnsigned(false, t)
  }

  // ----- round trip -----

  lemma {:induction false} ReadShowNat(n: nat)
    ensures ReadNat(ShowNat(n)) == n
  {
    if n < 10 {
      assert ReadNat([]) == 0;
      assert ShowNat(n)[..0] == [];
    } else {
      ReadShowNat(n / 10);
      assert ShowNat(n)[..|ShowNat(n)| - 1] == ShowNat(n / 10);
    }
  }

  lemma {:induction false} DigitRunOf(digits: Text, rest: Text)
    requires AllDigits(digits) && (rest == [] || !Digit(rest[0]))
    ensures DigitRun(digits + rest) == digits
    decreases |digits|
  {
    if digits == [] {
      assert digits + rest == rest;
    } else {
      assert (digits + rest)[1..] == digits[1..] + rest;
      DigitRunOf(digits[1..], rest);
    }
  }

  lemma {:induction false} LeadingZeros(n: nat, digits: Text)
    requires digits != [] && digits[0] != ZERO
    ensures WithoutLeading(Zeros(n) + digits) == digits
  {
    if n == 0 {
      assert Zeros(0) + digits == digits;
    } else {
      assert (Zeros(n) + digits)[1..] == Zeros(n - 1) + digits;
      LeadingZeros(n - 1, digits);
    }
  }

  lemma {:induction false} TrailingZeros(digits: Text, n: nat)
    requires digits != [] && digits[|digits| - 1] != ZERO
    ensures WithoutTrailing(digits + Zeros(n)) == digits
  {
    if n == 0 {
      assert digits + Zeros(0) == digits;
    } else {
      assert (digits + Zeros(n))[..|digits| + n - 1] == digits + Zeros(n - 1);
      TrailingZeros(digits, n - 1);
    }
  }

  lemma FromPaddedDigits(negative: bool, before: nat, digits: Text, after: nat, point: int)
    requires Decimal(negative, digits, point - before).Valid()
    ensures FromDigits(negative, Zeros(before) + digits + Zeros(after), point) == Decimal(negative, digits, point - before)
  {
    assert Zeros(before) + digits + Zeros(after) == Zeros(before) + (digits + Zeros(after));
    LeadingZeros(before, digits + Zeros(after));
    TrailingZeros(digits, after);
  }

  lemma ReadParts(negative: bool, whole: Text, more: Text, fraction: Text, exponent: Text, e: int)
    requires whole != [] && AllDigits(whole) && (|whole| > 1 ==> whole[0] != ZERO)
    requires more == [] || !Digit(more[0])
    requires ReadFraction(more) == Some((fraction, exponent)) && ReadExponent(exponent) == Some(e)
    ensures ReadUnsigned(negative, whole + more) == Some(FromDigits(negative, whole + fraction, |whole| + e))
  {
    hide FromDigits, ReadExponent, ReadFraction;
    DigitRunOf(whole, more);
    assert (whole + more)[|whole|..] == more;
  }

  lemma FractionShown(fraction: Text, exponent: Text)
    requires fraction != [] && AllDigits(fraction) && (exponent == [] || exponent[0] == EXPONENT)
    ensures ReadFraction([POINT] + fraction + exponent) == Some((fraction, exponent))
  {
    var t := [POINT] + fraction + exponent;
    assert t[1..] == fraction + exponent;
    DigitRunOf(fraction, exponent);
    assert t[1 + |fraction|..] == exponent;
  }

  lemma ReadShownExponent(e: int)
    ensures ReadExponent(Exponential(e)) == Some(e)
  {
    var digits := ShowNat(if e < 0 then -e else e);
    var t := [EXPONENT, if e < 0 then MINUS else PLUS] + digits;
    assert t[2..] == digits;
    DigitRunOf(digits, []);
    assert digits + [] == digits;
    ReadShowNat(if e < 0 then -e else e);
  }

  lemma NoExponent()
    ensures ReadExponent([]) == Some(0) && ReadFraction([]) == Some(([], []))
  {
  }

  lemma ReadPadded(negative: bool, digits: Text, n: int)
    requires Decimal(negative, digits, n).Valid() && |digits| <= n
    ensures ReadUnsigned(negative, digits + Zeros(n - |digits|)) == Some(Decimal(negative, digits, n))
  {
    hide ReadUnsigned, ReadExponent, ReadFraction, FromDigits;
    var whole := digits + Zeros(n - |digits|);
    NoExponent();
    ReadParts(negative, whole, [], [], [], 0);
    assert whole + [] == whole;
    FromPaddedDigits(negative, 0, digits, n - |digits|, n);
    assert Zeros(0) + digits == digits;
  }

  lemma ReadPointed(negative: bool, digits: Text, n: int)
    requires Decimal(negative, digits, n).Valid() && 0 < n < |digits|
    ensures ReadUnsigned(negative, digits[..n] + [POINT] + digits[n..]) == Some(Decimal(negative, digits, n))
  {
    hide ReadUnsigned, ReadExponent, ReadFraction, FromDigits;
    NoExponent();
    FractionShown(digits[n..], []);
    var more := [POINT] + digits[n..] + [];
    ReadParts(negative, digits[..n], more, digits[n..], [], 0);
    assert digits[..n] + more == digits[..n] + [POINT] + digits[n..];
    FromPaddedDigits(negative, 0, digits, 0, n);
    assert digits[..n] + digits[n..] == Zeros(0) + digits + Zeros(0);
  }

  lemma ReadSmall(negative: bool, digits: Text, n: int)
    requires Decimal(negative, digits, n).Valid() && n <= 0
    ensures ReadUnsigned(negative, [ZERO, POINT] + Zeros(-n) + digits) == Some(Decimal(negative, digits, n))
  {
    hide ReadUnsigned, ReadExponent, ReadFraction, FromDigits;
    NoExponent();
    var fraction := Zeros(-n) + digits;
    FractionShown(fraction, []);
    var more := [POINT] + fraction + [];
    ReadParts(negative, [ZERO], more, fraction, [], 0);
    assert [ZERO] + more == [ZERO, POINT] + Zeros(-n) + digits;
    FromPaddedDigits(negative, 1 - n, digits, 0, 1);
    assert [ZERO] + fraction == Zeros(1 - n) + digits + Zeros(0);
  }

  lemma ExponentialShape(e: int)
    ensures ReadFraction(Exponential(e)) == Some(([], Exponential(e)))
    ensures Exponential(e) != [] && Exponential(e)[0] == EXPONENT
  {
  }

  lemma ReadScaled(negative: bool, digits: Text, n: int)
    requires Decimal(negative, digits, n).Valid()
    ensures ReadUnsigned(negative, digits[..1] + (if |digits| == 1 then [] else [POINT] + digits[1..]) + Exponential(n - 1))
            == Some(Decimal(negative, digits, n))
  {
    hide ReadUnsigned, ReadExponent, ReadFraction, FromDigits, Exponential;
    ReadShownExponent(n - 1);
    ExponentialShape(n - 1);
    var exponent := Exponential(n - 1);
    FromPaddedDigits(negative, 0, digits, 0, n);
    assert digits == Zeros(0) + digits + Zeros(0);
    if |digits| == 1 {
      ReadParts(negative, digits, exponent, [], exponent, n - 1);
      assert digits + [] == digits && digits[..1] + [] + exponent == digits + exponent;
    } else {
      FractionShown(digits[1..], exponent);
      var more := [POINT] + digits[1..] + exponent;
      ReadParts(negative, digits[..1], more, digits[1..], exponent, n - 1);
      assert digits[..1] + ([POINT] + digits[1..]) + exponent == digits[..1] + more;
      assert digits[..1] + digits[1..] == digits;
    }
  }

  lemma ReadUnsignedShown(negative: bool, digits: Text, n: int)
    requires Decimal(negative, digits, n).Valid()
    ensures ReadUnsigned(negative, Unsigned(digits, n)) == Some(Decimal(negative, digits, n))
  {
    hide ReadUnsigned, Exponential;
    if |digits| <= n <= 21 {
      ReadPadded(negative, digits, n);
    } else if 0 < n <= 21 {
      ReadPointed(negative, digits, n);
    } else if -6 < n <= 0 {
      ReadSmall(negative, digits, n);
    } else {
      ReadScaled(negative, digits, n);
    }
  }

  lemma UnsignedShape(digits: Text, n: int)
    requires digits != [] && AllDigits(digits)
    ensures Unsigned(digits, n) != [] && Digit(Unsigned(digits, n)[0])
    ensures forall i :: 0 <= i < |Unsigned(digits, n)| ==> NumeralUnit(Unsigned(digits, n)[i])
  {
  }

  /** Every finite number reads back from its text; a negative zero reads back as zero. */
  lemma ReadShown(x: Number)
    requires x.Finite() && x.Valid()
    ensures ReadNumeral(Show(x)) == Some(if x.Zero? then Zero(false) else x)
  {
    match x
    case Zero(_) =>
      NoExponent();
      hide ReadExponent, ReadFraction;
      ReadParts(false, [ZERO], [], [], [], 0);
      assert [ZERO] + [] == [ZERO];
      assert WithoutLeading([ZERO]) == [];
    case Decimal(negative, digits, n) =>
      UnsignedShape(digits, n);
      ReadUnsignedShown(negative, digits, n);
      hide Unsigned, ReadUnsigned;
      assert [] + Unsigned(digits, n) == Unsigned(digits, n);
  }
}
