/** Strings as the sequences of 16-bit code units they are, lone surrogates included. */
module TextUnits {

  newtype Unit = u: int | 0 <= u < 0x1_0000

  type Text = seq<Unit>

  const LF: Unit := 10
  const CR: Unit := 13
  const COLON: Unit := 58

  predicate HighSurrogate(u: Unit) { 0xD800 <= u < 0xDC00 }

  predicate LowSurrogate(u: Unit) { 0xDC00 <= u < 0xE000 }

  predicate Surrogate(u: Unit) { 0xD800 <= u < 0xE000 }

  predicate StartsPair(t: Text) { |t| > 1 && HighSurrogate(t[0]) && LowSurrogate(t[1]) }

  /** Every surrogate is half of a pair, so that UTF-8 keeps the text. */
  predicate WellFormed(t: Text) {
    t == [] || (if StartsPair(t) then WellFormed(t[2..]) else !Surrogate(t[0]) && WellFormed(t[1..]))
  }

  /** Bytes of the UTF-8 encoding; a lone surrogate becomes the three-byte replacement character. */
  function Utf8Length(t: Text): nat {
    if t == [] then 0
    else if StartsPair(t) then 4 + Utf8Length(t[2..])
    else (if t[0] < 0x80 then 1 else if t[0] < 0x800 then 2 else 3) + Utf8Length(t[1..])
  }

  /** What String.prototype.trim removes. */
  predicate White(u: Unit) {
    || 9 <= u <= 13 || u == 0x20 || u == 0xA0 || u == 0x1680 || 0x2000 <= u <= 0x200A
    || u == 0x2028 || u == 0x2029 || u == 0x202F || u == 0x205F || u == 0x3000 || u == 0xFEFF
  }

  function TrimStart(t: Text): Text {
    if t != [] && White(t[0]) then TrimStart(t[1..]) else t
  }

  function TrimEnd(t: Text): Text {
    if t != [] && White(t[|t| - 1]) then TrimEnd(t[..|t| - 1]) else t
  }

  function Trim(t: Text): Text { TrimEnd(TrimStart(t)) }

  function Concat(chunks: seq<Text>): Text {
    if chunks == [] then [] else Concat(chunks[..|chunks| - 1]) + chunks[|chunks| - 1]
  }

  lemma {:induction false} LengthGrows(t: Text, more: Text)
    ensures Utf8Length(t) <= Utf8Length(t + more)
    decreases |t|
  {
    if t == [] {
    } else if StartsPair(t) {
      assert (t + more)[2..] == t[2..] + more;
      LengthGrows(t[2..], more);
    } else if |t| == 1 && more != [] && HighSurrogate(t[0]) && LowSurrogate(more[0]) {
      assert (t + more)[2..] == more[1..];
    } else {
      assert (t + more)[1..] == t[1..] + more;
      LengthGrows(t[1..], more);
    }
  }

  lemma {:induction false} LengthOfAscii(t: Text, u: Unit)
    requires u < 0x80
    ensures Utf8Length(t + [u]) == Utf8Length(t) + 1
    decreases |t|
  {
    if t != [] {
      if StartsPair(t) {
        assert (t + [u])[2..] == t[2..] + [u];
        LengthOfAscii(t[2..], u);
      } else {
        assert (t + [u])[1..] == t[1..] + [u];
        LengthOfAscii(t[1..], u);
      }
    }
  }

  lemma {:induction false} LengthOfAsciiRun(t: Text)
    requires forall i :: 0 <= i < |t| ==> t[i] < 0x80
    ensures Utf8Length(t) == |t|
    decreases |t|
  {
    if t != [] {
      LengthOfAsciiRun(t[1..]);
    }
  }

  lemma {:induction false} WellFormedJoins(a: Text, b: Text)
    requires WellFormed(a) && WellFormed(b)
    ensures WellFormed(a + b)
    decreases |a|
  {
    if a == [] {
      assert a + b == b;
    } else if StartsPair(a) {
      assert (a + b)[2..] == a[2..] + b;
      WellFormedJoins(a[2..], b);
    } else {
      assert (a + b)[1..] == a[1..] + b;
      WellFormedJoins(a[1..], b);
    }
  }

  lemma {:induction false} PlainUnitsAreWellFormed(t: Text)
    requires forall i :: 0 <= i < |t| ==> !Surrogate(t[i])
    ensures WellFormed(t)
    decreases |t|
  {
    if t != [] {
      PlainUnitsAreWellFormed(t[1..]);
    }
  }
}
