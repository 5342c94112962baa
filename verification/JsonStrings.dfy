/** String literals as JSON.stringify writes them, lone surrogates escaped, and as a JSON reader takes
    them back (RFC 8259 section 7). */
module JsonStrings {
  import opened Common
  import opened TextUnits

  const QUOTE: Unit := 34
  const BACKSLASH: Unit := 92

  function HexDigit(n: int): Unit
    requires 0 <= n < 16
  {
    if n < 10 then (48 + n) as Unit else (87 + n) as Unit
  }

  function HexValue(u: Unit): (n: Option<int>)
    ensures n.Some? ==> 0 <= n.value < 16
  {
    if 48 <= u <= 57 then Some(u as int - 48)
    else if 97 <= u <= 102 then Some(u as int - 87)
    else if 65 <= u <= 70 then Some(u as int - 55)
    else None
  }

  function UnicodeEscape(u: Unit): Text {
    var n := u as int;
    [BACKSLASH, 117, HexDigit(n / 4096), HexDigit(n / 256 % 16), HexDigit(n / 16 % 16), HexDigit(n % 16)]
  }

  function EscapeUnit(u: Unit): Text {
    if u == 8 then [BACKSLASH, 98]
    else if u == 9 then [BACKSLASH, 116]
    else if u == 10 then [BACKSLASH, 110]
    else if u == 12 then [BACKSLASH, 102]
    else if u == 13 then [BACKSLASH, 114]
    else if u == QUOTE || u == BACKSLASH then [BACKSLASH, u]
    else if u < 0x20 || Surrogate(u) then UnicodeEscape(u)
    else [u]
  }

  function Escaped(t: Text): Text {
    if t == [] then []
    else if StartsPair(t) then t[..2] + Escaped(t[2..])
    else EscapeUnit(t[0]) + Escaped(t[1..])
  }

  function Quoted(t: Text): Text { [QUOTE] + Escaped(t) + [QUOTE] }

  // ----- reading -----

  /** The unit an escape denotes, and the length of the escape after its backslash. */
  function ReadEscape(t: Text): Option<(Unit, nat)> {
    if t == [] then None
    else if t[0] == QUOTE || t[0] == BACKSLASH || t[0] == 47 then Some((t[0], 1))
    else if t[0] == 98 then Some((8, 1))
    else if t[0] == 116 then Some((9, 1))
    else if t[0] == 110 then Some((10, 1))
    else if t[0] == 102 then Some((12, 1))
    else if t[0] == 114 then Some((13, 1))
    else if t[0] != 117 || |t| < 5 then None
    else
      match (HexValue(t[1]), HexValue(t[2]), HexValue(t[3]), HexValue(t[4]))
      case (Some(a), Some(b), Some(c), Some(d)) => Some(((4096 * a + 256 * b + 16 * c + d) as Unit, 5))
      case _ => None
  }

  /** The rest of a string literal after its opening quote: its units and the text after it. */
  function ReadLiteral(t: Text): (r: Option<(Text, Text)>)
    ensures r.Some? ==> |r.value.1| < |t|
    decreases |t|
  {
    if t == [] || t[0] < 0x20 then None
    else if t[0] == QUOTE then Some(([], t[1..]))
    else if t[0] == BACKSLASH then
      match ReadEscape(t[1..])
      case None => None
      case Some((u, n)) =>
        if 1 + n > |t| then None
        else
          match ReadLiteral(t[1 + n..])
          case None => None
          case Some((more, rest)) => Some(([u] + more, rest))
    else
      match ReadLiteral(t[1..])
      case None => None
      case Some((more, rest)) => Some(([t[0]] + more, rest))
  }

  lemma HexOfDigit(n: int)
    requires 0 <= n < 16
    ensures HexValue(HexDigit(n)) == Some(n)
  {
  }

  lemma HexDigitsAddUp(n: int)
    requires 0 <= n < 0x1_0000
    ensures 0 <= n / 4096 < 16
    ensures 4096 * (n / 4096) + 256 * (n / 256 % 16) + 16 * (n / 16 % 16) + n % 16 == n
  {
    var a := n / 16;
    var b := a / 16;
    assert b == n / 256 && b / 16 == n / 4096;
  }

  lemma ReadUnicodeEscape(u: Unit, rest: Text)
    ensures ReadEscape(UnicodeEscape(u)[1..] + rest) == Some((u, 5))
  {
    var n := u as int;
    HexOfDigit(n / 4096);
    HexOfDigit(n / 256 % 16);
    HexOfDigit(n / 16 % 16);
    HexOfDigit(n % 16);
    HexDigitsAddUp(n);
    hide HexValue, HexDigit;
  }

  lemma ReadLiteralUnit(u: Unit, rest: Text)
    ensures var more := ReadLiteral(rest);
            ReadLiteral(EscapeUnit(u) + rest) ==
              if more.Some? then Some(([u] + more.value.0, more.value.1)) else None
  {
    var t := EscapeUnit(u) + rest;
    if EscapeUnit(u) == [u] {
      assert t[1..] == rest;
    } else if |EscapeUnit(u)| == 2 {
      assert t[2..] == rest;
      assert ReadEscape(t[1..]) == Some((u, 1));
    } else {
      ReadUnicodeEscape(u, rest);
      assert t[1..] == UnicodeEscape(u)[1..] + rest;
      assert t[6..] == rest;
      hide ReadEscape;
    }
  }

  /** Every string reads back from its literal. */
  lemma {:induction false} ReadEscaped(t: Text, rest: Text)
    ensures ReadLiteral(Escaped(t) + ([QUOTE] + rest)) == Some((t, rest))
    decreases |t|
  {
    hide EscapeUnit, ReadEscape, ReadLiteral;
    var tail := [QUOTE] + rest;
    if t == [] {
      assert Escaped(t) + tail == tail;
      LiteralEnds(rest);
    } else if StartsPair(t) {
      ReadEscaped(t[2..], rest);
      ReadPair(t[0], t[1], Escaped(t[2..]) + tail);
      assert Escaped(t) + tail == [t[0], t[1]] + (Escaped(t[2..]) + tail);
      assert t == [t[0], t[1]] + t[2..];
    } else {
      ReadEscaped(t[1..], rest);
      assert Escaped(t) + tail == EscapeUnit(t[0]) + (Escaped(t[1..]) + tail);
      ReadLiteralUnit(t[0], Escaped(t[1..]) + tail);
      assert t == [t[0]] + t[1..];
    }
  }

  lemma LiteralEnds(rest: Text)
    ensures ReadLiteral([QUOTE] + rest) == Some(([], rest))
  {
    assert ([QUOTE] + rest)[1..] == rest;
  }

  lemma ReadPair(high: Unit, low: Unit, rest: Text)
    requires HighSurrogate(high) && LowSurrogate(low)
    ensures var more := ReadLiteral(rest);
            ReadLiteral([high, low] + rest) == if more.Some? then Some(([high, low] + more.value.0, more.value.1)) else None
  {
    hide ReadLiteral;
    var t := [high, low] + rest;
    assert t[1..] == [low] + rest && t[1..][1..] == rest;
    RawUnit(t[1..]);
    RawUnit(t);
    assert forall more: Text :: [high] + ([low] + more) == [high, low] + more;
  }

  lemma RawUnit(t: Text)
    requires t != [] && t[0] >= 0x20 && t[0] != QUOTE && t[0] != BACKSLASH
    ensures var more := ReadLiteral(t[1..]);
            ReadLiteral(t) == if more.Some? then Some(([t[0]] + more.value.0, more.value.1)) else None
  {
  }
}
