/** JSON values and their text: what JSON.stringify writes and what a reader of RFC 8259 takes back. */
module JsonText {
  import opened Common
  import opened TextUnits
  import opened JsonNumbers
  import opened JsonStrings

  datatype Json =
    | JNull
    | JBool(truth: bool)
    | JNumber(number: Number)
    | JString(text: Text)
    | JArray(items: seq<Json>)
    | JObject(members: seq<Member>)

  datatype Member = Member(key: Text, value: Json)

  const COMMA: Unit := 44
  const OPEN_LIST: Unit := 91
  const CLOSE_LIST: Unit := 93
  const OPEN_OBJECT: Unit := 123
  const CLOSE_OBJECT: Unit := 125
  const NULL_WORD: Text := [110, 117, 108, 108]
  const TRUE_WORD: Text := [116, 114, 117, 101]
  const FALSE_WORD: Text := [102, 97, 108, 115, 101]

  /** Values that JSON text can carry: finite numbers other than negative zero, and no key twice. */
  predicate Plain(j: Json) {
    match j
    case JNumber(x) => x.Finite() && x.Valid() && x != Zero(true)
    case JArray(items) => forall i :: 0 <= i < |items| ==> Plain(items[i])
    case JObject(members) =>
      && (forall i :: 0 <= i < |members| ==> Plain(members[i].value))
      && DistinctKeys(members)
    case _ => true
  }

  predicate DistinctKeys(members: seq<Member>) {
    forall i, j :: 0 <= i < j < |members| ==> members[i].key != members[j].key
  }

  // ----- writing -----

  function Encode(j: Json): Text
    requires Plain(j)
  {
    match j
    case JNull => NULL_WORD
    case JBool(b) => if b then TRUE_WORD else FALSE_WORD
    case JNumber(x) => Show(x)
    case JString(t) => Quoted(t)
    case JArray(items) => [OPEN_LIST] + EncodeItems(items) + [CLOSE_LIST]
    case JObject(members) => [OPEN_OBJECT] + EncodeMembers(members) + [CLOSE_OBJECT]
  }

  function EncodeItems(items: seq<Json>): Text
    requires forall i :: 0 <= i < |items| ==> Plain(items[i])
  {
    if items == [] then []
    else if |items| == 1 then Encode(items[0])
    else Encode(items[0]) + [COMMA] + EncodeItems(items[1..])
  }

  function EncodeMember(m: Member): Text
    requires Plain(m.value)
  {
    Quoted(m.key) + [COLON] + Encode(m.value)
  }

  function EncodeMembers(members: seq<Member>): Text
    requires forall i :: 0 <= i < |members| ==> Plain(members[i].value)
  {
    if members == [] then []
    else if |members| == 1 then EncodeMember(members[0])
    else EncodeMember(members[0]) + [COMMA] + EncodeMembers(members[1..])
  }

  // ----- reading -----

  predicate Blank(u: Unit) { u == 0x20 || u == 9 || u == LF || u == CR }

  function SkipBlanks(t: Text): (rest: Text)
    ensures |rest| <= |t| && (rest == [] || !Blank(rest[0]))
  {
    if t != [] && Blank(t[0]) then SkipBlanks(t[1..]) else t
  }

  function NumeralRun(t: Text): (run: Text)
    ensures run <= t
  {
    if t == [] || !NumeralUnit(t[0]) then [] else [t[0]] + NumeralRun(t[1..])
  }

  /** A key given again replaces the value it had. */
  function Put(members: seq<Member>, m: Member): seq<Member> {
    if members == [] then [m]
    else if members[0].key == m.key then [m] + members[1..]
    else [members[0]] + Put(members[1..], m)
  }

  function ReadScalar(t: Text): (r: Option<(Json, Text)>)
    ensures r.Some? ==> |r.value.1| < |t|
  {
    if NULL_WORD <= t then Some((JNull, t[4..]))
    else if TRUE_WORD <= t then Some((JBool(true), t[4..]))
    else if FALSE_WORD <= t then Some((JBool(false), t[5..]))
    else
      var run := NumeralRun(t);
      match ReadNumeral(run)
      case None => None
      case Some(x) => if run == [] then None else Some((JNumber(x), t[|run|..]))
  }

  function ReadValue(text: Text): (r: Option<(Json, Text)>)
    ensures r.Some? ==> |r.value.1| < |text|
    decreases |text|, 0
  {
    var t := SkipBlanks(text);
    if t == [] then None
    else if t[0] == QUOTE then
      match ReadLiteral(t[1..])
      case None => None
      case Some((s, rest)) => Some((JString(s), rest))
    else if t[0] == OPEN_LIST then
      var inner := SkipBlanks(t[1..]);
      if inner != [] && inner[0] == CLOSE_LIST then Some((JArray([]), inner[1..]))
      else
        match ReadItems(t[1..])
        case None => None
        case Some((items, rest)) => Some((JArray(items), rest))
    else if t[0] == OPEN_OBJECT then
      var inner := SkipBlanks(t[1..]);
      if inner != [] && inner[0] == CLOSE_OBJECT then Some((JObject([]), inner[1..]))
      else
        match ReadMembers(t[1..], [])
        case None => None
        case Some((members, rest)) => Some((JObject(members), rest))
    else ReadScalar(t)
  }

  /** The items of a list after its opening bracket, to its closing one. */
  function ReadItems(t: Text): (r: Option<(seq<Json>, Text)>)
    ensures r.Some? ==> |r.value.1| < |t|
    decreases |t|, 1
  {
    match ReadValue(t)
    case None => None
    case Some((first, after)) =>
      var next := SkipBlanks(after);
      if next != [] && next[0] == CLOSE_LIST then Some(([first], next[1..]))
      else if next != [] && next[0] == COMMA then
        match ReadItems(next[1..])
        case None => None
        case Some((more, rest)) => Some(([first] + more, rest))
      else None
  }

  /** The members of an object after those already read, to its closing brace. */
  function ReadMembers(text: Text, before: seq<Member>): (r: Option<(seq<Member>, Text)>)
    ensures r.Some? ==> |r.value.1| < |text|
    decreases |text|, 1
  {
    var t := SkipBlanks(text);
    if t == [] || t[0] != QUOTE then None
    else
      match ReadLiteral(t[1..])
      case None => None
      case Some((key, afterKey)) =>
        var colon := SkipBlanks(afterKey);
        if colon == [] || colon[0] != COLON then None
        else
          match ReadValue(colon[1..])
          case None => None
          case Some((value, after)) =>
            var members := Put(before, Member(key, value));
            var next := SkipBlanks(after);
            if next != [] && next[0] == CLOSE_OBJECT then Some((members, next[1..]))
            else if next != [] && next[0] == COMMA then ReadMembers(next[1..], members)
            else None
  }

  /** The value of a complete JSON text. */
  function Parse(t: Text): Option<Json> {
    match ReadValue(t)
    case None => None
    case Some((j, rest)) => if SkipBlanks(rest) == [] then Some(j) else None
  }

  // ----- round trip -----

  /** The text after a value: nothing that could continue a numeral. */
  predicate Ends(rest: Text) { rest == [] || rest[0] in {COMMA, CLOSE_LIST, CLOSE_OBJECT} }

  lemma {:induction false} NumeralRunOf(numeral: Text, rest: Text)
    requires (forall i :: 0 <= i < |numeral| ==> NumeralUnit(numeral[i])) && Ends(rest)
    ensures NumeralRun(numeral + rest) == numeral
    decreases |numeral|
  {
    if numeral == [] {
      assert numeral + rest == rest;
    } else {
      assert (numeral + rest)[1..] == numeral[1..] + rest;
      NumeralRunOf(numeral[1..], rest);
    }
  }

  lemma NoBlanks(t: Text)
    requires t != [] && !Blank(t[0])
    ensures SkipBlanks(t) == t
  {
  }

  /** What the first unit of a text decides. */
  lemma ScalarFirst(t: Text)
    requires t != [] && !Blank(t[0]) && t[0] !in {QUOTE, OPEN_LIST, OPEN_OBJECT}
    ensures ReadValue(t) == ReadScalar(t)
  {
    hide ReadScalar, ReadLiteral, ReadItems, ReadMembers;
  }

  lemma ListFirst(t: Text)
    requires t != [] && t[0] == OPEN_LIST
    ensures ReadValue(t) ==
              var inner := SkipBlanks(t[1..]);
              if inner != [] && inner[0] == CLOSE_LIST then Some((JArray([]), inner[1..]))
              else
                match ReadItems(t[1..])
                case None => None
                case Some((items, rest)) => Some((JArray(items), rest))
  {
    hide ReadScalar, ReadLiteral, ReadItems, ReadMembers;
  }

  lemma ObjectFirst(t: Text)
    requires t != [] && t[0] == OPEN_OBJECT
    ensures ReadValue(t) ==
              var inner := SkipBlanks(t[1..]);
              if inner != [] && inner[0] == CLOSE_OBJECT then Some((JObject([]), inner[1..]))
              else
                match ReadMembers(t[1..], [])
                case None => None
                case Some((members, rest)) => Some((JObject(members), rest))
  {
    hide ReadScalar, ReadLiteral, ReadItems, ReadMembers;
  }

  lemma ScalarNumeral(t: Text, numeral: Text, x: Number)
    requires t != [] && (Digit(t[0]) || t[0] == MINUS)
    requires numeral != [] && NumeralRun(t) == numeral && ReadNumeral(numeral) == Some(x)
    ensures ReadScalar(t) == Some((JNumber(x), t[|numeral|..]))
  {
    hide ReadNumeral, NumeralRun;
  }

  lemma ReadNumeralText(numeral: Text, x: Number, rest: Text)
    requires numeral != [] && (Digit(numeral[0]) || numeral[0] == MINUS) && Ends(rest)
    requires forall i :: 0 <= i < |numeral| ==> NumeralUnit(numeral[i])
    requires ReadNumeral(numeral) == Some(x)
    ensures ReadValue(numeral + rest) == Some((JNumber(x), rest))
  {
    hide ReadNumeral, ReadValue, ReadScalar, NumeralRun;
    var t := numeral + rest;
    NumeralRunOf(numeral, rest);
    assert t[0] == numeral[0];
    ScalarFirst(t);
    ScalarNumeral(t, numeral, x);
    assert t[|numeral|..] == rest;
  }

  lemma ReadNumber(x: Number, rest: Text)
    requires Plain(JNumber(x)) && Ends(rest)
    ensures ReadValue(Show(x) + rest) == Some((JNumber(x), rest))
  {
    ShowShape(x);
    ReadShown(x);
    hide Show, ReadNumeral, ReadValue, NumeralUnit, Ends, Digit;
    ReadNumeralText(Show(x), x, rest);
  }

  lemma ShowShape(x: Number)
    requires x.Finite() && x.Valid()
    ensures Show(x) != [] && (Digit(Show(x)[0]) || Show(x)[0] == MINUS)
    ensures forall i :: 0 <= i < |Show(x)| ==> NumeralUnit(Show(x)[i])
  {
    if x.Decimal? {
      UnsignedShape(x.digits, x.point);
      hide Unsigned;
    }
  }

  lemma ReadWord(j: Json, rest: Text)
    requires j.JNull? || j.JBool?
    ensures ReadValue(Encode(j) + rest) == Some((j, rest))
  {
    var t := Encode(j) + rest;
    assert t[0] == Encode(j)[0] && t[1] == Encode(j)[1];
    hide ReadValue;
    ScalarFirst(t);
    assert t[|Encode(j)|..] == rest;
  }

  lemma ReadQuoted(s: Text, rest: Text)
    ensures Quoted(s) + rest == [QUOTE] + (Escaped(s) + ([QUOTE] + rest))
    ensures ReadLiteral((Quoted(s) + rest)[1..]) == Some((s, rest))
    ensures SkipBlanks(Quoted(s) + rest) == Quoted(s) + rest
  {
    hide ReadLiteral;
    ReadEscaped(s, rest);
    assert (Quoted(s) + rest)[1..] == Escaped(s) + ([QUOTE] + rest);
  }

  lemma ReadStringValue(s: Text, rest: Text)
    ensures ReadValue(Quoted(s) + rest) == Some((JString(s), rest))
  {
    ReadQuoted(s, rest);
    hide ReadLiteral, Escaped;
  }

  /** The first unit of an encoding is neither blank nor a closing bracket. */
  lemma EncodeStarts(j: Json)
    requires Plain(j)
    ensures Encode(j) != [] && !Blank(Encode(j)[0]) && Encode(j)[0] != CLOSE_LIST && Encode(j)[0] != CLOSE_OBJECT
  {
    if j.JNumber? {
      ShowShape(j.number);
      hide Show;
    }
  }

  lemma {:induction false} ReadEncoded(j: Json, rest: Text)
    requires Plain(j) && Ends(rest)
    ensures ReadValue(Encode(j) + rest) == Some((j, rest))
    decreases j, 1
  {
    hide ReadValue, Encode, ReadItems, ReadMembers;
    match j
    case JNull => ReadWord(j, rest);
    case JBool(_) => ReadWord(j, rest);
    case JNumber(x) => ReadNumber(x, rest); EncodeNumber(x);
    case JString(s) => ReadStringValue(s, rest); EncodeString(s);
    case JArray(items) =>
      if items != [] { ReadEncodedItems(items, rest); }
      ReadEncodedArray(items, rest);
    case JObject(members) =>
      assert [] + members == members;
      if members != [] { ReadEncodedMembers([], members, rest); }
      ReadEncodedObject(members, rest);
  }

  lemma EncodeNumber(x: Number)
    requires Plain(JNumber(x))
    ensures Encode(JNumber(x)) == Show(x)
  {
  }

  lemma EncodeString(s: Text)
    ensures Encode(JString(s)) == Quoted(s)
  {
  }

  lemma ReadEncodedArray(items: seq<Json>, rest: Text)
    requires Plain(JArray(items))
    requires items != [] ==> ReadItems(EncodeItems(items) + ([CLOSE_LIST] + rest)) == Some((items, rest))
    ensures ReadValue(Encode(JArray(items)) + rest) == Some((JArray(items), rest))
  {
    hide EncodeItems, EncodeMembers, ReadItems, ReadMembers, Encode, ReadValue;
    var tail := [CLOSE_LIST] + rest;
    var t := Encode(JArray(items)) + rest;
    EncodeArray(items);
    assert t == [OPEN_LIST] + (EncodeItems(items) + tail);
    assert t[1..] == EncodeItems(items) + tail;
    if items == [] {
      assert t[1..] == tail && tail[1..] == rest;
    } else {
      ItemsStart(items);
    }
    ListFirst(t);
    NoBlanks(t[1..]);
  }

  lemma EncodeArray(items: seq<Json>)
    requires Plain(JArray(items))
    ensures Encode(JArray(items)) == [OPEN_LIST] + EncodeItems(items) + [CLOSE_LIST]
    ensures items == [] ==> EncodeItems(items) == []
  {
  }

  lemma ItemsStart(items: seq<Json>)
    requires items != [] && forall i :: 0 <= i < |items| ==> Plain(items[i])
    ensures EncodeItems(items) != []
    ensures !Blank(EncodeItems(items)[0]) && EncodeItems(items)[0] != CLOSE_LIST
  {
    EncodeStarts(items[0]);
    hide Encode;
  }

  lemma {:induction false} ReadEncodedItems(items: seq<Json>, rest: Text)
    requires items != [] && forall i :: 0 <= i < |items| ==> Plain(items[i])
    ensures ReadItems(EncodeItems(items) + ([CLOSE_LIST] + rest)) == Some((items, rest))
    decreases items, 0
  {
    hide ReadValue, Encode;
    if |items| == 1 {
      ReadEncoded(items[0], [CLOSE_LIST] + rest);
      assert ([CLOSE_LIST] + rest)[1..] == rest;
      assert items == [items[0]];
    } else {
      var more := EncodeItems(items[1..]) + ([CLOSE_LIST] + rest);
      ReadEncoded(items[0], [COMMA] + more);
      ReadEncodedItems(items[1..], rest);
      assert EncodeItems(items) + ([CLOSE_LIST] + rest) == Encode(items[0]) + ([COMMA] + more);
      assert ([COMMA] + more)[1..] == more;
      assert items == [items[0]] + items[1..];
    }
  }

  lemma ReadEncodedObject(members: seq<Member>, rest: Text)
    requires Plain(JObject(members))
    requires members != [] ==> ReadMembers(EncodeMembers(members) + ([CLOSE_OBJECT] + rest), []) == Some((members, rest))
    ensures ReadValue(Encode(JObject(members)) + rest) == Some((JObject(members), rest))
  {
    hide EncodeItems, EncodeMembers, ReadItems, ReadMembers, Encode, ReadValue;
    var tail := [CLOSE_OBJECT] + rest;
    var t := Encode(JObject(members)) + rest;
    EncodeObject(members);
    assert t == [OPEN_OBJECT] + (EncodeMembers(members) + tail);
    assert t[1..] == EncodeMembers(members) + tail;
    if members == [] {
      assert t[1..] == tail && tail[1..] == rest;
    } else {
      MembersStart(members);
    }
    ObjectFirst(t);
    NoBlanks(t[1..]);
  }

  lemma EncodeObject(members: seq<Member>)
    requires Plain(JObject(members))
    ensures Encode(JObject(members)) == [OPEN_OBJECT] + EncodeMembers(members) + [CLOSE_OBJECT]
    ensures members == [] ==> EncodeMembers(members) == []
  {
  }

  lemma MembersStart(members: seq<Member>)
    requires members != [] && forall i :: 0 <= i < |members| ==> Plain(members[i].value)
    ensures EncodeMembers(members) != [] && EncodeMembers(members)[0] == QUOTE
  {
    hide Encode;
  }

  lemma {:induction false} PutNew(members: seq<Member>, m: Member)
    requires forall i :: 0 <= i < |members| ==> members[i].key != m.key
    ensures Put(members, m) == members + [m]
  {
    if members != [] {
      PutNew(members[1..], m);
    }
  }

  lemma MemberFirst(t: Text, before: seq<Member>, m: Member, after: Text, rest: Text)
    requires SkipBlanks(t) == t && t != [] && t[0] == QUOTE && ReadLiteral(t[1..]) == Some((m.key, after))
    requires SkipBlanks(after) == after && after != [] && after[0] == COLON
    requires ReadValue(after[1..]) == Some((m.value, rest)) && SkipBlanks(rest) == rest
    ensures ReadMembers(t, before) ==
              if rest != [] && rest[0] == CLOSE_OBJECT then Some((Put(before, m), rest[1..]))
              else if rest != [] && rest[0] == COMMA then ReadMembers(rest[1..], Put(before, m))
              else None
  {
    hide ReadValue, ReadLiteral, Put, SkipBlanks;
  }

  /** Reading one encoded member and what follows it. */
  lemma ReadMember(before: seq<Member>, m: Member, rest: Text)
    requires Plain(m.value) && Ends(rest)
    requires ReadValue(Encode(m.value) + rest) == Some((m.value, rest))
    requires forall i :: 0 <= i < |before| ==> before[i].key != m.key
    ensures ReadMembers(EncodeMember(m) + rest, before) ==
              if rest != [] && rest[0] == CLOSE_OBJECT then Some((before + [m], rest[1..]))
              else if rest != [] && rest[0] == COMMA then ReadMembers(rest[1..], before + [m])
              else None
  {
    hide Encode, ReadValue, ReadLiteral, Quoted, Put, Plain, SkipBlanks, ReadMembers;
    var after := [COLON] + (Encode(m.value) + rest);
    var t := EncodeMember(m) + rest;
    assert t == Quoted(m.key) + after;
    ReadQuoted(m.key, after);
    PutNew(before, m);
    NoBlanks(after);
    assert after[1..] == Encode(m.value) + rest;
    RestSkips(rest);
    QuotedStarts(m.key, after);
    MemberFirst(t, before, m, after, rest);
  }

  lemma RestSkips(rest: Text)
    requires Ends(rest)
    ensures SkipBlanks(rest) == rest
  {
  }

  lemma QuotedStarts(key: Text, after: Text)
    ensures Quoted(key) + after != [] && (Quoted(key) + after)[0] == QUOTE
  {
  }

  lemma NextKeyIsNew(before: seq<Member>, members: seq<Member>)
    requires members != [] && DistinctKeys(before + members)
    ensures forall i :: 0 <= i < |before| ==> before[i].key != members[0].key
    ensures before + members == (before + [members[0]]) + members[1..]
  {
    assert (before + members)[|before|] == members[0];
    assert forall i :: 0 <= i < |before| ==> (before + members)[i] == before[i];
  }

  lemma MembersText(members: seq<Member>, tail: Text)
    requires members != [] && forall i :: 0 <= i < |members| ==> Plain(members[i].value)
    ensures EncodeMembers(members) + tail ==
              EncodeMember(members[0]) + (if |members| == 1 then tail else [COMMA] + (EncodeMembers(members[1..]) + tail))
  {
    hide Encode, Plain, EncodeMember;
    if |members| > 1 {
      var (first, others) := (EncodeMember(members[0]), EncodeMembers(members[1..]));
      assert EncodeMembers(members) == first + [COMMA] + others;
      hide EncodeMembers;
      Reassociated(first, others, tail);
    }
  }

  lemma Reassociated(first: Text, others: Text, tail: Text)
    ensures first + [COMMA] + others + tail == first + ([COMMA] + (others + tail))
  {
  }

  lemma {:induction false} ReadEncodedMembers(before: seq<Member>, members: seq<Member>, rest: Text)
    requires members != [] && (forall i :: 0 <= i < |members| ==> Plain(members[i].value))
    requires DistinctKeys(before + members)
    ensures ReadMembers(EncodeMembers(members) + ([CLOSE_OBJECT] + rest), before) == Some((before + members, rest))
    decreases members, 0
  {
    hide ReadValue, Encode, ReadMembers, EncodeMembers, EncodeMember, DistinctKeys;
    var m := members[0];
    var tail := [CLOSE_OBJECT] + rest;
    NextKeyIsNew(before, members);
    MembersText(members, tail);
    if |members| == 1 {
      ReadEncoded(m.value, tail);
      ReadMember(before, m, tail);
      assert tail[1..] == rest;
      assert members == [m];
    } else {
      var more := EncodeMembers(members[1..]) + tail;
      ReadEncoded(m.value, [COMMA] + more);
      ReadMember(before, m, [COMMA] + more);
      ReadEncodedMembers(before + [m], members[1..], rest);
      assert ([COMMA] + more)[1..] == more;
    }
  }

  /** Parsing what was written gives back the value. */
  lemma ParseEncoded(j: Json)
    requires Plain(j)
    ensures Parse(Encode(j)) == Some(j)
  {
    hide ReadValue, Encode;
    ReadEncoded(j, []);
    assert Encode(j) + [] == Encode(j);
  }
}
