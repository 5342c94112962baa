/** Canonical texts are well-formed UTF-16 whatever strings they carry, so hashing their UTF-8 bytes hashes
    the texts themselves (src/canonical.ts). */
module CanonicalDigest {
  import opened Common
  import opened TextUnits
  import opened JsonNumbers
  import opened JsonStrings
  import opened JsonText

  type TextHash = Text -> Digest

  /** Two well-formed texts with one digest are one text. On lone surrogates, which UTF-8 replaces, nothing
      is asked. */
  ghost predicate TextCollisionFree(sha256: TextHash) {
    forall a, b :: WellFormed(a) && WellFormed(b) && sha256(a) == sha256(b) ==> a == b
  }

  lemma EscapedUnitIsWellFormed(u: Unit)
    ensures WellFormed(EscapeUnit(u))
  {
    PlainUnitsAreWellFormed(EscapeUnit(u));
  }

  lemma {:induction false} EscapedIsWellFormed(t: Text)
    ensures WellFormed(Escaped(t))
    decreases |t|
  {
    hide EscapeUnit;
    if t == [] {
    } else if StartsPair(t) {
      EscapedIsWellFormed(t[2..]);
      var pair := t[..2];
      assert StartsPair(pair) && pair[2..] == [];
      WellFormedJoins(pair, Escaped(t[2..]));
    } else {
      EscapedIsWellFormed(t[1..]);
      EscapedUnitIsWellFormed(t[0]);
      WellFormedJoins(EscapeUnit(t[0]), Escaped(t[1..]));
    }
  }

  /** One more unit that is no surrogate. */
  lemma OneUnit(u: Unit)
    requires !Surrogate(u)
    ensures WellFormed([u])
  {
    PlainUnitsAreWellFormed([u]);
  }

  lemma Enclosed(open: Unit, t: Text, close: Unit)
    requires !Surrogate(open) && !Surrogate(close) && WellFormed(t)
    ensures WellFormed([open] + t + [close])
  {
    hide WellFormed, Surrogate;
    OneUnit(open);
    OneUnit(close);
    WellFormedJoins([open], t);
    WellFormedJoins([open] + t, [close]);
  }

  lemma Separated(a: Text, u: Unit, b: Text)
    requires !Surrogate(u) && WellFormed(a) && WellFormed(b)
    ensures WellFormed(a + [u] + b)
  {
    hide WellFormed, Surrogate;
    OneUnit(u);
    WellFormedJoins(a, [u]);
    WellFormedJoins(a + [u], b);
  }

  lemma QuotedIsWellFormed(t: Text)
    ensures WellFormed(Quoted(t))
  {
    hide Escaped, WellFormed;
    EscapedIsWellFormed(t);
    Enclosed(QUOTE, Escaped(t), QUOTE);
  }

  lemma ShownIsWellFormed(x: Number)
    requires x.Finite() && x.Valid()
    ensures WellFormed(Show(x))
  {
    hide Show, WellFormed;
    ShowShape(x);
    PlainUnitsAreWellFormed(Show(x));
  }

  lemma WordsAreWellFormed()
    ensures WellFormed(NULL_WORD) && WellFormed(TRUE_WORD) && WellFormed(FALSE_WORD)
  {
    PlainUnitsAreWellFormed(NULL_WORD);
    PlainUnitsAreWellFormed(TRUE_WORD);
    PlainUnitsAreWellFormed(FALSE_WORD);
  }

  /** No text of a value holds a lone surrogate. */
  lemma {:induction false} EncodingIsWellFormed(j: Json)
    requires Plain(j)
    ensures WellFormed(Encode(j))
    decreases j, 1
  {
    hide WellFormed, Quoted, Show;
    match j
    case JNull => WordsAreWellFormed();
    case JBool(_) => WordsAreWellFormed();
    case JNumber(x) => ShownIsWellFormed(x);
    case JString(t) => QuotedIsWellFormed(t);
    case JArray(items) =>
      ItemsAreWellFormed(items);
      hide EncodeItems;
      Enclosed(OPEN_LIST, EncodeItems(items), CLOSE_LIST);
    case JObject(members) =>
      MembersAreWellFormed(members);
      hide EncodeMembers;
      Enclosed(OPEN_OBJECT, EncodeMembers(members), CLOSE_OBJECT);
  }

  lemma {:induction false} ItemsAreWellFormed(items: seq<Json>)
    requires forall i :: 0 <= i < |items| ==> Plain(items[i])
    ensures WellFormed(EncodeItems(items))
    decreases items, 0
  {
    hide Encode;
    if items != [] {
      EncodingIsWellFormed(items[0]);
      if |items| > 1 {
        ItemsAreWellFormed(items[1..]);
        hide WellFormed;
        Separated(Encode(items[0]), COMMA, EncodeItems(items[1..]));
      }
    }
  }

  lemma {:induction false} MembersAreWellFormed(members: seq<Member>)
    requires forall i :: 0 <= i < |members| ==> Plain(members[i].value)
    ensures WellFormed(EncodeMembers(members))
    decreases members, 0
  {
    hide Encode, Quoted;
    if members != [] {
      var m := members[0];
      EncodingIsWellFormed(m.value);
      QuotedIsWellFormed(m.key);
      Separated(Quoted(m.key), COLON, Encode(m.value));
      if |members| > 1 {
        MembersAreWellFormed(members[1..]);
        hide WellFormed, EncodeMember;
        Separated(EncodeMember(m), COMMA, EncodeMembers(members[1..]));
      }
    }
  }

  /** Two values with one digest are one value. */
  lemma DigestOfText(sha256: TextHash, a: Json, b: Json)
    requires TextCollisionFree(sha256) && Plain(a) && Plain(b)
    requires sha256(Encode(a)) == sha256(Encode(b))
    ensures a == b
  {
    hide Encode, Parse, Plain, WellFormed;
    EncodingIsWellFormed(a);
    EncodingIsWellFormed(b);
    ParseEncoded(a);
    ParseEncoded(b);
  }
}
