/** What the library calls of the event stream reader give, and which blocks are skipped or refused for what
    (src/ag-ui.ts). */
module SseForms {
  import opened Common
  import opened TextUnits
  import opened SseParser
  import opened SseTheorems

  // ----- replaceAll -----

  /** The units of t from i on, without each carriage return that a line feed follows. */
  function WithoutCrLf(t: Text, i: nat): Text
    decreases |t| - i
  {
    if i >= |t| then []
    else if t[i] == 13 && i + 1 < |t| && t[i + 1] == 10 then WithoutCrLf(t, i + 1)
    else [t[i]] + WithoutCrLf(t, i + 1)
  }

  /** The rewrite drops the carriage returns before line feeds and nothing else. */
  lemma {:induction false} NormalizedDropsCr(t: Text, i: nat)
    requires i <= |t|
    ensures Normalized(t[i..]) == WithoutCrLf(t, i)
    decreases |t| - i
  {
    var rest := t[i..];
    if i < |t| {
      NormalizedDropsCr(t, i + 1);
      assert rest[1..] == t[i + 1..];
      if |rest| >= 2 && rest[0] == CR && rest[1] == LF {
        assert rest[1..] == [LF] + rest[2..];
        LineFeedStays(rest[1..]);
        assert rest[1..][1..] == rest[2..];
      } else if |rest| == 1 {
        assert WithoutCrLf(t, i + 1) == [];
      }
    }
  }

  lemma LineFeedStays(t: Text)
    requires t != [] && t[0] == LF
    ensures Normalized(t) == [LF] + Normalized(t[1..])
  {
  }

  // ----- indexOf and split -----

  predicate BlankLineAt(t: Text, i: int) { 0 <= i && i + 1 < |t| && t[i] == 10 && t[i + 1] == 10 }

  /** The first blank line, if there is one. */
  lemma {:induction false} BoundaryIsFirst(t: Text)
    ensures Boundary(t).None? ==> forall i :: !BlankLineAt(t, i)
    ensures Boundary(t).Some? ==>
              BlankLineAt(t, Boundary(t).value) && forall i :: i < Boundary(t).value ==> !BlankLineAt(t, i)
    decreases |t|
  {
    if |t| >= 2 && !(t[0] == LF && t[1] == LF) {
      BoundaryIsFirst(t[1..]);
      forall i | BlankLineAt(t, i)
        ensures i > 0 && BlankLineAt(t[1..], i - 1)
      {
      }
    }
  }

  function JoinedBy(parts: seq<Text>, separator: Text): Text {
    if parts == [] then []
    else if |parts| == 1 then parts[0]
    else parts[0] + separator + JoinedBy(parts[1..], separator)
  }

  /** The segments joined by blank lines are the text. */
  lemma {:induction false} SegmentsJoin(t: Text)
    ensures JoinedBy(Segments(t), [10, 10]) == t
    decreases |t|
  {
    if Boundary(t).Some? {
      var b := Boundary(t).value;
      SegmentsStep(t);
      SegmentsJoin(t[b + 2..]);
      hide Segments, Boundary, JoinedBy, Completed, Pending;
      FirstPart(t[..b], Segments(t[b + 2..]), [10, 10]);
      CutAtBlankLine(t, b);
    } else {
      assert Segments(t) == [t];
    }
  }

  lemma CutAtBlankLine(t: Text, b: nat)
    requires BlankLineAt(t, b)
    ensures t[..b] + [10, 10] + t[b + 2..] == t
  {
  }

  lemma FirstPart(first: Text, rest: seq<Text>, separator: Text)
    requires rest != []
    ensures JoinedBy([first] + rest, separator) == first + separator + JoinedBy(rest, separator)
  {
    assert ([first] + rest)[1..] == rest;
  }

  /** No segment holds a blank line, and none but the last ends with a line feed: every blank line was taken
      as soon as it came. */
  lemma {:induction false} SegmentsTakeFirst(t: Text, k: nat)
    requires k < |Segments(t)|
    ensures forall i :: !BlankLineAt(Segments(t)[k], i)
    ensures k < |Segments(t)| - 1 ==> !EndsWith(Segments(t)[k], 10)
    decreases |t|
  {
    BoundaryIsFirst(t);
    if Boundary(t).Some? {
      var b := Boundary(t).value;
      SegmentsStep(t);
      if k > 0 {
        SegmentsTakeFirst(t[b + 2..], k - 1);
      } else {
        FirstSegment(t, b);
      }
    }
  }

  lemma FirstSegment(t: Text, b: nat)
    requires BlankLineAt(t, b) && forall i :: i < b ==> !BlankLineAt(t, i)
    ensures (forall i :: !BlankLineAt(t[..b], i)) && !EndsWith(t[..b], 10)
  {
    forall i
      ensures !BlankLineAt(t[..b], i)
    {
      if i < b { assert !BlankLineAt(t, i); }
    }
    if b > 0 { assert !BlankLineAt(t, b - 1); }
  }

  /** The lines joined by line feeds are the text, and none holds one. */
  lemma {:induction false} LinesJoin(t: Text)
    ensures JoinedBy(Lines(t), [10]) == t
    ensures forall k :: 0 <= k < |Lines(t)| ==> 10 !in Lines(t)[k]
    decreases |t|
  {
    if t != [] {
      var rest := Lines(t[1..]);
      LinesJoin(t[1..]);
      var lines := Lines(t);
      if t[0] == LF {
        assert lines == [[]] + rest;
        assert lines[1..] == rest;
        assert [] + [10] + t[1..] == t;
      } else {
        assert lines == [[t[0]] + rest[0]] + rest[1..];
        assert lines[1..] == rest[1..];
        FirstLonger(t[0], rest);
      }
    }
  }

  lemma FirstLonger(u: Unit, rest: seq<Text>)
    requires rest != []
    ensures JoinedBy([[u] + rest[0]] + rest[1..], [10]) == [u] + JoinedBy(rest, [10])
  {
    if |rest| > 1 {
      FirstPart([u] + rest[0], rest[1..], [10]);
      FirstPart(rest[0], rest[1..], [10]);
      assert rest == [rest[0]] + rest[1..];
      hide JoinedBy;
      Prepended(u, rest[0], JoinedBy(rest[1..], [10]));
    }
  }

  lemma Prepended(u: Unit, first: Text, more: Text)
    ensures ([u] + first) + [10] + more == [u] + (first + [10] + more)
  {
  }

  // ----- trim -----

  /** The white space and line ends of ECMAScript. */
  lemma WhiteUnits(u: Unit)
    ensures White(u) <==>
              || u in {9, 10, 11, 12, 13, 32, 160, 5760, 8232, 8233, 8239, 8287, 12288, 65279}
              || u in {8192, 8193, 8194, 8195, 8196, 8197, 8198, 8199, 8200, 8201, 8202}
  {
  }

  predicate AllWhite(t: Text) { forall i :: 0 <= i < |t| ==> White(t[i]) }

  /** What is trimmed is white, and what stays has no white unit at either end. */
  lemma TrimKeeps(t: Text) returns (before: Text, after: Text)
    ensures t == before + Trim(t) + after && AllWhite(before) && AllWhite(after)
    ensures Trim(t) != [] ==> !White(Trim(t)[0]) && !White(Trim(t)[|Trim(t)| - 1])
  {
    hide White;
    var kept: Text;
    before, kept := StartTrimmed(t);
    after := EndTrimmed(TrimStart(t));
    assert t == before + (Trim(t) + after);
  }

  lemma {:induction false} StartTrimmed(t: Text) returns (before: Text, kept: Text)
    ensures kept == TrimStart(t) && t == before + kept && AllWhite(before)
    ensures kept != [] ==> !White(kept[0])
    decreases |t|
  {
    hide White;
    if t != [] && White(t[0]) {
      before, kept := StartTrimmed(t[1..]);
      assert t == [t[0]] + t[1..];
      before := [t[0]] + before;
    } else {
      before, kept := [], t;
    }
  }

  lemma {:induction false} EndTrimmed(t: Text) returns (after: Text)
    ensures t == TrimEnd(t) + after && AllWhite(after)
    ensures TrimEnd(t) != [] ==> TrimEnd(t)[0] == t[0] && !White(TrimEnd(t)[|TrimEnd(t)| - 1])
    decreases |t|
  {
    hide White;
    if t != [] && White(t[|t| - 1]) {
      after := EndTrimmed(t[..|t| - 1]);
      after := after + [t[|t| - 1]];
    } else {
      after := [];
    }
  }

  // ----- TextEncoder -----

  /** The bytes of a code point. */
  function Bytes(point: int): seq<int> {
    if point < 0x80 then [point]
    else if point < 0x800 then [0xC0 + point / 64, 0x80 + point % 64]
    else if point < 0x1_0000 then [0xE0 + point / 4096, 0x80 + point / 64 % 64, 0x80 + point % 64]
    else [0xF0 + point / 262144, 0x80 + point / 4096 % 64, 0x80 + point / 64 % 64, 0x80 + point % 64]
  }

  /** The UTF-8 bytes of a text: pairs of surrogates are one code point, a lone one is U+FFFD. */
  function Utf8(t: Text): seq<int> {
    if t == [] then []
    else if |t| > 1 && 0xD800 <= t[0] <= 0xDBFF && 0xDC00 <= t[1] <= 0xDFFF then
      Bytes(0x1_0000 + 0x400 * (t[0] as int - 0xD800) + (t[1] as int - 0xDC00)) + Utf8(t[2..])
    else Bytes(if 0xD800 <= t[0] <= 0xDFFF then 0xFFFD else t[0] as int) + Utf8(t[1..])
  }

  /** The length that is compared with the limit is that of the UTF-8 bytes. */
  lemma {:induction false} LengthOfBytes(t: Text)
    ensures Utf8Length(t) == |Utf8(t)|
    decreases |t|
  {
    if t != [] {
      if StartsPair(t) { LengthOfBytes(t[2..]); } else { LengthOfBytes(t[1..]); }
    }
  }

  // ----- skipped and refused blocks -----

  /** A segment is skipped exactly if only white space is in it, or what is left starts with a colon; otherwise
      its block is read: one event more, or the refusal that ends the reading. */
  lemma SegmentTaken(check: Check, s: Reading, raw: Text)
    requires s.refused.None?
    ensures Take(check, s, raw) == s <==> Trim(raw) == [] || Trim(raw)[0] == 58
    ensures Take(check, s, raw) != s ==>
              match ParseBlock(check, Trim(raw), s.ids)
              case Ok(event) => Take(check, s, raw) == Reading(s.events + [event], s.ids + {event.id}, None)
              case Err(e) => Take(check, s, raw) == Reading(s.events, s.ids, Some(e))
  {
    hide ParseBlock, Trim;
    match ParseBlock(check, Trim(raw), s.ids)
    case Ok(event) => assert |s.events + [event]| == |s.events| + 1;
    case Err(e) =>
  }

  /** A block of the right form is an id line and a data line in either order. */
  ghost predicate WellFormedBlock(block: Text) {
    exists id, data :: BlockOf(block, id, data)
  }

  /** Which refusal a block meets: size before shape, shape before the id's own form, that before a duplicate,
      and the event's verification last. */
  lemma BlockRefusal(check: Check, block: Text, ids: set<Text>)
    ensures var out := ParseBlock(check, block, ids);
            && (out == Err(FrameTooLarge) <==> Utf8Length(block) > 1_048_576)
            && (out == Err(FrameShapeInvalid) <==> Utf8Length(block) <= 1_048_576 && !WellFormedBlock(block))
  {
    hide Utf8Length, Lines, StartingWith;
    var lines := Lines(block);
    var (idLines, dataLines) := (StartingWith(lines, ID_FIELD), StartingWith(lines, DATA_FIELD));
    if WellFormedBlock(block) {
      var id, data :| BlockOf(block, id, data);
      FieldLines(block, id, data);
    }
    if |idLines| == 1 && |dataLines| == 1 && |lines| == 2 {
      LinesOfField(block, idLines[0][4..], dataLines[0][6..]);
    }
  }

  lemma BlockRefusalOf(check: Check, block: Text, ids: set<Text>, id: Text, data: Text)
    requires BlockOf(block, id, data) && Utf8Length(block) <= 1_048_576
    ensures var out := ParseBlock(check, block, ids);
            && (out == Err(EventIdInvalid) <==> id == [] || 13 in id)
            && (out == Err(EventIdDuplicate) <==> id != [] && 13 !in id && id in ids)
            && (forall code: nat ::
                  out == Err(EventRefused(code)) <==> id != [] && 13 !in id && id !in ids && check(data) == Some(code))
  {
    hide Utf8Length, Lines, StartingWith;
    FieldLines(block, id, data);
  }
}
