/** Server-sent events: the parser of a whole text and the parser of a stream of string chunks
    (src/ag-ui.ts). What JSON parsing and event verification say of a data line is a parameter. */
module SseParser {
  import opened Common
  import opened TextUnits

  const MAX_FRAME_BYTES := 1_048_576

  /** The refusal code of a data line, if it does not carry a verified event. */
  type Check = Text -> Option<nat>

  datatype Event = Event(id: Text, data: Text)

  datatype SseError =
    | FrameTooLarge
    | FrameShapeInvalid
    | EventIdInvalid
    | EventIdDuplicate
    | EventRefused(code: nat)

  // ----- library calls -----

  /** replaceAll("\r\n", "\n") */
  function Normalized(t: Text): Text {
    if |t| < 2 then t
    else if t[0] == CR && t[1] == LF then [LF] + Normalized(t[2..])
    else [t[0]] + Normalized(t[1..])
  }

  /** indexOf("\n\n") */
  function Boundary(t: Text): (b: Option<nat>)
    ensures b.Some? ==> b.value + 2 <= |t| && t[b.value] == LF && t[b.value + 1] == LF
  {
    if |t| < 2 then None
    else if t[0] == LF && t[1] == LF then Some(0)
    else
      match Boundary(t[1..])
      case None => None
      case Some(b) => Some(b + 1)
  }

  /** split("\n\n") */
  function Segments(t: Text): (segments: seq<Text>)
    ensures segments != []
    decreases |t|
  {
    match Boundary(t)
    case None => [t]
    case Some(b) => [t[..b]] + Segments(t[b + 2..])
  }

  /** split("\n") */
  function Lines(t: Text): (lines: seq<Text>)
    ensures lines != []
  {
    if t == [] then [[]]
    else
      var rest := Lines(t[1..]);
      if t[0] == LF then [[]] + rest else [[t[0]] + rest[0]] + rest[1..]
  }

  function StartingWith(lines: seq<Text>, prefix: Text): (kept: seq<Text>)
    ensures forall i :: 0 <= i < |kept| ==> prefix <= kept[i]
  {
    if lines == [] then []
    else (if prefix <= lines[0] then [lines[0]] else []) + StartingWith(lines[1..], prefix)
  }

  const ID_FIELD: Text := [105, 100, 58, 32]
  const DATA_FIELD: Text := [100, 97, 116, 97, 58, 32]

  // ----- one block -----

  /** parseProofBoundAguiSseBlock */
  function ParseBlock(check: Check, block: Text, ids: set<Text>): Result<Event, SseError> {
    var lines := Lines(block);
    var (idLines, dataLines) := (StartingWith(lines, ID_FIELD), StartingWith(lines, DATA_FIELD));
    if Utf8Length(block) > MAX_FRAME_BYTES then Err(FrameTooLarge)
    else if |idLines| != 1 || |dataLines| != 1 || |lines| != 2 then Err(FrameShapeInvalid)
    else
      var (id, data) := (idLines[0][4..], dataLines[0][6..]);
      if id == [] || CR in id || LF in id then Err(EventIdInvalid)
      else if id in ids then Err(EventIdDuplicate)
      else if check(data).Some? then Err(EventRefused(check(data).value))
      else Ok(Event(id, data))
  }

  /** Events delivered so far, and the refusal that ended the reading, if any. */
  datatype Reading = Reading(events: seq<Event>, ids: set<Text>, refused: Option<SseError>)

  const START := Reading([], {}, None)

  /** One raw segment: blank ones and comments are skipped, nothing is read after a refusal. */
  function Take(check: Check, s: Reading, raw: Text): Reading {
    var block := Trim(raw);
    if s.refused.Some? || block == [] || block[0] == COLON then s
    else
      match ParseBlock(check, block, s.ids)
      case Err(e) => s.(refused := Some(e))
      case Ok(event) => Reading(s.events + [event], s.ids + {event.id}, None)
  }

  function TakeAll(check: Check, s: Reading, raws: seq<Text>): Reading
    decreases |raws|
  {
    if raws == [] then s else TakeAll(check, Take(check, s, raws[0]), raws[1..])
  }

  /** What the parser of the whole text reads. */
  function WholeReading(check: Check, text: Text): Reading {
    TakeAll(check, START, Segments(Normalized(text)))
  }

  // ----- chunks -----

  datatype Pipe = Pipe(buffer: Text, reading: Reading)

  function Drain(check: Check, p: Pipe): Pipe
    decreases |p.buffer|
  {
    match Boundary(p.buffer)
    case None => p
    case Some(b) =>
      var next := Take(check, p.reading, p.buffer[..b]);
      if next.refused.Some? then p.(reading := next) else Drain(check, Pipe(p.buffer[b + 2..], next))
  }

  function Push(check: Check, p: Pipe, chunk: Text): Pipe {
    if p.reading.refused.Some? then p
    else
      var drained := Drain(check, Pipe(Normalized(p.buffer + chunk), p.reading));
      if drained.reading.refused.None? && Utf8Length(drained.buffer) > MAX_FRAME_BYTES then
        drained.(reading := drained.reading.(refused := Some(FrameTooLarge)))
      else drained
  }

  function PushAll(check: Check, chunks: seq<Text>): Pipe
    decreases |chunks|
  {
    if chunks == [] then Pipe([], START)
    else Push(check, PushAll(check, chunks[..|chunks| - 1]), chunks[|chunks| - 1])
  }

  /** What the parser of the stream reads by the time the chunks end. */
  function StreamReading(check: Check, chunks: seq<Text>): Reading {
    var p := PushAll(check, chunks);
    Take(check, p.reading, Normalized(p.buffer))
  }

  // ----- the two parsers -----

  /** parseProofBoundAguiSse: all events, or the first refusal and no event. */
  method ParseSse(check: Check, text: Text) returns (out: Result<seq<Event>, SseError>)
    ensures var whole := WholeReading(check, text);
            out == if whole.refused.Some? then Err(whole.refused.value) else Ok(whole.events)
  {
    hide ParseBlock, Trim;
    var raws := Segments(Normalized(text));
    var output: seq<Event>, ids: set<Text> := [], {};
    for k := 0 to |raws|
      invariant TakeAll(check, START, raws) == TakeAll(check, Reading(output, ids, None), raws[k..])
    {
      var block := Trim(raws[k]);
      assert raws[k..][0] == raws[k] && raws[k..][1..] == raws[k + 1..];
      if block == [] || block[0] == COLON { continue; }
      var parsed := ParseBlock(check, block, ids);
      match parsed {
        case Err(e) =>
          RefusedStays(check, Reading(output, ids, Some(e)), raws[k + 1..]);
          return Err(e);
        case Ok(event) =>
          output, ids := output + [event], ids + {event.id};
      }
    }
    return Ok(output);
  }

  lemma {:induction false} RefusedStays(check: Check, s: Reading, raws: seq<Text>)
    requires s.refused.Some?
    ensures TakeAll(check, s, raws) == s
    decreases |raws|
  {
    if raws != [] {
      RefusedStays(check, s, raws[1..]);
    }
  }

  /** parseProofBoundAguiSseStream: the events it yields, and what it throws afterwards. */
  method ParseSseStream(check: Check, chunks: seq<Text>) returns (yielded: seq<Event>, thrown: Option<SseError>)
    ensures var stream := StreamReading(check, chunks);
            yielded == stream.events && thrown == stream.refused
  {
    hide ParseBlock, Trim, Drain, Normalized, Utf8Length, Boundary;
    var buffer: Text := [];
    var ids: set<Text> := {};
    yielded, thrown := [], None;
    assert chunks[..|chunks|] == chunks;
    for k := 0 to |chunks|
      invariant thrown.None?
      invariant PushAll(check, chunks[..k]) == Pipe(buffer, Reading(yielded, ids, None))
    {
      var was := Reading(yielded, ids, None);
      assert chunks[..k + 1][..k] == chunks[..k];
      var normal := Normalized(buffer + chunks[k]);
      buffer, yielded, ids, thrown := DrainBuffer(check, normal, yielded, ids);
      if thrown.Some? {
        PushedRefusalStays(check, chunks, k + 1);
        return;
      }
      if Utf8Length(buffer) > MAX_FRAME_BYTES {
        thrown := Some(FrameTooLarge);
        PushedRefusalStays(check, chunks, k + 1);
        return;
      }
    }
    var trailing := Trim(Normalized(buffer));
    if trailing != [] && trailing[0] != COLON {
      var parsed := ParseBlock(check, trailing, ids);
      match parsed {
        case Err(e) => thrown := Some(e);
        case Ok(event) => yielded := yielded + [event];
      }
    }
  }

  /** The inner loop: one parsed block per blank line in the buffer. */
  method DrainBuffer(check: Check, given: Text, before: seq<Event>, known: set<Text>)
    returns (buffer: Text, yielded: seq<Event>, ids: set<Text>, thrown: Option<SseError>)
    ensures Drain(check, Pipe(given, Reading(before, known, None))) == Pipe(buffer, Reading(yielded, ids, thrown))
  {
    hide ParseBlock, Trim, Boundary;
    buffer, yielded, ids, thrown := given, before, known, None;
    var boundary := Boundary(buffer);
    while boundary.Some?
      invariant thrown.None? && boundary == Boundary(buffer)
      invariant Drain(check, Pipe(given, Reading(before, known, None))) == Drain(check, Pipe(buffer, Reading(yielded, ids, None)))
      decreases |buffer|
    {
      BoundaryInside(buffer);
      var block := Trim(buffer[..boundary.value]);
      if block != [] && block[0] != COLON {
        var parsed := ParseBlock(check, block, ids);
        match parsed {
          case Err(e) =>
            thrown := Some(e);
            return;
          case Ok(event) =>
            yielded, ids := yielded + [event], ids + {event.id};
        }
      }
      buffer := buffer[boundary.value + 2..];
      boundary := Boundary(buffer);
    }
  }

  lemma BoundaryInside(t: Text)
    ensures Boundary(t).Some? ==> Boundary(t).value + 2 <= |t|
  {
  }

  lemma {:induction false} PushedRefusalStays(check: Check, chunks: seq<Text>, k: nat)
    requires k <= |chunks| && PushAll(check, chunks[..k]).reading.refused.Some?
    ensures StreamReading(check, chunks) == PushAll(check, chunks[..k]).reading
    decreases |chunks| - k
  {
    hide Drain, Trim, Normalized;
    if k == |chunks| {
      assert chunks[..k] == chunks;
    } else {
      assert chunks[..k + 1][..k] == chunks[..k];
      assert PushAll(check, chunks[..k + 1]) == PushAll(check, chunks[..k]);
      hide PushAll;
      PushedRefusalStays(check, chunks, k + 1);
    }
  }
}
