/** The session layer of the stdio proxy: framing the child's output into lines, and discovering the
    tool catalog against its pins (src/mcp-stdio-proxy.ts). */
module StdioSession {
  import opened Common

  newtype Byte = b: int | 0 <= b < 256

  type Bytes = seq<Byte>

  const NEWLINE: Byte := 10
  const MAX_LINE_BYTES := 16 * 1024 * 1024

  // ----- framing -----

  function Newline(t: Bytes): (at: Option<nat>)
    ensures at.Some? ==> at.value < |t| && t[at.value] == NEWLINE
    ensures at.None? ==> forall i :: 0 <= i < |t| ==> t[i] != NEWLINE
  {
    if t == [] then None
    else if t[0] == NEWLINE then Some(0)
    else
      match Newline(t[1..])
      case None => None
      case Some(i) => Some(i + 1)
  }

  /** The lines that end in t. */
  function CompleteLines(t: Bytes): seq<Bytes>
    decreases |t|
  {
    match Newline(t)
    case None => []
    case Some(i) => [t[..i]] + CompleteLines(t[i + 1..])
  }

  /** What follows the last newline. */
  function Unfinished(t: Bytes): (rest: Bytes)
    ensures |rest| <= |t|
    decreases |t|
  {
    match Newline(t)
    case None => t
    case Some(i) => Unfinished(t[i + 1..])
  }

  function Terminated(lines: seq<Bytes>): Bytes {
    if lines == [] then [] else lines[0] + [10] + Terminated(lines[1..])
  }

  /** The lines, each ended by a line feed, and what is unfinished are the input; no line holds one. */
  lemma {:induction false} LinesRebuild(t: Bytes)
    ensures Terminated(CompleteLines(t)) + Unfinished(t) == t
    ensures 10 !in Unfinished(t) && forall k :: 0 <= k < |CompleteLines(t)| ==> 10 !in CompleteLines(t)[k]
    decreases |t|
  {
    FirstLineEnds(t);
    if Newline(t).Some? {
      var i := Newline(t).value;
      var rest := t[i + 1..];
      LinesRebuild(rest);
      FirstLine(t, i);
      hide CompleteLines, Unfinished, Terminated;
      OneLineMore(t, i, Terminated(CompleteLines(rest)), Unfinished(rest));
    } else {
      assert CompleteLines(t) == [] && Unfinished(t) == t;
      assert [] + t == t;
    }
  }

  lemma FirstLine(t: Bytes, i: nat)
    requires Newline(t) == Some(i)
    ensures var rest := t[i + 1..];
            && CompleteLines(t) == [t[..i]] + CompleteLines(rest) && Unfinished(t) == Unfinished(rest)
            && Terminated(CompleteLines(t)) == t[..i] + [10] + Terminated(CompleteLines(rest))
  {
    hide Newline;
    FirstTerminated(t[..i], CompleteLines(t[i + 1..]));
    hide Terminated;
  }

  lemma FirstTerminated(line: Bytes, lines: seq<Bytes>)
    ensures Terminated([line] + lines) == line + [10] + Terminated(lines)
  {
    assert ([line] + lines)[1..] == lines;
  }

  lemma OneLineMore(t: Bytes, i: nat, lines: Bytes, rest: Bytes)
    requires i < |t| && t[i] == 10 && lines + rest == t[i + 1..]
    ensures t[..i] + [10] + lines + rest == t
  {
    assert t[..i] + [10] + lines + rest == t[..i] + [10] + (lines + rest);
  }

  lemma {:induction false} FirstLineEnds(t: Bytes)
    ensures Newline(t).Some? ==> 10 !in t[..Newline(t).value]
  {
    if t != [] && t[0] != NEWLINE && Newline(t[1..]).Some? {
      FirstLineEnds(t[1..]);
      assert t[..Newline(t).value] == [t[0]] + t[1..][..Newline(t[1..]).value];
    }
  }

  /** The reader: bytes not yet framed, and the lines taken from them. Handling a line may fail; the line
      is gone from the buffer all the same, and the rest of the buffer waits for the next chunk. */
  datatype Reader = Reader(buffer: Bytes, lines: seq<Bytes>, failed: bool)

  /** Whether a line, coming after the given ones, is handled without an error. */
  type Handler = (seq<Bytes>, Bytes) -> bool

  function TakeLines(handle: Handler, r: Reader): Reader
    decreases |r.buffer|
  {
    match Newline(r.buffer)
    case None => r
    case Some(i) =>
      var line := r.buffer[..i];
      var next := r.(buffer := r.buffer[i + 1..], lines := r.lines + [line]);
      if handle(r.lines, line) then TakeLines(handle, next) else next.(failed := true)
  }

  function OnChunk(handle: Handler, r: Reader, chunk: Bytes): Reader {
    var grown := r.(buffer := r.buffer + chunk);
    if |grown.buffer| > MAX_LINE_BYTES then grown.(failed := true) else TakeLines(handle, grown)
  }

  function OnChunks(handle: Handler, r: Reader, chunks: seq<Bytes>): Reader
    decreases |chunks|
  {
    if chunks == [] then r else OnChunks(handle, OnChunk(handle, r, chunks[0]), chunks[1..])
  }

  function Joined(chunks: seq<Bytes>): Bytes {
    if chunks == [] then [] else chunks[0] + Joined(chunks[1..])
  }

  /** onSessionStdout */
  method ReadChunk(handle: Handler, given: Reader, chunk: Bytes) returns (r: Reader)
    ensures r == OnChunk(handle, given, chunk)
  {
    r := given.(buffer := given.buffer + chunk);
    if |r.buffer| > MAX_LINE_BYTES {
      return r.(failed := true);
    }
    var grown := r;
    while true
      invariant TakeLines(handle, grown) == TakeLines(handle, r)
      decreases |r.buffer|
    {
      var end := Newline(r.buffer);
      if end.None? { break; }
      var line := r.buffer[..end.value];
      var before := r.lines;
      r := r.(buffer := r.buffer[end.value + 1..], lines := r.lines + [line]);
      if !handle(before, line) {
        r := r.(failed := true);
        return;
      }
    }
  }

  lemma {:induction false} NewlineOfMore(t: Bytes, more: Bytes)
    requires Newline(t).Some?
    ensures Newline(t + more) == Newline(t)
  {
    if t[0] != NEWLINE {
      assert (t + more)[1..] == t[1..] + more;
      NewlineOfMore(t[1..], more);
    }
  }

  lemma {:induction false} LinesOfMore(t: Bytes, more: Bytes)
    ensures CompleteLines(t + more) == CompleteLines(t) + CompleteLines(Unfinished(t) + more)
    ensures Unfinished(t + more) == Unfinished(Unfinished(t) + more)
    decreases |t|
  {
    match Newline(t)
    case None =>
      assert CompleteLines(t) == [] && Unfinished(t) == t;
      assert [] + CompleteLines(t + more) == CompleteLines(t + more);
    case Some(i) =>
      NewlineOfMore(t, more);
      CutAfter(t, more, i);
      var rest := t[i + 1..];
      LinesOfMore(rest, more);
      assert CompleteLines(t) == [t[..i]] + CompleteLines(rest) && Unfinished(t) == Unfinished(rest);
      assert CompleteLines(t + more) == [t[..i]] + CompleteLines(rest + more);
      assert Unfinished(t + more) == Unfinished(rest + more);
      hide CompleteLines, Unfinished, Newline;
      Regroup([], t[..i], CompleteLines(rest));
      Associate([t[..i]], CompleteLines(rest), CompleteLines(Unfinished(rest) + more));
  }

  lemma CutAfter(t: Bytes, more: Bytes, i: nat)
    requires i < |t|
    ensures (t + more)[i + 1..] == t[i + 1..] + more && (t + more)[..i] == t[..i]
  {
  }

  lemma Associate(a: seq<Bytes>, b: seq<Bytes>, c: seq<Bytes>)
    ensures (a + b) + c == a + (b + c)
  {
  }

  /** What was framed from the input so far, if nothing failed: all its lines, in order. */
  predicate Framed(r: Reader, input: Bytes) {
    r.lines == CompleteLines(input) && r.buffer == Unfinished(input)
  }

  lemma {:induction false} TakeLinesFrames(handle: Handler, r: Reader)
    requires !TakeLines(handle, r).failed
    ensures TakeLines(handle, r).lines == r.lines + CompleteLines(r.buffer)
    ensures TakeLines(handle, r).buffer == Unfinished(r.buffer)
    decreases |r.buffer|
  {
    match Newline(r.buffer)
    case None => assert r.lines + [] == r.lines;
    case Some(i) =>
      var line := r.buffer[..i];
      var next := r.(buffer := r.buffer[i + 1..], lines := r.lines + [line]);
      TakeLinesFrames(handle, next);
      Regroup(r.lines, line, CompleteLines(next.buffer));
  }

  lemma Regroup(a: seq<Bytes>, line: Bytes, b: seq<Bytes>)
    ensures a + [line] + b == a + ([line] + b)
  {
  }

  lemma {:induction false} FailureLasts(handle: Handler, r: Reader, chunks: seq<Bytes>)
    requires r.failed
    ensures OnChunks(handle, r, chunks).failed
    decreases |chunks|
  {
    if chunks != [] {
      TakeLinesLasts(handle, r.(buffer := r.buffer + chunks[0]));
      FailureLasts(handle, OnChunk(handle, r, chunks[0]), chunks[1..]);
    }
  }

  lemma {:induction false} TakeLinesLasts(handle: Handler, r: Reader)
    requires r.failed
    ensures TakeLines(handle, r).failed
    decreases |r.buffer|
  {
    match Newline(r.buffer)
    case None =>
    case Some(i) =>
      var line := r.buffer[..i];
      var next := r.(buffer := r.buffer[i + 1..], lines := r.lines + [line]);
      if handle(r.lines, line) { TakeLinesLasts(handle, next); }
  }

  lemma {:induction false} ChunksFrame(handle: Handler, r: Reader, input: Bytes, chunks: seq<Bytes>)
    requires Framed(r, input) && !OnChunks(handle, r, chunks).failed
    ensures Framed(OnChunks(handle, r, chunks), input + Joined(chunks))
    decreases |chunks|
  {
    if chunks == [] {
      assert input + [] == input;
    } else {
      hide Framed;
      var next := OnChunk(handle, r, chunks[0]);
      assert OnChunks(handle, r, chunks) == OnChunks(handle, next, chunks[1..]);
      if next.failed {
        FailureLasts(handle, next, chunks[1..]);
      } else {
        ChunkFrames(handle, r, input, chunks[0]);
        JoinFirst(input, chunks);
        hide OnChunk, OnChunks, Joined;
        ChunksFrame(handle, next, input + chunks[0], chunks[1..]);
      }
    }
  }

  lemma ChunkFrames(handle: Handler, r: Reader, input: Bytes, chunk: Bytes)
    requires Framed(r, input) && !OnChunk(handle, r, chunk).failed
    ensures Framed(OnChunk(handle, r, chunk), input + chunk)
  {
    hide TakeLines, CompleteLines, Unfinished;
    TakeLinesFrames(handle, r.(buffer := r.buffer + chunk));
    LinesOfMore(input, chunk);
  }

  lemma JoinFirst(input: Bytes, chunks: seq<Bytes>)
    requires chunks != []
    ensures (input + chunks[0]) + Joined(chunks[1..]) == input + Joined(chunks)
  {
  }

  /** The lines framed depend on the bytes received only, not on how they were cut. */
  lemma FramingForgetsChunks(handle: Handler, one: seq<Bytes>, other: seq<Bytes>)
    requires Joined(one) == Joined(other)
    requires !OnChunks(handle, Reader([], [], false), one).failed
    requires !OnChunks(handle, Reader([], [], false), other).failed
    ensures OnChunks(handle, Reader([], [], false), one).lines == CompleteLines(Joined(one))
    ensures OnChunks(handle, Reader([], [], false), one) == OnChunks(handle, Reader([], [], false), other)
  {
    var start := Reader([], [], false);
    ChunksFrame(handle, start, [], one);
    ChunksFrame(handle, start, [], other);
    assert [] + Joined(one) == Joined(one);
  }

  /** The lines handled, and those still complete in the buffer, are the lines of the input. */
  predicate Keeps(r: Reader, input: Bytes) {
    r.lines + CompleteLines(r.buffer) == CompleteLines(input) && Unfinished(r.buffer) == Unfinished(input)
  }

  lemma {:induction false} TakeLinesKeeps(handle: Handler, r: Reader)
    ensures var t := TakeLines(handle, r);
            t.lines + CompleteLines(t.buffer) == r.lines + CompleteLines(r.buffer) && Unfinished(t.buffer) == Unfinished(r.buffer)
    decreases |r.buffer|
  {
    match Newline(r.buffer)
    case None =>
    case Some(i) =>
      var line := r.buffer[..i];
      var next := r.(buffer := r.buffer[i + 1..], lines := r.lines + [line]);
      Regroup(r.lines, line, CompleteLines(next.buffer));
      if handle(r.lines, line) { TakeLinesKeeps(handle, next); }
  }

  lemma ChunkKeeps(handle: Handler, r: Reader, input: Bytes, chunk: Bytes)
    requires Keeps(r, input)
    ensures Keeps(OnChunk(handle, r, chunk), input + chunk)
  {
    hide TakeLines, CompleteLines, Unfinished;
    LinesOfMore(input, chunk);
    LinesOfMore(r.buffer, chunk);
    Associate(r.lines, CompleteLines(r.buffer), CompleteLines(Unfinished(input) + chunk));
    TakeLinesKeeps(handle, r.(buffer := r.buffer + chunk));
  }

  lemma {:induction false} ChunksKeep(handle: Handler, r: Reader, input: Bytes, chunks: seq<Bytes>)
    requires Keeps(r, input)
    ensures Keeps(OnChunks(handle, r, chunks), input + Joined(chunks))
    decreases |chunks|
  {
    if chunks == [] {
      assert input + [] == input;
    } else {
      hide Keeps;
      ChunkKeeps(handle, r, input, chunks[0]);
      JoinFirst(input, chunks);
      hide OnChunk, Joined;
      ChunksKeep(handle, OnChunk(handle, r, chunks[0]), input + chunks[0], chunks[1..]);
    }
  }

  /** Whatever the handler refuses and whether or not a buffer grew too long: the lines handled are the
      first lines of the input, in order, and the others are still in the buffer. */
  lemma NoLineLostOrRepeated(handle: Handler, chunks: seq<Bytes>)
    ensures var r := OnChunks(handle, Reader([], [], false), chunks);
            && r.lines <= CompleteLines(Joined(chunks))
            && r.lines + CompleteLines(r.buffer) == CompleteLines(Joined(chunks))
            && Unfinished(r.buffer) == Unfinished(Joined(chunks))
  {
    hide OnChunks, Joined;
    ChunksKeep(handle, Reader([], [], false), [], chunks);
    assert [] + Joined(chunks) == Joined(chunks);
  }

  /** With a handler that takes every line, only a buffer over the limit fails the session. */
  predicate WithinLimit(buffered: Bytes, chunks: seq<Bytes>)
    decreases |chunks|
  {
    chunks != [] ==>
      |buffered + chunks[0]| <= 16_777_216 && WithinLimit(Unfinished(buffered + chunks[0]), chunks[1..])
  }

  lemma {:induction false} FailsOnlyOverLimit(handle: Handler, r: Reader, chunks: seq<Bytes>)
    requires forall lines, line :: handle(lines, line)
    requires !r.failed
    ensures OnChunks(handle, r, chunks).failed <==> !WithinLimit(r.buffer, chunks)
    decreases |chunks|
  {
    if chunks != [] {
      var grown := r.(buffer := r.buffer + chunks[0]);
      var next := OnChunk(handle, r, chunks[0]);
      if |grown.buffer| > MAX_LINE_BYTES {
        FailureLasts(handle, next, chunks[1..]);
      } else {
        NeverFails(handle, grown);
        TakeLinesFrames(handle, grown);
        FailsOnlyOverLimit(handle, next, chunks[1..]);
      }
    }
  }

  lemma {:induction false} NeverFails(handle: Handler, r: Reader)
    requires (forall lines, line :: handle(lines, line)) && !r.failed
    ensures !TakeLines(handle, r).failed
    decreases |r.buffer|
  {
    match Newline(r.buffer)
    case None =>
    case Some(i) => NeverFails(handle, r.(buffer := r.buffer[i + 1..], lines := r.lines + [r.buffer[..i]]));
  }

  // ----- discovery -----

  /** A listed tool: its name, and the digest of its input schema if that is an object. */
  datatype Tool = Tool(name: Option<string>, schema: Option<Digest>)

  datatype Cursor = NoCursor | BadCursor | At(text: string)

  /** What the continuation of one tools/list exchange sees. */
  datatype PageReply = ControlFailed | NotACatalog | Page(tools: seq<Tool>, next: Cursor)

  /** Reply to the i-th tools/list request of a discovery, and how many catalog changes were announced
      between that request and the continuation after its reply. */
  type Replies = nat -> PageReply

  type Changes = nat -> nat

  type Catalog = map<string, Digest>

  /** The tools of one page added to the catalog, if they are well-formed and new. */
  function AddTools(catalog: Catalog, tools: seq<Tool>): Option<Catalog>
    decreases |tools|
  {
    if tools == [] then Some(catalog)
    else
      var tool := tools[0];
      if tool.name.None? || tool.schema.None? || tool.name.value in catalog then None
      else AddTools(catalog[tool.name.value := tool.schema.value], tools[1..])
  }

  datatype PassEnd = PassFailed(asked: nat) | PassDone(catalog: Catalog, asked: nat)

  /** The page loop of one pass from its (4 - left)-th page on; `asked` counts all requests so far. */
  function Pages(replies: Replies, asked: nat, left: nat, catalog: Catalog, seen: set<string>): PassEnd
    decreases left
  {
    if left == 0 then PassFailed(asked)
    else
      match replies(asked)
      case ControlFailed => PassFailed(asked + 1)
      case NotACatalog => PassFailed(asked + 1)
      case Page(tools, next) =>
        if |tools| > 256 then PassFailed(asked + 1)
        else
          match AddTools(catalog, tools)
          case None => PassFailed(asked + 1)
          case Some(grown) =>
            match next
            case NoCursor => PassDone(grown, asked + 1)
            case BadCursor => PassFailed(asked + 1)
            case At(text) =>
              if |text| > 2048 || text in seen then PassFailed(asked + 1)
              else Pages(replies, asked + 1, left - 1, grown, seen + {text})
  }

  predicate Pinned(catalog: Catalog, pins: Catalog) {
    forall name :: name in pins ==> name in catalog && catalog[name] == pins[name]
  }

  function Announced(changes: Changes, first: nat, end: nat): nat
    requires first <= end
    decreases end
  {
    if first == end then 0 else Announced(changes, first, end - 1) + changes(end - 1)
  }

  datatype Discovery = Refused(asked: nat) | Discovered(catalog: Catalog, asked: nat)

  /** discover, with the refreshes it may still make. */
  function Discover(replies: Replies, changes: Changes, pins: Catalog, asked: nat, refreshes: nat): Discovery
    decreases refreshes
  {
    match Pages(replies, asked, 4, map[], {})
    case PassFailed(n) => Refused(n)
    case PassDone(catalog, n) =>
      PagesAsk(replies, asked, 4, map[], {});
      if !Pinned(catalog, pins) then Refused(n)
      else if Announced(changes, asked, n) == 0 then Discovered(catalog, n)
      else if refreshes == 0 then Refused(n)
      else Discover(replies, changes, pins, n, refreshes - 1)
  }

  lemma {:induction false} PagesAsk(replies: Replies, asked: nat, left: nat, catalog: Catalog, seen: set<string>)
    ensures var end := Pages(replies, asked, left, catalog, seen);
            && asked <= end.asked <= asked + left
            && (end.PassDone? ==> asked < end.asked)
    decreases left
  {
    if left > 0 && replies(asked).Page? {
      var page := replies(asked);
      var grown := AddTools(catalog, page.tools);
      if |page.tools| <= 256 && grown.Some? && page.next.At? && |page.next.text| <= 2048 && page.next.text !in seen {
        PagesAsk(replies, asked + 1, left - 1, grown.value, seen + {page.next.text});
      }
    }
  }

  /** One pass as the loop it is. */
  method ListTools(replies: Replies, changes: Changes, epochBefore: nat, askedBefore: nat)
    returns (end: PassEnd, epoch: nat)
    ensures end == Pages(replies, askedBefore, 4, map[], {})
    ensures askedBefore <= end.asked && epoch == epochBefore + Announced(changes, askedBefore, end.asked)
  {
    hide AddTools;
    var asked: nat, catalog: Catalog := askedBefore, map[];
    epoch := epochBefore;
    var seen: set<string> := {};
    for page := 0 to 4
      invariant askedBefore <= asked && epoch == epochBefore + Announced(changes, askedBefore, asked)
      invariant Pages(replies, askedBefore, 4, map[], {}) == Pages(replies, asked, 4 - page, catalog, seen)
    {
      var reply := replies(asked);
      epoch := epoch + changes(asked);
      asked := asked + 1;
      if !reply.Page? || |reply.tools| > 256 { return PassFailed(asked), epoch; }
      var grown := AddTools(catalog, reply.tools);
      if grown.None? { return PassFailed(asked), epoch; }
      catalog := grown.value;
      if reply.next == NoCursor { return PassDone(catalog, asked), epoch; }
      if reply.next == BadCursor || |reply.next.text| > 2048 || reply.next.text in seen {
        return PassFailed(asked), epoch;
      }
      seen := seen + {reply.next.text};
    }
    return PassFailed(asked), epoch;
  }

  method DiscoverTools(replies: Replies, changes: Changes, pins: Catalog, epoch: nat, asked: nat, refreshes: nat)
    returns (outcome: Discovery, epochAfter: nat)
    ensures outcome == Discover(replies, changes, pins, asked, refreshes)
    decreases refreshes
  {
    var end;
    end, epochAfter := ListTools(replies, changes, epoch, asked);
    match end {
      case PassFailed(n) => return Refused(n), epochAfter;
      case PassDone(catalog, n) =>
        if !Pinned(catalog, pins) { return Refused(n), epochAfter; }
        if epochAfter != epoch {
          if refreshes == 0 { return Refused(n), epochAfter; }
          outcome, epochAfter := DiscoverTools(replies, changes, pins, epochAfter, n, refreshes - 1);
          return;
        }
        return Discovered(catalog, n), epochAfter;
    }
  }

  /** The requests first..end make one full pass: at most four well-formed pages, the last without a
      cursor, that name every pinned tool with its pinned schema while nothing changed. */
  ghost predicate QuietPass(replies: Replies, changes: Changes, pins: Catalog, first: nat, end: nat, catalog: Catalog) {
    && first < end <= first + 4
    && (forall i {:trigger replies(i)} :: first <= i < end ==> replies(i).Page?)
    && replies(end - 1).next == NoCursor
    && Announced(changes, first, end) == 0
    && Pinned(catalog, pins)
    && (forall i, k {:trigger replies(i).tools[k]} :: first <= i < end && 0 <= k < |replies(i).tools| ==>
          Lists(catalog, replies(i).tools[k]))
  }

  predicate Lists(catalog: Catalog, tool: Tool) {
    tool.name.Some? && tool.name.value in catalog && tool.schema == Some(catalog[tool.name.value])
  }

  lemma {:induction false} AddToolsLists(catalog: Catalog, tools: seq<Tool>)
    requires AddTools(catalog, tools).Some?
    ensures forall k :: 0 <= k < |tools| ==> Lists(AddTools(catalog, tools).value, tools[k])
    ensures forall name :: name in catalog ==>
              name in AddTools(catalog, tools).value && AddTools(catalog, tools).value[name] == catalog[name]
    decreases |tools|
  {
    if tools != [] {
      var tool := tools[0];
      AddToolsLists(catalog[tool.name.value := tool.schema.value], tools[1..]);
      var all := AddTools(catalog, tools).value;
      forall k | 0 <= k < |tools|
        ensures Lists(all, tools[k])
      {
        if k > 0 { assert tools[k] == tools[1..][k - 1]; }
      }
    }
  }

  lemma {:induction false} PagesList(replies: Replies, asked: nat, left: nat, catalog: Catalog, seen: set<string>)
    requires Pages(replies, asked, left, catalog, seen).PassDone?
    ensures var end := Pages(replies, asked, left, catalog, seen);
            && asked < end.asked <= asked + left
            && (forall i {:trigger replies(i)} :: asked <= i < end.asked ==> replies(i).Page?)
            && replies(end.asked - 1).next == NoCursor
            && (forall name :: name in catalog ==> name in end.catalog && end.catalog[name] == catalog[name])
            && (forall i, k {:trigger replies(i).tools[k]} :: asked <= i < end.asked && 0 <= k < |replies(i).tools| ==>
                  Lists(end.catalog, replies(i).tools[k]))
    decreases left
  {
    var page := replies(asked);
    var grown := AddTools(catalog, page.tools).value;
    AddToolsLists(catalog, page.tools);
    if page.next.At? {
      PagesList(replies, asked + 1, left - 1, grown, seen + {page.next.text});
    }
  }

  lemma PassIsQuiet(replies: Replies, changes: Changes, pins: Catalog, asked: nat)
    requires var end := Pages(replies, asked, 4, map[], {});
             && end.PassDone? && Pinned(end.catalog, pins)
             && asked <= end.asked && Announced(changes, asked, end.asked) == 0
    ensures var end := Pages(replies, asked, 4, map[], {});
            QuietPass(replies, changes, pins, asked, end.asked, end.catalog)
  {
    hide Pages, Announced, Pinned;
    PagesList(replies, asked, 4, map[], {});
  }

  lemma {:induction false} DiscoverIsPinned(replies: Replies, changes: Changes, pins: Catalog, asked: nat, refreshes: nat)
    ensures var d := Discover(replies, changes, pins, asked, refreshes);
            && d.asked <= asked + 4 * (refreshes + 1)
            && (d.Discovered? ==>
                  exists start: nat :: start < d.asked && QuietPass(replies, changes, pins, start, d.asked, d.catalog))
    decreases refreshes
  {
    hide Pages, Announced, Pinned, QuietPass;
    PagesAsk(replies, asked, 4, map[], {});
    var end := Pages(replies, asked, 4, map[], {});
    if end.PassDone? && Pinned(end.catalog, pins) {
      if Announced(changes, asked, end.asked) == 0 {
        PassIsQuiet(replies, changes, pins, asked);
      } else if refreshes > 0 {
        DiscoverIsPinned(replies, changes, pins, end.asked, refreshes - 1);
      }
    }
  }

  /** discover asks at most eight times, and it returns only after a full pass without a change in which
      every configured tool was listed with its pinned schema. */
  lemma DiscoveryIsBoundedAndPinned(replies: Replies, changes: Changes, pins: Catalog)
    ensures var d := Discover(replies, changes, pins, 0, 1);
            && d.asked <= 8
            && (d.Discovered? ==>
                  exists start: nat :: start < d.asked && QuietPass(replies, changes, pins, start, d.asked, d.catalog))
  {
    hide Discover, QuietPass;
    DiscoverIsPinned(replies, changes, pins, 0, 1);
  }
}
