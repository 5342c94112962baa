/** Chunking does not matter: the streaming parser reads what the whole-text parser reads, except for
    texts with CR CR LF and for buffers over the frame limit. */
module SseTheorems {
  import opened Common
  import opened TextUnits
  import opened SseParser

  // ----- CRLF rewriting -----

  predicate CrLfAt(t: Text, i: int) { 0 <= i && i + 1 < |t| && t[i] == CR && t[i + 1] == LF }

  ghost predicate CrLfFree(t: Text) { forall i :: !CrLfAt(t, i) }

  predicate CrCrLfAt(t: Text, i: int) { 0 <= i && i + 2 < |t| && t[i] == CR && t[i + 1] == CR && t[i + 2] == LF }

  /** The texts on which the CRLF rewrite is idempotent. */
  ghost predicate CrCrLfFree(t: Text) { forall i :: !CrCrLfAt(t, i) }

  predicate EndsWith(t: Text, u: Unit) { t != [] && t[|t| - 1] == u }

  predicate StartsWith(t: Text, u: Unit) { t != [] && t[0] == u }

  lemma {:induction false} NormalOfFree(t: Text)
    requires CrLfFree(t)
    ensures Normalized(t) == t
    decreases |t|
  {
    if |t| >= 2 {
      assert !CrLfAt(t, 0);
      forall i
        ensures !CrLfAt(t[1..], i)
      {
        assert !CrLfAt(t, i + 1);
      }
      NormalOfFree(t[1..]);
    }
  }

  lemma {:induction false} NormalSplits(x: Text, y: Text)
    requires !(EndsWith(x, CR) && StartsWith(y, LF))
    ensures Normalized(x + y) == Normalized(x) + Normalized(y)
    decreases |x|
  {
    if x == [] {
      assert x + y == y;
    } else if |x| == 1 {
      assert (x + y)[1..] == y;
      assert |x + y| >= 2 ==> !((x + y)[0] == CR && (x + y)[1] == LF);
    } else if x[0] == CR && x[1] == LF {
      assert (x + y)[2..] == x[2..] + y;
      NormalSplits(x[2..], y);
    } else {
      assert (x + y)[1..] == x[1..] + y;
      NormalSplits(x[1..], y);
    }
  }

  /** A CRLF cut in two. */
  lemma NormalRejoins(x: Text, y: Text)
    ensures Normalized(x + [CR] + ([LF] + y)) == Normalized(x) + [LF] + Normalized(y)
  {
    assert x + [CR] + ([LF] + y) == x + ([CR, LF] + y);
    NormalSplits(x, [CR, LF] + y);
    assert ([CR, LF] + y)[2..] == y;
  }

  lemma {:induction false} NormalIsFree(t: Text)
    requires CrCrLfFree(t)
    ensures CrLfFree(Normalized(t))
    ensures StartsWith(Normalized(t), LF) ==> StartsWith(t, LF) || CrLfAt(t, 0)
    decreases |t|
  {
    var n := Normalized(t);
    if |t| >= 2 {
      var (rest, skip) := if CrLfAt(t, 0) then (t[2..], 2) else (t[1..], 1);
      forall i
        ensures !CrCrLfAt(rest, i)
      {
        assert !CrCrLfAt(t, i + skip);
      }
      NormalIsFree(rest);
      assert n[1..] == Normalized(rest);
      forall i
        ensures !CrLfAt(n, i)
      {
        if i == 0 {
          assert !CrCrLfAt(t, 0);
        } else {
          assert !CrLfAt(Normalized(rest), i - 1);
        }
      }
    }
  }

  lemma {:induction false} NormalEnd(t: Text)
    ensures EndsWith(Normalized(t), CR) <==> EndsWith(t, CR)
    decreases |t|
  {
    if |t| >= 2 {
      var rest := if CrLfAt(t, 0) then t[2..] else t[1..];
      NormalEnd(rest);
      assert Normalized(t)[1..] == Normalized(rest);
      assert rest == [] ==> !EndsWith(t, CR);
      NormalNonEmpty(rest);
    }
  }

  lemma NormalNonEmpty(t: Text)
    ensures Normalized(t) == [] <==> t == []
  {
  }

  lemma PartsAreFree(a: Text, b: Text)
    requires CrCrLfFree(a + b)
    ensures CrCrLfFree(a)
  {
    forall i
      ensures !CrCrLfAt(a, i)
    {
      assert !CrCrLfAt(a + b, i);
    }
  }

  // ----- segments -----

  function Completed(t: Text): seq<Text> { Segments(t)[..|Segments(t)| - 1] }

  /** The text after the last blank line. */
  function Pending(t: Text): Text { Segments(t)[|Segments(t)| - 1] }

  lemma {:induction false} BoundaryOfPrefix(t: Text, z: Text)
    requires Boundary(t).Some?
    ensures Boundary(t[..Boundary(t).value + 2] + z) == Boundary(t)
    decreases |t|
  {
    var b := Boundary(t).value;
    if b > 0 {
      BoundaryOfPrefix(t[1..], z);
      assert (t[..b + 2] + z)[1..] == t[1..][..b + 1] + z;
    }
  }

  lemma SegmentsStep(t: Text)
    requires Boundary(t).Some?
    ensures var (b, rest) := (Boundary(t).value, t[Boundary(t).value + 2..]);
            && Segments(t) == [t[..b]] + Segments(rest)
            && Completed(t) == [t[..b]] + Completed(rest)
            && Pending(t) == Pending(rest)
  {
    hide Boundary;
  }

  lemma {:induction false} PendingIsEnd(t: Text)
    ensures |Pending(t)| <= |t| && t[|t| - |Pending(t)|..] == Pending(t)
    ensures var done := t[..|t| - |Pending(t)|]; done == [] || EndsWith(done, LF)
    decreases |t|
  {
    if Boundary(t).Some? {
      SegmentsStep(t);
      PendingIsEnd(t[Boundary(t).value + 2..]);
    }
  }

  function Done(t: Text): Text {
    if |Pending(t)| <= |t| then t[..|t| - |Pending(t)|] else t
  }

  lemma DoneAndPending(t: Text)
    ensures t == Done(t) + Pending(t) && (Done(t) == [] || EndsWith(Done(t), LF))
  {
    PendingIsEnd(t);
    hide Segments, Pending;
  }

  lemma DoneStep(t: Text)
    requires Boundary(t).Some?
    ensures Done(t) == t[..Boundary(t).value + 2] + Done(t[Boundary(t).value + 2..])
  {
    hide Segments, Pending, Completed;
    var cut := Boundary(t).value + 2;
    var rest := t[cut..];
    SegmentsStep(t);
    PendingIsEnd(rest);
    hide Boundary;
    var kept := |Pending(t)|;
    assert Done(t) == t[..|t| - kept] && Done(rest) == rest[..|rest| - kept];
    hide Done;
    PrefixJoins(t, cut, kept);
  }

  lemma PrefixJoins(t: Text, cut: nat, kept: nat)
    requires cut + kept <= |t|
    ensures t[..|t| - kept] == t[..cut] + t[cut..][..|t| - cut - kept]
  {
  }

  /** Everything up to the last blank line can be set aside for good. */
  lemma {:induction false} SegmentsResume(t: Text, z: Text)
    ensures Segments(Done(t) + z) == Completed(t) + Segments(z)
    decreases |t|
  {
    hide Segments, Pending, Completed, Done, Boundary;
    if Boundary(t).None? {
      SegmentsOfOne(t, z);
    } else {
      var b := Boundary(t).value;
      var rest := t[b + 2..];
      SegmentsStep(t);
      DoneStep(t);
      SegmentsResume(rest, z);
      assert Done(t) + z == t[..b + 2] + (Done(rest) + z);
      BoundaryOfPrefix(t, Done(rest) + z);
      SegmentsStep(Done(t) + z);
      FirstStays(Done(t) + z, t, b, Done(rest) + z);
      Associate([t[..b]], Completed(rest), Segments(z));
    }
  }

  lemma SegmentsOfOne(t: Text, z: Text)
    requires Boundary(t).None?
    ensures Segments(Done(t) + z) == Completed(t) + Segments(z)
  {
    assert Segments(t) == [t];
    hide Segments;
    assert Done(t) + z == z;
    assert Completed(t) == [];
  }

  lemma FirstStays(whole: Text, t: Text, b: nat, rest: Text)
    requires b + 2 <= |t| && whole == t[..b + 2] + rest
    ensures whole[..b] == t[..b] && whole[b + 2..] == rest
  {
  }

  lemma Associate(a: seq<Text>, b: seq<Text>, c: seq<Text>)
    ensures (a + b) + c == a + (b + c)
  {
  }

  lemma LastOfJoin(a: seq<Text>, b: seq<Text>)
    requires b != []
    ensures (a + b)[..|a + b| - 1] == a + b[..|b| - 1] && (a + b)[|a + b| - 1] == b[|b| - 1]
  {
  }

  /** A chunk is rewritten together with the text that waits; what is complete stays as it is. */
  function Arrived(n: Text, chunk: Text): Text { Done(n) + Normalized(Pending(n) + chunk) }

  lemma ArrivedSegments(n: Text, chunk: Text)
    ensures var z := Normalized(Pending(n) + chunk);
            Completed(Arrived(n, chunk)) == Completed(n) + Completed(z) && Pending(Arrived(n, chunk)) == Pending(z)
  {
    var z := Normalized(Pending(n) + chunk);
    SegmentsResume(n, z);
    hide Segments, Normalized, Done;
    LastOfJoin(Completed(n), Segments(z));
  }

  /** If no CR LF waits, rewriting it together with the chunk is rewriting the whole text. */
  lemma NormalResumes(text: Text, chunk: Text)
    requires CrLfFree(Pending(Normalized(text)))
    ensures Normalized(text + chunk) == Done(Normalized(text)) + Normalized(Pending(Normalized(text)) + chunk)
  {
    var n := Normalized(text);
    DoneAndPending(n);
    NormalEnd(text);
    hide Pending, Done, Normalized;
    var (done, last) := (Done(n), Pending(n));
    hide CrLfFree;
    if EndsWith(text, CR) && StartsWith(chunk, LF) {
      assert EndsWith(last, CR) by { LastEnds(done, last); }
      ResumesInCrLf(text[..|text| - 1], last[..|last| - 1], done, chunk[1..], text, last, chunk);
    } else {
      assert !(EndsWith(last, CR) && StartsWith(chunk, LF)) by { if last != [] { LastEnds(done, last); } }
      NormalSplits(text, chunk);
      NormalSplits(last, chunk);
      NormalOfFree(last);
      Regrouped(done, last, Normalized(chunk));
    }
  }

  lemma LastEnds(done: Text, last: Text)
    ensures last != [] ==> (EndsWith(done + last, CR) <==> EndsWith(last, CR))
    ensures last == [] && (done == [] || EndsWith(done, LF)) ==> !EndsWith(done + last, CR)
  {
  }

  lemma Regrouped(a: Text, b: Text, c: Text)
    ensures (a + b) + c == a + (b + c)
  {
  }

  lemma ResumesInCrLf(x: Text, w: Text, done: Text, y: Text, text: Text, last: Text, chunk: Text)
    requires text != [] && text[|text| - 1] == CR && x == text[..|text| - 1]
    requires last != [] && last[|last| - 1] == CR && w == last[..|last| - 1] && CrLfFree(last)
    requires chunk != [] && chunk[0] == LF && y == chunk[1..]
    requires Normalized(text) == done + last
    ensures Normalized(text + chunk) == done + Normalized(last + chunk)
  {
    hide Normalized;
    assert text == x + [CR] && last == w + [CR] && chunk == [LF] + y;
    PartIsCrLfFree(last, |w|);
    NormalOfFree(w);
    NormalOfFree([CR]);
    hide CrLfFree;
    NormalSplits(x, [CR]);
    SameBefore(Normalized(x), done + w, CR, done + last);
    NormalRejoins(x, y);
    NormalRejoins(w, y);
    Regrouped(done, w, [LF]);
    Regrouped(done, w + [LF], Normalized(y));
  }

  lemma PartIsCrLfFree(t: Text, n: nat)
    requires CrLfFree(t) && n <= |t|
    ensures CrLfFree(t[..n])
  {
    forall i
      ensures !CrLfAt(t[..n], i)
    {
      assert !CrLfAt(t, i);
    }
  }

  lemma SameBefore(a: Text, b: Text, u: Unit, t: Text)
    requires t == a + [u] && t == b + [u]
    ensures a == b
  {
    assert t[..|a|] == a && t[..|b|] == b;
  }

  // ----- readings -----

  lemma {:induction false} TakeAllInParts(check: Check, s: Reading, a: seq<Text>, b: seq<Text>)
    ensures TakeAll(check, s, a + b) == TakeAll(check, TakeAll(check, s, a), b)
    decreases |a|
  {
    hide Take;
    if a == [] {
      assert a + b == b;
    } else {
      assert (a + b)[1..] == a[1..] + b;
      TakeAllInParts(check, Take(check, s, a[0]), a[1..], b);
    }
  }

  lemma {:induction false} DrainReads(check: Check, p: Pipe)
    requires p.reading.refused.None?
    ensures Drain(check, p).reading == TakeAll(check, p.reading, Completed(p.buffer))
    ensures Drain(check, p).reading.refused.None? ==> Drain(check, p).buffer == Pending(p.buffer)
    decreases |p.buffer|
  {
    hide Take, Segments, Completed, Pending, Boundary;
    if Boundary(p.buffer).None? {
      OnlySegment(p.buffer);
    } else {
      var b := Boundary(p.buffer).value;
      var rest := p.buffer[b + 2..];
      var next := Take(check, p.reading, p.buffer[..b]);
      SegmentsStep(p.buffer);
      TakeFirst(check, p.reading, p.buffer[..b], Completed(rest));
      if next.refused.Some? {
        RefusedStays(check, next, Completed(rest));
      } else {
        DrainReads(check, Pipe(rest, next));
      }
    }
  }

  lemma OnlySegment(t: Text)
    requires Boundary(t).None?
    ensures Completed(t) == [] && Pending(t) == t
  {
    assert Segments(t) == [t];
  }

  lemma TakeFirst(check: Check, s: Reading, raw: Text, raws: seq<Text>)
    ensures TakeAll(check, s, [raw] + raws) == TakeAll(check, Take(check, s, raw), raws)
  {
    hide Take;
    assert ([raw] + raws)[1..] == raws;
  }

  /** The text as the stream comes to see it, every chunk rewritten with what waits when it arrives. */
  function Rewritten(chunks: seq<Text>): Text
    decreases |chunks|
  {
    if chunks == [] then [] else Arrived(Rewritten(chunks[..|chunks| - 1]), chunks[|chunks| - 1])
  }

  /** The buffers that wait at the ends of the chunks stay within the frame limit. */
  predicate Fits(chunks: seq<Text>) {
    forall k :: 1 <= k <= |chunks| ==> FitsAt(chunks, k)
  }

  predicate FitsAt(chunks: seq<Text>, k: int)
    requires 0 <= k <= |chunks|
  {
    Utf8Length(Pending(Rewritten(chunks[..k]))) <= MAX_FRAME_BYTES
  }

  ghost predicate InStep(check: Check, p: Pipe, n: Text) {
    && p.reading == TakeAll(check, START, Completed(n))
    && (p.reading.refused.None? ==> p.buffer == Pending(n))
  }

  lemma PushKeepsStep(check: Check, p: Pipe, n: Text, chunk: Text)
    requires InStep(check, p, n)
    ensures Utf8Length(Pending(Arrived(n, chunk))) <= MAX_FRAME_BYTES ==>
              InStep(check, Push(check, p, chunk), Arrived(n, chunk))
    ensures Utf8Length(Pending(Arrived(n, chunk))) > MAX_FRAME_BYTES ==>
              Push(check, p, chunk).reading.refused.Some?
  {
    hide Drain, TakeAll, Take, Segments, Utf8Length, Normalized, Arrived, Pending, Completed;
    ArrivedSegments(n, chunk);
    var z := Normalized(Pending(n) + chunk);
    TakeAllInParts(check, START, Completed(n), Completed(z));
    if p.reading.refused.Some? {
      RefusedStays(check, p.reading, Completed(z));
    } else {
      DrainReads(check, Pipe(z, p.reading));
    }
  }

  /** No CR LF is left in the buffers that wait at the ends of the chunks. */
  ghost predicate Settled(chunks: seq<Text>) {
    forall k :: 1 <= k <= |chunks| ==> SettledAt(chunks, k)
  }

  ghost predicate SettledAt(chunks: seq<Text>, k: int)
    requires 0 <= k <= |chunks|
  {
    CrLfFree(Pending(Normalized(Concat(chunks[..k]))))
  }

  lemma SettledBefore(chunks: seq<Text>)
    requires chunks != [] && Settled(chunks)
    ensures Settled(chunks[..|chunks| - 1])
    ensures CrLfFree(Pending(Normalized(Concat(chunks[..|chunks| - 1]))))
    ensures CrLfFree(Pending(Normalized(Concat(chunks))))
  {
    NothingPending();
    hide CrLfFree, Pending, Normalized, Concat;
    var init := chunks[..|chunks| - 1];
    assert chunks[..|chunks|] == chunks;
    assert SettledAt(chunks, |chunks|);
    forall k | 1 <= k <= |init|
      ensures SettledAt(init, k)
    {
      assert SettledAt(chunks, k) && chunks[..k] == init[..k];
    }
    assert init[..|init|] == init;
    if init != [] { assert SettledAt(init, |init|); }
  }

  lemma NothingPending()
    ensures CrLfFree(Pending(Normalized(Concat([]))))
  {
    assert Segments([]) == [[]];
  }

  /** A text without CR CR LF is settled however it is cut. */
  lemma CrCrLfFreeIsSettled(chunks: seq<Text>)
    requires CrCrLfFree(Concat(chunks))
    ensures Settled(chunks)
  {
    hide CrCrLfFree, Concat, Pending, Normalized, CrLfFree;
    forall k | 1 <= k <= |chunks|
      ensures SettledAt(chunks, k)
    {
      ConcatSplits(chunks, k);
      var q: Text :| Concat(chunks) == Concat(chunks[..k]) + q;
      PartsAreFree(Concat(chunks[..k]), q);
      NormalIsFree(Concat(chunks[..k]));
      PendingIsFree(Normalized(Concat(chunks[..k])));
    }
  }

  /** Without such, the stream sees the rewritten text. */
  lemma {:induction false} SettledRewrites(chunks: seq<Text>)
    requires Settled(chunks)
    ensures Rewritten(chunks) == Normalized(Concat(chunks))
    decreases |chunks|
  {
    if chunks != [] {
      SettledBefore(chunks);
      hide Settled, CrLfFree, Pending, Done, Normalized;
      SettledRewrites(chunks[..|chunks| - 1]);
      NormalResumes(Concat(chunks[..|chunks| - 1]), chunks[|chunks| - 1]);
    }
  }

  lemma {:induction false} PushAllInStep(check: Check, chunks: seq<Text>)
    requires Fits(chunks)
    ensures InStep(check, PushAll(check, chunks), Rewritten(chunks))
    decreases |chunks|
  {
    if chunks == [] {
      assert Segments([]) == [[]];
    } else {
      var (init, last) := (chunks[..|chunks| - 1], chunks[|chunks| - 1]);
      FitsBefore(chunks);
      hide Fits;
      PushAllInStep(check, init);
      hide InStep, Push, Arrived, Pending, Utf8Length;
      PushKeepsStep(check, PushAll(check, init), Rewritten(init), last);
    }
  }

  lemma FitsBefore(chunks: seq<Text>)
    requires chunks != []
    ensures Fits(chunks) <==>
              && Fits(chunks[..|chunks| - 1])
              && FitsAt(chunks, |chunks|)
    ensures FitsAt(chunks, |chunks|) <==> Utf8Length(Pending(Rewritten(chunks))) <= MAX_FRAME_BYTES
  {
    hide Utf8Length, Pending, Rewritten;
    var init := chunks[..|chunks| - 1];
    assert chunks[..|chunks|] == chunks;
    forall k | 1 <= k < |chunks|
      ensures FitsAt(chunks, k) <==> FitsAt(init, k)
    {
      assert chunks[..k] == init[..k];
    }
    hide FitsAt;
    if Fits(init) && FitsAt(chunks, |chunks|) {
      forall k | 1 <= k <= |chunks| ensures FitsAt(chunks, k) { assert k < |chunks| ==> FitsAt(init, k); }
    }
    if Fits(chunks) {
      assert FitsAt(chunks, |chunks|);
      forall k | 1 <= k <= |init| ensures FitsAt(init, k) { assert FitsAt(chunks, k); }
    }
  }

  /** What the stream takes in the end: the complete segments of the text it came to see, and the rest,
      rewritten once more. */
  function Taken(chunks: seq<Text>): seq<Text> {
    var n := Rewritten(chunks);
    Completed(n) + [Normalized(Pending(n))]
  }

  /** For every cutting of every text the stream reads exactly these segments, if no waiting buffer grows
      over the limit, and is refused if one does. */
  lemma StreamReadsExactly(check: Check, chunks: seq<Text>)
    ensures Fits(chunks) ==> StreamReading(check, chunks) == TakeAll(check, START, Taken(chunks))
    ensures !Fits(chunks) ==> StreamReading(check, chunks).refused.Some?
  {
    hide Fits, Take, Normalized, PushAll, Rewritten, Pending, Completed, TakeAll;
    var (n, p) := (Rewritten(chunks), PushAll(check, chunks));
    if Fits(chunks) {
      PushAllInStep(check, chunks);
      TakeAllInParts(check, START, Completed(n), [Normalized(Pending(n))]);
      TakeOne(check, p.reading, Normalized(Pending(n)));
      if p.reading.refused.Some? {
        RefusedTakesNothing(check, p.reading, Normalized(Pending(n)));
        RefusedTakesNothing(check, p.reading, Normalized(p.buffer));
      }
    } else {
      UnfitIsRefused(check, chunks);
      RefusedTakesNothing(check, p.reading, Normalized(p.buffer));
    }
  }

  /** Any way of cutting a text into string chunks whose waiting buffers stay within the limit and keep no
      CR LF: same events, same refusal, duplicate ids across chunks included. */
  lemma ChunkingDoesNotMatter(check: Check, chunks: seq<Text>)
    requires Settled(chunks) && Fits(chunks)
    ensures StreamReading(check, chunks) == WholeReading(check, Concat(chunks))
  {
    SettledRewrites(chunks);
    if chunks == [] { NothingPending(); } else { SettledBefore(chunks); }
    hide Settled, Fits, Take, TakeAll, Segments, Normalized, PushAll, CrLfFree, Pending, Completed, Rewritten, StreamReading;
    StreamReadsExactly(check, chunks);
    var n := Normalized(Concat(chunks));
    LastTake(check, n);
    NormalOfFree(Pending(n));
    TakeAllInParts(check, START, Completed(n), [Pending(n)]);
    TakeOne(check, TakeAll(check, START, Completed(n)), Pending(n));
  }

  lemma LastTake(check: Check, n: Text)
    ensures TakeAll(check, START, Segments(n)) == Take(check, TakeAll(check, START, Completed(n)), Pending(n))
  {
    hide Segments, Take, TakeAll;
    var last: seq<Text> := [Pending(n)];
    assert Segments(n) == Completed(n) + last;
    TakeAllInParts(check, START, Completed(n), last);
    TakeOne(check, TakeAll(check, START, Completed(n)), Pending(n));
  }

  lemma TakeOne(check: Check, s: Reading, raw: Text)
    ensures TakeAll(check, s, [raw]) == Take(check, s, raw)
  {
    hide Take;
    var none: seq<Text>, one: seq<Text> := [], [raw];
    assert one[1..] == none;
    assert TakeAll(check, Take(check, s, raw), none) == Take(check, s, raw);
  }

  lemma PendingIsFree(n: Text)
    requires CrLfFree(n)
    ensures CrLfFree(Pending(n))
  {
    hide Segments;
    PendingIsEnd(n);
    forall i
      ensures !CrLfAt(Pending(n), i)
    {
      assert !CrLfAt(n, i + |n| - |Pending(n)|);
    }
  }

  lemma RefusedTakesNothing(check: Check, s: Reading, raw: Text)
    requires s.refused.Some?
    ensures Take(check, s, raw) == s
  {
  }

  lemma {:induction false} UnfitIsRefused(check: Check, chunks: seq<Text>)
    requires !Fits(chunks)
    ensures PushAll(check, chunks).reading.refused.Some?
    decreases |chunks|
  {
    if chunks != [] {
      var (init, last) := (chunks[..|chunks| - 1], chunks[|chunks| - 1]);
      FitsBefore(chunks);
      if !Fits(init) {
        hide Fits, Drain, Normalized;
        UnfitIsRefused(check, init);
      } else {
        PushAllInStep(check, init);
        hide InStep, Push, Arrived, Pending, Utf8Length, Fits;
        PushKeepsStep(check, PushAll(check, init), Rewritten(init), last);
      }
    }
  }

  /** The stream is read without refusal exactly if the whole text is and every waiting buffer fits. */
  lemma StreamAcceptsExactly(check: Check, chunks: seq<Text>)
    requires Settled(chunks)
    ensures StreamReading(check, chunks).refused.None? <==>
              WholeReading(check, Concat(chunks)).refused.None? && Fits(chunks)
  {
    hide Settled, Fits, StreamReading, WholeReading;
    StreamReadsExactly(check, chunks);
    if Fits(chunks) {
      ChunkingDoesNotMatter(check, chunks);
    }
  }

  // ----- when every cutting fits -----

  lemma {:induction false} NoBlankLine(t: Text, i: nat)
    requires Boundary(t).None? && i + 1 < |t|
    ensures !(t[i] == LF && t[i + 1] == LF)
  {
    if i > 0 { NoBlankLine(t[1..], i - 1); }
  }

  lemma {:induction false} PendingHasNoBlankLine(t: Text)
    ensures Boundary(Pending(t)).None?
    decreases |t|
  {
    if Boundary(t).Some? {
      SegmentsStep(t);
      PendingHasNoBlankLine(t[Boundary(t).value + 2..]);
    } else {
      assert Pending(t) == t;
    }
  }

  lemma FirstSegmentCovers(kept: Text, w: Text)
    requires Boundary(kept).None?
    ensures Utf8Length(kept) <= Utf8Length(Segments(kept + w)[0]) + 1
  {
    var z := kept + w;
    match Boundary(z)
    case None =>
      assert Segments(z)[0] == z;
      LengthGrows(kept, w);
    case Some(b) =>
      var first := z[..b];
      assert Segments(z)[0] == first;
      hide Segments, Utf8Length, Boundary;
      if b + 1 < |kept| {
        NoBlankLine(kept, b);
      } else if b + 1 == |kept| {
        assert kept == first + [LF];
        LengthOfAscii(first, LF);
      } else {
        assert first == kept + first[|kept|..];
        LengthGrows(kept, first[|kept|..]);
      }
  }

  /** The text waiting after the first part is a segment of the whole but for two line-end bytes. */
  lemma PendingWithinSegment(p: Text, q: Text)
    requires CrCrLfFree(p + q)
    ensures exists i :: 0 <= i < |Segments(Normalized(p + q))|
                     && Utf8Length(Pending(Normalized(p))) <= Utf8Length(Segments(Normalized(p + q))[i]) + 2
  {
    var n := Normalized(p);
    var last := Pending(n);
    PartsAreFree(p, q);
    NormalIsFree(p);
    PendingIsFree(n);
    NormalResumes(p, q);
    var z := Normalized(last + q);
    SegmentsResume(n, z);
    PendingHasNoBlankLine(n);
    hide Segments, Pending, Completed, Done, Boundary, Utf8Length, CrCrLfFree;
    PendingCovered(last, q);
    var i := |Completed(n)|;
    assert Segments(Normalized(p + q))[i] == Segments(z)[0];
  }

  lemma PendingCovered(last: Text, q: Text)
    requires Boundary(last).None? && CrLfFree(last)
    ensures Utf8Length(last) <= Utf8Length(Segments(Normalized(last + q))[0]) + 2
  {
    hide Segments, Utf8Length, Boundary, CrLfFree, Normalized;
    if EndsWith(last, CR) && StartsWith(q, LF) {
      assert last == last[..|last| - 1] + [CR] && q == [LF] + q[1..];
      PendingCutInCrLf(last[..|last| - 1], q[1..]);
    } else {
      NormalSplits(last, q);
      NormalOfFree(last);
      FirstSegmentCovers(last, Normalized(q));
    }
  }

  lemma PendingCutInCrLf(x: Text, y: Text)
    requires Boundary(x + [CR]).None? && CrLfFree(x + [CR])
    ensures Utf8Length(x + [CR]) <= Utf8Length(Segments(Normalized(x + [CR] + ([LF] + y)))[0]) + 2
  {
    hide Segments, Utf8Length, Boundary, Normalized;
    forall i
      ensures !CrLfAt(x, i)
    {
      assert !CrLfAt(x + [CR], i);
    }
    NormalRejoins(x, y);
    NormalOfFree(x);
    hide CrLfFree;
    NoBlankLineInPart(x + [CR], |x|);
    assert (x + [CR])[..|x|] == x;
    FirstSegmentCovers(x, [LF] + Normalized(y));
    assert x + ([LF] + Normalized(y)) == x + [LF] + Normalized(y);
    LengthOfAscii(x, CR);
  }

  lemma {:induction false} NoBlankLineInPart(t: Text, n: nat)
    requires Boundary(t).None? && n <= |t|
    ensures Boundary(t[..n]).None?
    decreases |t|
  {
    if n > 1 {
      NoBlankLineInPart(t[1..], n - 1);
      assert t[..n][1..] == t[1..][..n - 1];
    }
  }

  lemma {:induction false} ConcatSplits(chunks: seq<Text>, k: nat)
    requires k <= |chunks|
    ensures exists q: Text :: Concat(chunks) == Concat(chunks[..k]) + q
    decreases |chunks|
  {
    if k == |chunks| {
      assert chunks[..k] == chunks;
      assert Concat(chunks) == Concat(chunks[..k]) + [];
    } else {
      var init := chunks[..|chunks| - 1];
      ConcatSplits(init, k);
      assert init[..k] == chunks[..k];
      var q: Text :| Concat(init) == Concat(chunks[..k]) + q;
      assert Concat(chunks) == Concat(chunks[..k]) + (q + chunks[|chunks| - 1]);
    }
  }

  /** Segments two bytes below the limit leave room for any cutting. */
  lemma SmallSegmentsFit(chunks: seq<Text>)
    requires CrCrLfFree(Concat(chunks))
    requires forall i :: 0 <= i < |Segments(Normalized(Concat(chunks)))| ==>
               Utf8Length(Segments(Normalized(Concat(chunks)))[i]) + 2 <= MAX_FRAME_BYTES
    ensures Fits(chunks)
  {
    hide Segments, Pending, Normalized, Utf8Length, CrCrLfFree, Settled, Rewritten;
    forall k | 1 <= k <= |chunks|
      ensures FitsAt(chunks, k)
    {
      ConcatSplits(chunks, k);
      var q: Text :| Concat(chunks) == Concat(chunks[..k]) + q;
      PartsAreFree(Concat(chunks[..k]), q);
      CrCrLfFreeIsSettled(chunks[..k]);
      SettledRewrites(chunks[..k]);
      hide Concat, Rewritten;
      PendingWithinSegment(Concat(chunks[..k]), q);
    }
  }

  // ----- where chunking does matter -----

  /** A comment of exactly the frame limit, cut inside the blank line that ends it: no segment is over
      the limit and the whole text is read, but the stream is refused. */
  lemma SegmentAtLimitRefusedInStream(check: Check)
    ensures exists chunks: seq<Text> ::
              && CrCrLfFree(Concat(chunks))
              && (forall i :: 0 <= i < |Segments(Normalized(Concat(chunks)))| ==>
                    Utf8Length(Segments(Normalized(Concat(chunks)))[i]) <= MAX_FRAME_BYTES)
              && WholeReading(check, Concat(chunks)).refused.None?
              && StreamReading(check, chunks).refused.Some?
  {
    var comment: Text := [COLON] + seq(MAX_FRAME_BYTES - 1, i => 97 as Unit);
    assert |comment| == MAX_FRAME_BYTES && comment[0] == COLON && comment[|comment| - 1] == 97;
    assert forall i :: 0 <= i < |comment| ==> comment[i] == COLON || comment[i] == 97;
    CommentAtLimit(check, comment);
  }

  lemma CommentAtLimit(check: Check, comment: Text)
    requires |comment| == MAX_FRAME_BYTES && comment[0] == COLON && comment[|comment| - 1] == 97
    requires forall i :: 0 <= i < |comment| ==> comment[i] == COLON || comment[i] == 97
    ensures var chunks: seq<Text> := [comment + [LF], [LF]];
            && CrCrLfFree(Concat(chunks))
            && (forall i :: 0 <= i < |Segments(Normalized(Concat(chunks)))| ==>
                  Utf8Length(Segments(Normalized(Concat(chunks)))[i]) <= MAX_FRAME_BYTES)
            && WholeReading(check, Concat(chunks)).refused.None?
            && StreamReading(check, chunks).refused.Some?
  {
    hide Utf8Length, Normalized, Segments, Boundary, PushAll, Take, Concat, Fits;
    var chunks: seq<Text> := [comment + [LF], [LF]];
    TwoChunks(comment + [LF], [LF]);
    assert comment + [LF] + [LF] == comment + [LF, LF];
    assert Utf8Length([]) == 0 by { LengthOfAsciiRun([]); }
    LengthOfAsciiRun(comment);
    NormalOfFree(comment + [LF, LF]);
    CommentSegments(comment);
    CommentIsSkipped(check, comment);
    CommentDoesNotFit(comment);
    CrCrLfFreeIsSettled(chunks);
    StreamAcceptsExactly(check, chunks);
  }

  lemma CommentDoesNotFit(comment: Text)
    requires |comment| == MAX_FRAME_BYTES && forall i :: 0 <= i < |comment| ==> comment[i] == COLON || comment[i] == 97
    ensures !Fits([comment + [LF], [LF]])
  {
    hide Utf8Length, Normalized, Segments, Boundary, Concat, Pending, Settled, Rewritten;
    var chunks: seq<Text> := [comment + [LF], [LF]];
    TwoChunks(comment + [LF], [LF]);
    assert chunks[..1] == [comment + [LF]];
    CrCrLfFreeIsSettled([comment + [LF]]);
    SettledRewrites([comment + [LF]]);
    LengthOfAsciiRun(comment);
    LengthOfAscii(comment, LF);
    NormalOfFree(comment + [LF]);
    CommentSegments(comment);
    assert !FitsAt(chunks, 1);
  }

  lemma TwoChunks(a: Text, b: Text)
    ensures Concat([a, b]) == a + b && Concat([a]) == a
  {
    var none: seq<Text> := [];
    assert Concat(none) == [];
    assert [a][..0] == none;
    assert Concat([a]) == [] + a;
    assert [a, b][..1] == [a];
  }

  lemma CommentSegments(comment: Text)
    requires comment != [] && forall i :: 0 <= i < |comment| ==> comment[i] != LF
    ensures Segments(comment + [LF, LF]) == [comment, []]
    ensures Pending(comment + [LF]) == comment + [LF]
  {
    FirstBlankLine(comment);
    var t := comment + [LF, LF];
    assert t[|comment| + 2..] == [] && t[..|comment|] == comment;
    assert Segments([]) == [[]];
  }

  lemma {:induction false} FirstBlankLine(comment: Text)
    requires forall i :: 0 <= i < |comment| ==> comment[i] != LF
    ensures Boundary(comment + [LF, LF]) == Some(|comment|)
    ensures Boundary(comment + [LF]) == None
    decreases |comment|
  {
    if comment != [] {
      FirstBlankLine(comment[1..]);
      assert (comment + [LF, LF])[1..] == comment[1..] + [LF, LF];
      assert (comment + [LF])[1..] == comment[1..] + [LF];
    }
  }

  lemma CommentIsSkipped(check: Check, comment: Text)
    requires comment != [] && comment[0] == COLON && !White(comment[|comment| - 1])
    ensures TakeAll(check, START, [comment, []]) == START
  {
    assert Trim(comment) == comment;
    assert Take(check, START, comment) == START;
    assert Take(check, START, []) == START;
    var none: seq<Text>, blank: seq<Text> := [], [[]];
    assert [comment, []][1..] == blank && blank[1..] == none;
    assert TakeAll(check, START, none) == START;
    assert TakeAll(check, START, blank) == START;
  }

  /** With CR CR LF in the text the outcome does depend on the cutting: ":\r\r\n\r\r\nz" is one comment,
      but cut before the z the rewrite runs twice over the buffer and uncovers a second block. */
  lemma CrCrLfRefusedInStream(check: Check)
    ensures var chunks: seq<Text> := [[COLON, CR, CR, LF, CR, CR, LF], [122]];
            && WholeReading(check, Concat(chunks)) == START
            && StreamReading(check, chunks).refused == Some(FrameShapeInvalid)
  {
    var first: Text := [COLON, CR, CR, LF, CR, CR, LF];
    TwoChunks(first, [122]);
    RewrittenOnce();
    RewrittenTwice();
    CommentThenZ(check);
    CommentDrained(check);
    ShortBuffers();
    hide Normalized, Segments, Drain, Utf8Length, Take, TakeAll;
    assert [first, [122]][..1] == [first] && [first][..0] == [];
    assert [] + first == first;
    assert PushAll(check, []) == Pipe([], START);
    assert PushAll(check, [first]) == Pipe([COLON, CR, LF, CR, LF], START);
    assert PushAll(check, [first, [122]]) == Pipe([122], START);
  }

  lemma ShortBuffers()
    ensures Utf8Length([COLON, CR, LF, CR, LF]) == 5 && Utf8Length([122]) == 1
  {
    LengthOfAsciiRun([COLON, CR, LF, CR, LF]);
    LengthOfAsciiRun([122]);
  }

  lemma RewrittenOnce()
    ensures Normalized([COLON, CR, CR, LF, CR, CR, LF]) == [COLON, CR, LF, CR, LF]
    ensures Normalized([COLON, CR, CR, LF, CR, CR, LF] + [122]) == [COLON, CR, LF, CR, LF, 122]
  {
    var first: Text := [COLON, CR, CR, LF, CR, CR, LF];
    NormalRejoins([CR], []);
    assert [CR] + [CR] + ([LF] + []) == [CR, CR, LF];
    NormalRejoins([COLON, CR], [CR, CR, LF]);
    assert [COLON, CR] + [CR] + ([LF] + [CR, CR, LF]) == first;
    NormalOfFree([COLON, CR]);
    NormalSplits(first, [122]);
  }

  lemma RewrittenTwice()
    ensures Normalized([COLON, CR, LF, CR, LF] + [122]) == [COLON, LF, LF, 122]
    ensures Normalized([122]) == [122]
  {
    NormalRejoins([], [122]);
    assert [] + [CR] + ([LF] + [122]) == [CR, LF, 122];
    NormalRejoins([COLON], [CR, LF, 122]);
    assert [COLON] + [CR] + ([LF] + [CR, LF, 122]) == [COLON, CR, LF, CR, LF] + [122];
  }

  lemma CommentThenZ(check: Check)
    ensures Take(check, START, [COLON]) == START
    ensures Take(check, START, [122]).refused == Some(FrameShapeInvalid)
    ensures TakeAll(check, START, Segments([COLON, CR, LF, CR, LF, 122])) == START
  {
    LengthOfAsciiRun([122]);
    var none: Text := [];
    assert Lines(none) == [[]];
    assert [122][1..] == none;
    assert Lines([122]) == [[122] + none] + [];
    var whole: Text := [COLON, CR, LF, CR, LF, 122];
    assert Take(check, START, whole) == START;
    assert Boundary(whole).None?;
    assert Segments(whole) == [whole];
    LastTake(check, whole);
  }

  lemma CommentDrained(check: Check)
    ensures Drain(check, Pipe([COLON, LF, LF, 122], START)) == Pipe([122], START)
    ensures Drain(check, Pipe([COLON, CR, LF, CR, LF], START)) == Pipe([COLON, CR, LF, CR, LF], START)
  {
    CommentThenZ(check);
    hide Take;
    var t: Text := [COLON, LF, LF, 122];
    assert t[1..] == [LF, LF, 122] && t[..1] == [COLON] && t[3..] == [122];
    assert Boundary([LF, LF, 122]) == Some(0);
    assert Boundary(t) == Some(1);
    assert Boundary([122]) == None;
  }

  // ----- which blocks are events -----

  /** A line `id: ` and a line `data: `, in either order. */
  predicate BlockOf(block: Text, id: Text, data: Text) {
    && LF !in id && LF !in data
    && (|| block == [105, 100, 58, 32] + id + [10] + [100, 97, 116, 97, 58, 32] + data
        || block == [100, 97, 116, 97, 58, 32] + data + [10] + [105, 100, 58, 32] + id)
  }

  lemma {:induction false} OneLine(t: Text)
    ensures LF !in t ==> Lines(t) == [t]
    ensures |Lines(t)| == 1 ==> Lines(t) == [t] && LF !in t
    decreases |t|
  {
    if t != [] {
      OneLine(t[1..]);
      assert t == [t[0]] + t[1..];
    }
  }

  lemma {:induction false} LinesOfTwo(x: Text, y: Text)
    requires LF !in x && LF !in y
    ensures Lines(x + [LF] + y) == [x, y]
    decreases |x|
  {
    var t := x + [LF] + y;
    if x == [] {
      OneLine(y);
      assert t[1..] == y;
    } else {
      LinesOfTwo(x[1..], y);
      assert t[1..] == x[1..] + [LF] + y;
      assert x == [x[0]] + x[1..];
    }
  }

  lemma {:induction false} TwoLines(t: Text)
    requires |Lines(t)| == 2
    ensures t == Lines(t)[0] + [LF] + Lines(t)[1] && LF !in Lines(t)[0] && LF !in Lines(t)[1]
    decreases |t|
  {
    var rest := Lines(t[1..]);
    OneLine(t[1..]);
    if t[0] == LF {
      assert Lines(t) == [[]] + rest;
      hide Lines;
      assert t == [] + [LF] + t[1..];
    } else {
      assert Lines(t) == [[t[0]] + rest[0]] + rest[1..];
      TwoLines(t[1..]);
      hide Lines;
      OneUnitMore(t, rest[0], rest[1]);
    }
  }

  lemma OneUnitMore(t: Text, x: Text, y: Text)
    requires t != [] && t[0] != LF && t[1..] == x + [LF] + y && LF !in x
    ensures t == ([t[0]] + x) + [LF] + y && LF !in [t[0]] + x
  {
    assert t == [t[0]] + t[1..];
  }

  lemma KeptOfTwo(x: Text, y: Text, prefix: Text)
    ensures StartingWith([x, y], prefix) == (if prefix <= x then [x] else []) + (if prefix <= y then [y] else [])
  {
    var none: seq<Text>, last: seq<Text> := [], [y];
    assert [x, y][1..] == last && last[1..] == none;
    assert StartingWith(none, prefix) == [];
    assert StartingWith(last, prefix) == (if prefix <= y then [y] else []);
  }

  /** A block is read as the event with this id and data exactly if it is made of just these two lines,
      the id is new and has no line end in it, the data passes, and the block is within the limit. */
  lemma BlockReadExactly(check: Check, block: Text, ids: set<Text>, id: Text, data: Text)
    ensures ParseBlock(check, block, ids) == Ok(Event(id, data)) <==>
              && BlockOf(block, id, data) && Utf8Length(block) <= MAX_FRAME_BYTES
              && id != [] && CR !in id && id !in ids && check(data).None?
  {
    hide Utf8Length, Lines, StartingWith;
    if BlockOf(block, id, data) {
      FieldLines(block, id, data);
    }
    if ParseBlock(check, block, ids) == Ok(Event(id, data)) {
      LinesOfField(block, id, data);
    }
  }

  lemma FieldLines(block: Text, id: Text, data: Text)
    requires BlockOf(block, id, data)
    ensures |Lines(block)| == 2
    ensures StartingWith(Lines(block), ID_FIELD) == [ID_FIELD + id]
    ensures StartingWith(Lines(block), DATA_FIELD) == [DATA_FIELD + data]
    ensures (ID_FIELD + id)[4..] == id && (DATA_FIELD + data)[6..] == data
  {
    hide Lines, StartingWith;
    var (x, y) := (ID_FIELD + id, DATA_FIELD + data);
    assert x[0] == 105 && y[0] == 100;
    if block == ID_FIELD + id + [LF] + DATA_FIELD + data {
      assert block == x + [LF] + y;
      LinesOfTwo(x, y);
      KeptOfTwo(x, y, ID_FIELD);
      KeptOfTwo(x, y, DATA_FIELD);
    } else {
      assert block == y + [LF] + x;
      LinesOfTwo(y, x);
      KeptOfTwo(y, x, ID_FIELD);
      KeptOfTwo(y, x, DATA_FIELD);
    }
  }

  lemma LinesOfField(block: Text, id: Text, data: Text)
    requires var lines := Lines(block);
             var (idLines, dataLines) := (StartingWith(lines, ID_FIELD), StartingWith(lines, DATA_FIELD));
             |lines| == 2 && |idLines| == 1 && |dataLines| == 1 && idLines[0][4..] == id && dataLines[0][6..] == data
    ensures BlockOf(block, id, data)
  {
    hide Lines, StartingWith;
    TwoLines(block);
    var (x, y) := (Lines(block)[0], Lines(block)[1]);
    assert Lines(block) == [x, y];
    KeptOfTwo(x, y, ID_FIELD);
    KeptOfTwo(x, y, DATA_FIELD);
    if ID_FIELD <= x {
      assert x[0] == 105;
      assert x == ID_FIELD + id && y == DATA_FIELD + data;
      assert block == ID_FIELD + id + [LF] + DATA_FIELD + data;
    } else {
      assert ID_FIELD <= y && y[0] == 105;
      assert DATA_FIELD <= x;
      assert y == ID_FIELD + id && x == DATA_FIELD + data;
      assert block == DATA_FIELD + data + [LF] + ID_FIELD + id;
    }
  }

  // ----- what is read -----

  ghost predicate IdsDiffer(s: Reading) {
    && (forall i, j :: 0 <= i < j < |s.events| ==> s.events[i].id != s.events[j].id)
    && (forall i :: 0 <= i < |s.events| ==> s.events[i].id in s.ids)
  }

  lemma {:induction false} TakeAllKeepsIds(check: Check, s: Reading, raws: seq<Text>)
    requires IdsDiffer(s)
    ensures IdsDiffer(TakeAll(check, s, raws))
    decreases |raws|
  {
    hide Trim, Utf8Length, Lines, StartingWith;
    if raws != [] {
      TakeAllKeepsIds(check, Take(check, s, raws[0]), raws[1..]);
    }
  }

  /** No id is delivered twice, whether or not the reading is refused in the end. */
  lemma IdsAreUnique(check: Check, text: Text)
    ensures IdsDiffer(WholeReading(check, text))
  {
    TakeAllKeepsIds(check, START, Segments(Normalized(text)));
  }
}
