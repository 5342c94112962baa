/** The head of an accepted gateway bundle, stdio journal or runtime journal determines its history. */
module JournalChains {
  import opened Common
  import HashChain
  import StdioJournal
  import RuntimeJournal
  import RuntimeTheorems
  import GatewayFrames
  import GatewayRecording
  import GatewaySoundness

  // ----- stdio -----

  function StdioBodies(receipts: seq<StdioJournal.Receipt>): (bodies: seq<StdioJournal.ReceiptBody>) {
    seq(|receipts|, i requires 0 <= i < |receipts| => receipts[i].body)
  }

  lemma StdioReceiptAt(h: StdioJournal.Hash, header: StdioJournal.Header, receipts: seq<StdioJournal.Receipt>, i: nat)
    requires StdioJournal.Accepted(h, header, receipts) && i < |receipts|
    ensures receipts[i].body.sequence == i
    ensures receipts[i].sha == h(StdioJournal.ReceiptContent(receipts[i].body))
    ensures receipts[i].body.previous == StdioJournal.HeadOf(receipts[..i])
  {
    hide StdioJournal.EventRaises, StdioJournal.WellFormed;
    assert StdioJournal.Clean(h, header, receipts, i);
    assert !StdioJournal.Raises(h, header, receipts, i, StdioJournal.SequenceGap);
    assert !StdioJournal.Raises(h, header, receipts, i, StdioJournal.DigestMismatch);
    assert !StdioJournal.Raises(h, header, receipts, i, StdioJournal.PredecessorMismatch);
  }

  lemma StdioIsChained(h: StdioJournal.Hash, header: StdioJournal.Header, receipts: seq<StdioJournal.Receipt>)
    requires StdioJournal.Accepted(h, header, receipts)
    ensures var hash := (b: StdioJournal.ReceiptBody) => h(StdioJournal.ReceiptContent(b));
            var bodies := StdioBodies(receipts);
            && HashChain.Chained(hash, (b: StdioJournal.ReceiptBody) => b.previous, GENESIS, bodies)
            && HashChain.Head(hash, GENESIS, bodies) == StdioJournal.HeadOf(receipts)
            && (forall i :: 0 <= i < |bodies| ==> bodies[i].sequence == i)
            && (forall i :: 0 <= i < |bodies| ==> receipts[i] == StdioJournal.Receipt(bodies[i], hash(bodies[i])))
  {
    var hash := (b: StdioJournal.ReceiptBody) => h(StdioJournal.ReceiptContent(b));
    var bodies := StdioBodies(receipts);
    forall i | 0 <= i < |bodies|
      ensures bodies[i].previous == HashChain.Head(hash, GENESIS, bodies[..i])
      ensures bodies[i].sequence == i && receipts[i] == StdioJournal.Receipt(bodies[i], hash(bodies[i]))
    {
      StdioReceiptAt(h, header, receipts, i);
      if i > 0 { StdioReceiptAt(h, header, receipts, i - 1); }
    }
    if receipts != [] { StdioReceiptAt(h, header, receipts, |receipts| - 1); }
  }

  /** Two accepted stdio journals with one head are one journal, unless one is empty and some receipt
      hashes to the sixty-four zeroes. */
  lemma StdioHeadDeterminesHistory(h: StdioJournal.Hash, header: StdioJournal.Header, other: StdioJournal.Header,
                                   a: seq<StdioJournal.Receipt>, b: seq<StdioJournal.Receipt>)
    requires CollisionFree(h)
    requires StdioJournal.Accepted(h, header, a) && StdioJournal.Accepted(h, other, b)
    requires StdioJournal.HeadOf(a) == StdioJournal.HeadOf(b)
    ensures a == b || ((a == [] || b == []) && exists body :: h(StdioJournal.ReceiptContent(body)) == GENESIS)
  {
    var hash := (r: StdioJournal.ReceiptBody) => h(StdioJournal.ReceiptContent(r));
    StdioIsChained(h, header, a);
    StdioIsChained(h, other, b);
    assert CollisionFree(hash) by {
      forall x, y | hash(x) == hash(y)
        ensures x == y
      {
        assert StdioJournal.ReceiptContent(x) == StdioJournal.ReceiptContent(y);
      }
    }
    hide StdioJournal.Accepted, CollisionFree, HashChain.Chained;
    HashChain.SameHeadNumbered(hash, (r: StdioJournal.ReceiptBody) => r.previous, (r: StdioJournal.ReceiptBody) => r.sequence,
                               GENESIS, StdioBodies(a), StdioBodies(b));
    if StdioBodies(a) == StdioBodies(b) {
      assert a == b;
    } else {
      var body :| hash(body) == GENESIS;
      assert h(StdioJournal.ReceiptContent(body)) == GENESIS;
    }
  }

  // ----- runtime -----

  function RuntimeBodies(receipts: seq<RuntimeJournal.Receipt>): (bodies: seq<RuntimeJournal.ReceiptBody>) {
    seq(|receipts|, i requires 0 <= i < |receipts| => receipts[i].content)
  }

  lemma RuntimeIsChained(h: RuntimeJournal.Hash, header: RuntimeJournal.Header, receipts: seq<RuntimeJournal.Receipt>)
    requires RuntimeJournal.Accepted(h, header, receipts)
    ensures var hash := (b: RuntimeJournal.ReceiptBody) => h(RuntimeJournal.ReceiptContent(b));
            var bodies := RuntimeBodies(receipts);
            && HashChain.Chained(hash, (b: RuntimeJournal.ReceiptBody) => b.previous, GENESIS, bodies)
            && HashChain.Head(hash, GENESIS, bodies) == RuntimeJournal.HeadOf(receipts)
            && (forall i :: 0 <= i < |bodies| ==> bodies[i].sequence == i)
            && (forall i :: 0 <= i < |bodies| ==> receipts[i] == RuntimeJournal.Receipt(bodies[i], hash(bodies[i])))
  {
    var hash := (b: RuntimeJournal.ReceiptBody) => h(RuntimeJournal.ReceiptContent(b));
    var bodies := RuntimeBodies(receipts);
    forall i | 0 <= i < |bodies|
      ensures bodies[i].previous == HashChain.Head(hash, GENESIS, bodies[..i])
      ensures bodies[i].sequence == i && receipts[i] == RuntimeJournal.Receipt(bodies[i], hash(bodies[i]))
    {
      RuntimeTheorems.ReceiptAt(h, header, receipts, i);
      if i > 0 { RuntimeTheorems.ReceiptAt(h, header, receipts, i - 1); }
    }
    if receipts != [] { RuntimeTheorems.ReceiptAt(h, header, receipts, |receipts| - 1); }
  }

  /** Two accepted runtime journals with one head are one journal, unless one is empty and some receipt
      hashes to the genesis value. */
  lemma RuntimeHeadDeterminesHistory(h: RuntimeJournal.Hash, header: RuntimeJournal.Header, other: RuntimeJournal.Header,
                                     a: seq<RuntimeJournal.Receipt>, b: seq<RuntimeJournal.Receipt>)
    requires CollisionFree(h)
    requires RuntimeJournal.Accepted(h, header, a) && RuntimeJournal.Accepted(h, other, b)
    requires RuntimeJournal.HeadOf(a) == RuntimeJournal.HeadOf(b)
    ensures a == b || ((a == [] || b == []) && exists body :: h(RuntimeJournal.ReceiptContent(body)) == GENESIS)
    ensures a == b && a != [] ==> header == other
  {
    var hash := (r: RuntimeJournal.ReceiptBody) => h(RuntimeJournal.ReceiptContent(r));
    RuntimeIsChained(h, header, a);
    RuntimeIsChained(h, other, b);
    assert CollisionFree(hash) by {
      forall x, y | hash(x) == hash(y)
        ensures x == y
      {
        assert RuntimeJournal.ReceiptContent(x) == RuntimeJournal.ReceiptContent(y);
      }
    }
    if a == b && a != [] {
      RuntimeTheorems.ReceiptAt(h, header, a, 0);
      RuntimeTheorems.ReceiptAt(h, other, b, 0);
      assert RuntimeJournal.HeaderContent(header.body) == RuntimeJournal.HeaderContent(other.body);
    }
    hide RuntimeJournal.Accepted, CollisionFree, HashChain.Chained;
    HashChain.SameHeadNumbered(hash, (r: RuntimeJournal.ReceiptBody) => r.previous, (r: RuntimeJournal.ReceiptBody) => r.sequence,
                               GENESIS, RuntimeBodies(a), RuntimeBodies(b));
    if RuntimeBodies(a) == RuntimeBodies(b) {
      assert a == b;
    } else {
      var body :| hash(body) == GENESIS;
      assert h(RuntimeJournal.ReceiptContent(body)) == GENESIS;
    }
  }

  // ----- gateway -----

  function GatewayBodies(frames: seq<GatewayFrames.Frame>): (bodies: seq<GatewayFrames.FrameBody>) {
    seq(|frames|, i requires 0 <= i < |frames| => frames[i].body)
  }

  lemma GatewayIsChained(h: GatewayFrames.Hash, m: GatewayRecording.Manifest, frames: seq<GatewayFrames.Frame>)
    requires GatewaySoundness.Accepted(h, m, frames)
    ensures var hash := (b: GatewayFrames.FrameBody) => h(GatewayFrames.FrameContent(b));
            var bodies := GatewayBodies(frames);
            && HashChain.Chained(hash, (b: GatewayFrames.FrameBody) => b.previous, GENESIS, bodies)
            && HashChain.Head(hash, GENESIS, bodies) == GatewayFrames.HeadOf(frames)
            && (forall i :: 0 <= i < |bodies| ==> bodies[i].sequence == i)
            && (forall i :: 0 <= i < |bodies| ==> frames[i] == GatewayFrames.Frame(bodies[i], hash(bodies[i])))
  {
    GatewaySoundness.AcceptedIsChained(h, m, frames);
    hide GatewaySoundness.Accepted, GatewayFrames.PolicyRaises, GatewayFrames.ActionRaises, GatewayFrames.KnownProvider,
         GatewayFrames.ModelPin, StableId;
    var hash := (b: GatewayFrames.FrameBody) => h(GatewayFrames.FrameContent(b));
    var bodies := GatewayBodies(frames);
    forall i | 0 <= i < |bodies|
      ensures frames[i] == GatewayFrames.Frame(bodies[i], hash(bodies[i]))
    {
      assert GatewayFrames.Clean(h, frames[i]);
      assert !GatewayFrames.Raises(h, GatewayFrames.FrameDigestMismatch, frames[i]);
    }
  }

  /** Two accepted gateway bundles with one head hold the same frames. */
  lemma GatewayHeadDeterminesHistory(h: GatewayFrames.Hash, m: GatewayRecording.Manifest, n: GatewayRecording.Manifest,
                                     a: seq<GatewayFrames.Frame>, b: seq<GatewayFrames.Frame>)
    requires GatewayFrames.FrameCollisionFree(h)
    requires GatewaySoundness.Accepted(h, m, a) && GatewaySoundness.Accepted(h, n, b)
    requires GatewayFrames.HeadOf(a) == GatewayFrames.HeadOf(b)
    ensures a == b
  {
    hide GatewaySoundness.Accepted;
    var hash := (f: GatewayFrames.FrameBody) => h(GatewayFrames.FrameContent(f));
    GatewayIsChained(h, m, a);
    GatewayIsChained(h, n, b);
    assert CollisionFree(hash);
    hide CollisionFree, HashChain.Chained;
    HashChain.SameHeadNumbered(hash, (f: GatewayFrames.FrameBody) => f.previous, (f: GatewayFrames.FrameBody) => f.sequence,
                               GENESIS, GatewayBodies(a), GatewayBodies(b));
    GatewaySoundness.AcceptedIsNotEmpty(h, m, a);
    GatewaySoundness.AcceptedIsNotEmpty(h, n, b);
    assert |GatewayBodies(a)| == |a| && |GatewayBodies(b)| == |b|;
    assert a == b;
  }
}
