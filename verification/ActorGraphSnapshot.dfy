/** The frames that are analysed are read a second time; they are bound to the verified bundle by count and
    chain head (src/actor-graph.ts). */
module ActorGraphSnapshot {
  import opened Common
  import opened TextUnits
  import HashChain

  /** A frame body: session, number, predecessor, and the text of all its other fields. */
  datatype FrameBody = FrameBody(session: string, sequence: int, previous: Digest, fields: Text)

  datatype Frame = Frame(body: FrameBody, sha: Digest)

  type Hash = FrameBody -> Digest

  /** What a single frame is checked for on its own: its digest, and the form of its other fields. */
  type FieldCheck = Text -> bool

  predicate FrameOk(h: Hash, check: FieldCheck, f: Frame) { f.sha == h(f.body) && check(f.body.fields) }

  datatype Verification = Verification(session: string, frameCount: nat, chainHead: Digest)

  datatype SnapshotError =
    | FrameCountMismatch
    | FrameInvalid(index: nat)
    | ChainInvalid(index: nat)
    | SessionMismatch(index: nat)
    | ChainHeadMismatch

  function HeadOf(frames: seq<Frame>): Digest {
    if frames == [] then GENESIS else frames[|frames| - 1].sha
  }

  ghost predicate ChainOk(h: Hash, check: FieldCheck, session: string, frames: seq<Frame>) {
    forall i {:trigger frames[i]} :: 0 <= i < |frames| ==>
      && FrameOk(h, check, frames[i])
      && frames[i].body.sequence == i
      && frames[i].body.previous == HeadOf(frames[..i])
      && frames[i].body.session == session
  }

  /** assertFrameSnapshotMatchesVerification: None, or what it throws. */
  method AssertFrameSnapshotMatchesVerification(h: Hash, check: FieldCheck, frames: seq<Frame>, v: Verification)
    returns (thrown: Option<SnapshotError>)
    ensures thrown.None? <==> |frames| == v.frameCount && ChainOk(h, check, v.session, frames) && HeadOf(frames) == v.chainHead
  {
    if |frames| != v.frameCount { return Some(FrameCountMismatch); }
    var head := GENESIS;
    assert frames[..|frames|] == frames;
    for i := 0 to |frames|
      invariant head == HeadOf(frames[..i])
      invariant forall k {:trigger frames[k]} :: 0 <= k < i ==>
        && FrameOk(h, check, frames[k]) && frames[k].body.sequence == k
        && frames[k].body.previous == HeadOf(frames[..k]) && frames[k].body.session == v.session
    {
      var f := frames[i];
      if !FrameOk(h, check, f) { return Some(FrameInvalid(i)); }
      if f.body.sequence != i || f.body.previous != head { return Some(ChainInvalid(i)); }
      if f.body.session != v.session { return Some(SessionMismatch(i)); }
      assert frames[..i + 1][i] == f;
      head := f.sha;
    }
    if head != v.chainHead { return Some(ChainHeadMismatch); }
    return None;
  }

  function Bodies(frames: seq<Frame>): seq<FrameBody> {
    seq(|frames|, i requires 0 <= i < |frames| => frames[i].body)
  }

  lemma IsChained(h: Hash, check: FieldCheck, session: string, frames: seq<Frame>)
    requires ChainOk(h, check, session, frames)
    ensures HashChain.Chained(h, (b: FrameBody) => b.previous, GENESIS, Bodies(frames))
    ensures HashChain.Head(h, GENESIS, Bodies(frames)) == HeadOf(frames)
  {
    var bodies := Bodies(frames);
    forall i | 0 <= i < |bodies|
      ensures bodies[i].previous == HashChain.Head(h, GENESIS, bodies[..i])
    {
      assert frames[i].body.previous == HeadOf(frames[..i]);
      if i > 0 { assert FrameOk(h, check, frames[i - 1]); }
    }
  }

  /** However the file changed between the two reads, a snapshot that passes is the verified sequence of
      frames: count and head leave no other. */
  lemma SnapshotIsVerifiedBundle(h: Hash, check: FieldCheck, session: string, verified: seq<Frame>, snapshot: seq<Frame>)
    requires CollisionFree(h)
    requires ChainOk(h, check, session, verified) && ChainOk(h, check, session, snapshot)
    requires |snapshot| == |verified| && HeadOf(snapshot) == HeadOf(verified)
    ensures snapshot == verified
  {
    IsChained(h, check, session, verified);
    IsChained(h, check, session, snapshot);
    HashChain.SameHead(h, (b: FrameBody) => b.previous, GENESIS, Bodies(verified), Bodies(snapshot));
    forall i | 0 <= i < |snapshot|
      ensures snapshot[i] == verified[i]
    {
      assert Bodies(snapshot)[i] == Bodies(verified)[i];
      assert FrameOk(h, check, snapshot[i]) && FrameOk(h, check, verified[i]);
    }
  }
}
