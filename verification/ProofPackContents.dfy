/** What the aggregates of an accepted proof pack say, number by number (src/proof-pack.ts). */
module ProofPackContents {
  import opened Common
  import opened TextUnits
  import opened JsonStrings
  import opened JsonText
  import opened JsonForms
  import opened CanonicalValues
  import opened CanonicalOrder
  import opened CanonicalDigest
  import opened PackChain
  import opened ProofPack
  import opened ProofPackTheorems

  // ----- rounded numbers -----

  /** The whole number nearest to a scaled one, on a tie the even one. */
  predicate Nearest(units: int, exact: real, scale: real) {
    && -0.5 <= units as real - exact * scale <= 0.5
    && (units as real - exact * scale in {0.5, -0.5} ==> units % 2 == 0)
  }

  ghost predicate Rounded(rounded: real, exact: real, scale: real)
    requires scale > 0.0
  {
    exists units :: Nearest(units, exact, scale) && rounded == units as real / scale
  }

  /** Exploits per thousand attempts, to one place; zero without attempts. */
  ghost predicate DensityHolds(density: real, exploits: nat, attempts: nat) {
    if attempts == 0 then density == 0.0 else Rounded(density, (1000 * exploits) as real / attempts as real, 10.0)
  }

  lemma RoundedTo(value: real, places: nat)
    ensures Rounded(RoundHalfEven(value, places), value, Scale(places))
  {
    hide RoundUnits, Scale;
    RoundUnitsIsNearest(Scaled(value, places));
    assert Nearest(RoundUnits(Scaled(value, places)), value, Scale(places));
  }

  lemma Scales()
    ensures Scale(1) == 10.0 && Scale(4) == 10000.0
  {
    assert Scale(2) == 100.0 && Scale(3) == 1000.0;
  }

  lemma DensityOfHolds(exploits: nat, attempts: nat)
    ensures DensityHolds(DensityOf(exploits, attempts), exploits, attempts)
  {
    hide RoundHalfEven, Rounded, Scale;
    Scales();
    if attempts > 0 { RoundedTo((1000 * exploits) as real / attempts as real, 1); }
  }

  /** The cost of a sequence of episodes is the sum over its parts, down to single episodes. */
  lemma {:induction false} CostAdds(a: seq<Episode>, b: seq<Episode>)
    ensures CostOf(a + b) == CostOf(a) + CostOf(b)
    ensures CostOf([]) == 0.0 && (|b| == 1 ==> CostOf(b) == b[0].cost)
    decreases |b|
  {
    if b == [] {
      assert a + b == a;
    } else {
      var init := b[..|b| - 1];
      CostAdds(a, init);
      assert (a + b)[..|a + b| - 1] == a + init;
      if |b| == 1 { assert init == []; }
    }
  }

  // ----- buckets -----

  function Members(episodes: seq<Episode>, key: KeyOf, group: Text): set<int> {
    set i | 0 <= i < |episodes| && key(episodes[i]) == group
  }

  function MemberExploits(episodes: seq<Episode>, key: KeyOf, group: Text): set<int> {
    set i | 0 <= i < |episodes| && key(episodes[i]) == group && episodes[i].exploit
  }

  lemma MembersStep(init: seq<Episode>, e: Episode, key: KeyOf, group: Text)
    ensures |Members(init + [e], key, group)| == |Members(init, key, group)| + One(key(e) == group)
  {
    var (n, grown) := (|init|, init + [e]);
    assert grown[n] == e && forall i :: 0 <= i < n ==> grown[i] == init[i];
    assert Members(grown, key, group) == Members(init, key, group) + (if key(e) == group then {n} else {});
  }

  lemma ExploitsStep(init: seq<Episode>, e: Episode, key: KeyOf, group: Text)
    ensures |MemberExploits(init + [e], key, group)| == |MemberExploits(init, key, group)| + One(key(e) == group && e.exploit)
  {
    var (n, grown) := (|init|, init + [e]);
    assert grown[n] == e && forall i :: 0 <= i < n ==> grown[i] == init[i];
    assert MemberExploits(grown, key, group)
           == MemberExploits(init, key, group) + (if key(e) == group && e.exploit then {n} else {});
  }

  lemma {:induction false} LabelledCounts(episodes: seq<Episode>, key: KeyOf, group: Text)
    ensures |Labelled(episodes, key, group)| == |Members(episodes, key, group)|
    ensures Exploits(Labelled(episodes, key, group)) == |MemberExploits(episodes, key, group)|
  {
    if episodes != [] {
      var (init, e) := (episodes[..|episodes| - 1], episodes[|episodes| - 1]);
      LabelledCounts(init, key, group);
      MembersStep(init, e, key, group);
      ExploitsStep(init, e, key, group);
      assert init + [e] == episodes;
      hide Members, MemberExploits;
      LabelledStep(init, e, key, group);
    }
  }

  /** The aggregate of a label: its episodes, its exploits, and their density. */
  ghost predicate BucketHolds(episodes: seq<Episode>, key: KeyOf, b: Keyed<Aggregate>) {
    && b.value.attempts == |Members(episodes, key, b.key)| && b.value.attempts > 0
    && b.value.exploits == |MemberExploits(episodes, key, b.key)|
    && DensityHolds(b.value.density, b.value.exploits, b.value.attempts)
  }

  /** One aggregate for each label that occurs, in strict label order. */
  ghost predicate GroupingHolds(episodes: seq<Episode>, key: KeyOf, buckets: seq<Keyed<Aggregate>>) {
    && (forall i :: 0 <= i < |buckets| ==> BucketHolds(episodes, key, buckets[i]))
    && (forall i, j :: 0 <= i < j < |buckets| ==> Before(buckets[i].key, buckets[j].key))
    && (forall i :: 0 <= i < |episodes| ==> exists j :: 0 <= j < |buckets| && buckets[j].key == key(episodes[i]))
  }

  lemma {:induction false} EntryAt(episodes: seq<Episode>, key: KeyOf, labels: seq<Text>)
    ensures |Entries(episodes, key, labels)| == |labels|
    ensures forall i :: 0 <= i < |labels| ==>
              Entries(episodes, key, labels)[i] == Keyed(labels[i], AggregateOf(Labelled(episodes, key, labels[i])))
  {
    hide AggregateOf, Labelled;
    if labels != [] { EntryAt(episodes, key, labels[..|labels| - 1]); }
  }

  lemma EntryHolds(episodes: seq<Episode>, key: KeyOf, group: Text)
    requires group in Labels(episodes, key)
    ensures BucketHolds(episodes, key, Keyed(group, AggregateOf(Labelled(episodes, key, group))))
  {
    hide DensityOf, DensityHolds, Labels, Labelled, Exploits, Members, MemberExploits;
    LabelsOccur(episodes, key, group);
    LabelledCounts(episodes, key, group);
    DensityOfHolds(Exploits(Labelled(episodes, key, group)), |Labelled(episodes, key, group)|);
  }

  lemma BucketsHold(episodes: seq<Episode>, key: KeyOf)
    ensures GroupingHolds(episodes, key, Buckets(episodes, key))
  {
    var labels := Labels(episodes, key);
    var entries := Entries(episodes, key, labels);
    EntryAt(episodes, key, labels);
    LabelsCover(episodes, key);
    SortKeeps(entries);
    hide Labels, Entries, Labelled, AggregateOf, BucketHolds, SortByKey;
    var buckets := Buckets(episodes, key);
    assert buckets == SortByKey(entries);
    forall i | 0 <= i < |buckets|
      ensures BucketHolds(episodes, key, buckets[i])
    {
      assert buckets[i] in multiset(buckets);
      var j :| 0 <= j < |entries| && entries[j] == buckets[i];
      EntryHolds(episodes, key, labels[j]);
    }
    forall i | 0 <= i < |episodes|
      ensures exists j :: 0 <= j < |buckets| && buckets[j].key == key(episodes[i])
    {
      var j :| 0 <= j < |labels| && labels[j] == key(episodes[i]);
      assert entries[j] in multiset(entries);
      assert entries[j] in buckets;
    }
  }

  // ----- the pack -----

  function ExploitsIn(episodes: seq<Episode>): set<int> {
    set i | 0 <= i < |episodes| && episodes[i].exploit
  }

  lemma {:induction false} ExploitsCount(episodes: seq<Episode>)
    ensures Exploits(episodes) == |ExploitsIn(episodes)|
  {
    if episodes != [] {
      var (n, e) := (|episodes| - 1, episodes[|episodes| - 1]);
      ExploitsCount(episodes[..n]);
      assert ExploitsIn(episodes) == ExploitsIn(episodes[..n]) + (if e.exploit then {n} else {});
    }
  }

  /** The episodes of the frames, read and in range, and the meaning of an exploit. */
  predicate EpisodesHold(read: Reader, frames: seq<Frame>, episodes: seq<Episode>) {
    && |episodes| == |frames|
    && forall i :: 0 <= i < |frames| ==>
         && read(frames[i].episode) == Some(episodes[i])
         && 0.0 <= episodes[i].cost && 0.0 <= episodes[i].score <= 1.0
         && (episodes[i].exploit <==> episodes[i].oracleWrong && episodes[i].judgePass)
  }

  lemma {:induction false} EpisodesRead(read: Reader, frames: seq<Frame>)
    requires forall i :: 0 <= i < |frames| ==> Sound(read, frames[i])
    ensures EpisodesHold(read, frames, Episodes(read, frames))
  {
    if frames != [] {
      var n := |frames| - 1;
      EpisodesRead(read, frames[..n]);
      assert Sound(read, frames[n]);
      var episodes := Episodes(read, frames);
      assert forall i :: 0 <= i < n ==> frames[..n][i] == frames[i];
    }
  }

  /** In an accepted pack every declared number is the one its episodes give: totals, cost, the groupings by
      rung, by transform and by benchmark, where an episode without one counts under that of the manifest, or
      under "?", and the histogram of exploit scores. */
  lemma AcceptedContents(h: TextHash, read: Reader, m: Manifest, frames: seq<Frame>) returns (episodes: seq<Episode>)
    requires Accepted(h, read, m, frames)
    ensures frames != [] && EpisodesHold(read, frames, episodes)
    ensures var a := m.aggregates;
            && a.totals.attempts == |frames| && a.totals.exploits == |ExploitsIn(episodes)|
            && DensityHolds(a.totals.density, a.totals.exploits, a.totals.attempts)
            && Rounded(a.totalCost, CostOf(episodes), 10000.0)
            && GroupingHolds(episodes, (e: Episode) => e.rung, a.byRung)
            && GroupingHolds(episodes, (e: Episode) => e.transform, a.byTransform)
            && a.histogram == Histogram(|Scored(episodes, 0.0, 0.25)|, |Scored(episodes, 0.25, 0.5)|,
                                        |Scored(episodes, 0.5, 0.75)|, |Scored(episodes, 0.75, 1.01)|)
    ensures exists key :: Benchmarked(m.benchmark, key) && GroupingHolds(episodes, key, m.aggregates.byBenchmark)
  {
    AcceptedIsSound(h, read, m, frames);
    NotEmpty(h, read, m, frames);
    episodes := Episodes(read, frames);
    hide Accepted, Sound, Buckets, HistogramOf, Exploits, DensityOf, RoundHalfEven, GroupingHolds, DensityHolds, Rounded,
         CostOf, ExploitsIn, Scale, Scored, Episodes, Benchmarked;
    EpisodesRead(read, frames);
    ExploitsCount(episodes);
    DensityOfHolds(Exploits(episodes), |episodes|);
    Scales();
    RoundedTo(CostOf(episodes), 4);
    BucketsHold(episodes, (e: Episode) => e.rung);
    BucketsHold(episodes, (e: Episode) => e.transform);
    BucketsHold(episodes, BenchmarkKey(m.benchmark));
    BenchmarkKeyHolds(m.benchmark);
    HistogramRanges(episodes);
  }

  /** The benchmark of an episode, or else that of the manifest, or else "?". */
  ghost predicate Benchmarked(declared: Option<Text>, key: KeyOf) {
    forall e :: key(e) == if e.benchmark.Some? then e.benchmark.value else if declared.Some? then declared.value else [63]
  }

  lemma BenchmarkKeyHolds(declared: Option<Text>)
    ensures Benchmarked(declared, BenchmarkKey(declared))
  {
  }

  /** A pack is accepted exactly if it has frames, each one links the one before, every episode is in range and
      an exploit exactly if the judge was fooled, the manifest declares the last head, and it declares what the
      episodes give. */
  lemma AcceptedExactly(h: TextHash, read: Reader, m: Manifest, frames: seq<Frame>)
    ensures Accepted(h, read, m, frames) <==>
              && frames != [] && EpisodesHold(read, frames, Episodes(read, frames))
              && (forall i :: 0 <= i < |frames| ==> LinkedAt(h, frames, i))
              && m.chainHead == frames[|frames| - 1].sha
              && m.aggregates == DeriveAggregates(Episodes(read, frames), m.benchmark)
  {
    hide Accepted, DeriveAggregates, EpisodesHold, LinkText, SeedText, Episodes, LinkedAt, HeadAfter;
    if Accepted(h, read, m, frames) {
      AcceptedIsSound(h, read, m, frames);
      NotEmpty(h, read, m, frames);
      EpisodesRead(read, frames);
      forall i | 0 <= i < |frames| ensures LinkedAt(h, frames, i) { AcceptedChain(h, read, m, frames, i); LinkedMeans(h, frames, i); }
      AcceptedChain(h, read, m, frames, 0);
    }
    if frames != [] && EpisodesHold(read, frames, Episodes(read, frames))
       && (forall i :: 0 <= i < |frames| ==> LinkedAt(h, frames, i))
       && m.chainHead == frames[|frames| - 1].sha
       && m.aggregates == DeriveAggregates(Episodes(read, frames), m.benchmark) {
      NothingBlocks(h, read, m, frames);
    }
  }

  predicate LinkedAt(h: TextHash, frames: seq<Frame>, i: nat)
    requires i < |frames|
  {
    frames[i].sha == h(LinkText(if i == 0 then h(SeedText()) else frames[i - 1].sha, frames[i].episode))
  }

  lemma LinkedMeans(h: TextHash, frames: seq<Frame>, i: nat)
    requires i < |frames|
    ensures LinkedAt(h, frames, i) <==>
              frames[i].sha == h(LinkText(if i == 0 then h(SeedText()) else frames[i - 1].sha, frames[i].episode))
  {
  }

  lemma {:induction false} HeadsAreShas(h: TextHash, frames: seq<Frame>, n: nat)
    requires n <= |frames| && forall i :: 0 <= i < |frames| ==> LinkedAt(h, frames, i)
    ensures HeadAfter(h, frames, n) == if n == 0 then h(SeedText()) else frames[n - 1].sha
    decreases n
  {
    hide LinkText, SeedText;
    if n > 0 {
      HeadsAreShas(h, frames, n - 1);
      assert LinkedAt(h, frames, n - 1);
    }
  }

  lemma EpisodeSound(read: Reader, f: Frame, e: Episode)
    requires read(f.episode) == Some(e) && 0.0 <= e.cost && 0.0 <= e.score <= 1.0
    requires e.exploit <==> e.oracleWrong && e.judgePass
    ensures Sound(read, f)
  {
  }

  lemma NothingBlocks(h: TextHash, read: Reader, m: Manifest, frames: seq<Frame>)
    requires frames != [] && EpisodesHold(read, frames, Episodes(read, frames))
    requires forall i :: 0 <= i < |frames| ==> LinkedAt(h, frames, i)
    requires m.chainHead == frames[|frames| - 1].sha
    requires m.aggregates == DeriveAggregates(Episodes(read, frames), m.benchmark)
    ensures Accepted(h, read, m, frames)
  {
    hide DeriveAggregates, LinkText, SeedText, HeadAfter, LinkedAt, Episodes;
    forall i | 0 <= i < |frames|
      ensures Sound(read, frames[i]) && frames[i].sha == HeadAfter(h, frames, i + 1)
    {
      EpisodeSound(read, frames[i], Episodes(read, frames)[i]);
      HeadsAreShas(h, frames, i + 1);
    }
    HeadsAreShas(h, frames, |frames|);
    forall b
      ensures !Blocks(h, read, m, frames, b)
    {
    }
  }

  lemma NotEmpty(h: TextHash, read: Reader, m: Manifest, frames: seq<Frame>)
    requires Accepted(h, read, m, frames)
    ensures frames != []
  {
    hide HeadAfter, DeriveAggregates;
    assert !Blocks(h, read, m, frames, FrameLogEmpty);
  }

  /** And every frame's digest is the hash of its link text, the first one's head being that of the seed text;
      the manifest declares the last. */
  lemma AcceptedChain(h: TextHash, read: Reader, m: Manifest, frames: seq<Frame>, i: nat)
    requires Accepted(h, read, m, frames) && i < |frames|
    ensures frames[i].sha == h(LinkText(if i == 0 then h(SeedText()) else frames[i - 1].sha, frames[i].episode))
    ensures m.chainHead == frames[|frames| - 1].sha
  {
    hide DeriveAggregates, LinkText, SeedText, HeadAfter;
    assert !Blocks(h, read, m, frames, DigestMismatch(i)) && !Blocks(h, read, m, frames, ChainHeadMismatch);
    assert !Blocks(h, read, m, frames, DigestMismatch(|frames| - 1));
    if i > 0 { assert !Blocks(h, read, m, frames, DigestMismatch(i - 1)); }
    HeadStep(h, frames, i);
  }

  lemma HeadStep(h: TextHash, frames: seq<Frame>, i: nat)
    requires i < |frames|
    ensures HeadAfter(h, frames, 0) == h(SeedText())
    ensures HeadAfter(h, frames, i + 1) == h(LinkText(HeadAfter(h, frames, i), frames[i].episode))
  {
  }

  // ----- the texts that are hashed -----

  predicate NeedsNoEscape(t: Text) {
    forall i :: 0 <= i < |t| ==> 32 <= t[i] < 128 && t[i] != 34 && t[i] != 92
  }

  lemma {:induction false} EscapedAscii(t: Text)
    requires NeedsNoEscape(t)
    ensures Escaped(t) == t
    decreases |t|
  {
    if t != [] {
      EscapedAscii(t[1..]);
      assert EscapeUnit(t[0]) == [t[0]];
      assert t == [t[0]] + t[1..];
    }
  }

  predicate LowerHexDigit(u: Unit) { 48 <= u <= 57 || 97 <= u <= 102 }

  lemma {:induction false} HexDigitsShown(d: nat, width: nat)
    ensures |HexDigits(d, width)| >= width && NeedsNoEscape(HexDigits(d, width))
    ensures forall i :: 0 <= i < |HexDigits(d, width)| ==> LowerHexDigit(HexDigits(d, width)[i])
    decreases d, width
  {
    if d != 0 || width != 0 {
      HexDigitsShown(d / 16, if width == 0 then 0 else width - 1);
      assert LowerHexDigit(HexDigit(d % 16));
    }
  }

  /** A digest is written in at least sixty-four lower-case hexadecimal digits. */
  lemma DigestForm(d: Digest)
    ensures |DigestText(d)| >= 64 && NeedsNoEscape(DigestText(d))
    ensures forall i :: 0 <= i < |DigestText(d)| ==> LowerHexDigit(DigestText(d)[i])
  {
    HexDigitsShown(d as nat, 64);
    hide HexDigits, LowerHexDigit, NeedsNoEscape;
    assert DigestText(d) == HexDigits(d as nat, 64);
  }

  lemma TextOfLink(prev: Digest, episode: NormalJson)
    ensures Plain(episode) && Plain(JString(DigestText(prev)))
    ensures var members := [Member(EPISODE, episode)] + [Member(PREV, JString(DigestText(prev)))];
            Plain(JObject(members)) && LinkText(prev, episode) == Encode(JObject(members)) && TextOf(episode) == Encode(episode)
  {
    hide Encode;
    CanonicalIsPlain(episode);
    CanonicalIsPlain(LinkValue(prev, episode));
    assert LinkValue(prev, episode).members == [Member(EPISODE, episode)] + [Member(PREV, JString(DigestText(prev)))];
  }

  /** The head before stands after the episode. */
  lemma LinkForm(prev: Digest, episode: NormalJson)
    ensures LinkText(prev, episode) ==
              [123] + ([34] + Ascii("episode") + [34] + [58] + TextOf(episode)) + [44]
              + ([34] + Ascii("prev") + [34] + [58] + ([34] + DigestText(prev) + [34])) + [125]
  {
    hide Encode, EncodeMember, Escaped, DigestText, TextOf, LinkText, Plain;
    DigestForm(prev);
    EscapedAscii(DigestText(prev));
    Names();
    EscapedAscii(EPISODE);
    EscapedAscii(PREV);
    hide NeedsNoEscape, Ascii;
    TextOfLink(prev, episode);
    var (first, second) := (Member(EPISODE, episode), Member(PREV, JString(DigestText(prev))));
    PlainMember(second);
    MemberForms(first, [second]);
    assert [second] + [] == [second];
    MemberForms(second, []);
    EncodeString(DigestText(prev));
    Closes(EncodeMember(first), EncodeMember(second));
  }

  lemma PlainMember(m: Member)
    requires Plain(m.value)
    ensures Plain(JObject([m])) && Plain(JObject([]))
  {
  }

  lemma Closes(first: Text, second: Text)
    ensures [123] + first + [44] + ([123] + second + [125])[1..] == [123] + first + [44] + second + [125]
  {
    assert ([123] + second + [125])[1..] == second + [125];
  }

  lemma Names()
    ensures EPISODE == Ascii("episode") && PREV == Ascii("prev") && SCHEMA == Ascii("schema")
    ensures NeedsNoEscape(EPISODE) && NeedsNoEscape(PREV) && NeedsNoEscape(SCHEMA)
  {
  }

  lemma SchemaName()
    ensures NeedsNoEscape(FRAMES_SCHEMA)
  {
  }

  /** The seed names the schema and nothing else. */
  lemma SeedForm()
    ensures SeedText() == [123] + ([34] + Ascii("schema") + [34] + [58] + ([34] + FRAMES_SCHEMA + [34])) + [125]
  {
    hide Encode, EncodeMember, Escaped, Plain;
    Names();
    EscapedAscii(SCHEMA);
    SchemaName();
    EscapedAscii(FRAMES_SCHEMA);
    hide NeedsNoEscape, Ascii;
    var m := Member(SCHEMA, JString(FRAMES_SCHEMA));
    CanonicalIsPlain(SeedValue());
    PlainString(FRAMES_SCHEMA);
    PlainMember(m);
    assert [m] + [] == [m];
    MemberForms(m, []);
    EncodeString(FRAMES_SCHEMA);
  }

  lemma PlainString(t: Text)
    ensures Plain(JString(t))
  {
  }
}
