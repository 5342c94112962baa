/** What an accepted proof pack's head and declared aggregates are worth (src/proof-pack.ts). */
module ProofPackTheorems {
  import opened Common
  import opened TextUnits
  import opened CanonicalOrder
  import opened CanonicalDigest
  import opened PackChain
  import opened ProofPack
  import HashChain

  // ----- half-even rounding -----

  /** The nearest integer, and on a tie the even one. */
  lemma RoundUnitsIsNearest(x: real)
    ensures -0.5 <= RoundUnits(x) as real - x <= 0.5
    ensures RoundUnits(x) as real - x in {0.5, -0.5} ==> RoundUnits(x) % 2 == 0
  {
  }

  lemma RoundUnitsIsMonotone(x: real, y: real)
    requires x <= y
    ensures RoundUnits(x) <= RoundUnits(y)
  {
    FloorIsMonotone(x, y);
    FloorIsMonotone(x + 0.5, y + 0.5);
  }

  lemma FloorIsMonotone(x: real, y: real)
    requires x <= y
    ensures x.Floor <= y.Floor
  {
  }

  lemma RoundUnitsKeepsIntegers(n: int)
    ensures RoundUnits(n as real) == n
  {
  }

  /** Rounding to any number of places is off by at most half a unit of the last place. */
  lemma RoundHalfEvenIsNear(value: real, places: nat)
    ensures -0.5 / Scale(places) <= RoundHalfEven(value, places) - value <= 0.5 / Scale(places)
  {
    hide RoundUnits;
    RoundUnitsIsNearest(Scaled(value, places));
    NearAfterDividing(value, RoundUnits(Scaled(value, places)) as real, Scale(places));
  }

  lemma NearAfterDividing(value: real, n: real, scale: real)
    requires scale >= 1.0 && -0.5 <= n - value * scale <= 0.5
    ensures -0.5 / scale <= n / scale - value <= 0.5 / scale
  {
    Divides(-0.5, n - value * scale, scale);
    Divides(n - value * scale, 0.5, scale);
    assert (n - value * scale) / scale == n / scale - value * scale / scale;
    assert value * scale / scale == value;
  }

  lemma RoundHalfEvenIsMonotone(value: real, other: real, places: nat)
    requires value <= other
    ensures RoundHalfEven(value, places) <= RoundHalfEven(other, places)
  {
    hide RoundUnits, Unscale, Scaled;
    ScaledIsMonotone(value, other, places);
    RoundUnitsIsMonotone(Scaled(value, places), Scaled(other, places));
    UnscaleIsMonotone(RoundUnits(Scaled(value, places)), RoundUnits(Scaled(other, places)), Scale(places));
  }

  lemma ScaledIsMonotone(value: real, other: real, places: nat)
    requires value <= other
    ensures Scaled(value, places) <= Scaled(other, places)
  {
    Multiplies(value, other, Scale(places));
  }

  lemma UnscaleIsMonotone(n: int, m: int, scale: real)
    requires n <= m && scale > 0.0
    ensures Unscale(n, scale) <= Unscale(m, scale)
  {
    Divides(n as real, m as real, scale);
  }

  lemma Divides(a: real, b: real, scale: real)
    requires a <= b && scale > 0.0
    ensures a / scale <= b / scale
  {
  }

  lemma Multiplies(a: real, b: real, scale: real)
    requires a <= b && scale > 0.0
    ensures a * scale <= b * scale
  {
  }

  // ----- densities -----

  function Ratio(exploits: nat, attempts: nat): real
    requires attempts > 0
  {
    (1000 * exploits) as real / attempts as real
  }

  lemma RatioOrder(e: nat, n: nat, f: nat, m: nat)
    requires n > 0 && m > 0 && e * m <= f * n
    ensures Ratio(e, n) <= Ratio(f, m)
  {
    var (x, y) := ((1000 * e) as real, (1000 * f) as real);
    assert (1000 * e) * m == 1000 * (e * m) && (1000 * f) * n == 1000 * (f * n);
    assert x * m as real <= y * n as real by {
      assert ((1000 * e) * m) as real == x * m as real && ((1000 * f) * n) as real == y * n as real;
    }
    CrossDivide(x, n as real, y, m as real);
  }

  lemma CrossDivide(x: real, n: real, y: real, m: real)
    requires n > 0.0 && m > 0.0 && x * m <= y * n
    ensures x / n <= y / m
  {
    Divides(x * m, y * n, n * m);
    assert x * m / (n * m) == x / n;
    assert y * n / (n * m) == y / m;
  }

  lemma DensityOrder(e: nat, n: nat, f: nat, m: nat)
    requires n > 0 && m > 0 && e * m <= f * n
    ensures DensityOf(e, n) <= DensityOf(f, m)
  {
    RatioOrder(e, n, f, m);
    RoundHalfEvenIsMonotone(Ratio(e, n), Ratio(f, m), 1);
    hide RoundHalfEven;
  }

  lemma DensityBounds(e: nat, n: nat)
    requires e <= n
    ensures 0.0 <= DensityOf(e, n) <= 1000.0
  {
    if n > 0 {
      DensityOrder(0, 1, e, n);
      DensityOrder(e, n, 1, 1);
      DensityExtremes();
    }
  }

  lemma DensityExtremes()
    ensures DensityOf(0, 1) == 0.0 && DensityOf(1, 1) == 1000.0
  {
    assert Scale(0) == 1.0 && Scale(1) == 10.0;
    assert Scaled(0.0, 1) == 0 as real && Scaled(1000.0, 1) == 10_000 as real;
    RoundUnitsKeepsIntegers(0);
    RoundUnitsKeepsIntegers(10_000);
  }

  // ----- buckets partition the episodes -----

  datatype Sums = Sums(attempts: nat, exploits: nat)

  function SumOf(entries: seq<Keyed<Aggregate>>): Sums {
    if entries == [] then Sums(0, 0)
    else
      var rest := SumOf(entries[1..]);
      Sums(rest.attempts + entries[0].value.attempts, rest.exploits + entries[0].value.exploits)
  }

  lemma {:induction false} InsertKeepsSum(x: Keyed<Aggregate>, entries: seq<Keyed<Aggregate>>)
    ensures SumOf(Insert(x, entries)) == Sums(SumOf(entries).attempts + x.value.attempts, SumOf(entries).exploits + x.value.exploits)
  {
    if entries != [] && Before(entries[0].key, x.key) {
      InsertKeepsSum(x, entries[1..]);
      assert Insert(x, entries)[1..] == Insert(x, entries[1..]);
    } else {
      assert ([x] + entries)[1..] == entries;
    }
  }

  lemma {:induction false} SortKeepsSum(entries: seq<Keyed<Aggregate>>)
    ensures SumOf(SortByKey(entries)) == SumOf(entries)
  {
    if entries != [] {
      SortKeepsSum(entries[1..]);
      InsertKeepsSum(entries[0], SortByKey(entries[1..]));
    }
  }

  lemma {:induction false} AppendKeepsSum(entries: seq<Keyed<Aggregate>>, x: Keyed<Aggregate>)
    ensures SumOf(entries + [x]) == Sums(SumOf(entries).attempts + x.value.attempts, SumOf(entries).exploits + x.value.exploits)
  {
    if entries == [] {
      assert entries + [x] == [x] && [x][1..] == [];
    } else {
      AppendKeepsSum(entries[1..], x);
      assert (entries + [x])[1..] == entries[1..] + [x];
    }
  }

  predicate NoRepeats(groups: seq<Text>) { forall i, j :: 0 <= i < j < |groups| ==> groups[i] != groups[j] }

  /** Attempts and exploits of the episodes under any of the given labels. */
  function Under(episodes: seq<Episode>, key: KeyOf, groups: seq<Text>): Sums {
    if groups == [] then Sums(0, 0)
    else
      var rest := Under(episodes, key, groups[..|groups| - 1]);
      var mine := Labelled(episodes, key, groups[|groups| - 1]);
      Sums(rest.attempts + |mine|, rest.exploits + Exploits(mine))
  }

  lemma {:induction false} EntriesSum(episodes: seq<Episode>, key: KeyOf, groups: seq<Text>)
    ensures SumOf(Entries(episodes, key, groups)) == Under(episodes, key, groups)
  {
    hide DensityOf;
    if groups != [] {
      var init := groups[..|groups| - 1];
      EntriesSum(episodes, key, init);
      AppendKeepsSum(Entries(episodes, key, init),
                     Keyed(groups[|groups| - 1], AggregateOf(Labelled(episodes, key, groups[|groups| - 1]))));
    }
  }

  /** One more episode adds itself once, under its own label. */
  lemma {:induction false} UnderStep(init: seq<Episode>, e: Episode, key: KeyOf, groups: seq<Text>)
    requires NoRepeats(groups)
    ensures var (s, t) := (Under(init, key, groups), Under(init + [e], key, groups));
            && t.attempts == s.attempts + One(key(e) in groups)
            && t.exploits == s.exploits + One(key(e) in groups && e.exploit)
  {
    if groups != [] {
      var rest, last := groups[..|groups| - 1], groups[|groups| - 1];
      assert forall x :: x in groups <==> x in rest || x == last;
      assert last !in rest;
      UnderStep(init, e, key, rest);
      LabelledStep(init, e, key, last);
    }
  }

  lemma LabelledStep(init: seq<Episode>, e: Episode, key: KeyOf, group: Text)
    ensures var (s, t) := (Labelled(init, key, group), Labelled(init + [e], key, group));
            && |t| == |s| + One(key(e) == group)
            && Exploits(t) == Exploits(s) + One(key(e) == group && e.exploit)
  {
    assert (init + [e])[..|init|] == init;
    var s := Labelled(init, key, group);
    assert (s + [e])[..|s|] == s;
  }

  lemma {:induction false} UnderAll(episodes: seq<Episode>, key: KeyOf, groups: seq<Text>)
    requires NoRepeats(groups) && forall i :: 0 <= i < |episodes| ==> key(episodes[i]) in groups
    ensures Under(episodes, key, groups) == Sums(|episodes|, Exploits(episodes))
    decreases |episodes|
  {
    if episodes == [] {
      UnderNothing(key, groups);
    } else {
      var init, e := episodes[..|episodes| - 1], episodes[|episodes| - 1];
      assert episodes == init + [e];
      UnderAll(init, key, groups);
      UnderStep(init, e, key, groups);
      hide Under;
    }
  }

  lemma {:induction false} UnderNothing(key: KeyOf, groups: seq<Text>)
    ensures Under([], key, groups) == Sums(0, 0)
  {
    if groups != [] { UnderNothing(key, groups[..|groups| - 1]); }
  }

  lemma {:induction false} LabelsCover(episodes: seq<Episode>, key: KeyOf)
    ensures NoRepeats(Labels(episodes, key))
    ensures forall i :: 0 <= i < |episodes| ==> key(episodes[i]) in Labels(episodes, key)
  {
    if episodes != [] {
      var init, e := episodes[..|episodes| - 1], episodes[|episodes| - 1];
      LabelsCover(init, key);
      var (known, labels) := (Labels(init, key), Labels(episodes, key));
      assert labels == if key(e) in known then known else known + [key(e)];
      hide Labels;
      forall i | 0 <= i < |episodes|
        ensures key(episodes[i]) in labels
      {
        assert episodes[i] == if i < |init| then init[i] else e;
      }
    }
  }

  /** For any grouping, bucket attempts and exploits add up to the totals. */
  lemma BucketsPartition(episodes: seq<Episode>, key: KeyOf)
    ensures SumOf(Buckets(episodes, key)) == Sums(|episodes|, Exploits(episodes))
  {
    var groups := Labels(episodes, key);
    LabelsCover(episodes, key);
    UnderAll(episodes, key, groups);
    EntriesSum(episodes, key, groups);
    SortKeepsSum(Entries(episodes, key, groups));
  }

  /** The magnitude histogram counts every exploit once. */
  lemma {:induction false} HistogramCountsExploits(episodes: seq<Episode>)
    ensures var g := HistogramOf(episodes);
            g.low + g.middleLow + g.middleHigh + g.high == Exploits(episodes)
  {
    if episodes != [] { HistogramCountsExploits(episodes[..|episodes| - 1]); }
  }

  /** The exploits whose score lies in [low, high). */
  function Scored(episodes: seq<Episode>, low: real, high: real): set<int> {
    set i | 0 <= i < |episodes| && episodes[i].exploit && low <= episodes[i].score < high
  }

  lemma ScoredStep(init: seq<Episode>, e: Episode, low: real, high: real)
    ensures |Scored(init + [e], low, high)| == |Scored(init, low, high)| + One(e.exploit && low <= e.score < high)
  {
    var grown := init + [e];
    assert grown[|init|] == e && forall i :: 0 <= i < |init| ==> grown[i] == init[i];
    assert Scored(grown, low, high) == Scored(init, low, high) + (if e.exploit && low <= e.score < high then {|init|} else {});
  }

  /** Each bar of the histogram counts the exploits whose score lies in its quarter. */
  lemma {:induction false} HistogramRanges(episodes: seq<Episode>)
    requires forall i :: 0 <= i < |episodes| ==> 0.0 <= episodes[i].score <= 1.0
    ensures HistogramOf(episodes) ==
              Histogram(|Scored(episodes, 0.0, 0.25)|, |Scored(episodes, 0.25, 0.5)|, |Scored(episodes, 0.5, 0.75)|,
                        |Scored(episodes, 0.75, 1.01)|)
  {
    if episodes == [] {
      assert forall low, high :: Scored(episodes, low, high) == {};
    } else {
      var init, e := episodes[..|episodes| - 1], episodes[|episodes| - 1];
      assert episodes == init + [e];
      HistogramRanges(init);
      ScoredStep(init, e, 0.0, 0.25);
      ScoredStep(init, e, 0.25, 0.5);
      ScoredStep(init, e, 0.5, 0.75);
      ScoredStep(init, e, 0.75, 1.01);
      hide Scored;
    }
  }

  // ----- the overall density lies among the buckets' -----

  predicate NonEmptyBucket(b: Keyed<Aggregate>) {
    b.value.attempts > 0 && b.value.density == DensityOf(b.value.exploits, b.value.attempts)
  }

  lemma {:induction false} EntriesNonEmpty(episodes: seq<Episode>, key: KeyOf, groups: seq<Text>, i: nat)
    requires (forall g :: g in groups ==> Labelled(episodes, key, g) != []) && i < |Entries(episodes, key, groups)|
    ensures NonEmptyBucket(Entries(episodes, key, groups)[i])
  {
    hide DensityOf, Labelled;
    var init := groups[..|groups| - 1];
    assert groups[|groups| - 1] in groups;
    if i < |Entries(episodes, key, init)| {
      EntriesNonEmpty(episodes, key, init, i);
    }
  }

  lemma {:induction false} LabelsOccur(episodes: seq<Episode>, key: KeyOf, g: Text)
    requires g in Labels(episodes, key)
    ensures Labelled(episodes, key, g) != []
  {
    var init := episodes[..|episodes| - 1];
    if g in Labels(init, key) { LabelsOccur(init, key, g); }
  }

  lemma BucketsNonEmpty(episodes: seq<Episode>, key: KeyOf, b: Keyed<Aggregate>)
    requires b in Buckets(episodes, key)
    ensures NonEmptyBucket(b)
  {
    hide DensityOf, NonEmptyBucket;
    var groups := Labels(episodes, key);
    var entries := Entries(episodes, key, groups);
    SortKeeps(entries);
    assert b in multiset(SortByKey(entries));
    var i :| 0 <= i < |entries| && entries[i] == b;
    forall g | g in groups ensures Labelled(episodes, key, g) != [] { LabelsOccur(episodes, key, g); }
    EntriesNonEmpty(episodes, key, groups, i);
  }

  /** If every bucket were above (or below) e over n, so would their sums be. */
  lemma {:induction false} SomeBucketBelow(buckets: seq<Keyed<Aggregate>>, e: nat, n: nat) returns (i: nat)
    requires buckets != [] && SumOf(buckets).exploits * n <= e * SumOf(buckets).attempts
    ensures i < |buckets| && buckets[i].value.exploits * n <= e * buckets[i].value.attempts
  {
    i := 0;
    var (b, rest) := (buckets[0].value, SumOf(buckets[1..]));
    if |buckets| > 1 && b.exploits * n > e * b.attempts {
      assert (rest.exploits + b.exploits) * n == rest.exploits * n + b.exploits * n;
      assert e * (rest.attempts + b.attempts) == e * rest.attempts + e * b.attempts;
      var j := SomeBucketBelow(buckets[1..], e, n);
      i := j + 1;
    }
  }

  lemma {:induction false} SomeBucketAbove(buckets: seq<Keyed<Aggregate>>, e: nat, n: nat) returns (i: nat)
    requires buckets != [] && SumOf(buckets).exploits * n >= e * SumOf(buckets).attempts
    ensures i < |buckets| && buckets[i].value.exploits * n >= e * buckets[i].value.attempts
  {
    i := 0;
    var (b, rest) := (buckets[0].value, SumOf(buckets[1..]));
    if |buckets| > 1 && b.exploits * n < e * b.attempts {
      assert (rest.exploits + b.exploits) * n == rest.exploits * n + b.exploits * n;
      assert e * (rest.attempts + b.attempts) == e * rest.attempts + e * b.attempts;
      var j := SomeBucketAbove(buckets[1..], e, n);
      i := j + 1;
    }
  }

  /** The overall density lies in [0, 1000], and between two of the bucket densities of any grouping. */
  lemma DensityAmongBuckets(episodes: seq<Episode>, key: KeyOf) returns (low: nat, high: nat)
    requires episodes != []
    ensures 0.0 <= AggregateOf(episodes).density <= 1000.0
    ensures var buckets := Buckets(episodes, key);
            && low < |buckets| && high < |buckets|
            && buckets[low].value.density <= AggregateOf(episodes).density <= buckets[high].value.density
  {
    hide DensityOf, NonEmptyBucket, SortByKey, Labels, Entries;
    var buckets := Buckets(episodes, key);
    var (e, n) := (Exploits(episodes), |episodes|);
    BucketsPartition(episodes, key);
    ExploitsBounded(episodes);
    DensityBounds(e, n);
    SumNeedsBuckets(buckets);
    low := SomeBucketBelow(buckets, e, n);
    high := SomeBucketAbove(buckets, e, n);
    BucketOrder(episodes, key, low, high, e, n);
  }

  lemma SumNeedsBuckets(buckets: seq<Keyed<Aggregate>>)
    ensures SumOf(buckets).attempts > 0 ==> buckets != []
  {
  }

  lemma BucketOrder(episodes: seq<Episode>, key: KeyOf, low: nat, high: nat, e: nat, n: nat)
    requires var buckets := Buckets(episodes, key);
             && n > 0 && low < |buckets| && high < |buckets|
             && buckets[low].value.exploits * n <= e * buckets[low].value.attempts
             && buckets[high].value.exploits * n >= e * buckets[high].value.attempts
    ensures var buckets := Buckets(episodes, key);
            buckets[low].value.density <= DensityOf(e, n) <= buckets[high].value.density
  {
    hide DensityOf, SortByKey, Labels, Entries;
    var buckets := Buckets(episodes, key);
    var (l, u) := (buckets[low].value, buckets[high].value);
    BucketsNonEmpty(episodes, key, buckets[low]);
    BucketsNonEmpty(episodes, key, buckets[high]);
    DensityOrder(l.exploits, l.attempts, e, n);
    DensityOrder(e, n, u.exploits, u.attempts);
  }

  lemma {:induction false} ExploitsBounded(episodes: seq<Episode>)
    ensures Exploits(episodes) <= |episodes|
  {
    if episodes != [] { ExploitsBounded(episodes[..|episodes| - 1]); }
  }

  // ----- accepted packs -----

  /** What an accepted pack declares: its groupings partition its episodes, every episode is an exploit
      exactly if the oracle was wrong and the judge passed, and the histogram counts the exploits. */
  lemma AcceptedAggregates(h: TextHash, read: Reader, m: Manifest, frames: seq<Frame>)
    requires Accepted(h, read, m, frames)
    ensures var (a, totals) := (m.aggregates, Sums(m.aggregates.totals.attempts, m.aggregates.totals.exploits));
            && totals.attempts == |frames|
            && SumOf(a.byRung) == totals && SumOf(a.byTransform) == totals && SumOf(a.byBenchmark) == totals
            && a.histogram.low + a.histogram.middleLow + a.histogram.middleHigh + a.histogram.high == totals.exploits
            && totals.exploits == |Fooled(read, frames)|
  {
    var episodes := Episodes(read, frames);
    AcceptedIsSound(h, read, m, frames);
    hide Fooled, Accepted, Blocks, Buckets, HistogramOf, Exploits, DensityOf, SumOf, RoundHalfEven, Sound, FooledJudge;
    EveryEpisode(read, frames);
    BucketsPartition(episodes, (e: Episode) => e.rung);
    BucketsPartition(episodes, (e: Episode) => e.transform);
    BucketsPartition(episodes, BenchmarkKey(m.benchmark));
    HistogramCountsExploits(episodes);
  }

  lemma AcceptedIsSound(h: TextHash, read: Reader, m: Manifest, frames: seq<Frame>)
    requires Accepted(h, read, m, frames)
    ensures m.aggregates == DeriveAggregates(Episodes(read, frames), m.benchmark)
    ensures forall i :: 0 <= i < |frames| ==> Sound(read, frames[i])
  {
    hide DeriveAggregates, HeadAfter;
    assert !Blocks(h, read, m, frames, AggregateMismatch);
    forall i | 0 <= i < |frames|
      ensures Sound(read, frames[i])
    {
      assert !Blocks(h, read, m, frames, EpisodeInvalid(i)) && !Blocks(h, read, m, frames, ExploitSemanticsInvalid(i));
    }
  }

  predicate Sound(read: Reader, f: Frame) {
    ParseEpisode(read, f.episode).Some? && ExploitMeansFooledJudge(ParseEpisode(read, f.episode).value)
  }

  /** The judge passed an answer that the oracle knows to be wrong. */
  predicate FooledJudge(read: Reader, f: Frame) {
    match ParseEpisode(read, f.episode)
    case None => false
    case Some(e) => e.oracleWrong && e.judgePass
  }

  function Fooled(read: Reader, frames: seq<Frame>): set<int> {
    set i | 0 <= i < |frames| && FooledJudge(read, frames[i])
  }

  lemma FooledStep(read: Reader, init: seq<Frame>, f: Frame)
    ensures |Fooled(read, init + [f])| == |Fooled(read, init)| + One(FooledJudge(read, f))
  {
    hide FooledJudge;
    var grown := init + [f];
    assert grown[|init|] == f && forall i :: 0 <= i < |init| ==> grown[i] == init[i];
    assert Fooled(read, grown) == Fooled(read, init) + (if FooledJudge(read, f) then {|init|} else {});
  }

  lemma {:induction false} EveryEpisode(read: Reader, frames: seq<Frame>)
    requires forall i :: 0 <= i < |frames| ==> Sound(read, frames[i])
    ensures |Episodes(read, frames)| == |frames|
    ensures Exploits(Episodes(read, frames)) == |Fooled(read, frames)|
  {
    if frames == [] {
      assert Fooled(read, frames) == {};
    } else {
      var n := |frames| - 1;
      var init := frames[..n];
      assert forall i :: 0 <= i < n ==> init[i] == frames[i];
      EveryEpisode(read, init);
      FooledStep(read, init, frames[n]);
      assert init + [frames[n]] == frames;
      hide Fooled;
      assert Sound(read, frames[n]);
      var episodes := Episodes(read, frames);
      assert episodes[..|episodes| - 1] == Episodes(read, init);
    }
  }

  // ----- the head determines the episodes -----

  type LinkContent = (Digest, NormalJson)

  /** The chain as a sequence of links, each naming the head before it. */
  function Links(h: TextHash, frames: seq<Frame>): (links: seq<LinkContent>) {
    seq(|frames|, i requires 0 <= i < |frames| => (HeadAfter(h, frames, i), frames[i].episode))
  }

  lemma LinksAreChained(h: TextHash, frames: seq<Frame>)
    ensures var hash := (x: LinkContent) => h(LinkText(x.0, x.1));
            && HashChain.Chained(hash, (x: LinkContent) => x.0, h(SeedText()), Links(h, frames))
            && HashChain.Head(hash, h(SeedText()), Links(h, frames)) == HeadAfter(h, frames, |frames|)
  {
    hide SeedText, LinkText;
    var links := Links(h, frames);
    forall i | 0 <= i < |links|
      ensures links[i].0 == HeadAfter(h, frames, i) && HeadAfter(h, frames, i + 1) == h(LinkText(links[i].0, links[i].1))
    {
    }
    hide HeadAfter;
  }

  /** The texts of the seed and of all links differ, so the head of the chain determines all its episodes,
      however many: no sequence numbers are needed. */
  lemma PackHeadDeterminesEpisodes(h: TextHash, a: seq<Frame>, b: seq<Frame>)
    requires TextCollisionFree(h) && HeadAfter(h, a, |a|) == HeadAfter(h, b, |b|)
    ensures |a| == |b| && forall i :: 0 <= i < |a| ==> a[i].episode == b[i].episode
  {
    hide SeedText, LinkText;
    var hash := (x: LinkContent) => h(LinkText(x.0, x.1));
    LinksAreChained(h, a);
    LinksAreChained(h, b);
    LinksAreCollisionFree(h, hash);
    hide TextCollisionFree, CollisionFree, HashChain.Chained, HeadAfter, HashChain.IsDigestOf;
    HashChain.SameHeadSameHistory(hash, (x: LinkContent) => x.0, h(SeedText()), Links(h, a), Links(h, b));
    SameEpisodes(h, a, b);
  }

  lemma LinksAreCollisionFree(h: TextHash, hash: LinkContent -> Digest)
    requires TextCollisionFree(h) && forall x: LinkContent :: hash(x) == h(LinkText(x.0, x.1))
    ensures CollisionFree(hash) && !HashChain.IsDigestOf(hash, h(SeedText()))
  {
    hide SeedText, LinkText, TextCollisionFree;
    forall x: LinkContent, y: LinkContent | hash(x) == hash(y)
      ensures x == y
    {
      LinkDigestIdentifies(h, x.0, x.1, y.0, y.1);
    }
    forall x: LinkContent
      ensures hash(x) != h(SeedText())
    {
      LinkIsNotSeed(h, x.0, x.1);
    }
  }

  lemma SameEpisodes(h: TextHash, a: seq<Frame>, b: seq<Frame>)
    requires Links(h, a) == Links(h, b)
    ensures |a| == |b| && forall i :: 0 <= i < |a| ==> a[i].episode == b[i].episode
  {
    hide HeadAfter;
    assert |Links(h, a)| == |a| && |Links(h, b)| == |b|;
    forall i | 0 <= i < |a|
      ensures a[i].episode == b[i].episode
    {
      assert Links(h, a)[i].1 == a[i].episode && Links(h, b)[i].1 == b[i].episode;
    }
  }

  /** Two accepted packs with one declared head hold the same frames. */
  lemma AcceptedPacksWithOneHead(h: TextHash, read: Reader, m: Manifest, a: seq<Frame>, n: Manifest, b: seq<Frame>)
    requires TextCollisionFree(h) && Accepted(h, read, m, a) && Accepted(h, read, n, b) && m.chainHead == n.chainHead
    ensures a == b
  {
    hide TextCollisionFree, DeriveAggregates, SeedText, LinkText;
    assert !Blocks(h, read, m, a, ChainHeadMismatch) && !Blocks(h, read, n, b, ChainHeadMismatch);
    PackHeadDeterminesEpisodes(h, a, b);
    forall i | 0 <= i < |a|
      ensures a[i] == b[i]
    {
      assert !Blocks(h, read, m, a, DigestMismatch(i)) && !Blocks(h, read, n, b, DigestMismatch(i));
      SameHeads(h, a, b, i + 1);
    }
  }

  lemma {:induction false} SameHeads(h: TextHash, a: seq<Frame>, b: seq<Frame>, n: nat)
    requires n <= |a| == |b| && forall i :: 0 <= i < |a| ==> a[i].episode == b[i].episode
    ensures HeadAfter(h, a, n) == HeadAfter(h, b, n)
  {
    if n > 0 { SameHeads(h, a, b, n - 1); }
  }
}
