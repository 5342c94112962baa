/** Proof packs: the unnumbered episode chain and the aggregates a manifest declares about the episodes
    (src/proof-pack.ts). Numbers are exact reals, so a tie is exactly one half. */
module ProofPack {
  import opened Common
  import opened TextUnits
  import opened CanonicalOrder
  import opened JsonText
  import opened CanonicalDigest
  import opened PackChain

  datatype Episode = Episode(
    answer: string,
    cost: real,
    benchmark: Option<Text>,
    exploit: bool,
    item: string,
    judgePass: bool,
    score: real,
    oracleWrong: bool,
    rung: Text,
    transform: Text)

  /** A frame holds its episode fields as the JSON value they are. */
  datatype Frame = Frame(episode: NormalJson, sha: Digest)

  /** The episode that a value denotes, if its labels, digests and texts have the right form. */
  type Reader = Json -> Option<Episode>

  // ----- rounding -----

  /** Math.round */
  function RoundHalfUp(x: real): int { (x + 0.5).Floor }

  /** roundHalfEven in units of the last kept place. */
  function RoundUnits(scaled: real): int {
    var floor := scaled.Floor;
    if scaled - floor as real == 0.5 then (if floor % 2 == 0 then floor else floor + 1) else RoundHalfUp(scaled)
  }

  function Scale(places: nat): (scale: real)
    ensures scale >= 1.0
  {
    if places == 0 then 1.0 else 10.0 * Scale(places - 1)
  }

  function Unscale(units: int, scale: real): real
    requires scale > 0.0
  {
    units as real / scale
  }

  function Scaled(value: real, places: nat): real { value * Scale(places) }

  function RoundHalfEven(value: real, places: nat): real {
    Unscale(RoundUnits(Scaled(value, places)), Scale(places))
  }

  // ----- aggregates -----

  datatype Aggregate = Aggregate(attempts: nat, exploits: nat, density: real)

  function Exploits(episodes: seq<Episode>): nat {
    if episodes == [] then 0 else Exploits(episodes[..|episodes| - 1]) + One(episodes[|episodes| - 1].exploit)
  }

  function One(b: bool): nat { if b then 1 else 0 }

  function DensityOf(exploits: nat, attempts: nat): real {
    if attempts == 0 then 0.0 else RoundHalfEven((1000 * exploits) as real / attempts as real, 1)
  }

  function AggregateOf(episodes: seq<Episode>): Aggregate {
    Aggregate(|episodes|, Exploits(episodes), DensityOf(Exploits(episodes), |episodes|))
  }

  type KeyOf = Episode -> Text

  function Labelled(episodes: seq<Episode>, key: KeyOf, group: Text): seq<Episode> {
    if episodes == [] then []
    else
      var init, last := Labelled(episodes[..|episodes| - 1], key, group), episodes[|episodes| - 1];
      if key(last) == group then init + [last] else init
  }

  /** The labels in the order they first occur. */
  function Labels(episodes: seq<Episode>, key: KeyOf): seq<Text> {
    if episodes == [] then []
    else
      var init, group := Labels(episodes[..|episodes| - 1], key), key(episodes[|episodes| - 1]);
      if group in init then init else init + [group]
  }

  function Entries(episodes: seq<Episode>, key: KeyOf, labels: seq<Text>): seq<Keyed<Aggregate>> {
    if labels == [] then []
    else
      Entries(episodes, key, labels[..|labels| - 1])
      + [Keyed(labels[|labels| - 1], AggregateOf(Labelled(episodes, key, labels[|labels| - 1])))]
  }

  function Buckets(episodes: seq<Episode>, key: KeyOf): seq<Keyed<Aggregate>> {
    SortByKey(Entries(episodes, key, Labels(episodes, key)))
  }

  /** The grouping loop: one list of episodes for each label. */
  method BucketBy(episodes: seq<Episode>, key: KeyOf) returns (buckets: seq<Keyed<Aggregate>>)
    ensures buckets == Buckets(episodes, key)
  {
    var groups, order := GroupBy(episodes, key);
    var entries: seq<Keyed<Aggregate>> := [];
    assert order[..|order|] == order;
    hide AggregateOf, Labelled, Labels, SortByKey;
    for i := 0 to |order|
      invariant entries == Entries(episodes, key, order[..i])
    {
      assert order[..i + 1][..i] == order[..i] && order[i] in order;
      entries := entries + [Keyed(order[i], AggregateOf(groups[order[i]]))];
    }
    buckets := SortByKey(entries);
  }

  method GroupBy(episodes: seq<Episode>, key: KeyOf) returns (groups: map<Text, seq<Episode>>, order: seq<Text>)
    ensures order == Labels(episodes, key)
    ensures forall group :: group in groups <==> group in order
    ensures forall group :: group in groups ==> groups[group] == Labelled(episodes, key, group)
  {
    groups, order := map[], [];
    assert episodes[..|episodes|] == episodes;
    for i := 0 to |episodes|
      invariant order == Labels(episodes[..i], key)
      invariant forall group :: group in groups <==> group in order
      invariant forall group :: group in groups ==> groups[group] == Labelled(episodes[..i], key, group)
      invariant forall group :: group !in groups ==> Labelled(episodes[..i], key, group) == []
    {
      var group := key(episodes[i]);
      assert episodes[..i + 1][..i] == episodes[..i];
      if group !in groups { order := order + [group]; }
      groups := groups[group := (if group in groups then groups[group] else []) + [episodes[i]]];
      forall other
        ensures Labelled(episodes[..i + 1], key, other)
                == Labelled(episodes[..i], key, other) + (if other == group then [episodes[i]] else [])
      {
        assert Labelled(episodes[..i], key, other) + [] == Labelled(episodes[..i], key, other);
      }
    }
  }

  datatype Histogram = Histogram(low: nat, middleLow: nat, middleHigh: nat, high: nat)

  function Magnitude(g: Histogram, e: Episode): Histogram {
    if !e.exploit then g
    else if e.score < 0.25 then g.(low := g.low + 1)
    else if e.score < 0.5 then g.(middleLow := g.middleLow + 1)
    else if e.score < 0.75 then g.(middleHigh := g.middleHigh + 1)
    else g.(high := g.high + 1)
  }

  function HistogramOf(episodes: seq<Episode>): Histogram {
    if episodes == [] then Histogram(0, 0, 0, 0)
    else Magnitude(HistogramOf(episodes[..|episodes| - 1]), episodes[|episodes| - 1])
  }

  function CostOf(episodes: seq<Episode>): real {
    if episodes == [] then 0.0 else CostOf(episodes[..|episodes| - 1]) + episodes[|episodes| - 1].cost
  }

  datatype Aggregates = Aggregates(
    totals: Aggregate,
    totalCost: real,
    byRung: seq<Keyed<Aggregate>>,
    byTransform: seq<Keyed<Aggregate>>,
    byBenchmark: seq<Keyed<Aggregate>>,
    histogram: Histogram)

  const UNKNOWN_BENCHMARK: Text := [63]

  function BenchmarkKey(manifestBenchmark: Option<Text>): KeyOf {
    (e: Episode) =>
      match e.benchmark
      case Some(b) => b
      case None => if manifestBenchmark.Some? then manifestBenchmark.value else UNKNOWN_BENCHMARK
  }

  function DeriveAggregates(episodes: seq<Episode>, manifestBenchmark: Option<Text>): Aggregates {
    Aggregates(AggregateOf(episodes), RoundHalfEven(CostOf(episodes), 4),
               Buckets(episodes, (e: Episode) => e.rung),
               Buckets(episodes, (e: Episode) => e.transform),
               Buckets(episodes, BenchmarkKey(manifestBenchmark)),
               HistogramOf(episodes))
  }

  /** deriveAggregates: the three grouping loops, the histogram loop and the sums. */
  method Derive(episodes: seq<Episode>, manifestBenchmark: Option<Text>) returns (a: Aggregates)
    ensures a == DeriveAggregates(episodes, manifestBenchmark)
  {
    var byRung := BucketBy(episodes, (e: Episode) => e.rung);
    var byTransform := BucketBy(episodes, (e: Episode) => e.transform);
    var byBenchmark := BucketBy(episodes, BenchmarkKey(manifestBenchmark));
    hide Magnitude, Buckets, RoundHalfEven, DensityOf;
    var histogram, exploits: nat, cost: real := Histogram(0, 0, 0, 0), 0, 0.0;
    assert episodes[..|episodes|] == episodes;
    for i := 0 to |episodes|
      invariant histogram == HistogramOf(episodes[..i]) && exploits == Exploits(episodes[..i]) && cost == CostOf(episodes[..i])
    {
      assert episodes[..i + 1][..i] == episodes[..i];
      histogram := Magnitude(histogram, episodes[i]);
      if episodes[i].exploit { exploits := exploits + 1; }
      cost := cost + episodes[i].cost;
    }
    var totals := Aggregate(|episodes|, exploits, DensityOf(exploits, |episodes|));
    return Aggregates(totals, RoundHalfEven(cost, 4), byRung, byTransform, byBenchmark, histogram);
  }

  // ----- verification -----

  datatype Manifest = Manifest(benchmark: Option<Text>, chainHead: Digest, aggregates: Aggregates)

  datatype Blocker =
    | DigestMismatch(index: nat)
    | EpisodeInvalid(index: nat)
    | ExploitSemanticsInvalid(index: nat)
    | FrameLogEmpty
    | ChainHeadMismatch
    | AggregateMismatch

  /** parseEpisode */
  function ParseEpisode(read: Reader, value: Json): Option<Episode> {
    match read(value)
    case None => None
    case Some(e) => if e.cost >= 0.0 && 0.0 <= e.score <= 1.0 then Some(e) else None
  }

  predicate ExploitMeansFooledJudge(e: Episode) { e.exploit == (e.oracleWrong && e.judgePass) }

  /** The head after the first n frames, recomputed from the episodes alone. */
  function HeadAfter(h: TextHash, frames: seq<Frame>, n: nat): Digest
    requires n <= |frames|
  {
    if n == 0 then h(SeedText()) else h(LinkText(HeadAfter(h, frames, n - 1), frames[n - 1].episode))
  }

  function Episodes(read: Reader, frames: seq<Frame>): seq<Episode> {
    if frames == [] then []
    else
      var init := Episodes(read, frames[..|frames| - 1]);
      match ParseEpisode(read, frames[|frames| - 1].episode)
      case None => init
      case Some(e) => init + [e]
  }

  predicate Blocks(h: TextHash, read: Reader, m: Manifest, frames: seq<Frame>, b: Blocker) {
    match b
    case DigestMismatch(i) => i < |frames| && frames[i].sha != HeadAfter(h, frames, i + 1)
    case EpisodeInvalid(i) => i < |frames| && ParseEpisode(read, frames[i].episode).None?
    case ExploitSemanticsInvalid(i) =>
      && i < |frames| && ParseEpisode(read, frames[i].episode).Some?
      && !ExploitMeansFooledJudge(ParseEpisode(read, frames[i].episode).value)
    case FrameLogEmpty => frames == []
    case ChainHeadMismatch => m.chainHead != HeadAfter(h, frames, |frames|)
    case AggregateMismatch => m.aggregates != DeriveAggregates(Episodes(read, frames), m.benchmark)
  }

  /** verifyProofPack, over a manifest whose own digest and identity fields are not modelled. */
  method VerifyProofPack(h: TextHash, read: Reader, m: Manifest, frames: seq<Frame>) returns (blockers: set<Blocker>)
    ensures forall b :: b in blockers <==> Blocks(h, read, m, frames, b)
  {
    hide DeriveAggregates, LinkText, SeedText;
    blockers := {};
    var episodes: seq<Episode>, head := [], h(SeedText());
    assert frames[..|frames|] == frames;
    for i := 0 to |frames|
      invariant head == HeadAfter(h, frames, i) && episodes == Episodes(read, frames[..i])
      invariant forall b :: b in blockers <==>
        (b.DigestMismatch? || b.EpisodeInvalid? || b.ExploitSemanticsInvalid?) && b.index < i && Blocks(h, read, m, frames, b)
    {
      assert frames[..i + 1][..i] == frames[..i];
      var expected := h(LinkText(head, frames[i].episode));
      if frames[i].sha != expected { blockers := blockers + {DigestMismatch(i)}; }
      head := expected;
      var episode := ParseEpisode(read, frames[i].episode);
      match episode {
        case None =>
          blockers := blockers + {EpisodeInvalid(i)};
        case Some(e) =>
          if !ExploitMeansFooledJudge(e) { blockers := blockers + {ExploitSemanticsInvalid(i)}; }
          episodes := episodes + [e];
      }
    }
    if frames == [] { blockers := blockers + {FrameLogEmpty}; }
    if m.chainHead != head { blockers := blockers + {ChainHeadMismatch}; }
    var aggregates := Derive(episodes, m.benchmark);
    if m.aggregates != aggregates { blockers := blockers + {AggregateMismatch}; }
  }

  ghost predicate Accepted(h: TextHash, read: Reader, m: Manifest, frames: seq<Frame>) {
    forall b :: !Blocks(h, read, m, frames, b)
  }
}
