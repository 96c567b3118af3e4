/** The loops behind the candle store, proved against what they stand for. */
module CandleStore {
  import opened Common
  import opened Candles
  import opened CandleReplay

  const MAX_RETAINED_CANDLES: nat := 5_000

  /** `mergeCandles`. */
  method MergeCandles(base: seq<Candle>, updates: seq<Candle>, limit: nat) returns (merged: seq<Candle>)
    ensures merged == Merge(base, updates, limit)
  {
    var byTime: Chart := map[];
    for i := 0 to |base|
      invariant byTime == PutAll(map[], base, i)
    {
      if Valid(base[i]) { byTime := byTime[base[i].time := base[i]]; }
    }
    for i := 0 to |updates|
      invariant byTime == PutAll(PutAll(map[], base, |base|), updates, i)
    {
      if Valid(updates[i]) { byTime := byTime[updates[i].time := updates[i]]; }
    }
    return LastOf(Listing(byTime), limit);
  }

  /** `upsertPrice`, with its backward search for the candle before. */
  method UpsertPrice(candles: seq<Candle>, t: Tick, width: nat, limit: nat) returns (next: seq<Candle>)
    requires width > 0
    ensures next == Upsert(candles, t, width, limit)
  {
    var valid := MergeCandles([], candles, limit);
    if !Usable(t) { return valid; }
    var bucket := Bucket(t.publishedAt, width);
    var existing := FindTime(valid, bucket, 0);
    var index: nat := |valid|;
    while index > 0 && valid[index - 1].time >= bucket
      invariant index <= |valid| && LastBefore(valid, |valid|, bucket) == LastBefore(valid, index, bucket)
    {
      index := index - 1;
    }
    var adjacent := index > 0 && valid[index - 1].time + width == bucket;
    var open := if adjacent then valid[index - 1].close else t.price;
    var candle := if existing.Some? then Updated(valid[existing.value], t.price) else Opened(open, t.price, bucket);
    next := MergeCandles(valid, [candle], limit);
  }

  /** `replayPriceUpdates`. */
  method ReplayPriceUpdates(candles: seq<Candle>, updates: seq<Tick>, width: nat, limit: nat) returns (current: seq<Candle>)
    requires width > 0
    ensures current == Replay(candles, updates, |updates|, width, limit)
  {
    current := candles;
    for i := 0 to |updates|
      invariant current == Replay(candles, updates, i, width, limit)
    {
      current := UpsertPrice(current, updates[i], width, limit);
    }
  }

  // ----- Merging a server snapshot into the live list -----

  /** A current candle the snapshot does not speak for: older than it, or the live bucket just after it. */
  predicate Beyond(t: Time, first: Time, last: Time, liveBucket: int) {
    t < first || (t > last && t == liveBucket)
  }

  /** The snapshot's candles, and the current ones it does not speak for. */
  function SnapshotChart(snapshot: Chart, current: Chart, first: Time, last: Time, liveBucket: int): Chart {
    (map t | t in current && Beyond(t, first, last, liveBucket) :: current[t]) + snapshot
  }

  /** The width of an interval in milliseconds. */
  type Width = w: nat | w > 0 witness 60_000

  datatype SnapshotOptions = SnapshotOptions(interval: Option<Width>, livePublishedAt: Option<Time>, stale: bool)

  /** The bucket of the newest live tick; 0 stands for none. */
  function LiveBucket(o: SnapshotOptions): int {
    if o.interval.Some? && o.livePublishedAt.Some? && o.livePublishedAt.value > 0
    then Bucket(o.livePublishedAt.value, o.interval.value)
    else 0
  }

  /** A live candle with the volume a snapshot has for its time. */
  function WithVolume(c: Candle, snapshot: Chart): Candle {
    if c.time in snapshot then c.(volume := snapshot[c.time].volume) else c
  }

  /** The live candles of a stale snapshot. */
  function LiveCandles(snapshot: Chart, current: seq<Candle>): seq<Candle> {
    seq(|current|, i requires 0 <= i < |current| => WithVolume(current[i], snapshot))
  }

  function FreshMerge(s: seq<Candle>, c: seq<Candle>, limit: nat, liveBucket: int): seq<Candle>
    requires s != []
  {
    LastOf(Listing(SnapshotChart(ChartOf(s), ChartOf(c), s[0].time, s[|s| - 1].time, liveBucket)), limit)
  }

  /** What `mergeSnapshotCandles` computes. */
  function SnapshotMerge(snapshot: seq<Candle>, current: seq<Candle>, limit: nat, o: SnapshotOptions): seq<Candle> {
    var s, c := Merge([], snapshot, MAX_RETAINED_CANDLES), Merge([], current, MAX_RETAINED_CANDLES);
    if s == [] then LastOf(c, limit)
    else if o.stale then Merge(s, LiveCandles(ChartOf(s), c), limit)
    else FreshMerge(s, c, limit, LiveBucket(o))
  }

  lemma SnapshotStep(s: Chart, m: Chart, c: Candle, first: Time, last: Time, liveBucket: int)
    requires forall t | t in s :: first <= t <= last
    ensures SnapshotChart(s, m[c.time := c], first, last, liveBucket)
         == if Beyond(c.time, first, last, liveBucket) then SnapshotChart(s, m, first, last, liveBucket)[c.time := c]
            else SnapshotChart(s, m, first, last, liveBucket)
  {
  }

  /** `mergeSnapshotCandles`. */
  method MergeSnapshotCandles(snapshot: seq<Candle>, current: seq<Candle>, limit: nat, options: SnapshotOptions)
    returns (merged: seq<Candle>)
    ensures merged == SnapshotMerge(snapshot, current, limit, options)
  {
    var validSnapshot := MergeCandles([], snapshot, MAX_RETAINED_CANDLES);
    var validCurrent := MergeCandles([], current, MAX_RETAINED_CANDLES);
    MergeOrdered([], snapshot, MAX_RETAINED_CANDLES);
    MergeOrdered([], current, MAX_RETAINED_CANDLES);
    if validSnapshot == [] { return LastOf(validCurrent, limit); }
    var first, last := validSnapshot[0].time, validSnapshot[|validSnapshot| - 1].time;
    if options.stale {
      merged := MergeCandles(validSnapshot, LiveCandles(ChartOf(validSnapshot), validCurrent), limit);
      return;
    }
    var liveBucket := LiveBucket(options);
    var chart: Chart := ChartOf(validSnapshot);
    assert chart == SnapshotChart(chart, map[], first, last, liveBucket);
    for i := 0 to |validCurrent|
      invariant chart == SnapshotChart(ChartOf(validSnapshot), PutAll(map[], validCurrent, i), first, last, liveBucket)
    {
      var candle := validCurrent[i];
      SnapshotBetween(validSnapshot);
      SnapshotStep(ChartOf(validSnapshot), PutAll(map[], validCurrent, i), candle, first, last, liveBucket);
      if candle.time < first || (candle.time > last && candle.time == liveBucket) {
        chart := chart[candle.time := candle];
      }
    }
    return LastOf(Listing(chart), limit);
  }

  /** Every time of the snapshot lies between its first and its last. */
  lemma SnapshotBetween(s: seq<Candle>)
    requires Increasing(s) && AllValid(s) && s != []
    ensures forall t | t in ChartOf(s) :: s[0].time <= t <= s[|s| - 1].time
  {
    forall t | t in ChartOf(s) ensures s[0].time <= t <= s[|s| - 1].time {
      ListingOfChart(s);
      ListingHasAll(ChartOf(s), t);
      var i :| 0 <= i < |s| && s[i] == ChartOf(s)[t];
    }
  }

  /** The newest of a chart, all of whose newest another part of it still has. */
  lemma {:induction false} NewestOfPart(m: Chart, part: Chart, n: nat)
    requires forall t | t in part :: t in m && part[t] == m[t]
    requires forall t | t in Newest(m, n) :: t in part
    ensures Newest(part, n) == Newest(m, n)
    decreases n
  {
    if n > 0 && m.Keys != {} {
      var t := Latest(m);
      NewestIsPart(m, n);
      LatestIs(part, t);
      assert Newest(m, n) == Newest(m - {t}, n - 1)[t := m[t]];
      NewestIsPart(m - {t}, n - 1);
      NewestOfPart(m - {t}, part - {t}, n - 1);
    }
  }

  lemma SnapshotChartOk(s: Chart, c: Chart, first: Time, last: Time, liveBucket: int)
    requires ChartOk(s) && ChartOk(c)
    ensures ChartOk(SnapshotChart(s, c, first, last, liveBucket))
  {
  }

  lemma SnapshotTwice(s: Chart, c: Chart, first: Time, last: Time, liveBucket: int, limit: nat)
    requires ChartOk(s) && ChartOk(c)
    ensures var full := SnapshotChart(s, c, first, last, liveBucket);
      Kept(SnapshotChart(s, Kept(full, limit), first, last, liveBucket), limit) == Kept(full, limit)
  {
    var full := SnapshotChart(s, c, first, last, liveBucket);
    var again := SnapshotChart(s, Kept(full, limit), first, last, liveBucket);
    if limit == 0 {
      assert again == full;
    } else {
      NewestIsPart(full, limit);
      NewestOfPart(full, again, limit);
    }
  }

  /** A fresh snapshot merged into its own result changes nothing. */
  lemma FreshTwice(s: seq<Candle>, c: seq<Candle>, limit: nat, liveBucket: int)
    requires s != [] && Increasing(s) && AllValid(s) && Increasing(c) && AllValid(c) && 0 < limit <= MAX_RETAINED_CANDLES
    ensures var once := FreshMerge(s, c, limit, liveBucket);
      Merge([], once, MAX_RETAINED_CANDLES) == once && FreshMerge(s, once, limit, liveBucket) == once
  {
    ListingOfChart(s);
    ListingOfChart(c);
    var once, first, last := FreshMerge(s, c, limit, liveBucket), s[0].time, s[|s| - 1].time;
    var full := SnapshotChart(ChartOf(s), ChartOf(c), first, last, liveBucket);
    SnapshotChartOk(ChartOf(s), ChartOf(c), first, last, liveBucket);
    LastIsKept(full, limit);
    ListingOrdered(Kept(full, limit));
    ChartOfListing(Kept(full, limit));
    KeptIsShort(full, limit);
    ShortStays(once);
    SnapshotTwice(ChartOf(s), ChartOf(c), first, last, liveBucket, limit);
    SnapshotChartOk(ChartOf(s), Kept(full, limit), first, last, liveBucket);
    LastIsKept(SnapshotChart(ChartOf(s), Kept(full, limit), first, last, liveBucket), limit);
  }

  // ----- A stale snapshot -----

  /** The live candles under their times. */
  function Overlaid(s: Chart, c: Chart): Chart {
    map t | t in c :: WithVolume(c[t], s)
  }

  lemma {:induction false} LiveChart(s: Chart, cs: seq<Candle>, n: nat)
    requires ChartOk(s) && AllValid(cs) && n <= |cs|
    ensures PutAll(map[], LiveCandles(s, cs), n) == Overlaid(s, PutAll(map[], cs, n))
    ensures ChartOk(PutAll(map[], cs, n))
  {
    if n > 0 {
      LiveChart(s, cs, n - 1);
      assert Valid(LiveCandles(s, cs)[n - 1]);
    }
  }

  /**
   A stale snapshot fills in what the live list lacks: the result is the newest part of the
   live candles, with the volumes of the snapshot, over the candles of the snapshot.
   */
  lemma StaleFillsIn(snapshot: seq<Candle>, current: seq<Candle>, limit: nat, o: SnapshotOptions)
    requires o.stale
    ensures var s, c := Merge([], snapshot, MAX_RETAINED_CANDLES), Merge([], current, MAX_RETAINED_CANDLES);
      s != [] ==> ChartOf(SnapshotMerge(snapshot, current, limit, o))
                  == Kept(ChartOf(s) + Overlaid(ChartOf(s), ChartOf(c)), limit)
  {
    var s, c := Merge([], snapshot, MAX_RETAINED_CANDLES), Merge([], current, MAX_RETAINED_CANDLES);
    MergeOrdered([], snapshot, MAX_RETAINED_CANDLES);
    MergeOrdered([], current, MAX_RETAINED_CANDLES);
    ListingOfChart(s);
    LiveChart(ChartOf(s), c, |c|);
    MergeIsUnion(s, LiveCandles(ChartOf(s), c), limit);
  }

  lemma OverlaidAgain(s: Chart, c: Chart, limit: nat)
    requires ChartOk(s) && ChartOk(c)
    ensures var full := s + Overlaid(s, c);
      Overlaid(s, Kept(full, limit)) == Kept(full, limit) && Kept(s + Kept(full, limit), limit) == Kept(full, limit)
  {
    var full := s + Overlaid(s, c);
    if limit == 0 {
      assert s + full == full;
    } else {
      NewestIsPart(full, limit);
      AbsorbRight(s, full, limit, limit);
      assert s + full == full;
    }
  }

  /** A stale snapshot merged into its own result changes nothing. */
  lemma StaleTwice(s: seq<Candle>, c: seq<Candle>, limit: nat)
    requires Increasing(s) && AllValid(s) && Increasing(c) && AllValid(c) && 0 < limit <= MAX_RETAINED_CANDLES
    ensures var once := Merge(s, LiveCandles(ChartOf(s), c), limit);
      Merge([], once, MAX_RETAINED_CANDLES) == once && Merge(s, LiveCandles(ChartOf(s), once), limit) == once
  {
    var once := Merge(s, LiveCandles(ChartOf(s), c), limit);
    ListingOfChart(s);
    LiveChart(ChartOf(s), c, |c|);
    MergeIsUnion(s, LiveCandles(ChartOf(s), c), limit);
    MergeOrdered(s, LiveCandles(ChartOf(s), c), limit);
    ShortStays(once);
    LiveChart(ChartOf(s), once, |once|);
    MergeIsUnion(s, LiveCandles(ChartOf(s), once), limit);
    OverlaidAgain(ChartOf(s), ChartOf(c), limit);
  }

  /** Merging the same snapshot, fresh or stale, into the result again changes nothing. */
  lemma SnapshotIdempotent(snapshot: seq<Candle>, current: seq<Candle>, limit: nat, o: SnapshotOptions)
    requires 0 < limit <= MAX_RETAINED_CANDLES
    ensures var once := SnapshotMerge(snapshot, current, limit, o);
      SnapshotMerge(snapshot, once, limit, o) == once
  {
    var s, c := Merge([], snapshot, MAX_RETAINED_CANDLES), Merge([], current, MAX_RETAINED_CANDLES);
    MergeOrdered([], snapshot, MAX_RETAINED_CANDLES);
    MergeOrdered([], current, MAX_RETAINED_CANDLES);
    if s == [] {
      ShortStays(SnapshotMerge(snapshot, current, limit, o));
    } else if o.stale {
      StaleTwice(s, c, limit);
    } else {
      FreshTwice(s, c, limit, LiveBucket(o));
    }
  }

  lemma KeptIsShort(m: Chart, limit: nat)
    requires ChartOk(m) && limit > 0
    ensures |Listing(Kept(m, limit))| <= limit
  {
    LastIsKept(m, limit);
  }

  /** A clean list within the bound passes through a merge unchanged. */
  lemma ShortStays(s: seq<Candle>)
    requires Increasing(s) && AllValid(s) && |s| <= MAX_RETAINED_CANDLES
    ensures Merge([], s, MAX_RETAINED_CANDLES) == s
  {
    ListingOfChart(s);
    assert PutAll(map[], [], 0) == map[];
  }
}
