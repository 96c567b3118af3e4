/** Folding price ticks into candles (`upsertPrice`, `replayPriceUpdates`, `bufferMonotonicTick`). */
module CandleReplay {
  import opened Common
  import opened Candles

  datatype Tick = Tick(price: real, publishedAt: Time)

  function MaxReal(a: real, b: real): real {
    if a >= b then a else b
  }

  function MinReal(a: real, b: real): real {
    if a <= b then a else b
  }

  predicate Usable(t: Tick) {
    t.price > 0.0 && t.publishedAt > 0
  }

  /** Start of the interval a moment falls into. */
  function Bucket(at: Time, width: nat): (b: Time)
    requires width > 0 && at > 0
    ensures b <= at < b + width
  {
    QuotientBounds(at, width);
    AtMostQuotient(0, at, width);
    MulMonotone(0, at / width, width);
    at / width * width
  }

  /** The last candle among the first n that is older than a time. */
  function LastBefore(s: seq<Candle>, n: nat, time: Time): (found: Option<nat>)
    requires n <= |s|
    ensures found.Some? ==> found.value < n && s[found.value].time < time
    ensures found.Some? ==> forall i | found.value < i < n :: s[i].time >= time
    ensures found.None? ==> forall i | 0 <= i < n :: s[i].time >= time
  {
    if n == 0 then None else if s[n - 1].time < time then Some(n - 1) else LastBefore(s, n - 1, time)
  }

  /** The first candle of a time, from position k on. */
  function FindTime(s: seq<Candle>, time: Time, k: nat): (found: Option<nat>)
    requires k <= |s|
    ensures found.Some? ==> k <= found.value < |s| && s[found.value].time == time
    ensures found.None? ==> forall i | k <= i < |s| :: s[i].time != time
    decreases |s| - k
  {
    if k == |s| then None else if s[k].time == time then Some(k) else FindTime(s, time, k + 1)
  }

  function Updated(c: Candle, price: real): Candle {
    c.(close := price, high := MaxReal(c.high, price), low := MinReal(c.low, price))
  }

  function Opened(open: real, price: real, time: Time): Candle {
    Candle(time, open, MaxReal(open, price), MinReal(open, price), price, 0.0)
  }

  /** The candle of a bucket after one more price. */
  function NextCandle(s: seq<Candle>, price: real, bucket: Time, width: nat): (c: Candle)
    ensures c.time == bucket
  {
    var existing := FindTime(s, bucket, 0);
    var previous := LastBefore(s, |s|, bucket);
    if existing.Some? then Updated(s[existing.value], price)
    else if previous.Some? && s[previous.value].time + width == bucket
    then Opened(s[previous.value].close, price, bucket)
    else Opened(price, price, bucket)
  }

  /** `upsertPrice`. */
  function Upsert(candles: seq<Candle>, t: Tick, width: nat, limit: nat): seq<Candle>
    requires width > 0
  {
    var valid := Merge([], candles, limit);
    if !Usable(t) then valid
    else Merge(valid, [NextCandle(valid, t.price, Bucket(t.publishedAt, width), width)], limit)
  }

  /** `replayPriceUpdates` of the first n ticks. */
  function Replay(candles: seq<Candle>, ticks: seq<Tick>, n: nat, width: nat, limit: nat): seq<Candle>
    requires width > 0 && n <= |ticks|
  {
    if n == 0 then candles else Upsert(Replay(candles, ticks, n - 1, width, limit), ticks[n - 1], width, limit)
  }

  /** The candle made for a tick always passes `normalizeCandle`. */
  lemma NextIsValid(s: seq<Candle>, price: real, bucket: Time, width: nat)
    requires AllValid(s) && price > 0.0
    ensures Valid(NextCandle(s, price, bucket, width))
  {
  }

  // ----- The same tick twice -----

  lemma {:induction false} DroppedEither(m: Chart, x: Candle, y: Candle, t: Time, n: nat)
    requires t !in Newest(m[t := x], n)
    ensures Newest(m[t := y], n) == Newest(m[t := x], n)
    decreases n
  {
    if n > 0 {
      var latest := Latest(m[t := x]);
      assert m[t := y].Keys == m[t := x].Keys;
      LatestIs(m[t := y], latest);
      if latest != t {
        assert m[t := x] - {latest} == (m - {latest})[t := x];
        assert m[t := y] - {latest} == (m - {latest})[t := y];
        DroppedEither(m - {latest}, x, y, t, n - 1);
      }
    }
  }

  lemma ChartOfOne(c: Candle)
    requires Valid(c)
    ensures ChartOf([c]) == map[c.time := c]
  {
    assert PutAll(map[], [c], 0) == map[];
  }

  lemma MergeOne(s: seq<Candle>, c: Candle, limit: nat)
    requires Valid(c)
    ensures ChartOk(Kept(ChartOf(s)[c.time := c], limit))
    ensures Merge(s, [c], limit) == Listing(Kept(ChartOf(s)[c.time := c], limit))
    ensures ChartOf(Merge(s, [c], limit)) == Kept(ChartOf(s)[c.time := c], limit)
  {
    ChartOfOne(c);
    assert ChartOf(s) + map[c.time := c] == ChartOf(s)[c.time := c];
    MergeIsUnion(s, [c], limit);
  }

  lemma {:induction false} InListing(s: seq<Candle>, i: nat)
    requires Increasing(s) && AllValid(s) && i < |s|
    ensures s[i].time in ChartOf(s) && ChartOf(s)[s[i].time] == s[i]
  {
    ListingOfChart(s);
    ListingOrdered(ChartOf(s));
  }

  lemma NotInListing(s: seq<Candle>, time: Time)
    requires Increasing(s) && AllValid(s) && forall i | 0 <= i < |s| :: s[i].time != time
    ensures time !in ChartOf(s)
  {
    ListingOfChart(s);
    if time in ChartOf(s) { ListingHasAll(ChartOf(s), time); }
  }

  /** Putting a candle a second time, or another one of a time that was dropped, changes nothing. */
  lemma KeptTwice(m: Chart, x: Candle, y: Candle, limit: nat)
    requires ChartOk(m) && x.time == y.time
    requires x.time in Kept(m[x.time := x], limit) ==> x == y
    ensures Kept(Kept(m[x.time := x], limit)[x.time := y], limit) == Kept(m[x.time := x], limit)
  {
    var t, once := x.time, m[x.time := x];
    if limit == 0 {
      assert once[t := y] == once;
    } else {
      var one: Chart := map[t := y];
      assert Kept(once, limit)[t := y] == Newest(once, limit) + one;
      AbsorbLeft(once, one, limit, limit);
      assert once + one == m[t := y];
      if x != y { DroppedEither(m, x, y, t, limit); }
    }
  }

  /** The candle just stored absorbs its own price. */
  lemma SameAgain(s: seq<Candle>, x: Candle, price: real, width: nat)
    requires Increasing(s) && AllValid(s) && x.time in ChartOf(s) && ChartOf(s)[x.time] == x
    requires x.close == price && x.low <= price <= x.high
    ensures NextCandle(s, price, x.time, width) == x
  {
    var found := FindTime(s, x.time, 0);
    if found.None? {
      NotInListing(s, x.time);
    } else {
      InListing(s, found.value);
    }
  }

  lemma MergeTwice(s: seq<Candle>, x: Candle, y: Candle, limit: nat)
    requires Increasing(s) && AllValid(s) && Valid(x) && Valid(y) && x.time == y.time
    requires x.time in ChartOf(Merge(s, [x], limit)) ==> x == y
    ensures Merge(Merge(s, [x], limit), [y], limit) == Merge(s, [x], limit)
  {
    ListingOfChart(s);
    MergeOne(s, x, limit);
    MergeOne(Merge(s, [x], limit), y, limit);
    KeptTwice(ChartOf(s), x, y, limit);
  }

  /** What a usable tick stores is there unless it was dropped as too old. */
  lemma StoredAsIs(s: seq<Candle>, x: Candle, limit: nat)
    requires Increasing(s) && AllValid(s) && Valid(x) && x.time in ChartOf(Merge(s, [x], limit))
    ensures ChartOf(Merge(s, [x], limit))[x.time] == x
  {
    MergeOne(s, x, limit);
    NewestIsPart(ChartOf(s)[x.time := x], limit);
  }

  /** Upserting the same tick again changes nothing. */
  lemma UpsertIdempotent(candles: seq<Candle>, t: Tick, width: nat, limit: nat)
    requires width > 0
    ensures Upsert(Upsert(candles, t, width, limit), t, width, limit) == Upsert(candles, t, width, limit)
  {
    var valid := Merge([], candles, limit);
    MergeOrdered([], candles, limit);
    MergeFixpoint([], candles, limit);
    if Usable(t) {
      var bucket := Bucket(t.publishedAt, width);
      var x := NextCandle(valid, t.price, bucket, width);
      var once := Merge(valid, [x], limit);
      var y := NextCandle(once, t.price, bucket, width);
      NextIsValid(valid, t.price, bucket, width);
      MergeOrdered(valid, [x], limit);
      MergeFixpoint(valid, [x], limit);
      NextIsValid(once, t.price, bucket, width);
      if x.time in ChartOf(once) {
        StoredAsIs(valid, x, limit);
        SameAgain(once, x, t.price, width);
      }
      MergeTwice(valid, x, y, limit);
    }
  }
}
