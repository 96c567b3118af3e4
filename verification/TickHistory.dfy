/** What replaying a time-ordered run of ticks yields, bucket by bucket. */
module TickHistory {
  import opened Common
  import opened Candles
  import opened CandleReplay

  ghost predicate TimeOrdered(ticks: seq<Tick>) {
    forall i, j | 0 <= i < j < |ticks| :: ticks[i].publishedAt <= ticks[j].publishedAt
  }

  /** Whether a tick counts for a bucket. */
  predicate FallsIn(t: Tick, width: nat, bucket: Time)
    requires width > 0
  {
    Usable(t) && Bucket(t.publishedAt, width) == bucket
  }

  /** The last price of a bucket among the first n ticks. */
  function LastPrice(ticks: seq<Tick>, n: nat, width: nat, bucket: Time): Option<real>
    requires width > 0 && n <= |ticks|
  {
    if n == 0 then None
    else if FallsIn(ticks[n - 1], width, bucket) then Some(ticks[n - 1].price)
    else LastPrice(ticks, n - 1, width, bucket)
  }

  function FirstPrice(ticks: seq<Tick>, n: nat, width: nat, bucket: Time): Option<real>
    requires width > 0 && n <= |ticks|
  {
    if n == 0 then None
    else
      var earlier := FirstPrice(ticks, n - 1, width, bucket);
      if earlier.None? && FallsIn(ticks[n - 1], width, bucket) then Some(ticks[n - 1].price) else earlier
  }

  /** The largest of a start value and the prices of a bucket. */
  function HighFrom(ticks: seq<Tick>, n: nat, width: nat, bucket: Time, start: real): real
    requires width > 0 && n <= |ticks|
  {
    if n == 0 then start
    else
      var earlier := HighFrom(ticks, n - 1, width, bucket, start);
      if FallsIn(ticks[n - 1], width, bucket) then MaxReal(earlier, ticks[n - 1].price) else earlier
  }

  function LowFrom(ticks: seq<Tick>, n: nat, width: nat, bucket: Time, start: real): real
    requires width > 0 && n <= |ticks|
  {
    if n == 0 then start
    else
      var earlier := LowFrom(ticks, n - 1, width, bucket, start);
      if FallsIn(ticks[n - 1], width, bucket) then MinReal(earlier, ticks[n - 1].price) else earlier
  }

  /** One candle says what its bucket's ticks say; adjacent candles join up. */
  ghost predicate Faithful(ticks: seq<Tick>, n: nat, width: nat, s: seq<Candle>, i: nat)
    requires width > 0 && n <= |ticks| && i < |s|
  {
    var c := s[i];
    && LastPrice(ticks, n, width, c.time) == Some(c.close)
    && c.high == HighFrom(ticks, n, width, c.time, c.open)
    && c.low == LowFrom(ticks, n, width, c.time, c.open)
    && c.volume == 0.0
    && (if i > 0 && s[i - 1].time + width == c.time then c.open == s[i - 1].close
        else FirstPrice(ticks, n, width, c.time) == Some(c.open))
  }

  /** There is one candle for every bucket with a usable tick, and for no other. */
  ghost predicate Covers(ticks: seq<Tick>, n: nat, width: nat, s: seq<Candle>)
    requires width > 0 && n <= |ticks|
  {
    forall k | 0 <= k < n && Usable(ticks[k]) :: exists i :: 0 <= i < |s| && s[i].time == Bucket(ticks[k].publishedAt, width)
  }

  ghost predicate History(ticks: seq<Tick>, n: nat, width: nat, s: seq<Candle>)
    requires width > 0 && n <= |ticks|
  {
    && Increasing(s) && AllValid(s) && Covers(ticks, n, width, s)
    && forall i | 0 <= i < |s| :: Faithful(ticks, n, width, s, i)
  }

  // ----- Appending in time order -----

  /** The candle an extension ends with, which depends on the last candle only. */
  function EndOf(s: seq<Candle>, price: real, bucket: Time, width: nat): Candle {
    if s == [] then Opened(price, price, bucket)
    else
      var last := s[|s| - 1];
      if last.time == bucket then Updated(last, price)
      else if last.time + width == bucket then Opened(last.close, price, bucket)
      else Opened(price, price, bucket)
  }

  function FrontOf(s: seq<Candle>, bucket: Time): seq<Candle> {
    if s != [] && s[|s| - 1].time == bucket then s[..|s| - 1] else s
  }

  /** The full history after one more usable price in its newest bucket, or in a newer one. */
  function Extended(s: seq<Candle>, price: real, bucket: Time, width: nat): seq<Candle> {
    FrontOf(s, bucket) + [EndOf(s, price, bucket, width)]
  }

  function FullReplay(ticks: seq<Tick>, n: nat, width: nat): seq<Candle>
    requires width > 0 && n <= |ticks|
  {
    if n == 0 then []
    else
      var before := FullReplay(ticks, n - 1, width);
      var t := ticks[n - 1];
      if Usable(t) then Extended(before, t.price, Bucket(t.publishedAt, width), width) else before
  }

  ghost predicate NoneAfter(s: seq<Candle>, time: Time) {
    s != [] ==> s[|s| - 1].time <= time
  }

  lemma ExtendedOk(s: seq<Candle>, price: real, bucket: Time, width: nat)
    requires Increasing(s) && AllValid(s) && NoneAfter(s, bucket) && price > 0.0
    ensures Increasing(Extended(s, price, bucket, width)) && AllValid(Extended(s, price, bucket, width))
    ensures NoneAfter(Extended(s, price, bucket, width), bucket)
  {
  }

  lemma BucketsOrdered(a: Time, b: Time, width: nat)
    requires width > 0 && 0 < a <= b
    ensures Bucket(a, width) <= Bucket(b, width)
  {
    AtMostQuotient(a / width, b, width);
    QuotientBounds(a, width);
    MulMonotone(a / width, b / width, width);
  }

  lemma {:induction false} NewestBucket(ticks: seq<Tick>, n: nat, width: nat, at: Time)
    requires width > 0 && n <= |ticks| && TimeOrdered(ticks) && at > 0
    requires forall k | 0 <= k < n :: ticks[k].publishedAt <= at
    ensures var s := FullReplay(ticks, n, width);
      Increasing(s) && AllValid(s) && NoneAfter(s, Bucket(at, width))
  {
    if n > 0 {
      var t := ticks[n - 1];
      if t.publishedAt > 0 {
        NewestBucket(ticks, n - 1, width, t.publishedAt);
        BucketsOrdered(t.publishedAt, at, width);
        if Usable(t) {
          ExtendedOk(FullReplay(ticks, n - 1, width), t.price, Bucket(t.publishedAt, width), width);
        }
      } else {
        NewestBucket(ticks, n - 1, width, at);
      }
    }
  }

  // ----- The bounded replay is the newest part of the full one -----

  /** In an increasing list that ends by the bucket, the searches of `upsertPrice` look at the last candle only. */
  lemma NextOfLast(s: seq<Candle>, price: real, bucket: Time, width: nat)
    requires Increasing(s) && NoneAfter(s, bucket) && width > 0
    ensures Extended(s, price, bucket, width)
         == FrontOf(s, bucket) + [NextCandle(s, price, bucket, width)]
  {
    var found := FindTime(s, bucket, 0);
    if s != [] {
      assert forall i | 0 <= i < |s| - 1 :: s[i].time < s[|s| - 1].time;
    }
  }

  lemma {:induction false} PutAllPrefix(s: seq<Candle>, c: Candle, n: nat)
    requires n <= |s|
    ensures PutAll(map[], s + [c], n) == PutAll(map[], s, n)
  {
    if n > 0 {
      PutAllPrefix(s, c, n - 1);
    }
  }

  lemma ChartOfAppend(s: seq<Candle>, c: Candle)
    requires Valid(c)
    ensures ChartOf(s + [c]) == ChartOf(s)[c.time := c]
  {
    PutAllPrefix(s, c, |s|);
  }

  /** Storing the next candle in a list that ends by its time extends the list. */
  lemma MergeExtends(s: seq<Candle>, price: real, bucket: Time, width: nat, limit: nat)
    requires Increasing(s) && AllValid(s) && NoneAfter(s, bucket) && price > 0.0 && width > 0
    ensures Merge(s, [NextCandle(s, price, bucket, width)], limit) == LastOf(Extended(s, price, bucket, width), limit)
  {
    var c, e := NextCandle(s, price, bucket, width), Extended(s, price, bucket, width);
    NextIsValid(s, price, bucket, width);
    ExtendedOk(s, price, bucket, width);
    NextOfLast(s, price, bucket, width);
    ListingOfChart(s);
    ChartOfAppend(s, c);
    if s != [] && s[|s| - 1].time == bucket {
      var front, last := s[..|s| - 1], s[|s| - 1];
      assert s == front + [last];
      ChartOfAppend(front, last);
      ChartOfAppend(front, c);
      assert ChartOf(s)[bucket := c] == ChartOf(front)[bucket := c];
    }
    ListingOfChart(e);
    MergeOne(s, c, limit);
    LastIsKept(ChartOf(e), limit);
  }

  lemma LastOfAppend(s: seq<Candle>, c: Candle, k: nat, limit: nat)
    requires 0 < limit && k <= |s| && |s| - k + 1 >= limit
    ensures LastOf(s[k..] + [c], limit) == LastOf(s + [c], limit)
  {
    assert s[k..] + [c] == (s + [c])[k..];
  }

  /** Cutting first and extending later leaves the same newest candles. */
  lemma LastOfExtended(s: seq<Candle>, price: real, bucket: Time, width: nat, limit: nat)
    ensures LastOf(Extended(LastOf(s, limit), price, bucket, width), limit) == LastOf(Extended(s, price, bucket, width), limit)
  {
    if 0 < limit < |s| {
      var cut, front, c := LastOf(s, limit), FrontOf(s, bucket), EndOf(s, price, bucket, width);
      assert cut[|cut| - 1] == s[|s| - 1];
      assert FrontOf(cut, bucket) == front[|s| - limit..];
      LastOfAppend(front, c, |s| - limit, limit);
    }
  }

  lemma LastOfOk(s: seq<Candle>, bucket: Time, limit: nat)
    requires Increasing(s) && AllValid(s)
    ensures Increasing(LastOf(s, limit)) && AllValid(LastOf(s, limit))
    ensures NoneAfter(s, bucket) ==> NoneAfter(LastOf(s, limit), bucket)
    ensures Merge([], LastOf(s, limit), limit) == LastOf(s, limit)
  {
    var cut := LastOf(s, limit);
    ListingOfChart(cut);
    MergeIsUnion([], cut, limit);
    assert ChartOf([]) + ChartOf(cut) == ChartOf(cut);
    LastIsKept(ChartOf(cut), limit);
  }

  /** With time-ordered ticks, replaying into a bounded list keeps the newest candles of the full replay. */
  lemma {:induction false} ReplayIsNewest(ticks: seq<Tick>, n: nat, width: nat, limit: nat)
    requires width > 0 && n <= |ticks| && TimeOrdered(ticks)
    ensures Replay([], ticks, n, width, limit) == LastOf(FullReplay(ticks, n, width), limit)
  {
    if n > 0 {
      var t, s := ticks[n - 1], FullReplay(ticks, n - 1, width);
      ReplayIsNewest(ticks, n - 1, width, limit);
      var at := if t.publishedAt > 0 then t.publishedAt else 1;
      NewestBucket(ticks, n - 1, width, at);
      LastOfOk(s, Bucket(at, width), limit);
      if Usable(t) {
        MergeExtends(LastOf(s, limit), t.price, Bucket(at, width), width, limit);
        LastOfExtended(s, t.price, Bucket(at, width), width, limit);
      }
    }
  }

  // ----- The full replay is the history of the ticks -----

  lemma {:induction false} NothingInBucket(ticks: seq<Tick>, n: nat, width: nat, bucket: Time, start: real)
    requires width > 0 && n <= |ticks| && forall k | 0 <= k < n :: !FallsIn(ticks[k], width, bucket)
    ensures FirstPrice(ticks, n, width, bucket).None?
    ensures HighFrom(ticks, n, width, bucket, start) == start == LowFrom(ticks, n, width, bucket, start)
  {
    if n > 0 { NothingInBucket(ticks, n - 1, width, bucket, start); }
  }

  /** A candle of an older bucket is as faithful after the tick as before. */
  lemma FaithfulKept(ticks: seq<Tick>, n: nat, width: nat, s: seq<Candle>, e: seq<Candle>, i: nat)
    requires width > 0 && 0 < n <= |ticks| && i < |s| && i < |e| && s[i] == e[i] && (i > 0 ==> s[i - 1] == e[i - 1])
    requires Faithful(ticks, n - 1, width, s, i) && !FallsIn(ticks[n - 1], width, s[i].time)
    ensures Faithful(ticks, n, width, e, i)
  {
  }

  /** The newest candle after another price of its own bucket. */
  lemma FaithfulUpdated(ticks: seq<Tick>, n: nat, width: nat, s: seq<Candle>)
    requires width > 0 && 0 < n <= |ticks| && s != [] && FallsIn(ticks[n - 1], width, s[|s| - 1].time)
    requires Faithful(ticks, n - 1, width, s, |s| - 1)
    requires FirstPrice(ticks, n - 1, width, s[|s| - 1].time).Some?
    ensures var e := s[..|s| - 1] + [Updated(s[|s| - 1], ticks[n - 1].price)]; Faithful(ticks, n, width, e, |s| - 1)
  {
  }

  lemma {:induction false} FirstIfLast(ticks: seq<Tick>, n: nat, width: nat, bucket: Time)
    requires width > 0 && n <= |ticks| && LastPrice(ticks, n, width, bucket).Some?
    ensures FirstPrice(ticks, n, width, bucket).Some?
  {
    if !FallsIn(ticks[n - 1], width, bucket) { FirstIfLast(ticks, n - 1, width, bucket); }
  }

  /** The first candle of a new bucket. */
  lemma FaithfulOpened(ticks: seq<Tick>, n: nat, width: nat, s: seq<Candle>, bucket: Time)
    requires width > 0 && 0 < n <= |ticks| && FallsIn(ticks[n - 1], width, bucket)
    requires Increasing(s) && (s != [] ==> s[|s| - 1].time < bucket) && Covers(ticks, n - 1, width, s)
    ensures Faithful(ticks, n, width, Extended(s, ticks[n - 1].price, bucket, width), |s|)
  {
    var e := Extended(s, ticks[n - 1].price, bucket, width);
    forall k | 0 <= k < n - 1 ensures !FallsIn(ticks[k], width, bucket) {
      if Usable(ticks[k]) {
        var i :| 0 <= i < |s| && s[i].time == Bucket(ticks[k].publishedAt, width);
        assert i < |s| - 1 ==> s[i].time < s[|s| - 1].time;
      }
    }
    NothingInBucket(ticks, n - 1, width, bucket, e[|s|].open);
  }

  lemma CoversExtended(ticks: seq<Tick>, n: nat, width: nat, s: seq<Candle>, bucket: Time)
    requires width > 0 && 0 < n <= |ticks| && FallsIn(ticks[n - 1], width, bucket) && Covers(ticks, n - 1, width, s)
    ensures Covers(ticks, n, width, Extended(s, ticks[n - 1].price, bucket, width))
  {
    var e := Extended(s, ticks[n - 1].price, bucket, width);
    forall k | 0 <= k < n && Usable(ticks[k])
      ensures exists i :: 0 <= i < |e| && e[i].time == Bucket(ticks[k].publishedAt, width)
    {
      if k == n - 1 {
        assert e[|e| - 1].time == bucket;
      } else {
        var i :| 0 <= i < |s| && s[i].time == Bucket(ticks[k].publishedAt, width);
        assert e[i].time == s[i].time;
      }
    }
  }

  lemma HistoryExtended(ticks: seq<Tick>, n: nat, width: nat, s: seq<Candle>, bucket: Time)
    requires width > 0 && 0 < n <= |ticks| && FallsIn(ticks[n - 1], width, bucket)
    requires History(ticks, n - 1, width, s) && NoneAfter(s, bucket)
    ensures History(ticks, n, width, Extended(s, ticks[n - 1].price, bucket, width))
  {
    var e := Extended(s, ticks[n - 1].price, bucket, width);
    ExtendedOk(s, ticks[n - 1].price, bucket, width);
    CoversExtended(ticks, n, width, s, bucket);
    forall i | 0 <= i < |e| ensures Faithful(ticks, n, width, e, i) {
      if i < |s| { assert i < |s| - 1 ==> s[i].time < s[|s| - 1].time; }
      if i == |s| {
        FaithfulOpened(ticks, n, width, s, bucket);
      } else if s[i].time == bucket {
        assert Faithful(ticks, n - 1, width, s, i);
        FirstIfLast(ticks, n - 1, width, bucket);
        FaithfulUpdated(ticks, n, width, s);
      } else {
        FaithfulKept(ticks, n, width, s, e, i);
      }
    }
  }

  lemma HistorySkips(ticks: seq<Tick>, n: nat, width: nat, s: seq<Candle>)
    requires width > 0 && 0 < n <= |ticks| && !Usable(ticks[n - 1]) && History(ticks, n - 1, width, s)
    ensures History(ticks, n, width, s)
  {
    forall i | 0 <= i < |s| ensures Faithful(ticks, n, width, s, i) {
      assert Faithful(ticks, n - 1, width, s, i);
    }
  }

  /** Replaying a time-ordered run of ticks from nothing gives the history of the run. */
  lemma {:induction false} FullReplayIsHistory(ticks: seq<Tick>, n: nat, width: nat)
    requires width > 0 && n <= |ticks| && TimeOrdered(ticks)
    ensures History(ticks, n, width, FullReplay(ticks, n, width))
  {
    if n > 0 {
      var t, s := ticks[n - 1], FullReplay(ticks, n - 1, width);
      FullReplayIsHistory(ticks, n - 1, width);
      if Usable(t) {
        NewestBucket(ticks, n - 1, width, t.publishedAt);
        HistoryExtended(ticks, n, width, s, Bucket(t.publishedAt, width));
      } else {
        HistorySkips(ticks, n, width, s);
      }
    }
  }

  /**
   The bounded replay of a time-ordered run is the newest part of a list with one candle for
   every bucket: its close is the last price, its high and low the extremes of its open and its
   prices, and its open the close of the bucket before if there is one.
   */
  lemma ReplayIsHistory(ticks: seq<Tick>, width: nat, limit: nat)
    requires width > 0 && TimeOrdered(ticks)
    ensures exists s :: History(ticks, |ticks|, width, s) && Replay([], ticks, |ticks|, width, limit) == LastOf(s, limit)
  {
    FullReplayIsHistory(ticks, |ticks|, width);
    ReplayIsNewest(ticks, |ticks|, width, limit);
  }

  // ----- Buffered ticks -----

  /** `bufferMonotonicTick`. */
  function Buffered(updates: seq<Tick>, candidate: Tick, floor: int): seq<Tick> {
    var latest := if updates == [] then floor else updates[|updates| - 1].publishedAt;
    if candidate.publishedAt < Max(floor, latest) then updates else updates + [candidate]
  }

  function BufferAll(candidates: seq<Tick>, n: nat, floor: int): seq<Tick>
    requires n <= |candidates|
  {
    if n == 0 then [] else Buffered(BufferAll(candidates, n - 1, floor), candidates[n - 1], floor)
  }

  /** Whatever arrives in whatever order, the buffer is time-ordered and respects the floor. */
  lemma {:induction false} BufferOrdered(candidates: seq<Tick>, n: nat, floor: int)
    requires n <= |candidates|
    ensures TimeOrdered(BufferAll(candidates, n, floor))
    ensures forall i | 0 <= i < |BufferAll(candidates, n, floor)| ::
      BufferAll(candidates, n, floor)[i].publishedAt >= floor && BufferAll(candidates, n, floor)[i] in candidates
  {
    if n > 0 { BufferOrdered(candidates, n - 1, floor); }
  }

  /** So a flushed buffer always replays to the history of what it holds. */
  lemma BufferReplays(candidates: seq<Tick>, floor: int, width: nat, limit: nat)
    requires width > 0
    ensures var ticks := BufferAll(candidates, |candidates|, floor);
      exists s :: History(ticks, |ticks|, width, s) && Replay([], ticks, |ticks|, width, limit) == LastOf(s, limit)
  {
    BufferOrdered(candidates, |candidates|, floor);
    ReplayIsHistory(BufferAll(candidates, |candidates|, floor), width, limit);
  }
}
